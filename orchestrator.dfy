/**
 * The orchestrator's registry: the DistributedCalculator with its expression
 * records, its tasks, the set of claimed task ids and the one-shot result
 * slot of every task. The mutex, the goroutines and the database are not
 * part of this model; every operation runs to completion on its own, and the
 * random order of Go's map iteration is a nondeterministic choice.
 */
module Orchestrator {
  import opened Wrappers
  import Strconv
  import opened Schemas
  import Calc
  import Agent

  /** ErrNotFound. */
  datatype Error = ErrNotFound

  /**
   * A task's unbuffered result channel, seen from its single reader:
   * the reader is waiting, a value has been handed over, or the reader has
   * taken it and gone.
   */
  datatype Slot = Waiting | Delivered(value: real) | Consumed

  /** What PostTaskResult does: hands the value over, reports ErrNotFound, or never returns. */
  datatype PostOutcome = Accepted | NotFound | BlocksForever

  // ------------------------------------------------------------ configuration

  /** The environment variable holding the duration of an operation, if the operation has one. */
  function TimeVariable(op: string): (v: Option<string>)
    ensures v.Some? <==> Calc.IsOperator(op)
  {
    match op
    case "+" => Some("TIME_ADDITION_MS")
    case "-" => Some("TIME_SUBTRACTION_MS")
    case "*" => Some("TIME_MULTIPLICATIONS_MS")
    case "/" => Some("TIME_DIVISIONS_MS")
    case _ => None
  }

  /**
   * createNewTask's operation time, with the environment as a map: the
   * variable's value read by ParseInt, where an unset variable (and an
   * unknown operation) reads as "". A non-zero time only comes from the
   * variable of one of the four operators, set in the environment.
   */
  function OperationTime(op: string, env: map<string, string>): (t: Strconv.Int64)
    ensures t != 0 ==> TimeVariable(op).Some? && TimeVariable(op).value in env
  {
    var text := match TimeVariable(op)
      case Some(name) => if name in env then env[name] else ""
      case None => "";
    Strconv.ParseInt(text)
  }

  /** A configured number is the operation time of its operator. */
  lemma OperationTimeConfigured(op: string, env: map<string, string>, n: Strconv.Int64)
    requires TimeVariable(op).Some? && TimeVariable(op).value in env
    requires env[TimeVariable(op).value] == Strconv.FormatInt(n)
    ensures OperationTime(op, env) == n
  {
    Strconv.ParseIntFormatInt(n);
  }

  /** No configuration, no operator or a value that is not a number: the operation time is 0. */
  lemma OperationTimeDefault(op: string, env: map<string, string>)
    requires TimeVariable(op).None? || TimeVariable(op).value !in env || Strconv.NotInteger(env[TimeVariable(op).value])
    ensures OperationTime(op, env) == 0
  {
    if TimeVariable(op).Some? && TimeVariable(op).value in env {
      Strconv.ParseIntSyntaxError(env[TimeVariable(op).value]);
    } else {
      Strconv.ParseIntSyntaxError("");
    }
  }

  // ------------------------------------------------------------ distributed callbacks

  /**
   * The callbacks calculate gives the engine: each one is answered by an
   * agent's performTask on a task with that operator; the divide callback
   * panics on a zero divisor, so it refuses one.
   */
  function DistributedOps(): (ops: Calc.Operations)
    ensures Calc.DivideDefined(ops)
  {
    Calc.Operations(
      (a: real, b: real) => Agent.PerformTask(Task("", a, b, "+", 0)).result,
      (a: real, b: real) => Agent.PerformTask(Task("", a, b, "-", 0)).result,
      (a: real, b: real) => Agent.PerformTask(Task("", a, b, "*", 0)).result,
      (a: real, b: real) requires b != 0.0 => Agent.PerformTask(Task("", a, b, "/", 0)).result)
  }

  /** Every callback the engine may call answers as the default one does. */
  lemma DistributedApply(t: string, a: real, b: real)
    requires Calc.IsOperator(t) && (t == "/" ==> b != 0.0)
    ensures Calc.Apply(DistributedOps(), t, a, b) == Calc.Apply(Calc.DefaultOps(), t, a, b)
  {
    var r := Agent.PerformTask(Task("", a, b, t, 0)).result;
    assert r == Calc.Apply(Calc.DefaultOps(), t, a, b);
  }

  lemma {:induction false} DistributedEvaluate(rpn: seq<string>, stack: seq<real>)
    ensures Calc.Evaluate(DistributedOps(), rpn, stack) == Calc.Evaluate(Calc.DefaultOps(), rpn, stack)
    decreases |rpn|
  {
    if rpn != [] {
      var t := rpn[0];
      if Calc.IsOperator(t) {
        if |stack| >= 2 {
          var b := stack[|stack| - 1];
          var a := stack[|stack| - 2];
          if !(t == "/" && b == 0.0) {
            DistributedApply(t, a, b);
            DistributedEvaluate(rpn[1..], stack[..|stack| - 2] + [Calc.Apply(Calc.DefaultOps(), t, a, b)]);
          }
        }
      } else if Strconv.ParseFloat(t).Some? {
        DistributedEvaluate(rpn[1..], stack + [Strconv.ParseFloat(t).value]);
      }
    }
  }

  /** A distributed evaluation gives what the package-level Calc gives. */
  lemma DistributedCalculation(s: string)
    ensures Calc.Calculation(DistributedOps(), s) == Calc.Calculation(Calc.DefaultOps(), s)
  {
    DistributedEvaluate(Calc.Postfix(Calc.Tokenize(s)), []);
  }

  /** The number of operator tokens in `rpn`: the tasks its evaluation may create. */
  function OperatorCount(rpn: seq<string>): (n: nat)
    ensures n <= |rpn|
  {
    if rpn == [] then 0 else (if Calc.IsOperator(rpn[0]) then 1 else 0) + OperatorCount(rpn[1..])
  }

  /**
   * Part way through a walk over `keys`: `order` lists each key already
   * visited once, and `remaining` holds the keys still to visit.
   */
  ghost predicate Progress(order: seq<string>, remaining: set<string>, keys: set<string>) {
    && remaining <= keys
    && |order| + |remaining| == |keys|
    && (forall i :: 0 <= i < |order| ==> order[i] in keys && order[i] !in remaining)
    && (forall i, j :: 0 <= i < j < |order| ==> order[i] != order[j])
    && (forall k :: k in keys ==> k in order || k in remaining)
  }

  /** `order` lists every key of `keys` exactly once. */
  ghost predicate Enumerates(order: seq<string>, keys: set<string>) {
    Progress(order, {}, keys)
  }

  lemma ProgressStep(order: seq<string>, remaining: set<string>, keys: set<string>, k: string)
    requires Progress(order, remaining, keys) && k in remaining
    ensures Progress(order + [k], remaining - {k}, keys)
  {
    var order' := order + [k];
    forall i, j | 0 <= i < j < |order'| ensures order'[i] != order'[j] {
      if j == |order| { assert order[i] !in remaining; }
    }
  }

  lemma PopTwice(s: seq<real>)
    requires |s| >= 2
    ensures s[..|s| - 1][..|s| - 2] == s[..|s| - 2]
  {
  }

  lemma UpdateTwice<K, V>(m: map<K, V>, k: K, v: V, w: V)
    ensures m[k := v][k := w] == m[k := w]
  {
  }

  /**
   * The registry went from the first three maps and claims to the second
   * three by running the tasks `added`, in order: every earlier task and
   * result slot is unchanged, the added ids are the only new tasks, each with
   * a consumed slot, and the claims gained exactly `added`.
   */
  ghost predicate Grew(tasks0: map<string, Task>, slots0: map<string, Slot>, claims0: seq<string>,
                       tasks1: map<string, Task>, slots1: map<string, Slot>, claims1: seq<string>,
                       added: seq<string>)
  {
    && claims1 == claims0 + added
    && (forall id :: id in tasks1 <==> id in tasks0 || id in added)
    && (forall id :: id in tasks0 ==> tasks1[id] == tasks0[id])
    && (forall id :: id in slots0 ==> id in slots1 && slots1[id] == slots0[id])
    && (forall id :: id in added ==> id in slots1 && slots1[id] == Consumed)
  }

  /** Running no task is a growth by nothing. */
  lemma GrewNone(tasks0: map<string, Task>, slots0: map<string, Slot>, claims0: seq<string>)
    ensures Grew(tasks0, slots0, claims0, tasks0, slots0, claims0, [])
  {
    assert claims0 + [] == claims0;
  }

  /** Two growths in a row are one growth by both task lists. */
  lemma GrewTrans(tasks0: map<string, Task>, slots0: map<string, Slot>, claims0: seq<string>,
                  tasks1: map<string, Task>, slots1: map<string, Slot>, claims1: seq<string>,
                  tasks2: map<string, Task>, slots2: map<string, Slot>, claims2: seq<string>,
                  added1: seq<string>, added2: seq<string>)
    requires Grew(tasks0, slots0, claims0, tasks1, slots1, claims1, added1)
    requires Grew(tasks1, slots1, claims1, tasks2, slots2, claims2, added2)
    ensures Grew(tasks0, slots0, claims0, tasks2, slots2, claims2, added1 + added2)
  {
    assert claims2 == claims0 + (added1 + added2);
  }

  /** A growth by the first `n` ids followed by one by the ids from `n` to `m` is a growth by the first `m`. */
  lemma GrewPrefix(tasks0: map<string, Task>, slots0: map<string, Slot>, claims0: seq<string>,
                   tasks1: map<string, Task>, slots1: map<string, Slot>, claims1: seq<string>,
                   tasks2: map<string, Task>, slots2: map<string, Slot>, claims2: seq<string>,
                   ids: seq<string>, n: nat, m: nat)
    requires n <= m <= |ids|
    requires Grew(tasks0, slots0, claims0, tasks1, slots1, claims1, ids[..n])
    requires Grew(tasks1, slots1, claims1, tasks2, slots2, claims2, ids[n..m])
    ensures Grew(tasks0, slots0, claims0, tasks2, slots2, claims2, ids[..m])
  {
    GrewTrans(tasks0, slots0, claims0, tasks1, slots1, claims1, tasks2, slots2, claims2, ids[..n], ids[n..m]);
    assert ids[..n] + ids[n..m] == ids[..m];
  }

  // ------------------------------------------------------------ the registry

  class DistributedCalculator {
    var expressions: map<string, Expression>
    var tasks: map<string, Task>
    var taskBusy: set<string>
    var resultChans: map<string, Slot>
    /** The ids GetTask has handed out, in order. */
    ghost var claims: seq<string>

    ghost predicate Valid()
      reads this
    {
      && resultChans.Keys == tasks.Keys
      && taskBusy <= tasks.Keys
      && (forall id :: id in tasks ==> tasks[id].id == id)
      && (forall id :: id in expressions ==> expressions[id].id == id)
      && (forall i, j :: 0 <= i < j < |claims| ==> claims[i] != claims[j])
      && (forall id :: id in taskBusy <==> id in claims)
    }

    /** NewDistributedCalculator: everything empty. */
    constructor ()
      ensures Valid()
      ensures expressions == map[] && tasks == map[] && taskBusy == {} && resultChans == map[]
      ensures claims == []
    {
      expressions := map[];
      tasks := map[];
      taskBusy := {};
      resultChans := map[];
      claims := [];
    }

    /** The registration half of createNewTask, for the fresh id `id`. */
    method RegisterTask(id: string, a: real, b: real, op: string, env: map<string, string>)
      requires Valid() && id !in tasks
      modifies this
      ensures Valid()
      ensures tasks == old(tasks)[id := Task(id, a, b, op, OperationTime(op, env))]
      ensures resultChans == old(resultChans)[id := Waiting]
      ensures id !in taskBusy
      ensures taskBusy == old(taskBusy) && claims == old(claims) && expressions == old(expressions)
    {
      var operationTime := OperationTime(op, env);
      tasks := tasks[id := Task(id, a, b, op, operationTime)];
      resultChans := resultChans[id := Waiting];
    }

    /** The receive at the end of createNewTask: takes the value handed over in the slot. */
    method ReceiveResult(id: string) returns (result: real)
      requires Valid() && id in resultChans && resultChans[id].Delivered?
      modifies this
      ensures Valid()
      ensures result == old(resultChans[id].value)
      ensures resultChans == old(resultChans)[id := Consumed]
      ensures tasks == old(tasks) && taskBusy == old(taskBusy) && claims == old(claims)
      ensures expressions == old(expressions)
    {
      result := resultChans[id].value;
      resultChans := resultChans[id := Consumed];
    }

    /** saveResult: the terminal transition of an expression's record. */
    method SaveResult(exprId: string, res: real, err: Option<string>)
      requires Valid()
      modifies this
      ensures Valid()
      ensures exprId !in old(expressions) ==> expressions == old(expressions)
      ensures exprId in old(expressions) && err.Some? ==>
        expressions == old(expressions)[exprId := old(expressions)[exprId].(status := err.value)]
      ensures exprId in old(expressions) && err.None? ==>
        expressions == old(expressions)[exprId := old(expressions)[exprId].(status := "ok", result := res)]
      ensures tasks == old(tasks) && taskBusy == old(taskBusy) && resultChans == old(resultChans)
      ensures claims == old(claims)
    {
      if exprId !in expressions {
        return;
      }
      var expr := expressions[exprId];
      if err.Some? {
        expr := expr.(status := err.value);
      } else {
        expr := expr.(status := "ok", result := res);
      }
      expressions := expressions[exprId := expr];
    }

    /** The record calculate creates before it starts the evaluation, and its answer. */
    method Calculate(id: string, expression: string) returns (response: CalculateResponse)
      requires Valid()
      modifies this
      ensures Valid()
      ensures expressions == old(expressions)[id := Expression(id, "running", 0.0)]
      ensures response == CalculateResponse(id)
      ensures tasks == old(tasks) && taskBusy == old(taskBusy) && resultChans == old(resultChans)
      ensures claims == old(claims)
    {
      expressions := expressions[id := Expression(id, "running", 0.0)];
      response := CalculateResponse(id);
    }

    /** GetExpressions: every record once, in some order. */
    method GetExpressions() returns (response: ExpressionsResponse)
      requires Valid()
      ensures var xs := response.expressions;
        && Enumerates(seq(|xs|, i requires 0 <= i < |xs| => xs[i].id), expressions.Keys)
        && (forall i :: 0 <= i < |xs| ==> xs[i].id in expressions && expressions[xs[i].id] == xs[i])
    {
      var xs: seq<Expression> := [];
      var remaining := expressions.Keys;
      ghost var order: seq<string> := [];
      while remaining != {}
        invariant Progress(order, remaining, expressions.Keys)
        invariant |xs| == |order| && forall i :: 0 <= i < |xs| ==> xs[i] == expressions[order[i]]
        decreases remaining
      {
        var id :| id in remaining;
        ProgressStep(order, remaining, expressions.Keys, id);
        xs := xs + [expressions[id]];
        order := order + [id];
        remaining := remaining - {id};
      }
      assert seq(|xs|, i requires 0 <= i < |xs| => xs[i].id) == order;
      response := ExpressionsResponse(xs);
    }

    /** GetExpressionByID: the record under `id`, or ErrNotFound. */
    method GetExpressionByID(id: string) returns (response: Result<ExpressionResponse, Error>)
      ensures response.Ok? <==> id in expressions
      ensures response.Ok? ==> response.value.expression == expressions[id]
    {
      if id !in expressions {
        return Err(ErrNotFound);
      }
      return Ok(ExpressionResponse(expressions[id]));
    }

    /** GetTask: claims some task no agent has claimed yet, or reports ErrNotFound when there is none. */
    method GetTask() returns (response: Result<TaskResponse, Error>)
      requires Valid()
      modifies this
      ensures Valid()
      ensures response.Err? <==> old(tasks.Keys) <= old(taskBusy)
      ensures response.Err? ==> taskBusy == old(taskBusy) && claims == old(claims)
      ensures response.Ok? ==>
        var id := response.value.task.id;
        && id in tasks && id !in old(taskBusy) && response.value.task == tasks[id]
        && taskBusy == old(taskBusy) + {id} && claims == old(claims) + [id]
      ensures tasks == old(tasks) && resultChans == old(resultChans) && expressions == old(expressions)
    {
      var remaining := tasks.Keys;
      while remaining != {}
        invariant remaining <= tasks.Keys
        invariant tasks.Keys - remaining <= taskBusy
        invariant taskBusy == old(taskBusy) && claims == old(claims)
        decreases remaining
      {
        var id :| id in remaining;
        if id !in taskBusy {
          taskBusy := taskBusy + {id};
          claims := claims + [id];
          return Ok(TaskResponse(tasks[id]));
        }
        remaining := remaining - {id};
      }
      return Err(ErrNotFound);
    }

    /** `t` shows the stored task `t.id` and whether it is handed out. */
    ghost predicate Describes(t: TaskFull)
      reads this
    {
      && t.id in tasks
      && tasks[t.id] == Task(t.id, t.arg1, t.arg2, t.operation, t.operationTime)
      && (t.isBusy <==> t.id in taskBusy)
    }

    /** GetTasks: every task once, in some order, with whether it has been claimed. */
    method GetTasks() returns (response: TaskFullResponse)
      requires Valid()
      ensures var xs := response.tasksFull;
        && Enumerates(seq(|xs|, i requires 0 <= i < |xs| => xs[i].id), tasks.Keys)
        && (forall i :: 0 <= i < |xs| ==> Describes(xs[i]))
    {
      var xs: seq<TaskFull> := [];
      var remaining := tasks.Keys;
      ghost var order: seq<string> := [];
      while remaining != {}
        invariant Progress(order, remaining, tasks.Keys)
        invariant |xs| == |order|
        invariant forall i :: 0 <= i < |xs| ==> xs[i].id == order[i] && Describes(xs[i])
        decreases remaining
      {
        var id :| id in remaining;
        ProgressStep(order, remaining, tasks.Keys, id);
        var task := tasks[id];
        var isBusy := id in taskBusy;
        xs := xs + [TaskFull(task.id, task.arg1, task.arg2, task.operation, task.operationTime, isBusy)];
        order := order + [id];
        remaining := remaining - {id};
      }
      assert seq(|xs|, i requires 0 <= i < |xs| => xs[i].id) == order;
      response := TaskFullResponse(xs);
    }

    /**
     * PostTaskResult: ErrNotFound without a slot; the value is handed over to
     * a waiting reader; with no reader left the send never returns. Whether
     * the task was claimed is not checked, and nothing is removed.
     */
    method PostTaskResult(request: TaskResultRequest) returns (outcome: PostOutcome)
      requires Valid()
      modifies this
      ensures Valid()
      ensures request.id !in old(resultChans) <==> outcome == NotFound
      ensures outcome == Accepted <==> request.id in old(resultChans) && old(resultChans)[request.id] == Waiting
      ensures outcome == Accepted ==> resultChans == old(resultChans)[request.id := Delivered(request.result)]
      ensures outcome != Accepted ==> resultChans == old(resultChans)
      ensures tasks == old(tasks) && taskBusy == old(taskBusy) && claims == old(claims)
      ensures expressions == old(expressions)
    {
      if request.id !in resultChans {
        return NotFound;
      }
      if resultChans[request.id] != Waiting {
        return BlocksForever;
      }
      resultChans := resultChans[request.id := Delivered(request.result)];
      return Accepted;
    }

    /**
     * createNewTask run to its end when no other task is open: the task is
     * registered, an agent claims it with GetTask, answers it with
     * performTask and posts the answer, which createNewTask receives.
     */
    method CreateNewTask(id: string, a: real, b: real, op: string, env: map<string, string>)
      returns (result: real)
      requires Valid() && id !in tasks && taskBusy == tasks.Keys
      modifies this
      ensures Valid() && taskBusy == tasks.Keys
      ensures result == Agent.PerformTask(Task(id, a, b, op, OperationTime(op, env))).result
      ensures tasks == old(tasks)[id := Task(id, a, b, op, OperationTime(op, env))]
      ensures resultChans == old(resultChans)[id := Consumed]
      ensures claims == old(claims) + [id]
      ensures expressions == old(expressions)
    {
      var task := Task(id, a, b, op, OperationTime(op, env));
      ghost var slots := resultChans;
      RegisterTask(id, a, b, op, env);
      assert tasks.Keys == old(tasks.Keys) + {id} && taskBusy == old(tasks.Keys);
      assert id !in taskBusy && id in tasks;
      ghost var registered := resultChans;
      var claimed := GetTask();
      assert claimed.Ok?;
      assert claimed.value.task.id == id by {
        var c := claimed.value.task.id;
        assert c in old(tasks.Keys) + {id} && c !in old(tasks.Keys);
      }
      assert claimed.value.task == task;
      var answer := Agent.PerformTask(claimed.value.task);
      assert answer.id == id && resultChans == registered && registered[id] == Waiting;
      var outcome := PostTaskResult(answer);
      assert outcome == Accepted;
      result := ReceiveResult(id);
      UpdateTwice(slots, id, Waiting, Delivered(answer.result));
      UpdateTwice(slots, id, Delivered(answer.result), Consumed);
    }

    /**
     * Ready for the evaluation's next task: the registry is valid, every task
     * in it has been claimed, and the ids of `ids` from `next` on are distinct
     * and not yet in use.
     */
    ghost predicate Ready(ids: seq<string>, next: nat)
      reads this
    {
      && Valid() && taskBusy == tasks.Keys
      && (forall i, j :: next <= i < j < |ids| ==> ids[i] != ids[j])
      && (forall i :: next <= i < |ids| ==> ids[i] !in tasks)
    }

    /** One distributed callback: the result of the task createNewTask runs for `op` on `a` and `b`, with id `ids[next]`. */
    method ApplyByTask(ids: seq<string>, next: nat, a: real, b: real, op: string, env: map<string, string>)
      returns (result: real)
      requires Calc.IsOperator(op) && (op == "/" ==> b != 0.0)
      requires next < |ids| && Ready(ids, next)
      modifies this
      ensures Ready(ids, next + 1)
      ensures result == Calc.Apply(DistributedOps(), op, a, b)
      ensures Grew(old(tasks), old(resultChans), old(claims), tasks, resultChans, claims, [ids[next]])
      ensures expressions == old(expressions)
    {
      result := CreateNewTask(ids[next], a, b, op, env);
      Agent.PerformTaskIgnoresIdAndTime(Task(ids[next], a, b, op, OperationTime(op, env)), Task("", a, b, op, 0));
    }

    /**
     * The evaluation calculate starts: Operations.Calc with the distributed
     * callbacks, every arithmetic step a task with the next id of `ids`.
     */
    method DistributedCalc(expression: string, ids: seq<string>, env: map<string, string>)
      returns (value: real, err: Option<Calc.CalcError>)
      requires Ready(ids, 0) && |ids| >= |expression|
      modifies this
      ensures Valid() && taskBusy == tasks.Keys
      ensures match Calc.Calculation(DistributedOps(), expression)
        case Ok(v) => value == v && err == None
        case Err(e) => value == 0.0 && err == Some(e)
      ensures expressions == old(expressions)
      ensures exists k :: (0 <= k <= |ids| &&
        Grew(old(tasks), old(resultChans), old(claims), tasks, resultChans, claims, ids[..k]))
    {
      var tokens := Calc.SplitExpression(expression);
      var rpn := Calc.ToRPN(tokens);
      Calc.TokenizeLength(expression);
      Calc.PostfixLength(tokens);
      value, err := EvaluateByTasks(rpn, ids, env);
    }

    /**
     * Operations.Calc's stack machine over the postfix tokens `rpn` with the
     * distributed callbacks. A zero divisor is rejected before any task is
     * created, so the divide callback never panics.
     */
    method EvaluateByTasks(rpn: seq<string>, ids: seq<string>, env: map<string, string>)
      returns (value: real, err: Option<Calc.CalcError>)
      requires Ready(ids, 0) && OperatorCount(rpn) <= |ids|
      modifies this
      ensures Valid() && taskBusy == tasks.Keys
      ensures match Calc.Evaluate(DistributedOps(), rpn, [])
        case Ok(v) => value == v && err == None
        case Err(e) => value == 0.0 && err == Some(e)
      ensures expressions == old(expressions)
      ensures exists k :: (0 <= k <= |ids| &&
        Grew(old(tasks), old(resultChans), old(claims), tasks, resultChans, claims, ids[..k]))
    {
      var stack: seq<real> := [];
      var next := 0;
      ghost var goal := Calc.Evaluate(DistributedOps(), rpn, []);
      ghost var tasks0, slots0, claims0 := tasks, resultChans, claims;
      for i := 0 to |rpn|
        invariant Calc.Evaluate(DistributedOps(), rpn[i..], stack) == goal
        invariant next + OperatorCount(rpn[i..]) <= |ids|
        invariant Ready(ids, next)
        invariant expressions == old(expressions) && next <= |ids|
        invariant Grew(tasks0, slots0, claims0, tasks, resultChans, claims, ids[..next])
      {
        var token := rpn[i];
        assert rpn[i..][0] == token && rpn[i..][1..] == rpn[i + 1..];
        Calc.EvaluateStep(DistributedOps(), rpn[i..], stack);
        var failure;
        ghost var tasks1, slots1, claims1, next1 := tasks, resultChans, claims, next;
        stack, next, failure := StepByTask(token, stack, ids, next, env);
        GrewPrefix(tasks0, slots0, claims0, tasks1, slots1, claims1, tasks, resultChans, claims, ids, next1, next);
        if failure.Some? {
          return 0.0, failure;
        }
      }
      if |stack| != 1 {
        return 0.0, Some(Calc.Malformed);
      }
      return stack[0], None;
    }

    /**
     * One token of Operations.Calc's loop with the distributed callbacks: an
     * operator pops two values and pushes the result of a task, a number is
     * pushed. A zero divisor is rejected before any task is created, so the
     * divide callback never panics.
     */
    method StepByTask(token: string, stack: seq<real>, ids: seq<string>, next: nat, env: map<string, string>)
      returns (stack': seq<real>, next': nat, err: Option<Calc.CalcError>)
      requires Ready(ids, next) && next + (if Calc.IsOperator(token) then 1 else 0) <= |ids|
      modifies this
      ensures Ready(ids, next') && next <= next' <= next + (if Calc.IsOperator(token) then 1 else 0)
      ensures match Calc.Step(DistributedOps(), token, stack)
        case Err(e) => err == Some(e)
        case Ok(s) => err == None && stack' == s
      ensures expressions == old(expressions)
      ensures Grew(old(tasks), old(resultChans), old(claims), tasks, resultChans, claims, ids[next..next'])
    {
      stack', next', err := stack, next, None;
      GrewNone(tasks, resultChans, claims);
      assert ids[next..next] == [];
      if Calc.IsOperator(token) {
        if |stack'| < 2 {
          return stack', next', Some(Calc.Malformed);
        }
        var b := stack'[|stack'| - 1];
        stack' := stack'[..|stack'| - 1];
        var a := stack'[|stack'| - 1];
        stack' := stack'[..|stack'| - 1];
        if token == "/" && b == 0.0 {
          return stack', next', Some(Calc.DivisionByZero);
        }
        var tempResult := ApplyByTask(ids, next', a, b, token, env);
        assert ids[next..next + 1] == [ids[next]];
        next' := next' + 1;
        PopTwice(stack);
        stack' := stack' + [tempResult];
      } else {
        var parsed := Strconv.ParseFloat(token);
        if parsed.None? {
          return stack', next', Some(Calc.InvalidNumber);
        }
        stack' := stack' + [parsed.value];
      }
    }

    /**
     * calculate with its evaluation and the saveResult that ends it, run one
     * after the other: the record under `id` ends as "ok" with the value of
     * the package-level Calc, or as that Calc's error message with result 0.
     * The registry keeps every earlier task, slot and claim, and gains only
     * the tasks of the first ids, each claimed and with its slot used up.
     */
    method RunCalculation(id: string, expression: string, ids: seq<string>, env: map<string, string>)
      returns (response: CalculateResponse)
      requires Ready(ids, 0) && |ids| >= |expression|
      modifies this
      ensures Valid() && taskBusy == tasks.Keys
      ensures response == CalculateResponse(id)
      ensures expressions == old(expressions)[id :=
        match Calc.Calculation(Calc.DefaultOps(), expression)
        case Ok(v) => Expression(id, "ok", v)
        case Err(e) => Expression(id, e.Message(), 0.0)]
      ensures exists k :: (0 <= k <= |ids| &&
        Grew(old(tasks), old(resultChans), old(claims), tasks, resultChans, claims, ids[..k]))
    {
      ghost var records := expressions;
      var running := Expression(id, "running", 0.0);
      response := Calculate(id, expression);
      var value, err := DistributedCalc(expression, ids, env);
      DistributedCalculation(expression);
      var message := if err.Some? then Some(err.value.Message()) else None;
      SaveResult(id, value, message);
      ghost var final := if err.Some? then running.(status := err.value.Message()) else running.(status := "ok", result := value);
      assert expressions == records[id := running][id := final];
      UpdateTwice(records, id, running, final);
    }
  }
}
