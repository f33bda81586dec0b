/**
 * The agent's arithmetic: performTask turns a task into its result. The
 * wait for the task's operation time and the polling worker around it are
 * not part of this model.
 */
module Agent {
  import opened Schemas
  import Calc

  /** performTask: the four operators, 0 for a zero divisor and for any other operation. */
  function PerformTask(task: Task): (r: TaskResultRequest)
    ensures r.id == task.id
    ensures Calc.IsOperator(task.operation) && !(task.operation == "/" && task.arg2 == 0.0) ==>
      r.result == Calc.Apply(Calc.DefaultOps(), task.operation, task.arg1, task.arg2)
    ensures !Calc.IsOperator(task.operation) || (task.operation == "/" && task.arg2 == 0.0) ==>
      r.result == 0.0
  {
    var result :=
      match task.operation
      case "+" => task.arg1 + task.arg2
      case "-" => task.arg1 - task.arg2
      case "*" => task.arg1 * task.arg2
      case "/" => if task.arg2 != 0.0 then task.arg1 / task.arg2 else 0.0
      case _ => 0.0;
    TaskResultRequest(task.id, result)
  }

  /** The result depends only on the operation and the two operands. */
  lemma PerformTaskIgnoresIdAndTime(t1: Task, t2: Task)
    requires t1.operation == t2.operation && t1.arg1 == t2.arg1 && t1.arg2 == t2.arg2
    ensures PerformTask(t1).result == PerformTask(t2).result
  {
  }

  /** The expected results of the agent's own test table. */
  lemma PerformTaskTable()
    ensures PerformTask(Task("", 1.0, 1.0, "+", 100)).result == 2.0
    ensures PerformTask(Task("", 2.0, 1.0, "-", 100)).result == 1.0
    ensures PerformTask(Task("", 2.0, 2.0, "*", 100)).result == 4.0
    ensures PerformTask(Task("", 4.0, 2.0, "/", 100)).result == 2.0
    ensures PerformTask(Task("", 4.0, 0.0, "/", 100)).result == 0.0
    ensures PerformTask(Task("", 1.0, 1.0, "invalid", 100)).result == 0.0
    ensures PerformTask(Task("", 1.0, 1.0, "+", 0)).result == 2.0
  {
  }
}
