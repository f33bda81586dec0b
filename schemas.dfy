/**
 * The orchestrator's record shapes. Go's float64 fields are exact reals and
 * its int64 fields are Strconv.Int64; JSON tags and the protobuf mirrors of
 * Task and TaskResultRequest are not modelled.
 */
module Schemas {
  import Strconv

  /** A request to evaluate an arithmetic expression. */
  datatype CalculateRequest = CalculateRequest(expression: string)

  /** The answer to a CalculateRequest: the id under which the expression is tracked. */
  datatype CalculateResponse = CalculateResponse(id: string)

  /** An expression's record; status is "running", "ok" or an error message. */
  datatype Expression = Expression(id: string, status: string, result: real)

  datatype ExpressionsResponse = ExpressionsResponse(expressions: seq<Expression>)

  datatype ExpressionResponse = ExpressionResponse(expression: Expression)

  /** One binary operation handed out to an agent. */
  datatype Task = Task(id: string, arg1: real, arg2: real, operation: string, operationTime: Strconv.Int64)

  datatype TaskResponse = TaskResponse(task: Task)

  /** An agent's answer for one task. */
  datatype TaskResultRequest = TaskResultRequest(id: string, result: real)

  /** A task together with whether some agent has claimed it. */
  datatype TaskFull = TaskFull(
    id: string, arg1: real, arg2: real, operation: string, operationTime: Strconv.Int64, isBusy: bool)

  datatype TaskFullResponse = TaskFullResponse(tasksFull: seq<TaskFull>)
}
