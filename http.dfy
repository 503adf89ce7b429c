/** HTTP responses as the handlers write them: a status and a JSON body. */
module Http {

  import opened Models

  const StatusOK: int := 200
  const StatusCreated: int := 201
  const StatusBadRequest: int := 400
  const StatusUnauthorized: int := 401
  const StatusForbidden: int := 403
  const StatusNotFound: int := 404
  const StatusInternalServerError: int := 500

  datatype Body =
    | ErrorBody(error: string)                              // {"error": ...}
    | MessageBody(message: string)                          // {"message": ...}
    | AuthBody(username: string, role: string, token: string)
    | RoleBody(username: string, role: string)
    | TaskBody(task: TaskResponse)
    | TaskListBody(tasks: seq<TaskResponse>)

  datatype Response = Response(status: int, body: Body)

  function Fail(status: int, error: string): Response
  {
    Response(status, ErrorBody(error))
  }
}
