/** The task handlers of the `go_mango` module (controllers/task_controller.go). Unlike
    the `authgo` handlers they check the identifier themselves before calling the
    service, so a malformed one is the client's error. The service results are inputs. */
module GoMangoControllers {

  import opened Common
  import opened ObjectIds
  import opened Models
  import opened Http

  /** `toResponse`: the zero ID shown as "", any other as its hex form, which reads
      back as the same ID. */
  function ToResponse(t: Task): (v: TaskResponse)
    ensures v.id == "" <==> IsZero(t.id)
    ensures !IsZero(t.id) ==> ValidId(v.id) && FromHex(v.id) == Some(t.id)
    ensures v.title == t.title && v.description == t.description
    ensures v.dueDate == t.dueDate && v.status == t.status
  {
    HexRoundTrip(t.id);
    var id := if IsZero(t.id) then "" else Hex(t.id);
    TaskResponse(id, t.title, t.description, t.dueDate, t.status)
  }

  /** Distinct tasks have distinct responses. */
  lemma ToResponseInjective(s: Task, t: Task)
    requires ToResponse(s) == ToResponse(t)
    ensures s == t
  {
  }

  /** `GetTasks`: one response per task, in the order the service returned them. */
  method GetTasks(fetched: Result<seq<Task>>) returns (r: Response)
    ensures fetched.Err? ==> r == Fail(StatusInternalServerError, "failed to fetch tasks")
    ensures fetched.Ok? ==>
              && r.status == StatusOK && r.body.TaskListBody?
              && |r.body.tasks| == |fetched.value|
              && forall i :: 0 <= i < |fetched.value| ==> r.body.tasks[i] == ToResponse(fetched.value[i])
  {
    if fetched.Err? {
      return Fail(StatusInternalServerError, "failed to fetch tasks");
    }
    var tasks := fetched.value;
    var resp: seq<TaskResponse> := [];
    for n := 0 to |tasks|
      invariant |resp| == n
      invariant forall i :: 0 <= i < n ==> resp[i] == ToResponse(tasks[i])
    {
      resp := resp + [ToResponse(tasks[n])];
    }
    return Response(StatusOK, TaskListBody(resp));
  }

  /** `GetTaskByID`: a malformed identifier is refused whatever the service would say. */
  function GetTaskByID(id: string, fetched: Result<Task>): (r: Response)
    ensures !ValidId(id) ==> r == Fail(StatusBadRequest, "invalid task ID")
    ensures ValidId(id) && fetched.Err? ==> r == Fail(StatusInternalServerError, "error fetching task")
    ensures ValidId(id) && fetched.Ok? && IsZero(fetched.value.id) ==> r == Fail(StatusNotFound, "Task not found")
    ensures r.status == StatusOK <==> ValidId(id) && fetched.Ok? && !IsZero(fetched.value.id)
    ensures r.status == StatusOK ==> r.body == TaskBody(ToResponse(fetched.value))
  {
    if FromHex(id).None? then Fail(StatusBadRequest, "invalid task ID")
    else if fetched.Err? then Fail(StatusInternalServerError, "error fetching task")
    else if IsZero(fetched.value.id) then Fail(StatusNotFound, "Task not found")
    else Response(StatusOK, TaskBody(ToResponse(fetched.value)))
  }

  function CreateTask(bindOk: bool, created: Result<Task>): (r: Response)
    ensures !bindOk ==> r == Fail(StatusBadRequest, "invalid JSON, title required")
    ensures bindOk && created.Err? ==> r == Fail(StatusInternalServerError, "failed to create task")
    ensures r.status == StatusCreated <==> bindOk && created.Ok?
    ensures r.status == StatusCreated ==> r.body == TaskBody(ToResponse(created.value))
  {
    if !bindOk then Fail(StatusBadRequest, "invalid JSON, title required")
    else if created.Err? then Fail(StatusInternalServerError, "failed to create task")
    else Response(StatusCreated, TaskBody(ToResponse(created.value)))
  }

  /** `UpdateTask`: the identifier, then the body, then the service's outcome. */
  function UpdateTask(id: string, bindOk: bool, updated: Result<Task>): (r: Response)
    ensures !ValidId(id) ==> r == Fail(StatusBadRequest, "invalid task ID")
    ensures ValidId(id) && !bindOk ==> r == Fail(StatusBadRequest, "invalid JSON")
    ensures ValidId(id) && bindOk && updated.Err? ==>
              r == if updated.error.Message() == "no fields to update"
                   then Fail(StatusBadRequest, "no fields to update")
                   else Fail(StatusInternalServerError, "failed to update task")
    ensures ValidId(id) && bindOk && updated.Ok? && IsZero(updated.value.id) ==>
              r == Fail(StatusNotFound, "Task not found")
    ensures r.status == StatusOK <==> ValidId(id) && bindOk && updated.Ok? && !IsZero(updated.value.id)
    ensures r.status == StatusOK ==> r.body == TaskBody(ToResponse(updated.value))
  {
    if FromHex(id).None? then Fail(StatusBadRequest, "invalid task ID")
    else if !bindOk then Fail(StatusBadRequest, "invalid JSON")
    else if updated.Err? then
      if updated.error.Message() == "no fields to update" then Fail(StatusBadRequest, "no fields to update")
      else Fail(StatusInternalServerError, "failed to update task")
    else if IsZero(updated.value.id) then Fail(StatusNotFound, "Task not found")
    else Response(StatusOK, TaskBody(ToResponse(updated.value)))
  }

  function DeleteTask(id: string, deleted: Result<bool>): (r: Response)
    ensures !ValidId(id) ==> r == Fail(StatusBadRequest, "invalid task ID")
    ensures ValidId(id) && deleted.Err? ==> r == Fail(StatusInternalServerError, "failed to delete task")
    ensures ValidId(id) && deleted == Ok(false) ==> r == Fail(StatusNotFound, "Task not found")
    ensures r.status == StatusOK <==> ValidId(id) && deleted == Ok(true)
    ensures r.status == StatusOK ==> r.body == MessageBody("Task deleted successfully")
  {
    if FromHex(id).None? then Fail(StatusBadRequest, "invalid task ID")
    else if deleted.Err? then Fail(StatusInternalServerError, "failed to delete task")
    else if !deleted.value then Fail(StatusNotFound, "Task not found")
    else Response(StatusOK, MessageBody("Task deleted successfully"))
  }
}
