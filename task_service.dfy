/** The task collection (data/task_service.go): a map from ObjectID to task document.
    Each operation is given twice: as a function from the old collection to the result
    and the new collection, about which the lemmas speak, and as a method of the
    `TaskService` class that performs it step by step on its collection field. */
module TaskData {

  import opened Common
  import opened ObjectIds
  import opened Models

  type Store = map<ObjectId, Task>

  /** What every document of the collection satisfies: it sits under its own `_id`,
      which the driver never generates as the nil ObjectID, and it has a title. */
  ghost predicate WellFormed(store: Store)
  {
    forall k :: k in store ==> store[k].id == k && !IsZero(k) && store[k].title != ""
  }

  /** `tasks` lists the collection: every document exactly once, in some order. */
  ghost predicate Lists(tasks: seq<Task>, store: Store)
  {
    && |tasks| == |store|
    && (forall i :: 0 <= i < |tasks| ==> tasks[i].id in store && store[tasks[i].id] == tasks[i])
    && (forall i, j :: 0 <= i < j < |tasks| ==> tasks[i].id != tasks[j].id)
    && (forall k :: k in store ==> exists i :: 0 <= i < |tasks| && tasks[i].id == k)
  }

  // ---------------------------------------------------------------------------
  // The operations as functions of the collection

  /** `GetTaskByID`: the identifier is parsed before the collection is consulted;
      a well-formed identifier that matches nothing yields the zero task, not an error. */
  function FindTask(store: Store, hexId: string, fault: Option<string>): Result<Task>
  {
    match FromHex(hexId)
    case None => Err(InvalidId)
    case Some(oid) =>
      if fault.Some? then Err(Driver(fault.value))
      else if oid in store then Ok(store[oid])
      else Ok(ZeroTask)
  }

  /** The error the server reports when an insert reuses an `_id`. */
  const DuplicateKey: string := "E11000 duplicate key error"

  /** `CreateTask`. A request without an ID (the only kind the handlers send, since the
      ID is not bound from JSON) is inserted under the fresh `newId`; a request that
      carries one is inserted under it, and an `_id` already present is refused. */
  function CreateTaskStep(store: Store, input: Task, newId: ObjectId, fault: Option<string>): (Result<Task>, Store)
  {
    if input.title == "" then (Err(TitleRequired), store)
    else if fault.Some? then (Err(Driver(fault.value)), store)
    else
      var id := if IsZero(input.id) then newId else input.id;
      if id in store then (Err(Driver(DuplicateKey)), store)
      else (Ok(input.(id := id)), store[id := input.(id := id)])
  }

  /** The document fields the update may write, under their BSON names. */
  const FieldNames: set<string> := {"title", "description", "due_date", "status"}

  function Field(t: Task, name: string): string
  {
    match name
    case "title" => t.title
    case "description" => t.description
    case "due_date" => t.dueDate
    case "status" => t.status
    case _ => ""
  }

  /** The `$set` document of `UpdateTask`, filled one field at a time. */
  function UpdateDoc(u: Task): map<string, string>
  {
    var d1 := if u.title != "" then map["title" := u.title] else map[];
    var d2 := if u.description != "" then d1["description" := u.description] else d1;
    var d3 := if u.dueDate != "" then d2["due_date" := u.dueDate] else d2;
    if u.status != "" then d3["status" := u.status] else d3
  }

  /** Applying `{"$set": doc}` to a stored document. */
  function ApplySet(t: Task, doc: map<string, string>): Task
  {
    Task(t.id,
      if "title" in doc then doc["title"] else t.title,
      if "description" in doc then doc["description"] else t.description,
      if "due_date" in doc then doc["due_date"] else t.dueDate,
      if "status" in doc then doc["status"] else t.status)
  }

  /** The partial-update rule stated field by field: a non-empty request field
      replaces the stored one, every other field and the ID stay as they were. */
  function Merge(stored: Task, u: Task): Task
  {
    Task(stored.id,
      if u.title != "" then u.title else stored.title,
      if u.description != "" then u.description else stored.description,
      if u.dueDate != "" then u.dueDate else stored.dueDate,
      if u.status != "" then u.status else stored.status)
  }

  /** `UpdateTask`: id first, then the field set, then `FindOneAndUpdate` returning the
      document after the update; no match yields the zero task and no error. */
  function UpdateTaskStep(store: Store, hexId: string, u: Task, fault: Option<string>): (Result<Task>, Store)
  {
    match FromHex(hexId)
    case None => (Err(InvalidId), store)
    case Some(oid) =>
      var doc := UpdateDoc(u);
      if |doc| == 0 then (Err(NoFieldsToUpdate), store)
      else if fault.Some? then (Err(Driver(fault.value)), store)
      else if oid !in store then (Ok(ZeroTask), store)
      else (Ok(ApplySet(store[oid], doc)), store[oid := ApplySet(store[oid], doc)])
  }

  /** `DeleteTask`: true exactly when a document was removed. */
  function DeleteTaskStep(store: Store, hexId: string, fault: Option<string>): (Result<bool>, Store)
  {
    match FromHex(hexId)
    case None => (Err(InvalidId), store)
    case Some(oid) =>
      if fault.Some? then (Err(Driver(fault.value)), store)
      else (Ok(oid in store), store - {oid})
  }

  // ---------------------------------------------------------------------------
  // Properties

  /** A malformed identifier is refused with "invalid id" by every operation that takes
      one, before the request body is looked at and whatever the collection holds. */
  lemma MalformedIdRefused(store: Store, hexId: string, u: Task, fault: Option<string>)
    requires !ValidId(hexId)
    ensures FindTask(store, hexId, fault) == Err(InvalidId)
    ensures UpdateTaskStep(store, hexId, u, fault) == (Err(InvalidId), store)
    ensures DeleteTaskStep(store, hexId, fault) == (Err(InvalidId), store)
  {
  }

  /** Not-found is distinct from error: a well-formed identifier yields a task with a
      non-zero ID exactly when the collection holds it, and that task is the stored one. */
  lemma FindDistinguishesAbsence(store: Store, hexId: string)
    requires WellFormed(store)
    requires ValidId(hexId)
    ensures FindTask(store, hexId, None).Ok?
    ensures !IsZero(FindTask(store, hexId, None).value.id) <==> FromHex(hexId).value in store
    ensures FromHex(hexId).value in store ==> FindTask(store, hexId, None).value == store[FromHex(hexId).value]
    ensures FromHex(hexId).value !in store ==> FindTask(store, hexId, None).value == ZeroTask
  {
  }

  /** A stored task is found again under the hex form of its ID. */
  lemma FindByHex(store: Store, t: Task)
    requires t.id in store && store[t.id] == t
    ensures FindTask(store, Hex(t.id), None) == Ok(t)
  {
    HexRoundTrip(t.id);
  }

  /** An empty title is refused and nothing is inserted. A successful create returns the
      input with only its ID set, that ID was not in use before, and the collection gains
      exactly that document. */
  lemma CreateTaskBehaviour(store: Store, input: Task, newId: ObjectId, fault: Option<string>)
    ensures input.title == "" ==> CreateTaskStep(store, input, newId, fault) == (Err(TitleRequired), store)
    ensures CreateTaskStep(store, input, newId, fault).0.Err? ==> CreateTaskStep(store, input, newId, fault).1 == store
    ensures CreateTaskStep(store, input, newId, fault).0.Ok? ==>
              var created := CreateTaskStep(store, input, newId, fault).0.value;
              && input.title != "" && fault.None?
              && created == input.(id := created.id)
              && created.id == (if IsZero(input.id) then newId else input.id)
              && created.id !in store
              && CreateTaskStep(store, input, newId, fault).1 == store[created.id := created]
  {
  }

  /** The `$set` document holds exactly the non-empty fields, each with the request's value. */
  lemma UpdateDocFields(u: Task)
    ensures UpdateDoc(u).Keys <= FieldNames
    ensures forall f :: f in FieldNames ==> (f in UpdateDoc(u) <==> Field(u, f) != "")
    ensures forall f :: f in UpdateDoc(u) ==> UpdateDoc(u)[f] == Field(u, f)
    ensures |UpdateDoc(u)| == 0 <==> u.title == "" && u.description == "" && u.dueDate == "" && u.status == ""
  {
  }

  /** Setting the `$set` document is the field-by-field merge. */
  lemma ApplySetIsMerge(t: Task, u: Task)
    ensures ApplySet(t, UpdateDoc(u)) == Merge(t, u)
  {
  }

  /** A request with no non-empty field is refused with "no fields to update", after the
      identifier check and before any lookup, whether or not the task exists. */
  lemma UpdateWithoutFields(store: Store, hexId: string, u: Task, fault: Option<string>)
    requires ValidId(hexId)
    ensures (UpdateTaskStep(store, hexId, u, fault).0 == Err(NoFieldsToUpdate)) <==>
              u.title == "" && u.description == "" && u.dueDate == "" && u.status == ""
    ensures UpdateTaskStep(store, hexId, u, fault).0 == Err(NoFieldsToUpdate) ==>
              UpdateTaskStep(store, hexId, u, fault).1 == store
  {
  }

  /** On a match, only the supplied fields change, the ID and every other document stay,
      and the document after the update is returned. */
  lemma UpdateMerges(store: Store, hexId: string, u: Task)
    requires ValidId(hexId) && FromHex(hexId).value in store
    requires u.title != "" || u.description != "" || u.dueDate != "" || u.status != ""
    ensures var (r, after) := UpdateTaskStep(store, hexId, u, None);
            var oid := FromHex(hexId).value;
            && r == Ok(Merge(store[oid], u))
            && r.value.id == store[oid].id
            && after == store[oid := r.value]
  {
  }

  /** No match: the zero task, no error, no change. */
  lemma UpdateNotFound(store: Store, hexId: string, u: Task)
    requires ValidId(hexId) && FromHex(hexId).value !in store
    requires u.title != "" || u.description != "" || u.dueDate != "" || u.status != ""
    ensures UpdateTaskStep(store, hexId, u, None) == (Ok(ZeroTask), store)
  {
  }

  /** Last writer wins per field: the same update applied twice has the effect of one. */
  lemma UpdateTwice(store: Store, hexId: string, u: Task)
    ensures UpdateTaskStep(UpdateTaskStep(store, hexId, u, None).1, hexId, u, None) == UpdateTaskStep(store, hexId, u, None)
  {
    var s1 := UpdateTaskStep(store, hexId, u, None).1;
    if FromHex(hexId).Some? && |UpdateDoc(u)| != 0 && FromHex(hexId).value in store {
      var oid := FromHex(hexId).value;
      ApplySetIsMerge(store[oid], u);
      ApplySetIsMerge(s1[oid], u);
      assert s1[oid] == Merge(store[oid], u);
      assert Merge(Merge(store[oid], u), u) == Merge(store[oid], u);
      assert s1[oid := Merge(s1[oid], u)] == s1;
    }
  }

  /** Delete answers whether a document existed and removes it; a second delete of the
      same identifier answers false, without error, and changes nothing. */
  lemma DeleteReportsExistence(store: Store, hexId: string)
    requires ValidId(hexId)
    ensures var (r, after) := DeleteTaskStep(store, hexId, None);
            var oid := FromHex(hexId).value;
            && r == Ok(oid in store) && oid !in after
            && (forall k :: k in store && k != oid ==> k in after && after[k] == store[k])
            && (oid in store ==> |after| == |store| - 1)
            && DeleteTaskStep(after, hexId, None) == (Ok(false), after)
  {
    var oid := FromHex(hexId).value;
    var after := store - {oid};
    if oid in store {
      assert after.Keys == store.Keys - {oid};
    }
    assert after - {oid} == after;
  }

  /** Creation keeps the collection well-formed, given a fresh non-nil `newId`. */
  lemma CreateKeepsWellFormed(store: Store, input: Task, newId: ObjectId, fault: Option<string>)
    requires WellFormed(store)
    requires !IsZero(newId) && newId !in store
    ensures WellFormed(CreateTaskStep(store, input, newId, fault).1)
  {
  }

  /** Update and delete keep the collection well-formed: the merge never writes an empty
      title and never touches the ID. */
  lemma UpdateDeleteKeepWellFormed(store: Store, hexId: string, u: Task, fault: Option<string>)
    requires WellFormed(store)
    ensures WellFormed(UpdateTaskStep(store, hexId, u, fault).1)
    ensures WellFormed(DeleteTaskStep(store, hexId, fault).1)
  {
  }

  // ---------------------------------------------------------------------------
  // The service

  /** The four conditional insertions with which `UpdateTask` fills its `$set` document. */
  method CollectFields(updated: Task) returns (updateDoc: map<string, string>)
    ensures updateDoc == UpdateDoc(updated)
  {
    updateDoc := map[];
    if updated.title != "" {
      updateDoc := updateDoc["title" := updated.title];
    }
    if updated.description != "" {
      updateDoc := updateDoc["description" := updated.description];
    }
    if updated.dueDate != "" {
      updateDoc := updateDoc["due_date" := updated.dueDate];
    }
    if updated.status != "" {
      updateDoc := updateDoc["status" := updated.status];
    }
  }

  class TaskService {

    /** The collection's documents by `_id`. */
    var tasks: Store

    ghost predicate Valid()
      reads this
    {
      WellFormed(tasks)
    }

    constructor ()
      ensures Valid() && tasks == map[]
    {
      tasks := map[];
    }

    /** `GetAllTasks`: walks the collection, appending each document; an empty collection
        gives an empty list and no error. */
    method GetAllTasks(fault: Option<string>) returns (r: Result<seq<Task>>)
      requires Valid()
      ensures fault.Some? ==> r == Err(Driver(fault.value))
      ensures fault.None? ==> r.Ok? && Lists(r.value, tasks)
      ensures fault.None? && tasks == map[] ==> r == Ok([])
    {
      if fault.Some? {
        return Err(Driver(fault.value));
      }
      var acc: seq<Task> := [];
      var remaining := tasks.Keys;
      while remaining != {}
        invariant remaining <= tasks.Keys
        invariant |acc| + |remaining| == |tasks.Keys|
        invariant forall i :: 0 <= i < |acc| ==> acc[i].id in tasks && acc[i].id !in remaining && tasks[acc[i].id] == acc[i]
        invariant forall i, j :: 0 <= i < j < |acc| ==> acc[i].id != acc[j].id
        invariant forall k :: k in tasks && k !in remaining ==> exists i :: 0 <= i < |acc| && acc[i].id == k
        decreases |remaining|
      {
        var k :| k in remaining;
        ghost var before := acc;
        acc := acc + [tasks[k]];
        remaining := remaining - {k};
        assert acc[|before|].id == k;
        forall k' | k' in tasks && k' !in remaining
          ensures exists i :: 0 <= i < |acc| && acc[i].id == k'
        {
          if k' != k {
            var i :| 0 <= i < |before| && before[i].id == k';
            assert acc[i].id == k';
          }
        }
      }
      r := Ok(acc);
    }

    method GetTaskByID(hexId: string, fault: Option<string>) returns (r: Result<Task>)
      ensures r == FindTask(tasks, hexId, fault)
    {
      var oid := FromHex(hexId);
      if oid.None? {
        return Err(InvalidId);
      }
      if fault.Some? {
        return Err(Driver(fault.value));
      }
      if oid.value in tasks {
        r := Ok(tasks[oid.value]);
      } else {
        r := Ok(ZeroTask);
      }
    }

    /** `newId` is the ObjectID the driver would generate: never nil, never in use. */
    method CreateTask(input: Task, newId: ObjectId, fault: Option<string>) returns (r: Result<Task>)
      requires Valid()
      requires !IsZero(newId) && newId !in tasks
      modifies this
      ensures Valid()
      ensures (r, tasks) == CreateTaskStep(old(tasks), input, newId, fault)
    {
      CreateKeepsWellFormed(tasks, input, newId, fault);
      if input.title == "" {
        return Err(TitleRequired);
      }
      if fault.Some? {
        return Err(Driver(fault.value));
      }
      var id := if IsZero(input.id) then newId else input.id;
      if id in tasks {
        return Err(Driver(DuplicateKey));
      }
      var doc := input.(id := id);
      tasks := tasks[id := doc];
      r := Ok(doc);
    }

    method UpdateTask(hexId: string, updated: Task, fault: Option<string>) returns (r: Result<Task>)
      requires Valid()
      modifies this
      ensures Valid()
      ensures (r, tasks) == UpdateTaskStep(old(tasks), hexId, updated, fault)
    {
      UpdateDeleteKeepWellFormed(tasks, hexId, updated, fault);
      var oid := FromHex(hexId);
      if oid.None? {
        return Err(InvalidId);
      }
      var updateDoc := CollectFields(updated);
      if |updateDoc| == 0 {
        return Err(NoFieldsToUpdate);
      }
      if fault.Some? {
        return Err(Driver(fault.value));
      }
      if oid.value !in tasks {
        return Ok(ZeroTask);
      }
      var result := ApplySet(tasks[oid.value], updateDoc);
      tasks := tasks[oid.value := result];
      r := Ok(result);
    }

    method DeleteTask(hexId: string, fault: Option<string>) returns (r: Result<bool>)
      requires Valid()
      modifies this
      ensures Valid()
      ensures (r, tasks) == DeleteTaskStep(old(tasks), hexId, fault)
    {
      UpdateDeleteKeepWellFormed(tasks, hexId, ZeroTask, fault);
      var oid := FromHex(hexId);
      if oid.None? {
        return Err(InvalidId);
      }
      if fault.Some? {
        return Err(Driver(fault.value));
      }
      var deletedCount := if oid.value in tasks then 1 else 0;
      tasks := tasks - {oid.value};
      r := Ok(deletedCount > 0);
    }
  }
}
