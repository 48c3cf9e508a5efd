/**
  The task list component of frontend/src/components/TaskList.tsx: an ordered
  list of task records, newest first, with create, delete and status-update
  handlers, plus the state of the create form.
 */
module Tasks {
  import opened Text

  datatype Status = Pending | InProgress | Completed

  datatype Task = Task(id: string, title: string, description: string, status: Status, createdAt: string)

  /** The create form's fields. */
  datatype FormData = FormData(title: string, description: string, status: Status)

  const EmptyForm := FormData("", "", Pending)

  /** The two tasks the component starts with. */
  const InitialTasks: seq<Task> := [
    Task("1", "Build chat interface", "Create a chat assistant component", Completed, "2025-02-05"),
    Task("2", "Add task management", "Implement task CRUD operations", InProgress, "2025-02-05")
  ]

  /**
    `iso.split("T")[0]`: the part of an ISO timestamp before its first 'T'
    (the whole string when it has none).
   */
  function DatePart(iso: string): (date: string)
    ensures |date| <= |iso| && date == iso[..|date|]
    ensures 'T' !in date
    ensures |date| < |iso| ==> iso[|date|] == 'T'
  {
    if iso == [] || iso[0] == 'T' then [] else [iso[0]] + DatePart(iso[1..])
  }

  /** A creation date in ISO form keeps exactly its date part. */
  lemma DatePartOfTimestamp(date: string, time: string)
    requires 'T' !in date
    ensures DatePart(date + "T" + time) == date
  {
    var s := date + "T" + time;
    assert s[|date|] == 'T' && s[..|date|] == date;
  }

  /** `tasks.filter(task => task.id !== id)`. */
  function RemoveId(tasks: seq<Task>, id: string): (r: seq<Task>)
    ensures |r| <= |tasks|
    ensures forall t :: t in r <==> t in tasks && t.id != id
  {
    if tasks == [] then []
    else (if tasks[0].id == id then [] else [tasks[0]]) + RemoveId(tasks[1..], id)
  }

  /**
    Filtering keeps relative order: it distributes over concatenation, so
    the survivors of `a` still come before the survivors of `b`.
   */
  lemma {:induction false} RemoveIdAppend(a: seq<Task>, b: seq<Task>, id: string)
    ensures RemoveId(a + b, id) == RemoveId(a, id) + RemoveId(b, id)
  {
    if a == [] {
      assert a + b == b;
    } else {
      assert (a + b)[1..] == a[1..] + b;
      RemoveIdAppend(a[1..], b, id);
    }
  }

  /** Deleting an id that no task has leaves the list unchanged. */
  lemma {:induction false} RemoveAbsentId(tasks: seq<Task>, id: string)
    requires forall t | t in tasks :: t.id != id
    ensures RemoveId(tasks, id) == tasks
  {
    if tasks != [] {
      RemoveAbsentId(tasks[1..], id);
    }
  }

  /** Deleting the same id twice is deleting it once. */
  lemma RemoveIdIdempotent(tasks: seq<Task>, id: string)
    ensures RemoveId(RemoveId(tasks, id), id) == RemoveId(tasks, id)
  {
    RemoveAbsentId(RemoveId(tasks, id), id);
  }

  /** Deleting an id that some task has makes the list strictly shorter. */
  lemma {:induction false} RemovePresentIdShrinks(tasks: seq<Task>, id: string)
    requires exists t | t in tasks :: t.id == id
    ensures |RemoveId(tasks, id)| < |tasks|
  {
    if tasks[0].id != id {
      assert tasks == [tasks[0]] + tasks[1..];
      RemovePresentIdShrinks(tasks[1..], id);
    }
  }

  /** `tasks.map(task => task.id === id ? { ...task, status } : task)`. */
  function SetStatus(tasks: seq<Task>, id: string, status: Status): (r: seq<Task>)
    ensures |r| == |tasks|
    ensures forall i :: 0 <= i < |tasks| ==>
      && r[i].id == tasks[i].id
      && r[i].title == tasks[i].title
      && r[i].description == tasks[i].description
      && r[i].createdAt == tasks[i].createdAt
      && r[i].status == (if tasks[i].id == id then status else tasks[i].status)
  {
    if tasks == [] then []
    else [if tasks[0].id == id then tasks[0].(status := status) else tasks[0]] + SetStatus(tasks[1..], id, status)
  }

  /** Updating the status of an id that no task has leaves the list unchanged. */
  lemma SetStatusAbsentId(tasks: seq<Task>, id: string, status: Status)
    requires forall t | t in tasks :: t.id != id
    ensures SetStatus(tasks, id, status) == tasks
  {
    var r := SetStatus(tasks, id, status);
    forall i | 0 <= i < |tasks| ensures r[i] == tasks[i] {
      assert tasks[i] in tasks;
    }
  }

  /** Applying the same status update twice gives the same list as applying it once. */
  lemma SetStatusIdempotent(tasks: seq<Task>, id: string, status: Status)
    ensures SetStatus(SetStatus(tasks, id, status), id, status) == SetStatus(tasks, id, status)
  {
  }

  /** Deleting an id discards whatever status update was made to it. */
  lemma {:induction false} RemoveAfterSetStatus(tasks: seq<Task>, id: string, status: Status)
    ensures RemoveId(SetStatus(tasks, id, status), id) == RemoveId(tasks, id)
  {
    if tasks != [] {
      var r := SetStatus(tasks, id, status);
      assert r[1..] == SetStatus(tasks[1..], id, status);
      RemoveAfterSetStatus(tasks[1..], id, status);
    }
  }

  /** The ids of a list, in order. */
  function Ids(tasks: seq<Task>): (ids: seq<string>)
    ensures |ids| == |tasks| && forall i :: 0 <= i < |tasks| ==> ids[i] == tasks[i].id
  {
    if tasks == [] then [] else [tasks[0].id] + Ids(tasks[1..])
  }

  ghost predicate UniqueIds(tasks: seq<Task>) {
    forall i, j :: 0 <= i < j < |tasks| ==> tasks[i].id != tasks[j].id
  }

  /** A status update never changes which ids are present, nor their order. */
  lemma SetStatusKeepsIds(tasks: seq<Task>, id: string, status: Status)
    ensures Ids(SetStatus(tasks, id, status)) == Ids(tasks)
  {
  }

  /** A status update keeps ids unique. */
  lemma SetStatusKeepsUnique(tasks: seq<Task>, id: string, status: Status)
    requires UniqueIds(tasks)
    ensures UniqueIds(SetStatus(tasks, id, status))
  {
    SetStatusKeepsIds(tasks, id, status);
  }

  /** Deletion keeps ids unique. */
  lemma {:induction false} RemoveIdKeepsUnique(tasks: seq<Task>, id: string)
    requires UniqueIds(tasks)
    ensures UniqueIds(RemoveId(tasks, id))
  {
    if tasks != [] {
      RemoveIdKeepsUnique(tasks[1..], id);
      var rest := RemoveId(tasks[1..], id);
      forall t | t in rest ensures t.id != tasks[0].id {
        var j :| 0 <= j < |tasks[1..]| && tasks[1..][j] == t;
        assert tasks[j + 1] == t;
      }
    }
  }

  /** Creating a task keeps ids unique exactly when its id is new. */
  lemma PrependKeepsUnique(t: Task, tasks: seq<Task>)
    requires UniqueIds(tasks)
    ensures UniqueIds([t] + tasks) <==> t.id !in Ids(tasks)
  {
    var r := [t] + tasks;
    if t.id !in Ids(tasks) {
      forall i, j | 0 <= i < j < |r| ensures r[i].id != r[j].id {
        if i == 0 {
          assert Ids(tasks)[j - 1] == r[j].id;
        }
      }
    } else {
      var k :| 0 <= k < |tasks| && Ids(tasks)[k] == t.id;
      assert r[0].id == r[k + 1].id;
    }
  }

  /**
    Creating a task and then updating its status: the task keeps its id,
    title, description and creation date and carries the new status.
   */
  lemma CreateThenUpdate(t: Task, tasks: seq<Task>, status: Status)
    ensures SetStatus([t] + tasks, t.id, status)[0] == t.(status := status)
  {
  }

  /** The component's state: the task list, the create form and whether the form is shown. */
  class TaskList {
    var tasks: seq<Task>
    var formData: FormData
    var showForm: bool

    /** The initial state: two sample tasks, an empty form, the form hidden. */
    constructor ()
      ensures tasks == InitialTasks && formData == EmptyForm && !showForm
      ensures |tasks| == 2 && Ids(tasks) == ["1", "2"]
      ensures tasks[0].status == Completed && tasks[1].status == InProgress
    {
      tasks := InitialTasks;
      formData := EmptyForm;
      showForm := false;
    }

    /** The "+ Add Task" / "Cancel" button. */
    method ToggleForm()
      modifies this
      ensures showForm == !old(showForm)
      ensures tasks == old(tasks) && formData == old(formData)
    {
      showForm := !showForm;
    }

    /** The title input's change handler. */
    method EditTitle(title: string)
      modifies this
      ensures formData == old(formData).(title := title)
      ensures tasks == old(tasks) && showForm == old(showForm)
    {
      formData := formData.(title := title);
    }

    /** The description textarea's change handler. */
    method EditDescription(description: string)
      modifies this
      ensures formData == old(formData).(description := description)
      ensures tasks == old(tasks) && showForm == old(showForm)
    {
      formData := formData.(description := description);
    }

    /** The status select's change handler. */
    method EditStatus(status: Status)
      modifies this
      ensures formData == old(formData).(status := status)
      ensures tasks == old(tasks) && showForm == old(showForm)
    {
      formData := formData.(status := status);
    }

    /**
      `handleAddTask`: a title that is empty or only whitespace changes
      nothing; otherwise the new task goes to the front of the list with the
      form's title (untrimmed), description and status, the id `id` (the
      clock reading) and the date part of `isoNow`, and the form is reset
      and hidden.
     */
    method AddTask(id: string, isoNow: string)
      modifies this
      ensures AllSpace(old(formData.title), JsSpace) ==>
        tasks == old(tasks) && formData == old(formData) && showForm == old(showForm)
      ensures !AllSpace(old(formData.title), JsSpace) ==>
        && |tasks| == |old(tasks)| + 1
        && tasks[0] == Task(id, old(formData.title), old(formData.description), old(formData.status), DatePart(isoNow))
        && tasks[1..] == old(tasks)
        && formData == EmptyForm
        && !showForm
    {
      if IsBlank(formData.title, JsSpace) {
        return;
      }
      var newTask := Task(id, formData.title, formData.description, formData.status, DatePart(isoNow));
      tasks := [newTask] + tasks;
      formData := FormData("", "", Pending);
      showForm := false;
    }

    /**
      `handleDeleteTask`: every task with the given id is removed, the rest
      keep their order, and no task with that id remains.
     */
    method DeleteTask(id: string)
      modifies this
      ensures tasks == RemoveId(old(tasks), id)
      ensures forall t | t in tasks :: t.id != id
      ensures formData == old(formData) && showForm == old(showForm)
    {
      tasks := RemoveId(tasks, id);
    }

    /**
      `handleUpdateStatus`: the tasks with the given id take the new status;
      nothing else in the list changes.
     */
    method UpdateStatus(id: string, status: Status)
      modifies this
      ensures tasks == SetStatus(old(tasks), id, status)
      ensures Ids(tasks) == Ids(old(tasks))
      ensures formData == old(formData) && showForm == old(showForm)
    {
      SetStatusKeepsIds(tasks, id, status);
      tasks := SetStatus(tasks, id, status);
    }
  }
}
