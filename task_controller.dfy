/** Task handlers (controllers/taskController.js): who may create, complete,
    verify, edit, delete and view a task, and what each changes. The request
    schema check of task creation (validation/taskValidation.js) enters as its
    verdict. */
module TaskController {
  import opened Common
  import opened Models
  import opened Store

  datatype TaskError =
    | InvalidTask
    | OnlyLeadsAssign
    | InvalidAssignee
    | OnlyWorkersComplete
    | NotAssignedToYou
    | AlreadyCompleted
    | OnlyAdminsVerify
    | TaskNotFound
    | NotYourTask
    | NotCompleted
    | AccessDenied
    | SaveFailed
  {
    function Status(): nat {
      match this
      case InvalidTask => 400
      case InvalidAssignee => 400
      case AlreadyCompleted => 400
      case NotCompleted => 400
      case NotAssignedToYou => 404
      case TaskNotFound => 404
      case SaveFailed => 500
      case _ => 403
    }
  }

  /** A task with this id, if any (`Task.findById`). */
  function TaskAt(tasks: seq<Task>, id: Id): (r: Option<nat>)
    ensures r.Some? ==> r.value < |tasks| && tasks[r.value].id == id
  {
    FirstWhere(tasks, (t: Task) => t.id == id)
  }

  /** A task that is verified is also completed. */
  predicate Settled(t: Task) {
    t.isVerified ==> t.isCompleted
  }

  // ---------------------------------------------------------------------------
  // createTask
  // ---------------------------------------------------------------------------

  datatype TaskRequest = TaskRequest(
    taskName: string,
    description: string,
    assignBy: Id,
    assignTo: Id,
    priority: Priority,
    startDate: Time,
    endDate: Time)

  /** `User.findOne({ _id: id, role: { $in: roles } })`, with the role filter given as a predicate. */
  function UserWithRole(users: seq<User>, id: Id, fits: Role -> bool): (r: Option<nat>)
    ensures r.Some? ==> r.value < |users| && users[r.value].id == id && fits(users[r.value].role)
  {
    FirstWhere(users, (u: User) => u.id == id && fits(u.role))
  }

  /** No user is found exactly when no user has the id and a fitting role. */
  lemma UserWithRoleNone(users: seq<User>, id: Id, fits: Role -> bool)
    ensures UserWithRole(users, id, fits).None? <==> forall k :: 0 <= k < |users| ==> !(users[k].id == id && fits(users[k].role))
  {
    FirstWhereFirst(users, (u: User) => u.id == id && fits(u.role));
  }

  /** The guards of createTask, and on success the new task with the id `id`.
      `schemaOk` is the request schema's verdict. The caller's own identity is
      not consulted: the assigner is whoever the body names. */
  function NewTask(users: seq<User>, req: TaskRequest, schemaOk: bool, id: Id): (r: Result<Task, TaskError>)
    ensures !schemaOk ==> r == Failure(InvalidTask)
    ensures r.Success? ==> r.value.id == id && r.value.assignBy == req.assignBy && r.value.assignTo == req.assignTo
    ensures r.Success? ==> !r.value.isCompleted && !r.value.isVerified
  {
    if !schemaOk then Failure(InvalidTask)
    else if UserWithRole(users, req.assignBy, IsLead).None? then Failure(OnlyLeadsAssign)
    else if UserWithRole(users, req.assignTo, IsWorker).None? then Failure(InvalidAssignee)
    else Success(Task(id, req.taskName, req.description, req.assignBy, req.assignTo, req.priority,
                      req.startDate, req.endDate, false, false))
  }

  /** A task is created only when the body names an admin or manager as
      assigner and an employee or guest as assignee; it starts neither
      completed nor verified. */
  lemma NewTaskNeedsLeadAndWorker(users: seq<User>, req: TaskRequest, schemaOk: bool, id: Id)
    ensures NewTask(users, req, schemaOk, id).Success? <==>
      && schemaOk
      && (exists k :: 0 <= k < |users| && users[k].id == req.assignBy && IsLead(users[k].role))
      && (exists k :: 0 <= k < |users| && users[k].id == req.assignTo && IsWorker(users[k].role))
    ensures NewTask(users, req, schemaOk, id).Success? ==>
      var t := NewTask(users, req, schemaOk, id).value;
      && t.assignBy == req.assignBy && t.assignTo == req.assignTo && t.id == id
      && !t.isCompleted && !t.isVerified
  {
    UserWithRoleNone(users, req.assignBy, IsLead);
    UserWithRoleNone(users, req.assignTo, IsWorker);
  }

  method CreateTask(db: Database, req: TaskRequest, schemaOk: bool) returns (r: Result<Task, TaskError>)
    modifies db`tasks, db`nextId
    ensures match NewTask(old(db.users), req, schemaOk, old(db.nextId))
      case Failure(e) => r == Failure(e) && db.tasks == old(db.tasks) && db.nextId == old(db.nextId)
      case Success(t) => r == Success(t) && db.tasks == old(db.tasks) + [t] && db.nextId == old(db.nextId) + 1
  {
    if !schemaOk {
      return Failure(InvalidTask);
    }
    if UserWithRole(db.users, req.assignBy, IsLead).None? {
      return Failure(OnlyLeadsAssign);
    }
    if UserWithRole(db.users, req.assignTo, IsWorker).None? {
      return Failure(InvalidAssignee);
    }
    var id := db.FreshId();
    var task := Task(id, req.taskName, req.description, req.assignBy, req.assignTo, req.priority,
                     req.startDate, req.endDate, false, false);
    db.tasks := db.tasks + [task];
    r := Success(task);
  }

  // ---------------------------------------------------------------------------
  // TaskCompletion
  // ---------------------------------------------------------------------------

  /** `Task.findOne({ _id: id, assignTo: userId })` */
  function AssignedTaskAt(tasks: seq<Task>, id: Id, assignee: Id): (r: Option<nat>)
    ensures r.Some? ==> r.value < |tasks| && tasks[r.value].id == id && tasks[r.value].assignTo == assignee
  {
    FirstWhere(tasks, (t: Task) => t.id == id && t.assignTo == assignee)
  }

  /** The guards of TaskCompletion, and on success that task and its new state. */
  function Completion(tasks: seq<Task>, actor: Actor, id: Id, isCompleted: bool): (r: Result<(nat, Task), TaskError>)
    ensures r.Success? ==> r.value.0 < |tasks|
  {
    if !IsWorker(actor.role) then Failure(OnlyWorkersComplete)
    else match AssignedTaskAt(tasks, id, actor.id)
      case None => Failure(NotAssignedToYou)
      case Some(k) =>
        if tasks[k].isCompleted && isCompleted then Failure(AlreadyCompleted)
        else Success((k, tasks[k].(isCompleted := isCompleted)))
  }

  /** Only an employee or guest may change a task's completion, only on a task
      assigned to them, never to completed twice, and the change touches
      nothing but `isCompleted`. */
  lemma CompletionByAssigneeOnly(tasks: seq<Task>, actor: Actor, id: Id, isCompleted: bool)
    ensures !IsWorker(actor.role) ==> Completion(tasks, actor, id, isCompleted) == Failure(OnlyWorkersComplete)
    ensures Completion(tasks, actor, id, isCompleted).Success? ==>
      var (k, t) := Completion(tasks, actor, id, isCompleted).value;
      && IsWorker(actor.role)
      && tasks[k].id == id && tasks[k].assignTo == actor.id
      && !(tasks[k].isCompleted && isCompleted)
      && t == tasks[k].(isCompleted := isCompleted)
    ensures IsWorker(actor.role) && (forall k :: 0 <= k < |tasks| ==> !(tasks[k].id == id && tasks[k].assignTo == actor.id)) ==>
      Completion(tasks, actor, id, isCompleted) == Failure(NotAssignedToYou)
  {
    FirstWhereFirst(tasks, (t: Task) => t.id == id && t.assignTo == actor.id);
  }

  /** The assignee can take back the completion of a task that an admin has
      already verified, leaving it verified but not completed. */
  lemma CompletionCanUnsettleVerified()
    ensures var t := Task(1, "Report", "", 2, 3, High, 0, 10, true, true);
      && Settled(t)
      && Completion([t], Actor(3, Employee, Some(9)), 1, false) == Success((0, t.(isCompleted := false)))
      && !Settled(t.(isCompleted := false))
  {
  }

  method TaskCompletion(db: Database, actor: Actor, id: Id, isCompleted: bool) returns (r: Result<Task, TaskError>)
    modifies db`tasks
    ensures match Completion(old(db.tasks), actor, id, isCompleted)
      case Failure(e) => r == Failure(e) && db.tasks == old(db.tasks)
      case Success((k, t)) => r == Success(t) && db.tasks == old(db.tasks)[k := t]
  {
    if !IsWorker(actor.role) {
      return Failure(OnlyWorkersComplete);
    }
    var found := AssignedTaskAt(db.tasks, id, actor.id);
    if found.None? {
      return Failure(NotAssignedToYou);
    }
    var k := found.value;
    var task := db.tasks[k];
    if task.isCompleted && isCompleted {
      return Failure(AlreadyCompleted);
    }
    task := task.(isCompleted := isCompleted);
    db.tasks := db.tasks[k := task];
    r := Success(task);
  }

  // ---------------------------------------------------------------------------
  // verifyTask
  // ---------------------------------------------------------------------------

  /** The guards of verifyTask, and on success that task and its new state:
      verifying sets `isVerified`; unverifying also clears `isCompleted`. */
  function Verification(tasks: seq<Task>, actor: Actor, id: Id, isVerified: bool): (r: Result<(nat, Task), TaskError>)
    ensures r.Success? ==> r.value.0 < |tasks|
  {
    if actor.role != Admin then Failure(OnlyAdminsVerify)
    else match TaskAt(tasks, id)
      case None => Failure(TaskNotFound)
      case Some(k) =>
        var t := tasks[k];
        if t.assignBy != actor.id then Failure(NotYourTask)
        else if isVerified && !t.isCompleted then Failure(NotCompleted)
        else if isVerified then Success((k, t.(isVerified := true)))
        else Success((k, t.(isVerified := false, isCompleted := false)))
  }

  /** Only the admin who assigned a task may verify it, only once it is
      completed; the resulting task is settled, whatever it was before. */
  lemma VerificationByAssigningAdmin(tasks: seq<Task>, actor: Actor, id: Id, isVerified: bool)
    ensures Verification(tasks, actor, id, isVerified).Success? ==>
      var (k, t) := Verification(tasks, actor, id, isVerified).value;
      && actor.role == Admin && tasks[k].id == id && tasks[k].assignBy == actor.id
      && (isVerified ==> tasks[k].isCompleted)
      && t.isVerified == isVerified
      && (!isVerified ==> !t.isCompleted)
      && Settled(t)
      && t.(isVerified := tasks[k].isVerified, isCompleted := tasks[k].isCompleted) == tasks[k]
  {
  }

  method VerifyTask(db: Database, actor: Actor, id: Id, isVerified: bool) returns (r: Result<Task, TaskError>)
    modifies db`tasks
    ensures match Verification(old(db.tasks), actor, id, isVerified)
      case Failure(e) => r == Failure(e) && db.tasks == old(db.tasks)
      case Success((k, t)) => r == Success(t) && db.tasks == old(db.tasks)[k := t]
  {
    if actor.role != Admin {
      return Failure(OnlyAdminsVerify);
    }
    var found := TaskAt(db.tasks, id);
    if found.None? {
      return Failure(TaskNotFound);
    }
    var k := found.value;
    var task := db.tasks[k];
    if task.assignBy != actor.id {
      return Failure(NotYourTask);
    }
    if isVerified && !task.isCompleted {
      return Failure(NotCompleted);
    }
    task := task.(isVerified := isVerified);
    if !isVerified {
      task := task.(isCompleted := false);
    }
    db.tasks := db.tasks[k := task];
    r := Success(task);
  }

  // ---------------------------------------------------------------------------
  // updateTaskDetails
  // ---------------------------------------------------------------------------

  /** The fields of the body; `None` is a field that is not sent. */
  datatype DetailsPatch = DetailsPatch(taskName: Option<string>, description: Option<string>, endDate: Option<Time>)

  /** The guards of updateTaskDetails, and on success that task with the sent
      fields assigned. An empty `taskName` fails the schema's `required` rule on save. */
  function DetailsUpdate(tasks: seq<Task>, actor: Actor, id: Id, p: DetailsPatch): (r: Result<(nat, Task), TaskError>)
    ensures r.Success? ==> r.value.0 < |tasks|
  {
    match TaskAt(tasks, id)
    case None => Failure(TaskNotFound)
    case Some(k) =>
      var t := tasks[k];
      if !IsLead(actor.role) && t.assignTo != actor.id then Failure(AccessDenied)
      else
        var u := t.(taskName := if p.taskName.Some? then p.taskName.value else t.taskName,
                    description := if p.description.Some? then p.description.value else t.description,
                    endDate := if p.endDate.Some? then p.endDate.value else t.endDate);
        if u.taskName == "" then Failure(SaveFailed) else Success((k, u))
  }

  /** An admin, a manager or the assignee may edit a task, and only its name,
      description and end date change, each to the value sent. */
  lemma DetailsUpdateChangesThreeFields(tasks: seq<Task>, actor: Actor, id: Id, p: DetailsPatch)
    ensures DetailsUpdate(tasks, actor, id, p).Success? ==>
      var (k, t) := DetailsUpdate(tasks, actor, id, p).value;
      && tasks[k].id == id
      && (IsLead(actor.role) || tasks[k].assignTo == actor.id)
      && t.(taskName := tasks[k].taskName, description := tasks[k].description, endDate := tasks[k].endDate) == tasks[k]
      && (p.taskName.Some? ==> t.taskName == p.taskName.value)
      && (p.description.Some? ==> t.description == p.description.value)
      && (p.endDate.Some? ==> t.endDate == p.endDate.value)
    ensures TaskAt(tasks, id).Some? && !IsLead(actor.role) && tasks[TaskAt(tasks, id).value].assignTo != actor.id ==>
      DetailsUpdate(tasks, actor, id, p) == Failure(AccessDenied)
  {
  }

  /** The end date is not checked against the start date here, unlike at creation. */
  lemma DetailsUpdateMayEndBeforeStart()
    ensures var t := Task(1, "Report", "", 2, 3, High, 100, 200, false, false);
      DetailsUpdate([t], Actor(3, Employee, None), 1, DetailsPatch(None, None, Some(50))) == Success((0, t.(endDate := 50)))
  {
  }

  method UpdateTaskDetails(db: Database, actor: Actor, id: Id, p: DetailsPatch) returns (r: Result<Task, TaskError>)
    modifies db`tasks
    ensures match DetailsUpdate(old(db.tasks), actor, id, p)
      case Failure(e) => r == Failure(e) && db.tasks == old(db.tasks)
      case Success((k, t)) => r == Success(t) && db.tasks == old(db.tasks)[k := t]
  {
    var found := TaskAt(db.tasks, id);
    if found.None? {
      return Failure(TaskNotFound);
    }
    var k := found.value;
    var task := db.tasks[k];
    if !IsLead(actor.role) && task.assignTo != actor.id {
      return Failure(AccessDenied);
    }
    task := task.(taskName := if p.taskName.Some? then p.taskName.value else task.taskName,
                  description := if p.description.Some? then p.description.value else task.description,
                  endDate := if p.endDate.Some? then p.endDate.value else task.endDate);
    if task.taskName == "" {
      return Failure(SaveFailed);
    }
    db.tasks := db.tasks[k := task];
    r := Success(task);
  }

  // ---------------------------------------------------------------------------
  // deleteTask and getTaskById
  // ---------------------------------------------------------------------------

  /** What deleteTask looks up: any task for an admin, otherwise only a task
      the caller assigned (`findOne({ _id: id, assignBy: userId })`). */
  function DeletableAt(tasks: seq<Task>, actor: Actor, id: Id): (r: Option<nat>)
    ensures r.Some? ==> r.value < |tasks| && tasks[r.value].id == id && TaskAt(tasks, id).Some?
  {
    if actor.role == Admin then TaskAt(tasks, id)
    else
      FirstWhereFirst(tasks, (t: Task) => t.id == id);
      FirstWhere(tasks, (t: Task) => t.id == id && t.assignBy == actor.id)
  }

  /** An admin may delete any task; anyone else only a task they assigned,
      and a task of someone else looks to them as if it did not exist. */
  lemma DeletionRule(tasks: seq<Task>, actor: Actor, id: Id)
    ensures DeletableAt(tasks, actor, id).Some? ==>
      actor.role == Admin || tasks[DeletableAt(tasks, actor, id).value].assignBy == actor.id
    ensures DeletableAt(tasks, actor, id).None? <==>
      forall k :: 0 <= k < |tasks| ==> !(tasks[k].id == id && (actor.role == Admin || tasks[k].assignBy == actor.id))
  {
    FirstWhereFirst(tasks, (t: Task) => t.id == id);
    FirstWhereFirst(tasks, (t: Task) => t.id == id && t.assignBy == actor.id);
  }

  /** deleteTask: once the lookup finds a task, `findByIdAndDelete` removes
      the first task with that id. */
  method DeleteTask(db: Database, actor: Actor, id: Id) returns (r: Result<(), TaskError>)
    modifies db`tasks
    ensures DeletableAt(old(db.tasks), actor, id).None? ==> r == Failure(TaskNotFound) && db.tasks == old(db.tasks)
    ensures DeletableAt(old(db.tasks), actor, id).Some? ==>
      r == Success(()) && db.tasks == RemoveAt(old(db.tasks), TaskAt(old(db.tasks), id).value)
  {
    var found := DeletableAt(db.tasks, actor, id);
    if found.None? {
      return Failure(TaskNotFound);
    }
    db.tasks := RemoveAt(db.tasks, TaskAt(db.tasks, id).value);
    r := Success(());
  }

  /** getTaskById: an employee or guest sees only a task assigned to them;
      admins and managers, and any other role, see every task. */
  function GetTaskById(tasks: seq<Task>, actor: Actor, id: Id): (r: Result<Task, TaskError>)
    ensures r.Success? ==> r.value.id == id && r.value in tasks
    ensures r.Success? && IsWorker(actor.role) ==> r.value.assignTo == actor.id
  {
    match TaskAt(tasks, id)
    case None => Failure(TaskNotFound)
    case Some(k) =>
      if IsWorker(actor.role) && tasks[k].assignTo != actor.id then Failure(NotYourTask)
      else Success(tasks[k])
  }

  /** Whoever is not an employee or guest is refused a task only when it does not exist. */
  lemma GetTaskByIdOpenToOthers(tasks: seq<Task>, actor: Actor, id: Id)
    requires !IsWorker(actor.role)
    ensures GetTaskById(tasks, actor, id).Success? <==> exists k :: 0 <= k < |tasks| && tasks[k].id == id
  {
    FirstWhereFirst(tasks, (t: Task) => t.id == id);
  }
}
