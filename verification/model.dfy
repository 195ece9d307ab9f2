/**
 * The entities: a Task with its Priority and Status enumerations and its two save hooks
 * (onCreate runs before a new task is inserted, onUpdate before an existing one is saved
 * again), and a Category as the services see it.
 */
module Model {
  import opened Outcomes
  import opened Text

  /** A LocalDateTime, as a count of clock ticks. */
  type Instant = int

  datatype Priority = Low | Medium | High | Urgent

  datatype Status = Pending | InProgress | Completed | Cancelled

  const AllPriorities: seq<Priority> := [Low, Medium, High, Urgent]
  const AllStatuses: seq<Status> := [Pending, InProgress, Completed, Cancelled]

  /** Each enumeration has exactly four distinct values. */
  lemma EnumerationsHaveFourValues()
    ensures |AllPriorities| == 4 && |AllStatuses| == 4
    ensures forall p: Priority :: p in AllPriorities
    ensures forall s: Status :: s in AllStatuses
    ensures forall i, j :: 0 <= i < j < 4 ==> AllPriorities[i] != AllPriorities[j]
    ensures forall i, j :: 0 <= i < j < 4 ==> AllStatuses[i] != AllStatuses[j]
  {
    forall p: Priority ensures p in AllPriorities {
      match p
      case Low => assert AllPriorities[0] == p;
      case Medium => assert AllPriorities[1] == p;
      case High => assert AllPriorities[2] == p;
      case Urgent => assert AllPriorities[3] == p;
    }
    forall s: Status ensures s in AllStatuses {
      match s
      case Pending => assert AllStatuses[0] == s;
      case InProgress => assert AllStatuses[1] == s;
      case Completed => assert AllStatuses[2] == s;
      case Cancelled => assert AllStatuses[3] == s;
    }
  }

  /** A stored category. */
  datatype Category = Category(id: int, name: string, description: Option<string>)

  /** A create request for a category: the store assigns the id. */
  datatype NewCategory = NewCategory(name: string, description: Option<string>)

  /** An update request for a category: None stands for a null field. */
  datatype CategoryPatch = CategoryPatch(name: Option<string>, description: Option<string>)

  /**
   * A task. The reference to its category is kept as the category's id; a timestamp that is
   * None is a null column.
   */
  datatype Task = Task(
    id: int,
    title: string,
    description: Option<string>,
    priority: Priority,
    status: Status,
    category: Option<int>,
    dueDate: Option<Instant>,
    completedAt: Option<Instant>,
    createdAt: Option<Instant>,
    updatedAt: Option<Instant>)

  /** The category object a request body carries. */
  datatype CategoryRef =
    | NoCategory                  // no category object at all
    | CategoryWithoutId           // a category object whose id is null
    | CategoryWithId(id: int)

  /**
   * A create request: the fields a client sets on a fresh Task. None in `priority` or
   * `status` means the field keeps its initialiser.
   */
  datatype NewTask = NewTask(
    title: string,
    description: Option<string>,
    priority: Option<Priority>,
    status: Option<Status>,
    category: CategoryRef,
    dueDate: Option<Instant>,
    completedAt: Option<Instant>)

  /** An update request: None stands for a null field. */
  datatype TaskPatch = TaskPatch(
    title: Option<string>,
    description: Option<string>,
    priority: Option<Priority>,
    status: Option<Status>,
    dueDate: Option<Instant>,
    category: CategoryRef)

  /**
   * The unsaved entity a create request describes, referencing `category`. Priority and
   * status that the request leaves unset keep their initialisers, MEDIUM and PENDING. The
   * id (0 here) is assigned when the store inserts the task.
   */
  function Draft(input: NewTask, category: Option<int>): (t: Task)
    ensures input.priority.None? ==> t.priority == Medium
    ensures input.status.None? ==> t.status == Pending
    ensures input.priority.Some? ==> t.priority == input.priority.value
    ensures input.status.Some? ==> t.status == input.status.value
    ensures t.createdAt.None? && t.updatedAt.None?
  {
    Task(0, input.title, input.description,
         if input.priority.Some? then input.priority.value else Medium,
         if input.status.Some? then input.status.value else Pending,
         category, input.dueDate, input.completedAt, None, None)
  }

  /** The creation hook: both timestamps read the clock; nothing else changes. */
  function OnCreate(t: Task, now: Instant): (r: Task)
    ensures r.createdAt == Some(now) && r.updatedAt == Some(now)
    ensures r.completedAt == t.completedAt && r.status == t.status
    ensures r.(createdAt := t.createdAt, updatedAt := t.updatedAt) == t
  {
    t.(createdAt := Some(now), updatedAt := Some(now))
  }

  /**
   * The update hook: `updatedAt` reads the clock, and `completedAt` is stamped when the task
   * is COMPLETED and has none yet. A stamped `completedAt` is never changed or cleared.
   */
  function OnUpdate(t: Task, now: Instant): (r: Task)
    ensures r.updatedAt == Some(now)
    ensures r.createdAt == t.createdAt
    ensures t.completedAt.Some? ==> r.completedAt == t.completedAt
    ensures t.completedAt.None? ==> (r.completedAt.Some? <==> t.status == Completed)
    ensures r.completedAt.Some? && t.completedAt.None? ==> r.completedAt == Some(now)
    ensures r.(updatedAt := t.updatedAt, completedAt := t.completedAt) == t
  {
    var touched := t.(updatedAt := Some(now));
    if t.status == Completed && t.completedAt.None? then touched.(completedAt := Some(now))
    else touched
  }

  /** One later save of a task: the status the task holds when saved, and the clock then. */
  datatype SavePoint = SavePoint(status: Status, at: Instant)

  /** The task after it is saved once per save point, with its status set as each one says. */
  function Resaved(t: Task, saves: seq<SavePoint>): (r: Task)
    decreases |saves|
  {
    if saves == [] then t
    else Resaved(OnUpdate(t.(status := saves[0].status), saves[0].at), saves[1..])
  }

  /** The clock at the first save that finds the task COMPLETED, if there is one. */
  function FirstCompletion(saves: seq<SavePoint>): (first: Option<Instant>)
    decreases |saves|
  {
    if saves == [] then None
    else if saves[0].status == Completed then Some(saves[0].at)
    else FirstCompletion(saves[1..])
  }

  /**
   * Over any run of saves: `completedAt` is the one it had, or else the time of the first
   * save in a COMPLETED status, whatever statuses follow; `createdAt` never changes; and
   * `updatedAt` is the time of the last save.
   */
  lemma {:induction false} CompletedAtIsFirstCompletion(t: Task, saves: seq<SavePoint>)
    ensures Resaved(t, saves).completedAt ==
              (if t.completedAt.Some? then t.completedAt else FirstCompletion(saves))
    ensures Resaved(t, saves).createdAt == t.createdAt
    ensures saves != [] ==> Resaved(t, saves).updatedAt == Some(saves[|saves| - 1].at)
    decreases |saves|
  {
    if saves != [] {
      var next := OnUpdate(t.(status := saves[0].status), saves[0].at);
      CompletedAtIsFirstCompletion(next, saves[1..]);
      if |saves| > 1 {
        assert saves[1..][|saves[1..]| - 1] == saves[|saves| - 1];
      }
    }
  }

  /** A task created COMPLETED gets no `completedAt` from the creation hook. */
  lemma CreatedCompletedIsNotStamped(input: NewTask, category: Option<int>, now: Instant)
    requires input.status == Some(Completed) && input.completedAt.None?
    ensures OnCreate(Draft(input, category), now).status == Completed
    ensures OnCreate(Draft(input, category), now).completedAt.None?
  {
  }
}
