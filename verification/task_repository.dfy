/**
 * The derived queries of the task store, over the stored tasks keyed by id. Each returns
 * the stored tasks that satisfy its condition, under their ids.
 */
module TaskRepository {
  import opened Outcomes
  import opened Model

  function FindByStatus(tasks: map<int, Task>, status: Status): (r: map<int, Task>)
    ensures forall id :: id in r <==> id in tasks && tasks[id].status == status
    ensures forall id :: id in r ==> r[id] == tasks[id]
  {
    map id | id in tasks && tasks[id].status == status :: tasks[id]
  }

  function FindByPriority(tasks: map<int, Task>, priority: Priority): (r: map<int, Task>)
    ensures forall id :: id in r <==> id in tasks && tasks[id].priority == priority
    ensures forall id :: id in r ==> r[id] == tasks[id]
  {
    map id | id in tasks && tasks[id].priority == priority :: tasks[id]
  }

  /** The tasks whose category is present and has id `categoryId`; uncategorised tasks never match. */
  function FindByCategoryId(tasks: map<int, Task>, categoryId: int): (r: map<int, Task>)
    ensures forall id :: id in r <==> id in tasks && tasks[id].category == Some(categoryId)
    ensures forall id :: id in r ==> r[id] == tasks[id]
  {
    map id | id in tasks && tasks[id].category == Some(categoryId) :: tasks[id]
  }

  function FindByStatusAndPriority(tasks: map<int, Task>, status: Status, priority: Priority)
    : (r: map<int, Task>)
    ensures forall id :: id in r <==>
              id in tasks && tasks[id].status == status && tasks[id].priority == priority
    ensures forall id :: id in r ==> r[id] == tasks[id]
  {
    map id | id in tasks && tasks[id].status == status && tasks[id].priority == priority :: tasks[id]
  }

  /**
   * `dueDate < now AND status != 'COMPLETED'`: a null due date compares as unknown in SQL, so
   * tasks without one are never overdue.
   */
  function FindOverdueTasks(tasks: map<int, Task>, now: Instant): (r: map<int, Task>)
    ensures forall id :: id in r <==>
              id in tasks && tasks[id].dueDate.Some? && tasks[id].dueDate.value < now
              && tasks[id].status != Completed
    ensures forall id :: id in r ==> r[id] == tasks[id]
  {
    map id | id in tasks && tasks[id].dueDate.Some? && tasks[id].dueDate.value < now
                         && tasks[id].status != Completed :: tasks[id]
  }

  /** The ids of the stored tasks in `status`. */
  function IdsWithStatus(tasks: map<int, Task>, status: Status): (ids: set<int>) {
    set id | id in tasks && tasks[id].status == status
  }

  /** The number of stored tasks in `status`: exactly as many as FindByStatus returns. */
  function CountByStatus(tasks: map<int, Task>, status: Status): (n: nat)
    ensures n == |FindByStatus(tasks, status)|
  {
    assert FindByStatus(tasks, status).Keys == IdsWithStatus(tasks, status);
    |IdsWithStatus(tasks, status)|
  }

  /** The combined filter is the status filter followed by the priority filter, either way round. */
  lemma StatusAndPriorityIsIntersection(tasks: map<int, Task>, status: Status, priority: Priority)
    ensures FindByStatusAndPriority(tasks, status, priority)
            == FindByPriority(FindByStatus(tasks, status), priority)
            == FindByStatus(FindByPriority(tasks, priority), status)
    ensures FindByStatusAndPriority(tasks, status, priority).Keys
            == FindByStatus(tasks, status).Keys * FindByPriority(tasks, priority).Keys
  {
    var both := FindByStatusAndPriority(tasks, status, priority);
    var byStatus := FindByStatus(tasks, status);
    var byPriority := FindByPriority(tasks, priority);
    assert both.Keys == byStatus.Keys * byPriority.Keys;
    var statusThenPriority := FindByPriority(byStatus, priority);
    assert statusThenPriority.Keys == both.Keys;
    assert forall id :: id in both ==> statusThenPriority[id] == both[id];
    var priorityThenStatus := FindByStatus(byPriority, status);
    assert priorityThenStatus.Keys == both.Keys;
    assert forall id :: id in both ==> priorityThenStatus[id] == both[id];
  }

  /** Every task has exactly one status, so the four status counts add up to the number of tasks. */
  lemma StatusCountsSumToTotal(tasks: map<int, Task>)
    ensures CountByStatus(tasks, Pending) + CountByStatus(tasks, InProgress)
            + CountByStatus(tasks, Completed) + CountByStatus(tasks, Cancelled) == |tasks|
  {
    var p := IdsWithStatus(tasks, Pending);
    var i := IdsWithStatus(tasks, InProgress);
    var c := IdsWithStatus(tasks, Completed);
    var x := IdsWithStatus(tasks, Cancelled);
    assert p !! i && p + i !! c && p + i + c !! x;
    forall id | id in tasks ensures id in p + i + c + x {
      match tasks[id].status
      case Pending => assert id in p;
      case InProgress => assert id in i;
      case Completed => assert id in c;
      case Cancelled => assert id in x;
    }
    assert p + i + c + x == tasks.Keys;
  }

  /** A task that is overdue at `now` is still overdue at any later time. */
  lemma OverdueIsMonotone(tasks: map<int, Task>, now: Instant, later: Instant)
    requires now <= later
    ensures FindOverdueTasks(tasks, now).Keys <= FindOverdueTasks(tasks, later).Keys
  {
  }

  /** No task is referenced by a category id whose FindByCategoryId result is empty. */
  lemma NoReferencesWhenNoneFound(tasks: map<int, Task>, categoryId: int)
    requires |FindByCategoryId(tasks, categoryId)| == 0
    ensures forall id :: id in tasks ==> tasks[id].category != Some(categoryId)
  {
    assert FindByCategoryId(tasks, categoryId) == map[];
  }
}
