/** The task lifecycle: category resolution, the partial-merge update, and the passthrough queries. */
module TaskLifecycle {
  import opened Outcomes
  import opened Text
  import opened Model
  import TaskRepository
  import CategoryRepository
  import opened Persistence

  class TaskService {
    const store: Store

    constructor (store: Store)
      ensures this.store == store
    {
      this.store := store;
    }

    function GetAllTasks(): (r: map<int, Task>)
      reads store
      ensures r == store.tasks
    {
      store.tasks
    }

    function GetTaskById(id: int): (r: Option<Task>)
      reads store
      ensures r.Some? <==> id in store.tasks
      ensures r.Some? ==> r.value == store.tasks[id]
    {
      if id in store.tasks then Some(store.tasks[id]) else None
    }

    function GetTasksByStatus(status: Status): (r: map<int, Task>)
      reads store
      ensures forall id :: id in r <==> id in store.tasks && store.tasks[id].status == status
      ensures forall id :: id in r ==> r[id] == store.tasks[id]
    {
      TaskRepository.FindByStatus(store.tasks, status)
    }

    function GetTasksByPriority(priority: Priority): (r: map<int, Task>)
      reads store
      ensures forall id :: id in r <==> id in store.tasks && store.tasks[id].priority == priority
      ensures forall id :: id in r ==> r[id] == store.tasks[id]
    {
      TaskRepository.FindByPriority(store.tasks, priority)
    }

    function GetTasksByCategory(categoryId: int): (r: map<int, Task>)
      reads store
      ensures forall id :: id in r <==> id in store.tasks && store.tasks[id].category == Some(categoryId)
      ensures forall id :: id in r ==> r[id] == store.tasks[id]
    {
      TaskRepository.FindByCategoryId(store.tasks, categoryId)
    }

    /** The overdue tasks at the clock reading `now`. */
    function GetOverdueTasks(now: Instant): (r: map<int, Task>)
      reads store
      ensures forall id :: id in r <==>
                id in store.tasks && store.tasks[id].dueDate.Some?
                && store.tasks[id].dueDate.value < now && store.tasks[id].status != Completed
      ensures forall id :: id in r ==> r[id] == store.tasks[id]
    {
      TaskRepository.FindOverdueTasks(store.tasks, now)
    }

    function GetTaskCountByStatus(status: Status): (n: nat)
      reads store
      ensures n == |TaskRepository.FindByStatus(store.tasks, status)|
    {
      TaskRepository.CountByStatus(store.tasks, status)
    }

    /**
     * Creates a task. A category given by id must exist, or the call fails with NotFound and
     * nothing is stored; otherwise the task is stored under a fresh id, referencing that
     * category, stamped by the creation hook, and nothing else changes.
     */
    method CreateTask(input: NewTask, now: Instant) returns (r: Result<Task>)
      requires store.Valid()
      requires !IsBlank(input.title)
      requires !input.category.CategoryWithoutId?
      modifies store
      ensures store.Valid()
      ensures r.Err? <==> input.category.CategoryWithId? && input.category.id !in old(store.categories)
      ensures r.Err? ==> r.error == NotFound && unchanged(store)
      ensures r.Ok? ==>
                && r.value.id !in old(store.tasks)
                && r.value == OnCreate(Draft(input, r.value.category).(id := r.value.id), now)
                && r.value.category == (if input.category.CategoryWithId? then Some(input.category.id) else None)
                && store.tasks == old(store.tasks)[r.value.id := r.value]
                && store.categories == old(store.categories)
    {
      var category: Option<int> := None;
      if input.category.CategoryWithId? {
        var found := CategoryRepository.FindById(store.categories, input.category.id);
        if found.None? {
          return Err(NotFound);
        }
        category := Some(found.value.id);
      }
      var saved := store.SaveNewTask(Draft(input, category), now);
      return Ok(saved);
    }

    /**
     * The field-by-field merge of an update request into a stored task: a title overwrites
     * only when present and not blank; description, priority, status and due date overwrite
     * exactly when present; the id, category and timestamps are never taken from the request.
     */
    static method MergeFields(task: Task, patch: TaskPatch) returns (merged: Task)
      ensures merged.title == (if patch.title.Some? && !IsBlank(patch.title.value)
                               then patch.title.value else task.title)
      ensures merged.description == (if patch.description.Some? then patch.description
                                     else task.description)
      ensures merged.priority == (if patch.priority.Some? then patch.priority.value
                                  else task.priority)
      ensures merged.status == (if patch.status.Some? then patch.status.value else task.status)
      ensures merged.dueDate == (if patch.dueDate.Some? then patch.dueDate else task.dueDate)
      ensures merged.(title := task.title, description := task.description,
                      priority := task.priority, status := task.status,
                      dueDate := task.dueDate) == task
    {
      merged := task;
      if patch.title.Some? && !IsBlank(patch.title.value) {
        merged := merged.(title := patch.title.value);
      }
      if patch.description.Some? {
        merged := merged.(description := patch.description);
      }
      if patch.priority.Some? {
        merged := merged.(priority := patch.priority.value);
      }
      if patch.status.Some? {
        merged := merged.(status := patch.status.value);
      }
      if patch.dueDate.Some? {
        merged := merged.(dueDate := patch.dueDate);
      }
    }

    /**
     * Partial-merge update. An unknown task, or a category id the store does not hold, fails
     * with NotFound and changes nothing. Otherwise a title overwrites only when present and
     * not blank; description, priority, status and due date overwrite exactly when present;
     * the category is attached, cleared or kept; the update hook stamps the result; and only
     * this task changes.
     */
    method UpdateTask(id: int, patch: TaskPatch, now: Instant) returns (r: Result<Task>)
      requires store.Valid()
      modifies store
      ensures store.Valid()
      ensures r.Err? <==>
                (id !in old(store.tasks)
                 || (patch.category.CategoryWithId? && patch.category.id !in old(store.categories)))
      ensures r.Err? ==> r.error == NotFound && unchanged(store)
      ensures r.Ok? ==>
                var before, after := old(store.tasks)[id], r.value;
                && after.id == id
                && after.title == (if patch.title.Some? && !IsBlank(patch.title.value)
                                   then patch.title.value else before.title)
                && after.description == (if patch.description.Some? then patch.description
                                         else before.description)
                && after.priority == (if patch.priority.Some? then patch.priority.value
                                      else before.priority)
                && after.status == (if patch.status.Some? then patch.status.value else before.status)
                && after.dueDate == (if patch.dueDate.Some? then patch.dueDate else before.dueDate)
                && after.category == (match patch.category
                                      case CategoryWithId(c) => Some(c)
                                      case CategoryWithoutId => None
                                      case NoCategory => before.category)
                && after.createdAt == before.createdAt
                && after.updatedAt == Some(now)
                && after.completedAt == (if before.completedAt.None? && after.status == Completed
                                         then Some(now) else before.completedAt)
      ensures r.Ok? ==> store.tasks == old(store.tasks)[id := r.value]
                        && store.categories == old(store.categories)
    {
      var found := GetTaskById(id);
      if found.None? {
        return Err(NotFound);
      }
      var task := MergeFields(found.value, patch);
      match patch.category {
        case CategoryWithId(c) =>
          var category := CategoryRepository.FindById(store.categories, c);
          if category.None? {
            return Err(NotFound);
          }
          task := task.(category := Some(category.value.id));
        case CategoryWithoutId =>
          task := task.(category := None);
        case NoCategory =>
      }
      var saved := store.SaveTask(task, now);
      return Ok(saved);
    }

    /**
     * Sets the status of one task. An unknown task fails with NotFound and changes nothing;
     * otherwise only the status changes, apart from the update hook's timestamps.
     */
    method UpdateTaskStatus(id: int, status: Status, now: Instant) returns (r: Result<Task>)
      requires store.Valid()
      modifies store
      ensures store.Valid()
      ensures r.Err? <==> id !in old(store.tasks)
      ensures r.Err? ==> r.error == NotFound && unchanged(store)
      ensures r.Ok? ==> r.value == OnUpdate(old(store.tasks)[id].(status := status), now)
                        && store.tasks == old(store.tasks)[id := r.value]
                        && store.categories == old(store.categories)
    {
      var found := GetTaskById(id);
      if found.None? {
        return Err(NotFound);
      }
      var task := found.value.(status := status);
      var saved := store.SaveTask(task, now);
      return Ok(saved);
    }

    /** Deletes one task: NotFound if it is not stored, otherwise exactly that task goes. */
    method DeleteTask(id: int) returns (r: Result<()>)
      requires store.Valid()
      modifies store
      ensures store.Valid()
      ensures r.Err? <==> id !in old(store.tasks)
      ensures r.Err? ==> r.error == NotFound && unchanged(store)
      ensures r.Ok? ==> store.tasks == old(store.tasks) - {id}
                        && store.categories == old(store.categories)
    {
      if id !in store.tasks {
        return Err(NotFound);
      }
      store.DeleteTaskById(id);
      return Ok(());
    }
  }
}
