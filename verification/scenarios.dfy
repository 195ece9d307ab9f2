/**
 * Client scenarios on fresh stores: what a caller of the two services can conclude from
 * their contracts alone.
 */
module Scenarios {
  import opened Outcomes
  import opened Model
  import TaskRepository
  import opened Persistence
  import opened TaskLifecycle
  import opened CategoryLifecycle

  function Request(title: string, description: Option<string>, category: CategoryRef): (r: NewTask) {
    NewTask(title, description, None, None, category, None, None)
  }

  /** A task created without priority or status reads back as MEDIUM and PENDING. */
  method CreatedTaskHasDefaults(now: Instant) returns (fetched: Option<Task>)
    ensures fetched.Some? && fetched.value.priority == Medium && fetched.value.status == Pending
    ensures fetched.value.createdAt == Some(now) && fetched.value.completedAt.None?
  {
    var store := new Store();
    var tasks := new TaskService(store);
    var created := tasks.CreateTask(Request("Write report", None, NoCategory), now);
    fetched := tasks.GetTaskById(created.value.id);
  }

  /** Creating a task that names a missing category fails with NotFound and stores no task. */
  method UnknownCategoryStoresNothing(now: Instant) returns (r: Result<Task>, stored: nat)
    ensures r == Err(NotFound) && stored == 0
  {
    var store := new Store();
    var tasks := new TaskService(store);
    r := tasks.CreateTask(Request("Write report", None, CategoryWithId(999)), now);
    stored := |tasks.GetAllTasks()|;
  }

  /** Updating title "A", description "B" with a null title and description "C" gives "A", "C". */
  method PartialUpdateKeepsTitle(t0: Instant, t1: Instant) returns (updated: Result<Task>)
    ensures updated.Ok? && updated.value.title == "A" && updated.value.description == Some("C")
    ensures updated.value.createdAt == Some(t0) && updated.value.updatedAt == Some(t1)
  {
    var store := new Store();
    var tasks := new TaskService(store);
    var created := tasks.CreateTask(Request("A", Some("B"), NoCategory), t0);
    var patch := TaskPatch(None, Some("C"), None, None, None, NoCategory);
    updated := tasks.UpdateTask(created.value.id, patch, t1);
  }

  /** Completing a task stamps completedAt; reopening it later leaves that stamp in place. */
  method ReopeningKeepsCompletedAt(t0: Instant, t1: Instant, t2: Instant) returns (reopened: Result<Task>)
    ensures reopened.Ok? && reopened.value.status == InProgress
    ensures reopened.value.completedAt == Some(t1) && reopened.value.createdAt == Some(t0)
  {
    var store := new Store();
    var tasks := new TaskService(store);
    var created := tasks.CreateTask(Request("Ship", None, NoCategory), t0);
    var done := tasks.UpdateTaskStatus(created.value.id, Completed, t1);
    reopened := tasks.UpdateTaskStatus(created.value.id, InProgress, t2);
  }

  /** A category that a task refers to cannot be deleted; the rejection reports one task. */
  method ReferencedCategoryNotDeleted(now: Instant) returns (deleted: Result<()>)
    ensures deleted == Err(Validation(HasTasks(1)))
  {
    var store := new Store();
    var categories := new CategoryService(store);
    var tasks := new TaskService(store);
    var work := categories.CreateCategory(NewCategory("Work", None));
    var created := tasks.CreateTask(Request("Write report", None, CategoryWithId(work.value.id)), now);
    assert TaskRepository.FindByCategoryId(store.tasks, work.value.id).Keys == {created.value.id};
    deleted := categories.DeleteCategory(work.value.id);
  }

  /** A second category cannot take a name that is already stored. */
  method DuplicateNameRejected() returns (duplicate: Result<Category>)
    ensures duplicate == Err(Validation(DuplicateName))
  {
    var store := new Store();
    var categories := new CategoryService(store);
    var work := categories.CreateCategory(NewCategory("Work", None));
    duplicate := categories.CreateCategory(NewCategory("Work", Some("again")));
  }

  /** Renaming a category to its own name passes the duplicate check. */
  method RenameToOwnNameAccepted() returns (renamed: Result<Category>)
    ensures renamed.Ok? && renamed.value.name == "Work" && renamed.value.description == Some("")
  {
    var store := new Store();
    var categories := new CategoryService(store);
    var work := categories.CreateCategory(NewCategory("Work", None));
    renamed := categories.UpdateCategory(work.value.id, CategoryPatch(Some("Work"), Some("")));
  }
}
