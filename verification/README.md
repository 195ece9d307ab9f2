# Task API domain core, in Dafny

A model of the domain logic of a small Spring Boot task-management backend. Tasks carry a
title, an optional description, a priority (LOW, MEDIUM, HIGH, URGENT), a status (PENDING,
IN_PROGRESS, COMPLETED, CANCELLED), an optional category, an optional due date and three
timestamps. Categories carry a unique name and an optional description.

The model is one in-memory store (`Persistence.Store`). It holds a map from id to task, a map
from id to category, and a counter for fresh ids. Its invariant `Valid()` says:

- every key is its entity's id and lies below the counter;
- every stored task has a non-blank title and both save timestamps;
- no two categories share a name;
- every category a task refers to is stored.

Around the store:

- `TaskLifecycle.TaskService` models `TaskService`. It resolves category references on create
  and update, and applies the partial-merge update with its three-way category handling. It
  also offers the single-field status update, delete-if-exists and the query passthroughs.
- `CategoryLifecycle.CategoryService` models `CategoryService`. It keeps names unique on
  create and rename, and refuses to delete a category that tasks still reference, reporting
  how many.
- `Model` holds the entities and the two save hooks of `Task` as functions. `OnCreate` stamps
  `createdAt`/`updatedAt`. `OnUpdate` refreshes `updatedAt` and stamps `completedAt` once. The
  store's save methods perform these steps in place on every write path.
- `TaskRepository` and `CategoryRepository` hold the store's queries as pure functions over
  the maps.
- `Text` models `String.trim()` and the "blank after trim" test.
- `Scenarios` holds client scenarios on fresh stores. They state what a caller can conclude
  from the contracts alone: defaults on create, a missing category on create, a partial update,
  re-opening a completed task, and the category rules.

Errors are a tagged result, `Err(NotFound)` or `Err(Validation(reason))`, instead of exception
messages. Every failed operation leaves the store unchanged, which stands for the rollback of
the `@Transactional` services.

Two behaviours of the code that are easy to miss, and that the model keeps:

- The creation hook does not touch `completedAt`. A `completedAt` in the create request is
  kept, and a task created COMPLETED gets its `completedAt` only at its next save
  (`Model.CreatedCompletedIsNotStamped`).
- An update that names a missing category fails with the same "not found" kind as an
  unknown task id.

## Model

| member | source | states |
|---|---|---|
| `Model.EnumerationsHaveFourValues` | src/main/java/com/example/taskapi/model/Task.java:19-25 | Priority and Status each have exactly four distinct values |
| `Model.Draft` | src/main/java/com/example/taskapi/model/Task.java:38-46 | a priority or status the create request leaves unset takes its field initialiser, MEDIUM or PENDING; a set one is kept; no timestamps yet |
| `Model.OnCreate` | src/main/java/com/example/taskapi/model/Task.java:64-68 | createdAt and updatedAt both read the clock; completedAt, status and every other field are untouched |
| `Model.OnUpdate` | src/main/java/com/example/taskapi/model/Task.java:70-76 | updatedAt reads the clock; createdAt is kept; completedAt is stamped with the clock iff the task is COMPLETED and has none; a present completedAt is never changed or cleared; nothing else changes |
| `Model.CompletedAtIsFirstCompletion` | src/main/java/com/example/taskapi/model/Task.java:70-76 | over any run of saves, completedAt is the one the task had, else the time of the first save in status COMPLETED, whatever statuses follow; createdAt never changes; updatedAt is the last save's time |
| `Model.CreatedCompletedIsNotStamped` | src/main/java/com/example/taskapi/model/Task.java:64-68 | a task created COMPLETED without a completedAt still has none after the creation hook |
| `Text.TrimStart` | src/main/java/com/example/taskapi/service/TaskService.java:70 | the result is the suffix of the input left after dropping every leading character at or below U+0020, and starts with a character above it |
| `Text.TrimEnd` | src/main/java/com/example/taskapi/service/CategoryService.java:50 | the result is the prefix left after dropping every trailing character at or below U+0020, and ends with a character above it |
| `Text.BlankIffAllTrimmable` | src/main/java/com/example/taskapi/service/CategoryService.java:50 | `s.trim().isEmpty()` holds exactly when every character of `s` is at or below U+0020 |
| `TaskRepository.FindByStatus` | src/main/java/com/example/taskapi/repository/TaskRepository.java:17 | exactly the stored tasks whose status is the given one, unchanged |
| `TaskRepository.FindByPriority` | src/main/java/com/example/taskapi/repository/TaskRepository.java:19 | exactly the stored tasks whose priority is the given one, unchanged |
| `TaskRepository.FindByCategoryId` | src/main/java/com/example/taskapi/repository/TaskRepository.java:21 | exactly the stored tasks whose category is present with the given id; uncategorised tasks never match |
| `TaskRepository.FindByStatusAndPriority` | src/main/java/com/example/taskapi/repository/TaskRepository.java:23 | exactly the stored tasks with both the given status and the given priority |
| `TaskRepository.FindOverdueTasks` | src/main/java/com/example/taskapi/repository/TaskRepository.java:25-26 | exactly the stored tasks with a due date strictly before `now` and a status other than COMPLETED; no due date means not overdue |
| `TaskRepository.CountByStatus` | src/main/java/com/example/taskapi/repository/TaskRepository.java:31 | the count of tasks in a status equals the size of FindByStatus for it |
| `TaskRepository.StatusAndPriorityIsIntersection` | src/main/java/com/example/taskapi/repository/TaskRepository.java:17-23 | the combined filter equals either single filter applied to the other's result, and its ids are the intersection of theirs |
| `TaskRepository.StatusCountsSumToTotal` | src/main/java/com/example/taskapi/repository/TaskRepository.java:31 | the four status counts add up to the number of stored tasks |
| `TaskRepository.OverdueIsMonotone` | src/main/java/com/example/taskapi/repository/TaskRepository.java:25-26 | a task overdue at some time is overdue at every later time |
| `TaskRepository.NoReferencesWhenNoneFound` | src/main/java/com/example/taskapi/service/CategoryService.java:70-71 | when FindByCategoryId finds nothing, no stored task refers to that category |
| `CategoryRepository.FindById` | src/main/java/com/example/taskapi/service/CategoryService.java:30-32 | the stored category under the id, or none exactly when the id is not stored |
| `CategoryRepository.ExistsByName` | src/main/java/com/example/taskapi/service/CategoryService.java:38-41 | true exactly when the name is one of the stored category names |
| `CategoryRepository.FindByName` | src/main/java/com/example/taskapi/service/CategoryService.java:34-36 | with unique names: some category exactly when one has that name, and then the one holding it |
| `CategoryRepository.InsertKeepsNamesUnique` | src/main/java/com/example/taskapi/service/CategoryService.java:38-43 | inserting under a new id keeps names unique iff the name was not yet held |
| `CategoryRepository.RenameKeepsNamesUnique` | src/main/java/com/example/taskapi/service/CategoryService.java:50-56 | replacing a stored category keeps names unique iff its new name is its old one or not held by any category |
| `Persistence.Store.SaveNewTask` | src/main/java/com/example/taskapi/model/Task.java:64-68 | stores the task under a fresh id, stamped as OnCreate says; keeps the store invariant; nothing else changes |
| `Persistence.Store.SaveTask` | src/main/java/com/example/taskapi/model/Task.java:70-76 | writes back the task, stamped as OnUpdate says; keeps the store invariant; nothing else changes |
| `Persistence.Store.DeleteTaskById` | src/main/java/com/example/taskapi/service/TaskService.java:111 | removes exactly that task id |
| `Persistence.Store.SaveNewCategory` | src/main/java/com/example/taskapi/service/CategoryService.java:42 | stores a category with an unheld name under a fresh id; names stay unique |
| `Persistence.Store.SaveCategory` | src/main/java/com/example/taskapi/service/CategoryService.java:62 | writes back a category whose name is its own or unheld; names stay unique |
| `Persistence.Store.DeleteCategoryById` | src/main/java/com/example/taskapi/service/CategoryService.java:76 | removes an unreferenced category; every task's category still resolves |
| `TaskLifecycle.TaskService.GetAllTasks` | src/main/java/com/example/taskapi/service/TaskService.java:30-32 | all stored tasks |
| `TaskLifecycle.TaskService.GetTaskById` | src/main/java/com/example/taskapi/service/TaskService.java:34-36 | the stored task under the id, or none exactly when it is not stored |
| `TaskLifecycle.TaskService.GetTasksByStatus` | src/main/java/com/example/taskapi/service/TaskService.java:38-40 | exactly the stored tasks in the status, each as stored |
| `TaskLifecycle.TaskService.GetTasksByPriority` | src/main/java/com/example/taskapi/service/TaskService.java:42-44 | exactly the stored tasks with the priority, each as stored |
| `TaskLifecycle.TaskService.GetTasksByCategory` | src/main/java/com/example/taskapi/service/TaskService.java:46-48 | exactly the stored tasks referring to the category id, each as stored |
| `TaskLifecycle.TaskService.GetOverdueTasks` | src/main/java/com/example/taskapi/service/TaskService.java:50-52 | exactly the stored tasks due strictly before the clock reading and not COMPLETED, each as stored |
| `TaskLifecycle.TaskService.GetTaskCountByStatus` | src/main/java/com/example/taskapi/service/TaskService.java:114-116 | the number of stored tasks in the status |
| `TaskLifecycle.TaskService.CreateTask` | src/main/java/com/example/taskapi/service/TaskService.java:54-63 | fails with NotFound, storing nothing, iff the category id given is not stored; otherwise stores the drafted task under a fresh id, referencing that category, stamped by OnCreate; no other task or category changes |
| `TaskLifecycle.TaskService.MergeFields` | src/main/java/com/example/taskapi/service/TaskService.java:69-84 | a title overwrites only when non-null and non-blank after trim; description, priority, status and due date overwrite exactly when non-null; every other field is kept |
| `TaskLifecycle.TaskService.UpdateTask` | src/main/java/com/example/taskapi/service/TaskService.java:65-97 | fails with NotFound and changes nothing iff the task or a given category id is not stored; otherwise merges as MergeFields, attaches, clears or keeps the category, keeps createdAt, stamps updatedAt and a first completedAt, and changes only that task |
| `TaskLifecycle.TaskService.UpdateTaskStatus` | src/main/java/com/example/taskapi/service/TaskService.java:99-105 | fails with NotFound and changes nothing iff the task is not stored; otherwise the task changes only in status and the OnUpdate timestamps |
| `TaskLifecycle.TaskService.DeleteTask` | src/main/java/com/example/taskapi/service/TaskService.java:107-112 | fails with NotFound and changes nothing iff the task is not stored; otherwise removes exactly that task |
| `CategoryLifecycle.RenameRejected` | src/main/java/com/example/taskapi/service/CategoryService.java:52-53 | a rename to the category's own name is never rejected; a rejected rename names a different stored category holding the name |
| `CategoryLifecycle.RenameRejectedIffNameHeldByOther` | src/main/java/com/example/taskapi/service/CategoryService.java:52-55 | the duplicate check rejects a rename iff another stored category holds the name; keeping a category's own name is never rejected |
| `CategoryLifecycle.CategoryService.GetAllCategories` | src/main/java/com/example/taskapi/service/CategoryService.java:26-28 | all stored categories |
| `CategoryLifecycle.CategoryService.GetCategoryById` | src/main/java/com/example/taskapi/service/CategoryService.java:30-32 | the stored category under the id, or none exactly when it is not stored |
| `CategoryLifecycle.CategoryService.GetCategoryByName` | src/main/java/com/example/taskapi/service/CategoryService.java:34-36 | the stored category with the name, present exactly when one holds it |
| `CategoryLifecycle.CategoryService.CreateCategory` | src/main/java/com/example/taskapi/service/CategoryService.java:38-43 | fails with Validation(DuplicateName), changing nothing, iff the name is held; otherwise stores the category under a fresh id; names stay unique and tasks are untouched |
| `CategoryLifecycle.CategoryService.UpdateCategory` | src/main/java/com/example/taskapi/service/CategoryService.java:45-63 | NotFound for an unknown id; a non-blank name held by another category fails with Validation and changes nothing; otherwise a non-blank name replaces, a blank or null one keeps the stored name, and a non-null description (empty included) replaces |
| `CategoryLifecycle.CategoryService.DeleteCategory` | src/main/java/com/example/taskapi/service/CategoryService.java:65-77 | NotFound for an unknown id; Validation reporting k when k >= 1 tasks refer to it, changing nothing; otherwise removes exactly that category and leaves the tasks untouched |
| `Scenarios.CreatedTaskHasDefaults` | src/main/java/com/example/taskapi/model/Task.java:38-46 | a task created without priority or status reads back as MEDIUM and PENDING, with createdAt set and no completedAt |
| `Scenarios.UnknownCategoryStoresNothing` | src/main/java/com/example/taskapi/service/TaskService.java:54-63 | creating a task that names category 999 in an empty store fails with NotFound and stores no task |
| `Scenarios.PartialUpdateKeepsTitle` | src/main/java/com/example/taskapi/service/TaskService.java:69-75 | title "A", description "B" updated with a null title and description "C" gives "A" and "C" |
| `Scenarios.ReopeningKeepsCompletedAt` | src/main/java/com/example/taskapi/model/Task.java:70-76 | completing a task at t1 and re-opening it at t2 leaves completedAt at t1 |
| `Scenarios.ReferencedCategoryNotDeleted` | src/main/java/com/example/taskapi/service/CategoryService.java:65-77 | deleting a category one task refers to fails, reporting one task |
| `Scenarios.DuplicateNameRejected` | src/main/java/com/example/taskapi/service/CategoryService.java:38-41 | creating a second category with a stored name is refused as a duplicate |
| `Scenarios.RenameToOwnNameAccepted` | src/main/java/com/example/taskapi/service/CategoryService.java:50-62 | renaming a category to its own name succeeds and applies the new description |

## Left out

- The HTTP controllers, including how they map errors to 400 or 404 by the message text, and the health endpoint. Besides routing, they validate and bind request bodies; the consequences for updates are described under `TaskLifecycle.TaskService.UpdateTask` below. The null-status check of the status endpoint appears as the `Status` parameter type of `UpdateTaskStatus`, which cannot be null.
- The clock: every operation that reads it takes the time as a parameter `now`. The two clock reads inside each save hook are modelled as one reading.
- Transactions and concurrency: each operation is atomic, and a failure leaves the store unchanged. Races between the name check and the insert are not modelled, and neither is a unique constraint in the database behind that check.
- Query results are maps from id to task, not ordered lists. The order the database returns rows in is not modelled.
- `TaskRepository.findByCategory` (the explicit query at TaskRepository.java:28-29) is left out. No service calls it, and it selects the same rows as `findByCategoryId`.
- Category.java and CategoryRepository.java are not part of this model. A category is a record of id, name and description. Names compare by exact string equality, so a case-insensitive database collation is not modelled. The non-blank rule on a new category's name is not modelled either.
- TaskLifecycle.TaskService.CreateTask: requires a non-blank title. This stands for the `@NotBlank` check that runs before the service.
- TaskLifecycle.TaskService.CreateTask: requires that a category object in the request carry an id. The source passes a category object without an id on to the persistence layer, whose reaction (refusing a reference to an unsaved entity) is not part of this model.
- TaskLifecycle.TaskService.CreateTask: an id, `createdAt` or `updatedAt` in the request body is not modelled. A priority or status explicitly set to null is not modelled either: an unset one takes its initialiser.
- TaskLifecycle.TaskService.UpdateTask: the branches in which an absent title, priority or status keeps the stored value are reachable only by a caller of the service itself. Over HTTP (TaskController.java:72-76) the request body is bound to a fresh `Task`, so an omitted priority or status arrives as MEDIUM or PENDING (Task.java:41,46) and overwrites the stored value; a PUT without a status therefore resets the task to PENDING. An explicit null priority or status, and a null or blank title, are refused by bean validation before the service runs. The model states the service's own merge rule.
- The 2000-character bound on a task's description is a column length, not a check the services make, and is not modelled.
- Persistence.Store.SaveTask: every save of an existing task runs the update hook. Hibernate's dirty checking, which can skip the hook when nothing changed, is not modelled. The `updatable = false` column for `createdAt` is not modelled separately, because no service path changes `createdAt`.
- Exception messages: only the error kind is kept, plus the task count when a category delete is refused.
