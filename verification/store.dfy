/**
 * The task and category stores as one in-memory object. Saving runs the task save hooks in
 * place: a new task is stamped as the creation hook does, an existing one as the update
 * hook does.
 */
module Persistence {
  import opened Outcomes
  import opened Text
  import opened Model
  import CategoryRepository

  /** What every stored task satisfies: a non-blank title and both save timestamps set. */
  ghost predicate IsStoredTask(t: Task) {
    !IsBlank(t.title) && t.createdAt.Some? && t.updatedAt.Some?
  }

  class Store {
    var tasks: map<int, Task>
    var categories: map<int, Category>
    /** The next id the store hands out; every id in use lies below it. */
    var nextId: int

    ghost predicate Valid()
      reads this
    {
      && 1 <= nextId
      && (forall id :: id in tasks ==> tasks[id].id == id && id < nextId && IsStoredTask(tasks[id]))
      && (forall id :: id in categories ==> categories[id].id == id && id < nextId)
      && CategoryRepository.UniqueNames(categories)
      && (forall id :: id in tasks && tasks[id].category.Some? ==> tasks[id].category.value in categories)
    }

    constructor ()
      ensures Valid() && tasks == map[] && categories == map[]
    {
      tasks := map[];
      categories := map[];
      nextId := 1;
    }

    /** Inserts a new task under a fresh id, stamping it as the creation hook does. */
    method SaveNewTask(t: Task, now: Instant) returns (saved: Task)
      requires Valid()
      requires !IsBlank(t.title)
      requires t.category.Some? ==> t.category.value in categories
      modifies this
      ensures Valid()
      ensures saved.id == old(nextId) && saved.id !in old(tasks)
      ensures saved == OnCreate(t.(id := saved.id), now)
      ensures tasks == old(tasks)[saved.id := saved]
      ensures categories == old(categories)
    {
      saved := t.(id := nextId);
      saved := saved.(createdAt := Some(now));
      saved := saved.(updatedAt := Some(now));
      tasks := tasks[saved.id := saved];
      nextId := nextId + 1;
    }

    /** Writes back a stored task, stamping it as the update hook does. */
    method SaveTask(t: Task, now: Instant) returns (saved: Task)
      requires Valid()
      requires t.id in tasks && !IsBlank(t.title) && t.createdAt.Some?
      requires t.category.Some? ==> t.category.value in categories
      modifies this
      ensures Valid()
      ensures saved == OnUpdate(t, now)
      ensures tasks == old(tasks)[t.id := saved]
      ensures categories == old(categories) && nextId == old(nextId)
    {
      saved := t.(updatedAt := Some(now));
      if saved.status == Completed && saved.completedAt.None? {
        saved := saved.(completedAt := Some(now));
      }
      tasks := tasks[t.id := saved];
    }

    method DeleteTaskById(id: int)
      requires Valid()
      modifies this
      ensures Valid()
      ensures tasks == old(tasks) - {id}
      ensures categories == old(categories) && nextId == old(nextId)
    {
      tasks := tasks - {id};
    }

    /** Inserts a new category under a fresh id; its name must not be taken. */
    method SaveNewCategory(c: NewCategory) returns (saved: Category)
      requires Valid()
      requires !CategoryRepository.ExistsByName(categories, c.name)
      modifies this
      ensures Valid()
      ensures saved == Category(old(nextId), c.name, c.description) && saved.id !in old(categories)
      ensures categories == old(categories)[saved.id := saved]
      ensures tasks == old(tasks)
    {
      saved := Category(nextId, c.name, c.description);
      CategoryRepository.InsertKeepsNamesUnique(categories, saved);
      categories := categories[saved.id := saved];
      nextId := nextId + 1;
    }

    /** Writes back a stored category; its name must be its old one or one no category holds. */
    method SaveCategory(c: Category)
      requires Valid()
      requires c.id in categories
      requires c.name == categories[c.id].name || !CategoryRepository.ExistsByName(categories, c.name)
      modifies this
      ensures Valid()
      ensures categories == old(categories)[c.id := c]
      ensures tasks == old(tasks) && nextId == old(nextId)
    {
      CategoryRepository.RenameKeepsNamesUnique(categories, c);
      categories := categories[c.id := c];
    }

    /** Removes a category that no task references. */
    method DeleteCategoryById(id: int)
      requires Valid()
      requires forall t :: t in tasks ==> tasks[t].category != Some(id)
      modifies this
      ensures Valid()
      ensures categories == old(categories) - {id}
      ensures tasks == old(tasks) && nextId == old(nextId)
    {
      categories := categories - {id};
    }
  }
}
