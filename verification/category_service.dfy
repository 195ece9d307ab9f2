/** The category lifecycle: unique names on create and rename, and no deletion while tasks refer to it. */
module CategoryLifecycle {
  import opened Outcomes
  import opened Text
  import opened Model
  import TaskRepository
  import CategoryRepository
  import opened Persistence

  /**
   * Whether renaming `current` to `name` fails the duplicate check: the name must differ from
   * its own and be held by a stored category.
   */
  predicate RenameRejected(categories: map<int, Category>, current: Category, name: string): (r: bool)
    ensures name == current.name ==> !r
    ensures r ==> exists id :: id in categories && categories[id].name == name && categories[id] != current
  {
    current.name != name && CategoryRepository.ExistsByName(categories, name)
  }

  /**
   * Renaming a stored category is rejected exactly when another stored category holds the
   * name; in particular, keeping its own name is never rejected.
   */
  lemma RenameRejectedIffNameHeldByOther(categories: map<int, Category>, id: int, name: string)
    requires CategoryRepository.UniqueNames(categories) && id in categories
    ensures RenameRejected(categories, categories[id], name) <==>
              exists other :: other in categories && other != id && categories[other].name == name
    ensures !RenameRejected(categories, categories[id], categories[id].name)
  {
    if RenameRejected(categories, categories[id], name) {
      var other :| other in categories && categories[other].name == name;
      assert other != id;
    }
  }

  class CategoryService {
    const store: Store

    constructor (store: Store)
      ensures this.store == store
    {
      this.store := store;
    }

    function GetAllCategories(): (r: map<int, Category>)
      reads store
      ensures r == store.categories
    {
      store.categories
    }

    function GetCategoryById(id: int): (r: Option<Category>)
      reads store
      ensures r.Some? <==> id in store.categories
      ensures r.Some? ==> r.value == store.categories[id]
    {
      CategoryRepository.FindById(store.categories, id)
    }

    function GetCategoryByName(name: string): (r: Option<Category>)
      reads store
      requires store.Valid()
      ensures r.Some? <==> exists id :: id in store.categories && store.categories[id].name == name
      ensures r.Some? ==> r.value.name == name && r.value in store.categories.Values
    {
      CategoryRepository.FindByName(store.categories, name)
    }

    /**
     * Creates a category: a name already held fails with Validation and changes nothing;
     * otherwise the category is stored under a fresh id and names stay unique.
     */
    method CreateCategory(input: NewCategory) returns (r: Result<Category>)
      requires store.Valid()
      modifies store
      ensures store.Valid()
      ensures r.Err? <==> CategoryRepository.ExistsByName(old(store.categories), input.name)
      ensures r.Err? ==> r.error == Validation(DuplicateName) && unchanged(store)
      ensures r.Ok? ==>
                && r.value.id !in old(store.categories)
                && r.value.name == input.name && r.value.description == input.description
                && store.categories == old(store.categories)[r.value.id := r.value]
                && store.tasks == old(store.tasks)
    {
      if CategoryRepository.ExistsByName(store.categories, input.name) {
        return Err(Validation(DuplicateName));
      }
      var saved := store.SaveNewCategory(input);
      return Ok(saved);
    }

    /**
     * Updates a category. An unknown id fails with NotFound. A name that is present and not
     * blank replaces the stored one, unless another category holds it, which fails with
     * Validation; a blank or absent name keeps the stored one. A present description
     * (the empty string included) replaces the stored one. A failure changes nothing.
     */
    method UpdateCategory(id: int, patch: CategoryPatch) returns (r: Result<Category>)
      requires store.Valid()
      modifies store
      ensures store.Valid()
      ensures id !in old(store.categories) ==> r == Err(NotFound)
      ensures id in old(store.categories) ==>
                (r.Err? <==> patch.name.Some? && !IsBlank(patch.name.value)
                             && RenameRejected(old(store.categories), old(store.categories)[id],
                                               patch.name.value))
      ensures id in old(store.categories) && r.Err? ==> r.error == Validation(DuplicateName)
      ensures r.Err? ==> unchanged(store)
      ensures r.Ok? ==>
                var before := old(store.categories)[id];
                && r.value.id == id
                && r.value.name == (if patch.name.Some? && !IsBlank(patch.name.value)
                                    then patch.name.value else before.name)
                && r.value.description == (if patch.description.Some? then patch.description
                                           else before.description)
                && store.categories == old(store.categories)[id := r.value]
                && store.tasks == old(store.tasks)
    {
      var found := GetCategoryById(id);
      if found.None? {
        return Err(NotFound);
      }
      var category := found.value;
      if patch.name.Some? && !IsBlank(patch.name.value) {
        if RenameRejected(store.categories, category, patch.name.value) {
          return Err(Validation(DuplicateName));
        }
        category := category.(name := patch.name.value);
      }
      if patch.description.Some? {
        category := category.(description := patch.description);
      }
      store.SaveCategory(category);
      return Ok(category);
    }

    /**
     * Deletes a category. An unknown id fails with NotFound; a category that k >= 1 stored
     * tasks refer to fails with Validation reporting k; otherwise exactly that category goes
     * and the tasks are untouched.
     */
    method DeleteCategory(id: int) returns (r: Result<()>)
      requires store.Valid()
      modifies store
      ensures store.Valid()
      ensures id !in old(store.categories) ==> r == Err(NotFound)
      ensures var referencing := TaskRepository.FindByCategoryId(old(store.tasks), id);
              id in old(store.categories) && |referencing| > 0 ==>
                r == Err(Validation(HasTasks(|referencing|)))
      ensures r.Err? ==> unchanged(store)
      ensures r.Ok? <==>
                id in old(store.categories) && |TaskRepository.FindByCategoryId(old(store.tasks), id)| == 0
      ensures r.Ok? ==> store.categories == old(store.categories) - {id}
                        && store.tasks == old(store.tasks)
    {
      var found := GetCategoryById(id);
      if found.None? {
        return Err(NotFound);
      }
      var taskCount := |TaskRepository.FindByCategoryId(store.tasks, id)|;
      if taskCount > 0 {
        return Err(Validation(HasTasks(taskCount)));
      }
      TaskRepository.NoReferencesWhenNoneFound(store.tasks, id);
      store.DeleteCategoryById(id);
      return Ok(());
    }
  }
}
