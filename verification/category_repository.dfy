/**
 * The lookups of the category store, over the stored categories keyed by id. Names are
 * compared by exact, case-sensitive string equality.
 */
module CategoryRepository {
  import opened Outcomes
  import opened Model

  /** No two stored categories share a name. */
  ghost predicate UniqueNames(categories: map<int, Category>) {
    forall a, b :: a in categories && b in categories && a != b ==>
      categories[a].name != categories[b].name
  }

  function FindById(categories: map<int, Category>, id: int): (r: Option<Category>)
    ensures r.Some? <==> id in categories
    ensures r.Some? ==> r.value == categories[id]
  {
    if id in categories then Some(categories[id]) else None
  }

  /** `existsByName`: some stored category has exactly this name. */
  predicate ExistsByName(categories: map<int, Category>, name: string): (b: bool)
    ensures b <==> name in (set id | id in categories :: categories[id].name)
  {
    exists id :: id in categories && categories[id].name == name
  }

  /** `findByName`: the one stored category with this name, if any. */
  function FindByName(categories: map<int, Category>, name: string): (r: Option<Category>)
    requires UniqueNames(categories)
    ensures r.Some? <==> ExistsByName(categories, name)
    ensures r.Some? ==> r.value.name == name && r.value in categories.Values
    ensures r.Some? ==> forall id :: id in categories && categories[id].name == name ==>
                          categories[id] == r.value
  {
    if ExistsByName(categories, name) then
      var id :| id in categories && categories[id].name == name;
      Some(categories[id])
    else
      None
  }

  /** Adding a category under a new id keeps names unique exactly when its name is not taken. */
  lemma InsertKeepsNamesUnique(categories: map<int, Category>, c: Category)
    requires UniqueNames(categories) && c.id !in categories
    ensures UniqueNames(categories[c.id := c]) <==> !ExistsByName(categories, c.name)
  {
    if !ExistsByName(categories, c.name) {
      assert UniqueNames(categories[c.id := c]);
    } else {
      var other :| other in categories && categories[other].name == c.name;
      assert categories[c.id := c][other].name == categories[c.id := c][c.id].name;
    }
  }

  /**
   * Replacing a stored category keeps names unique exactly when its new name is its old one or
   * no stored category holds it.
   */
  lemma RenameKeepsNamesUnique(categories: map<int, Category>, c: Category)
    requires UniqueNames(categories) && c.id in categories
    ensures UniqueNames(categories[c.id := c]) <==>
              c.name == categories[c.id].name || !ExistsByName(categories, c.name)
  {
    var updated := categories[c.id := c];
    if c.name == categories[c.id].name || !ExistsByName(categories, c.name) {
      forall a, b | a in updated && b in updated && a != b
        ensures updated[a].name != updated[b].name
      {
        if a != c.id && b != c.id {
          assert updated[a] == categories[a] && updated[b] == categories[b];
        }
      }
    } else {
      var other :| other in categories && categories[other].name == c.name;
      assert other != c.id;
      assert updated[other].name == updated[c.id].name;
    }
  }
}
