/** The guidance-category service: a table of categories that are created
    under an existing admin, updated, have their scenario list rewritten, and
    are soft-deleted. Every operation but creation first looks the category
    up and refuses a missing or already deleted one. */
module CategoryService {
  import opened Base
  import opened Users
  import AuthService

  type CategoryId = nat

  /** A category document; `isDeleted` is `false` when it is created. */
  datatype Category = Category(name: string, image: string, admin: UserId, scenario: seq<string>, isDeleted: bool)

  /** The body of a create request (`ICategory`). */
  datatype CategoryPayload = CategoryPayload(name: string, image: string, admin: UserId, scenario: seq<string>)

  /** The body of an update request: only the fields it carries are set. */
  datatype CategoryPatch = CategoryPatch(name: Option<string>, image: Option<string>,
                                         admin: Option<UserId>, scenario: Option<seq<string>>)

  type Table = map<CategoryId, Category>

  /** The document `Category.create(payload)` stores. */
  function NewCategory(p: CategoryPayload): (c: Category)
    ensures !c.isDeleted
  {
    Category(p.name, p.image, p.admin, p.scenario, false)
  }

  function Pick<T>(o: Option<T>, current: T): T
  {
    match o
    case Some(v) => v
    case None => current
  }

  /** `findByIdAndUpdate(id, patch)` on one document. */
  function ApplyPatch(c: Category, patch: CategoryPatch): (r: Category)
    ensures r.isDeleted == c.isDeleted
    ensures patch == CategoryPatch(None, None, None, None) ==> r == c
  {
    Category(Pick(patch.name, c.name), Pick(patch.image, c.image), Pick(patch.admin, c.admin),
             Pick(patch.scenario, c.scenario), c.isDeleted)
  }

  /** The guards of `updateCategory`: a missing category is Forbidden, not
      NotFound, and so is a deleted one. */
  function UpdateGuard(cats: Table, id: CategoryId): (r: Result<Category>)
    ensures r == Failure(AppError(Forbidden, CategoryNotFound)) <==> id !in cats
    ensures r == Failure(AppError(Forbidden, CategoryDeleted)) <==> id in cats && cats[id].isDeleted
    ensures r.Success? <==> id in cats && !cats[id].isDeleted
    ensures r.Success? ==> r.value == cats[id]
  {
    if id !in cats then Failure(AppError(Forbidden, CategoryNotFound))
    else if cats[id].isDeleted then Failure(AppError(Forbidden, CategoryDeleted))
    else Success(cats[id])
  }

  /** The guards of `updateScenarioInCategory`: NotFound, then Forbidden. */
  function ScenarioGuard(cats: Table, id: CategoryId): (r: Result<Category>)
    ensures r == Failure(AppError(NotFound, CategoryNotFound)) <==> id !in cats
    ensures r == Failure(AppError(Forbidden, CategoryDeleted)) <==> id in cats && cats[id].isDeleted
    ensures r.Success? <==> id in cats && !cats[id].isDeleted
    ensures r.Success? ==> r.value == cats[id]
  {
    if id !in cats then Failure(AppError(NotFound, CategoryNotFound))
    else if cats[id].isDeleted then Failure(AppError(Forbidden, CategoryDeleted))
    else Success(cats[id])
  }

  /** The guards of `deleteCategory`: both refusals are Forbidden. */
  function DeleteGuard(cats: Table, id: CategoryId): (r: Result<Category>)
    ensures r == Failure(AppError(Forbidden, CategoryNotFound)) <==> id !in cats
    ensures r == Failure(AppError(Forbidden, CategoryAlreadyDeleted)) <==> id in cats && cats[id].isDeleted
    ensures r.Success? <==> id in cats && !cats[id].isDeleted
    ensures r.Success? ==> r.value == cats[id]
  {
    if id !in cats then Failure(AppError(Forbidden, CategoryNotFound))
    else if cats[id].isDeleted then Failure(AppError(Forbidden, CategoryAlreadyDeleted))
    else Success(cats[id])
  }

  /** Deleting is not idempotent: after a successful soft delete a second
      delete is refused, and so are updates and scenario rewrites, while the
      document stays in the table with every other field as it was. */
  lemma DeleteNotRepeatable(cats: Table, id: CategoryId)
    requires DeleteGuard(cats, id).Success?
    ensures var after := cats[id := cats[id].(isDeleted := true)];
            && after.Keys == cats.Keys
            && DeleteGuard(after, id) == Failure(AppError(Forbidden, CategoryAlreadyDeleted))
            && UpdateGuard(after, id) == Failure(AppError(Forbidden, CategoryDeleted))
            && ScenarioGuard(after, id) == Failure(AppError(Forbidden, CategoryDeleted))
  {
  }

  /** The category collection. Ids are handed out by a counter, every id in
      use is below it. */
  class CategoryTable {
    var categories: Table
    var nextId: CategoryId

    ghost predicate Valid()
      reads this
    {
      forall id :: id in categories ==> id < nextId
    }

    constructor ()
      ensures Valid() && categories == map[] && nextId == 0
    {
      categories := map[];
      nextId := 0;
    }

    /** `createCategory`: the admin is looked up by id in the user
        collection first; only then is the payload inserted under a fresh id. */
    method CreateCategory(directory: AuthService.UserStore, adminId: UserId, payload: CategoryPayload)
      returns (r: Result<CategoryId>)
      requires Valid() && directory.Valid()
      modifies this
      ensures Valid()
      ensures ExistsById(directory.users, adminId).Failure? ==>
                && r == Failure(ExistsById(directory.users, adminId).error)
                && categories == old(categories) && nextId == old(nextId)
      ensures ExistsById(directory.users, adminId).Success? ==>
                && r == Success(old(nextId))
                && old(nextId) !in old(categories)
                && categories == old(categories)[old(nextId) := NewCategory(payload)]
                && nextId == old(nextId) + 1
    {
      var users := directory.users;
      if !exists e :: e in users && users[e].id == adminId {
        return Failure(AppError(NotFound, UserNotFound));
      }
      var email :| email in users && users[email].id == adminId;
      assert EmailOfId(users, adminId) == Some(email);
      var found := ExistsByEmail(users, email);
      if found.Failure? {
        return Failure(found.error);
      }
      var id := nextId;
      categories := categories[id := NewCategory(payload)];
      nextId := nextId + 1;
      r := Success(id);
    }

    /** `updateCategory`: after the guards, only that category changes, to
        the patch applied to it. */
    method UpdateCategory(id: CategoryId, patch: CategoryPatch) returns (r: Result<Category>)
      requires Valid()
      modifies this
      ensures Valid() && nextId == old(nextId)
      ensures UpdateGuard(old(categories), id).Failure? ==>
                r == Failure(UpdateGuard(old(categories), id).error) && categories == old(categories)
      ensures UpdateGuard(old(categories), id).Success? ==>
                && r == Success(ApplyPatch(old(categories)[id], patch))
                && categories == old(categories)[id := r.value]
    {
      var existing := UpdateGuard(categories, id);
      if existing.Failure? {
        return Failure(existing.error);
      }
      var updated := ApplyPatch(existing.value, patch);
      categories := categories[id := updated];
      r := Success(updated);
    }

    /** `updateScenarioInCategory`: after the guards the scenario list is
        rewritten by `replace`, which stands for the array-field updater; no
        other field and no other category changes. */
    method UpdateScenarioInCategory(id: CategoryId, oldScenario: string, newScenario: string,
                                    replace: (seq<string>, string, string) -> seq<string>)
      returns (r: Result<Category>)
      requires Valid()
      modifies this
      ensures Valid() && nextId == old(nextId)
      ensures ScenarioGuard(old(categories), id).Failure? ==>
                r == Failure(ScenarioGuard(old(categories), id).error) && categories == old(categories)
      ensures ScenarioGuard(old(categories), id).Success? ==>
                var c := old(categories)[id];
                && r == Success(c.(scenario := replace(c.scenario, oldScenario, newScenario)))
                && categories == old(categories)[id := r.value]
    {
      var category := ScenarioGuard(categories, id);
      if category.Failure? {
        return Failure(category.error);
      }
      var c := category.value;
      var updated := c.(scenario := replace(c.scenario, oldScenario, newScenario));
      categories := categories[id := updated];
      r := Success(updated);
    }

    /** `deleteCategory`: after the guards the document is flagged deleted
        and kept. */
    method DeleteCategory(id: CategoryId) returns (r: Result<Category>)
      requires Valid()
      modifies this
      ensures Valid() && nextId == old(nextId)
      ensures DeleteGuard(old(categories), id).Failure? ==>
                r == Failure(DeleteGuard(old(categories), id).error) && categories == old(categories)
      ensures DeleteGuard(old(categories), id).Success? ==>
                && r == Success(old(categories)[id].(isDeleted := true))
                && categories == old(categories)[id := r.value]
    {
      var existing := DeleteGuard(categories, id);
      if existing.Failure? {
        return Failure(existing.error);
      }
      var deleted := existing.value.(isDeleted := true);
      categories := categories[id := deleted];
      r := Success(deleted);
    }
  }
}
