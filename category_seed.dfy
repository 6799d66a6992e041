/** The default guidance categories: seeded once, at start-up, into an
    empty table, each through `createCategory` under the super admin. The
    concurrent inserts of the service are taken in list order; their order
    does not change the resulting documents. */
module CategorySeed {
  import opened Base
  import opened Users
  import opened CategoryService
  import AuthService

  const DEFAULT_NAMES: seq<string> :=
    ["Workplace Dynamics", "Unfair Treatment", "Inappropriate Behavior", "Burnout & Workload", "Career Concerns"]

  /** The five seeded payloads, each owned by `adminId`, in the listed
      order, each with three scenarios. */
  function DefaultCategories(adminId: UserId): (r: seq<CategoryPayload>)
    ensures |r| == |DEFAULT_NAMES|
    ensures forall j :: 0 <= j < |r| ==> r[j].name == DEFAULT_NAMES[j] && r[j].admin == adminId && |r[j].scenario| == 3
  {
    [ CategoryPayload("Workplace Dynamics", "workplace_dynamics.png", adminId,
        ["I feel I’m being micromanaged",
         "I feel I’m being treated differently than others",
         "My ideas are being ignored"]),
      CategoryPayload("Unfair Treatment", "unfair_treatment.png", adminId,
        ["I was passed over for a promotion",
         "I feel I’m being treated differently than others",
         "I think I’m being retaliated against"]),
      CategoryPayload("Inappropriate Behavior", "inappropriate_behavior.png", adminId,
        ["Someone made an offensive comment to me",
         "I’m uncomfortable with someone’s behavior",
         "My boundaries are being violated"]),
      CategoryPayload("Burnout & Workload", "burnout_workload.png", adminId,
        ["My workload is unmanageable",
         "I’m constantly working overtime",
         "I’m feeling exhausted and unmotivated"]),
      CategoryPayload("Career Concerns", "career_concerns.png", adminId,
        ["I need clearer performance feedback",
         "I was told that I am underperforming",
         "I want to change roles"]) ]
  }

  /** The table after inserting `items` one after another under the ids
      `next`, `next + 1`, ... */
  function InsertAll(cats: Table, next: CategoryId, items: seq<CategoryPayload>): (r: Table)
    ensures cats.Keys <= r.Keys
    decreases |items|
  {
    if items == [] then cats
    else InsertAll(cats, next, items[..|items| - 1])[next + |items| - 1 := NewCategory(items[|items| - 1])]
  }

  /** Sequential insertion under fresh ids keeps every old document, adds
      exactly one new document per item, and stores each item as created. */
  lemma {:induction false} InsertAllSpec(cats: Table, next: CategoryId, items: seq<CategoryPayload>)
    requires forall id :: id in cats ==> id < next
    ensures forall id :: id in InsertAll(cats, next, items) <==> id in cats || next <= id < next + |items|
    ensures forall id :: id in cats ==> InsertAll(cats, next, items)[id] == cats[id]
    ensures forall j :: 0 <= j < |items| ==> InsertAll(cats, next, items)[next + j] == NewCategory(items[j])
    decreases |items|
  {
    if items != [] {
      var n := |items| - 1;
      var prefix := items[..n];
      InsertAllSpec(cats, next, prefix);
      var before := InsertAll(cats, next, prefix);
      var after := InsertAll(cats, next, items);
      assert after == before[next + n := NewCategory(items[n])];
      forall j | 0 <= j < |items|
        ensures next + j in after && after[next + j] == NewCategory(items[j])
      {
        if j < n {
          assert prefix[j] == items[j];
          assert next + j in before && before[next + j] == NewCategory(prefix[j]);
        }
      }
    }
  }

  /** Seeding an empty table yields exactly the five default categories
      under five fresh ids: the listed names, each owned by the super admin,
      each with three scenarios, none deleted. */
  lemma {:induction false} SeededTable(next: CategoryId, adminId: UserId)
    ensures var t := InsertAll(map[], next, DefaultCategories(adminId));
            && t.Keys == {next, next + 1, next + 2, next + 3, next + 4}
            && (forall j :: 0 <= j < 5 ==> t[next + j].name == DEFAULT_NAMES[j])
            && (forall id :: id in t ==> t[id].admin == adminId && |t[id].scenario| == 3 && !t[id].isDeleted)
  {
    var items := DefaultCategories(adminId);
    InsertAllSpec(map[], next, items);
    var t := InsertAll(map[], next, items);
    forall j | 0 <= j < 5
      ensures t[next + j].name == DEFAULT_NAMES[j]
    {
      assert items[j].name == DEFAULT_NAMES[j];
    }
    forall id | id in t
      ensures t[id].admin == adminId && |t[id].scenario| == 3 && !t[id].isDeleted
    {
      assert t[next + (id - next)] == NewCategory(items[id - next]);
    }
  }

  /** `defaultGuidanceCategory`: nothing happens when any category exists,
      deleted or not; otherwise the five defaults are created through
      `createCategory` under `superAdminId`, so they are all inserted when
      the super admin passes the lookup by id and none is otherwise. */
  method DefaultGuidanceCategory(table: CategoryTable, directory: AuthService.UserStore, superAdminId: UserId)
    returns (r: Result<()>)
    requires table.Valid() && directory.Valid()
    modifies table
    ensures table.Valid()
    ensures old(table.categories) != map[] ==>
              r == Success(()) && table.categories == old(table.categories) && table.nextId == old(table.nextId)
    ensures old(table.categories) == map[] && ExistsById(directory.users, superAdminId).Failure? ==>
              && r == Failure(ExistsById(directory.users, superAdminId).error)
              && table.categories == map[] && table.nextId == old(table.nextId)
    ensures old(table.categories) == map[] && ExistsById(directory.users, superAdminId).Success? ==>
              && r == Success(())
              && table.categories == InsertAll(map[], old(table.nextId), DefaultCategories(superAdminId))
              && table.nextId == old(table.nextId) + 5
  {
    if table.categories != map[] {
      return Success(());
    }
    var defaults := DefaultCategories(superAdminId);
    var i := 0;
    while i < |defaults|
      invariant 0 <= i <= |defaults|
      invariant table.Valid()
      invariant table.nextId == old(table.nextId) + i
      invariant table.categories == InsertAll(map[], old(table.nextId), defaults[..i])
      invariant i > 0 ==> ExistsById(directory.users, superAdminId).Success?
    {
      var created := table.CreateCategory(directory, superAdminId, defaults[i]);
      if created.Failure? {
        return Failure(created.error);
      }
      assert defaults[..i + 1][..i] == defaults[..i];
      i := i + 1;
    }
    assert defaults[..i] == defaults;
    r := Success(());
  }
}
