/** The server's store, changed in place (crates/codegen/astra-auth/src/store.rs). Saving to disk is left out. */
module Storage {
  import opened Wrappers
  import opened Routes
  import opened Billing

  class Store {
    var users: seq<User>
    var models: Table
    var ledger: seq<LedgerEntry>

    constructor ()
      ensures users == [] && models == [] && ledger == []
    {
      users, models, ledger := [], [], [];
    }

    function Accounts(): Accounts
      reads this
    {
      Billing.Accounts.Accounts(users, ledger)
    }

    /** `upsert_model_route`. */
    method UpsertModelRoute(route0: ModelRoute)
      modifies this`models
      ensures models == Upserted(old(models), route0)
      ensures Sound(old(models)) ==> Sound(models)
    {
      if Sound(models) {
        UpsertKeepsSound(models, route0);
      }
      var existingDefault := First(models, Default);
      var route := HandOver(route0);
      if route.isDefault || existingDefault.None? || First(models, Default).None? {
        ClearDefaults();
        route := route.(isDefault := true);
      }
      var existing := First(models, Named(route.id));
      if existing.Some? {
        models := models[existing.value := route];
      } else {
        models := models + [route];
      }
    }

    /** The default that gives up its place. */
    method HandOver(route0: ModelRoute) returns (route: ModelRoute)
      modifies this`models
      ensures (models, route) == HandedOver(old(models), route0)
      ensures First(models, Default).None? ==> First(old(models), Default).None?
    {
      route := route0;
      var existingDefault := First(models, Default);
      if existingDefault.Some? && models[existingDefault.value].id == route.id && !route.isDefault {
        var replacement := First(models, OtherEnabled(route.id));
        if replacement.Some? {
          var k := replacement.value;
          models := models[k := models[k].(isDefault := true)];
          assert models[existingDefault.value].isDefault;
        } else {
          route := route.(isDefault := true);
        }
      }
    }

    method ClearDefaults()
      modifies this`models
      ensures models == Cleared(old(models))
    {
      var k := 0;
      while k < |models|
        invariant k <= |models| == |old(models)|
        invariant forall i :: 0 <= i < k ==> models[i] == old(models)[i].(isDefault := false)
        invariant forall i :: k <= i < |models| ==> models[i] == old(models)[i]
      {
        models := models[k := models[k].(isDefault := false)];
        k := k + 1;
      }
    }

    /** `delete_model_route`. */
    method DeleteModelRoute(id: string) returns (deleted: bool)
      modifies this`models
      ensures models == Deleted(old(models), id)
      ensures deleted <==> exists k :: 0 <= k < |old(models)| && old(models)[k].id == id
      ensures Sound(old(models)) ==> Sound(models)
    {
      var wasDefault := exists k :: 0 <= k < |models| && models[k].id == id && models[k].isDefault;
      var before := |models|;
      models := Retain(models, id);
      WithoutShrinks(old(models), id);
      if Sound(old(models)) {
        DeleteKeepsSound(old(models), id);
      }
      if |models| == before {
        return false;
      }
      if wasDefault {
        var next := First(models, Enabled);
        if next.Some? {
          models := models[next.value := models[next.value].(isDefault := true)];
        }
      }
      return true;
    }

    /** `create_user`. */
    method CreateUser(id: string)
      modifies this`users
      ensures Accounts() == Registered(old(Accounts()), id)
      ensures Balanced(old(Accounts())) ==> Balanced(Accounts())
    {
      if Balanced(Accounts()) {
        RegisterKeepsBalanced(Accounts(), id);
      }
      users := users + [User(id, 0)];
    }

    /** `adjust_balance`. */
    method AdjustBalance(entry: LedgerEntry) returns (found: bool)
      modifies this`users, this`ledger
      ensures Accounts() == Adjusted(old(Accounts()), entry)
      ensures found <==> exists k :: 0 <= k < |old(users)| && old(users)[k].id == entry.userId
      ensures Balanced(old(Accounts())) ==> Balanced(Accounts())
    {
      if Balanced(Accounts()) {
        AdjustKeepsBalanced(Accounts(), entry);
      }
      var user := FindUser(users, entry.userId);
      if user.None? {
        return false;
      }
      var k := user.value;
      users := users[k := users[k].(balance := SaturatingAdd(users[k].balance, entry.delta))];
      ledger := ledger + [entry];
      return true;
    }

    /** `record_usage`. */
    method RecordUsage(userId: string, route: ModelRoute, usage: TokenUsage)
      modifies this`users, this`ledger
      ensures Accounts() == Recorded(old(Accounts()), userId, route, usage)
      ensures Balanced(old(Accounts())) ==> Balanced(Accounts())
    {
      if usage.input != 0 || usage.output != 0 {
        var cost := UsageCost(route, usage);
        var _ := AdjustBalance(LedgerEntry(userId, -cost, Some(route.displayName), usage));
      }
    }
  }

  /** `Vec::retain`, on the routes of other ids. */
  method Retain(models: Table, id: string) returns (kept: Table)
    ensures kept == Without(models, id)
  {
    kept := [];
    var k := 0;
    while k < |models|
      invariant k <= |models| && kept + Without(models[k..], id) == Without(models, id)
    {
      assert models[k..][0] == models[k] && models[k..][1..] == models[k + 1..];
      if models[k].id != id {
        kept := kept + [models[k]];
      }
      k := k + 1;
    }
  }

  lemma {:induction false} WithoutShrinks(models: Table, id: string)
    ensures |Without(models, id)| <= |models|
    ensures |Without(models, id)| == |models| ==> Without(models, id) == models
    ensures |Without(models, id)| == |models| <==> forall k :: 0 <= k < |models| ==> models[k].id != id
  {
    if models != [] {
      WithoutShrinks(models[1..], id);
      assert models == [models[0]] + models[1..];
      assert forall k :: 0 < k < |models| ==> models[k] == models[1..][k - 1];
      assert forall k :: 0 <= k < |models| - 1 ==> models[1..][k] == models[k + 1];
    }
  }
}
