/** What deleting a route leaves of the table
(crates/codegen/astra-auth/src/store.rs, `delete_model_route`). */
module RouteDeletion {
  import opened Wrappers
  import opened Routes
  import opened Positions

  function OtherThan(models: Table, id: string): nat -> bool {
    (k: nat) => k < |models| && models[k].id != id
  }

  /** The first enabled route of another id. */
  predicate IsHeir(models: Table, id: string, k: int) {
    && 0 <= k < |models| && models[k].id != id && models[k].enabled
    && forall j :: 0 <= j < k && models[j].id != id ==> !models[j].enabled
  }

  predicate HadDefault(models: Table, id: string) {
    exists k :: 0 <= k < |models| && models[k].id == id && models[k].isDefault
  }

  predicate RoutesAt(models: Table, at: seq<nat>, out: Table) {
    |out| == |at| && forall j :: 0 <= j < |at| ==> at[j] < |models| && out[j] == models[at[j]]
  }

  lemma {:induction false} WithoutAt(models: Table, id: string) returns (at: seq<nat>)
    ensures Lists(at, 0, |models|, OtherThan(models, id)) && RoutesAt(models, at, Without(models, id))
  {
    at := [];
    if models != [] {
      var rest := WithoutAt(models[1..], id);
      ListsAhead(rest, |models| - 1, OtherThan(models[1..], id), OtherThan(models, id));
      at := Ahead(models[0].id != id, rest);
    }
  }

  predicate IsFirstEnabled(models: Table, j: int) {
    0 <= j < |models| && models[j].enabled && forall i :: 0 <= i < j ==> !models[i].enabled
  }

  lemma {:induction false} FirstEnabled(models: Table, j: nat)
    ensures First(models, Enabled) == Some(j) <==> IsFirstEnabled(models, j)
  {}

  lemma {:induction false} HeirAt(models: Table, id: string, at: seq<nat>, rest: Table, j: nat)
    requires Lists(at, 0, |models|, OtherThan(models, id)) && RoutesAt(models, at, rest) && j < |at|
    ensures IsHeir(models, id, at[j]) ==> IsFirstEnabled(rest, j)
  {
    assert at[j] in at;
    forall i | 0 <= i < j
      ensures at[i] in at && at[i] < at[j] && rest[i] == models[at[i]]
    {}
  }

  lemma {:induction false} FirstIsHeir(models: Table, id: string, at: seq<nat>, rest: Table, j: nat)
    requires Lists(at, 0, |models|, OtherThan(models, id)) && RoutesAt(models, at, rest) && j < |at|
    ensures IsFirstEnabled(rest, j) ==> IsHeir(models, id, at[j])
  {
    assert at[j] in at;
    if IsFirstEnabled(rest, j) {
      forall i | 0 <= i < at[j] && models[i].id != id
        ensures !models[i].enabled
      {
        assert OtherThan(models, id)(i);
        var k :| 0 <= k < |at| && at[k] == i;
        assert k < j && rest[k] == models[i];
      }
    }
  }

  /** Deleting leaves the routes of other ids, in order, as they were, but that the first enabled one takes over if
  the default went. */
  lemma {:induction false} DeleteLeaves(models: Table, id: string) returns (at: seq<nat>)
    ensures Lists(at, 0, |models|, OtherThan(models, id))
    ensures var r := Deleted(models, id);
            && |r| == |at|
            && forall j :: 0 <= j < |at| ==>
                             && at[j] < |models|
                             && var was := models[at[j]];
                             r[j] == if HadDefault(models, id) && IsHeir(models, id, at[j])
                             then was.(isDefault := true) else was
  {
    at := WithoutAt(models, id);
    forall j | 0 <= j < |at|
      ensures First(Without(models, id), Enabled) == Some(j) <==> IsHeir(models, id, at[j])
    {
      FirstEnabled(Without(models, id), j);
      HeirAt(models, id, at, Without(models, id), j);
      FirstIsHeir(models, id, at, Without(models, id), j);
    }
  }
}
