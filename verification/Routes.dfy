/** The table of model routes, and which route a request is given
(crates/codegen/astra-auth/src/store.rs, `upsert_model_route` and `delete_model_route`;
crates/codegen/astra-auth/src/server.rs, `choose_model_route_from`). */
module Routes {
  import opened Wrappers
  import T = Text

  /** Prices are micro-USD per million tokens. */
  datatype ModelRoute = ModelRoute(
    id: string, displayName: string, upstreamModel: string,
    inputPrice: u64, outputPrice: u64,
    enabled: bool, isDefault: bool)

  type Table = seq<ModelRoute>

  /** `Iterator::position`. */
  function First(models: Table, p: ModelRoute -> bool): (r: Option<nat>)
    ensures r.Some? ==> r.value < |models| && p(models[r.value]) && forall k :: 0 <= k < r.value ==> !p(models[k])
    ensures r.None? ==> forall k :: 0 <= k < |models| ==> !p(models[k])
  {
    if models == [] then None
    else if p(models[0]) then Some(0)
    else
      match First(models[1..], p)
      case None => None
      case Some(k) =>
        assert forall i :: 0 < i < |models| ==> models[i] == models[1..][i - 1];
        Some(k + 1)
  }

  /** `Iterator::find`. */
  function Find(models: Table, p: ModelRoute -> bool): Option<ModelRoute> {
    match First(models, p) case Some(k) => Some(models[k]) case None => None
  }

  predicate Enabled(r: ModelRoute) { r.enabled }

  predicate Default(r: ModelRoute) { r.isDefault }

  function Named(id: string): ModelRoute -> bool { (r: ModelRoute) => r.id == id }

  function OtherEnabled(id: string): ModelRoute -> bool { (r: ModelRoute) => r.id != id && r.enabled }

  // ---------- changing the table ----------

  function Appointed(models: Table, k: nat): Table
    requires k < |models|
  {
    models[k := models[k].(isDefault := true)]
  }

  function Cleared(models: Table): (r: Table)
    ensures |r| == |models|
  {
    seq(|models|, (i: int) requires 0 <= i < |models| => models[i].(isDefault := false))
  }

  function Put(models: Table, route: ModelRoute): Table {
    match First(models, Named(route.id))
    case Some(k) => models[k := route]
    case None => models + [route]
  }

  /** A default route that gives up its place hands it to the first other enabled route, or keeps it. */
  function HandedOver(models: Table, route: ModelRoute): (Table, ModelRoute) {
    var was := First(models, Default);
    if was.Some? && models[was.value].id == route.id && !route.isDefault then
      match First(models, OtherEnabled(route.id))
      case Some(k) => (Appointed(models, k), route)
      case None => (models, route.(isDefault := true))
    else (models, route)
  }

  /** The table `upsert_model_route` leaves. */
  function Upserted(models: Table, route: ModelRoute): Table {
    var (rest, own) := HandedOver(models, route);
    if own.isDefault || First(models, Default).None?
    then Put(Cleared(rest), own.(isDefault := true))
    else Put(rest, own)
  }

  function Without(models: Table, id: string): Table {
    if models == [] then []
    else (if models[0].id == id then [] else [models[0]]) + Without(models[1..], id)
  }

  /** The table `delete_model_route` leaves. */
  function Deleted(models: Table, id: string): Table {
    var rest := Without(models, id);
    var wasDefault := exists k :: 0 <= k < |models| && models[k].id == id && models[k].isDefault;
    if wasDefault && First(rest, Enabled).Some? then Appointed(rest, First(rest, Enabled).value) else rest
  }

  // ---------- what every change keeps ----------

  predicate UniqueIds(models: Table) {
    forall i, j :: 0 <= i < j < |models| ==> models[i].id != models[j].id
  }

  predicate OneDefault(models: Table) {
    forall i, j :: 0 <= i < j < |models| ==> !models[i].isDefault || !models[j].isDefault
  }

  /** Ids are unique, at most one route is the default, and if none is then none is enabled. */
  predicate Sound(models: Table) {
    && UniqueIds(models) && OneDefault(models)
    && (First(models, Default).None? ==> First(models, Enabled).None?)
  }

  /** Where a route of this id is, or goes. */
  function Place(models: Table, id: string): (p: nat)
    ensures p <= |models| && (p < |models| ==> models[p].id == id)
    ensures forall k :: 0 <= k < p ==> models[k].id != id
  {
    match First(models, Named(id)) case Some(k) => k case None => |models|
  }

  /** Which route is the default once `route` has been put in its place. */
  function DefaultAfter(models: Table, route: ModelRoute): nat {
    var own, was := Place(models, route.id), First(models, Default);
    if route.isDefault || was.None? then own
    else if was.value != own then was.value
    else match First(models, OtherEnabled(route.id)) case Some(k) => k case None => own
  }

  lemma {:induction false} PutPlaces(models: Table, route: ModelRoute)
    ensures var p := Place(models, route.id);
            |Put(models, route)| == (if p == |models| then p + 1 else |models|)
            && forall k :: 0 <= k < |Put(models, route)| ==>
                             Put(models, route)[k] == if k == p then route else models[k]
  {}

  /** Marking routes as default moves none of them. */
  lemma {:induction false} SamePlace(a: Table, b: Table, id: string)
    requires |a| == |b| && forall k :: 0 <= k < |a| ==> a[k].id == b[k].id
    ensures Place(a, id) == Place(b, id)
  {
    var p, q := Place(a, id), Place(b, id);
    assert p < |a| ==> b[p].id == id;
    assert q < |b| ==> a[q].id == id;
  }

  /** An upsert leaves exactly one default, at `DefaultAfter`, and changes nothing else but the
  route in its place. */
  lemma {:induction false} UpsertAt(models: Table, route: ModelRoute)
    requires Sound(models)
    ensures var p, r := Place(models, route.id), Upserted(models, route);
            && |r| == (if p == |models| then p + 1 else |models|)
            && forall k :: 0 <= k < |r| ==>
                             var own := if k == p then route else models[k];
                             r[k] == own.(isDefault := k == DefaultAfter(models, route))
  {
    var (rest, own) := HandedOver(models, route);
    if own.isDefault || First(models, Default).None? {
      SamePlace(models, Cleared(rest), route.id);
      PutPlaces(Cleared(rest), own.(isDefault := true));
    } else {
      SamePlace(models, rest, route.id);
      PutPlaces(rest, own);
    }
  }

  lemma {:induction false} UpsertKeepsSound(models: Table, route: ModelRoute)
    requires Sound(models)
    ensures Sound(Upserted(models, route))
  {
    var p, d := Place(models, route.id), DefaultAfter(models, route);
    UpsertAt(models, route);
    var r := Upserted(models, route);
    assert d < |r| && r[d].isDefault;
    forall i, j | 0 <= i < j < |r| ensures r[i].id != r[j].id {
      assert i != p && j != p ==> models[i].id != models[j].id;
      assert j != p && j < |models| && p < |models| ==> models[j].id != models[p].id;
    }
  }

  lemma {:induction false} WithoutMembers(models: Table, id: string)
    ensures forall r :: r in Without(models, id) <==> r in models && r.id != id
  {
    if models != [] { WithoutMembers(models[1..], id); }
  }

  lemma {:induction false} WithoutKeeps(models: Table, id: string)
    ensures UniqueIds(models) ==> UniqueIds(Without(models, id))
    ensures OneDefault(models) ==> OneDefault(Without(models, id))
  {
    if models != [] {
      WithoutKeeps(models[1..], id);
      WithoutMembers(models[1..], id);
      HeadStays(models, Without(models[1..], id));
    }
  }

  /** A sound head stays sound in front of routes from its tail. */
  lemma {:induction false} HeadStays(models: Table, rest: Table)
    requires models != [] && forall r :: r in rest ==> r in models[1..]
    ensures UniqueIds(models) && UniqueIds(rest) ==> UniqueIds([models[0]] + rest)
    ensures OneDefault(models) && OneDefault(rest) ==> OneDefault([models[0]] + rest)
    ensures UniqueIds(models) ==> UniqueIds(models[1..])
    ensures OneDefault(models) ==> OneDefault(models[1..])
  {
    forall j | 0 <= j < |rest| ensures exists i :: 0 < i < |models| && models[i] == rest[j] {
      assert rest[j] in models[1..];
    }
  }

  /** What is left after deleting anything but the default. */
  lemma {:induction false} DeleteOther(models: Table, id: string)
    requires Sound(models) && forall k :: 0 <= k < |models| && models[k].id == id ==> !models[k].isDefault
    ensures Sound(Without(models, id))
  {
    var rest := Without(models, id);
    WithoutKeeps(models, id);
    WithoutMembers(models, id);
    forall k | 0 <= k < |models| && models[k].isDefault ensures models[k] in rest {}
    forall i | 0 <= i < |rest| ensures rest[i] in models {}
  }

  lemma {:induction false} DeleteDefault(models: Table, id: string, k: nat)
    requires Sound(models) && k < |models| && models[k].id == id && models[k].isDefault
    ensures var rest := Without(models, id);
            UniqueIds(rest) && forall i :: 0 <= i < |rest| ==> !rest[i].isDefault
  {
    var rest := Without(models, id);
    WithoutKeeps(models, id);
    WithoutMembers(models, id);
    forall i | 0 <= i < |rest| ensures !rest[i].isDefault {
      assert rest[i] in models;
    }
  }

  lemma {:induction false} AppointKeepsSound(rest: Table)
    requires UniqueIds(rest) && forall i :: 0 <= i < |rest| ==> !rest[i].isDefault
    ensures match First(rest, Enabled)
            case Some(k) => Sound(Appointed(rest, k))
            case None => Sound(rest)
  {
    if First(rest, Enabled).Some? {
      var k := First(rest, Enabled).value;
      assert Appointed(rest, k)[k].isDefault;
    }
  }

  lemma {:induction false} DeleteKeepsSound(models: Table, id: string)
    requires Sound(models)
    ensures Sound(Deleted(models, id))
  {
    if k :| 0 <= k < |models| && models[k].id == id && models[k].isDefault {
      DeleteDefault(models, id, k);
      AppointKeepsSound(Without(models, id));
    } else {
      DeleteOther(models, id);
    }
  }

  datatype Change = Upsert(route: ModelRoute) | Delete(id: string)

  function Changed(models: Table, c: Change): Table {
    match c
    case Upsert(route) => Upserted(models, route)
    case Delete(id) => Deleted(models, id)
  }

  function AfterRun(changes: seq<Change>): Table {
    if changes == [] then [] else Changed(AfterRun(changes[..|changes| - 1]), changes[|changes| - 1])
  }

  /** After every run of upserts and deletes. */
  lemma {:induction false} RunKeepsSound(changes: seq<Change>)
    ensures Sound(AfterRun(changes))
  {
    if changes != [] {
      var before := AfterRun(changes[..|changes| - 1]);
      RunKeepsSound(changes[..|changes| - 1]);
      match changes[|changes| - 1]
      case Upsert(route) => UpsertKeepsSound(before, route);
      case Delete(id) => DeleteKeepsSound(before, id);
    }
  }

  // ---------- choosing a route ----------

  datatype Choice = Chosen(route: ModelRoute) | NoEnabledRoutes | NoDefaultRoute | UnknownModel

  function LowerChar(c: char): char {
    if 'A' <= c <= 'Z' then c + 32 as char else c
  }

  function Lower(s: string): (r: string)
    ensures |r| == |s|
  {
    seq(|s|, (i: int) requires 0 <= i < |s| => LowerChar(s[i]))
  }

  /** `eq_ignore_ascii_case` on the three names of a route. */
  predicate Answers(r: ModelRoute, name: string) {
    Lower(r.id) == Lower(name) || Lower(r.displayName) == Lower(name) || Lower(r.upstreamModel) == Lower(name)
  }

  function Called(name: string): ModelRoute -> bool { (r: ModelRoute) => Answers(r, name) }

  function OnlyEnabled(models: Table): Table {
    if models == [] then []
    else (if models[0].enabled then [models[0]] else []) + OnlyEnabled(models[1..])
  }

  /** `choose_model_route_from`. */
  function Choose(models: Table, requested: string): Choice {
    ChooseEnabled(OnlyEnabled(models), T.Trim(requested))
  }

  function ChooseEnabled(enabled: Table, name: string): Choice {
    if enabled == [] then NoEnabledRoutes
    else if name != [] then
      match Find(enabled, Called(name))
      case Some(route) => Chosen(route)
      case None => UnknownModel
    else
      match Find(enabled, Default)
      case Some(route) => Chosen(route)
      case None => if |enabled| == 1 then Chosen(enabled[0]) else NoDefaultRoute
  }

  function Both(p: ModelRoute -> bool): ModelRoute -> bool { (r: ModelRoute) => r.enabled && p(r) }

  lemma {:induction false} FindStep(models: Table, p: ModelRoute -> bool)
    requires models != []
    ensures Find(models, p) == if p(models[0]) then Some(models[0]) else Find(models[1..], p)
  {}

  lemma {:induction false} FindEnabled(models: Table, p: ModelRoute -> bool)
    ensures Find(OnlyEnabled(models), p) == Find(models, Both(p))
  {
    if models != [] {
      var rest := OnlyEnabled(models[1..]);
      FindEnabled(models[1..], p);
      FindStep(models, Both(p));
      if models[0].enabled {
        FindStep([models[0]] + rest, p);
        assert ([models[0]] + rest)[1..] == rest;
      } else {
        assert [] + rest == rest;
      }
    }
  }

  lemma {:induction false} EnabledCount(models: Table)
    ensures |OnlyEnabled(models)| >= 1 <==> exists i :: 0 <= i < |models| && models[i].enabled
    ensures |OnlyEnabled(models)| >= 2 <==> exists i, j :: 0 <= i < j < |models| && models[i].enabled
                                                           && models[j].enabled
  {
    if models != [] {
      var tail := models[1..];
      EnabledCount(tail);
      assert forall i :: 0 < i < |models| ==> models[i] == tail[i - 1];
      assert forall i :: 0 <= i < |tail| ==> tail[i] == models[i + 1];
    }
  }

  /** A named request gets the first enabled route that answers to the name, in any letter case,
  and never falls back on the default. */
  lemma {:induction false} NamedRequest(models: Table, requested: string)
    requires T.Trim(requested) != []
    ensures var c := Choose(models, requested);
            match First(models, Both(Called(T.Trim(requested))))
            case Some(k) => c == Chosen(models[k])
            case None => c == if First(models, Enabled).Some? then UnknownModel else NoEnabledRoutes
  {
    FindEnabled(models, Called(T.Trim(requested)));
    EnabledCount(models);
  }

  /** The default route, when it is enabled, is the first enabled default. */
  lemma {:induction false} EnabledDefault(models: Table)
    requires Sound(models)
    ensures var d := First(models, Default);
            Find(OnlyEnabled(models), Default) ==
            if d.Some? && models[d.value].enabled then Some(models[d.value]) else None
  {
    FindEnabled(models, Default);
    var both := First(models, Both(Default));
    assert both.Some? ==> both.value == First(models, Default).value;
  }

  /** In a sound table a request for no model fails with `NoDefaultRoute` exactly when the
  default is disabled and two routes are enabled. */
  lemma {:induction false} BlankRequestFails(models: Table, requested: string)
    requires Sound(models) && T.Trim(requested) == []
    ensures var d := First(models, Default);
            Choose(models, requested) == NoDefaultRoute <==>
            d.Some? && !models[d.value].enabled
            && exists i, j :: 0 <= i < j < |models| && models[i].enabled && models[j].enabled
  {
    EnabledDefault(models);
    EnabledCount(models);
    BlankOutcome(OnlyEnabled(models), T.Trim(requested));
  }

  /** Otherwise it gets the default, or the only enabled route when the default is disabled. */
  lemma {:induction false} BlankRequestChooses(models: Table, requested: string)
    requires Sound(models) && T.Trim(requested) == []
    ensures var c, d := Choose(models, requested), First(models, Default);
            && (d.Some? && models[d.value].enabled ==> c == Chosen(models[d.value]))
            && (c == NoEnabledRoutes <==> forall k :: 0 <= k < |models| ==> !models[k].enabled)
    ensures forall i :: 0 <= i < |models| && IsOnlyEnabled(models, i) ==> Choose(models, requested) == Chosen(models[i])
  {
    EnabledDefault(models);
    EnabledCount(models);
    BlankOutcome(OnlyEnabled(models), T.Trim(requested));
    forall i | 0 <= i < |models| && IsOnlyEnabled(models, i)
      ensures Choose(models, requested) == Chosen(models[i])
    {
      OneEnabled(models, i);
    }
  }

  predicate IsOnlyEnabled(models: Table, i: nat)
    requires i < |models|
  {
    models[i].enabled && forall j :: 0 <= j < |models| && j != i ==> !models[j].enabled
  }

  lemma {:induction false} OneEnabled(models: Table, i: nat)
    requires i < |models| && IsOnlyEnabled(models, i)
    ensures OnlyEnabled(models) == [models[i]]
  {
    assert forall j :: 0 < j < |models| ==> models[j] == models[1..][j - 1];
    if i == 0 {
      NoneEnabled(models[1..]);
    } else {
      OneEnabled(models[1..], i - 1);
    }
  }

  lemma {:induction false} NoneEnabled(models: Table)
    requires forall j :: 0 <= j < |models| ==> !models[j].enabled
    ensures OnlyEnabled(models) == []
  {
    if models != [] { NoneEnabled(models[1..]); }
  }

  lemma {:induction false} BlankOutcome(enabled: Table, name: string)
    requires name == []
    ensures var c, d := ChooseEnabled(enabled, name), Find(enabled, Default);
            && (c == NoEnabledRoutes <==> |enabled| == 0)
            && (d.Some? ==> c == Chosen(d.value))
            && (c == NoDefaultRoute <==> d.None? && |enabled| >= 2)
  {}

  lemma {:induction false} ChosenIsEnabled(models: Table, requested: string)
    ensures var c := Choose(models, requested);
            c.Chosen? ==> c.route in models && c.route.enabled
  {
    EnabledAreIn(models);
    ChosenIsListed(OnlyEnabled(models), T.Trim(requested));
  }

  lemma {:induction false} ChosenIsListed(enabled: Table, name: string)
    ensures var c := ChooseEnabled(enabled, name);
            c.Chosen? ==> c.route in enabled
  {}

  lemma {:induction false} EnabledAreIn(models: Table)
    ensures forall r :: r in OnlyEnabled(models) ==> r in models && r.enabled
  {
    if models != [] { EnabledAreIn(models[1..]); }
  }

  /** When a request fails with `NoDefaultRoute` after any run of upserts and deletes. */
  lemma {:induction false} NoDefaultRouteExactly(changes: seq<Change>, requested: string)
    ensures var models := AfterRun(changes);
            Choose(models, requested) == NoDefaultRoute <==>
            T.Trim(requested) == []
            && (exists d :: 0 <= d < |models| && models[d].isDefault && !models[d].enabled)
            && exists i, j :: 0 <= i < j < |models| && models[i].enabled && models[j].enabled
  {
    var models := AfterRun(changes);
    RunKeepsSound(changes);
    if T.Trim(requested) == [] {
      BlankRequestFails(models, requested);
      if d :| 0 <= d < |models| && models[d].isDefault && !models[d].enabled {
        assert First(models, Default).Some? && First(models, Default).value == d;
      }
    }
  }
}
