/** What an adjustment moves, and what the ledger records over a run
(crates/codegen/astra-auth/src/store.rs, `adjust_balance`; crates/codegen/astra-auth/src/server.rs,
`record_usage`). */
module BillingLedger {
  import opened Wrappers
  import opened Routes
  import opened Billing
  import opened Positions

  predicate IsFirstUser(users: seq<User>, id: string, k: int) {
    0 <= k < |users| && users[k].id == id && forall j :: 0 <= j < k ==> users[j].id != id
  }

  predicate IsUser(users: seq<User>, id: string) {
    exists k :: 0 <= k < |users| && users[k].id == id
  }

  /** The nearest 64-bit amount. */
  predicate IsNearest(x: int, n: i64) {
    if x > 0x7FFF_FFFF_FFFF_FFFF then n == 0x7FFF_FFFF_FFFF_FFFF
    else if x < -0x8000_0000_0000_0000 then n == -0x8000_0000_0000_0000
    else n as int == x
  }

  /** The first user with the entry's id has moved by the entry's amount, no other user has changed, and the
  ledger has the entry and no other more. */
  predicate Moved(a: Accounts, r: Accounts, entry: LedgerEntry) {
    && r.ledger == a.ledger + [entry] && |r.users| == |a.users|
    && forall k :: 0 <= k < |a.users| ==>
                     if IsFirstUser(a.users, entry.userId, k)
                     then r.users[k].id == a.users[k].id
                          && IsNearest(a.users[k].balance as int + entry.delta as int, r.users[k].balance)
                     else r.users[k] == a.users[k]
  }

  lemma {:induction false} AdjustmentMoves(a: Accounts, entry: LedgerEntry)
    ensures if IsUser(a.users, entry.userId) then Moved(a, Adjusted(a, entry), entry) else Adjusted(a, entry) == a
  {
    var found := FindUser(a.users, entry.userId);
    if found.Some? {
      assert forall k :: IsFirstUser(a.users, entry.userId, k) ==> k == found.value;
    }
  }

  /** The least whole numbers of micro-USD that cover each side, together, or the largest 64-bit amount. */
  ghost predicate IsBill(route: ModelRoute, usage: TokenUsage, cost: int) {
    exists n, m :: Covers(route, usage, n, m) && cost == if n + m > 0x7FFF_FFFF_FFFF_FFFF then 0x7FFF_FFFF_FFFF_FFFF
                                                         else n + m
  }

  predicate Covers(route: ModelRoute, usage: TokenUsage, input: int, output: int) {
    && Ceiling(route.inputPrice as int * usage.input as int, input)
    && Ceiling(route.outputPrice as int * usage.output as int, output)
  }

  /** The entry for a response: its counts, the route's name, and the bill taken off. */
  ghost predicate Bills(entry: LedgerEntry, userId: string, route: ModelRoute, usage: TokenUsage) {
    && entry.userId == userId && entry.model == Some(route.displayName) && entry.usage == usage
    && IsBill(route, usage, -(entry.delta as int))
  }

  predicate HasTokens(usage: TokenUsage) {
    usage.input > 0 || usage.output > 0
  }

  lemma {:induction false} EntryBills(userId: string, route: ModelRoute, usage: TokenUsage)
    ensures Bills(UsageEntry(userId, route, usage), userId, route, usage)
  {
    var n, m := SideCost(route.inputPrice, usage.input), SideCost(route.outputPrice, usage.output);
    SideCostIsCeiling(route.inputPrice, usage.input);
    SideCostIsCeiling(route.outputPrice, usage.output);
    assert Covers(route, usage, n, m);
    CostIsExact(route, usage, n, m);
  }

  /** A response with tokens bills its user, if there is one; any other changes nothing. */
  lemma {:induction false} RecordingMoves(a: Accounts, userId: string, route: ModelRoute, usage: TokenUsage)
    returns (entry: LedgerEntry)
    ensures Bills(entry, userId, route, usage)
    ensures if HasTokens(usage) && IsUser(a.users, userId) then Moved(a, Recorded(a, userId, route, usage), entry)
            else Recorded(a, userId, route, usage) == a
  {
    entry := UsageEntry(userId, route, usage);
    EntryBills(userId, route, usage);
    AdjustmentMoves(a, entry);
  }

  // ---------- over a run ----------

  predicate RegisteredIn(steps: seq<Step>, id: string) {
    exists k :: 0 <= k < |steps| && steps[k] == Register(id)
  }

  lemma {:induction false} UsersAre(steps: seq<Step>, id: string)
    ensures IsUser(AccountsAfter(steps).users, id) <==> RegisteredIn(steps, id)
  {
    if steps != [] {
      var n := |steps| - 1;
      var front, before, after := steps[..n], AccountsAfter(steps[..n]).users, AccountsAfter(steps).users;
      UsersAre(front, id);
      UsersStep(AccountsAfter(front), steps[n], id);
      assert RegisteredIn(front, id) ==> RegisteredIn(steps, id);
      assert steps[n] == Register(id) ==> RegisteredIn(steps, id);
      if RegisteredIn(steps, id) && steps[n] != Register(id) {
        var k :| 0 <= k < |steps| && steps[k] == Register(id);
        assert front[k] == Register(id);
      }
    }
  }

  lemma {:induction false} UsersStep(a: Accounts, s: Step, id: string)
    ensures IsUser(Stepped(a, s).users, id) <==> IsUser(a.users, id) || s == Register(id)
  {
    var r := Stepped(a, s);
    match s
    case Register(other) =>
      assert r.users[|a.users|].id == other;
      assert forall k :: 0 <= k < |a.users| ==> r.users[k] == a.users[k];
    case Adjust(entry) => SameIds(a, entry, id);
    case Record(userId, route, usage) => SameIds(a, UsageEntry(userId, route, usage), id);
  }

  lemma {:induction false} SameIds(a: Accounts, entry: LedgerEntry, id: string)
    ensures IsUser(Adjusted(a, entry).users, id) <==> IsUser(a.users, id)
  {
    var r := Adjusted(a, entry);
    assert |r.users| == |a.users| && forall k :: 0 <= k < |a.users| ==> r.users[k].id == a.users[k].id;
  }

  /** The step is an adjustment, or a response with tokens, for a user registered before it. */
  predicate Moves(steps: seq<Step>, k: nat)
    requires k < |steps|
  {
    match steps[k]
    case Register(_) => false
    case Adjust(entry) => RegisteredIn(steps[..k], entry.userId)
    case Record(userId, _, usage) => HasTokens(usage) && RegisteredIn(steps[..k], userId)
  }

  function MovesIn(steps: seq<Step>): nat -> bool {
    (k: nat) => k < |steps| && Moves(steps, k)
  }

  ghost predicate EnteredFor(s: Step, entry: LedgerEntry) {
    match s
    case Register(_) => false
    case Adjust(made) => entry == made
    case Record(userId, route, usage) => Bills(entry, userId, route, usage)
  }

  /** The ledger after a run is the list of the adjustments made for known users, in order, and nothing else. */
  lemma {:induction false} LedgerIsMoves(steps: seq<Step>) returns (at: seq<nat>)
    ensures var ledger := AccountsAfter(steps).ledger;
            && Lists(at, 0, |steps|, MovesIn(steps)) && |at| == |ledger|
            && forall k :: 0 <= k < |at| ==> at[k] < |steps| && EnteredFor(steps[at[k]], ledger[k])
  {
    at := [];
    if steps != [] {
      var n := |steps| - 1;
      var front := steps[..n];
      var before := AccountsAfter(front);
      var was := LedgerIsMoves(front);
      SameMoves(was, steps);
      ListsNext(was, n, MovesIn(steps));
      at := was + if Moves(steps, n) then [n] else [];
      StepEnters(front, steps[n]);
    }
  }

  lemma {:induction false} SameMoves(at: seq<nat>, steps: seq<Step>)
    requires steps != [] && Lists(at, 0, |steps| - 1, MovesIn(steps[..|steps| - 1]))
    ensures Lists(at, 0, |steps| - 1, MovesIn(steps))
  {
    var front := steps[..|steps| - 1];
    forall k: nat | k < |front|
      ensures MovesIn(front)(k) <==> MovesIn(steps)(k)
    {
      assert front[..k] == steps[..k] && front[k] == steps[k];
    }
  }

  lemma {:induction false} StepEnters(front: seq<Step>, s: Step)
    ensures var steps := front + [s];
            var ledger, after := AccountsAfter(front).ledger, Stepped(AccountsAfter(front), s).ledger;
            if Moves(steps, |front|) then
              |after| == |ledger| + 1 && after[..|ledger|] == ledger && EnteredFor(s, after[|ledger|])
            else after == ledger
  {
    var a := AccountsAfter(front);
    assert (front + [s])[..|front|] == front;
    match s
    case Register(_) =>
    case Adjust(entry) =>
      UsersAre(front, entry.userId);
      AdjustmentMoves(a, entry);
    case Record(userId, route, usage) =>
      UsersAre(front, userId);
      var entry := RecordingMoves(a, userId, route, usage);
  }
}
