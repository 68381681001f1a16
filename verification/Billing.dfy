/** What a response costs, and the balances that follow from it
(crates/codegen/astra-auth/src/server.rs, `usage_cost_microusd` and `record_usage`;
crates/codegen/astra-auth/src/store.rs, `adjust_balance`). */
module Billing {
  import opened Wrappers
  import opened Routes

  const U128_MAX: int := 0x1_0000_0000_0000_0000 * 0x1_0000_0000_0000_0000 - 1
  const MILLION: int := 1_000_000

  datatype TokenUsage = TokenUsage(input: u64, output: u64)

  // ---------- the cost of a response ----------

  function Saturated(x: int): int {
    if x > U128_MAX then U128_MAX else x
  }

  /** One side of the bill, in saturating 128-bit arithmetic. */
  function SideCost(price: u64, tokens: u64): int {
    Saturated(Saturated(price as int * tokens as int) + 999_999) / MILLION
  }

  /** `usage_cost_microusd`. */
  function UsageCost(route: ModelRoute, usage: TokenUsage): (cost: i64)
    ensures 0 <= cost
  {
    var sum := Saturated(SideCost(route.inputPrice, usage.input) + SideCost(route.outputPrice, usage.output));
    SideCostIsCeiling(route.inputPrice, usage.input);
    SideCostIsCeiling(route.outputPrice, usage.output);
    if sum > I64_MAX then I64_MAX as i64 else sum as i64
  }

  /** `n` is the least whole number of micro-USD that covers `x` millionths of them. */
  predicate Ceiling(x: int, n: int) {
    n * MILLION >= x && (n - 1) * MILLION < x
  }

  lemma {:induction false} ProductGrows(p: int, t: int, p': int, t': int)
    requires 0 <= p <= p' && 0 <= t <= t'
    ensures 0 <= p * t <= p' * t'
  {
    assert p * t <= p * t' && p * t' <= p' * t';
  }

  lemma {:induction false} ProductFits(price: u64, tokens: u64)
    ensures 0 <= price as int * tokens as int <= U128_MAX - 2 * 0xFFFF_FFFF_FFFF_FFFF
  {
    ProductGrows(price as int, tokens as int, 0xFFFF_FFFF_FFFF_FFFF, 0xFFFF_FFFF_FFFF_FFFF);
  }

  /** Nothing saturates on the way: each side is an exact ceiling. */
  lemma {:induction false} SideCostIsCeiling(price: u64, tokens: u64)
    ensures Ceiling(price as int * tokens as int, SideCost(price, tokens))
    ensures 0 <= SideCost(price, tokens) <= U128_MAX / 2
  {
    ProductFits(price, tokens);
  }

  lemma {:induction false} CeilingIsUnique(x: int, n: int, m: int)
    requires Ceiling(x, n) && Ceiling(x, m)
    ensures n == m
  {}

  function Clamped(x: int): int {
    if x > I64_MAX then I64_MAX else x
  }

  /** The charge is the sum of the two exact ceilings, at most the largest 64-bit amount. */
  lemma {:induction false} CostIsExact(route: ModelRoute, usage: TokenUsage, input: int, output: int)
    requires Ceiling(route.inputPrice as int * usage.input as int, input)
    requires Ceiling(route.outputPrice as int * usage.output as int, output)
    ensures UsageCost(route, usage) as int == Clamped(input + output)
  {
    SideCostIsCeiling(route.inputPrice, usage.input);
    SideCostIsCeiling(route.outputPrice, usage.output);
    CeilingIsUnique(route.inputPrice as int * usage.input as int, input, SideCost(route.inputPrice, usage.input));
    CeilingIsUnique(route.outputPrice as int * usage.output as int, output, SideCost(route.outputPrice, usage.output));
  }

  predicate NoMore(a: u64, b: u64, c: u64, d: u64) {
    a <= b && c <= d
  }

  lemma {:induction false} SideCostGrows(price: u64, tokens: u64, price': u64, tokens': u64)
    requires NoMore(price, price', tokens, tokens')
    ensures SideCost(price, tokens) <= SideCost(price', tokens')
  {
    ProductGrows(price as int, tokens as int, price' as int, tokens' as int);
    SideCostIsCeiling(price, tokens);
    SideCostIsCeiling(price', tokens');
  }

  /** Raising a price or a count never lowers the charge. */
  lemma {:induction false} CostGrows(route: ModelRoute, usage: TokenUsage, route': ModelRoute, usage': TokenUsage)
    requires NoMore(route.inputPrice, route'.inputPrice, usage.input, usage'.input)
    requires NoMore(route.outputPrice, route'.outputPrice, usage.output, usage'.output)
    ensures UsageCost(route, usage) <= UsageCost(route', usage')
  {
    SideCostGrows(route.inputPrice, usage.input, route'.inputPrice, usage'.input);
    SideCostGrows(route.outputPrice, usage.output, route'.outputPrice, usage'.output);
  }

  lemma {:induction false} SideCostSplits(price: u64, a: u64, b: u64)
    requires a as int + b as int <= 0xFFFF_FFFF_FFFF_FFFF
    ensures SideCost(price, a + b) <= SideCost(price, a) + SideCost(price, b) <= SideCost(price, a + b) + 1
  {
    SideCostIsCeiling(price, a);
    SideCostIsCeiling(price, b);
    SideCostIsCeiling(price, a + b);
    assert price as int * (a + b) as int == price as int * a as int + price as int * b as int;
  }

  /** One combined charge never exceeds two split ones, and falls short of them by at most two micro-USD
  unless it is clamped. */
  lemma {:induction false} CombinedIsCheaper(route: ModelRoute, a: TokenUsage, b: TokenUsage)
    requires a.input as int + b.input as int <= 0xFFFF_FFFF_FFFF_FFFF
    requires a.output as int + b.output as int <= 0xFFFF_FFFF_FFFF_FFFF
    ensures var whole := UsageCost(route, TokenUsage(a.input + b.input, a.output + b.output)) as int;
            var split := UsageCost(route, a) as int + UsageCost(route, b) as int;
            whole <= split && (whole < I64_MAX ==> split <= whole + 2)
  {
    SideCostSplits(route.inputPrice, a.input, b.input);
    SideCostSplits(route.outputPrice, a.output, b.output);
    SideCostIsCeiling(route.inputPrice, a.input);
    SideCostIsCeiling(route.inputPrice, b.input);
    SideCostIsCeiling(route.outputPrice, a.output);
    SideCostIsCeiling(route.outputPrice, b.output);
  }

  // ---------- balances ----------

  datatype User = User(id: string, balance: i64)

  datatype LedgerEntry = LedgerEntry(userId: string, delta: i64, model: Option<string>, usage: TokenUsage)

  datatype Accounts = Accounts(users: seq<User>, ledger: seq<LedgerEntry>)

  function FindUser(users: seq<User>, id: string): (r: Option<nat>)
    ensures r.Some? ==> r.value < |users| && users[r.value].id == id
                        && forall k :: 0 <= k < r.value ==> users[k].id != id
    ensures r.None? ==> forall k :: 0 <= k < |users| ==> users[k].id != id
  {
    if users == [] then None
    else if users[0].id == id then Some(0)
    else
      match FindUser(users[1..], id)
      case None => None
      case Some(k) =>
        assert forall i :: 0 < i < |users| ==> users[i] == users[1..][i - 1];
        Some(k + 1)
  }

  /** `create_user`, as it is called: a new account holds nothing. */
  function Registered(a: Accounts, id: string): Accounts {
    a.(users := a.users + [User(id, 0)])
  }

  /** `adjust_balance`: an unknown user changes nothing. */
  function Adjusted(a: Accounts, entry: LedgerEntry): Accounts {
    match FindUser(a.users, entry.userId)
    case None => a
    case Some(k) =>
      var u := a.users[k];
      Accounts(a.users[k := u.(balance := SaturatingAdd(u.balance, entry.delta))], a.ledger + [entry])
  }

  /** The ledger entry for one response. */
  function UsageEntry(userId: string, route: ModelRoute, usage: TokenUsage): LedgerEntry {
    LedgerEntry(userId, -UsageCost(route, usage), Some(route.displayName), usage)
  }

  /** `record_usage`: a response without tokens is not recorded. */
  function Recorded(a: Accounts, userId: string, route: ModelRoute, usage: TokenUsage): Accounts {
    if usage.input == 0 && usage.output == 0 then a else Adjusted(a, UsageEntry(userId, route, usage))
  }

  datatype Step =
    | Register(id: string)
    | Adjust(entry: LedgerEntry)
    | Record(userId: string, route: ModelRoute, usage: TokenUsage)

  function Stepped(a: Accounts, s: Step): Accounts {
    match s
    case Register(id) => Registered(a, id)
    case Adjust(entry) => Adjusted(a, entry)
    case Record(userId, route, usage) => Recorded(a, userId, route, usage)
  }

  function AccountsAfter(steps: seq<Step>): Accounts {
    if steps == [] then Accounts([], []) else Stepped(AccountsAfter(steps[..|steps| - 1]), steps[|steps| - 1])
  }

  /** The amounts a user's ledger entries move, oldest first. */
  function Deltas(ledger: seq<LedgerEntry>, id: string): seq<i64> {
    if ledger == [] then []
    else
      var last := ledger[|ledger| - 1];
      Deltas(ledger[..|ledger| - 1], id) + if last.userId == id then [last.delta] else []
  }

  /** A balance that starts at nothing and saturates at every step. */
  function SaturatingFold(deltas: seq<i64>): i64 {
    if deltas == [] then 0 else SaturatingAdd(SaturatingFold(deltas[..|deltas| - 1]), deltas[|deltas| - 1])
  }

  function Sum(deltas: seq<i64>): int {
    if deltas == [] then 0 else Sum(deltas[..|deltas| - 1]) + deltas[|deltas| - 1] as int
  }

  /** Every balance that can be looked up is the fold of its user's entries, and every entry has a user. */
  ghost predicate Balanced(a: Accounts) {
    forall id :: var k := FindUser(a.users, id);
                 if k.Some? then a.users[k.value].balance == SaturatingFold(Deltas(a.ledger, id))
                 else Deltas(a.ledger, id) == []
  }

  lemma {:induction false} NoOtherUser(users: seq<User>, more: User, id: string)
    ensures FindUser(users + [more], id) ==
            if FindUser(users, id).Some? then FindUser(users, id) else if more.id == id then Some(|users|) else None
  {
    var r := FindUser(users + [more], id);
    assert forall k :: 0 <= k < |users| ==> (users + [more])[k] == users[k];
    assert (users + [more])[|users|] == more;
  }

  lemma {:induction false} RegisterKeepsBalanced(a: Accounts, id: string)
    requires Balanced(a)
    ensures Balanced(Registered(a, id))
  {
    forall other
      ensures var k := FindUser(Registered(a, id).users, other);
              if k.Some? then Registered(a, id).users[k.value].balance == SaturatingFold(Deltas(a.ledger, other))
              else Deltas(a.ledger, other) == []
    {
      NoOtherUser(a.users, User(id, 0), other);
    }
  }

  lemma {:induction false} AdjustKeepsBalanced(a: Accounts, entry: LedgerEntry)
    requires Balanced(a)
    ensures Balanced(Adjusted(a, entry))
  {
    var r := Adjusted(a, entry);
    if FindUser(a.users, entry.userId).Some? {
      var k := FindUser(a.users, entry.userId).value;
      forall id
        ensures FindUser(r.users, id) == FindUser(a.users, id)
        ensures Deltas(r.ledger, id) == Deltas(a.ledger, id) + if entry.userId == id then [entry.delta] else []
      {
        SameUsers(a.users, r.users, id);
        assert r.ledger[..|r.ledger| - 1] == a.ledger;
      }
      var deltas := Deltas(a.ledger, entry.userId);
      assert (deltas + [entry.delta])[..|deltas|] == deltas;
      assert forall id :: id != entry.userId ==> Deltas(a.ledger, id) + [] == Deltas(a.ledger, id);
    }
  }

  lemma {:induction false} SameUsers(a: seq<User>, b: seq<User>, id: string)
    requires |a| == |b| && forall k :: 0 <= k < |a| ==> a[k].id == b[k].id
    ensures FindUser(a, id) == FindUser(b, id)
  {
    var p, q := FindUser(a, id), FindUser(b, id);
    assert p.Some? ==> b[p.value].id == id;
    assert q.Some? ==> a[q.value].id == id;
  }

  /** After every run, each user's balance is the saturating fold of that user's ledger entries. */
  lemma {:induction false} BalanceIsFold(steps: seq<Step>)
    ensures Balanced(AccountsAfter(steps))
  {
    if steps != [] {
      var before := AccountsAfter(steps[..|steps| - 1]);
      BalanceIsFold(steps[..|steps| - 1]);
      match steps[|steps| - 1]
      case Register(id) => RegisterKeepsBalanced(before, id);
      case Adjust(entry) => AdjustKeepsBalanced(before, entry);
      case Record(userId, route, usage) => AdjustKeepsBalanced(before, UsageEntry(userId, route, usage));
    }
  }

  predicate InRange(x: int) {
    I64_MIN <= x <= I64_MAX
  }

  /** The balance follows the plain sum up to the first entry that takes the sum out of range. */
  lemma {:induction false} FoldIsSum(deltas: seq<i64>)
    ensures (forall k :: 0 <= k <= |deltas| ==> SaturatingFold(deltas[..k]) as int == Sum(deltas[..k])) <==>
            forall k :: 0 <= k <= |deltas| ==> InRange(Sum(deltas[..k]))
  {
    var n := |deltas|;
    if n > 0 {
      var front := deltas[..n - 1];
      FoldIsSum(front);
      assert forall k :: 0 <= k < n ==> deltas[..k] == front[..k];
      assert deltas[..n] == deltas;
      if forall k :: 0 <= k < n ==> InRange(Sum(deltas[..k])) {
        assert forall k :: 0 <= k <= |front| ==> InRange(Sum(front[..k]));
        assert front[..n - 1] == front;
        assert SaturatingFold(front) as int == Sum(front);
      }
    }
  }

  /** So, after every run, a balance is the plain sum if no partial sum leaves the 64-bit range. */
  lemma {:induction false} BalanceIsSum(steps: seq<Step>, id: string)
    requires FindUser(AccountsAfter(steps).users, id).Some?
    requires var deltas := Deltas(AccountsAfter(steps).ledger, id);
             forall k :: 0 <= k <= |deltas| ==> InRange(Sum(deltas[..k]))
    ensures var a := AccountsAfter(steps);
            a.users[FindUser(a.users, id).value].balance as int == Sum(Deltas(a.ledger, id))
  {
    var deltas := Deltas(AccountsAfter(steps).ledger, id);
    BalanceIsFold(steps);
    FoldIsSum(deltas);
    assert deltas[..|deltas|] == deltas;
  }

  /** Recording a response touches no other account and never raises a balance. */
  lemma {:induction false} RecordingCharges(a: Accounts, userId: string, route: ModelRoute, usage: TokenUsage)
    ensures var r := Recorded(a, userId, route, usage);
            && |r.users| == |a.users|
            && forall k :: 0 <= k < |a.users| ==>
                             && (r.users[k] == a.users[k] || FindUser(a.users, userId) == Some(k))
                             && r.users[k].id == a.users[k].id && r.users[k].balance <= a.users[k].balance
  {
    SideCostIsCeiling(route.inputPrice, usage.input);
    SideCostIsCeiling(route.outputPrice, usage.output);
  }
}
