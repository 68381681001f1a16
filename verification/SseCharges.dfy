/** What a streamed response is charged
(crates/codegen/astra-auth/src/server.rs, `gateway_stream_response`). */
module SseCharges {
  import opened Wrappers
  import opened Routes
  import opened Billing
  import opened BillingLedger
  import opened SseGateway

  /** The usage before each event and behind the last: nothing at first, and then what reading the
  event makes of it. */
  predicate Readings(u: seq<TokenUsage>, events: seq<Bytes>, observe: Observer) {
    && |u| == |events| + 1 && u[0] == TokenUsage(0, 0)
    && forall k :: 0 <= k < |events| ==> u[k + 1] == observe(events[k], u[k]).0
  }

  predicate EndsAt(u: seq<TokenUsage>, events: seq<Bytes>, observe: Observer, k: int)
    requires |u| == |events| + 1
  {
    0 <= k < |events| && observe(events[k], u[k]).1
  }

  predicate FirstEnd(u: seq<TokenUsage>, events: seq<Bytes>, observe: Observer, k: int)
    requires |u| == |events| + 1
  {
    EndsAt(u, events, observe, k) && forall j :: 0 <= j < k ==> !EndsAt(u, events, observe, j)
  }

  predicate NeverEnds(u: seq<TokenUsage>, events: seq<Bytes>, observe: Observer)
    requires |u| == |events| + 1
  {
    forall j :: 0 <= j < |events| ==> !EndsAt(u, events, observe, j)
  }

  lemma {:induction false} ObserveAllSnoc(m: Meter, events: seq<Bytes>, e: Bytes, observe: Observer)
    ensures ObserveAll(m, events + [e], observe) == Observe(ObserveAll(m, events, observe), e, observe)
  {
    ObserveAllConcat(m, events, [e], observe);
    assert [e][1..] == [];
  }

  lemma {:induction false} MeterIs(events: seq<Bytes>, observe: Observer, u: seq<TokenUsage>)
    requires Readings(u, events, observe)
    ensures var m := ObserveAll(FRESH, events, observe);
            && m.usage == u[|events|]
            && (NeverEnds(u, events, observe) ==> m.charges == [])
            && forall k :: FirstEnd(u, events, observe, k) ==> m.charges == [u[k + 1]]
    decreases |events|
  {
    if events != [] {
      var n := |events| - 1;
      var front, v := events[..n], u[..n + 1];
      MeterIs(front, observe, v);
      assert events == front + [events[n]];
      ObserveAllSnoc(FRESH, front, events[n], observe);
      assert forall k :: 0 <= k < n ==> (EndsAt(u, events, observe, k) <==> EndsAt(v, front, observe, k));
      FirstOrNever(front, observe, v);
      assert NeverEnds(u, events, observe) ==> NeverEnds(v, front, observe) && !EndsAt(u, events, observe, n);
      assert forall k :: FirstEnd(u, events, observe, k) && k < n ==> FirstEnd(v, front, observe, k);
    }
  }

  lemma {:induction false} FirstOrNever(events: seq<Bytes>, observe: Observer, u: seq<TokenUsage>)
    requires |u| == |events| + 1
    ensures NeverEnds(u, events, observe) || exists k :: FirstEnd(u, events, observe, k)
  {
    var k := 0;
    while k < |events| && !EndsAt(u, events, observe, k)
      invariant 0 <= k <= |events|
      invariant forall j :: 0 <= j < k ==> !EndsAt(u, events, observe, j)
    {
      k := k + 1;
    }
    if k < |events| {
      assert FirstEnd(u, events, observe, k);
    }
  }

  /** What is charged, in terms of the events that the observer is shown: the usage read from the first
  event that ends the response and those before it; if none does, and the response ends cleanly, all that was
  read, with what was left in the buffer; if none does and the stream fails, nothing. */
  lemma {:induction false} ChargeOfShown(chunks: seq<Chunk>, observe: Observer, u: seq<TokenUsage>)
    requires Readings(u, ReceiveAll(NOTHING, chunks).events, observe)
    ensures var o := ReceiveAll(NOTHING, chunks);
            && (forall k :: FirstEnd(u, o.events, observe, k) ==> Charges(chunks, observe) == [u[k + 1]])
            && (NeverEnds(u, o.events, observe) ==>
                  var last := u[|o.events|];
                  Charges(chunks, observe) ==
                  if !CleanEnd(chunks) then [] else [if o.buffer == [] then last else observe(o.buffer, last).0])
  {
    MeterIs(ReceiveAll(NOTHING, chunks).events, observe, u);
  }

  /** So, for a response whose events are shown whole, in terms of its bytes alone. */
  lemma {:induction false} ChargeIs(chunks: seq<Chunk>, observe: Observer, u: seq<TokenUsage>)
    requires EventsFit(Forwarded(chunks)) && Readings(u, Frame(Forwarded(chunks)).events, observe)
    ensures var f := Frame(Forwarded(chunks));
            && (forall k :: FirstEnd(u, f.events, observe, k) ==> Charges(chunks, observe) == [u[k + 1]])
            && (NeverEnds(u, f.events, observe) ==>
                  var last := u[|f.events|];
                  && (!CleanEnd(chunks) ==> Charges(chunks, observe) == [])
                  && (CleanEnd(chunks) && f.rest == [] ==> Charges(chunks, observe) == [last])
                  && (CleanEnd(chunks) && 0 < |f.rest| <= OBSERVER_CAP ==>
                        Charges(chunks, observe) == [observe(f.rest, last).0])
                  && (CleanEnd(chunks) && |f.rest| == OBSERVER_CAP + 1 ==> Charges(chunks, observe) == [last]))
  {
    EventsShown(chunks);
    ChargeOfShown(chunks, observe, u);
    if CleanEnd(chunks) && |Frame(Forwarded(chunks)).rest| <= OBSERVER_CAP + 1 {
      ChunkingDoesNotMatter(chunks);
    }
  }

  /** The accounts after the charges have been recorded. */
  function Billed(a: Accounts, userId: string, route: ModelRoute, charges: seq<TokenUsage>): Accounts {
    if charges == [] then a
    else Recorded(Billed(a, userId, route, charges[..|charges| - 1]), userId, route, charges[|charges| - 1])
  }

  /** So a response that ends with an event bills its user once for the usage read up to that event, or changes nothing
  if that is no tokens or the user is unknown. */
  lemma {:induction false} ResponseBills(
    a: Accounts, userId: string, route: ModelRoute, chunks: seq<Chunk>, observe: Observer, u: seq<TokenUsage>, k: nat)
    returns (entry: LedgerEntry)
    requires EventsFit(Forwarded(chunks)) && Readings(u, Frame(Forwarded(chunks)).events, observe)
    requires FirstEnd(u, Frame(Forwarded(chunks)).events, observe, k)
    ensures Bills(entry, userId, route, u[k + 1])
    ensures var r := Billed(a, userId, route, Charges(chunks, observe));
            if HasTokens(u[k + 1]) && IsUser(a.users, userId) then Moved(a, r, entry) else r == a
  {
    ChargeAtEnd(chunks, observe, u, k);
    entry := OneChargeBills(a, userId, route, u[k + 1]);
  }

  lemma {:induction false} ChargeAtEnd(chunks: seq<Chunk>, observe: Observer, u: seq<TokenUsage>, k: nat)
    requires EventsFit(Forwarded(chunks)) && Readings(u, Frame(Forwarded(chunks)).events, observe)
    requires FirstEnd(u, Frame(Forwarded(chunks)).events, observe, k)
    ensures Charges(chunks, observe) == [u[k + 1]]
  {
    EventsShown(chunks);
    MeterIs(Frame(Forwarded(chunks)).events, observe, u);
    assert FirstEnd(u, Frame(Forwarded(chunks)).events, observe, k);
  }

  lemma {:induction false} OneChargeBills(a: Accounts, userId: string, route: ModelRoute, usage: TokenUsage)
    returns (entry: LedgerEntry)
    ensures Bills(entry, userId, route, usage)
    ensures var r := Billed(a, userId, route, [usage]);
            if HasTokens(usage) && IsUser(a.users, userId) then Moved(a, r, entry) else r == a
  {
    assert [usage][..0] == [];
    entry := RecordingMoves(a, userId, route, usage);
  }

  /** Readings exist, and only one sequence of them, for any events. */
  lemma {:induction false} ReadingsOf(events: seq<Bytes>, observe: Observer) returns (u: seq<TokenUsage>)
    ensures Readings(u, events, observe)
    ensures forall v :: Readings(v, events, observe) ==> v == u
  {
    u := [TokenUsage(0, 0)];
    var k := 0;
    while k < |events|
      invariant 0 <= k <= |events| && |u| == k + 1 && Readings(u, events[..k], observe)
      invariant forall v :: Readings(v, events, observe) ==> u == v[..k + 1]
    {
      u := u + [observe(events[k], u[k]).0];
      k := k + 1;
    }
    assert events[..k] == events;
    assert forall v :: Readings(v, events, observe) ==> v[..k + 1] == v;
  }

  /** The bytes passed on are those of the chunks, in order, up to the first failure. */
  lemma {:induction false} ForwardedInOrder(chunks: seq<Chunk>, bytes: Bytes, more: seq<Chunk>)
    requires CleanEnd(chunks)
    ensures Forwarded([]) == []
    ensures Forwarded(chunks + [Data(bytes)]) == Forwarded(chunks) + bytes
    ensures Forwarded(chunks + ([Failed] + more)) == Forwarded(chunks)
    decreases |chunks|
  {
    if chunks == [] {
      assert chunks + [Data(bytes)] == [Data(bytes)] && [Data(bytes)][1..] == [];
      assert chunks + ([Failed] + more) == [Failed] + more;
    } else {
      assert (chunks + [Data(bytes)])[1..] == chunks[1..] + [Data(bytes)];
      assert (chunks + ([Failed] + more))[1..] == chunks[1..] + ([Failed] + more);
      ForwardedInOrder(chunks[1..], bytes, more);
    }
  }

  /** A separator of `n` bytes stands at `i`: two line feeds, or two pairs of carriage return and line feed. */
  predicate SeparatorAt(b: Bytes, i: int, n: nat) {
    0 <= i && i + n <= |b| && (b[i..i + n] == [10, 10] || b[i..i + n] == [13, 10, 13, 10])
  }

  lemma {:induction false} BoundaryIsSeparator(b: Bytes, i: int, n: nat)
    ensures Boundary(b, i, n) <==> SeparatorAt(b, i, n)
  {
    if 0 <= i && i + n <= |b| {
      var s := b[i..i + n];
      assert |s| == n && forall k :: 0 <= k < n ==> s[k] == b[i + k];
    }
  }

  /** Each event of a response ends with its first separator, and no separator is left in the remainder. */
  lemma {:induction false} EventsEndAtSeparators(b: Bytes)
    ensures forall e :: e in Frame(b).events ==> EndsAtFirstSeparator(e)
    ensures forall i, n :: !SeparatorAt(Frame(b).rest, i, n)
    decreases |b|
  {
    FrameConserves(b);
    forall i, n: nat
      ensures !SeparatorAt(Frame(b).rest, i, n)
    {
      BoundaryIsSeparator(Frame(b).rest, i, n);
    }
    if FindBoundary(b).Some? {
      var (i, n) := FindBoundary(b).value;
      FrameStep(b, i, n);
      EventsEndAtSeparators(b[i + n..]);
      EventEnds(b, i, n);
    }
  }

  predicate EndsAtFirstSeparator(e: Bytes) {
    exists i, n | 0 <= i <= |e| && 0 <= n <= |e| :: FirstSeparator(e, i, n)
  }

  predicate FirstSeparator(e: Bytes, i: nat, n: nat) {
    i + n == |e| && SeparatorAt(e, i, n) && forall j :: 0 <= j < i ==> !SeparatorAt(e, j, 2) && !SeparatorAt(e, j, 4)
  }

  lemma {:induction false} EventEnds(b: Bytes, i: nat, n: nat)
    requires FindBoundary(b) == Some((i, n))
    ensures EndsAtFirstSeparator(b[..i + n])
  {
    var e := b[..i + n];
    BoundaryIsSeparator(b, i, n);
    assert e[i..i + n] == b[i..i + n];
    forall j | 0 <= j < i
      ensures !SeparatorAt(e, j, 2) && !SeparatorAt(e, j, 4)
    {
      BoundaryIsSeparator(b, j, 2);
      BoundaryIsSeparator(b, j, 4);
      if j + 2 <= |e| { assert e[j..j + 2] == b[j..j + 2]; }
      if j + 4 <= |e| { assert e[j..j + 4] == b[j..j + 4]; }
    }
    assert FirstSeparator(e, i, n);
  }
}
