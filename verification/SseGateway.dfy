/** Metering a streamed model response while passing it on unchanged
(crates/codegen/astra-auth/src/server.rs, `find_sse_boundary` and `gateway_stream_response`).
Event separators are those the code knows: two line feeds, or two CR LF pairs. */
module SseGateway {
  import opened Wrappers
  import opened Text
  import opened Billing

  const CR: byte := 13
  const LF: byte := 10
  const OBSERVER_CAP: nat := 0x10_0000

  // ---------- framing ----------

  /** A separator of `n` bytes stands at `i`. */
  predicate Boundary(b: Bytes, i: int, n: int) {
    || (n == 2 && 0 <= i && i + 2 <= |b| && b[i] == LF && b[i + 1] == LF)
    || (n == 4 && 0 <= i && i + 4 <= |b| && b[i] == CR && b[i + 1] == LF && b[i + 2] == CR && b[i + 3] == LF)
  }

  /** The first separator of `n` bytes from `i` on. */
  function Position(b: Bytes, n: nat, i: nat): (r: Option<nat>)
    ensures r.Some? ==> i <= r.value && Boundary(b, r.value, n) && forall j :: i <= j < r.value ==> !Boundary(b, j, n)
    ensures r.None? ==> forall j :: i <= j ==> !Boundary(b, j, n)
    decreases |b| - i
  {
    if |b| <= i then None else if Boundary(b, i, n) then Some(i) else Position(b, n, i + 1)
  }

  /** `find_sse_boundary`: of the first separators of either kind, the earlier. */
  function FindBoundary(b: Bytes): (r: Option<(nat, nat)>)
    ensures r.Some? ==> Boundary(b, r.value.0, r.value.1) && forall j, n :: 0 <= j < r.value.0 ==> !Boundary(b, j, n)
    ensures r.None? ==> forall j, n :: !Boundary(b, j, n)
  {
    match (Position(b, 2, 0), Position(b, 4, 0))
    case (None, None) => None
    case (Some(i), None) => Some((i, 2))
    case (None, Some(j)) => Some((j, 4))
    case (Some(i), Some(j)) => if i <= j then Some((i, 2)) else Some((j, 4))
  }

  /** More bytes behind a text do not move its first separator. */
  lemma {:induction false} BoundaryStable(a: Bytes, b: Bytes)
    requires FindBoundary(a).Some?
    ensures FindBoundary(a + b) == FindBoundary(a)
  {
    var (i, n) := FindBoundary(a).value;
    assert forall k :: 0 <= k < |a| ==> (a + b)[k] == a[k];
    assert Boundary(a + b, i, n);
    forall j, m | 0 <= j < i && Boundary(a + b, j, m)
      ensures Boundary(a, j, m)
    {}
  }

  datatype Framed = Framed(events: seq<Bytes>, rest: Bytes)

  /** Cuts a text into its events, separators included, and what is left. */
  function Frame(b: Bytes): Framed
    decreases |b|
  {
    match FindBoundary(b)
    case None => Framed([], b)
    case Some((i, n)) =>
      var tail := Frame(b[i + n..]);
      Framed([b[..i + n]] + tail.events, tail.rest)
  }

  function Joined(events: seq<Bytes>): Bytes {
    if events == [] then [] else events[0] + Joined(events[1..])
  }

  /** The first event and the frame of what follows it. */
  lemma {:induction false} FrameStep(b: Bytes, i: nat, n: nat)
    requires FindBoundary(b) == Some((i, n))
    ensures Frame(b).events == [b[..i + n]] + Frame(b[i + n..]).events && Frame(b).rest == Frame(b[i + n..]).rest
  {}

  lemma {:induction false} FrameConserves(b: Bytes)
    ensures Joined(Frame(b).events) + Frame(b).rest == b
    ensures FindBoundary(Frame(b).rest).None?
    decreases |b|
  {
    if FindBoundary(b).Some? {
      var (i, n) := FindBoundary(b).value;
      FrameStep(b, i, n);
      FrameConserves(b[i + n..]);
      JoinedAhead(b, i + n, Frame(b[i + n..]));
    }
  }

  lemma {:induction false} JoinedAhead(b: Bytes, k: nat, tail: Framed)
    requires k <= |b| && Joined(tail.events) + tail.rest == b[k..]
    ensures Joined([b[..k]] + tail.events) + tail.rest == b
  {
    assert ([b[..k]] + tail.events)[1..] == tail.events;
    Assoc3(b[..k], Joined(tail.events), tail.rest);
    assert b == b[..k] + b[k..];
  }

  /** Framing may stop anywhere and go on with what was left. */
  lemma {:induction false} FrameInParts(a: Bytes, b: Bytes)
    ensures var first := Frame(a);
            var second := Frame(first.rest + b);
            Frame(a + b).events == first.events + second.events && Frame(a + b).rest == second.rest
    decreases |a|
  {
    if FindBoundary(a).Some? {
      var (i, n) := FindBoundary(a).value;
      var event, more := a[..i + n], a[i + n..];
      FrameStep(a, i, n);
      FrameInParts(more, b);
      FrameAhead(a, b, i, n);
      Assoc3([event], Frame(more).events, Frame(Frame(more).rest + b).events);
    } else {
      EmptyFront(Frame(a + b).events);
    }
  }

  lemma {:induction false} FrameAhead(a: Bytes, b: Bytes, i: nat, n: nat)
    requires FindBoundary(a) == Some((i, n))
    ensures Frame(a + b).events == [a[..i + n]] + Frame(a[i + n..] + b).events
    ensures Frame(a + b).rest == Frame(a[i + n..] + b).rest
  {
    BoundaryStable(a, b);
    CutBeforeJoin(a, b, i + n);
    FrameStep(a + b, i, n);
  }

  lemma {:induction false} CutBeforeJoin(a: Bytes, b: Bytes, k: nat)
    requires k <= |a|
    ensures (a + b)[k..] == a[k..] + b && (a + b)[..k] == a[..k]
  {}

  // ---------- metering ----------

  /** What reading an event does to the usage, and whether the event ends the response. */
  type Observer = (Bytes, TokenUsage) -> (TokenUsage, bool)

  /** The usage read so far and the charges recorded for it. */
  datatype Meter = Meter(usage: TokenUsage, charges: seq<TokenUsage>)

  const FRESH: Meter := Meter(TokenUsage(0, 0), [])

  function Observe(m: Meter, event: Bytes, observe: Observer): Meter {
    var (usage, ends) := observe(event, m.usage);
    Meter(usage, if ends && m.charges == [] then [usage] else m.charges)
  }

  function ObserveAll(m: Meter, events: seq<Bytes>, observe: Observer): Meter
    decreases |events|
  {
    if events == [] then m else ObserveAll(Observe(m, events[0], observe), events[1..], observe)
  }

  lemma {:induction false} ObserveAllConcat(m: Meter, a: seq<Bytes>, b: seq<Bytes>, observe: Observer)
    ensures ObserveAll(m, a + b, observe) == ObserveAll(ObserveAll(m, a, observe), b, observe)
    decreases |a|
  {
    if a == [] {
      assert a + b == b;
    } else {
      assert (a + b)[1..] == a[1..] + b;
      ObserveAllConcat(Observe(m, a[0], observe), a[1..], b, observe);
    }
  }

  lemma {:induction false} AtMostOneCharge(m: Meter, events: seq<Bytes>, observe: Observer)
    requires |m.charges| <= 1
    ensures |ObserveAll(m, events, observe).charges| <= 1
    ensures m.charges != [] ==> ObserveAll(m, events, observe).charges == m.charges
    decreases |events|
  {
    if events != [] { AtMostOneCharge(Observe(m, events[0], observe), events[1..], observe); }
  }

  // ---------- the stream ----------

  datatype Chunk = Data(bytes: Bytes) | Failed

  /** The observer's buffer, and the events it has cut so far. */
  datatype Observed = Observed(buffer: Bytes, events: seq<Bytes>)

  function Capped(rest: Bytes): Bytes {
    if |rest| > OBSERVER_CAP then [] else rest
  }

  function Receive(o: Observed, chunk: Bytes): Observed {
    var framed := Frame(o.buffer + chunk);
    Observed(Capped(framed.rest), o.events + framed.events)
  }

  /** What the observer has cut from the chunks up to the first failure. */
  function ReceiveAll(o: Observed, chunks: seq<Chunk>): Observed
    decreases |chunks|
  {
    if chunks == [] || chunks[0].Failed? then o else ReceiveAll(Receive(o, chunks[0].bytes), chunks[1..])
  }

  const NOTHING: Observed := Observed([], [])

  /** The bytes passed on: all chunks up to the first failure. */
  function Forwarded(chunks: seq<Chunk>): Bytes {
    if chunks == [] || chunks[0].Failed? then [] else chunks[0].bytes + Forwarded(chunks[1..])
  }

  predicate CleanEnd(chunks: seq<Chunk>) {
    forall k :: 0 <= k < |chunks| ==> chunks[k].Data?
  }

  /** The charges of a whole response. */
  function Charges(chunks: seq<Chunk>, observe: Observer): seq<TokenUsage> {
    var o := ReceiveAll(NOTHING, chunks);
    var m := ObserveAll(FRESH, o.events, observe);
    if !CleanEnd(chunks) || m.charges != [] then m.charges
    else [if o.buffer == [] then m.usage else observe(o.buffer, m.usage).0]
  }

  /** Usage is charged exactly once on a clean end and at most once otherwise. */
  lemma {:induction false} ChargedOnce(chunks: seq<Chunk>, observe: Observer)
    ensures |Charges(chunks, observe)| <= 1
    ensures CleanEnd(chunks) ==> |Charges(chunks, observe)| == 1
  {
    AtMostOneCharge(FRESH, ReceiveAll(NOTHING, chunks).events, observe);
  }

  // ---------- independence of the chunking ----------

  /** Every event fits the observer's buffer until its last byte. */
  predicate EventsFit(b: Bytes) {
    forall e :: e in Frame(b).events ==> |e| <= OBSERVER_CAP + 1
  }

  /** And the remainder fits to its last byte, */
  predicate FitsObserver(b: Bytes) {
    EventsFit(b) && |Frame(b).rest| <= OBSERVER_CAP
  }

  /** or only until its last byte. */
  predicate FitsButForLast(b: Bytes) {
    EventsFit(b) && |Frame(b).rest| <= OBSERVER_CAP + 1
  }

  /** A text that starts with no separator is either all remainder or begins the first event. */
  lemma {:induction false} RestBeginsEvent(rest: Bytes, b: Bytes)
    requires FindBoundary(rest).None?
    ensures var f := Frame(rest + b);
            if f.events == [] then |rest| <= |f.rest| else |rest| < |f.events[0]|
  {
    var s := rest + b;
    if FindBoundary(s).Some? {
      var (i, n) := FindBoundary(s).value;
      assert i + n <= |rest| ==> Boundary(rest, i, n) by { assert forall k :: 0 <= k < |rest| ==> s[k] == rest[k]; }
    }
  }

  lemma {:induction false} FittingRun(o: Observed, chunks: seq<Chunk>)
    requires CleanEnd(chunks) && FindBoundary(o.buffer).None? && |o.buffer| <= OBSERVER_CAP
    requires FitsButForLast(o.buffer + Forwarded(chunks))
    ensures var f := Frame(o.buffer + Forwarded(chunks));
            ReceiveAll(o, chunks).buffer == Capped(f.rest) && ReceiveAll(o, chunks).events == o.events + f.events
    decreases |chunks|
  {
    if chunks == [] {
      assert o.buffer + [] == o.buffer && o.events + [] == o.events;
    } else {
      var bytes, more := chunks[0].bytes, Forwarded(chunks[1..]);
      Assoc3(o.buffer, bytes, more);
      FittingStep(o, bytes, more);
      FittingRun(Receive(o, bytes), chunks[1..]);
    }
  }

  lemma {:induction false} FittingStep(o: Observed, bytes: Bytes, more: Bytes)
    requires FitsButForLast(o.buffer + bytes + more)
    ensures var next := Receive(o, bytes);
            var f, g := Frame(o.buffer + bytes + more), Frame(next.buffer + more);
            && FindBoundary(next.buffer).None? && |next.buffer| <= OBSERVER_CAP && FitsButForLast(next.buffer + more)
            && Capped(f.rest) == Capped(g.rest) && o.events + f.events == next.events + g.events
  {
    var first := Frame(o.buffer + bytes);
    FrameInParts(o.buffer + bytes, more);
    FrameConserves(o.buffer + bytes);
    FitsSplit(o.buffer + bytes, more);
    Assoc3(o.events, first.events, Frame(first.rest + more).events);
    if |first.rest| > OBSERVER_CAP {
      NothingFollows(first.rest, more);
    }
  }

  /** A remainder one byte too long that nothing follows leaves as little as no remainder. */
  lemma {:induction false} NothingFollows(rest: Bytes, more: Bytes)
    requires FindBoundary(rest).None? && more == []
    ensures Frame(rest + more).events == [] && Frame(rest + more).rest == rest
    ensures Frame([] + more).events == [] && Frame([] + more).rest == [] && FindBoundary([]).None?
  {
    assert rest + more == rest && [] + more == [];
  }

  /** What is left after the first part of a fitting text is kept, or is all that was left. */
  lemma {:induction false} FitsSplit(a: Bytes, b: Bytes)
    requires FitsButForLast(a + b)
    ensures FitsButForLast(Frame(a).rest + b)
    ensures |Frame(a).rest| <= OBSERVER_CAP || b == []
  {
    var first, second := Frame(a), Frame(Frame(a).rest + b);
    FrameInParts(a, b);
    FrameConserves(a);
    RestBeginsEvent(first.rest, b);
    FrameConserves(first.rest + b);
    assert forall e :: e in second.events ==> e in Frame(a + b).events;
    if second.events == [] {
      assert |second.rest| == |Joined(second.events) + second.rest|;
    } else {
      assert second.events[0] in second.events;
    }
  }

  /** If every event with its separator is at most one byte over 1 MiB, and the remainder too,
  all chunkings of a response show the observer the same events, those of the unbroken text,
  and leave the same buffer. */
  lemma {:induction false} ChunkingDoesNotMatter(chunks: seq<Chunk>)
    requires CleanEnd(chunks) && FitsButForLast(Forwarded(chunks))
    ensures var f := Frame(Forwarded(chunks));
            ReceiveAll(NOTHING, chunks) == Observed(Capped(f.rest), f.events)
  {
    EmptyFront(Forwarded(chunks));
    EmptyFront(Frame(Forwarded(chunks)).events);
    NothingFollows([], []);
    FittingRun(NOTHING, chunks);
  }

  /** Whatever the remainder, and whether or not the response fails, the events shown are those of the
  bytes received. */
  lemma {:induction false} EventsRun(o: Observed, chunks: seq<Chunk>)
    requires FindBoundary(o.buffer).None? && |o.buffer| <= OBSERVER_CAP && EventsFit(o.buffer + Forwarded(chunks))
    ensures ReceiveAll(o, chunks).events == o.events + Frame(o.buffer + Forwarded(chunks)).events
    decreases |chunks|
  {
    if chunks == [] || chunks[0].Failed? {
      assert o.buffer + [] == o.buffer && o.events + [] == o.events;
    } else {
      var bytes, more := chunks[0].bytes, Forwarded(chunks[1..]);
      Assoc3(o.buffer, bytes, more);
      EventsStep(o, bytes, more);
      EventsRun(Receive(o, bytes), chunks[1..]);
    }
  }

  lemma {:induction false} EventsStep(o: Observed, bytes: Bytes, more: Bytes)
    requires EventsFit(o.buffer + bytes + more)
    ensures var next := Receive(o, bytes);
            && FindBoundary(next.buffer).None? && |next.buffer| <= OBSERVER_CAP && EventsFit(next.buffer + more)
            && o.events + Frame(o.buffer + bytes + more).events == next.events + Frame(next.buffer + more).events
  {
    var first := Frame(o.buffer + bytes);
    var second := Frame(first.rest + more);
    FrameInParts(o.buffer + bytes, more);
    FrameConserves(o.buffer + bytes);
    Assoc3(o.events, first.events, second.events);
    RestBeginsEvent(first.rest, more);
    assert forall e :: e in second.events ==> e in Frame(o.buffer + bytes + more).events;
    assert second.events != [] ==> second.events[0] in second.events;
    if |first.rest| > OBSERVER_CAP {
      NoEventBehind(first.rest, more);
    }
  }

  /** What follows a remainder without completing an event has no event of its own. */
  lemma {:induction false} NoEventBehind(rest: Bytes, more: Bytes)
    requires Frame(rest + more).events == []
    ensures Frame([] + more).events == [] && FindBoundary([]).None?
  {
    NoBoundaryIn(rest + more, |rest|, |rest + more|);
    assert (rest + more)[|rest|..|rest + more|] == more && [] + more == more;
  }

  lemma {:induction false} EventsShown(chunks: seq<Chunk>)
    requires EventsFit(Forwarded(chunks))
    ensures ReceiveAll(NOTHING, chunks).events == Frame(Forwarded(chunks)).events
  {
    EmptyFront(Forwarded(chunks));
    EmptyFront(Frame(Forwarded(chunks)).events);
    NothingFollows([], []);
    EventsRun(NOTHING, chunks);
  }

  /** So two chunkings of one response are charged the same; if it fails midway, whatever the size of
  the remainder. */
  lemma {:induction false} SameBytesSameCharge(a: seq<Chunk>, b: seq<Chunk>, observe: Observer)
    requires CleanEnd(a) == CleanEnd(b) && Forwarded(a) == Forwarded(b)
    requires if CleanEnd(a) then FitsButForLast(Forwarded(a)) else EventsFit(Forwarded(a))
    ensures Charges(a, observe) == Charges(b, observe)
  {
    EventsShown(a);
    EventsShown(b);
    if CleanEnd(a) {
      ChunkingDoesNotMatter(a);
      ChunkingDoesNotMatter(b);
    }
  }

  // ---------- and only then ----------

  function Size(o: Observed): nat {
    |Joined(o.events)| + |o.buffer|
  }

  lemma {:induction false} JoinedConcat(a: seq<Bytes>, b: seq<Bytes>)
    ensures Joined(a + b) == Joined(a) + Joined(b)
  {
    if a == [] {
      assert a + b == b;
    } else {
      assert (a + b)[1..] == a[1..] + b;
      JoinedConcat(a[1..], b);
    }
  }

  lemma {:induction false} ReceiveSize(o: Observed, bytes: Bytes)
    ensures Size(Receive(o, bytes)) <= Size(o) + |bytes|
    ensures |Frame(o.buffer + bytes).rest| > OBSERVER_CAP ==> Size(Receive(o, bytes)) < Size(o) + |bytes|
  {
    FrameConserves(o.buffer + bytes);
    JoinedConcat(o.events, Frame(o.buffer + bytes).events);
    assert |Joined(Frame(o.buffer + bytes).events) + Frame(o.buffer + bytes).rest| == |o.buffer| + |bytes|;
  }

  lemma {:induction false} ReceiveAllSize(o: Observed, chunks: seq<Chunk>)
    ensures Size(ReceiveAll(o, chunks)) <= Size(o) + |Forwarded(chunks)|
    decreases |chunks|
  {
    if chunks != [] && chunks[0].Data? {
      ReceiveSize(o, chunks[0].bytes);
      ReceiveAllSize(Receive(o, chunks[0].bytes), chunks[1..]);
    }
  }

  /** A text cut right behind its first separator keeps that separator, and loses it with its last byte. */
  lemma {:induction false} FirstEvent(b: Bytes)
    requires FindBoundary(b).Some?
    ensures var (i, n) := FindBoundary(b).value;
            FindBoundary(b[..i + n]) == Some((i, n)) && FindBoundary(b[..i + n - 1]).None?
  {
    var (i, n) := FindBoundary(b).value;
    var e, p := b[..i + n], b[..i + n - 1];
    assert Boundary(e, i, n);
    assert forall j, m :: Boundary(e, j, m) ==> Boundary(b, j, m);
    assert forall j, m :: Boundary(p, j, m) ==> Boundary(b, j, m);
    assert forall j, m :: Boundary(p, j, m) ==> j < i || j == i;
    assert forall m :: Boundary(p, i, m) ==> m == n;
  }

  lemma {:induction false} FirstEventFrame(e: Bytes)
    requires FindBoundary(e).Some? && FindBoundary(e).value.0 + FindBoundary(e).value.1 == |e|
    ensures Frame(e).rest == [] && Frame(e).events == [e]
  {
    var (i, n) := FindBoundary(e).value;
    assert e[i + n..] == [] && e[..i + n] == e;
    assert FindBoundary([]).None?;
  }

  lemma {:induction false} FitsStep(b: Bytes)
    requires FindBoundary(b).Some?
    ensures var (i, n) := FindBoundary(b).value;
            FitsObserver(b) <==> i + n <= OBSERVER_CAP + 1 && FitsObserver(b[i + n..])
  {
    var (i, n) := FindBoundary(b).value;
    var first, later := b[..i + n], Frame(b[i + n..]).events;
    assert forall e :: e in [first] + later <==> e == first || e in later;
  }

  /** For any other text there is a chunking in which the observer loses bytes. */
  lemma {:induction false} LossyChunking(b: Bytes, o: Observed) returns (chunks: seq<Chunk>)
    requires !FitsObserver(b) && o.buffer == []
    ensures CleanEnd(chunks) && Forwarded(chunks) == b && Size(ReceiveAll(o, chunks)) < Size(o) + |b|
    decreases |b|
  {
    if FindBoundary(b).None? {
      chunks := [Data(b)];
      LongRemainder(b, o);
    } else {
      FitsStep(b);
      if FindBoundary(b).value.0 + FindBoundary(b).value.1 > OBSERVER_CAP + 1 {
        chunks := LongFirstEvent(b, o);
      } else {
        var (i, n) := FindBoundary(b).value;
        var next := WholeEvent(b, o);
        var more := LossyChunking(b[i + n..], next);
        chunks := [Data(b[..i + n])] + more;
        ChunkAhead(o, b[..i + n], more);
      }
    }
  }

  lemma {:induction false} LongRemainder(b: Bytes, o: Observed)
    requires FindBoundary(b).None? && |b| > OBSERVER_CAP && o.buffer == []
    ensures Forwarded([Data(b)]) == b && Size(ReceiveAll(o, [Data(b)])) < Size(o) + |b|
  {
    OneChunk(o, b);
    assert o.buffer + b == b;
    ReceiveSize(o, b);
  }

  /** All but the last byte of a long event overflow the buffer. */
  lemma {:induction false} LongFirstEvent(b: Bytes, o: Observed) returns (chunks: seq<Chunk>)
    requires FindBoundary(b).Some? && FindBoundary(b).value.0 + FindBoundary(b).value.1 > OBSERVER_CAP + 1
    requires o.buffer == []
    ensures CleanEnd(chunks) && Forwarded(chunks) == b && Size(ReceiveAll(o, chunks)) < Size(o) + |b|
  {
    var (i, n) := FindBoundary(b).value;
    var p, q := b[..i + n - 1], b[i + n - 1..];
    FirstEvent(b);
    chunks := [Data(p)] + [Data(q)];
    ChunkAhead(o, p, [Data(q)]);
    OneChunk(Receive(o, p), q);
    Overflow(o, p);
    ReceiveSize(Receive(o, p), q);
  }

  lemma {:induction false} Overflow(o: Observed, p: Bytes)
    requires o.buffer == [] && FindBoundary(p).None? && |p| > OBSERVER_CAP
    ensures Size(Receive(o, p)) < Size(o) + |p|
  {
    assert o.buffer + p == p;
    ReceiveSize(o, p);
  }

  lemma {:induction false} WholeEvent(b: Bytes, o: Observed) returns (next: Observed)
    requires FindBoundary(b).Some? && o.buffer == []
    ensures var (i, n) := FindBoundary(b).value;
            next == Receive(o, b[..i + n]) && next.buffer == [] && Size(next) <= Size(o) + i + n
            && b[..i + n] + b[i + n..] == b
  {
    next := Receive(o, b[..FindBoundary(b).value.0 + FindBoundary(b).value.1]);
    var (i, n) := FindBoundary(b).value;
    var e := b[..i + n];
    FirstEvent(b);
    FirstEventFrame(e);
    assert o.buffer + e == e;
    ReceiveSize(o, e);
  }

  lemma {:induction false} ChunkAhead(o: Observed, b: Bytes, more: seq<Chunk>)
    ensures ReceiveAll(o, [Data(b)] + more) == ReceiveAll(Receive(o, b), more)
    ensures Forwarded([Data(b)] + more) == b + Forwarded(more)
    ensures CleanEnd(more) ==> CleanEnd([Data(b)] + more)
  {
    assert ([Data(b)] + more)[1..] == more;
  }

  lemma {:induction false} OneChunk(o: Observed, b: Bytes)
    ensures ReceiveAll(o, [Data(b)]) == Receive(o, b) && Forwarded([Data(b)]) == b
  {
    assert [Data(b)][1..] == [] && Forwarded([]) == [] && b + [] == b;
  }

  /** Nothing is lost to the observer under any chunking exactly when every event with its
  separator is at most 1 MiB + 1 byte, and the remainder at most 1 MiB. */
  lemma {:induction false} NothingLostExactly(b: Bytes)
    ensures FitsObserver(b) <==>
            forall chunks :: CleanEnd(chunks) && Forwarded(chunks) == b ==>
                               ReceiveAll(NOTHING, chunks) == Observed(Frame(b).rest, Frame(b).events)
  {
    if FitsObserver(b) {
      forall chunks | CleanEnd(chunks) && Forwarded(chunks) == b
        ensures ReceiveAll(NOTHING, chunks) == Observed(Frame(b).rest, Frame(b).events)
      {
        ChunkingDoesNotMatter(chunks);
      }
    } else {
      var chunks := LossyChunking(b, NOTHING);
      FrameConserves(b);
      assert Size(Observed(Frame(b).rest, Frame(b).events)) == |b| by {
        assert |Joined(Frame(b).events) + Frame(b).rest| == |b|;
      }
    }
  }

  // ---------- when chunkings disagree ----------

  /** A separator that does not start a text is there without the text's first byte. */
  lemma {:induction false} BoundaryBehind(x: byte, t: Bytes)
    requires FindBoundary([x] + t).Some? && FindBoundary([x] + t).value.0 > 0
    ensures var (i, n) := FindBoundary([x] + t).value; FindBoundary(t) == Some((i - 1, n))
  {
    var (i, n) := FindBoundary([x] + t).value;
    assert forall j, m :: Boundary(t, j, m) ==> Boundary([x] + t, j + 1, m);
    assert Boundary(t, i - 1, n);
  }

  /** Then both texts are cut into the same number of events. */
  lemma {:induction false} SameCount(x: byte, t: Bytes)
    requires FindBoundary([x] + t).Some? && FindBoundary([x] + t).value.0 > 0
    ensures |Frame([x] + t).events| == |Frame(t).events|
  {
    var (i, n) := FindBoundary([x] + t).value;
    BoundaryBehind(x, t);
    CountStep([x] + t, i, n);
    CountStep(t, i - 1, n);
    DropBehind(x, t, i - 1 + n);
  }

  lemma {:induction false} CountStep(b: Bytes, i: nat, n: nat)
    requires FindBoundary(b) == Some((i, n))
    ensures |Frame(b).events| == 1 + |Frame(b[i + n..]).events|
  {
    FrameStep(b, i, n);
  }

  lemma {:induction false} DropBehind(x: byte, t: Bytes, k: nat)
    requires k <= |t|
    ensures ([x] + t)[k + 1..] == t[k..]
  {}

  /** What follows a long event is not cut, with the event's last byte in front, into that event
  and the events that follow it. */
  lemma {:induction false} LastByteAlone(e: Bytes, x: byte, t: Bytes)
    requires |e| > 4
    ensures Frame([x] + t).events != [e] + Frame(t).events
  {
    var events := Frame([x] + t).events;
    if FindBoundary([x] + t).Some? {
      var (i, n) := FindBoundary([x] + t).value;
      FrameStep([x] + t, i, n);
      if i > 0 {
        SameCount(x, t);
      } else {
        assert |events[0]| <= 4;
      }
    }
  }

  /** Two chunkings of one text that leave the observer with different events or buffers. */
  predicate Disagree(b: Bytes, o: Observed, a: seq<Chunk>, c: seq<Chunk>) {
    && CleanEnd(a) && CleanEnd(c) && Forwarded(a) == b && Forwarded(c) == b
    && ReceiveAll(o, a) != ReceiveAll(o, c)
  }

  lemma {:induction false} DisagreeAhead(b: Bytes, o: Observed, e: Bytes, t: Bytes, a: seq<Chunk>, c: seq<Chunk>)
    requires b == e + t && Disagree(t, Receive(o, e), a, c)
    ensures Disagree(b, o, [Data(e)] + a, [Data(e)] + c)
  {
    ChunkAhead(o, e, a);
    ChunkAhead(o, e, c);
  }

  lemma {:induction false} FitsButStep(b: Bytes)
    requires FindBoundary(b).Some?
    ensures var (i, n) := FindBoundary(b).value;
            FitsButForLast(b) <==> i + n <= OBSERVER_CAP + 1 && FitsButForLast(b[i + n..])
  {
    var (i, n) := FindBoundary(b).value;
    var first, later := b[..i + n], Frame(b[i + n..]).events;
    assert forall e :: e in [first] + later <==> e == first || e in later;
  }

  lemma {:induction false} DisagreeingChunkings(b: Bytes, o: Observed) returns (a: seq<Chunk>, c: seq<Chunk>)
    requires !FitsButForLast(b) && o.buffer == []
    ensures Disagree(b, o, a, c)
    decreases |b|
  {
    if FindBoundary(b).None? {
      a, c := LongRemainderDisagrees(b, o);
    } else {
      FitsButStep(b);
      if FindBoundary(b).value.0 + FindBoundary(b).value.1 > OBSERVER_CAP + 1 {
        a, c := LongEventDisagrees(b, o);
      } else {
        var (i, n) := FindBoundary(b).value;
        var next := WholeEvent(b, o);
        a, c := DisagreeingChunkings(b[i + n..], next);
        DisagreeAhead(b, o, b[..i + n], b[i + n..], a, c);
        a, c := [Data(b[..i + n])] + a, [Data(b[..i + n])] + c;
      }
    }
  }

  /** The last byte of a long remainder stays in the buffer when it comes alone. */
  lemma {:induction false} LongRemainderDisagrees(b: Bytes, o: Observed) returns (a: seq<Chunk>, c: seq<Chunk>)
    requires FindBoundary(b).None? && |b| > OBSERVER_CAP + 1 && o.buffer == []
    ensures Disagree(b, o, a, c)
  {
    var p, q := b[..|b| - 1], b[|b| - 1..];
    a, c := [Data(b)], [Data(p)] + [Data(q)];
    NoBoundaryIn(b, 0, |b| - 1);
    NoBoundaryIn(b, |b| - 1, |b|);
    OneChunk(o, b);
    ChunkAhead(o, p, [Data(q)]);
    OneChunk(Receive(o, p), q);
    EmptyFront(b);
    EmptyFront(p);
    EmptyFront(q);
  }

  lemma {:induction false} NoBoundaryIn(b: Bytes, lo: nat, hi: nat)
    requires lo <= hi <= |b| && FindBoundary(b).None?
    ensures FindBoundary(b[lo..hi]).None?
  {
    assert forall j, m :: Boundary(b[lo..hi], j, m) ==> Boundary(b, lo + j, m);
  }

  /** All but the last byte of a long event are lost when they come first. */
  lemma {:induction false} LongEventDisagrees(b: Bytes, o: Observed) returns (a: seq<Chunk>, c: seq<Chunk>)
    requires FindBoundary(b).Some? && FindBoundary(b).value.0 + FindBoundary(b).value.1 > OBSERVER_CAP + 1
    requires o.buffer == []
    ensures Disagree(b, o, a, c) && ReceiveAll(o, a).events != ReceiveAll(o, c).events
  {
    var (i, n) := FindBoundary(b).value;
    var p, q := b[..i + n - 1], b[i + n - 1..];
    a, c := [Data(b)], [Data(p)] + [Data(q)];
    OneChunk(o, b);
    TwoChunks(o, p, q);
    FirstEvent(b);
    Overflowed(o, p);
    LongEventShown(b, o, i, n);
  }

  lemma {:induction false} TwoChunks(o: Observed, p: Bytes, q: Bytes)
    ensures var c := [Data(p)] + [Data(q)];
            CleanEnd(c) && Forwarded(c) == p + q && ReceiveAll(o, c) == Receive(Receive(o, p), q)
  {
    ChunkAhead(o, p, [Data(q)]);
    OneChunk(Receive(o, p), q);
  }

  lemma {:induction false} Overflowed(o: Observed, p: Bytes)
    requires o.buffer == [] && FindBoundary(p).None? && |p| > OBSERVER_CAP
    ensures Receive(o, p) == Observed([], o.events)
  {
    assert o.buffer + p == p && o.events + [] == o.events;
  }

  lemma {:induction false} ReceiveAfresh(o: Observed, b: Bytes)
    requires o.buffer == []
    ensures Receive(o, b).events == o.events + Frame(b).events
  {
    EmptyFront(b);
  }

  lemma {:induction false} LongEventShown(b: Bytes, o: Observed, i: nat, n: nat)
    requires FindBoundary(b) == Some((i, n)) && o.buffer == [] && i + n > 4
    ensures Receive(o, b).events != Receive(Observed([], o.events), b[i + n - 1..]).events
  {
    var e, x, t := b[..i + n], b[i + n - 1], b[i + n..];
    ReceiveAfresh(o, b);
    ReceiveAfresh(Observed([], o.events), b[i + n - 1..]);
    FrameStep(b, i, n);
    assert b[i + n - 1..] == [x] + t;
    LastByteAlone(e, x, t);
    SameFront(o.events, Frame([x] + t).events, [e] + Frame(t).events);
  }

  lemma {:induction false} SameFront(x: seq<Bytes>, y: seq<Bytes>, z: seq<Bytes>)
    requires y != z
    ensures x + y != x + z
  {
    assert y == (x + y)[|x|..] && z == (x + z)[|x|..];
  }

  /** The observer's view of a response is independent of the chunking exactly when every
  event with its separator, and the remainder, is at most 1 MiB + 1 byte. */
  lemma {:induction false} ChunkingMattersExactly(b: Bytes)
    ensures FitsButForLast(b) <==> forall a, c :: !Disagree(b, NOTHING, a, c)
  {
    if FitsButForLast(b) {
      forall a, c ensures !Disagree(b, NOTHING, a, c) {
        NeverDisagree(b, a, c);
      }
    } else {
      var a, c := DisagreeingChunkings(b, NOTHING);
    }
  }

  lemma {:induction false} NeverDisagree(b: Bytes, a: seq<Chunk>, c: seq<Chunk>)
    requires FitsButForLast(b)
    ensures !Disagree(b, NOTHING, a, c)
  {
    if CleanEnd(a) && CleanEnd(c) && Forwarded(a) == b && Forwarded(c) == b {
      ChunkingDoesNotMatter(a);
      ChunkingDoesNotMatter(c);
    }
  }

  /** Two sequences of chunks, failing or not, that show the observer different events of one text. */
  predicate ShowOtherwise(b: Bytes, o: Observed, a: seq<Chunk>, c: seq<Chunk>) {
    Forwarded(a) == b && Forwarded(c) == b && ReceiveAll(o, a).events != ReceiveAll(o, c).events
  }

  lemma {:induction false} EventsFitStep(b: Bytes)
    requires FindBoundary(b).Some?
    ensures var (i, n) := FindBoundary(b).value;
            EventsFit(b) <==> i + n <= OBSERVER_CAP + 1 && EventsFit(b[i + n..])
  {
    var (i, n) := FindBoundary(b).value;
    var first, later := b[..i + n], Frame(b[i + n..]).events;
    assert forall e :: e in [first] + later <==> e == first || e in later;
  }

  lemma {:induction false} DisagreeingEvents(b: Bytes, o: Observed) returns (a: seq<Chunk>, c: seq<Chunk>)
    requires !EventsFit(b) && o.buffer == []
    ensures ShowOtherwise(b, o, a, c)
    decreases |b|
  {
    EventsFitStep(b);
    if FindBoundary(b).value.0 + FindBoundary(b).value.1 > OBSERVER_CAP + 1 {
      a, c := LongEventDisagrees(b, o);
    } else {
      var (i, n) := FindBoundary(b).value;
      var next := WholeEvent(b, o);
      a, c := DisagreeingEvents(b[i + n..], next);
      ChunkAhead(o, b[..i + n], a);
      ChunkAhead(o, b[..i + n], c);
      a, c := [Data(b[..i + n])] + a, [Data(b[..i + n])] + c;
    }
  }

  /** The events shown, alone, are independent of the chunking and of a failure behind it exactly when
  each is at most 1 MiB + 1 byte with its separator. */
  lemma {:induction false} EventsAgreeExactly(b: Bytes)
    ensures EventsFit(b) <==> forall a, c :: !ShowOtherwise(b, NOTHING, a, c)
  {
    if EventsFit(b) {
      forall a, c ensures !ShowOtherwise(b, NOTHING, a, c) {
        if Forwarded(a) == b && Forwarded(c) == b {
          EventsShown(a);
          EventsShown(c);
        }
      }
    } else {
      var a, c := DisagreeingEvents(b, NOTHING);
    }
  }

  // ---------- the procedure ----------

  lemma {:induction false} EarlierEvents(buffer: Bytes, events: seq<Bytes>, chunks: seq<Chunk>)
    ensures ReceiveAll(Observed(buffer, events), chunks) ==
            (var o := ReceiveAll(Observed(buffer, []), chunks); Observed(o.buffer, events + o.events))
    decreases |chunks|
  {
    if chunks == [] || chunks[0].Failed? {
      assert events + [] == events;
    } else {
      var f := Frame(buffer + chunks[0].bytes);
      EarlierEvents(Capped(f.rest), events + f.events, chunks[1..]);
      EarlierEvents(Capped(f.rest), [] + f.events, chunks[1..]);
      assert [] + f.events == f.events;
      Assoc3(events, f.events, ReceiveAll(Observed(Capped(f.rest), []), chunks[1..]).events);
    }
  }

  /** Buffer and meter at the end of the stream. */
  function LastBuffer(buffer: Bytes, chunks: seq<Chunk>): Bytes {
    ReceiveAll(Observed(buffer, []), chunks).buffer
  }

  function LastMeter(buffer: Bytes, m: Meter, chunks: seq<Chunk>, observe: Observer): Meter {
    ObserveAll(m, ReceiveAll(Observed(buffer, []), chunks).events, observe)
  }

  lemma {:induction false} StreamStep(buffer: Bytes, m: Meter, chunks: seq<Chunk>, observe: Observer)
    requires chunks != [] && chunks[0].Data?
    ensures var f := Frame(buffer + chunks[0].bytes);
            var next := Capped(f.rest);
            LastBuffer(buffer, chunks) == LastBuffer(next, chunks[1..])
            && LastMeter(buffer, m, chunks, observe) ==
               LastMeter(next, ObserveAll(m, f.events, observe), chunks[1..], observe)
  {
    var f := Frame(buffer + chunks[0].bytes);
    assert [] + f.events == f.events;
    EarlierEvents(Capped(f.rest), f.events, chunks[1..]);
    ObserveAllConcat(m, f.events, ReceiveAll(Observed(Capped(f.rest), []), chunks[1..]).events, observe);
  }

  lemma {:induction false} DrainStep(buffer: Bytes, m: Meter, observe: Observer)
    requires FindBoundary(buffer).Some?
    ensures var (i, n) := FindBoundary(buffer).value;
            var next := Observe(m, buffer[..i + n], observe);
            Frame(buffer[i + n..]).rest == Frame(buffer).rest
            && ObserveAll(m, Frame(buffer).events, observe) == ObserveAll(next, Frame(buffer[i + n..]).events, observe)
  {
    var (i, n) := FindBoundary(buffer).value;
    var event, tail := buffer[..i + n], Frame(buffer[i + n..]);
    assert ([event] + tail.events)[1..] == tail.events;
  }

  /** Drains the complete events of the buffer, charging at the first that ends the response. */
  method DrainEvents(buffer0: Bytes, m0: Meter, observe: Observer) returns (buffer: Bytes, m: Meter)
    ensures buffer == Frame(buffer0).rest && m == ObserveAll(m0, Frame(buffer0).events, observe)
  {
    buffer, m := buffer0, m0;
    var found := FindBoundary(buffer);
    while found.Some?
      invariant found == FindBoundary(buffer)
      invariant Frame(buffer).rest == Frame(buffer0).rest
      invariant ObserveAll(m, Frame(buffer).events, observe) == ObserveAll(m0, Frame(buffer0).events, observe)
      decreases |buffer|
    {
      var (index, separator) := found.value;
      var event := buffer[..index + separator];
      DrainStep(buffer, m, observe);
      buffer := buffer[index + separator..];
      var (usage, ends) := observe(event, m.usage);
      var charged := m.charges != [];
      m := Meter(usage, if ends && !charged then [usage] else m.charges);
      found := FindBoundary(buffer);
    }
  }

  /** The loop over the upstream's chunks. */
  method PassOn(chunks: seq<Chunk>, observe: Observer)
    returns (forwarded: Bytes, completed: bool, buffer: Bytes, m: Meter)
    ensures forwarded == Forwarded(chunks) && completed == CleanEnd(chunks)
    ensures buffer == LastBuffer([], chunks) && m == LastMeter([], FRESH, chunks, observe)
  {
    forwarded, completed, buffer, m := [], true, [], FRESH;
    var k := 0;
    while k < |chunks|
      invariant k <= |chunks| && forall i :: 0 <= i < k ==> chunks[i].Data?
      invariant forwarded + Forwarded(chunks[k..]) == Forwarded(chunks)
      invariant LastBuffer(buffer, chunks[k..]) == LastBuffer([], chunks)
      invariant LastMeter(buffer, m, chunks[k..], observe) == LastMeter([], FRESH, chunks, observe)
      invariant completed
    {
      assert chunks[k..][0] == chunks[k] && chunks[k..][1..] == chunks[k + 1..];
      if chunks[k].Failed? {
        completed := false;
        break;
      }
      StreamStep(buffer, m, chunks[k..], observe);
      Assoc3(forwarded, chunks[k].bytes, Forwarded(chunks[k + 1..]));
      buffer, m := DrainEvents(buffer + chunks[k].bytes, m, observe);
      if |buffer| > OBSERVER_CAP {
        buffer := [];
      }
      forwarded := forwarded + chunks[k].bytes;
      k := k + 1;
    }
  }

  /** `gateway_stream_response`: every received byte is passed on, and the usage charged. */
  method GatewayStreamResponse(chunks: seq<Chunk>, observe: Observer)
    returns (forwarded: Bytes, completed: bool, charges: seq<TokenUsage>)
    ensures forwarded == Forwarded(chunks) && completed == CleanEnd(chunks)
    ensures charges == Charges(chunks, observe)
  {
    var buffer, m;
    forwarded, completed, buffer, m := PassOn(chunks, observe);
    charges := m.charges;
    if completed && charges == [] {
      var usage := m.usage;
      if buffer != [] {
        usage := observe(buffer, usage).0;
      }
      charges := [usage];
    }
  }
}
