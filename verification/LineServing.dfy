/** `LineBufferedRead::poll_read` (crates/codegen/xai-acp-lib/src/line_reader.rs): serving the
reader task's messages into buffers of any size. The channel is the sequence of messages still to
be received; whether the next one, or the end, has arrived is up to each call. */
module LineServing {
  import opened Wrappers
  import opened LineReader

  datatype Poll = Pending | Ready(bytes: Bytes) | Error(e: Message)

  /** The unserved rest of the current line, and the messages to come. */
  datatype Serving = Serving(rest: Bytes, rx: seq<Message>)

  function Min(a: nat, b: nat): nat {
    if a < b then a else b
  }

  function Served(line: Bytes, rx: seq<Message>, room: nat): (Serving, Poll) {
    var n := Min(|line|, room);
    (Serving(line[n..], rx), Ready(line[..n]))
  }

  function Polled(s: Serving, room: nat, arrived: bool): (Serving, Poll) {
    if s.rest != [] then Served(s.rest, s.rx, room)
    else if !arrived then (s, Pending)
    else if s.rx == [] then (s, Ready([]))
    else if s.rx[0].Line? then Served(s.rx[0].bytes, s.rx[1..], room)
    else (Serving([], s.rx[1..]), Error(s.rx[0]))
  }

  class LineBufferedRead {
    var buf: Bytes
    var pos: nat
    var rx: seq<Message>

    predicate Valid()
      reads this
    {
      pos < |buf| || (pos == 0 && buf == [])
    }

    function Value(): Serving
      reads this
      requires Valid()
    {
      Serving(buf[pos..], rx)
    }

    constructor (messages: seq<Message>)
      ensures Valid() && Value() == Serving([], messages)
    {
      buf, pos, rx := [], 0, messages;
    }

    method PollRead(room: nat, arrived: bool) returns (poll: Poll)
      requires Valid()
      modifies this
      ensures Valid() && (Value(), poll) == Polled(old(Value()), room, arrived)
    {
      if pos < |buf| {
        var n := Min(|buf| - pos, room);
        poll := Ready(buf[pos..pos + n]);
        assert buf[pos..pos + n] == buf[pos..][..n] && buf[pos + n..] == buf[pos..][n..];
        pos := pos + n;
        if pos >= |buf| {
          buf, pos := [], 0;
        }
        return;
      }
      if !arrived {
        return Pending;
      }
      if rx == [] {
        return Ready([]);
      }
      var message := rx[0];
      rx := rx[1..];
      if !message.Line? {
        return Error(message);
      }
      var line := message.bytes;
      var n := Min(|line|, room);
      if n < |line| {
        buf, pos := line, n;
      } else {
        assert line[n..] == [];
      }
      return Ready(line[..n]);
    }
  }

  /** The task sends no empty line. */
  predicate Sendable(messages: seq<Message>) {
    forall k :: 0 <= k < |messages| && messages[k].Line? ==> messages[k].bytes != []
  }

  // ---------- over every run of polls ----------

  /** A call: the room in the caller's buffer, and whether something has arrived. */
  datatype Call = Call(room: nat, arrived: bool)

  function After(start: Serving, calls: seq<Call>): Serving {
    if calls == [] then start
    else Polled(After(start, calls[..|calls| - 1]), calls[|calls| - 1].room, calls[|calls| - 1].arrived).0
  }

  function LastPoll(start: Serving, calls: seq<Call>): Poll
    requires calls != []
  {
    Polled(After(start, calls[..|calls| - 1]), calls[|calls| - 1].room, calls[|calls| - 1].arrived).1
  }

  function BytesOf(p: Poll): Bytes {
    match p case Ready(bytes) => bytes case _ => []
  }

  /** All bytes the calls have returned. */
  function Delivered(start: Serving, calls: seq<Call>): Bytes {
    if calls == [] then [] else Delivered(start, calls[..|calls| - 1]) + BytesOf(LastPoll(start, calls))
  }

  /** The bytes of the messages, errors passed over. */
  function AllBytes(messages: seq<Message>): Bytes {
    if messages == [] then []
    else AllBytes(messages[..|messages| - 1]) + if messages[|messages| - 1].Line? then messages[|messages| - 1].bytes
         else []
  }

  predicate OnlyLines(messages: seq<Message>) {
    forall m :: m in messages ==> m.Line?
  }

  /** None of the calls returned an error. */
  predicate NoError(start: Serving, calls: seq<Call>) {
    calls == [] || (NoError(start, calls[..|calls| - 1]) && !LastPoll(start, calls).Error?)
  }

  /** `taken` of the messages have been received, and delivered but for the rest of the last. */
  predicate Accounts(messages: seq<Message>, s: Serving, delivered: Bytes, taken: nat) {
    taken <= |messages| && s.rx == messages[taken..] && delivered + s.rest == AllBytes(messages[..taken])
  }

  lemma {:induction false} ServedConserves(line: Bytes, rx: seq<Message>, delivered: Bytes, room: nat)
    ensures var (s, p) := Served(line, rx, room);
            p.Ready? && delivered + p.bytes + s.rest == delivered + line && s.rx == rx
  {}

  lemma {:induction false} PollAccounts(
    messages: seq<Message>, s: Serving, delivered: Bytes, taken: nat, c: Call) returns (now: nat)
    requires Accounts(messages, s, delivered, taken)
    ensures var (next, p) := Polled(s, c.room, c.arrived);
            Accounts(messages, next, delivered + BytesOf(p), now)
    ensures var (next, p) := Polled(s, c.room, c.arrived);
            p.Error? ==> taken < |messages| && p.e == messages[taken]
    ensures !Polled(s, c.room, c.arrived).1.Error? && OnlyLines(messages[..taken]) ==> OnlyLines(messages[..now])
  {
    now := taken;
    if s.rest != [] {
      ServedConserves(s.rest, s.rx, delivered, c.room);
    } else if c.arrived && s.rx != [] {
      now := taken + 1;
      TakeNext(messages, taken);
      if s.rx[0].Line? {
        ServedConserves(s.rx[0].bytes, s.rx[1..], delivered, c.room);
      }
    }
  }

  lemma {:induction false} TakeNext(messages: seq<Message>, taken: nat)
    requires taken < |messages|
    ensures messages[taken..][0] == messages[taken] && messages[taken..][1..] == messages[taken + 1..]
    ensures AllBytes(messages[..taken + 1]) ==
            AllBytes(messages[..taken]) + if messages[taken].Line? then messages[taken].bytes else []
    ensures OnlyLines(messages[..taken]) && messages[taken].Line? ==> OnlyLines(messages[..taken + 1])
  {
    assert messages[..taken + 1][..taken] == messages[..taken];
  }

  lemma {:induction false} RunAccounts(messages: seq<Message>, calls: seq<Call>) returns (taken: nat)
    ensures var start := Serving([], messages);
            Accounts(messages, After(start, calls), Delivered(start, calls), taken)
    ensures NoError(Serving([], messages), calls) ==> OnlyLines(messages[..taken])
    decreases |calls|
  {
    if calls == [] {
      taken := 0;
    } else {
      var front := RunAccounts(messages, calls[..|calls| - 1]);
      var start := Serving([], messages);
      taken := PollAccounts(
        messages, After(start, calls[..|calls| - 1]), Delivered(start, calls[..|calls| - 1]), front,
        calls[|calls| - 1]);
    }
  }

  // ---------- the reader over a source ----------

  lemma {:induction false} JoinedIsAllBytes(messages: seq<Message>)
    requires forall k :: 0 <= k < |messages| - 1 ==> messages[k].Line?
    ensures Joined(messages) == AllBytes(messages)
  {
    if messages != [] {
      var n := |messages| - 1;
      JoinedIsAllBytes(messages[..n]);
      JoinedLast(messages[..n], messages[n]);
      assert messages == messages[..n] + [messages[n]];
    }
  }

  lemma {:induction false} JoinedLast(messages: seq<Message>, m: Message)
    requires forall k :: 0 <= k < |messages| ==> messages[k].Line?
    ensures Joined(messages + [m]) == Joined(messages) + if m.Line? then m.bytes else []
  {
    if messages == [] {
      assert [] + [m] == [m] && [m][1..] == [];
    } else {
      assert (messages + [m])[1..] == messages[1..] + [m];
      JoinedLast(messages[1..], m);
    }
  }

  /** Only the last message is an error or an unfinished line. */
  predicate Orderly(m: seq<Message>) {
    forall k :: 0 <= k < |m| ==> (m[k].Line? ==> m[k].bytes != [])
                                 && (k < |m| - 1 ==> m[k].Line? && Complete(m[k].bytes))
  }

  lemma {:induction false} MessagesOrderly(b: Bytes, fails: bool)
    ensures Orderly(Messages(b, fails))
    decreases |b|
  {
    var n := LineLen(b);
    if n <= MAX_LINE_SIZE && !(fails && !Complete(b[..n])) && b != [] {
      MessagesOrderly(b[n..], fails);
      if n == |b| { assert b[n..] == []; }
    }
  }

  lemma {:induction false} PrefixBytes(messages: seq<Message>, k: nat)
    requires k <= |messages|
    ensures AllBytes(messages[..k]) <= AllBytes(messages)
    decreases |messages|
  {
    if k < |messages| {
      var n := |messages| - 1;
      assert messages[..n][..k] == messages[..k];
      PrefixBytes(messages[..n], k);
    } else {
      assert messages[..k] == messages;
    }
  }

  /** Ends between lines. */
  predicate AtBoundary(delivered: Bytes) {
    delivered == [] || delivered[|delivered| - 1] == LF
  }

  lemma {:induction false} TakenAtBoundary(messages: seq<Message>, taken: nat)
    requires Orderly(messages) && taken <= |messages|
    ensures taken < |messages| ==> AtBoundary(AllBytes(messages[..taken]))
    ensures taken == |messages| && taken > 0 && !messages[taken - 1].Line? ==> AtBoundary(AllBytes(messages[..taken]))
  {
    if taken > 0 {
      assert messages[..taken][..taken - 1] == messages[..taken - 1];
      TakenAtBoundary(messages, taken - 1);
    }
  }

  /** However a source is cut into reads, whatever the callers' buffers, and whenever messages
  arrive: the bytes returned are a prefix of the source's, with nothing lost or repeated. */
  lemma {:induction false} DeliversPrefix(b: Bytes, fails: bool, calls: seq<Call>)
    ensures Delivered(Serving([], Messages(b, fails)), calls) <= b
  {
    var messages := Messages(b, fails);
    var taken := RunAccounts(messages, calls);
    MessagesOrderly(b, fails);
    MessagesAre(b, fails);
    JoinedIsAllBytes(messages);
    PrefixBytes(messages, taken);
  }

  /** `Pending` is returned only when the bytes so far end a line, or are the whole source. */
  lemma {:induction false} PendingBetweenLines(b: Bytes, fails: bool, calls: seq<Call>)
    requires calls != []
    ensures var start := Serving([], Messages(b, fails));
            LastPoll(start, calls).Pending? ==>
              AtBoundary(Delivered(start, calls)) || (Delivered(start, calls) == b && !fails && !HasLongLine(b))
  {
    if LastPoll(Serving([], Messages(b, fails)), calls).Pending? {
      var taken := PendingAt(Messages(b, fails), calls);
      BoundaryOrAll(b, fails, taken);
    }
  }

  /** `Pending` is returned when whole messages have been delivered. */
  lemma {:induction false} PendingAt(messages: seq<Message>, calls: seq<Call>) returns (taken: nat)
    requires calls != [] && LastPoll(Serving([], messages), calls).Pending?
    ensures taken <= |messages| && Delivered(Serving([], messages), calls) == AllBytes(messages[..taken])
  {
    var front := Delivered(Serving([], messages), calls[..|calls| - 1]);
    taken := RunAccounts(messages, calls[..|calls| - 1]);
    assert front + [] == front;
  }

  lemma {:induction false} BoundaryOrAll(b: Bytes, fails: bool, taken: nat)
    requires taken <= |Messages(b, fails)|
    ensures var delivered := AllBytes(Messages(b, fails)[..taken]);
            AtBoundary(delivered) || (delivered == b && !fails && !HasLongLine(b))
  {
    var messages := Messages(b, fails);
    MessagesOrderly(b, fails);
    TakenAtBoundary(messages, taken);
    if taken == |messages| && taken > 0 && messages[taken - 1].Line? {
      AllLines(messages);
      MessagesAre(b, fails);
      JoinedIsAllBytes(messages);
      assert messages[..taken] == messages;
    }
  }

  lemma {:induction false} AllLines(messages: seq<Message>)
    requires Orderly(messages) && messages != [] && messages[|messages| - 1].Line?
    ensures TooLong !in messages && IoError !in messages
  {}

  lemma {:induction false} EndIsEnd(s: Serving, c: Call)
    requires c.room > 0 && Sendable(s.rx) && Polled(s, c.room, c.arrived).1 == Ready([])
    ensures s.rest == [] && s.rx == []
  {}

  /** A reader that is told the end (nothing, into a buffer with room) without an error before has
  been given the whole source, whose lines are within the cap and which did not fail; so every
  error that is due is reported before the end. */
  lemma {:induction false} EndMeansAll(b: Bytes, fails: bool, calls: seq<Call>)
    requires calls != [] && calls[|calls| - 1].room > 0
    requires NoError(Serving([], Messages(b, fails)), calls)
    requires LastPoll(Serving([], Messages(b, fails)), calls) == Ready([])
    ensures Delivered(Serving([], Messages(b, fails)), calls) == b && !fails && !HasLongLine(b)
  {
    var messages := Messages(b, fails);
    var start := Serving([], messages);
    var front := calls[..|calls| - 1];
    var taken := RunAccounts(messages, front);
    MessagesOrderly(b, fails);
    EndIsEnd(After(start, front), calls[|calls| - 1]);
    AllTaken(messages, After(start, front), Delivered(start, front), taken);
    MessagesAre(b, fails);
    JoinedIsAllBytes(messages);
    assert Delivered(start, front) + [] == Delivered(start, front);
  }

  lemma {:induction false} AllTaken(messages: seq<Message>, s: Serving, delivered: Bytes, taken: nat)
    requires Accounts(messages, s, delivered, taken) && s.rest == [] && s.rx == []
    ensures delivered == AllBytes(messages)
    ensures OnlyLines(messages[..taken]) ==> TooLong !in messages && IoError !in messages
  {
    assert messages[..taken] == messages;
  }

  /** An error is returned only for a line over the cap or a source that fails. */
  lemma {:induction false} ErrorsAreReal(b: Bytes, fails: bool, calls: seq<Call>)
    requires calls != []
    ensures var p := LastPoll(Serving([], Messages(b, fails)), calls);
            p.Error? ==> (p.e == TooLong && HasLongLine(b)) || (p.e == IoError && fails && !HasLongLine(b))
  {
    var messages := Messages(b, fails);
    var start := Serving([], messages);
    var front, c := calls[..|calls| - 1], calls[|calls| - 1];
    var taken := RunAccounts(messages, front);
    MessagesAre(b, fails);
    var now := PollAccounts(messages, After(start, front), Delivered(start, front), taken, c);
    var p := LastPoll(start, calls);
    if p.Error? {
      assert p.e in messages && !p.e.Line?;
    }
  }
}
