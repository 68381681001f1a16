/** A reader that keeps asking gets all that is sent (crates/codegen/xai-acp-lib/src/line_reader.rs). */
module LineProgress {
  import opened Wrappers
  import opened LineReader
  import opened LineServing

  /** What is still to come: each byte counts, and each error as one. */
  function Weight(rx: seq<Message>): nat {
    if rx == [] then 0 else (if rx[0].Line? then |rx[0].bytes| else 1) + Weight(rx[1..])
  }

  function Ahead(s: Serving): nat {
    |s.rest| + Weight(s.rx)
  }

  lemma {:induction false} NothingAhead(rx: seq<Message>)
    requires Sendable(rx)
    ensures Weight(rx) == 0 <==> rx == []
  {}

  /** Once there is something to read, a call is answered: with bytes, as many as fit of the line at hand, with an
  error, or with the end, and the end only when nothing is ahead. */
  lemma {:induction false} PollProgresses(s: Serving, room: nat, arrived: bool)
    requires room > 0 && Sendable(s.rx) && (s.rest != [] || arrived)
    ensures var (next, p) := Polled(s, room, arrived);
            && !p.Pending? && Sendable(next.rx)
            && (Ahead(s) == 0 ==> p == Ready([]) && next == s)
            && (Ahead(s) > 0 ==> Ahead(next) < Ahead(s) && p != Ready([]))
            && (p.Ready? ==> Ahead(s) == |p.bytes| + Ahead(next) && |p.bytes| <= room)
            && (p.Ready? && |p.bytes| < room ==> next.rest == [])
  {
    NothingAhead(s.rx);
    if s.rx != [] {
      assert forall k :: 0 <= k < |s.rx| - 1 ==> s.rx[1..][k] == s.rx[k + 1];
    }
  }

  predicate Eager(calls: seq<Call>) {
    forall c :: c in calls ==> c.room > 0 && c.arrived
  }

  lemma {:induction false} EagerRun(messages: seq<Message>, calls: seq<Call>)
    requires Sendable(messages) && Eager(calls)
    ensures var s := After(Serving([], messages), calls);
            Sendable(s.rx) && (|calls| >= Weight(messages) ==> Ahead(s) == 0) && Ahead(s) <= Weight(messages)
            && (|calls| <= Weight(messages) ==> Ahead(s) + |calls| <= Weight(messages))
    decreases |calls|
  {
    if calls != [] {
      var front, c := calls[..|calls| - 1], calls[|calls| - 1];
      assert c in calls && forall x :: x in front ==> x in calls;
      EagerRun(messages, front);
      PollProgresses(After(Serving([], messages), front), c.room, c.arrived);
    }
  }

  lemma {:induction false} WeightOfLine(line: Bytes, rest: seq<Message>)
    ensures Weight([Line(line)] + rest) == |line| + Weight(rest)
  {
    assert ([Line(line)] + rest)[1..] == rest;
  }

  lemma {:induction false} MessagesWeight(b: Bytes, fails: bool)
    ensures Weight(Messages(b, fails)) <= |b| + 1
    decreases |b|
  {
    var n := LineLen(b);
    if n > MAX_LINE_SIZE {
      assert [TooLong][1..] == [];
    } else if fails && !Complete(b[..n]) {
      assert [IoError][1..] == [];
    } else if b != [] {
      MessagesWeight(b[n..], fails);
      WeightOfLine(b[..n], Messages(b[n..], fails));
    }
  }

  /** A reader that asks with some room, each time something has arrived, has after two calls more than the source
  has bytes got every line that was sent and is told the end. */
  lemma {:induction false} EagerReaderGetsAll(b: Bytes, fails: bool, calls: seq<Call>)
    requires Eager(calls) && |calls| >= |b| + 2
    ensures var start := Serving([], Messages(b, fails));
            && LastPoll(start, calls) == Ready([])
            && Delivered(start, calls) == Joined(Messages(b, fails))
            && (!fails && !HasLongLine(b) ==> Delivered(start, calls) == b)
  {
    var messages := Messages(b, fails);
    var front, c := calls[..|calls| - 1], calls[|calls| - 1];
    var s := After(Serving([], messages), front);
    MessagesOrderly(b, fails);
    MessagesWeight(b, fails);
    assert c in calls && forall x :: x in front ==> x in calls;
    EagerRun(messages, front);
    PollProgresses(s, c.room, c.arrived);
    NothingAhead(s.rx);
    var taken := RunAccounts(messages, calls);
    AllTaken(messages, s, Delivered(Serving([], messages), calls), taken);
    JoinedIsAllBytes(messages);
    MessagesAre(b, fails);
  }
}
