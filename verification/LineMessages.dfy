/** What is sent of a source before an error (crates/codegen/xai-acp-lib/src/line_reader.rs). */
module LineMessages {
  import opened Wrappers
  import opened LineReader

  /** The line that starts at `i` exceeds the cap. */
  predicate LongAt(b: Bytes, i: int) {
    0 <= i && i + MAX_LINE_SIZE < |b| && NoNewline(b[i..i + MAX_LINE_SIZE])
  }

  /** One line: no line feed but at its end, and at most as long as the cap. */
  predicate IsOneLine(line: Bytes) {
    line != [] && |line| <= MAX_LINE_SIZE && NoNewline(line[..|line| - 1])
  }

  /** How far the lines reach that are sent: to the first line that exceeds the cap, else to the unfinished line of
  a failing source, else to the end. */
  predicate ReachesTo(b: Bytes, fails: bool, i: int) {
    && 0 <= i <= |b| && (StartsLine(b, i) || i == |b|)
    && (forall j :: 0 <= j < i && StartsLine(b, j) ==> !LongAt(b, j))
    && (LongAt(b, i) || if fails then StartsLine(b, i) && NoNewline(b[i..]) else i == |b|)
  }

  /** What stands behind the lines that are sent. */
  function Ending(b: Bytes, fails: bool, i: int): seq<Message> {
    if LongAt(b, i) then [TooLong] else if fails then [IoError] else []
  }

  lemma {:induction false} LongAtShift(b: Bytes, n: nat, j: nat)
    requires n <= |b|
    ensures LongAt(b[n..], j) <==> LongAt(b, n + j)
    ensures n > 0 && b[n - 1] == LF ==> (StartsLine(b[n..], j) <==> j <= |b| - n && StartsLine(b, n + j))
  {
    if n + j + MAX_LINE_SIZE < |b| {
      assert b[n..][j..j + MAX_LINE_SIZE] == b[n + j..n + j + MAX_LINE_SIZE];
    }
  }

  lemma {:induction false} FirstLineLong(b: Bytes)
    ensures LongAt(b, 0) <==> LineLen(b) > MAX_LINE_SIZE
  {
    LongFirstLine(b);
  }

  lemma {:induction false} ReachBehind(b: Bytes, fails: bool, n: nat, i: nat)
    requires n == LineLen(b) <= MAX_LINE_SIZE && b != [] && (fails ==> Complete(b[..n]))
    requires ReachesTo(b[n..], fails, i)
    ensures ReachesTo(b, fails, n + i) && Ending(b, fails, n + i) == Ending(b[n..], fails, i)
  {
    FirstLineLong(b);
    LongAtShift(b, n, i);
    forall j | 0 <= j < n + i && StartsLine(b, j)
      ensures !LongAt(b, j)
    {
      if j >= n { LongAtShift(b, n, j - n); }
    }
    assert b[n..][i..] == b[n + i..];
  }

  /** Lines, each as one message, and `ending`. */
  predicate SentAs(m: seq<Message>, ending: seq<Message>) {
    exists k | 0 <= k <= |m| :: m[k..] == ending && AreLines(m[..k])
  }

  predicate AreLines(m: seq<Message>) {
    forall k :: 0 <= k < |m| ==> m[k].Line? && IsOneLine(m[k].bytes)
  }

  lemma {:induction false} OneMoreLine(line: Bytes, rest: seq<Message>, ending: seq<Message>)
    requires SentAs(rest, ending) && IsOneLine(line)
    ensures SentAs([Line(line)] + rest, ending)
  {
    var k :| 0 <= k <= |rest| && rest[k..] == ending && AreLines(rest[..k]);
    var m := [Line(line)] + rest;
    assert m[..k + 1] == [Line(line)] + rest[..k] && m[k + 1..] == ending;
  }

  predicate Covers(b: Bytes, fails: bool, m: seq<Message>) {
    var i := |Joined(m)|;
    i <= |b| && Joined(m) == b[..i] && ReachesTo(b, fails, i) && SentAs(m, Ending(b, fails, i))
  }

  /** The messages are the lines up to where they reach, and an error when one is due there. */
  lemma {:induction false} LinesReach(b: Bytes, fails: bool)
    ensures var m := Messages(b, fails);
            var i := |Joined(m)|;
            i <= |b| && Joined(m) == b[..i] && ReachesTo(b, fails, i) && SentAs(m, Ending(b, fails, i))
    ensures Covers(b, fails, Messages(b, fails))
    decreases |b|
  {
    var n := LineLen(b);
    if n > MAX_LINE_SIZE || (fails && !Complete(b[..n])) || b == [] {
      NothingSent(b, fails);
    } else {
      LinesReach(b[n..], fails);
      LineCovers(b, fails, Messages(b[n..], fails));
    }
  }

  lemma {:induction false} FirstIsLine(b: Bytes)
    requires b != [] && LineLen(b) <= MAX_LINE_SIZE
    ensures IsOneLine(b[..LineLen(b)])
  {
    assert forall k :: 0 <= k < LineLen(b) - 1 ==> b[..LineLen(b)][..LineLen(b) - 1][k] == b[k];
  }

  lemma {:induction false} LineCovers(b: Bytes, fails: bool, rest: seq<Message>)
    requires var n := LineLen(b);
             b != [] && n <= MAX_LINE_SIZE && (fails ==> Complete(b[..n])) && Covers(b[n..], fails, rest)
    ensures Covers(b, fails, [Line(b[..LineLen(b)])] + rest)
  {
    var n, i := LineLen(b), |Joined(rest)|;
    ReachBehind(b, fails, n, i);
    FirstIsLine(b);
    CoversAhead(b, fails, n, rest);
  }

  lemma {:induction false} CoversAhead(b: Bytes, fails: bool, n: nat, rest: seq<Message>)
    requires n <= |b| && |Joined(rest)| <= |b| - n && Joined(rest) == b[n..][..|Joined(rest)|]
    requires IsOneLine(b[..n])
    requires var i := |Joined(rest)|;
             SentAs(rest, Ending(b, fails, n + i)) && ReachesTo(b, fails, n + i)
    ensures Covers(b, fails, [Line(b[..n])] + rest)
  {
    JoinedReach(b, n, rest);
    OneMoreLine(b[..n], rest, Ending(b, fails, n + |Joined(rest)|));
  }

  lemma {:induction false} JoinedReach(b: Bytes, n: nat, rest: seq<Message>)
    requires n <= |b| && |Joined(rest)| <= |b| - n && Joined(rest) == b[n..][..|Joined(rest)|]
    ensures var joined := Joined([Line(b[..n])] + rest);
            |joined| == n + |Joined(rest)| && joined == b[..n + |Joined(rest)|]
  {
    LineAhead(b, n, rest);
    CutTwice(b, n, |Joined(rest)|);
  }

  lemma {:induction false} CutTwice(b: Bytes, n: nat, i: nat)
    requires n + i <= |b|
    ensures b[..n] + b[n..][..i] == b[..n + i]
  {}

  lemma {:induction false} NothingSent(b: Bytes, fails: bool)
    requires var n := LineLen(b); n > MAX_LINE_SIZE || (fails && !Complete(b[..n])) || b == []
    ensures var m := Messages(b, fails);
            Joined(m) == [] && b[..0] == [] && ReachesTo(b, fails, 0) && SentAs(m, Ending(b, fails, 0))
  {
    FirstLineLong(b);
    assert b[0..] == b;
    var m := Messages(b, fails);
    assert m[0..] == m && m[..0] == [];
  }
}
