/** Serving a byte stream line by line (crates/codegen/xai-acp-lib/src/line_reader.rs). */
module LineReader {
  import opened Wrappers
  import T = Text

  const LF: byte := 10
  const MAX_LINE_SIZE: nat := 64 * 1024 * 1024

  // ---------- lines ----------

  /** The length of the first line, its line feed included. */
  function LineLen(b: Bytes): (n: nat)
    ensures n <= |b| && (b != [] ==> n > 0)
    ensures forall k :: 0 <= k < n - 1 ==> b[k] != LF
    ensures n < |b| ==> b[n - 1] == LF
  {
    if b == [] then 0 else if b[0] == LF then 1 else 1 + LineLen(b[1..])
  }

  lemma {:induction false} LineLenIs(b: Bytes, n: nat)
    requires n <= |b| && forall k :: 0 <= k < n ==> b[k] != LF
    ensures n == |b| ==> LineLen(b) == |b|
    ensures n < |b| && b[n] == LF ==> LineLen(b) == n + 1
    ensures LineLen(b) >= n
  {}

  predicate Complete(line: Bytes) {
    line != [] && line[|line| - 1] == LF
  }

  /** What the reader task sends. */
  datatype Message = Line(bytes: Bytes) | TooLong | IoError

  /** The messages for a source of these bytes, that then ends or fails. */
  function Messages(b: Bytes, fails: bool): seq<Message>
    decreases |b|
  {
    var n := LineLen(b);
    if n > MAX_LINE_SIZE then [TooLong]
    else if fails && !Complete(b[..n]) then [IoError]
    else if b == [] then []
    else [Line(b[..n])] + Messages(b[n..], fails)
  }

  function Joined(messages: seq<Message>): Bytes {
    if messages == [] || !messages[0].Line? then [] else messages[0].bytes + Joined(messages[1..])
  }

  // ---------- the source ----------

  /** One read of the source: some bytes, its end if there are none, or an error. */
  datatype Read = Data(bytes: Bytes) | Broken

  function SourceBytes(input: seq<Read>): Bytes {
    if input == [] || input[0].Broken? || input[0].bytes == [] then []
    else input[0].bytes + SourceBytes(input[1..])
  }

  predicate Breaks(input: seq<Read>) {
    input != [] && (input[0].Broken? || (input[0].bytes != [] && Breaks(input[1..])))
  }

  class BufReader {
    var available: Bytes
    var input: seq<Read>

    constructor (input: seq<Read>)
      ensures Left() == SourceBytes(input) && this.input == input
    {
      this.available, this.input := [], input;
    }

    /** Everything still to be read. */
    function Left(): Bytes
      reads this
    {
      available + SourceBytes(input)
    }

    /** The buffered bytes, or the next read's. */
    method FillBuf() returns (ok: bool)
      modifies this
      ensures Left() == old(Left()) && Breaks(input) == Breaks(old(input))
      ensures ok && available == [] ==> Left() == [] && !Breaks(input)
      ensures !ok ==> Left() == [] && Breaks(input)
    {
      if available != [] || input == [] {
        return true;
      }
      match input[0]
      case Broken => return false;
      case Data(bytes) =>
        if bytes != [] {
          available, input := bytes, input[1..];
        }
        return true;
    }
  }

  datatype Outcome = Got | Exceeded | Failed

  /** `position` of the first line feed. */
  method FindNewline(b: Bytes) returns (at: nat)
    ensures at <= |b| && (forall k :: 0 <= k < at ==> b[k] != LF) && (at < |b| ==> b[at] == LF)
  {
    at := 0;
    while at < |b| && b[at] != LF
      invariant at <= |b| && forall k :: 0 <= k < at ==> b[k] != LF
    {
      at := at + 1;
    }
  }

  lemma {:induction false} MoreOfLine(buf: Bytes, available: Bytes, rest: Bytes, at: nat)
    requires forall k :: 0 <= k < |buf| ==> buf[k] != LF
    requires at <= |available| && (forall k :: 0 <= k < at ==> available[k] != LF)
             && (at < |available| ==> available[at] == LF)
    ensures var whole := buf + available + rest;
            if at < |available| then LineLen(whole) == |buf| + at + 1 && Complete(buf + available[..at + 1])
            else LineLen(whole) >= |buf| + |available|
  {
    var whole := buf + available + rest;
    assert forall k :: 0 <= k < |buf| ==> whole[k] == buf[k];
    assert forall k :: 0 <= k < |available| ==> whole[|buf| + k] == available[k];
    LineLenIs(whole, |buf| + at);
  }

  predicate NoNewline(b: Bytes) {
    forall k :: 0 <= k < |b| ==> b[k] != LF
  }

  /** Appends the buffered bytes, as far as they belong to the line. */
  method TakePart(reader: BufReader, buf0: Bytes) returns (buf: Bytes, done: bool)
    requires NoNewline(buf0) && reader.available != []
    modifies reader`available
    ensures buf + reader.Left() == buf0 + old(reader.Left()) && |buf| > |buf0|
    ensures var n := LineLen(buf0 + old(reader.Left()));
            if done then n == |buf| && Complete(buf) else n >= |buf| && NoNewline(buf)
  {
    var at := FindNewline(reader.available);
    done := at < |reader.available|;
    var consumed := if done then at + 1 else at;
    PartTaken(buf0, reader.available, SourceBytes(reader.input), at);
    CutAndJoin(buf0, reader.available, SourceBytes(reader.input), consumed);
    buf := buf0 + reader.available[..consumed];
    reader.available := reader.available[consumed..];
  }

  lemma {:induction false} CutAndJoin(buf: Bytes, available: Bytes, rest: Bytes, k: nat)
    requires k <= |available|
    ensures (buf + available[..k]) + (available[k..] + rest) == buf + (available + rest)
  {
    assert available == available[..k] + available[k..];
  }

  lemma {:induction false} PartTaken(buf: Bytes, available: Bytes, rest: Bytes, at: nat)
    requires NoNewline(buf) && at <= |available| && (forall k :: 0 <= k < at ==> available[k] != LF)
    requires at < |available| ==> available[at] == LF
    ensures var taken := buf + available[..if at < |available| then at + 1 else at];
            var n := LineLen(buf + (available + rest));
            if at < |available| then n == |taken| && Complete(taken) else n >= |taken| && NoNewline(taken)
  {
    MoreOfLine(buf, available, rest, at);
    T.Assoc3(buf, available, rest);
  }

  /** A text without a line feed is one incomplete line. */
  lemma {:induction false} LastLine(b: Bytes)
    requires NoNewline(b)
    ensures LineLen(b) == |b| && b[..|b|] == b && b[|b|..] == [] && !Complete(b)
  {
    LineLenIs(b, |b|);
  }

  /** `read_line_capped`: the first line, the cap checked after each fill. */
  method ReadLineCapped(reader: BufReader) returns (outcome: Outcome, buf: Bytes)
    modifies reader
    ensures Breaks(reader.input) == Breaks(old(reader.input))
    ensures EndsAs(old(reader.Left()), Breaks(old(reader.input)), outcome)
    ensures outcome == Got ==> buf == FirstLine(old(reader.Left())) && buf + reader.Left() == old(reader.Left())
  {
    buf := [];
    ghost var b := reader.Left();
    while true
      invariant buf + reader.Left() == b && Breaks(reader.input) == Breaks(old(reader.input))
      invariant |buf| <= MAX_LINE_SIZE && NoNewline(buf)
      decreases |reader.Left()|
    {
      var ok := reader.FillBuf();
      if !ok || reader.available == [] {
        assert buf == b;
        LastLine(b);
        return if ok then Got else Failed, buf;
      }
      var done;
      buf, done := TakePart(reader, buf);
      if |buf| > MAX_LINE_SIZE {
        return Exceeded, buf;
      }
      if done {
        assert b[..|buf|] == buf;
        return Got, buf;
      }
    }
  }

  function FirstLine(b: Bytes): Bytes {
    b[..LineLen(b)]
  }

  /** How reading the first line ends. */
  predicate EndsAs(b: Bytes, fails: bool, outcome: Outcome) {
    match outcome
    case Exceeded => LineLen(b) > MAX_LINE_SIZE
    case Failed => LineLen(b) <= MAX_LINE_SIZE && !Complete(FirstLine(b)) && fails
    case Got => LineLen(b) <= MAX_LINE_SIZE && (Complete(FirstLine(b)) || !fails)
  }

  lemma {:induction false} NextMessage(b: Bytes, fails: bool, outcome: Outcome, line: Bytes, rest: Bytes)
    requires EndsAs(b, fails, outcome) && (outcome == Got ==> line == FirstLine(b) && line + rest == b)
    ensures Messages(b, fails) ==
            match outcome
            case Exceeded => [TooLong]
            case Failed => [IoError]
            case Got => if line == [] then [] else [Line(line)] + Messages(rest, fails)
  {
    if outcome == Got { assert b[LineLen(b)..] == rest; }
  }

  /** The reader task: whatever the chunks, the messages are those of the source's bytes. */
  method ReaderTask(reader: BufReader) returns (sent: seq<Message>)
    modifies reader
    ensures sent == Messages(old(reader.Left()), Breaks(old(reader.input)))
  {
    sent := [];
    ghost var all := Messages(reader.Left(), Breaks(reader.input));
    while true
      invariant Breaks(reader.input) == Breaks(old(reader.input))
      invariant sent + Messages(reader.Left(), Breaks(reader.input)) == all
      decreases |reader.Left()|
    {
      ghost var b := reader.Left();
      var outcome, line := ReadLineCapped(reader);
      NextMessage(b, Breaks(reader.input), outcome, line, reader.Left());
      match outcome {
        case Got =>
          if line == [] {
            return;
          }
          T.Assoc3(sent, [Line(line)], Messages(reader.Left(), Breaks(reader.input)));
          sent := sent + [Line(line)];
        case Exceeded => return sent + [TooLong];
        case Failed => return sent + [IoError];
      }
    }
  }

  // ---------- what is sent ----------

  /** Some line is longer than the cap: one byte more than the cap, none but the last a line feed. */
  ghost predicate HasLongLine(b: Bytes) {
    exists i :: StartsLine(b, i) && i + MAX_LINE_SIZE < |b| && NoNewline(b[i..i + MAX_LINE_SIZE])
  }

  predicate StartsLine(b: Bytes, i: int) {
    0 <= i <= |b| && (i == 0 || b[i - 1] == LF)
  }

  lemma {:induction false} LongFirstLine(b: Bytes)
    ensures LineLen(b) > MAX_LINE_SIZE <==> |b| > MAX_LINE_SIZE && NoNewline(b[0..MAX_LINE_SIZE])
  {
    if |b| > MAX_LINE_SIZE && NoNewline(b[0..MAX_LINE_SIZE]) {
      assert forall k :: 0 <= k < MAX_LINE_SIZE ==> b[k] == b[0..MAX_LINE_SIZE][k];
      LineLenIs(b, MAX_LINE_SIZE);
    }
  }

  lemma {:induction false} LongLineAhead(b: Bytes, n: nat, i: nat)
    requires n <= |b| && (n == 0 || b[n - 1] == LF)
    requires StartsLine(b[n..], i) && i + MAX_LINE_SIZE < |b| - n && NoNewline(b[n..][i..i + MAX_LINE_SIZE])
    ensures HasLongLine(b)
  {
    assert b[n + i..n + i + MAX_LINE_SIZE] == b[n..][i..i + MAX_LINE_SIZE];
    assert StartsLine(b, n + i);
  }

  lemma {:induction false} LongLineBehind(b: Bytes, n: nat, i: nat)
    requires n <= i && StartsLine(b, i) && i + MAX_LINE_SIZE < |b| && NoNewline(b[i..i + MAX_LINE_SIZE])
    ensures HasLongLine(b[n..])
  {
    assert b[i..i + MAX_LINE_SIZE] == b[n..][i - n..i - n + MAX_LINE_SIZE];
    assert StartsLine(b[n..], i - n);
  }

  /** The long line is the first or behind it. */
  lemma {:induction false} LongLineStep(b: Bytes)
    ensures HasLongLine(b) <==> LineLen(b) > MAX_LINE_SIZE || HasLongLine(b[LineLen(b)..])
  {
    var n := LineLen(b);
    LongFirstLine(b);
    if HasLongLine(b) {
      var i :| StartsLine(b, i) && i + MAX_LINE_SIZE < |b| && NoNewline(b[i..i + MAX_LINE_SIZE]);
      if i > 0 { LongLineBehind(b, n, i); }
    }
    if n > MAX_LINE_SIZE {
      assert StartsLine(b, 0);
    }
    if HasLongLine(b[n..]) {
      var i :| StartsLine(b[n..], i) && i + MAX_LINE_SIZE < |b[n..]| && NoNewline(b[n..][i..i + MAX_LINE_SIZE]);
      LongLineAhead(b, n, i);
    }
  }

  /** The task sends the source's lines in order: all of them when no line exceeds the cap and
  the source does not fail; an over-long line is reported exactly when there is one, and a
  failure of the source exactly when there is none before it. */
  lemma {:induction false} MessagesAre(b: Bytes, fails: bool)
    ensures var m := Messages(b, fails);
            && (TooLong in m <==> HasLongLine(b))
            && (IoError in m <==> fails && !HasLongLine(b))
            && Joined(m) <= b && (!fails && !HasLongLine(b) ==> Joined(m) == b)
    decreases |b|
  {
    var n := LineLen(b);
    LongLineStep(b);
    if n <= MAX_LINE_SIZE && !(fails && !Complete(b[..n])) && b != [] {
      MessagesAre(b[n..], fails);
      LineAhead(b, n, Messages(b[n..], fails));
    }
  }

  lemma {:induction false} LineAhead(b: Bytes, n: nat, rest: seq<Message>)
    requires n <= |b|
    ensures Joined([Line(b[..n])] + rest) == b[..n] + Joined(rest)
    ensures Joined(rest) <= b[n..] ==> b[..n] + Joined(rest) <= b
    ensures Joined(rest) == b[n..] ==> b[..n] + Joined(rest) == b
  {
    assert ([Line(b[..n])] + rest)[1..] == rest;
  }
}
