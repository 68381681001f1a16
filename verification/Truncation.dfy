/** Cutting a text to a byte budget
(crates/codegen/xai-chat-state/src/compaction_utils.rs, `truncate_text_to_bytes`). */
module Truncation {
  import opened Wrappers
  import opened Text

  const MARKER_RESERVE := 64
  const MARKER_START := "\n[... truncated "
  const MARKER_END := " bytes to fit the compaction window ...]"

  // ---------- numbers in decimal ----------

  function Digit(d: nat): char
    requires d < 10
  {
    '0' + d as char
  }

  function Decimal(n: nat): (s: string)
    ensures s != ""
  {
    if n < 10 then [Digit(n)] else Decimal(n / 10) + [Digit(n % 10)]
  }

  /** The number a text of digits stands for. */
  function ReadDecimal(s: string): int {
    if s == "" then 0 else 10 * ReadDecimal(s[..|s| - 1]) + (s[|s| - 1] as int - '0' as int)
  }

  function Pow10(k: nat): nat {
    if k == 0 then 1 else 10 * Pow10(k - 1)
  }

  lemma {:induction false} DecimalReads(n: nat)
    ensures ReadDecimal(Decimal(n)) == n
    ensures forall k :: 0 <= k < |Decimal(n)| ==> '0' <= Decimal(n)[k] <= '9'
  {
    if n >= 10 {
      DecimalReads(n / 10);
      assert Decimal(n)[..|Decimal(n)| - 1] == Decimal(n / 10);
    } else {
      assert [Digit(n)][..0] == "";
    }
  }

  lemma {:induction false} DecimalLength(n: nat, k: nat)
    requires k > 0
    ensures |Decimal(n)| <= k <==> n < Pow10(k)
  {
    if n < 10 {
      Pow10AtLeast(k);
    } else if k == 1 {
    } else {
      DecimalLength(n / 10, k - 1);
    }
  }

  lemma {:induction false} Pow10AtLeast(k: nat)
    requires k > 0
    ensures Pow10(k) >= 10
  {
    if k > 1 { Pow10AtLeast(k - 1); }
  }

  // ---------- byte positions ----------

  /** `str::is_char_boundary`: some characters make up exactly the first `n` bytes. */
  predicate IsCharBoundary(s: string, n: int) {
    n == 0 || (s != "" && CharBytes(s[0]) <= n && IsCharBoundary(s[1..], n - CharBytes(s[0])))
  }

  /** How many characters fit whole into the first `n` bytes. */
  function CharsWithin(s: string, n: nat): (k: nat)
    ensures k <= |s|
  {
    if s == "" || CharBytes(s[0]) > n then 0 else 1 + CharsWithin(s[1..], n - CharBytes(s[0]))
  }

  /** They end at the last character boundary up to `n`. */
  lemma {:induction false} LastBoundary(s: string, n: nat)
    ensures var b := Utf8Len(s[..CharsWithin(s, n)]);
            b <= n && IsCharBoundary(s, b) && forall e :: b < e <= n ==> !IsCharBoundary(s, e)
  {
    var k := CharsWithin(s, n);
    if k > 0 {
      var c := CharBytes(s[0]);
      LastBoundary(s[1..], n - c);
      assert s[..k][1..] == s[1..][..k - 1];
      var b := Utf8Len(s[..k]);
      forall e | b < e <= n
        ensures !IsCharBoundary(s, e)
      {
        assert !IsCharBoundary(s[1..], e - c);
      }
    }
  }

  lemma {:induction false} BoundaryExact(s: string, n: nat)
    requires IsCharBoundary(s, n)
    ensures Utf8Len(s[..CharsWithin(s, n)]) == n
  {
    LastBoundary(s, n);
  }

  lemma {:induction false} AsciiLen(s: string)
    requires IsAscii(s)
    ensures Utf8Len(s) == |s|
  {
    if s != "" { AsciiLen(s[1..]); }
  }

  // ---------- truncation ----------

  function Marker(dropped: nat): string {
    MARKER_START + Decimal(dropped) + MARKER_END
  }

  function Reserved(maxBytes: nat): nat {
    if maxBytes < MARKER_RESERVE then 0 else maxBytes - MARKER_RESERVE
  }

  function Min(a: nat, b: nat): nat { if a <= b then a else b }

  function Max(a: nat, b: nat): nat { if a <= b then b else a }

  /** The characters that are kept of a text that does not fit. */
  function Kept(s: string, maxBytes: nat): string {
    s[..CharsWithin(s, Min(Reserved(maxBytes), Utf8Len(s)))]
  }

  /** `None` when the text fits, else the kept characters and a marker. */
  function Truncated(s: string, maxBytes: nat): Option<string> {
    if Utf8Len(s) <= maxBytes then None
    else Some(Kept(s, maxBytes) + Marker(Dropped(s, maxBytes)))
  }

  function Dropped(s: string, maxBytes: nat): nat {
    KeptLen(s, maxBytes);
    Utf8Len(s) - Utf8Len(Kept(s, maxBytes))
  }

  lemma {:induction false} KeptLen(s: string, maxBytes: nat)
    ensures Utf8Len(Kept(s, maxBytes)) <= Min(Reserved(maxBytes), Utf8Len(s))
  {
    LastBoundary(s, Min(Reserved(maxBytes), Utf8Len(s)));
  }

  predicate IsAscii(s: string) {
    forall k :: 0 <= k < |s| ==> s[k] as int < 0x80
  }

  lemma {:induction false} MarkerIsAscii()
    ensures IsAscii(MARKER_START) && |MARKER_START| == 16
    ensures IsAscii(MARKER_END) && |MARKER_END| == 40
  {}

  lemma {:induction false} MarkerLen(dropped: nat)
    ensures Utf8Len(Marker(dropped)) == 56 + |Decimal(dropped)|
  {
    DecimalReads(dropped);
    AsciiLen(Decimal(dropped));
    MarkerIsAscii();
    AsciiLen(MARKER_START);
    AsciiLen(MARKER_END);
    Utf8LenOfThree(MARKER_START, Decimal(dropped), MARKER_END);
  }

  /** A truncated text is a prefix of the text, whole characters only and as many as the
  reserve allows, with a marker whose number is the bytes dropped; it is within the larger of
  the budget and 64 bytes exactly when the number leaves room, as any below 10^8 does. */
  lemma {:induction false} TruncationBound(s: string, maxBytes: nat)
    requires Utf8Len(s) > maxBytes
    ensures var r, kept, dropped := Truncated(s, maxBytes).value, Kept(s, maxBytes), Dropped(s, maxBytes);
            && r == kept + Marker(dropped) && kept <= s && ReadDecimal(Decimal(dropped)) == dropped
            && Utf8Len(kept) + dropped == Utf8Len(s)
            && (forall e :: Utf8Len(kept) < e <= Reserved(maxBytes) ==> !IsCharBoundary(s, e))
            && (Utf8Len(r) <= Max(maxBytes, 64) <==> |Decimal(dropped)| <= 8 + (Reserved(maxBytes) - Utf8Len(kept)))
            && (Utf8Len(s) < 100_000_000 ==> Utf8Len(r) <= Max(maxBytes, 64))
  {
    var kept, dropped := Kept(s, maxBytes), Dropped(s, maxBytes);
    KeptLen(s, maxBytes);
    LastBoundary(s, Reserved(maxBytes));
    MarkerLen(dropped);
    Utf8LenConcat(kept, Marker(dropped));
    DecimalReads(dropped);
    assert Pow10(8) == 100_000_000;
    DecimalLength(dropped, 8);
  }

  /** `truncate_text_to_bytes`, with the source's search for a boundary. */
  method TruncateTextToBytes(s: string, maxBytes: nat) returns (r: Option<string>)
    ensures r == Truncated(s, maxBytes)
  {
    var len := Utf8Len(s);
    if len <= maxBytes {
      return None;
    }
    var keep := Reserved(maxBytes);
    var end := Min(keep, len);
    LastBoundary(s, end);
    ghost var last := Utf8Len(s[..CharsWithin(s, end)]);
    while end > 0 && !IsCharBoundary(s, end)
      invariant last <= end <= Min(keep, len)
    {
      end := end - 1;
    }
    KeptIs(s, maxBytes, end);
    var kept := s[..CharsWithin(s, end)];
    r := Some(kept + Marker(len - end));
  }

  lemma {:induction false} KeptIs(s: string, maxBytes: nat, end: nat)
    requires end == Utf8Len(Kept(s, maxBytes))
    ensures s[..CharsWithin(s, end)] == Kept(s, maxBytes)
  {
    var n := Min(Reserved(maxBytes), Utf8Len(s));
    LastBoundary(s, n);
    BoundaryExact(s, end);
    SamePrefix(s, CharsWithin(s, end), CharsWithin(s, n));
  }

  lemma {:induction false} SamePrefix(s: string, j: nat, k: nat)
    requires j <= |s| && k <= |s| && Utf8Len(s[..j]) == Utf8Len(s[..k])
    ensures j == k
  {
    if j > 0 && k > 0 {
      assert s[..j][1..] == s[1..][..j - 1] && s[..k][1..] == s[1..][..k - 1];
      SamePrefix(s[1..], j - 1, k - 1);
    }
  }
}
