/** The text operations the compaction code is written with.

A Rust `str` is modelled as its sequence of characters, and positions count
characters. Every pattern searched for is ASCII, so a search finds the same
occurrences either way; `Utf8Len` supplies the byte length where the source
counts bytes. */
module Text {
  import opened Wrappers

  /** `p` stands in `s` at position `i`. */
  predicate At(s: string, p: string, i: int) {
    0 <= i && i + |p| <= |s| && s[i..i + |p|] == p
  }

  lemma {:induction false} AtChars(s: string, p: string, i: int)
    requires At(s, p, i)
    ensures forall k :: i <= k < i + |p| ==> s[k] == p[k - i]
  {
    assert forall k :: i <= k < i + |p| ==> s[k] == s[i..i + |p|][k - i];
  }

  function FindFrom(s: string, p: string, i: nat): (r: Option<nat>)
    ensures r.Some? ==> i <= r.value && At(s, p, r.value) && forall j :: i <= j < r.value ==> !At(s, p, j)
    ensures r.None? ==> forall j :: i <= j ==> !At(s, p, j)
    decreases |s| - i
  {
    if |s| < i + |p| then None else if At(s, p, i) then Some(i) else FindFrom(s, p, i + 1)
  }

  function RFindFrom(s: string, p: string, i: int): (r: Option<nat>)
    requires i + |p| <= |s|
    ensures r.Some? ==> r.value <= i && At(s, p, r.value) && forall j :: r.value < j <= i ==> !At(s, p, j)
    ensures r.None? ==> forall j :: j <= i ==> !At(s, p, j)
    decreases i + 1
  {
    if i < 0 then None else if At(s, p, i) then Some(i) else RFindFrom(s, p, i - 1)
  }

  /** `str::find`: the first occurrence. */
  function Find(s: string, p: string): (r: Option<nat>)
    ensures r.Some? ==> r.value + |p| <= |s| && At(s, p, r.value) && forall j :: 0 <= j < r.value ==> !At(s, p, j)
    ensures r.None? ==> forall j :: !At(s, p, j)
  {
    FindFrom(s, p, 0)
  }

  /** `str::rfind`: the last occurrence. */
  function RFind(s: string, p: string): (r: Option<nat>)
    ensures r.Some? ==> r.value + |p| <= |s| && At(s, p, r.value) && forall j :: r.value < j ==> !At(s, p, j)
    ensures r.None? ==> forall j :: !At(s, p, j)
  {
    RFindFrom(s, p, |s| - |p|)
  }

  predicate Contains(s: string, p: string) {
    exists i | 0 <= i <= |s| :: At(s, p, i)
  }

  lemma {:induction false} AtDrop(s: string, k: nat, p: string)
    requires k <= |s|
    ensures forall j :: k <= j ==> (At(s, p, j) <==> At(s[k..], p, j - k))
  {
    forall j | k <= j
      ensures At(s, p, j) <==> At(s[k..], p, j - k)
    {
      if j + |p| <= |s| {
        assert s[k..][j - k..j - k + |p|] == s[j..j + |p|];
      }
    }
  }

  lemma {:induction false} AtTail(s: string, k: nat, p: string, j: int)
    requires k <= |s| && k <= j
    ensures At(s, p, j) <==> At(s[k..], p, j - k)
  {
    if j + |p| <= |s| {
      assert s[k..][j - k..j - k + |p|] == s[j..j + |p|];
    }
  }

  lemma {:induction false} AtTake(s: string, k: nat, p: string)
    requires k <= |s|
    ensures forall j :: j + |p| <= k ==> (At(s, p, j) <==> At(s[..k], p, j))
  {
    forall j | 0 <= j && j + |p| <= k
      ensures At(s, p, j) <==> At(s[..k], p, j)
    {
      assert s[..k][j..j + |p|] == s[j..j + |p|];
    }
  }

  /** A part of a text contains only patterns the whole contains. */
  lemma {:induction false} ContainsSlice(s: string, lo: nat, hi: nat, p: string)
    requires lo <= hi <= |s|
    ensures Contains(s[lo..hi], p) ==> Contains(s, p)
  {
    if Contains(s[lo..hi], p) {
      var i :| 0 <= i <= hi - lo && At(s[lo..hi], p, i);
      AtTake(s, hi, p);
      AtTail(s[..hi], lo, p, lo + i);
      assert At(s, p, lo + i);
    }
  }

  /** The occurrence that `Find` reports is the only one with nothing before it. */
  lemma {:induction false} FindIs(s: string, p: string, i: nat)
    requires At(s, p, i)
    requires forall j :: 0 <= j < i ==> !At(s, p, j)
    ensures Find(s, p) == Some(i)
  {}

  /** The character that starts `y` cannot continue an occurrence of `t`. */
  predicate Breaks(y: string, t: string) {
    y != "" ==> forall k :: 1 <= k < |t| ==> t[k] != y[0]
  }

  /** Then an occurrence in `x + y` lies in `x` or in `y`. */
  lemma {:induction false} AtJoin(x: string, y: string, t: string, j: int)
    requires Breaks(y, t)
    ensures if j < |x| then At(x + y, t, j) ==> At(x, t, j) else At(x + y, t, j) <==> At(y, t, j - |x|)
    ensures At(x, t, j) ==> At(x + y, t, j)
  {
    AtDrop(x + y, |x|, t);
    AtTake(x + y, |x|, t);
    assert (x + y)[|x|..] == y && (x + y)[..|x|] == x;
    if j < |x| && At(x + y, t, j) {
      AtChars(x + y, t, j);
      assert y != "" ==> (x + y)[|x|] == y[0];
    }
  }

  lemma {:induction false} ContainsJoin(x: string, y: string, t: string)
    requires Breaks(y, t)
    ensures Contains(x + y, t) <==> Contains(x, t) || Contains(y, t)
  {
    forall j
      ensures At(x + y, t, j) ==> At(x, t, j) || At(y, t, j - |x|)
      ensures At(x, t, j) ==> At(x + y, t, j)
    {
      AtJoin(x, y, t, j);
    }
    if Contains(y, t) {
      var i :| 0 <= i <= |y| && At(y, t, i);
      AtJoin(x, y, t, |x| + i);
    }
  }

  lemma {:induction false} Assoc3<T>(a: seq<T>, b: seq<T>, c: seq<T>)
    ensures a + (b + c) == a + b + c
  {}

  lemma {:induction false} EmptyFront<T>(s: seq<T>)
    ensures [] + s == s
  {}

  lemma {:induction false} AppendNothing(s: string)
    ensures s + "" == s
  {}

  // ---------- white space ----------

  /** The Unicode `White_Space` property, as `char::is_whitespace`. */
  predicate IsWhitespace(c: char) {
    var n := c as int;
    9 <= n <= 13 || n == 0x20 || n == 0x85 || n == 0xA0 || n == 0x1680 || 0x2000 <= n <= 0x200A
    || n == 0x2028 || n == 0x2029 || n == 0x202F || n == 0x205F || n == 0x3000
  }

  predicate Blank(s: string) {
    forall i :: 0 <= i < |s| ==> IsWhitespace(s[i])
  }

  predicate Trimmed(s: string) {
    s != "" ==> !IsWhitespace(s[0]) && !IsWhitespace(s[|s| - 1])
  }

  /** `str::trim_start`: drops the longest blank prefix. */
  function TrimStart(s: string): (r: string)
    ensures |r| <= |s|
  {
    if s != "" && IsWhitespace(s[0]) then TrimStart(s[1..]) else s
  }

  /** `str::trim_end`: drops the longest blank suffix. */
  function TrimEnd(s: string): (r: string)
    ensures |r| <= |s|
  {
    if s != "" && IsWhitespace(s[|s| - 1]) then TrimEnd(s[..|s| - 1]) else s
  }

  function Trim(s: string): (r: string)
    ensures |r| <= |s|
  {
    TrimEnd(TrimStart(s))
  }

  lemma {:induction false} TrimStartCuts(s: string)
    ensures var r := TrimStart(s); r == s[|s| - |r|..] && Blank(s[..|s| - |r|]) && (r != "" ==> !IsWhitespace(r[0]))
  {
    if s != "" && IsWhitespace(s[0]) {
      var k := |s| - |TrimStart(s)|;
      TrimStartCuts(s[1..]);
      assert s[1..][k - 1..] == s[k..] && s[..k] == [s[0]] + s[1..][..k - 1];
    }
  }

  lemma {:induction false} TrimEndCuts(s: string)
    ensures var r := TrimEnd(s); r == s[..|r|] && Blank(s[|r|..]) && (r != "" ==> !IsWhitespace(r[|r| - 1]))
  {
    if s != "" && IsWhitespace(s[|s| - 1]) {
      var n, k := |s| - 1, |TrimEnd(s)|;
      TrimEndCuts(s[..n]);
      assert s[..n][..k] == s[..k] && s[k..] == s[..n][k..] + [s[n]];
    }
  }

  /** Trimming cuts a blank margin off either end and nothing else. */
  lemma {:induction false} TrimCuts(s: string) returns (lo: nat, hi: nat)
    ensures lo <= hi <= |s| && Trim(s) == s[lo..hi] && Blank(s[..lo]) && Blank(s[hi..]) && Trimmed(Trim(s))
  {
    lo := |s| - |TrimStart(s)|;
    hi := lo + |Trim(s)|;
    TrimStartCuts(s);
    TrimEndCuts(TrimStart(s));
    CutTwice(s, lo, |Trim(s)|);
  }

  lemma {:induction false} CutTwice(s: string, lo: nat, n: nat)
    requires lo + n <= |s|
    ensures s[lo..][..n] == s[lo..lo + n] && s[lo..][n..] == s[lo + n..]
  {}

  lemma {:induction false} TrimStartOf(before: string, s: string)
    requires Blank(before) && (s != "" ==> !IsWhitespace(s[0]))
    ensures TrimStart(before + s) == s
  {
    if before == "" {
      assert before + s == s;
    } else {
      assert (before + s)[1..] == before[1..] + s;
      TrimStartOf(before[1..], s);
    }
  }

  lemma {:induction false} TrimEndOf(s: string, after: string)
    requires Blank(after) && (s != "" ==> !IsWhitespace(s[|s| - 1]))
    ensures TrimEnd(s + after) == s
  {
    if after == "" {
      assert s + after == s;
    } else {
      var n := |after| - 1;
      assert (s + after)[..|s| + n] == s + after[..n];
      TrimEndOf(s, after[..n]);
    }
  }

  /** A trimmed text between blank margins is what trimming returns. */
  lemma {:induction false} TrimOf(before: string, s: string, after: string)
    requires Trimmed(s) && Blank(before) && Blank(after)
    ensures Trim(before + s + after) == s
  {
    if s == "" {
      var t := before + s + after;
      assert t == t + "" && Blank(t);
      TrimStartOf(t, "");
    } else {
      assert before + s + after == before + (s + after);
      TrimStartOf(before, s + after);
      TrimEndOf(s, after);
    }
  }

  lemma {:induction false} TrimAfter(before: string, s: string)
    requires Trimmed(s) && Blank(before)
    ensures Trim(before + s) == s
  {
    TrimOf(before, s, "");
    assert before + s + "" == before + s;
  }

  /** Blank margins make no difference to what trimming returns. */
  lemma {:induction false} TrimMargins(before: string, s: string, after: string)
    requires Blank(before) && Blank(after)
    ensures Trim(before + s + after) == Trim(s)
  {
    var lo, hi := TrimCuts(s);
    BlankJoin(before, s[..lo]);
    BlankJoin(s[hi..], after);
    TrimOf(before + s[..lo], s[lo..hi], s[hi..] + after);
    CutInThree(before, s, after, lo, hi);
  }

  lemma {:induction false} BlankJoin(a: string, b: string)
    requires Blank(a) && Blank(b)
    ensures Blank(a + b)
  {}

  lemma {:induction false} CutInThree(before: string, s: string, after: string, lo: nat, hi: nat)
    requires lo <= hi <= |s|
    ensures before + s + after == (before + s[..lo]) + s[lo..hi] + (s[hi..] + after)
  {
    assert s == s[..lo] + s[lo..hi] + s[hi..];
  }

  lemma {:induction false} TrimTrimmed(s: string)
    requires Trimmed(s)
    ensures Trim(s) == s
  {
    TrimOf("", s, "");
    assert "" + s + "" == s;
  }

  lemma {:induction false} TrimContains(s: string, p: string)
    ensures Contains(Trim(s), p) ==> Contains(s, p)
  {
    var lo, hi := TrimCuts(s);
    ContainsSlice(s, lo, hi, p);
  }

  // ---------- removal and replacement ----------

  function Without(s: string, lo: nat, hi: nat): (r: string)
    requires lo <= hi <= |s|
    ensures |r| == |s| - (hi - lo)
  {
    s[..lo] + s[hi..]
  }

  /** `str::replace`: every occurrence, left to right, none overlapping. */
  function Replace(s: string, p: string, r: string): string
    requires p != ""
  {
    if s == "" then ""
    else if At(s, p, 0) then r + Replace(s[|p|..], p, r)
    else [s[0]] + Replace(s[1..], p, r)
  }

  lemma {:induction false} ReplaceAbsent(s: string, p: string, r: string)
    requires p != "" && !Contains(s, p)
    ensures Replace(s, p, r) == s
  {
    if s != "" {
      ContainsSlice(s, 1, |s|, p);
      assert s[1..|s|] == s[1..];
      ReplaceAbsent(s[1..], p, r);
    }
  }

  /** Replacing by something shorter shortens any text that has an occurrence. */
  lemma {:induction false} ReplaceShortens(s: string, p: string, r: string)
    requires p != "" && |r| < |p|
    ensures |Replace(s, p, r)| <= |s|
    ensures Contains(s, p) ==> |Replace(s, p, r)| < |s|
  {
    if s == "" {
    } else if At(s, p, 0) {
      ReplaceShortens(s[|p|..], p, r);
    } else {
      AtDrop(s, 1, p);
      ReplaceShortens(s[1..], p, r);
    }
  }

  // ---------- byte lengths ----------

  /** Bytes of the UTF-8 encoding of one character. */
  function CharBytes(c: char): (n: nat)
    ensures 1 <= n <= 4
  {
    var v := c as int;
    if v < 0x80 then 1 else if v < 0x800 then 2 else if v < 0x10000 then 3 else 4
  }

  /** `str::len`. */
  function Utf8Len(s: string): (n: nat)
    ensures |s| <= n
  {
    if s == "" then 0 else CharBytes(s[0]) + Utf8Len(s[1..])
  }

  lemma {:induction false} Utf8LenConcat(a: string, b: string)
    ensures Utf8Len(a + b) == Utf8Len(a) + Utf8Len(b)
  {
    if a == "" {
      assert a + b == b;
    } else {
      assert (a + b)[1..] == a[1..] + b;
      Utf8LenConcat(a[1..], b);
    }
  }

  lemma {:induction false} Utf8LenOfThree(a: string, b: string, c: string)
    ensures Utf8Len(a + b + c) == Utf8Len(a) + Utf8Len(b) + Utf8Len(c)
  {
    Utf8LenConcat(a, b);
    Utf8LenConcat(a + b, c);
  }
}
