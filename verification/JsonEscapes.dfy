/** Reading back an escaped JSON text (section 7 of RFC 8259). */
module JsonEscapes {
  import opened Wrappers
  import opened Text
  import opened JsonSize

  function HexValue(c: char): Option<nat> {
    if '0' <= c <= '9' then Some((c - '0') as nat)
    else if 'a' <= c <= 'f' then Some((c - 'a') as nat + 10)
    else if 'A' <= c <= 'F' then Some((c - 'A') as nat + 10)
    else None
  }

  /** What stands behind a backslash, other than a code. */
  function Short(c: char): Option<char> {
    match c
    case '"' => Some('"')
    case '\\' => Some('\\')
    case '/' => Some('/')
    case 'b' => Some(8 as char)
    case 'f' => Some(12 as char)
    case 'n' => Some('\n')
    case 'r' => Some('\r')
    case 't' => Some('\t')
    case _ => None
  }

  /** The character that four hexadecimal digits stand for, unless it is half of a pair. */
  function Coded(a: char, b: char, c: char, d: char): Option<char> {
    match (HexValue(a), HexValue(b), HexValue(c), HexValue(d))
    case (Some(p), Some(q), Some(r), Some(s)) =>
      var n := ((p * 16 + q) * 16 + r) * 16 + s;
      if n < 0xD800 || 0xE000 <= n < 0x10000 then Some(n as char) else None
    case _ => None
  }

  /** The first character of an escaped text, and how many it takes. */
  function FirstChar(s: string): Option<(char, nat)>
    requires s != ""
  {
    if s[0] == '\\' then
      if |s| >= 6 && s[1] == 'u' then
        (match Coded(s[2], s[3], s[4], s[5]) case Some(c) => Some((c, 6)) case None => None)
      else if |s| >= 2 then
        (match Short(s[1]) case Some(c) => Some((c, 2)) case None => None)
      else None
    else if s[0] == '"' || s[0] as int < 0x20 then None
    else Some((s[0], 1))
  }

  /** The text that an escaped text stands for; none if a quote, a control character or a bad escape is in it. */
  function Unescaped(s: string): Option<string>
    decreases |s|
  {
    if s == "" then Some("")
    else
      match FirstChar(s)
      case None => None
      case Some((c, n)) =>
        if n > |s| || n == 0 then None
        else
          match Unescaped(s[n..])
          case None => None
          case Some(rest) => Some([c] + rest)
  }

  lemma {:induction false} HexReads(d: nat)
    requires d < 16
    ensures HexValue(HexDigit(d)) == Some(d)
  {}

  lemma {:induction false} CharReads(c: char, rest: string)
    ensures FirstChar(EscapeChar(c) + rest) == Some((c, |EscapeChar(c)|))
  {
    if c as int < 0x20 {
      HexReads(c as int / 16);
      HexReads(c as int % 16);
    }
  }

  lemma {:induction false} ReadAhead(c: char, rest: string)
    ensures var first := EscapeChar(c);
            first != [] && (first + rest)[|first|..] == rest
  {}

  /** Escaping loses nothing, and leaves no bare quote or control character: every text is read back. */
  lemma {:induction false} EscapedReadsBack(s: string)
    ensures Unescaped(Escaped(s)) == Some(s)
  {
    if s != "" {
      CharReads(s[0], Escaped(s[1..]));
      ReadAhead(s[0], Escaped(s[1..]));
      EscapedReadsBack(s[1..]);
      assert s == [s[0]] + s[1..];
    }
  }

  /** A data URL in base64 is cut at its first comma, and no other URL is cut. */
  lemma {:induction false} DataUrlsAreCut(header: string, tail: string, url: string)
    ensures ',' !in header && "data:" <= header && At(header, ";base64", |header| - 7) && url == header + "," + tail ==>
              Base64Split(url) == Some((header, tail))
    ensures Base64Split(url) == Some((header, tail)) ==>
              ',' !in header && "data:" <= header && At(header, ";base64", |header| - 7) && url == header + "," + tail
  {
    if ',' !in header && url == header + "," + tail {
      CommaFirst(header, tail);
      assert url[..|header|] == header && url[|header| + 1..] == tail;
    }
    if Base64Split(url) == Some((header, tail)) {
      var i := Find(url, ",").value;
      CommaAt(url, i);
      assert url == url[..i] + "," + url[i + 1..];
    }
  }

  lemma {:induction false} CommaFirst(header: string, tail: string)
    requires ',' !in header
    ensures Find(header + "," + tail, ",") == Some(|header|)
  {
    var url := header + "," + tail;
    assert url[|header|..|header| + 1] == ",";
    forall j | 0 <= j < |header|
      ensures !At(url, ",", j)
    {
      assert url[j] == header[j] && header[j] in header;
      assert url[j..j + 1] == [url[j]];
    }
    FindIs(url, ",", |header|);
  }

  lemma {:induction false} CommaAt(url: string, i: nat)
    requires Find(url, ",") == Some(i)
    ensures i < |url| && url[i] == ',' && ',' !in url[..i]
  {
    assert At(url, ",", i) && url[i..i + 1][0] == url[i];
    forall j | 0 <= j < i
      ensures url[j] != ','
    {
      assert !At(url, ",", j) && url[j..j + 1] == [url[j]];
    }
  }
}
