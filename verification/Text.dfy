/**
 * The text primitives the line parsers use, on UTF-8 bytes: validity, white
 * space trimming, unsigned decimal parsing and printing, splitting.
 */
module Text {
  import opened Prelude

  const LF: byte := 10
  const CR: byte := 13
  const COMMA: byte := 44
  const COLON: byte := 58
  const PLUS: byte := 43

  predicate Continuation(b: byte) {
    0x80 <= b <= 0xBF
  }

  /** Length of the well-formed UTF-8 character at the front of `s`, 0 if there is none. */
  function CharLen(s: bytes): (n: nat)
    ensures n <= |s| && n <= 4
  {
    if s == [] then 0
    else if s[0] < 0x80 then 1
    else if |s| < 2 || !Continuation(s[1]) then 0
    else if 0xC2 <= s[0] <= 0xDF then 2
    else if |s| < 3 || !Continuation(s[2]) then 0
    else if s[0] == 0xE0 then (if s[1] >= 0xA0 then 3 else 0)
    else if s[0] == 0xED then (if s[1] <= 0x9F then 3 else 0)
    else if 0xE1 <= s[0] <= 0xEF then 3
    else if |s| < 4 || !Continuation(s[3]) then 0
    else if s[0] == 0xF0 then (if s[1] >= 0x90 then 4 else 0)
    else if 0xF1 <= s[0] <= 0xF3 then 4
    else if s[0] == 0xF4 then (if s[1] <= 0x8F then 4 else 0)
    else 0
  }

  predicate ValidUtf8(s: bytes) {
    s == [] || (CharLen(s) > 0 && ValidUtf8(s[CharLen(s)..]))
  }

  lemma {:induction false} Utf8Append(a: bytes, b: bytes)
    requires ValidUtf8(a)
    ensures ValidUtf8(a + b) == ValidUtf8(b)
    decreases |a|
  {
    if a == [] {
      assert a + b == b;
    } else {
      var n := CharLen(a);
      assert CharLen(a + b) == n;
      assert (a + b)[n..] == a[n..] + b;
      Utf8Append(a[n..], b);
    }
  }

  predicate Ascii(s: bytes) {
    forall b :: b in s ==> b < 0x80
  }

  lemma {:induction false} AsciiIsUtf8(s: bytes)
    requires Ascii(s)
    ensures ValidUtf8(s)
  {
    if s != [] {
      assert s[0] in s;
      assert CharLen(s) == 1;
      assert forall b :: b in s[1..] ==> b in s;
      AsciiIsUtf8(s[1..]);
    }
  }

  predicate AsciiSpace(b: byte) {
    9 <= b <= 13 || b == 32
  }

  /** The two- and three-byte characters with the Unicode White_Space property. */
  predicate WideSpace(c: bytes) {
    c == [0xC2, 0x85] || c == [0xC2, 0xA0] || c == [0xE1, 0x9A, 0x80]
    || (|c| == 3 && c[0] == 0xE2 && c[1] == 0x80
        && (0x80 <= c[2] <= 0x8A || c[2] == 0xA8 || c[2] == 0xA9 || c[2] == 0xAF))
    || c == [0xE2, 0x81, 0x9F] || c == [0xE3, 0x80, 0x80]
  }

  /** Length of the white space character that ends `s`, 0 if there is none. */
  function SpaceAtEnd(s: bytes): (n: nat)
    ensures n <= |s|
  {
    var k := |s|;
    if k >= 1 && AsciiSpace(s[k - 1]) then 1
    else if k >= 2 && WideSpace(s[k - 2..]) then 2
    else if k >= 3 && WideSpace(s[k - 3..]) then 3
    else 0
  }

  /** Length of the white space character that starts `s`, 0 if there is none. */
  function SpaceAtStart(s: bytes): (n: nat)
    ensures n <= |s|
  {
    if |s| >= 1 && AsciiSpace(s[0]) then 1
    else if |s| >= 2 && WideSpace(s[..2]) then 2
    else if |s| >= 3 && WideSpace(s[..3]) then 3
    else 0
  }

  function TrimEnd(s: bytes): bytes
    decreases |s|
  {
    if SpaceAtEnd(s) == 0 then s else TrimEnd(s[..|s| - SpaceAtEnd(s)])
  }

  function TrimStart(s: bytes): bytes
    decreases |s|
  {
    if SpaceAtStart(s) == 0 then s else TrimStart(s[SpaceAtStart(s)..])
  }

  function Trim(s: bytes): bytes {
    TrimStart(TrimEnd(s))
  }

  predicate IsDigit(b: byte) {
    48 <= b <= 57
  }

  predicate AllDigits(s: bytes) {
    forall b :: b in s ==> IsDigit(b)
  }

  function DigitsValue(s: bytes): nat
    requires AllDigits(s)
  {
    if s == [] then 0
    else
      assert forall b :: b in s[..|s| - 1] ==> b in s;
      assert IsDigit(s[|s| - 1]);
      DigitsValue(s[..|s| - 1]) * 10 + (s[|s| - 1] as int - 48)
  }

  /** Rust's unsigned `parse`: an optional plus sign, digits, a value up to `max`. */
  function ParseUnsigned(s: bytes, max: nat): (r: Option<nat>)
    ensures r.Some? ==> r.value <= max
  {
    var digits := if s != [] && s[0] == PLUS then s[1..] else s;
    if digits == [] || !AllDigits(digits) || DigitsValue(digits) > max then None
    else Some(DigitsValue(digits))
  }

  /** Decimal rendering, without leading zeros. */
  function Decimal(n: nat): (s: bytes)
    ensures s != [] && AllDigits(s) && DigitsValue(s) == n
  {
    if n < 10 then [48 + n]
    else
      var d: byte := 48 + n % 10;
      var s := Decimal(n / 10) + [d];
      assert s[..|s| - 1] == Decimal(n / 10);
      s
  }

  lemma ParseDecimal(n: nat, max: nat)
    requires n <= max
    ensures ParseUnsigned(Decimal(n), max) == Some(n)
  {
    assert Decimal(n)[0] in Decimal(n);
  }

  lemma NotWide(c: bytes)
    requires c != [] && (c[0] < 0x80 || c[|c| - 1] < 0x80)
    ensures !WideSpace(c)
  {
  }

  /** Text that starts and ends with a visible ASCII character is left alone by Trim. */
  lemma TrimAsciiEdges(s: bytes)
    requires s != [] && s[0] < 0x80 && s[|s| - 1] < 0x80
    requires !AsciiSpace(s[0]) && !AsciiSpace(s[|s| - 1])
    ensures Trim(s) == s
  {
    hide SpaceAtEnd, SpaceAtStart;
    NoSpaceAtEnd(s);
    NoSpaceAtStart(s);
  }

  lemma NoSpaceAtEnd(s: bytes)
    requires s != [] && s[|s| - 1] < 0x80 && !AsciiSpace(s[|s| - 1])
    ensures SpaceAtEnd(s) == 0
  {
    hide WideSpace;
    var k := |s|;
    if k >= 2 {
      NotWide(s[k - 2..]);
    }
    if k >= 3 {
      NotWide(s[k - 3..]);
    }
  }

  lemma NoSpaceAtStart(s: bytes)
    requires s != [] && s[0] < 0x80 && !AsciiSpace(s[0])
    ensures SpaceAtStart(s) == 0
  {
    hide WideSpace;
    if |s| >= 2 {
      NotWide(s[..2]);
    }
    if |s| >= 3 {
      NotWide(s[..3]);
    }
  }

  /** Decimal digits are left alone by Trim. */
  lemma TrimDigits(s: bytes)
    requires s != [] && AllDigits(s)
    ensures Trim(s) == s
  {
    hide Trim;
    assert IsDigit(s[0]) && IsDigit(s[|s| - 1]);
    TrimAsciiEdges(s);
  }

  /** Drops every trailing line feed and carriage return. */
  function StripLineEndings(line: bytes): bytes {
    if line != [] && (line[|line| - 1] == LF || line[|line| - 1] == CR)
    then StripLineEndings(line[..|line| - 1])
    else line
  }

  /** The source's backward index loop. */
  method StripLineEndingsLoop(line: bytes) returns (r: bytes)
    ensures r == StripLineEndings(line)
  {
    var end := |line|;
    assert line[..end] == line;
    while end > 0 && (line[end - 1] == LF || line[end - 1] == CR)
      invariant 0 <= end <= |line|
      invariant StripLineEndings(line[..end]) == StripLineEndings(line)
    {
      assert line[..end][..end - 1] == line[..end - 1];
      end := end - 1;
    }
    r := line[..end];
  }

  /** Trimming already removes line endings. */
  lemma {:induction false} TrimStripped(s: bytes)
    ensures Trim(StripLineEndings(s)) == Trim(s)
  {
    hide WideSpace, TrimStart;
    if s != [] && (s[|s| - 1] == LF || s[|s| - 1] == CR) {
      TrimStripped(s[..|s| - 1]);
    }
  }

  function StripPrefix(s: bytes, prefix: bytes): Option<bytes> {
    if prefix <= s then Some(s[|prefix|..]) else None
  }

  /** Splits at the first separator. */
  function SplitOnce(s: bytes, sep: byte): (r: Option<(bytes, bytes)>)
    ensures r.Some? ==> r.value.0 + [sep] + r.value.1 == s && sep !in r.value.0
    ensures r.None? <==> sep !in s
  {
    var k := IndexOf(s, sep);
    if k == |s| then None else Some((s[..k], s[k + 1..]))
  }

  lemma SplitJoined(a: bytes, sep: byte, b: bytes)
    requires sep !in a
    ensures SplitOnce(a + [sep] + b, sep) == Some((a, b))
  {
    var s := a + [sep] + b;
    IndexOfUnique(s, sep, |a|);
    assert s[..|a|] == a && s[|a| + 1..] == b;
  }
}
