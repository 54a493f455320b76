/** DescribeHRESULTW / DescribeHRESULTA: an HRESULT as "0x" and eight
    upper-case hexadecimal digits, followed by the system message in
    parentheses when there is one. The system message (FormatMessageW) is
    a parameter, empty when the system has none. */
module HResultUtils {
  import opened Common

  // ---------------------------------------------------------------------
  // Hexadecimal digits
  // ---------------------------------------------------------------------

  predicate IsUpperHex(c: char)
  {
    '0' <= c <= '9' || 'A' <= c <= 'F'
  }

  function HexChar(d: nat): (c: char)
    requires d < 16
    ensures IsUpperHex(c)
  {
    if d < 10 then ('0' as int + d) as char else ('A' as int + d - 10) as char
  }

  function HexCharValue(c: char): (d: nat)
    requires IsUpperHex(c)
    ensures d < 16
  {
    if c <= '9' then c as int - '0' as int else c as int - 'A' as int + 10
  }

  function Pow16(n: nat): (p: nat)
    ensures p >= 1
  {
    if n == 0 then 1 else 16 * Pow16(n - 1)
  }

  /** `v` in exactly `n` upper-case hexadecimal digits, most significant
      first and padded with zeros, as setw(n) and setfill('0') write it. */
  function HexDigits(v: nat, n: nat): (s: string)
    ensures |s| == n
    ensures forall i :: 0 <= i < n ==> IsUpperHex(s[i])
  {
    if n == 0 then [] else HexDigits(v / 16, n - 1) + [HexChar(v % 16)]
  }

  /** The value of upper-case hexadecimal text. */
  function HexValue(s: string): nat
    requires forall i :: 0 <= i < |s| ==> IsUpperHex(s[i])
  {
    if s == [] then 0 else 16 * HexValue(s[..|s| - 1]) + HexCharValue(s[|s| - 1])
  }

  /** Every value below 16^n reads back from its n digits. */
  lemma {:induction false} HexRoundTrip(v: nat, n: nat)
    requires v < Pow16(n)
    ensures HexValue(HexDigits(v, n)) == v
  {
    if n > 0 {
      var s := HexDigits(v, n);
      assert s[..|s| - 1] == HexDigits(v / 16, n - 1);
      HexRoundTrip(v / 16, n - 1);
      assert HexCharValue(HexChar(v % 16)) == v % 16;
    }
  }

  /** static_cast<uint32_t>(hr): the HRESULT's bits read as unsigned. */
  function U32Of(hr: int): (u: nat)
    ensures IsU32(u)
    ensures IsU32(hr) ==> u == hr
  {
    hr % U32_LIMIT
  }

  lemma U32OfNegative(hr: int)
    requires INT32_MIN <= hr < 0
    ensures U32Of(hr) == hr + U32_LIMIT
  {
  }

  // ---------------------------------------------------------------------
  // Trimming the message
  // ---------------------------------------------------------------------

  predicate IsLineEnd(c: char)
  {
    c == '\r' || c == '\n'
  }

  /** The message without its trailing carriage returns and line feeds. */
  function TrimLineEnds(message: string): (t: string)
    ensures t <= message
    ensures t == [] || !IsLineEnd(t[|t| - 1])
    ensures forall i :: |t| <= i < |message| ==> IsLineEnd(message[i])
  {
    if message != [] && IsLineEnd(message[|message| - 1])
    then TrimLineEnds(message[..|message| - 1])
    else message
  }

  /** The trimmed message is the only prefix that ends without a line end
      and is followed only by line ends. */
  lemma TrimLineEndsUnique(message: string, t: string)
    requires t <= message
    requires t == [] || !IsLineEnd(t[|t| - 1])
    requires forall i :: |t| <= i < |message| ==> IsLineEnd(message[i])
    ensures t == TrimLineEnds(message)
  {
  }

  lemma TrimLineEndsIdempotent(message: string)
    ensures TrimLineEnds(TrimLineEnds(message)) == TrimLineEnds(message)
  {
    var t := TrimLineEnds(message);
    TrimLineEndsUnique(t, t);
  }

  /** The loop that pops line ends off the end of the message. */
  method TrimMessage(message: string) returns (trimmed: string)
    ensures trimmed == TrimLineEnds(message)
  {
    trimmed := message;
    while trimmed != [] && IsLineEnd(trimmed[|trimmed| - 1])
      invariant TrimLineEnds(trimmed) == TrimLineEnds(message)
      decreases |trimmed|
    {
      trimmed := trimmed[..|trimmed| - 1];
    }
  }

  // ---------------------------------------------------------------------
  // DescribeHRESULTW and DescribeHRESULTA
  // ---------------------------------------------------------------------

  /** The ten-character code part: "0x" and eight hexadecimal digits. */
  function HResultCode(hr: int): (s: string)
    ensures |s| == 10
  {
    "0x" + HexDigits(U32Of(hr), 8)
  }

  /** The description for a message: the code, then " (message)" when the
      trimmed message is not empty. */
  function Description(hr: int, systemMessage: string): string
  {
    var t := TrimLineEnds(systemMessage);
    HResultCode(hr) + (if t != [] then " (" + t + ")" else "")
  }

  method DescribeHResultW(hr: int, systemMessage: string) returns (d: string)
    ensures d == Description(hr, systemMessage)
  {
    var message := TrimMessage(systemMessage);
    d := "0x" + HexDigits(U32Of(hr), 8);
    if message != [] {
      d := d + " (" + message + ")";
    }
  }

  /** A description starts with "0x" and eight upper-case digits that read
      back as the HRESULT's unsigned bits; it has nothing after them exactly
      when the trimmed message is empty, and otherwise the trimmed message
      in parentheses after a space. */
  lemma DescriptionReadsBack(hr: int, systemMessage: string)
    ensures var d := Description(hr, systemMessage);
      && |d| >= 10 && d[..2] == "0x"
      && (forall i :: 2 <= i < 10 ==> IsUpperHex(d[i]))
      && HexValue(d[2..10]) == U32Of(hr)
      && (|d| == 10 <==> TrimLineEnds(systemMessage) == [])
      && (|d| > 10 ==> d[10..] == " (" + TrimLineEnds(systemMessage) + ")")
  {
    var d := Description(hr, systemMessage);
    assert d[2..10] == HexDigits(U32Of(hr), 8);
    assert Pow16(8) == U32_LIMIT;
    HexRoundTrip(U32Of(hr), 8);
  }

  /** The UTF-16 code units of one character, as a std::wstring holds it
      on Windows: itself below 0x10000, a surrogate pair above. */
  function Utf16Units(c: char): (u: seq<int>)
    ensures 1 <= |u| <= 2
    ensures |u| == 1 <==> c as int < 0x1_0000
    ensures |u| == 1 ==> u[0] == c as int
    ensures |u| == 2 ==> 0xD800 <= u[0] < 0xDC00 && 0xDC00 <= u[1] < 0xE000
  {
    if c as int < 0x1_0000 then [c as int]
    else
      var v := c as int - 0x1_0000;
      [0xD800 + v / 0x400, 0xDC00 + v % 0x400]
  }

  /** A surrogate pair decodes back to its character. */
  lemma SurrogatesReadBack(c: char)
    requires c as int >= 0x1_0000
    ensures var u := Utf16Units(c);
      0x1_0000 + (u[0] - 0xD800) * 0x400 + (u[1] - 0xDC00) == c as int
  {
  }

  /** A wide string's code units, character by character. */
  function Utf16(s: string): (u: seq<int>)
    ensures |u| >= |s|
    ensures (forall i :: 0 <= i < |s| ==> s[i] as int < 0x1_0000) ==>
              |u| == |s| && forall i :: 0 <= i < |s| ==> u[i] == s[i] as int
  {
    if s == [] then [] else Utf16(s[..|s| - 1]) + Utf16Units(s[|s| - 1])
  }

  /** The code units of a joined string are those of its parts, joined. */
  lemma {:induction false} Utf16Append(a: string, b: string)
    ensures Utf16(a + b) == Utf16(a) + Utf16(b)
    decreases |b|
  {
    if b == [] {
      assert a + b == a;
    } else {
      var n := |b| - 1;
      assert (a + b)[..|a + b| - 1] == a + b[..n];
      assert (a + b)[|a + b| - 1] == b[n];
      Utf16Append(a, b[..n]);
    }
  }

  lemma SmallUnitNarrows(unit: int)
    requires 0 <= unit < 256
    ensures NarrowUnit(unit) as int == unit
  {
  }

  /** Characters below 128 at the head of a string narrow to themselves. */
  lemma NarrowKeepsAsciiPrefix(w: string, k: nat)
    requires k <= |w|
    requires forall i :: 0 <= i < k ==> w[i] as int < 128
    ensures forall i :: 0 <= i < k ==> NarrowFromWide(w)[i] as int == w[i] as int
  {
    var head := w[..k];
    assert w == head + w[k..];
    Utf16Append(head, w[k..]);
    assert forall i :: 0 <= i < |head| ==> head[i] as int < 0x1_0000;
    var units := Utf16(head);
    assert |units| == k;
    forall i | 0 <= i < k
      ensures NarrowFromWide(w)[i] as int == w[i] as int
    {
      var c := w[i] as int;
      assert Utf16(w)[i] == units[i] == c;
      assert NarrowFromWide(w)[i] == NarrowUnit(c);
      SmallUnitNarrows(c);
    }
  }

  /** std::string(begin, end) over a wide string: each 16-bit unit
      converted to char, keeping its low eight bits. */
  function NarrowUnit(unit: int): byte
  {
    (unit % 256) as byte
  }

  function NarrowFromWide(input: string): (r: seq<byte>)
    ensures |r| == |Utf16(input)|
    ensures forall i :: 0 <= i < |r| ==> r[i] == NarrowUnit(Utf16(input)[i])
  {
    if input == [] then []
    else
      var last := Utf16Units(input[|input| - 1]);
      NarrowFromWide(input[..|input| - 1]) + seq(|last|, k requires 0 <= k < |last| => NarrowUnit(last[k]))
  }

  /** Narrowing keeps text whose characters fit a byte, one byte per
      character: widening it again gives the text back. */
  lemma NarrowKeepsLatin1(input: string)
    requires forall i :: 0 <= i < |input| ==> input[i] as int < 256
    ensures |NarrowFromWide(input)| == |input|
    ensures forall i :: 0 <= i < |input| ==> NarrowFromWide(input)[i] as int == input[i] as int
  {
    forall i | 0 <= i < |input|
      ensures NarrowFromWide(input)[i] as int == input[i] as int
    {
      var c := input[i];
      assert c as int % 256 == c as int;
    }
  }

  /** A character beyond 0x10000 narrows to two bytes, the low bytes of
      its surrogates. */
  lemma NarrowSplitsAstral(c: char)
    requires c as int >= 0x1_0000
    ensures var u := Utf16Units(c);
      NarrowFromWide([c]) == [NarrowUnit(u[0]), NarrowUnit(u[1])]
  {
    assert [c][..0] == [];
  }

  method DescribeHResultA(hr: int, systemMessage: string) returns (d: seq<byte>)
    ensures d == NarrowFromWide(Description(hr, systemMessage))
  {
    var wide := DescribeHResultW(hr, systemMessage);
    d := NarrowFromWide(wide);
  }

  /** The narrow description has one byte per UTF-16 unit of the wide
      one, so its length when the message stays below 0x10000, and its code
      part comes through narrowing unchanged. */
  lemma NarrowDescriptionKeepsCode(hr: int, systemMessage: string)
    ensures var w := Description(hr, systemMessage);
      && |NarrowFromWide(w)| == |Utf16(w)| >= |w|
      && ((forall i :: 0 <= i < |w| ==> w[i] as int < 0x1_0000) ==> |NarrowFromWide(w)| == |w|)
      && forall i :: 0 <= i < 10 ==> NarrowFromWide(w)[i] as int == w[i] as int
  {
    DescriptionReadsBack(hr, systemMessage);
    var w := Description(hr, systemMessage);
    forall i | 0 <= i < 10
      ensures w[i] as int < 128
    {
      assert i < 2 || IsUpperHex(w[i]);
    }
    NarrowKeepsAsciiPrefix(w, 10);
  }
}
