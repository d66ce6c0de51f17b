/** The firmware file as text: how it is printed, and what the input stream makes of it.

    The stream reads an address and a word until it cannot: an address may have a sign and a prefix
    and must fit 64 bits, a word ends at white space, and at the first failure the reading ends
    without an error. */
module FirmwareStream {
  import opened Wrappers

  // ---------------------------------------------------------------- hexadecimal

  function Digit(d: nat): char
    requires d < 16
  {
    "0123456789abcdef"[d]
  }

  predicate IsHex(c: char) { '0' <= c <= '9' || 'a' <= c <= 'f' || 'A' <= c <= 'F' }

  function Value(c: char): (d: nat)
    requires IsHex(c)
    ensures d < 16
  {
    if '0' <= c <= '9' then (c - '0') as nat
    else if 'a' <= c <= 'f' then (c - 'a') as nat + 10
    else (c - 'A') as nat + 10
  }

  lemma DigitValue(d: nat)
    requires d < 16
    ensures IsHex(Digit(d)) && Value(Digit(d)) == d
  {
  }

  /** A number as printed with %x. */
  function Hex(n: nat): (s: string)
    ensures |s| > 0
  {
    if n < 16 then [Digit(n)] else Hex(n / 16) + [Digit(n % 16)]
  }

  predicate AllHex(s: string) { forall k | 0 <= k < |s| :: IsHex(s[k]) }

  function FromHex(s: string): nat
    requires AllHex(s)
  {
    if s == [] then 0 else 16 * FromHex(s[..|s| - 1]) + Value(s[|s| - 1])
  }

  lemma {:induction false} HexRoundTrip(n: nat)
    ensures AllHex(Hex(n)) && FromHex(Hex(n)) == n
  {
    DigitValue(n % 16);
    if n < 16 {
      assert Hex(n)[..0] == [];
    } else {
      HexRoundTrip(n / 16);
      assert Hex(n)[..|Hex(n)| - 1] == Hex(n / 16);
    }
  }

  // ---------------------------------------------------------------- the stream

  /** White space of the C locale. */
  predicate IsBlank(c: char) { c == ' ' || '\t' <= c <= '\r' }

  predicate NotBlank(c: char) { !IsBlank(c) }

  /** How many characters the text starts with that are of this kind. */
  function Lead(t: string, kind: char -> bool): (n: nat)
    ensures n <= |t| && forall k | 0 <= k < n :: kind(t[k])
    ensures n < |t| ==> !kind(t[n])
  {
    if t == "" || !kind(t[0]) then 0 else 1 + Lead(t[1..], kind)
  }

  lemma {:induction false} LeadIs(s: string, rest: string, kind: char -> bool)
    requires forall k | 0 <= k < |s| :: kind(s[k])
    requires rest == "" || !kind(rest[0])
    ensures Lead(s + rest, kind) == |s|
  {
    if s == "" {
      assert s + rest == rest;
    } else {
      LeadIs(s[1..], rest, kind);
      assert (s + rest)[1..] == s[1..] + rest;
    }
  }

  const TwoTo64: nat := 0x1_0000_0000_0000_0000

  /** A line of the file, as read: the address and the word behind it. */
  datatype Line = Line(address: nat, bytes: string)

  predicate HasSign(t: string) { t != "" && (t[0] == '+' || t[0] == '-') }

  predicate HasPrefix(t: string) { |t| >= 2 && t[0] == '0' && (t[1] == 'x' || t[1] == 'X') }

  /** What stands behind the sign and the prefix. */
  function Bare(t: string): (v: string)
    ensures |v| <= |t|
  {
    var u := if HasSign(t) then t[1..] else t;
    if HasPrefix(u) then u[2..] else u
  }

  /** Reads an unsigned 64-bit number in base 16: the number and the text behind it, or nothing when
      there is no digit or the number does not fit.  A minus sign negates modulo 2^64. */
  function ScanAddress(t: string): (r: Option<(nat, string)>)
    ensures r.Some? ==> r.value.0 < TwoTo64 && |r.value.1| < |t|
  {
    var v := Bare(t);
    var n := Lead(v, IsHex);
    if n == 0 || FromHex(v[..n]) >= TwoTo64 then None
    else
      var value := FromHex(v[..n]);
      Some((if t[0] == '-' then (TwoTo64 - value) % TwoTo64 else value, v[n..]))
  }

  function SkipBlanks(t: string): (u: string)
    ensures |u| <= |t|
  {
    t[Lead(t, IsBlank)..]
  }

  /** Reads an address and a word, or nothing when one of them is not there. */
  function ScanLine(t: string): (r: Option<(Line, string)>)
    ensures r.Some? ==> r.value.0.address < TwoTo64 && r.value.0.bytes != "" && |r.value.1| < |t|
  {
    var (address, rest) :- ScanAddress(SkipBlanks(t));
    var u := SkipBlanks(rest);
    var n := Lead(u, NotBlank);
    if n == 0 then None else Some((Line(address, u[..n]), u[n..]))
  }

  /** All the lines that can be read; what follows them is never looked at. */
  function Lines(t: string): (lines: seq<Line>)
    decreases |t|
  {
    var next := ScanLine(t);
    if next.None? then [] else [next.value.0] + Lines(next.value.1)
  }

  // ---------------------------------------------------------------- printing, and reading it back

  function Row(line: Line): string { Hex(line.address) + " " + line.bytes + "\n" }

  function Rows(lines: seq<Line>): string { if lines == [] then "" else Row(lines[0]) + Rows(lines[1..]) }

  /** The printed file: the rows joined by newlines, and one more at the end. */
  function Text(lines: seq<Line>): string { if lines == [] then "\n" else Rows(lines) }

  /** An address of 64 bits and a word without white space. */
  predicate Printable(line: Line) {
    line.address < TwoTo64 && line.bytes != "" && forall k | 0 <= k < |line.bytes| :: NotBlank(line.bytes[k])
  }

  predicate AllPrintable(lines: seq<Line>) { forall k | 0 <= k < |lines| :: Printable(lines[k]) }

  lemma BareHex(a: nat, rest: string)
    requires rest != "" && rest[0] == ' '
    ensures Bare(Hex(a) + rest) == Hex(a) + rest
  {
    var t := Hex(a) + rest;
    HexRoundTrip(a);
    assert IsHex(t[0]);
    assert |t| >= 2 ==> IsHex(t[1]) || t[1] == ' ';
  }

  lemma ScanPrinted(a: nat, rest: string)
    requires a < TwoTo64 && rest != "" && rest[0] == ' '
    ensures ScanAddress(Hex(a) + rest) == Some((a, rest))
  {
    var s, t := Hex(a), Hex(a) + rest;
    HexRoundTrip(a);
    BareHex(a, rest);
    LeadIs(s, rest, IsHex);
    assert t[..|s|] == s && t[|s|..] == rest && t[0] == s[0] && IsHex(s[0]);
  }

  lemma SkipNone(t: string)
    requires t != "" && !IsBlank(t[0])
    ensures SkipBlanks(t) == t
  {
  }

  lemma SkipOne(c: char, t: string)
    requires IsBlank(c)
    ensures SkipBlanks([c] + t) == SkipBlanks(t)
  {
    assert ([c] + t)[1..] == t;
  }

  lemma Regroup<T>(a: seq<T>, b: seq<T>, c: seq<T>)
    ensures (a + b) + c == a + (b + c)
  {
  }

  /** The word behind an address, and the text behind the word. */
  lemma ScanWord(bytes: string, end: string, word: string)
    requires bytes != "" && (forall k | 0 <= k < |bytes| :: NotBlank(bytes[k])) && end != "" && end[0] == '\n'
    requires word == bytes + end
    ensures SkipBlanks([' '] + word) == word && Lead(word, NotBlank) == |bytes|
    ensures word[..|bytes|] == bytes && word[|bytes|..] == end
  {
    SkipOne(' ', word);
    assert word[0] == bytes[0] && NotBlank(bytes[0]);
    SkipNone(word);
    LeadIs(bytes, end, NotBlank);
  }

  lemma ScanParts(address: nat, bytes: string, end: string)
    requires address < TwoTo64 && end != "" && end[0] == '\n'
    requires bytes != "" && forall k | 0 <= k < |bytes| :: NotBlank(bytes[k])
    ensures ScanLine(Hex(address) + ([' '] + (bytes + end))) == Some((Line(address, bytes), end))
  {
    var word := bytes + end;
    var t := Hex(address) + ([' '] + word);
    HexRoundTrip(address);
    assert t[0] == Hex(address)[0] && IsHex(t[0]);
    SkipNone(t);
    ScanPrinted(address, [' '] + word);
    ScanWord(bytes, end, word);
  }

  lemma ScanRow(line: Line, tail: string)
    requires Printable(line)
    ensures ScanLine(Row(line) + tail) == Some((line, "\n" + tail))
  {
    var a, b := Hex(line.address), line.bytes;
    Regroup(a + " " + b, "\n", tail);
    Regroup(a + " ", b, "\n" + tail);
    Regroup(a, " ", b + ("\n" + tail));
    ScanParts(line.address, b, "\n" + tail);
  }

  lemma LinesBehindBlank(c: char, t: string)
    requires IsBlank(c)
    ensures Lines([c] + t) == Lines(t)
  {
    SkipOne(c, t);
  }

  lemma LinesBehindRow(line: Line, rest: string)
    requires Printable(line)
    ensures Lines(Row(line) + rest) == [line] + Lines(rest)
  {
    ScanRow(line, rest);
    LinesBehindBlank('\n', rest);
  }

  /** Printed rows are read back as they are, whatever follows; what follows is then read by itself. */
  lemma {:induction false} RowsReadBack(lines: seq<Line>, tail: string)
    requires AllPrintable(lines)
    ensures Lines(Rows(lines) + tail) == lines + Lines(tail)
  {
    if lines == [] {
      assert Rows(lines) + tail == tail;
    } else {
      RowsReadBack(lines[1..], tail);
      LinesBehindRow(lines[0], Rows(lines[1..]) + tail);
      Regroup(Row(lines[0]), Rows(lines[1..]), tail);
      Regroup([lines[0]], lines[1..], Lines(tail));
      assert [lines[0]] + lines[1..] == lines;
    }
  }

  /** A printed file is read back line by line. */
  lemma TextRoundTrip(lines: seq<Line>)
    requires AllPrintable(lines)
    ensures Lines(Text(lines)) == lines
  {
    if lines == [] {
      LinesBehindBlank('\n', "");
      assert ['\n'] + "" == "\n";
    } else {
      RowsReadBack(lines, "");
      assert Rows(lines) + "" == Rows(lines) && lines + [] == lines;
    }
  }

  /** No number starts with this character. */
  predicate StartsNone(c: char) { !IsBlank(c) && !IsHex(c) && c != '+' && c != '-' }

  lemma NoLine(c: char, rest: string)
    requires StartsNone(c)
    ensures Lines([c] + rest) == []
  {
    var t := [c] + rest;
    SkipNone(t);
    assert t[0] == c && Bare(t) == t && Lead(t, IsHex) == 0;
  }

  /** A line that begins with no address ends the reading without an error: whatever stands behind it is
      silently lost. */
  lemma RestIsLost(lines: seq<Line>, c: char, rest: string)
    requires AllPrintable(lines) && StartsNone(c)
    ensures Lines(Rows(lines) + ([c] + rest)) == lines
  {
    NoLine(c, rest);
    RowsReadBack(lines, [c] + rest);
  }
}
