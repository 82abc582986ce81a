/** The text layer of a bag's manifests: hex digests, whitespace-separated fields, lines. */
module BagText {
  import opened Prelude
  import Names

  // ---- encoding/hex

  function HexDigit(d: nat): char
    requires d < 16
  {
    if d < 10 then '0' + d as char else 'a' + (d - 10) as char
  }

  function HexValue(c: char): Option<nat> {
    if '0' <= c <= '9' then Some(c as int - '0' as int)
    else if 'a' <= c <= 'f' then Some(c as int - 'a' as int + 10)
    else if 'A' <= c <= 'F' then Some(c as int - 'A' as int + 10)
    else None
  }

  function HexEncode(b: Hash): string {
    if b == "" then "" else [HexDigit(b[0] as int / 16), HexDigit(b[0] as int % 16)] + HexEncode(b[1..])
  }

  function HexDecode(s: string): Option<Hash> {
    if s == "" then Some("")
    else if |s| == 1 then None
    else match (HexValue(s[0]), HexValue(s[1]), HexDecode(s[2..]))
      case (Some(a), Some(b), Some(rest)) => (
        assert a < 16 && b < 16;
        Some([(16 * a + b) as char] + rest))
      case _ => None
  }

  lemma HexDigitRoundTrip(d: nat)
    requires d < 16
    ensures HexValue(HexDigit(d)) == Some(d) && !IsSpace(HexDigit(d))
  {
  }

  lemma {:induction false} HexRoundTrip(b: Hash)
    ensures HexDecode(HexEncode(b)) == Some(b)
    ensures b != "" ==> HexEncode(b) != ""
    ensures forall c :: c in HexEncode(b) ==> !IsSpace(c)
  {
    if b != "" {
      var n := b[0] as int;
      HexRoundTrip(b[1..]);
      assert HexEncode(b) == [HexDigit(n / 16), HexDigit(n % 16)] + HexEncode(b[1..]);
      assert HexEncode(b)[2..] == HexEncode(b[1..]);
      HexDigitRoundTrip(n / 16);
      HexDigitRoundTrip(n % 16);
      assert (16 * (n / 16) + n % 16) as char == b[0];
      assert [b[0]] + b[1..] == b;
    }
  }

  lemma HexInjective(a: Hash, b: Hash)
    requires HexEncode(a) == HexEncode(b)
    ensures a == b
  {
    HexRoundTrip(a);
    HexRoundTrip(b);
  }

  // ---- strings.Fields

  /** unicode.IsSpace. */
  predicate IsSpace(c: char) {
    || '\t' <= c <= '\r' || c == ' ' || c == '\U{85}' || c == '\U{A0}' || c == '\U{1680}'
    || '\U{2000}' <= c <= '\U{200A}' || c == '\U{2028}' || c == '\U{2029}' || c == '\U{202F}'
    || c == '\U{205F}' || c == '\U{3000}'
  }

  predicate NoSpace(s: string) {
    forall i :: 0 <= i < |s| ==> !IsSpace(s[i])
  }

  function WordLength(s: string): (n: nat)
    ensures n <= |s|
    ensures s != "" && !IsSpace(s[0]) ==> n > 0
  {
    if s == "" || IsSpace(s[0]) then 0 else 1 + WordLength(s[1..])
  }

  function Fields(s: string): seq<string>
    decreases |s|
  {
    if s == "" then []
    else if IsSpace(s[0]) then Fields(s[1..])
    else [s[..WordLength(s)]] + Fields(s[WordLength(s)..])
  }

  lemma {:induction false} WordLengthAt(w: string, rest: string)
    requires NoSpace(w) && (rest == "" || IsSpace(rest[0]))
    ensures WordLength(w + rest) == |w|
  {
    if w == "" {
      assert w + rest == rest;
    } else {
      assert (w + rest)[1..] == w[1..] + rest;
      WordLengthAt(w[1..], rest);
    }
  }

  lemma WordField(w: string, rest: string)
    requires NoSpace(w) && w != "" && (rest == "" || IsSpace(rest[0]))
    ensures Fields(w + rest) == [w] + Fields(rest)
  {
    WordLengthAt(w, rest);
    assert (w + rest)[..|w|] == w && (w + rest)[|w|..] == rest;
  }

  lemma TwoFields(a: string, b: string)
    requires NoSpace(a) && NoSpace(b) && a != "" && b != ""
    ensures Fields(a + "  " + b) == [a, b]
  {
    assert a + "  " + b == a + ("  " + b);
    WordField(a, "  " + b);
    assert ("  " + b)[1..] == " " + b && (" " + b)[1..] == b;
    assert b + "" == b;
    WordField(b, "");
  }

  // ---- bufio.ScanLines

  function DropCR(s: string): string {
    if s != "" && s[|s| - 1] == '\r' then s[..|s| - 1] else s
  }

  function Lines(s: string): seq<string>
    decreases |s|
  {
    if s == "" then []
    else
      var j := Names.IndexOf(s, '\n');
      if j < 0 || j >= |s| then [DropCR(s)] else [DropCR(s[..j])] + Lines(s[j + 1..])
  }

  lemma FirstLine(line: string, rest: string)
    requires '\n' !in line
    ensures Lines(line + "\n" + rest) == [DropCR(line)] + Lines(rest)
  {
    var s := line + "\n" + rest;
    assert s == line + ['\n'] + rest;
    Names.IndexOfSeparator(line, '\n', rest);
    assert s[..|line|] == line && s[|line| + 1..] == rest;
  }

  // ---- manifests as lists of (digest, file name)

  datatype Listed = Listed(digest: Digest, file: string)

  /** One line, as GNU md5sum writes it. */
  function FormatLine(l: Listed): string {
    HexEncode(l.digest) + "  " + l.file + "\n"
  }

  function Format(ls: seq<Listed>): string {
    if ls == [] then "" else Format(ls[..|ls| - 1]) + FormatLine(ls[|ls| - 1])
  }

  lemma {:induction false} FormatFirst(l: Listed, ls: seq<Listed>)
    ensures Format([l] + ls) == FormatLine(l) + Format(ls)
  {
    var all := [l] + ls;
    if ls == [] {
      assert all[..|all| - 1] == [];
    } else {
      assert all[..|all| - 1] == [l] + ls[..|ls| - 1];
      FormatFirst(l, ls[..|ls| - 1]);
    }
  }

  predicate Listable(file: string) {
    file != "" && NoSpace(file)
  }

  lemma FormattedLine(l: Listed, rest: string)
    requires Listable(l.file)
    ensures var line := HexEncode(l.digest) + "  " + l.file;
      && line != "" && Lines(FormatLine(l) + rest) == [line] + Lines(rest)
      && Fields(line) == [HexEncode(l.digest), l.file]
      && HexDecode(HexEncode(l.digest)) == Some(l.digest)
  {
    var hex := HexEncode(l.digest);
    var line := hex + "  " + l.file;
    HexRoundTrip(l.digest);
    TwoFields(hex, l.file);
    assert IsSpace('\n') && IsSpace('\r');
    assert line[|line| - 1] == l.file[|l.file| - 1];
    assert FormatLine(l) + rest == line + "\n" + rest;
    FirstLine(line, rest);
  }
}
