/** How bundle keys and stream names are spelled and read back (items/item.go, items/bundler.go). */
module Names {
  import opened Prelude

  /** Go's int is 64 bits wide; ParseInt rejects what does not fit. */
  const MAX_INT: nat := 0x7fff_ffff_ffff_ffff

  function Digit(d: nat): char
    requires d < 10
  {
    '0' + d as char
  }

  predicate IsDigit(c: char) {
    '0' <= c <= '9'
  }

  function Decimal(n: nat): string {
    if n < 10 then [Digit(n)] else Decimal(n / 10) + [Digit(n % 10)]
  }

  /** The "%04d" verb: leading zeros up to four characters, more when the number needs them. */
  function Padded(n: nat): string {
    var d := Decimal(n);
    if |d| < 4 then seq(4 - |d|, i => '0') + d else d
  }

  predicate AllDigits(s: string) {
    forall i :: 0 <= i < |s| ==> IsDigit(s[i])
  }

  function DigitsValue(s: string): nat
    requires AllDigits(s)
  {
    if s == "" then 0
    else DigitsValue(s[..|s| - 1]) * 10 + (s[|s| - 1] as int - '0' as int)
  }

  /** strconv.ParseInt(s, 10, 0): an optional sign, at least one digit, in range. */
  function ParseInt(s: string): Option<int> {
    var negative := s != "" && s[0] == '-';
    var digits := if s != "" && s[0] in "+-" then s[1..] else s;
    if digits == "" || !AllDigits(digits) then None
    else
      var n: int := DigitsValue(digits);
      if negative then (if n <= MAX_INT + 1 then Some(-n) else None)
      else (if n <= MAX_INT then Some(n) else None)
  }

  function LastIndex(s: string, c: char): int {
    if s == "" then -1
    else if s[|s| - 1] == c then |s| - 1
    else LastIndex(s[..|s| - 1], c)
  }

  /** items/item.go: sugar. */
  function Sugar(id: string, n: nat): string {
    id + "-" + Padded(n) + ".zip"
  }

  /** items/item.go: desugar. The id is "" when the key cannot be decoded. */
  function Desugar(key: string): (string, int) {
    var s := TrimSuffix(key, ".zip");
    var j := LastIndex(s, '-');
    if j < 0 || j >= |s| then ("", 0)
    else match ParseInt(s[j + 1..])
      case None => ("", 0)
      case Some(n) => (s[..j], n)
  }

  lemma {:induction false} DecimalDigits(n: nat)
    ensures Decimal(n) != "" && AllDigits(Decimal(n))
    ensures DigitsValue(Decimal(n)) == n
  {
    if n >= 10 {
      DecimalDigits(n / 10);
      var d := Decimal(n);
      assert d[..|d| - 1] == Decimal(n / 10);
    }
  }

  lemma {:induction false} LeadingZeros(k: nat, s: string)
    requires AllDigits(s)
    ensures AllDigits(seq(k, i => '0') + s)
    ensures DigitsValue(seq(k, i => '0') + s) == DigitsValue(s)
    decreases |s| + k
  {
    var z := seq(k, i => '0') + s;
    if s == "" {
      if k > 0 {
        assert z[..k - 1] == seq(k - 1, i => '0') + s;
        LeadingZeros(k - 1, s);
      }
    } else {
      assert z[..|z| - 1] == seq(k, i => '0') + s[..|s| - 1];
      LeadingZeros(k, s[..|s| - 1]);
    }
  }

  lemma PaddedParses(n: nat)
    ensures Padded(n) != "" && AllDigits(Padded(n))
    ensures DigitsValue(Padded(n)) == n
    ensures n <= MAX_INT ==> ParseInt(Padded(n)) == Some(n)
  {
    DecimalDigits(n);
    var d := Decimal(n);
    if |d| < 4 { LeadingZeros(4 - |d|, d); }
  }

  lemma {:induction false} LastIndexOfSeparator(a: string, c: char, b: string)
    requires c !in b
    ensures LastIndex(a + [c] + b, c) == |a|
  {
    var s := a + [c] + b;
    if b != "" {
      assert s[..|s| - 1] == a + [c] + b[..|b| - 1];
      LastIndexOfSeparator(a, c, b[..|b| - 1]);
    }
  }

  /** Reading back a bundle key gives the item id and number it was made from,
      whatever dashes or ".zip" the id holds and however many digits the number has. */
  lemma SugarRoundTrip(id: string, n: nat)
    requires n <= MAX_INT
    ensures Desugar(Sugar(id, n)) == (id, n)
  {
    var key := Sugar(id, n);
    var s := id + "-" + Padded(n);
    assert key[|key| - 4..] == ".zip" && key[..|key| - 4] == s;
    PaddedParses(n);
    assert s == id + ['-'] + Padded(n);
    LastIndexOfSeparator(id, '-', Padded(n));
    assert s[|id| + 1..] == Padded(n) && s[..|id|] == id;
  }

  lemma SugarInjective(a: string, m: nat, b: string, n: nat)
    requires m <= MAX_INT && n <= MAX_INT && Sugar(a, m) == Sugar(b, n)
    ensures a == b && m == n
  {
    SugarRoundTrip(a, m);
    SugarRoundTrip(b, n);
  }

  lemma PaddedInjective(m: nat, n: nat)
    requires Padded(m) == Padded(n)
    ensures m == n
  {
    PaddedParses(m);
    PaddedParses(n);
  }

  /** ListPrefix: the keys that begin with `prefix`. */
  function ListPrefix(keys: seq<string>, prefix: string): seq<string> {
    if keys == [] then []
    else (if HasPrefix(keys[0], prefix) then [keys[0]] else []) + ListPrefix(keys[1..], prefix)
  }

  lemma {:induction false} ListPrefixMembers(keys: seq<string>, prefix: string, k: string)
    ensures k in ListPrefix(keys, prefix) <==> k in keys && HasPrefix(k, prefix)
  {
    if keys != [] { ListPrefixMembers(keys[1..], prefix, k); }
  }

  /** `max` is the largest number decoded from a key of `id`, 0 when there is none. */
  ghost predicate LargestDecoded(keys: seq<string>, id: string, max: int) {
    && max >= 0
    && (forall k :: k in keys && HasPrefix(k, id) && Desugar(k).0 == id ==> Desugar(k).1 <= max)
    && (max == 0 || exists k :: k in keys && HasPrefix(k, id) && Desugar(k) == (id, max))
  }

  lemma LargestListed(keys: seq<string>, id: string, max: int)
    requires max >= 0
    requires forall k :: k in ListPrefix(keys, id) && Desugar(k).0 == id ==> Desugar(k).1 <= max
    requires max == 0 || exists k :: k in ListPrefix(keys, id) && Desugar(k) == (id, max)
    ensures LargestDecoded(keys, id, max)
  {
    forall k | k in keys && HasPrefix(k, id) && Desugar(k).0 == id
      ensures Desugar(k).1 <= max
    {
      ListPrefixMembers(keys, id, k);
    }
    if max != 0 {
      var k :| k in ListPrefix(keys, id) && Desugar(k) == (id, max);
      ListPrefixMembers(keys, id, k);
    }
  }

  /** items/item.go: findMaxBundle, over the keys the store holds. */
  method FindMaxBundle(keys: seq<string>, id: string) returns (max: int)
    ensures LargestDecoded(keys, id, max)
  {
    var bundles := ListPrefix(keys, id);
    max := 0;
    for i := 0 to |bundles|
      invariant max >= 0
      invariant forall j :: 0 <= j < i && Desugar(bundles[j]).0 == id ==> Desugar(bundles[j]).1 <= max
      invariant max == 0 || exists j :: 0 <= j < i && Desugar(bundles[j]) == (id, max)
    {
      var (slug, n) := Desugar(bundles[i]);
      if slug == id && n > max {
        max := n;
      }
    }
    LargestListed(keys, id, max);
  }

  /** A store that holds only bundles: every key is a bundle key of some item. */
  ghost predicate BundleKeys(keys: seq<string>, bundles: set<(string, nat)>) {
    && (forall p :: p in bundles ==> 1 <= p.1 <= MAX_INT && Sugar(p.0, p.1) in keys)
    && (forall k :: k in keys ==> exists p :: p in bundles && k == Sugar(p.0, p.1))
  }

  /** Over a store of bundle keys, the largest decoded number is the item's true maximum,
      also when other item ids extend `id`; the number after it is not taken. */
  lemma MaxBundleIsTrueMaximum(keys: seq<string>, bundles: set<(string, nat)>, id: string, max: int)
    requires BundleKeys(keys, bundles)
    requires LargestDecoded(keys, id, max)
    ensures max == 0 <==> forall n :: (id, n) !in bundles
    ensures max != 0 ==> (id, max) in bundles
    ensures forall n :: (id, n) in bundles ==> n < max + 1
    ensures max < MAX_INT ==> Sugar(id, max + 1) !in keys
  {
    forall n | (id, n) in bundles
      ensures n <= max
    {
      KeyIsListed(keys, bundles, id, n);
    }
    if max != 0 {
      var k :| k in keys && HasPrefix(k, id) && Desugar(k) == (id, max);
      KeyIsDecoded(keys, bundles, k);
    }
    if max < MAX_INT { OnlyBundlesAreKeys(keys, bundles, id, max + 1); }
  }

  lemma KeyIsListed(keys: seq<string>, bundles: set<(string, nat)>, id: string, n: nat)
    requires BundleKeys(keys, bundles) && (id, n) in bundles
    ensures Sugar(id, n) in keys && HasPrefix(Sugar(id, n), id) && Desugar(Sugar(id, n)) == (id, n)
  {
    var p := (id, n);
    assert Sugar(p.0, p.1) in keys;
    SugarRoundTrip(id, n);
    assert Sugar(id, n)[..|id|] == id;
  }

  lemma OnlyBundlesAreKeys(keys: seq<string>, bundles: set<(string, nat)>, id: string, n: nat)
    requires BundleKeys(keys, bundles) && n <= MAX_INT
    ensures Sugar(id, n) in keys ==> (id, n) in bundles
  {
    if Sugar(id, n) in keys {
      KeyIsDecoded(keys, bundles, Sugar(id, n));
      SugarRoundTrip(id, n);
    }
  }

  lemma KeyIsDecoded(keys: seq<string>, bundles: set<(string, nat)>, k: string)
    requires BundleKeys(keys, bundles) && k in keys
    ensures Desugar(k).1 >= 0 && (Desugar(k).0, Desugar(k).1 as nat) in bundles
  {
    var p :| p in bundles && k == Sugar(p.0, p.1);
    SugarRoundTrip(p.0, p.1);
  }

  /** The stream of blob `id` inside a bundle. */
  function BlobName(id: nat): string {
    "blob/" + Decimal(id)
  }

  const INFO_NAME: string := "item-info.json"

  function IndexOf(s: string, c: char): int {
    if s == "" then -1
    else if s[0] == c then 0
    else var j := IndexOf(s[1..], c); if j < 0 then -1 else j + 1
  }

  lemma {:induction false} IndexOfSeparator(a: string, c: char, b: string)
    requires c !in a
    ensures IndexOf(a + [c] + b, c) == |a|
  {
    if a != "" {
      assert (a + [c] + b)[1..] == a[1..] + [c] + b;
      IndexOfSeparator(a[1..], c, b);
    }
  }

  lemma {:induction false} IndexOfFound(s: string, c: char)
    ensures -1 <= IndexOf(s, c) < |s|
    ensures c in s ==> IndexOf(s, c) >= 0
    ensures IndexOf(s, c) >= 0 ==> s[IndexOf(s, c)] == c && c !in s[..IndexOf(s, c)]
  {
    if s != "" && s[0] != c {
      IndexOfFound(s[1..], c);
      var j := IndexOf(s, c);
      if j >= 0 { assert s[..j] == [s[0]] + s[1..][..j - 1]; }
    }
  }

  /** items/bundler.go: extractBlobID. */
  function ExtractBlobID(s: string): int {
    var j := IndexOf(s, '/');
    if j < 0 || j >= |s| || s[..j] != "blob" then 0
    else match ParseInt(s[j + 1..])
      case None => 0
      case Some(n) => n
  }

  /** Stream names identify blobs: the id is read back, and the record's own name is no blob's. */
  lemma BlobNameRoundTrip(id: nat)
    requires id <= MAX_INT
    ensures ExtractBlobID(BlobName(id)) == id
    ensures BlobName(id) != INFO_NAME
  {
    DecimalDigits(id);
    assert BlobName(id) == "blob" + ['/'] + Decimal(id);
    IndexOfSeparator("blob", '/', Decimal(id));
    assert BlobName(id)[5..] == Decimal(id);
    assert Decimal(id)[0] !in "+-";
  }

  lemma BlobNameInjective(a: nat, b: nat)
    requires BlobName(a) == BlobName(b)
    ensures a == b
  {
    DecimalDigits(a);
    DecimalDigits(b);
    assert Decimal(a) == BlobName(a)[5..] == BlobName(b)[5..] == Decimal(b);
  }
}
