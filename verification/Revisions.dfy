/** Dotted versions: what parses, and which of two is newer (src/upstream.rs). */
module Revisions {
  import opened Basics

  // --------------------------------------------------------------- versions

  const U64_MAX := 0xFFFF_FFFF_FFFF_FFFF

  datatype VersionRelation = Current | NewerAvailable | Unavailable

  predicate IsDigit(c: char) {
    '0' <= c <= '9'
  }

  predicate AllDigits(s: string) {
    s != "" && forall c <- s :: IsDigit(c)
  }

  function DigitOf(c: char): nat
    requires IsDigit(c)
  {
    c as nat - '0' as nat
  }

  function DecimalValue(s: string): nat
    requires forall c <- s :: IsDigit(c)
  {
    if s == "" then 0
    else
      assert s[|s| - 1] in s;
      assert forall c <- s[..|s| - 1] :: c in s;
      DecimalValue(s[..|s| - 1]) * 10 + DigitOf(s[|s| - 1])
  }

  const DIGITS := "0123456789"

  /** A decimal digit is worth its place among the ten. */
  lemma DigitMeans(c: char)
    ensures IsDigit(c) <==> c in DIGITS
    ensures forall i :: 0 <= i < 10 ==> IsDigit(DIGITS[i]) && DigitOf(DIGITS[i]) == i
  {
    if IsDigit(c) {
      assert DIGITS[c as int - 48] == c;
    }
    forall i | 0 <= i < 10 ensures IsDigit(DIGITS[i]) && DigitOf(DIGITS[i]) == i {
      assert DIGITS[i] as int == 48 + i;
    }
  }

  function Pow10(k: nat): nat {
    if k == 0 then 1 else 10 * Pow10(k - 1)
  }

  /** Digits are worth ten times more for each place to their right. */
  lemma {:induction false} PlacesMean(a: string, b: string)
    requires (forall c <- a :: IsDigit(c)) && forall c <- b :: IsDigit(c)
    ensures forall c <- a + b :: IsDigit(c)
    ensures DecimalValue(a + b) == DecimalValue(a) * Pow10(|b|) + DecimalValue(b)
    decreases |b|
  {
    if b == "" {
      assert a + b == a;
    } else {
      var n := |b| - 1;
      assert b[n] in b;
      forall c | c in b[..n] ensures IsDigit(c) {
        assert c in b;
      }
      PlacesMean(a, b[..n]);
      assert (a + b)[..|a| + n] == a + b[..n];
      assert Pow10(|b|) == 10 * Pow10(n);
      assert DecimalValue(a) * Pow10(|b|) == 10 * (DecimalValue(a) * Pow10(n));
    }
  }

  /** The digits of a number, without leading zeros. */
  function Decimal(n: nat): (r: string)
    ensures forall c <- r :: IsDigit(c)
  {
    DigitMeans('0');
    if n < 10 then [DIGITS[n]] else Decimal(n / 10) + [DIGITS[n % 10]]
  }

  /** Reading what a number is written as gives the number, also after zeros. */
  lemma {:induction false} DecimalIsRead(n: nat)
    ensures DecimalValue(Decimal(n)) == n
    ensures forall c <- "0" + Decimal(n) :: IsDigit(c)
    ensures DecimalValue("0" + Decimal(n)) == n
  {
    DigitMeans('0');
    if n >= 10 {
      DecimalIsRead(n / 10);
      assert Decimal(n)[..|Decimal(n)| - 1] == Decimal(n / 10);
    } else {
      assert Decimal(n)[..0] == "";
    }
    PlacesMean("0", Decimal(n));
    assert DecimalValue("0") == 0 by {
      assert "0"[..0] == "";
      assert DigitOf(DIGITS[0]) == 0;
    }
  }

  function SplitDots(s: string): (r: seq<string>)
    ensures r != []
  {
    if s == "" then [""]
    else
      var rest := SplitDots(s[1..]);
      if s[0] == '.' then [""] + rest else [[s[0]] + rest[0]] + rest[1..]
  }

  function JoinDots(parts: seq<string>): string
    requires parts != []
  {
    if |parts| == 1 then parts[0] else parts[0] + "." + JoinDots(parts[1..])
  }

  /** The parts are what stands between the dots: joined they are the text, and
      none has a dot inside. */
  lemma {:induction false} SplitDotsMeans(s: string)
    ensures JoinDots(SplitDots(s)) == s
    ensures forall part <- SplitDots(s) :: '.' !in part
  {
    if s != "" {
      var rest := SplitDots(s[1..]);
      SplitDotsMeans(s[1..]);
      if s[0] == '.' {
        assert ([""] + rest)[1..] == rest;
      } else {
        var parts := [[s[0]] + rest[0]] + rest[1..];
        assert parts[1..] == rest[1..] && rest == [rest[0]] + rest[1..];
        assert forall part <- parts :: part == parts[0] || part in rest;
        if |rest| > 1 {
          assert [s[0]] + (rest[0] + "." + JoinDots(rest[1..])) == parts[0] + "." + JoinDots(parts[1..]);
        }
      }
    }
  }

  /** A decimal number of 64 bits. */
  predicate IsU64(part: string) {
    part != "" && (forall c <- part :: IsDigit(c)) && DecimalValue(part) < 0x1_0000_0000_0000_0000
  }

  /** A text is a version exactly when every part between its dots is a decimal
      number of 64 bits, and its components are their values. */
  lemma ParsesIff(value: string)
    ensures ParseDottedVersion(value).Some? <==> forall part <- SplitDots(value) :: IsU64(part)
    ensures ParseDottedVersion(value).Some? ==>
      var parts := SplitDots(value);
      PaddedEqual(ParseDottedVersion(value).value, seq(|parts|, i requires 0 <= i < |parts| && IsU64(parts[i]) => DecimalValue(parts[i])))
  {
    ComponentsMean(SplitDots(value));
    ParsedIsCanonical(value);
  }

  lemma {:induction false} ComponentsMean(parts: seq<string>)
    ensures Components(parts).Some? <==> forall part <- parts :: IsU64(part)
    ensures Components(parts).Some? ==>
      && |Components(parts).value| == |parts|
      && forall i :: 0 <= i < |parts| ==> IsU64(parts[i]) && Components(parts).value[i] == DecimalValue(parts[i])
  {
    if parts != [] {
      ComponentsMean(parts[1..]);
      assert parts == [parts[0]] + parts[1..];
      assert Components(parts).Some? <==> IsU64(parts[0]) && Components(parts[1..]).Some?;
      if IsU64(parts[0]) && forall part <- parts[1..] :: IsU64(part) {
        forall part | part in parts ensures IsU64(part) {
          assert part == parts[0] || part in parts[1..];
        }
      }
      forall part | part in parts[1..] ensures part in parts {
      }
    }
  }

  /** The components as numbers; none when one is empty, not decimal, or beyond
      64 bits. */
  function Components(parts: seq<string>): Option<seq<nat>> {
    if parts == [] then Some([])
    else if !AllDigits(parts[0]) || DecimalValue(parts[0]) > U64_MAX then None
    else match Components(parts[1..])
      case None => None
      case Some(rest) => Some([DecimalValue(parts[0])] + rest)
  }

  function DropTrailingZeros(v: seq<nat>): (r: seq<nat>)
    ensures r <= v && (r != [] ==> r[|r| - 1] != 0)
    ensures forall i :: |r| <= i < |v| ==> v[i] == 0
  {
    if v != [] && v[|v| - 1] == 0 then DropTrailingZeros(v[..|v| - 1]) else v
  }

  function ParseDottedVersion(value: string): Option<seq<nat>> {
    match Components(SplitDots(value))
    case None => None
    case Some(parsed) =>
      var kept := DropTrailingZeros(parsed);
      Some(if kept == [] then [0] else kept)
  }

  method ParseDottedVersionInPlace(value: string) returns (r: Option<seq<nat>>)
    ensures r == ParseDottedVersion(value)
  {
    var components := Components(SplitDots(value));
    if components.None? {
      return None;
    }
    var parsed := components.value;
    while parsed != [] && parsed[|parsed| - 1] == 0
      invariant DropTrailingZeros(parsed) == DropTrailingZeros(components.value)
      decreases |parsed|
    {
      parsed := parsed[..|parsed| - 1];
    }
    if parsed == [] {
      parsed := [0];
    }
    return Some(parsed);
  }

  /** `Vec<u64>` order: the first difference decides, else the longer is greater. */
  predicate Greater(a: seq<nat>, b: seq<nat>) {
    if a == [] then false
    else if b == [] then true
    else if a[0] != b[0] then a[0] > b[0]
    else Greater(a[1..], b[1..])
  }

  function VersionRelationOf(installed: string, upstream: Option<string>): VersionRelation {
    if upstream.None? then Unavailable
    else
      match (ParseDottedVersion(installed), ParseDottedVersion(upstream.value))
      case (Some(i), Some(u)) => if Greater(u, i) then NewerAvailable else Current
      case _ => Unavailable
  }

  /** The i-th component, zero beyond the end. */
  function At(v: seq<nat>, i: nat): nat {
    if i < |v| then v[i] else 0
  }

  /** a is above b at the first component where they differ, both padded with
      zeros for ever. */
  ghost predicate PaddedGreater(a: seq<nat>, b: seq<nat>) {
    exists i: nat :: At(a, i) > At(b, i) && forall j: nat :: j < i ==> At(a, j) == At(b, j)
  }

  ghost predicate PaddedEqual(a: seq<nat>, b: seq<nat>) {
    forall i: nat :: At(a, i) == At(b, i)
  }

  lemma DropKeepsPadded(v: seq<nat>)
    ensures PaddedEqual(DropTrailingZeros(v), v)
    ensures DropTrailingZeros(v) == [] ==> PaddedEqual([0], v)
  {
    var r := DropTrailingZeros(v);
    assert forall i: nat :: i < |r| ==> r[i] == v[i];
  }

  /** A parsed version: at least one component, and none of the last is zero
      unless it is the only one. */
  predicate Canonical(v: seq<nat>) {
    v != [] && (|v| > 1 ==> v[|v| - 1] != 0)
  }

  lemma ParsedIsCanonical(value: string)
    ensures var r := ParseDottedVersion(value); r.Some? ==> Canonical(r.value)
    ensures ParseDottedVersion(value).Some? <==> Components(SplitDots(value)).Some?
    ensures ParseDottedVersion(value).Some? ==>
      PaddedEqual(ParseDottedVersion(value).value, Components(SplitDots(value)).value)
  {
    if Components(SplitDots(value)).Some? {
      DropKeepsPadded(Components(SplitDots(value)).value);
    }
  }

  /** Where two lists first differ, padded, from index i on; or past both. */
  function FirstDifference(a: seq<nat>, b: seq<nat>, i: nat): (k: nat)
    requires forall j: nat :: j < i ==> At(a, j) == At(b, j)
    ensures forall j: nat :: j < k ==> At(a, j) == At(b, j)
    ensures At(a, k) != At(b, k) || (|a| <= k && |b| <= k)
    decreases |a| + |b| - i
  {
    if |a| <= i && |b| <= i then i
    else if At(a, i) != At(b, i) then i
    else FirstDifference(a, b, i + 1)
  }

  /** Exactly one of greater, less and equal holds. */
  lemma PaddedOrderIsTotal(a: seq<nat>, b: seq<nat>)
    ensures PaddedGreater(a, b) || PaddedGreater(b, a) || PaddedEqual(a, b)
    ensures PaddedGreater(a, b) ==> !PaddedGreater(b, a) && !PaddedEqual(a, b)
  {
    var k := FirstDifference(a, b, 0);
    assert At(a, k) > At(b, k) ==> PaddedGreater(a, b);
    assert At(b, k) > At(a, k) ==> PaddedGreater(b, a);
    if PaddedGreater(a, b) {
      var i: nat :| At(a, i) > At(b, i) && forall j: nat :: j < i ==> At(a, j) == At(b, j);
      assert At(b, i) != At(a, i);
      forall m: nat ensures !(At(b, m) > At(a, m) && forall j: nat :: j < m ==> At(b, j) == At(a, j)) {
        if m < i {
          assert At(a, m) == At(b, m);
        }
      }
    }
  }

  lemma PaddedOrderIsTransitive(a: seq<nat>, b: seq<nat>, c: seq<nat>)
    requires PaddedGreater(a, b) && PaddedGreater(b, c)
    ensures PaddedGreater(a, c)
  {
    var i: nat :| At(a, i) > At(b, i) && forall j: nat :: j < i ==> At(a, j) == At(b, j);
    var k: nat :| At(b, k) > At(c, k) && forall j: nat :: j < k ==> At(b, j) == At(c, j);
    var m := if i < k then i else k;
    assert At(a, m) > At(c, m);
    forall j: nat | j < m ensures At(a, j) == At(c, j) {
      assert At(a, j) == At(b, j) && At(b, j) == At(c, j);
    }
  }

  lemma PaddedTail(a: seq<nat>, b: seq<nat>)
    requires a != [] && b != [] && a[0] == b[0]
    ensures PaddedGreater(a, b) <==> PaddedGreater(a[1..], b[1..])
  {
    var a', b' := a[1..], b[1..];
    assert forall j: nat :: At(a', j) == At(a, j + 1) && At(b', j) == At(b, j + 1);
    if PaddedGreater(a, b) {
      var i: nat :| At(a, i) > At(b, i) && forall j: nat :: j < i ==> At(a, j) == At(b, j);
      assert i > 0 && At(a', i - 1) > At(b', i - 1);
      forall j: nat | j < i - 1 ensures At(a', j) == At(b', j) {
        assert At(a, j + 1) == At(b, j + 1);
      }
    }
    if PaddedGreater(a', b') {
      var i: nat :| At(a', i) > At(b', i) && forall j: nat :: j < i ==> At(a', j) == At(b', j);
      assert At(a, i + 1) > At(b, i + 1);
      forall j: nat | j < i + 1 ensures At(a, j) == At(b, j) {
        if j > 0 {
          assert At(a', j - 1) == At(b', j - 1);
        }
      }
    }
  }

  lemma NonZeroIsGreater(a: seq<nat>)
    requires a != [] && a[|a| - 1] != 0
    ensures PaddedGreater(a, [])
  {
    var k := FirstDifference(a, [], 0);
    assert At(a, |a| - 1) != At([], |a| - 1);
  }

  lemma {:induction false} GreaterIffPadded(a: seq<nat>, b: seq<nat>)
    requires a == [] || a[|a| - 1] != 0
    requires b == [] || b[|b| - 1] != 0
    ensures Greater(a, b) <==> PaddedGreater(a, b)
    decreases |a|
  {
    if a == [] {
      assert forall i: nat :: At(a, i) == 0;
    } else if b == [] {
      NonZeroIsGreater(a);
    } else if a[0] == b[0] {
      PaddedTail(a, b);
      GreaterIffPadded(a[1..], b[1..]);
    } else {
      assert At(a, 0) == a[0] && At(b, 0) == b[0];
      assert a[0] > b[0] ==> PaddedGreater(a, b);
    }
  }

  lemma CanonicalGreaterIffPadded(a: seq<nat>, b: seq<nat>)
    requires Canonical(a) && Canonical(b)
    ensures Greater(a, b) <==> PaddedGreater(a, b)
  {
    if a[0] == b[0] {
      PaddedTail(a, b);
      GreaterIffPadded(a[1..], b[1..]);
    } else {
      assert At(a, 0) == a[0] && At(b, 0) == b[0];
      assert a[0] > b[0] ==> PaddedGreater(a, b);
    }
  }

  lemma PaddedEqualReplaces(a: seq<nat>, a': seq<nat>, b: seq<nat>, b': seq<nat>)
    requires PaddedEqual(a, a') && PaddedEqual(b, b')
    ensures PaddedGreater(a, b) <==> PaddedGreater(a', b')
  {
    if PaddedGreater(a, b) {
      var i: nat :| At(a, i) > At(b, i) && forall j: nat :: j < i ==> At(a, j) == At(b, j);
      assert At(a', i) > At(b', i);
    }
    if PaddedGreater(a', b') {
      var i: nat :| At(a', i) > At(b', i) && forall j: nat :: j < i ==> At(a', j) == At(b', j);
      assert At(a, i) > At(b, i);
    }
  }

  /** A newer version is reported exactly when both versions parse and upstream
      is greater component by component, missing components counting as zero;
      so trailing zero components never matter. */
  lemma NewerIff(installed: string, upstream: string)
    ensures var i, u := Components(SplitDots(installed)), Components(SplitDots(upstream));
      && (VersionRelationOf(installed, Some(upstream)) == NewerAvailable <==>
            i.Some? && u.Some? && PaddedGreater(u.value, i.value))
      && (VersionRelationOf(installed, Some(upstream)) == Unavailable <==> i.None? || u.None?)
    ensures VersionRelationOf(installed, None) == Unavailable
  {
    ParsedIsCanonical(installed);
    ParsedIsCanonical(upstream);
    var i, u := ParseDottedVersion(installed), ParseDottedVersion(upstream);
    if i.Some? && u.Some? {
      CanonicalGreaterIffPadded(u.value, i.value);
      PaddedEqualReplaces(
        u.value, Components(SplitDots(upstream)).value, i.value, Components(SplitDots(installed)).value);
    }
  }
}
