/** Strings as Rust and Telegram measure them: characters, UTF-8 bytes and
    UTF-16 code units. */
module Utf {

  function Utf16Len(c: char): nat {
    if c as int > 0xFFFF then 2 else 1
  }

  function Utf8Len(c: char): nat {
    if c as int < 0x80 then 1
    else if c as int < 0x800 then 2
    else if c as int < 0x1_0000 then 3
    else 4
  }

  /** Two units beyond the basic plane, one within; a byte each for the ends of
      the ranges that UTF-8 gives one to four bytes. */
  lemma LengthsOfCharacters(c: char)
    ensures Utf16Len(c) == (if c as int < 65536 then 1 else 2)
    ensures 1 <= Utf8Len(c) <= 4
    ensures (Utf8Len(c) == 1 <==> c as int <= 127) && (Utf8Len(c) <= 2 <==> c as int <= 2047)
    ensures Utf8Len(c) <= 3 <==> c as int <= 65535
  {
  }

  function Units(s: string): nat {
    if s == "" then 0 else Units(s[..|s| - 1]) + Utf16Len(s[|s| - 1])
  }

  function ByteLength(s: string): nat {
    if s == "" then 0 else ByteLength(s[..|s| - 1]) + Utf8Len(s[|s| - 1])
  }

  lemma {:induction false} UnitsConcat(a: string, b: string)
    ensures Units(a + b) == Units(a) + Units(b)
    ensures ByteLength(a + b) == ByteLength(a) + ByteLength(b)
    decreases |b|
  {
    if b == "" {
      assert a + b == a;
    } else {
      var n := |b| - 1;
      assert (a + b)[..|a + b| - 1] == a + b[..n];
      UnitsConcat(a, b[..n]);
    }
  }

  lemma {:induction false} UnitsBounds(s: string)
    ensures |s| <= Units(s) <= 2 * |s|
    ensures |s| <= ByteLength(s)
    decreases |s|
  {
    if s != "" {
      UnitsBounds(s[..|s| - 1]);
    }
  }

  /** A longer prefix measures more, so an offset names one prefix only. */
  lemma PrefixMeasures(s: string, i: nat, j: nat)
    requires i < j <= |s|
    ensures Units(s[..i]) < Units(s[..j])
    ensures ByteLength(s[..i]) < ByteLength(s[..j])
  {
    assert s[..j] == s[..i] + s[i..j];
    UnitsConcat(s[..i], s[i..j]);
    UnitsBounds(s[i..j]);
  }

  ghost predicate IsBoundary(s: string, offset: nat) {
    exists k :: 0 <= k <= |s| && ByteLength(s[..k]) == offset
  }

  /** `&s[..offset]`, defined at character boundaries. */
  function SliceTo(s: string, offset: nat): (r: string)
    requires IsBoundary(s, offset)
    ensures r <= s && ByteLength(r) == offset
    decreases |s|
  {
    if ByteLength(s) == offset then s
    else
      var k :| 0 <= k <= |s| && ByteLength(s[..k]) == offset;
      assert s[..|s|] == s;
      assert s[..|s| - 1][..k] == s[..k];
      SliceTo(s[..|s| - 1], offset)
  }

  lemma SliceToPrefix(s: string, k: nat)
    requires k <= |s|
    ensures IsBoundary(s, ByteLength(s[..k])) && SliceTo(s, ByteLength(s[..k])) == s[..k]
  {
    var r := SliceTo(s, ByteLength(s[..k]));
    assert r == s[..|r|];
    if |r| < k {
      PrefixMeasures(s, |r|, k);
    } else if k < |r| {
      PrefixMeasures(s, k, |r|);
    }
  }

  // ------------------------------------------------------ longest prefixes

  /** `k` characters fit the budget and one more would not. */
  ghost predicate IsLongestPrefix(s: string, budget: nat, k: nat) {
    && k <= |s| && Units(s[..k]) <= budget
    && forall j :: k < j <= |s| ==> Units(s[..j]) > budget
  }

  function LongestPrefix(s: string, budget: nat): (k: nat)
    ensures IsLongestPrefix(s, budget, k)
  {
    assert s[..|s|] == s;
    if Units(s) <= budget then |s|
    else
      var n := |s| - 1;
      var k := LongestPrefix(s[..n], budget);
      assert forall j :: 0 <= j <= n ==> s[..n][..j] == s[..j];
      k
  }

  lemma LongestPrefixIsUnique(s: string, budget: nat, k: nat)
    requires k <= |s| && Units(s[..k]) <= budget
    requires k < |s| ==> Units(s[..k + 1]) > budget
    ensures k == LongestPrefix(s, budget)
  {
    var best := LongestPrefix(s, budget);
    if k < best {
      if k + 1 < best {
        PrefixMeasures(s, k + 1, best);
      }
    }
  }
}
