/** Small shared vocabulary: optional values, results, bytes and the string
    helpers that the file-name rules of the program are written with. */
module Basics {

  datatype Option<+T> = None | Some(value: T)

  datatype Result<+T, +E> = Ok(value: T) | Err(error: E)

  /** How an operation of the system ends: it works, it fails, or the process
      dies before it. */
  datatype Fate = Works | Fails | Dies

  ghost predicate AlwaysWorks(fate: nat -> Fate) {
    forall n: nat :: fate(n).Works?
  }

  /** The next `count` operations from operation `from` on all work. */
  ghost predicate WorksFor(fate: nat -> Fate, from: nat, count: nat) {
    forall k: nat :: from <= k < from + count ==> fate(k).Works?
  }

  newtype byte = b: int | 0 <= b < 256

  type Bytes = seq<byte>

  predicate EndsWith(s: string, suffix: string) {
    |suffix| <= |s| && s[|s| - |suffix|..] == suffix
  }

  /** The text left after removing `suffix`, when there is one to remove. */
  function StripSuffix(s: string, suffix: string): (r: Option<string>)
    ensures r.Some? <==> EndsWith(s, suffix)
    ensures r.Some? ==> r.value + suffix == s
  {
    if EndsWith(s, suffix) then Some(s[..|s| - |suffix|]) else None
  }

  /** The text left after removing `prefix`, when there is one to remove. */
  function StripPrefix(s: string, prefix: string): (r: Option<string>)
    ensures r.Some? <==> prefix <= s
    ensures r.Some? ==> prefix + r.value == s
  {
    if prefix <= s then Some(s[|prefix|..]) else None
  }

  ghost predicate NoDuplicates<T>(s: seq<T>) {
    forall i, j :: 0 <= i < j < |s| ==> s[i] != s[j]
  }

  ghost function Elements<T>(s: seq<T>): set<T> {
    set x | x in s
  }

  lemma ElementsAppend<T>(s: seq<T>, x: T)
    ensures Elements(s + [x]) == Elements(s) + {x}
    ensures NoDuplicates(s) && x !in s ==> NoDuplicates(s + [x])
  {
    assert forall y :: y in s + [x] <==> y in s || y == x;
  }

  lemma PrefixStep<T>(s: seq<T>, i: nat)
    requires i < |s| && NoDuplicates(s)
    ensures Elements(s[..i + 1]) == Elements(s[..i]) + {s[i]}
    ensures s[i] !in Elements(s[..i])
    ensures s[i] in Elements(s) && Elements(s[..i]) <= Elements(s)
  {
    assert s[..i] + [s[i]] == s[..i + 1];
    ElementsAppend(s[..i], s[i]);
  }
}
