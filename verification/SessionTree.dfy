/** The session directory as a value, and what the reset transaction of
    src/app.rs may turn it into.

    A tree maps a directory to its entries. The key `LIVE` is the session
    directory itself; every other key is the name of one of its
    subdirectories. A session file is never copied or rewritten: it only moves,
    under its own name, from one directory to another. */
module SessionTree {
  import opened Basics

  datatype Node = Regular(data: Bytes) | Irregular

  type Entries = map<string, Node>

  type Tree = map<string, Entries>

  const LIVE := ""
  const BACKUP_PREFIX := ".session-backup-"
  const STAGING_SUFFIX := ".staging"

  // ---------------------------------------------------------------- names

  /** The names `auth reset` looks for: the session file and its sidecars. */
  function SessionNames(session: string): seq<string> {
    [session, session + "-journal", session + "-wal", session + "-shm"]
  }

  predicate IsStaging(name: string) {
    BACKUP_PREFIX <= name && EndsWith(name, STAGING_SUFFIX)
  }

  function StagingName(stamp: string): string {
    BACKUP_PREFIX + stamp + STAGING_SUFFIX
  }

  function PublishedName(staging: string): Option<string> {
    match StripPrefix(staging, ".")
    case None => None
    case Some(rest) => StripSuffix(rest, STAGING_SUFFIX)
  }

  /** The four files of a session, and no other. */
  lemma SessionNamesAre(session: string, name: string)
    ensures name in SessionNames(session) <==>
      || name == session || name == session + "-journal" || name == session + "-wal" || name == session + "-shm"
    ensures NoDuplicates(SessionNames(session))
  {
    var names := SessionNames(session);
    assert name in names <==> name == names[0] || name == names[1] || name == names[2] || name == names[3];
    assert names[1][|session|] == '-' && names[1][|session| + 1] == 'j';
    assert names[2][|session| + 1] == 'w' && names[3][|session| + 1] == 's';
  }

  /** A staging name is a stamp between the two markers. */
  lemma IsStagingIff(name: string)
    ensures IsStaging(name) <==> exists stamp :: name == ".session-backup-" + stamp + ".staging"
  {
    if IsStaging(name) {
      NoOverlap(name);
      var stamp := name[|BACKUP_PREFIX|..|name| - |STAGING_SUFFIX|];
      assert name == ".session-backup-" + stamp + ".staging";
    }
    if stamp :| name == ".session-backup-" + stamp + ".staging" {
      StagingNameIsStaging(stamp);
      assert name == StagingName(stamp);
    }
  }

  /** Publishing takes off the leading dot and the suffix, and nothing else. So
      different staging directories get different published names. */
  lemma PublishedNameMeans(staging: string)
    requires IsStaging(staging)
    ensures PublishedName(staging).Some?
    ensures "." + PublishedName(staging).value + ".staging" == staging
    ensures forall other :: IsStaging(other) && PublishedName(other) == PublishedName(staging) ==> other == staging
  {
    forall name | IsStaging(name)
      ensures PublishedName(name).Some? && "." + PublishedName(name).value + ".staging" == name
    {
      PublishedIsNeverStaging(name);
      var rest := StripPrefix(name, ".").value;
      assert "." + (PublishedName(name).value + STAGING_SUFFIX) == "." + rest == name;
    }
  }

  /** Each stamp has names of its own, and they begin in ways of their own. */
  lemma StampNames(stamp: string)
    ensures StagingName(stamp) == ".session-backup-" + stamp + ".staging"
    ensures PublishedName(StagingName(stamp)) == Some("session-backup-" + stamp)
    ensures forall other :: StagingName(other) == StagingName(stamp) ==> other == stamp
  {
    StagingNameIsStaging(stamp);
    PublishedNameMeans(StagingName(stamp));
    BackupPrefixIs();
    Associate(".", "session-backup-", stamp, STAGING_SUFFIX);
    Unwrap(".", PublishedName(StagingName(stamp)).value, "session-backup-" + stamp, STAGING_SUFFIX);
    forall other | StagingName(other) == StagingName(stamp) ensures other == stamp {
      Unwrap(BACKUP_PREFIX, other, stamp, STAGING_SUFFIX);
    }
  }

  lemma BackupPrefixIs()
    ensures "." + "session-backup-" == BACKUP_PREFIX
  {
    var a := "." + "session-backup-";
    forall i | 0 <= i < |a| ensures a[i] == BACKUP_PREFIX[i] {
      assert i > 0 ==> a[i] == "session-backup-"[i - 1];
    }
  }

  lemma Associate(a: string, b: string, c: string, d: string)
    ensures a + (b + c) + d == (a + b) + c + d
  {
  }

  lemma Unwrap(before: string, a: string, b: string, after: string)
    requires before + a + after == before + b + after
    ensures a == b
  {
    var whole := before + a + after;
    assert a == whole[|before|..|whole| - |after|] == b;
  }

  /** Prefix and suffix of a staging name cannot overlap: the prefix ends in a
      dash and the suffix has none. */
  lemma NoOverlap(staging: string)
    requires IsStaging(staging)
    ensures |BACKUP_PREFIX| + |STAGING_SUFFIX| <= |staging|
  {
    var dash, cut := |BACKUP_PREFIX| - 1, |staging| - |STAGING_SUFFIX|;
    if cut <= dash {
      assert staging[dash] == BACKUP_PREFIX[dash] == '-';
      assert staging[dash] == staging[cut..][dash - cut] == STAGING_SUFFIX[dash - cut];
      assert forall i :: 0 <= i < |STAGING_SUFFIX| ==> STAGING_SUFFIX[i] != '-';
    }
  }

  /** A staging directory always has a published name, and recovery never
      takes a published backup for a staging directory again. */
  lemma PublishedIsNeverStaging(staging: string)
    requires IsStaging(staging)
    ensures PublishedName(staging).Some?
    ensures !IsStaging(PublishedName(staging).value)
    ensures PublishedName(staging).value != LIVE
  {
    var rest := StripPrefix(staging, ".").value;
    assert staging[0] == '.';
    assert rest == staging[1..];
    var cut := |staging| - |STAGING_SUFFIX|;
    NoOverlap(staging);
    assert rest[|rest| - |STAGING_SUFFIX|..] == staging[cut..];
    var name := PublishedName(staging).value;
    assert name == staging[1..cut];
    assert name[0] == staging[1] == BACKUP_PREFIX[1] == 's';
  }

  lemma StagingNameIsStaging(stamp: string)
    ensures IsStaging(StagingName(stamp))
    ensures StagingName(stamp) != LIVE
  {
    var name := StagingName(stamp);
    assert name[..|BACKUP_PREFIX|] == BACKUP_PREFIX;
    assert name[|name| - |STAGING_SUFFIX|..] == STAGING_SUFFIX;
  }

  // --------------------------------------------------------------- moves

  /** Renaming file `name` out of directory `from` into directory `to`; an
      entry of that name already in `to` is replaced, as rename(2) does. */
  function Move(t: Tree, from: string, to: string, name: string): (r: Tree)
    requires from in t && to in t && from != to && name in t[from]
    ensures r.Keys == t.Keys
  {
    t[from := t[from] - {name}][to := t[to][name := t[from][name]]]
  }

  function RenameDirectory(t: Tree, from: string, to: string): (r: Tree)
    requires from in t && from != to
  {
    (t - {from})[to := t[from]]
  }

  function Restrict(m: Entries, names: set<string>): Entries {
    map n | n in m && n in names :: m[n]
  }

  // --------------------------------------------------------- conservation

  /** The directories in which `node` is stored under `name`. */
  ghost function Holders(t: Tree, name: string, node: Node): set<string> {
    set d | d in t && name in t[d] && t[d][name] == node
  }

  /** The directories which have an entry called `name`. */
  ghost function Owners(t: Tree, name: string): set<string> {
    set d | d in t && name in t[d]
  }

  /** Nothing was lost, duplicated or altered: every content is stored under
      every name exactly as often as before. */
  ghost predicate Conserved(t: Tree, t': Tree) {
    && (forall name, node :: |Holders(t', name, node)| == |Holders(t, name, node)|)
    && (forall name :: |Owners(t', name)| == |Owners(t, name)|)
  }

  lemma ConservedTransitive(a: Tree, b: Tree, c: Tree)
    requires Conserved(a, b) && Conserved(b, c)
    ensures Conserved(a, c)
  {
    forall name, node ensures |Holders(c, name, node)| == |Holders(a, name, node)| {
      assert |Holders(b, name, node)| == |Holders(a, name, node)|;
    }
    forall name ensures |Owners(c, name)| == |Owners(a, name)| {
      assert |Owners(b, name)| == |Owners(a, name)|;
    }
  }

  lemma SwapKeepsSize<T>(s: set<T>, from: T, to: T)
    requires from in s && to !in s
    ensures |s - {from} + {to}| == |s|
  {
  }

  lemma MoveHolders(t: Tree, from: string, to: string, name: string, n: string, node: Node)
    requires from in t && to in t && from != to && name in t[from] && name !in t[to]
    ensures |Holders(Move(t, from, to, name), n, node)| == |Holders(t, n, node)|
  {
    var t' := Move(t, from, to, name);
    var here, there := Holders(t, n, node), Holders(t', n, node);
    if n == name && node == t[from][name] {
      forall d ensures d in there <==> d in here - {from} + {to} {
      }
      assert there == here - {from} + {to};
      SwapKeepsSize(here, from, to);
    } else {
      forall d ensures d in there <==> d in here {
      }
      assert there == here;
    }
  }

  lemma MoveOwners(t: Tree, from: string, to: string, name: string, n: string)
    requires from in t && to in t && from != to && name in t[from]
    ensures name !in t[to] || n != name
            ==> |Owners(Move(t, from, to, name), n)| == |Owners(t, n)|
    ensures name in t[to] && n == name
            ==> |Owners(Move(t, from, to, name), n)| == |Owners(t, n)| - 1
  {
    var t' := Move(t, from, to, name);
    var here, there := Owners(t, n), Owners(t', n);
    if n != name {
      forall d ensures d in there <==> d in here {
      }
      assert there == here;
    } else if name in t[to] {
      forall d ensures d in there <==> d in here - {from} {
      }
      assert there == here - {from};
    } else {
      forall d ensures d in there <==> d in here - {from} + {to} {
      }
      assert there == here - {from} + {to};
      SwapKeepsSize(here, from, to);
    }
  }

  /** One move conserves exactly when it does not overwrite. */
  lemma MoveConserves(t: Tree, from: string, to: string, name: string)
    requires from in t && to in t && from != to && name in t[from]
    ensures name !in t[to] <==> Conserved(t, Move(t, from, to, name))
  {
    var t' := Move(t, from, to, name);
    MoveOwners(t, from, to, name, name);
    if name !in t[to] {
      forall n, node ensures |Holders(t', n, node)| == |Holders(t, n, node)| {
        MoveHolders(t, from, to, name, n, node);
      }
      forall n ensures |Owners(t', n)| == |Owners(t, n)| {
        MoveOwners(t, from, to, name, n);
      }
    }
  }

  lemma RenameDirectoryHolders(t: Tree, from: string, to: string, n: string, node: Node)
    requires from in t && from != to && (to !in t || t[to] == map[])
    ensures |Holders(RenameDirectory(t, from, to), n, node)| == |Holders(t, n, node)|
  {
    var t' := RenameDirectory(t, from, to);
    var here, there := Holders(t, n, node), Holders(t', n, node);
    if n in t[from] && t[from][n] == node {
      forall d ensures d in there <==> d in here - {from} + {to} {
      }
      assert there == here - {from} + {to};
      SwapKeepsSize(here, from, to);
    } else {
      forall d ensures d in there <==> d in here {
      }
      assert there == here;
    }
  }

  lemma RenameDirectoryOwners(t: Tree, from: string, to: string, n: string)
    requires from in t && from != to && (to !in t || t[to] == map[])
    ensures |Owners(RenameDirectory(t, from, to), n)| == |Owners(t, n)|
  {
    var t' := RenameDirectory(t, from, to);
    var here, there := Owners(t, n), Owners(t', n);
    if n in t[from] {
      forall d ensures d in there <==> d in here - {from} + {to} {
      }
      assert there == here - {from} + {to};
      SwapKeepsSize(here, from, to);
    } else {
      forall d ensures d in there <==> d in here {
      }
      assert there == here;
    }
  }

  lemma RenameDirectoryConserves(t: Tree, from: string, to: string)
    requires from in t && from != to && (to !in t || t[to] == map[])
    ensures Conserved(t, RenameDirectory(t, from, to))
  {
    var t' := RenameDirectory(t, from, to);
    forall n, node ensures |Holders(t', n, node)| == |Holders(t, n, node)| {
      RenameDirectoryHolders(t, from, to, n, node);
    }
    forall n ensures |Owners(t', n)| == |Owners(t, n)| {
      RenameDirectoryOwners(t, from, to, n);
    }
  }

  lemma EmptyDirectoryConserves(t: Tree, d: string)
    requires d !in t || t[d] == map[]
    ensures Conserved(t, t[d := map[]]) && Conserved(t, t - {d})
  {
    var added, removed := t[d := map[]], t - {d};
    forall n, node
      ensures Holders(added, n, node) == Holders(t, n, node) == Holders(removed, n, node)
    {
    }
    forall n ensures Owners(added, n) == Owners(t, n) == Owners(removed, n) {
    }
  }

  // ------------------------------------------------- what recovery reaches

  /** The tree with the entries `moved` of staging directory `d` back live. */
  function PartlyRecovered(t: Tree, d: string, moved: set<string>): (r: Tree)
    requires LIVE in t && d in t && d != LIVE
    ensures r.Keys == t.Keys
  {
    t[d := t[d] - moved][LIVE := t[LIVE] + Restrict(t[d], moved)]
  }

  /** The tree without these live entries: a file renamed onto one replaces it. */
  function Forget(t: Tree, names: set<string>): (r: Tree)
    requires LIVE in t
    ensures r.Keys == t.Keys
  {
    t[LIVE := t[LIVE] - names]
  }

  /** What moving files back replaces is gone already when they are live. */
  lemma ForgetMoved(t: Tree, d: string, moved: set<string>)
    requires LIVE in t && d in t && d != LIVE && moved <= t[d].Keys
    ensures PartlyRecovered(Forget(t, moved), d, moved) == PartlyRecovered(t, d, moved)
  {
    assert t[LIVE] - moved + Restrict(t[d], moved) == t[LIVE] + Restrict(t[d], moved);
  }

  lemma ForgetNothing(t: Tree, names: set<string>)
    requires LIVE in t && names !! t[LIVE].Keys
    ensures Forget(t, names) == t
  {
    assert t[LIVE] - names == t[LIVE];
  }

  /** The tree after every staging directory of `ds` was emptied into the
      session directory, in that order, and removed. */
  function Drained(t: Tree, ds: seq<string>): (r: Tree)
    requires LIVE in t && LIVE !in ds && NoDuplicates(ds) && forall d <- ds :: d in t
    ensures LIVE in r
    ensures r.Keys == t.Keys - Elements(ds)
  {
    if ds == [] then t
    else
      var last := ds[|ds| - 1];
      var before := Drained(t, ds[..|ds| - 1]);
      PartlyRecovered(before, last, before[last].Keys) - {last}
  }

  // ------------------------------------------------------- staged trees

  ghost predicate AtMostOneStaging(t: Tree) {
    forall d, e :: d in t && e in t && IsStaging(d) && IsStaging(e) ==> d == e
  }

  /** Everything staged is a regular session file whose name is not live. */
  ghost predicate StagedWell(t: Tree, session: string)
    requires LIVE in t
  {
    forall d, n :: d in t && IsStaging(d) && n in t[d] ==>
      n in SessionNames(session) && t[d][n].Regular? && n !in t[LIVE]
  }

  /** The invariant between any two steps of any number of resets. */
  ghost predicate Safe(t: Tree, session: string) {
    LIVE in t && AtMostOneStaging(t) && StagedWell(t, session)
  }

  ghost predicate AreStaging(t: Tree, ds: seq<string>) {
    NoDuplicates(ds) && forall d <- ds :: d in t && IsStaging(d)
  }

  /** No file name is staged in two directories of `ds`. */
  ghost predicate PairwiseApart(t: Tree, ds: seq<string>)
    requires forall d <- ds :: d in t
  {
    forall i, j, n :: 0 <= i < j < |ds| && n in t[ds[i]] ==> n !in t[ds[j]]
  }

  ghost predicate ApartFromLive(t: Tree, ds: seq<string>)
    requires LIVE in t && forall d <- ds :: d in t
  {
    forall d, n :: d in ds && n in t[d] ==> n !in t[LIVE]
  }

  lemma {:induction false} PartlyRecoveredConserves(t: Tree, d: string, moved: set<string>)
    requires LIVE in t && d in t && d != LIVE
    requires moved <= t[d].Keys && moved !! t[LIVE].Keys
    ensures Conserved(t, PartlyRecovered(t, d, moved))
    decreases |moved|
  {
    if moved == {} {
      assert Restrict(t[d], moved) == map[];
      assert t[d] - moved == t[d] && t[LIVE] + Restrict(t[d], moved) == t[LIVE];
      assert PartlyRecovered(t, d, moved) == t;
    } else {
      var n :| n in moved;
      var fewer := moved - {n};
      var before := PartlyRecovered(t, d, fewer);
      PartlyRecoveredConserves(t, d, fewer);
      MoveConserves(before, d, LIVE, n);
      OneMoreRecovered(t, d, fewer, n);
      assert fewer + {n} == moved;
      ConservedTransitive(t, before, PartlyRecovered(t, d, moved));
    }
  }

  lemma OneMoreEntry(staged: Entries, live: Entries, moved: set<string>, n: string)
    requires n in staged && n !in moved
    ensures staged - moved - {n} == staged - (moved + {n})
    ensures (live + Restrict(staged, moved))[n := staged[n]] == live + Restrict(staged, moved + {n})
  {
    assert (staged - moved - {n}).Keys == (staged - (moved + {n})).Keys;
    var a := (live + Restrict(staged, moved))[n := staged[n]];
    var b := live + Restrict(staged, moved + {n});
    assert a.Keys == b.Keys;
  }

  lemma OneMoreRecovered(t: Tree, d: string, moved: set<string>, n: string)
    requires LIVE in t && d in t && d != LIVE
    requires moved <= t[d].Keys && n in t[d] && n !in moved
    ensures Move(PartlyRecovered(t, d, moved), d, LIVE, n) == PartlyRecovered(t, d, moved + {n})
  {
    OneMoreEntry(t[d], t[LIVE], moved, n);
  }

  /** A directory not yet drained still holds what it held at the start, and
      the session directory holds every name it or a drained directory had. */
  lemma {:induction false} DrainedFrame(t: Tree, ds: seq<string>)
    requires LIVE in t && LIVE !in ds && NoDuplicates(ds) && forall d <- ds :: d in t
    ensures forall d :: d in t && d != LIVE && d !in ds ==> Drained(t, ds)[d] == t[d]
    ensures forall n :: n in Drained(t, ds)[LIVE] <==>
              n in t[LIVE] || exists d :: d in ds && n in t[d]
  {
    if ds != [] {
      var init, last := ds[..|ds| - 1], ds[|ds| - 1];
      assert forall d :: d in ds <==> d in init || d == last;
      DrainedFrame(t, init);
    }
  }

  lemma DrainStepConserves(t: Tree, d: string)
    requires LIVE in t && d in t && d != LIVE
    requires t[d].Keys !! t[LIVE].Keys
    ensures Conserved(t, PartlyRecovered(t, d, t[d].Keys) - {d})
  {
    var emptied := PartlyRecovered(t, d, t[d].Keys);
    PartlyRecoveredConserves(t, d, t[d].Keys);
    assert emptied[d] == map[];
    EmptyDirectoryConserves(emptied, d);
    ConservedTransitive(t, emptied, emptied - {d});
  }

  lemma {:induction false} DrainedConserves(t: Tree, ds: seq<string>)
    requires LIVE in t && LIVE !in ds && NoDuplicates(ds) && forall d <- ds :: d in t
    requires ApartFromLive(t, ds) && PairwiseApart(t, ds)
    ensures Conserved(t, Drained(t, ds))
  {
    if ds != [] {
      var init, last := ds[..|ds| - 1], ds[|ds| - 1];
      assert forall d :: d in init ==> d in ds;
      DrainedConserves(t, init);
      DrainedFrame(t, init);
      assert last !in init;
      forall n | n in t[last] ensures n !in Drained(t, init)[LIVE] {
        forall i | 0 <= i < |init| ensures n !in t[init[i]] {
          assert init[i] == ds[i];
        }
      }
      DrainStepConserves(Drained(t, init), last);
      ConservedTransitive(t, Drained(t, init), Drained(t, ds));
    }
  }

  lemma DrainStepOwners(t: Tree, d: string, n: string)
    requires LIVE in t && d in t && d != LIVE
    ensures |Owners(PartlyRecovered(t, d, t[d].Keys) - {d}, n)|
         == |Owners(t, n)| - if n in t[d] && n in t[LIVE] then 1 else 0
  {
    var t' := PartlyRecovered(t, d, t[d].Keys) - {d};
    var here, there := Owners(t, n), Owners(t', n);
    assert t'[LIVE].Keys == t[LIVE].Keys + t[d].Keys;
    assert forall e :: e in t' && e != LIVE ==> t'[e] == t[e];
    if n !in t[d] {
      forall e ensures e in there <==> e in here {
      }
      assert there == here;
    } else if n in t[LIVE] {
      forall e ensures e in there <==> e in here - {d} {
      }
      assert there == here - {d};
    } else {
      forall e ensures e in there <==> e in here - {d} + {LIVE} {
      }
      assert there == here - {d} + {LIVE};
      SwapKeepsSize(here, d, LIVE);
    }
  }

  lemma DrainOnce(t: Tree, ds: seq<string>)
    requires LIVE in t && LIVE !in ds && NoDuplicates(ds) && forall d <- ds :: d in t
    requires ds != []
    ensures var init, last := ds[..|ds| - 1], ds[|ds| - 1];
      && LIVE !in init && NoDuplicates(init) && (forall d <- init :: d in t) && last !in init && last != LIVE
      && last in Drained(t, init) && Drained(t, init)[last] == t[last]
      && Drained(t, ds) == PartlyRecovered(Drained(t, init), last, t[last].Keys) - {last}
  {
    var init := ds[..|ds| - 1];
    forall d | d in init ensures d in ds {
    }
    DrainedFrame(t, init);
  }

  lemma {:induction false} DrainedOwners(t: Tree, ds: seq<string>, n: string)
    requires LIVE in t && LIVE !in ds && NoDuplicates(ds) && forall d <- ds :: d in t
    ensures |Owners(Drained(t, ds), n)| <= |Owners(t, n)|
    decreases |ds|
  {
    if ds != [] {
      var init, last := ds[..|ds| - 1], ds[|ds| - 1];
      DrainOnce(t, ds);
      DrainedOwners(t, init, n);
      DrainStepOwners(Drained(t, init), last, n);
    }
  }

  /** A name staged in two drained directories ends up in one place fewer. */
  lemma {:induction false} DrainedOverlap(t: Tree, ds: seq<string>, n: string, i: nat, j: nat)
    requires LIVE in t && LIVE !in ds && NoDuplicates(ds) && forall d <- ds :: d in t
    requires i < j < |ds| && n in t[ds[i]] && n in t[ds[j]]
    ensures |Owners(Drained(t, ds), n)| < |Owners(t, n)|
    decreases |ds|
  {
    var init, last := ds[..|ds| - 1], ds[|ds| - 1];
    DrainOnce(t, ds);
    DrainStepOwners(Drained(t, init), last, n);
    if j < |init| {
      DrainedOverlap(t, init, n, i, j);
    } else {
      DrainedOwners(t, init, n);
      DrainedHas(t, init, init[i], n);
    }
  }

  lemma DrainedHas(t: Tree, ds: seq<string>, d: string, n: string)
    requires LIVE in t && LIVE !in ds && NoDuplicates(ds) && forall d <- ds :: d in t
    requires d in ds && n in t[d]
    ensures n in Drained(t, ds)[LIVE]
  {
    DrainedFrame(t, ds);
  }

  lemma {:induction false} DrainedOverLive(t: Tree, ds: seq<string>, n: string, j: nat)
    requires LIVE in t && LIVE !in ds && NoDuplicates(ds) && forall d <- ds :: d in t
    requires j < |ds| && n in t[ds[j]] && n in t[LIVE]
    ensures |Owners(Drained(t, ds), n)| < |Owners(t, n)|
    decreases |ds|
  {
    hide Drained, PartlyRecovered;
    var init, last := ds[..|ds| - 1], ds[|ds| - 1];
    DrainOnce(t, ds);
    DrainStepOwners(Drained(t, init), last, n);
    if j < |init| {
      DrainedOverLive(t, init, n, j);
    } else {
      DrainedOwners(t, init, n);
      DrainedFrame(t, init);
    }
  }

  /** Recovery keeps every file exactly when no name is staged twice and none is
      live as well. The preflight looks at the live names only. */
  lemma RecoveryConservesIff(t: Tree, ds: seq<string>)
    requires LIVE in t && LIVE !in ds && NoDuplicates(ds) && forall d <- ds :: d in t
    ensures Conserved(t, Drained(t, ds)) <==> PairwiseApart(t, ds) && ApartFromLive(t, ds)
  {
    if !ApartFromLive(t, ds) {
      var d, n :| d in ds && n in t[d] && n in t[LIVE];
      var j :| 0 <= j < |ds| && ds[j] == d;
      DrainedOverLive(t, ds, n, j);
    } else if PairwiseApart(t, ds) {
      DrainedConserves(t, ds);
    } else {
      var i, j, n :| 0 <= i < j < |ds| && n in t[ds[i]] && n in t[ds[j]];
      DrainedOverlap(t, ds, n, i, j);
    }
  }
}
