/** Every tree that recovery, staging, rollback and publication of one reset
    can leave behind, and what holds of any number of resets, each of which may
    be cut short anywhere. */
module ResetProtocol {
  import opened Basics
  import opened SessionTree

  /** How far a reset got before it ended, failed or was killed. `done` lists
      the staging directories recovery had emptied and removed. Of the current
      one it had moved the files `attempted` back, and `moved` of them still are
      live. */
  datatype Trail =
    | Recovering(done: seq<string>, current: string, attempted: set<string>, moved: set<string>)
    | Recovered(done: seq<string>)
    | Staging(done: seq<string>, backup: string, moved: set<string>)
    | Published(done: seq<string>, backup: string, published: string)

  /** The session files found live, by name. */
  function LiveNames(t: Tree, session: string): set<string>
    requires LIVE in t
  {
    set n | n in SessionNames(session) && n in t[LIVE]
  }

  /** The tree with new directory `d` holding the live entries `moved`. */
  function Staged(t: Tree, d: string, moved: set<string>): (r: Tree)
    requires LIVE in t && d != LIVE
    ensures r.Keys == t.Keys + {d}
  {
    t[d := Restrict(t[LIVE], moved)][LIVE := t[LIVE] - moved]
  }

  ghost function StagingDirectories(t: Tree): set<string> {
    set d | d in t && IsStaging(d)
  }

  ghost predicate DrainsAll(t: Tree, done: seq<string>) {
    AreStaging(t, done) && Elements(done) == StagingDirectories(t)
  }

  lemma StagingIsNotLive(t: Tree, ds: seq<string>)
    requires AreStaging(t, ds)
    ensures LIVE !in ds
  {
    assert |BACKUP_PREFIX| > |LIVE|;
  }

  /** A fresh directory may stage `moved`: regular session files, live once
      recovery is done. */
  ghost predicate MayStage(t: Tree, session: string, backup: string, moved: set<string>)
    requires LIVE in t
  {
    && IsStaging(backup) && backup !in t
    && moved <= LiveNames(t, session)
    && forall n <- moved :: t[LIVE][n].Regular?
  }

  ghost predicate Valid(t: Tree, session: string, trail: Trail)
    requires LIVE in t
  {
    match trail
    case Recovering(done, current, attempted, moved) =>
      && AreStaging(t, done)
      && current in t && IsStaging(current) && current !in done
      && moved <= attempted <= t[current].Keys
    case Recovered(done) =>
      AreStaging(t, done)
    case Staging(done, backup, moved) =>
      DrainsAll(t, done) && (StagingIsNotLive(t, done); true)
      && MayStage(Drained(t, done), session, backup, moved)
    case Published(done, backup, published) =>
      DrainsAll(t, done) && (StagingIsNotLive(t, done); true)
      && var t1 := Drained(t, done);
      && MayStage(t1, session, backup, LiveNames(t1, session))
      && LiveNames(t1, session) != {}
      && PublishedName(backup) == Some(published)
      && published != backup
      && (published !in t1 || (published != LIVE && t1[published] == map[]))
  }

  ghost function At(t: Tree, session: string, trail: Trail): Tree
    requires LIVE in t && Valid(t, session, trail)
  {
    match trail
    case Recovering(done, current, attempted, moved) =>
      StagingIsNotLive(t, done);
      assert current != LIVE by { StagingIsNotLive(t, [current]); }
      PartlyRecovered(Forget(Drained(t, done), attempted), current, moved)
    case Recovered(done) =>
      StagingIsNotLive(t, done);
      Drained(t, done)
    case Staging(done, backup, moved) =>
      StagingIsNotLive(t, done);
      Staged(Drained(t, done), backup, moved)
    case Published(done, backup, published) =>
      StagingIsNotLive(t, done);
      var t1 := Drained(t, done);
      RenameDirectory(Staged(t1, backup, LiveNames(t1, session)), backup, published)
  }

  // ------------------------------------------------------- the preflight

  /** What the session directory lists: its files and its subdirectories. */
  function Listing(t: Tree): set<string>
    requires LIVE in t
  {
    t[LIVE].Keys + (t.Keys - {LIVE})
  }

  /** A staged file that may be put back: a regular session file whose live name
      is free, or is one of `blind`: a look that fails is taken for a free name. */
  ghost predicate ChildAllowed(t: Tree, session: string, blind: set<string>, d: string, child: string)
    requires LIVE in t && d in t && child in t[d]
  {
    child in SessionNames(session) && t[d][child].Regular? && (child !in Listing(t) || child in blind)
  }

  /** The condition under which the preflight lets recovery start. */
  ghost predicate Recoverable(t: Tree, session: string, blind: set<string>)
    requires LIVE in t
  {
    && (forall n :: n in t[LIVE] ==> !IsStaging(n))
    && (forall d, n :: d in t && IsStaging(d) && n in t[d] ==> ChildAllowed(t, session, blind, d, n))
  }

  // -------------------------------------------------- one reset, anywhere

  /** A finished backup: a directory with content which recovery leaves alone. */
  predicate IsBackup(t: Tree, d: string) {
    d in t && d != LIVE && !IsStaging(d) && t[d] != map[]
  }

  ghost predicate BackupsKept(t: Tree, t': Tree) {
    forall d :: IsBackup(t, d) ==> d in t' && t'[d] == t[d]
  }

  lemma ListedAreEqual(t: Tree, done: seq<string>, i: nat, j: nat)
    requires AtMostOneStaging(t) && AreStaging(t, done) && i < |done| && j < |done|
    ensures done[i] == done[j]
  {
    assert done[i] in done && done[j] in done;
  }

  lemma AtMostOneListed(t: Tree, done: seq<string>)
    requires AtMostOneStaging(t) && AreStaging(t, done)
    ensures |done| <= 1
  {
    if 1 < |done| {
      ListedAreEqual(t, done, 0, 1);
    }
  }

  lemma SafeDrain(t: Tree, session: string, done: seq<string>)
    requires Safe(t, session) && AreStaging(t, done)
    ensures LIVE !in done
    ensures Conserved(t, Drained(t, done)) && Safe(Drained(t, done), session)
    ensures BackupsKept(t, Drained(t, done))
    ensures forall d :: d in Drained(t, done) && d != LIVE ==> Drained(t, done)[d] == t[d]
    ensures DrainsAll(t, done) ==> forall d :: d in Drained(t, done) ==> !IsStaging(d)
  {
    StagingIsNotLive(t, done);
    AtMostOneListed(t, done);
    DrainedConserves(t, done);
    DrainedFrame(t, done);
  }

  /** Putting files into a fresh directory is recovering them read backwards. */
  lemma StagedConserves(t: Tree, d: string, moved: set<string>)
    requires LIVE in t && d !in t && moved <= t[LIVE].Keys
    ensures Conserved(t, Staged(t, d, moved))
  {
    var t' := Staged(t, d, moved);
    PartlyRecoveredConserves(t', d, moved);
    var back := PartlyRecovered(t', d, moved);
    StagedAndBack(t[LIVE], moved);
    assert back == t[d := map[]];
    EmptyDirectoryConserves(t, d);
    forall n, node ensures |Holders(t', n, node)| == |Holders(t, n, node)| {
      assert |Holders(back, n, node)| == |Holders(t', n, node)|;
    }
    forall n ensures |Owners(t', n)| == |Owners(t, n)| {
      assert |Owners(back, n)| == |Owners(t', n)|;
    }
  }

  lemma StagedAndBack(live: Entries, moved: set<string>)
    requires moved <= live.Keys
    ensures Restrict(live, moved) - moved == map[]
    ensures live - moved + Restrict(Restrict(live, moved), moved) == live
  {
    assert (live - moved + Restrict(Restrict(live, moved), moved)).Keys == live.Keys;
  }

  lemma StagedIsSafe(t: Tree, session: string, d: string, moved: set<string>)
    requires Safe(t, session) && MayStage(t, session, d, moved)
    requires forall e :: e in t ==> !IsStaging(e)
    ensures d != LIVE
    ensures Conserved(t, Staged(t, d, moved)) && Safe(Staged(t, d, moved), session)
    ensures BackupsKept(t, Staged(t, d, moved))
  {
    StagingIsNotLive(map[d := map[]], [d]);
    StagedConserves(t, d, moved);
  }

  lemma PublishedIsSafe(t: Tree, session: string, d: string, published: string)
    requires Safe(t, session) && d in t && IsStaging(d)
    requires PublishedName(d) == Some(published)
    requires published !in t || t[published] == map[]
    ensures d != published
    ensures Conserved(t, RenameDirectory(t, d, published))
    ensures Safe(RenameDirectory(t, d, published), session)
    ensures BackupsKept(t, RenameDirectory(t, d, published))
  {
    PublishedIsNeverStaging(d);
    RenameDirectoryConserves(t, d, published);
    StagingIsNotLive(t, [d]);
  }

  /** Wherever one reset stops, nothing is lost, duplicated or altered, the
      invariant holds again and finished backups are as they were. */
  lemma OneResetIsSafe(t: Tree, session: string, trail: Trail)
    requires Safe(t, session) && Valid(t, session, trail)
    ensures Safe(At(t, session, trail), session)
    ensures Conserved(t, At(t, session, trail))
    ensures BackupsKept(t, At(t, session, trail))
  {
    SafeDrain(t, session, trail.done);
    var t1 := Drained(t, trail.done);
    var t' := At(t, session, trail);
    match trail
    case Recovering(done, current, attempted, moved) =>
      StagingIsNotLive(t, [current]);
      ForgetNothing(t1, attempted);
      PartlyRecoveredConserves(t1, current, moved);
    case Recovered(done) =>
    case Staging(done, backup, moved) =>
      StagedIsSafe(t1, session, backup, moved);
    case Published(done, backup, published) =>
      StagedIsSafe(t1, session, backup, LiveNames(t1, session));
      var t2 := Staged(t1, backup, LiveNames(t1, session));
      PublishedIsNeverStaging(backup);
      PublishedIsSafe(t2, session, backup, published);
      ConservedTransitive(t1, t2, t');
    if !trail.Recovered? {
      ConservedTransitive(t, t1, t');
    }
  }

  // --------------------------------------------------- any number of resets

  ghost predicate ResetStep(t: Tree, session: string, t': Tree)
    requires LIVE in t
  {
    exists trail :: Valid(t, session, trail) && t' == At(t, session, trail)
  }

  /** Trees left by successive resets of one session, each run to its end, to
      an error or to a crash. */
  ghost predicate Runs(ts: seq<Tree>, session: string) {
    && ts != []
    && (forall i :: 0 <= i < |ts| ==> LIVE in ts[i])
    && forall i :: 0 <= i < |ts| - 1 ==> ResetStep(ts[i], session, ts[i + 1])
  }

  lemma StepIsSafe(t: Tree, session: string, t': Tree)
    requires Safe(t, session) && ResetStep(t, session, t')
    ensures Safe(t', session) && Conserved(t, t') && BackupsKept(t, t')
  {
    var trail :| Valid(t, session, trail) && t' == At(t, session, trail);
    OneResetIsSafe(t, session, trail);
  }

  lemma BackupsKeptTransitive(a: Tree, b: Tree, c: Tree)
    requires BackupsKept(a, b) && BackupsKept(b, c)
    ensures BackupsKept(a, c)
  {
    forall d | IsBackup(a, d) ensures d in c && c[d] == a[d] {
      assert IsBackup(b, d);
    }
  }

  /** Any number of resets, each ended anywhere, keep the invariant, lose,
      duplicate or alter no file, and leave finished backups alone. */
  lemma {:induction false} RunsAreSafe(ts: seq<Tree>, session: string)
    requires Runs(ts, session) && Safe(ts[0], session)
    ensures Safe(ts[|ts| - 1], session)
    ensures Conserved(ts[0], ts[|ts| - 1])
    ensures BackupsKept(ts[0], ts[|ts| - 1])
    decreases |ts|
  {
    if |ts| == 1 {
      assert Conserved(ts[0], ts[0]);
    } else {
      var n := |ts| - 1;
      RunsPrefix(ts, session);
      RunsAreSafe(ts[..n], session);
      var t, t' := ts[n - 1], ts[n - 1 + 1];
      assert ResetStep(ts[n - 1], session, ts[n - 1 + 1]);
      StepIsSafe(t, session, t');
      ConservedTransitive(ts[0], t, t');
      BackupsKeptTransitive(ts[0], t, t');
    }
  }

  lemma RunsPrefix(ts: seq<Tree>, session: string)
    requires Runs(ts, session) && |ts| > 1
    ensures Runs(ts[..|ts| - 1], session)
  {
    var init := ts[..|ts| - 1];
    forall i | 0 <= i < |init| - 1 ensures ResetStep(init[i], session, init[i + 1]) {
      assert init[i] == ts[i] && init[i + 1] == ts[i + 1];
    }
  }

  /** The holders of a file other than the backups finished before. */
  ghost function OpenHolders(t: Tree, before: Tree, name: string, node: Node): set<string> {
    set d | d in Holders(t, name, node) && !IsBackup(before, d)
  }

  lemma OpenHoldersKept(t: Tree, t': Tree, name: string, node: Node)
    requires Conserved(t, t') && BackupsKept(t, t')
    ensures |OpenHolders(t', t, name, node)| == |OpenHolders(t, t, name, node)|
  {
    var old' := set d | d in Holders(t, name, node) && IsBackup(t, d);
    assert old' == set d | d in Holders(t', name, node) && IsBackup(t, d);
    assert Holders(t, name, node) == OpenHolders(t, t, name, node) + old';
    assert Holders(t', name, node) == OpenHolders(t', t, name, node) + old';
    assert OpenHolders(t, t, name, node) !! old' && OpenHolders(t', t, name, node) !! old';
  }

  /** Nothing is staged and no session file is live. */
  ghost predicate Settled(t: Tree, session: string)
    requires LIVE in t
  {
    && (forall d :: d in t ==> !IsStaging(d))
    && LiveNames(t, session) == {}
  }

  /** Settled: none of the four session files is live, and no name between the
      staging markers is left. */
  lemma SettledMeans(t: Tree, session: string)
    requires LIVE in t && Settled(t, session)
    ensures session !in t[LIVE] && session + "-journal" !in t[LIVE]
    ensures session + "-wal" !in t[LIVE] && session + "-shm" !in t[LIVE]
    ensures forall stamp :: ".session-backup-" + stamp + ".staging" !in t
  {
    forall n | n in SessionNames(session) ensures n !in t[LIVE] {
      assert n !in LiveNames(t, session);
    }
    SessionNamesAre(session, session);
    SessionNamesAre(session, session + "-journal");
    SessionNamesAre(session, session + "-wal");
    SessionNamesAre(session, session + "-shm");
    forall stamp ensures ".session-backup-" + stamp + ".staging" !in t {
      StagingNameIsStaging(stamp);
      StampNames(stamp);
    }
  }

  /** The session file `name` is live, or left in a staging directory. */
  ghost predicate IsOpen(t: Tree, name: string, node: Node) {
    exists d :: d in Holders(t, name, node) && (d == LIVE || IsStaging(d))
  }

  /** In a safe tree a file that is live or staged is so in one place. */
  lemma OpenOnce(t: Tree, session: string, name: string, node: Node)
    requires Safe(t, session) && IsOpen(t, name, node)
    ensures |OpenHolders(t, t, name, node)| == 1
  {
    var d :| d in Holders(t, name, node) && (d == LIVE || IsStaging(d));
    assert d in OpenHolders(t, t, name, node);
    forall e | e in OpenHolders(t, t, name, node) ensures e == d {
      assert e == LIVE || IsStaging(e);
    }
    assert OpenHolders(t, t, name, node) == {d};
  }

  /** A backup that was not there before is the one new place of the file. */
  ghost predicate PublishedOnce(before: Tree, after: Tree, name: string, node: Node) {
    exists b ::
      && OpenHolders(after, before, name, node) == {b}
      && IsBackup(after, b) && !IsBackup(before, b)
  }

  /** However many resets failed or died on the way, once one of them settles
      the directory every session file that was live or staged at the start is
      in exactly one backup, and that backup was not there before. */
  lemma SettledRunsPublishOnce(ts: seq<Tree>, session: string, name: string, node: Node)
    requires Runs(ts, session) && Safe(ts[0], session)
    requires Settled(ts[|ts| - 1], session)
    requires name in SessionNames(session) && IsOpen(ts[0], name, node)
    ensures PublishedOnce(ts[0], ts[|ts| - 1], name, node)
  {
    var t, t' := ts[0], ts[|ts| - 1];
    RunsAreSafe(ts, session);
    OpenOnce(t, session, name, node);
    OpenHoldersKept(t, t', name, node);
    var open := OpenHolders(t', t, name, node);
    var b :| b in open;
    assert open == {b} by {
      assert |open - {b}| == 0;
    }
    assert b != LIVE by {
      assert name !in LiveNames(t', session);
    }
  }

  const FIRST := StagingName("1")
  const SECOND := StagingName("2")

  /** Two staging directories which both hold file "s". */
  const COLLIDING: Tree :=
    map[LIVE := map[], FIRST := map["s" := Regular([1])], SECOND := map["s" := Regular([2])]]

  lemma CollidingPasses()
    ensures Recoverable(COLLIDING, "s", {})
  {
    StagingIsNotLive(COLLIDING, []);
    assert "s" in SessionNames("s");
    assert "s"[0] != FIRST[0] && "s"[0] != SECOND[0];
  }

  /** The preflight accepts them and one copy is overwritten, so the bound of
      one staging directory cannot be dropped from the invariant. */
  lemma TwoStagingDirectoriesLoseAFile()
    ensures Recoverable(COLLIDING, "s", {})
    ensures DrainsAll(COLLIDING, [FIRST, SECOND])
    ensures ApartFromLive(COLLIDING, [FIRST, SECOND]) && LIVE !in [FIRST, SECOND]
    ensures !Conserved(COLLIDING, Drained(COLLIDING, [FIRST, SECOND]))
  {
    hide Recoverable;
    CollidingPasses();
    StagingNameIsStaging("1");
    StagingNameIsStaging("2");
    assert FIRST[|BACKUP_PREFIX|] == '1' && SECOND[|BACKUP_PREFIX|] == '2';
    var ds := [FIRST, SECOND];
    assert !IsStaging(LIVE);
    assert Elements(ds) == {FIRST, SECOND} == StagingDirectories(COLLIDING);
    assert ds[0] == FIRST && ds[1] == SECOND;
    assert "s" in COLLIDING[ds[0]] && "s" in COLLIDING[ds[1]];
    RecoveryConservesIff(COLLIDING, ds);
  }

  /** With every look working, the preflight lets nothing pass that is live. */
  lemma PreflightKeepsApart(t: Tree, session: string, done: seq<string>)
    requires LIVE in t && Recoverable(t, session, {}) && AreStaging(t, done)
    ensures LIVE !in done && ApartFromLive(t, done)
  {
    StagingIsNotLive(t, done);
    forall d, n | d in done && n in t[d] ensures n !in t[LIVE] {
      assert ChildAllowed(t, session, {}, d, n);
    }
  }

  /** File "s" was staged by a reset that failed, and a new one is live. */
  const RENEWED: Tree := map[LIVE := map["s" := Regular([1])], FIRST := map["s" := Regular([2])]]

  /** The preflight refuses that tree, unless its look at the live file fails:
      then the live file is replaced. */
  lemma FailedLookLosesAFile()
    ensures !Recoverable(RENEWED, "s", {}) && Recoverable(RENEWED, "s", {"s"})
    ensures DrainsAll(RENEWED, [FIRST]) && LIVE !in [FIRST]
    ensures !Conserved(RENEWED, Drained(RENEWED, [FIRST]))
  {
    StagingNameIsStaging("1");
    assert "s" in SessionNames("s") && "s" in RENEWED[FIRST] && "s" in RENEWED[LIVE];
    assert "s"[0] != FIRST[0] && !IsStaging(LIVE);
    assert !ChildAllowed(RENEWED, "s", {}, FIRST, "s");
    assert Elements([FIRST]) == {FIRST} == StagingDirectories(RENEWED);
    assert FIRST in [FIRST];
    RecoveryConservesIff(RENEWED, [FIRST]);
  }
}
