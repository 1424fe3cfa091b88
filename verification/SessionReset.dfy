/** `auth reset --backup`: recovery of staged files, staging, publication and
    rollback (src/app.rs), on a disk whose operations may fail and on which the
    process may be killed before any operation. */
module SessionReset {
  import opened Basics
  import opened SessionTree
  import opened ResetProtocol

  datatype ClientError =
    | SessionLocked
    | InvalidSessionFile
    | InspectSession
    | CreateSessionBackup
    | BackupSessionFile

  /** From operation `from` on, the `count`-th is the first that does not work. */
  ghost predicate StopsAt(fate: nat -> Fate, from: nat, count: nat) {
    WorksFor(fate, from, count) && !fate(from + count).Works?
  }

  lemma PrefixElements<T>(s: seq<T>, k: nat)
    requires k <= |s|
    ensures Elements(s[..k]) <= Elements(s)
  {
  }

  /** One more operation, which works or is the first that does not. */
  lemma NextWorks(fate: nat -> Fate, from: nat, count: nat)
    requires count == 0 || WorksFor(fate, from, count)
    ensures count == 0 ==> WorksFor(fate, from, 0)
    ensures if fate(from + count).Works? then WorksFor(fate, from, count + 1) else StopsAt(fate, from, count)
    ensures fate(from + count).Works? ==> forall k: nat :: StopsAt(fate, from, k) ==> k > count
    ensures !fate(from + count).Works? ==>
      && (forall k: nat :: StopsAt(fate, from, k) ==> k == count)
      && (forall n: nat :: WorksFor(fate, from, n) ==> n <= count)
  {
    assert forall i: nat :: from <= i < from + count ==> fate(i).Works?;
  }

  /** The file system seen by one process. `fate` decides how the n-th
      operation ends; the preflight's looks at the names of `blind` fail. Once
      the process has died no operation has any effect, so what a method
      promises about `tree` holds at every possible crash. */
  class Disk {
    var tree: Tree
    var clock: nat
    var dead: bool
    ghost var faults: nat
    const fate: nat -> Fate
    const blind: set<string>

    ghost predicate Valid() reads this {
      LIVE in tree
    }

    constructor (tree: Tree, fate: nat -> Fate, blind: set<string>)
      requires LIVE in tree
      ensures Valid() && this.tree == tree && this.fate == fate && this.blind == blind
      ensures !dead && faults == 0
    {
      this.tree, this.fate, this.blind := tree, fate, blind;
      clock, dead, faults := 0, false, 0;
    }

    /** A disk on which everything works counts no fault and kills nobody. */
    twostate predicate Steady() reads this {
      AlwaysWorks(fate) ==> faults == old(faults) && dead == old(dead)
    }

    /** One operation that looks at the disk or syncs it. */
    method Try() returns (ok: bool)
      modifies this`clock, this`dead, this`faults
      ensures Steady()
      ensures !ok ==> dead || faults == old(faults) + 1
      ensures ok <==> !old(dead) && fate(old(clock)).Works?
      ensures clock == if old(dead) then old(clock) else old(clock) + 1
      ensures ok ==> !dead
      ensures ok || dead ==> faults == old(faults)
      ensures old(dead) ==> dead
    {
      if dead {
        return false;
      }
      var f := fate(clock);
      clock := clock + 1;
      match f {
        case Works => return true;
        case Fails => faults := faults + 1; return false;
        case Dies => dead := true; return false;
      }
    }

    /** Two directories synced, the second only when the first was. */
    method SyncBoth() returns (ok: bool)
      modifies this`clock, this`dead, this`faults
      ensures Steady()
      ensures ok <==> !old(dead) && WorksFor(fate, old(clock), 2)
      ensures ok ==> clock == old(clock) + 2 && !dead
      ensures !ok ==> dead || faults == old(faults) + 1
      ensures ok || dead ==> faults == old(faults)
      ensures old(dead) ==> dead
    {
      ok := Try();
      if ok {
        ok := Try();
      }
    }

    /** rename(2) of one file between two directories; a directory of that name
        in the way makes it fail. */
    method Rename(from: string, to: string, name: string) returns (ok: bool)
      requires Valid() && from != to && from in tree && to in tree && name in tree[from]
      modifies this`tree, this`clock, this`dead, this`faults
      ensures Steady()
      ensures Valid()
      ensures tree == if ok then Move(old(tree), from, to, name) else old(tree)
      ensures !ok ==> dead || faults == old(faults) + 1 || (to == LIVE && name in tree)
      ensures !(to == LIVE && name in old(tree)) ==>
        && (ok <==> !old(dead) && fate(old(clock)).Works?)
        && clock == if old(dead) then old(clock) else old(clock) + 1
      ensures ok ==> clock == old(clock) + 1 && fate(old(clock)).Works?
      ensures old(faults) <= faults <= old(faults) + 1
      ensures ok ==> !dead
      ensures ok || dead ==> faults == old(faults)
      ensures old(dead) ==> dead
    {
      if to == LIVE && name in tree {
        return false;
      }
      ok := Try();
      if ok {
        tree := Move(tree, from, to, name);
      }
    }

    method RemoveEmptyDirectory(d: string) returns (ok: bool)
      requires Valid() && d in tree && d != LIVE && tree[d] == map[]
      modifies this`tree, this`clock, this`dead, this`faults
      ensures Steady()
      ensures Valid()
      ensures tree == if ok then old(tree) - {d} else old(tree)
      ensures ok <==> !old(dead) && fate(old(clock)).Works?
      ensures clock == if old(dead) then old(clock) else old(clock) + 1
      ensures !ok ==> dead || faults == old(faults) + 1
      ensures ok ==> !dead
      ensures ok || dead ==> faults == old(faults)
      ensures old(dead) ==> dead
    {
      ok := Try();
      if ok {
        tree := tree - {d};
      }
    }

    /** Removes an empty directory and syncs the one it was in. */
    method RemoveAndSync(d: string) returns (removed: bool, synced: bool)
      requires Valid() && d in tree && d != LIVE && tree[d] == map[]
      modifies this`tree, this`clock, this`dead, this`faults
      ensures Steady()
      ensures Valid()
      ensures tree == if removed then old(tree) - {d} else old(tree)
      ensures removed <==> !old(dead) && fate(old(clock)).Works?
      ensures synced <==> !old(dead) && WorksFor(fate, old(clock), 2)
      ensures synced ==> clock == old(clock) + 2 && !dead
      ensures !synced ==> dead || faults == old(faults) + 1
      ensures synced || dead ==> faults == old(faults)
      ensures old(dead) ==> dead
    {
      synced := false;
      removed := RemoveEmptyDirectory(d);
      if removed {
        synced := Try();
      }
    }

    method MakeDirectory(d: string) returns (ok: bool)
      requires Valid() && d != LIVE
      modifies this`tree, this`clock, this`dead, this`faults
      ensures Steady()
      ensures Valid()
      ensures ok ==> d !in Listing(old(tree)) && tree == old(tree)[d := map[]] && !dead
      ensures ok ==> clock == old(clock) + 1 && fate(old(clock)).Works?
      ensures !ok ==> tree == old(tree)
      ensures !ok ==> dead || faults == old(faults) + 1 || d in Listing(tree)
      ensures old(faults) <= faults <= old(faults) + 1
      ensures ok || dead ==> faults == old(faults)
      ensures old(dead) ==> dead
    {
      if d in Listing(tree) {
        return false;
      }
      ok := Try();
      if ok {
        tree := tree[d := map[]];
      }
    }

    /** rename(2) of a directory: a file or a directory with content in the way
        makes it fail. */
    method RenameFolder(from: string, to: string) returns (ok: bool)
      requires Valid() && from in tree && from != to && from != LIVE && to != LIVE
      modifies this`tree, this`clock, this`dead, this`faults
      ensures Steady()
      ensures Valid()
      ensures ok ==> tree == RenameDirectory(old(tree), from, to) && !dead
      ensures ok ==> to !in old(tree) || old(tree)[to] == map[]
      ensures ok ==> clock == old(clock) + 1 && fate(old(clock)).Works?
      ensures !ok ==> tree == old(tree)
      ensures !ok ==> dead || faults == old(faults) + 1 || to in Listing(tree)
      ensures old(faults) <= faults <= old(faults) + 1
      ensures ok || dead ==> faults == old(faults)
      ensures old(dead) ==> dead
    {
      if to in tree[LIVE] || (to in tree && tree[to] != map[]) {
        return false;
      }
      ok := Try();
      if ok {
        tree := RenameDirectory(tree, from, to);
      }
    }
  }

  // ------------------------------------------------------------ recovery

  datatype StagedDirectory = StagedDirectory(dir: string, children: seq<string>)

  function Directories(staged: seq<StagedDirectory>): (r: seq<string>)
    ensures |r| == |staged|
    ensures forall i :: 0 <= i < |r| ==> r[i] == staged[i].dir
  {
    seq(|staged|, i requires 0 <= i < |staged| => staged[i].dir)
  }

  ghost predicate Surveyed(t: Tree, staged: seq<StagedDirectory>) {
    && DrainsAll(t, Directories(staged))
    && forall s <- staged :: s.dir in t && NoDuplicates(s.children) && Elements(s.children) == t[s.dir].Keys
  }

  /** Every child of the directory may be put back. */
  ghost predicate AllAllowed(t: Tree, session: string, blind: set<string>, d: string)
    requires LIVE in t && d in t
  {
    forall n :: n in t[d] ==> ChildAllowed(t, session, blind, d, n)
  }

  lemma EveryoneAllowed(t: Tree, session: string, blind: set<string>, d: string)
    requires LIVE in t && d in t && forall n :: n in t[d] ==> ChildAllowed(t, session, blind, d, n)
    ensures AllAllowed(t, session, blind, d)
  {
  }

  method SurveyChildren(disk: Disk, session: string, d: string) returns (r: Option<seq<string>>)
    requires disk.Valid() && d in disk.tree && d != LIVE
    modifies disk`clock, disk`dead, disk`faults
    ensures disk.Steady()
    ensures old(disk.dead) ==> disk.dead && r.None?
    ensures disk.faults >= old(disk.faults)
    ensures r.Some? ==> !disk.dead && disk.faults == old(disk.faults)
    ensures r.Some? ==> NoDuplicates(r.value) && Elements(r.value) == disk.tree[d].Keys
    ensures r.Some? ==> disk.clock == old(disk.clock) + 1 + |r.value|
    ensures r.Some? ==> AllAllowed(disk.tree, session, disk.blind, d)
    ensures r.None? && disk.faults == old(disk.faults) && !disk.dead ==> !AllAllowed(disk.tree, session, disk.blind, d)
  {
    hide ChildAllowed, SessionNames, Listing, AllAllowed;
    var listed := disk.Try();
    if !listed {
      return None;
    }
    var t := disk.tree;
    var remaining := t[d].Keys;
    var children := [];
    while remaining != {}
      invariant remaining <= t[d].Keys && !disk.dead
      invariant disk.faults == old(disk.faults) && !old(disk.dead)
      invariant disk.clock == old(disk.clock) + 1 + |children|
      invariant NoDuplicates(children) && Elements(children) == t[d].Keys - remaining
      invariant forall n :: n in t[d] && n !in remaining ==> ChildAllowed(t, session, disk.blind, d, n)
    {
      var child :| child in remaining;
      remaining := remaining - {child};
      if child !in SessionNames(session) {
        OneNotAllowed(t, session, disk.blind, d, child);
        return None;
      }
      var seen := disk.Try();
      if !seen || !t[d][child].Regular? {
        if seen {
          OneNotAllowed(t, session, disk.blind, d, child);
        }
        return None;
      }
      // A look that fails for any reason is taken for a free name.
      if child !in disk.blind && child in Listing(t) {
        OneNotAllowed(t, session, disk.blind, d, child);
        return None;
      }
      OneAllowed(t, session, disk.blind, d, child);
      assert child !in Elements(children);
      ElementsAppend(children, child);
      children := children + [child];
    }
    EveryoneAllowed(t, session, disk.blind, d);
    return Some(children);
  }

  lemma OneNotAllowed(t: Tree, session: string, blind: set<string>, d: string, child: string)
    requires LIVE in t && d in t && child in t[d]
    requires child !in SessionNames(session) || !t[d][child].Regular? || (child !in blind && child in Listing(t))
    ensures !AllAllowed(t, session, blind, d)
  {
    assert !ChildAllowed(t, session, blind, d, child);
  }

  lemma OneAllowed(t: Tree, session: string, blind: set<string>, d: string, child: string)
    requires LIVE in t && d in t && child in t[d]
    requires child in SessionNames(session) && t[d][child].Regular? && (child in blind || child !in Listing(t))
    ensures ChildAllowed(t, session, blind, d, child)
  {
  }

  /** The preflight: nothing is moved, and it passes exactly when everything
      staged may be put back (unless looking at the disk fails). */
  method Survey(disk: Disk, session: string) returns (r: Option<seq<StagedDirectory>>)
    requires disk.Valid()
    modifies disk`clock, disk`dead, disk`faults
    ensures disk.Steady()
    ensures old(disk.dead) ==> disk.dead && r.None?
    ensures disk.faults >= old(disk.faults)
    ensures r.Some? ==> !disk.dead && disk.faults == old(disk.faults)
    ensures r.Some? ==> Recoverable(disk.tree, session, disk.blind) && Surveyed(disk.tree, r.value)
    ensures r.Some? ==> disk.clock >= old(disk.clock) + 1 + 2 * |r.value|
    ensures r.None? && disk.faults == old(disk.faults) && !disk.dead
            ==> !Recoverable(disk.tree, session, disk.blind)
  {
    var listed := disk.Try();
    if !listed {
      return None;
    }
    var t := disk.tree;
    var remaining := Listing(t);
    var staged := [];
    while remaining != {}
      invariant remaining <= Listing(t) && !disk.dead
      invariant disk.faults == old(disk.faults) && !old(disk.dead)
      invariant disk.clock >= old(disk.clock) + 1 + 2 * |staged|
      invariant AreStaging(t, Directories(staged))
      invariant forall d :: d in t && d !in remaining && IsStaging(d) <==> d in Directories(staged)
      invariant forall n :: n in t[LIVE] && n !in remaining ==> !IsStaging(n)
      invariant forall s <- staged :: s.dir in t && NoDuplicates(s.children) && Elements(s.children) == t[s.dir].Keys
      invariant forall d, n :: d in Directories(staged) && n in t[d] ==> ChildAllowed(t, session, disk.blind, d, n)
    {
      var name :| name in remaining;
      remaining := remaining - {name};
      if IsStaging(name) {
        var seen := disk.Try();
        if !seen || name in t[LIVE] {
          return None;
        }
        var children := SurveyChildren(disk, session, name);
        if children.None? {
          return None;
        }
        var entry := StagedDirectory(name, children.value);
        assert Directories(staged + [entry]) == Directories(staged) + [name];
        staged := staged + [entry];
      }
    }
    return Some(staged);
  }

  /** Moves the children of one staging directory back, undoing the moves when
      one of them fails. Of the files `attempted` those of `moved` end up live;
      whatever live file one of them replaced is gone. */
  method RestoreChildren(disk: Disk, entry: StagedDirectory)
    returns (ok: bool, ghost attempted: set<string>, ghost moved: set<string>)
    requires disk.Valid() && entry.dir in disk.tree && entry.dir != LIVE
    requires NoDuplicates(entry.children) && Elements(entry.children) == disk.tree[entry.dir].Keys
    modifies disk`tree, disk`clock, disk`dead, disk`faults
    ensures disk.Steady()
    ensures disk.Valid() && moved <= attempted <= old(disk.tree)[entry.dir].Keys
    ensures disk.tree == PartlyRecovered(Forget(old(disk.tree), attempted), entry.dir, moved)
    ensures old(disk.dead) ==> disk.dead
    ensures ok ==> disk.tree == PartlyRecovered(old(disk.tree), entry.dir, attempted)
    ensures ok ==> moved == attempted == old(disk.tree)[entry.dir].Keys && disk.faults == old(disk.faults)
    ensures ok ==> disk.clock == old(disk.clock) + |entry.children|
    ensures disk.faults >= old(disk.faults)
    ensures !ok && !disk.dead && disk.faults == old(disk.faults) ==> moved == {}
    ensures !ok && !disk.dead ==> disk.faults > old(disk.faults) || exists c <- entry.children :: c in old(disk.tree)
    ensures !ok && !disk.dead && disk.faults == old(disk.faults) + 1 && (forall c <- entry.children :: c !in old(disk.tree)) ==>
      moved == {}
  {
    var d, children := entry.dir, entry.children;
    ghost var t := disk.tree;
    NothingRecovered(t, d);
    moved := {};
    var i := 0;
    while i < |children|
      invariant 0 <= i <= |children| && disk.Valid()
      invariant moved == Elements(children[..i]) && moved <= t[d].Keys
      invariant disk.clock == old(disk.clock) + i
      invariant disk.tree == PartlyRecovered(t, d, moved)
      invariant old(disk.dead) ==> disk.dead
      invariant disk.faults == old(disk.faults) && disk.Steady()
    {
      var child := children[i];
      PrefixStep(children, i);
      ForgetMoved(t, d, moved);
      var renamed := disk.Rename(d, LIVE, child);
      if !renamed {
        attempted := moved;
        moved := UndoRestore(disk, entry, i, Forget(t, moved));
        return false, attempted, moved;
      }
      OneMoreRecovered(t, d, moved, child);
      moved := moved + {child};
      i := i + 1;
    }
    assert children[..i] == children;
    ForgetMoved(t, d, moved);
    return true, moved, moved;
  }

  /** Renames the first `count` children back into the staging directory, last
      one first, giving up at the first failure. */
  method UndoRestore(disk: Disk, entry: StagedDirectory, count: nat, ghost t: Tree) returns (ghost moved: set<string>)
    requires disk.Valid() && LIVE in t && entry.dir in t && entry.dir != LIVE
    requires NoDuplicates(entry.children) && Elements(entry.children) == t[entry.dir].Keys
    requires count <= |entry.children|
    requires Elements(entry.children[..count]) <= t[entry.dir].Keys
    requires Elements(entry.children[..count]) !! t[LIVE].Keys
    requires disk.tree == PartlyRecovered(t, entry.dir, Elements(entry.children[..count]))
    modifies disk`tree, disk`clock, disk`dead, disk`faults
    ensures disk.Steady()
    ensures disk.Valid() && moved <= Elements(entry.children[..count])
    ensures disk.tree == PartlyRecovered(t, entry.dir, moved)
    ensures old(disk.dead) ==> disk.dead
    ensures disk.faults >= old(disk.faults)
    ensures !disk.dead && disk.faults == old(disk.faults) ==> moved == {}
  {
    hide PartlyRecovered, Move, Elements, NoDuplicates;
    var d, children := entry.dir, entry.children;
    var i := count;
    moved := Elements(children[..count]);
    while i > 0
      invariant 0 <= i <= count && disk.Valid()
      invariant moved == Elements(children[..i]) <= Elements(children[..count])
      invariant disk.tree == PartlyRecovered(t, d, moved)
      invariant old(disk.dead) ==> disk.dead
      invariant disk.faults == old(disk.faults) && disk.Steady()
    {
      var child := children[i - 1];
      PrefixStep(children, i - 1);
      OneLessRecovered(t, d, Elements(children[..i - 1]), child);
      var renamed := disk.Rename(LIVE, d, child);
      if !renamed {
        return;
      }
      moved := Elements(children[..i - 1]);
      i := i - 1;
    }
    NoElements(children[..0]);
  }

  lemma NoElements(s: seq<string>)
    requires s == []
    ensures Elements(s) == {}
  {
  }

  lemma NothingRecovered(t: Tree, d: string)
    requires LIVE in t && d in t && d != LIVE
    ensures PartlyRecovered(t, d, {}) == t
  {
    assert t[d] - {} == t[d] && t[LIVE] + Restrict(t[d], {}) == t[LIVE];
  }

  lemma OneLessRecovered(t: Tree, d: string, moved: set<string>, n: string)
    requires LIVE in t && d in t && d != LIVE
    requires moved <= t[d].Keys && n in t[d] && n !in moved && n !in t[LIVE]
    ensures n in PartlyRecovered(t, d, moved + {n})[LIVE]
    ensures Move(PartlyRecovered(t, d, moved + {n}), LIVE, d, n) == PartlyRecovered(t, d, moved)
  {
    var staged, live := t[d], t[LIVE];
    assert live + Restrict(staged, moved + {n}) - {n} == live + Restrict(staged, moved);
    assert (staged - (moved + {n}))[n := staged[n]] == staged - moved;
  }

  /** Either all files of a directory were moved or none. */
  predicate NothingHalfMoved(t: Tree, trail: Trail) {
    match trail
    case Recovering(_, current, _, moved) => moved == {} || (current in t && moved == t[current].Keys)
    case Staging(_, _, moved) => moved == {}
    case _ => true
  }

  /** Recovery. `trail` says where it ended. */
  method Recover(disk: Disk, session: string) returns (ok: bool, ghost trail: Trail)
    requires disk.Valid() && session != ""
    modifies disk`tree, disk`clock, disk`dead, disk`faults
    ensures disk.Steady()
    ensures disk.Valid()
    ensures trail.Recovering? || trail.Recovered?
    ensures Valid(old(disk.tree), session, trail) && disk.tree == At(old(disk.tree), session, trail)
    ensures old(disk.dead) ==> disk.dead
    ensures disk.faults >= old(disk.faults)
    ensures ok ==> trail.Recovered? && DrainsAll(old(disk.tree), trail.done)
    ensures ok ==> Recoverable(old(disk.tree), session, disk.blind)
    ensures ok ==> disk.faults == old(disk.faults) && !disk.dead
    ensures !Recoverable(old(disk.tree), session, disk.blind) ==> !ok && disk.tree == old(disk.tree)
    // When no name is in the way, one failure leaves nothing half moved, and
    // only a failure stops recovery.
    ensures !ok && !disk.dead && disk.faults == old(disk.faults) + 1 && Recoverable(old(disk.tree), session, {}) ==>
      NothingHalfMoved(old(disk.tree), trail)
    ensures !ok && !disk.dead && disk.faults == old(disk.faults) ==> !Recoverable(old(disk.tree), session, {})
  {
    var survey := Survey(disk, session);
    ghost var t := disk.tree;
    NothingDone(t, session);
    if survey.None? {
      return false, Recovered([]);
    }
    var staged := survey.value;
    ghost var ds := Directories(staged);
    var k := 0;
    while k < |staged|
      invariant 0 <= k <= |staged| && disk.Valid()
      invariant LIVE !in ds[..k] && AreStaging(t, ds[..k]) && disk.tree == Drained(t, ds[..k])
      invariant !disk.dead && !old(disk.dead)
      invariant disk.faults == old(disk.faults)
    {
      ok, trail := RecoverDirectory(disk, session, staged, k, t);
      if !ok {
        return;
      }
      k := k + 1;
    }
    assert ds[..k] == ds;
    return true, Recovered(ds);
  }

  /** Empties and removes the k-th surveyed directory. */
  method RecoverDirectory(disk: Disk, session: string, staged: seq<StagedDirectory>, k: nat, ghost t: Tree)
    returns (ok: bool, ghost trail: Trail)
    requires disk.Valid() && LIVE in t && session != ""
    requires Recoverable(t, session, disk.blind) && Surveyed(t, staged) && k < |staged|
    requires LIVE !in Directories(staged)[..k] && AreStaging(t, Directories(staged)[..k])
    requires disk.tree == Drained(t, Directories(staged)[..k])
    modifies disk`tree, disk`clock, disk`dead, disk`faults
    ensures disk.Steady()
    ensures disk.Valid()
    ensures trail.Recovering? || trail.Recovered?
    ensures LIVE !in Directories(staged)[..k + 1] && AreStaging(t, Directories(staged)[..k + 1])
    ensures ok ==> disk.tree == Drained(t, Directories(staged)[..k + 1])
    // One rename a child, then the directory is removed and the removal synced.
    ensures ok ==> disk.clock == old(disk.clock) + |staged[k].children| + 2
    ensures ok ==> disk.fate(disk.clock - 2).Works? && disk.fate(disk.clock - 1).Works?
    ensures !ok ==> Valid(t, session, trail) && disk.tree == At(t, session, trail)
    ensures old(disk.dead) ==> disk.dead
    ensures disk.faults >= old(disk.faults)
    ensures ok ==> disk.faults == old(disk.faults) && !disk.dead
    ensures !ok && !disk.dead && Recoverable(t, session, {}) ==> disk.faults > old(disk.faults)
    ensures !ok && !disk.dead && disk.faults == old(disk.faults) + 1 && Recoverable(t, session, {}) ==>
      NothingHalfMoved(t, trail)
  {
    hide PartlyRecovered, Forget, Recoverable, Drained;
    ghost var ds, now := Directories(staged), disk.tree;
    var entry := staged[k];
    NextDirectory(t, session, disk.blind, staged, k);
    RecoveredIsEmpty(now, entry.dir);
    DrainOneMore(t, ds, k);
    ghost var attempted, moved;
    ok, attempted, moved := RestoreChildren(disk, entry);
    if !ok {
      return false, Recovering(ds[..k], entry.dir, attempted, moved);
    }
    var removed;
    removed, ok := disk.RemoveAndSync(entry.dir);
    trail := if removed then Recovered(ds[..k + 1]) else Recovering(ds[..k], entry.dir, attempted, moved);
  }

  lemma RecoveredIsEmpty(t: Tree, d: string)
    requires LIVE in t && d in t && d != LIVE
    ensures PartlyRecovered(t, d, t[d].Keys)[d] == map[]
  {
  }

  /** Before its turn comes, a surveyed directory is as it was at the start. */
  lemma NextDirectory(t: Tree, session: string, blind: set<string>, staged: seq<StagedDirectory>, k: nat)
    requires LIVE in t && session != ""
    requires Recoverable(t, session, blind) && Surveyed(t, staged) && k < |staged|
    ensures staged[k].dir in t && NoDuplicates(staged[k].children)
    ensures var ds, entry := Directories(staged), staged[k];
      && AreStaging(t, ds[..k]) && LIVE !in ds[..k] && entry.dir !in ds[..k] && entry.dir != LIVE
      && var now := Drained(t, ds[..k]);
      && entry.dir in now && now[entry.dir] == t[entry.dir]
      && Elements(entry.children) == t[entry.dir].Keys
      && (Recoverable(t, session, {}) ==> forall c <- entry.children :: c !in now)
  {
    var ds, entry := Directories(staged), staged[k];
    PrefixStep(ds, k);
    assert ds[k] == entry.dir;
    StagingIsNotLive(t, ds[..k]);
    StagingIsNotLive(t, [entry.dir]);
    DrainedFrame(t, ds[..k]);
    forall c | c in entry.children && Recoverable(t, session, {}) ensures c !in t {
      assert c in Elements(entry.children);
      assert ChildAllowed(t, session, {}, entry.dir, c);
      SessionNamesDiffer(session);
    }
  }

  lemma StagingPrefix(t: Tree, ds: seq<string>, k: nat)
    requires AreStaging(t, ds) && k <= |ds|
    ensures AreStaging(t, ds[..k]) && LIVE !in ds[..k]
  {
    forall d | d in ds[..k] ensures d in ds {
    }
    StagingIsNotLive(t, ds);
  }

  /** One drained directory more. */
  lemma DrainOneMore(t: Tree, ds: seq<string>, k: nat)
    requires LIVE in t && AreStaging(t, ds) && k < |ds|
    ensures LIVE !in ds[..k] && AreStaging(t, ds[..k])
    ensures LIVE !in ds[..k + 1] && AreStaging(t, ds[..k + 1])
    ensures ds[k] in Drained(t, ds[..k]) && ds[k] != LIVE
    ensures Drained(t, ds[..k + 1])
         == PartlyRecovered(Drained(t, ds[..k]), ds[k], Drained(t, ds[..k])[ds[k]].Keys) - {ds[k]}
  {
    StagingPrefix(t, ds, k);
    StagingPrefix(t, ds, k + 1);
    PrefixStep(ds, k);
    var more := ds[..k + 1];
    assert more[..|more| - 1] == ds[..k] && more[|more| - 1] == ds[k];
  }

  // --------------------------------------------------------- transaction

  /** The name a backup would be published under is in use. */
  predicate PublishedTaken(t: Tree, backup: string)
    requires LIVE in t
  {
    match PublishedName(backup)
    case None => false
    case Some(name) => name in Listing(t)
  }

  class SessionBackupTransaction {
    const backup: string
    var moved: seq<string>
    var committed: bool

    constructor Begin(backup: string)
      ensures this.backup == backup && moved == [] && !committed
    {
      this.backup, moved, committed := backup, [], false;
    }

    /** `disk` is `t` with the files of `moved` staged. */
    ghost predicate Describes(disk: Disk, t: Tree) reads this, disk {
      && LIVE in t && backup != LIVE && backup !in t
      && NoDuplicates(moved) && Elements(moved) <= t[LIVE].Keys
      && (forall n <- moved :: n !in t && n != backup)
      && disk.Valid() && disk.tree == Staged(t, backup, Elements(moved))
    }

    /** Records the file once it is renamed, before the syncs that may fail. */
    method MoveLiveFile(disk: Disk, name: string, ghost t: Tree) returns (ok: bool)
      requires Describes(disk, t) && name in t[LIVE] && name !in moved && name !in t && name != backup
      modifies this`moved, disk`tree, disk`clock, disk`dead, disk`faults
      ensures disk.Steady()
      ensures Describes(disk, t)
      ensures moved == old(moved) + [name] || (!ok && moved == old(moved))
      // The rename, then both directories are synced.
      ensures ok <==> !old(disk.dead) && WorksFor(disk.fate, old(disk.clock), 3)
      ensures ok ==> disk.clock == old(disk.clock) + 3
      ensures ok ==> disk.faults == old(disk.faults) && !disk.dead
      ensures !ok ==> disk.dead || disk.faults == old(disk.faults) + 1
      ensures old(disk.dead) ==> disk.dead
      ensures old(disk.faults) <= disk.faults
    {
      hide Elements, Staged;
      ok := RenameIntoBackup(disk, name, t);
      if ok {
        ok := disk.SyncBoth();
      }
    }

    method RenameIntoBackup(disk: Disk, name: string, ghost t: Tree) returns (ok: bool)
      requires Describes(disk, t) && name in t[LIVE] && name !in moved && name !in t && name != backup
      modifies this`moved, disk`tree, disk`clock, disk`dead, disk`faults
      ensures disk.Steady()
      ensures Describes(disk, t)
      ensures moved == if ok then old(moved) + [name] else old(moved)
      ensures ok <==> !old(disk.dead) && disk.fate(old(disk.clock)).Works?
      ensures disk.clock == if old(disk.dead) then old(disk.clock) else old(disk.clock) + 1
      ensures ok ==> disk.faults == old(disk.faults) && !disk.dead
      ensures !ok ==> disk.dead || disk.faults == old(disk.faults) + 1
      ensures old(disk.dead) ==> disk.dead
      ensures old(disk.faults) <= disk.faults
    {
      hide Elements, Staged;
      PrefixStep(moved + [name], |moved|);
      assert (moved + [name])[..|moved|] == moved && (moved + [name])[..|moved| + 1] == moved + [name];
      ElementsAppend(moved, name);
      OneMoreStaged(t, backup, Elements(moved), name);
      ok := disk.Rename(LIVE, backup, name);
      if ok {
        moved := moved + [name];
      }
    }

    /** The rename is the commit point: no failure is reported after it. */
    method Commit(disk: Disk, ghost t: Tree) returns (published: Option<string>)
      requires Describes(disk, t) && IsStaging(backup) && !committed
      modifies this`committed, disk`tree, disk`clock, disk`dead, disk`faults
      ensures disk.Steady()
      ensures disk.Valid()
      ensures committed <==> published.Some?
      ensures published.Some? ==> published == PublishedName(backup) && published.value != backup
      // Two syncs, the rename, and one more sync.
      ensures published.Some? ==> WorksFor(disk.fate, old(disk.clock), 3)
      ensures published.Some? ==> disk.clock == old(disk.clock) + 4
      ensures published.Some? ==> disk.tree == RenameDirectory(old(disk.tree), backup, published.value)
      ensures published.Some? ==> published.value !in old(disk.tree) || old(disk.tree)[published.value] == map[]
      ensures published.None? ==> disk.tree == old(disk.tree)
      ensures published.None? ==>
        disk.dead || disk.faults == old(disk.faults) + 1
        || (disk.faults == old(disk.faults) && PublishedTaken(disk.tree, backup))
      ensures old(disk.dead) ==> disk.dead
      ensures old(disk.faults) <= disk.faults
    {
      var synced := disk.SyncBoth();
      if !synced {
        return None;
      }
      PublishedIsNeverStaging(backup);
      published := PublishedName(backup);
      var renamed := disk.RenameFolder(backup, published.value);
      if !renamed {
        return None;
      }
      committed := true;
      // A failing sync is only a warning from here on.
      synced := disk.Try();
    }

    /** Renames the file that was staged last back to its live name. */
    method PutBackLast(disk: Disk, ghost t: Tree) returns (ok: bool)
      requires Describes(disk, t) && moved != []
      modifies this`moved, disk`tree, disk`clock, disk`dead, disk`faults
      ensures disk.Steady()
      ensures Describes(disk, t)
      ensures moved == if ok then old(moved)[..|old(moved)| - 1] else old(moved)
      ensures ok <==> !old(disk.dead) && disk.fate(old(disk.clock)).Works?
      ensures disk.clock == if old(disk.dead) then old(disk.clock) else old(disk.clock) + 1
      ensures ok ==> !disk.dead && disk.faults == old(disk.faults)
      ensures old(disk.dead) ==> disk.dead
      ensures !ok ==> disk.dead || disk.faults == old(disk.faults) + 1
      ensures old(disk.faults) <= disk.faults
    {
      hide Elements, Staged;
      var last := |moved| - 1;
      var name := moved[last];
      PrefixStep(moved, last);
      assert moved[..last + 1] == moved;
      OneLessStaged(t, backup, Elements(moved[..last]), name);
      ok := disk.Rename(backup, LIVE, name);
      if ok {
        moved := moved[..last];
      }
    }

    /** Renames the files back, last one first, until one fails. */
    method PutBack(disk: Disk, ghost t: Tree)
      requires Describes(disk, t)
      modifies this`moved, disk`tree, disk`clock, disk`dead, disk`faults
      ensures disk.Steady()
      ensures Describes(disk, t) && moved <= old(moved)
      ensures !old(disk.dead) ==> forall k :: 0 <= k < |old(moved)| && StopsAt(disk.fate, old(disk.clock), k) ==>
        |moved| == |old(moved)| - k
      ensures !old(disk.dead) && WorksFor(disk.fate, old(disk.clock), |old(moved)|) ==>
        moved == [] && disk.clock == old(disk.clock) + |old(moved)| && disk.dead == old(disk.dead)
      ensures old(disk.dead) ==> disk.dead
      ensures old(disk.faults) <= disk.faults
      ensures !disk.dead && disk.faults == old(disk.faults) ==> moved == []
    {
      hide WorksFor, Describes;
      ghost var tried := 0;
      NextWorks(disk.fate, disk.clock, 0);
      while moved != []
        invariant Describes(disk, t) && moved <= old(moved) && |moved| == |old(moved)| - tried
        invariant disk.dead == old(disk.dead) && disk.faults == old(disk.faults)
        invariant disk.dead ==> tried == 0
        invariant !disk.dead ==> disk.clock == old(disk.clock) + tried
        invariant WorksFor(disk.fate, old(disk.clock), tried)
        invariant forall k: nat :: StopsAt(disk.fate, old(disk.clock), k) ==> k >= tried
        decreases |moved|
      {
        NextWorks(disk.fate, old(disk.clock), tried);
        var renamed := PutBackLast(disk, t);
        if !renamed {
          return;
        }
        tried := tried + 1;
      }
    }

    /** Best-effort undo. `left` is what could not be renamed back; `tidied`
        says whether the staging directory is gone. */
    method Rollback(disk: Disk, ghost t: Tree) returns (ghost left: set<string>, tidied: bool)
      requires Describes(disk, t) && !committed
      modifies this`moved, disk`tree, disk`clock, disk`dead, disk`faults
      ensures disk.Steady()
      ensures disk.Valid() && left <= Elements(old(moved))
      ensures disk.tree == if tidied then t else Staged(t, backup, left)
      ensures tidied ==> left == {}
      ensures moved == []
      // A rename that fails ends it; when none fails the live files are all back.
      ensures !old(disk.dead) ==> forall k :: 0 <= k < |old(moved)| && StopsAt(disk.fate, old(disk.clock), k) ==>
        left == Elements(old(moved)[..|old(moved)| - k])
      ensures !old(disk.dead) && WorksFor(disk.fate, old(disk.clock), |old(moved)|) ==>
        left == {} && (tidied <==> disk.fate(old(disk.clock) + |old(moved)|).Works?)
      ensures old(disk.dead) ==> disk.dead
      ensures old(disk.faults) <= disk.faults
      ensures !disk.dead && disk.faults == old(disk.faults) ==> tidied
    {
      hide WorksFor, StopsAt, Elements, Staged;
      PutBack(disk, t);
      left := Elements(moved);
      PrefixElements(old(moved), |moved|);
      assert moved == old(moved)[..|moved|];
      if moved != [] {
        moved := [];
        return left, false;
      }
      NoElements(moved);
      NothingStaged(t, backup);
      tidied := disk.RemoveEmptyDirectory(backup);
    }
  }

  lemma NothingStaged(t: Tree, d: string)
    requires LIVE in t && d != LIVE && d !in t
    ensures Staged(t, d, {}) == t[d := map[]] && Staged(t, d, {}) - {d} == t
  {
    assert Restrict(t[LIVE], {}) == map[] && t[LIVE] - {} == t[LIVE];
    assert t[d := map[]][LIVE := t[LIVE]] == t[d := map[]];
    assert t[d := map[]] - {d} == t;
  }

  lemma OneMoreStaged(t: Tree, d: string, moved: set<string>, n: string)
    requires LIVE in t && d != LIVE && d !in t
    requires moved <= t[LIVE].Keys && n in t[LIVE] && n !in moved
    ensures n in Staged(t, d, moved)[LIVE]
    ensures Move(Staged(t, d, moved), LIVE, d, n) == Staged(t, d, moved + {n})
  {
    var live := t[LIVE];
    assert live - moved - {n} == live - (moved + {n});
    assert Restrict(live, moved)[n := live[n]] == Restrict(live, moved + {n});
  }

  lemma OneLessStaged(t: Tree, d: string, moved: set<string>, n: string)
    requires LIVE in t && d != LIVE && d !in t
    requires moved <= t[LIVE].Keys && n in t[LIVE] && n !in moved
    ensures n in Staged(t, d, moved + {n})[d]
    ensures Move(Staged(t, d, moved + {n}), d, LIVE, n) == Staged(t, d, moved)
  {
    var live := t[LIVE];
    assert (live - (moved + {n}))[n := live[n]] == live - moved;
    assert Restrict(live, moved + {n}) - {n} == Restrict(live, moved);
  }

  // --------------------------------------------------------------- reset

  /** Every live session name is a regular file and no directory. */
  predicate LiveIsRegular(t: Tree, session: string)
    requires LIVE in t
  {
    forall n <- SessionNames(session) :: n !in t && (n in t[LIVE] ==> t[LIVE][n].Regular?)
  }

  lemma SessionNamesDiffer(session: string)
    ensures NoDuplicates(SessionNames(session))
    ensures LIVE in SessionNames(session) ==> session == LIVE
  {
    var names := SessionNames(session);
    assert names[2][|session| + 1] == 'w' && names[3][|session| + 1] == 's';
    assert |names[0]| == |session| && |names[1]| == |session| + 8 && |names[2]| == |session| + 4;
  }

  method SessionFilesForBackup(disk: Disk, session: string) returns (r: Result<seq<string>, ClientError>)
    requires disk.Valid()
    modifies disk`clock, disk`dead, disk`faults
    ensures disk.Steady()
    ensures r.Ok? ==> NoDuplicates(r.value) && Elements(r.value) == LiveNames(disk.tree, session)
    ensures r.Ok? ==> LiveIsRegular(disk.tree, session)
    ensures r.Ok? ==> disk.faults == old(disk.faults) && !disk.dead
    ensures r.Ok? ==> disk.clock == old(disk.clock) + 4
    ensures r.Err? ==>
      if disk.dead || disk.faults == old(disk.faults) + 1 then r.error == InspectSession
      else r.error == InvalidSessionFile && !LiveIsRegular(disk.tree, session) && disk.faults == old(disk.faults)
    ensures old(disk.dead) ==> disk.dead
    ensures old(disk.faults) <= disk.faults
  {
    var names := SessionNames(session);
    SessionNamesDiffer(session);
    var t: Tree := disk.tree;
    var files := [];
    var i := 0;
    while i < |names|
      invariant 0 <= i <= |names|
      invariant NoDuplicates(files) && Elements(files) == set n | n in names[..i] && n in t[LIVE]
      invariant forall n <- names[..i] :: n !in t && (n in t[LIVE] ==> t[LIVE][n].Regular?)
      invariant disk.faults == old(disk.faults) && disk.Steady()
      invariant old(disk.dead) ==> disk.dead
      invariant i > 0 ==> !disk.dead && disk.clock == old(disk.clock) + i
      invariant i == 0 ==> disk.clock == old(disk.clock)
    {
      var name := names[i];
      PrefixStep(names, i);
      assert names[i] in names;
      assert forall n :: n in names[..i + 1] <==> n in names[..i] || n == name by {
        assert names[..i + 1] == names[..i] + [name];
      }
      var seen := disk.Try();
      if !seen {
        return Err(InspectSession);
      }
      if name in t || (name in t[LIVE] && t[LIVE][name].Irregular?) {
        return Err(InvalidSessionFile);
      }
      if name in t[LIVE] {
        ElementsAppend(files, name);
        files := files + [name];
      }
      i := i + 1;
    }
    assert names[..i] == names;
    return Ok(files);
  }

  /** Makes and secures a fresh staging directory; failing to secure it leaves
      the empty directory behind. */
  method CreateSessionBackupDirectory(disk: Disk, stamp: string) returns (backup: Option<string>)
    requires disk.Valid()
    modifies disk`tree, disk`clock, disk`dead, disk`faults
    ensures disk.Steady()
    ensures disk.Valid()
    ensures backup.Some? ==> backup.value == StagingName(stamp) && backup.value !in Listing(old(disk.tree))
    ensures backup.Some? ==> disk.tree == old(disk.tree)[backup.value := map[]]
    ensures backup.Some? ==> disk.faults == old(disk.faults) && !disk.dead
    ensures backup.Some? ==> disk.clock == old(disk.clock) + 2 && WorksFor(disk.fate, old(disk.clock), 2)
    ensures backup.None? && disk.tree != old(disk.tree) ==>
              StagingName(stamp) !in Listing(old(disk.tree)) && disk.tree == old(disk.tree)[StagingName(stamp) := map[]]
    ensures backup.None? ==>
              disk.dead || disk.faults == old(disk.faults) + 1 || StagingName(stamp) in Listing(old(disk.tree))
    ensures old(disk.dead) ==> disk.dead
    ensures old(disk.faults) <= disk.faults
  {
    StagingNameIsStaging(stamp);
    var made := disk.MakeDirectory(StagingName(stamp));
    if !made {
      return None;
    }
    var secured := disk.Try();
    return if secured then Some(StagingName(stamp)) else None;
  }

  /** Neither name this stamp gives to a backup is a session file's. */
  predicate StampApart(session: string, stamp: string) {
    && StagingName(stamp) !in SessionNames(session)
    && PublishedName(StagingName(stamp)).Some?
    && PublishedName(StagingName(stamp)).value !in SessionNames(session)
  }

  /** Nor is one of them in use. */
  predicate StampFree(t: Tree, session: string, stamp: string)
    requires LIVE in t
  {
    && StampApart(session, stamp)
    && StagingName(stamp) !in Listing(t)
    && PublishedName(StagingName(stamp)).value !in Listing(t)
  }

  /** The names that a reset with this stamp can add. */
  function StampedNames(stamp: string): set<string> {
    {".session-backup-" + stamp + ".staging", "session-backup-" + stamp}
  }

  /** A fresh stamp is free: directories of other stamps never take its names. */
  lemma FreshStampIsFree(session: string, stamp: string, other: string)
    requires stamp != other
    ensures StagingName(stamp) !in StampedNames(other)
    ensures PublishedName(StagingName(stamp)).Some?
    ensures PublishedName(StagingName(stamp)).value !in StampedNames(other)
  {
    StampNames(stamp);
    StampNames(other);
    StagingNameIsStaging(stamp);
    StagingNameIsStaging(other);
    var mine, theirs := "session-backup-" + stamp, "session-backup-" + other;
    assert mine[|mine| - |stamp|..] == stamp && theirs[|theirs| - |other|..] == other;
    assert StagingName(stamp)[0] == '.' == StagingName(other)[0] && mine[0] == theirs[0] == 's';
  }

  /** What a caller can check beforehand to know that a reset meets no obstacle
      but a failing disk. */
  ghost predicate Ready(t: Tree, session: string, stamp: string)
    requires LIVE in t
  {
    Recoverable(t, session, {}) && LiveIsRegular(t, session) && StampFree(t, session, stamp)
  }

  /** Nothing irregular bears the name of a session file, and no file that of a
      staging directory. */
  ghost predicate Unobstructed(t: Tree, session: string)
    requires LIVE in t
  {
    && (forall n :: n in t[LIVE] ==> !IsStaging(n))
    && (forall n <- SessionNames(session) :: !IsStaging(n))
    && LiveIsRegular(t, session)
  }

  /** In a safe tree nothing that a reset left behind obstructs the next one. */
  lemma SafeIsReady(t: Tree, session: string, stamp: string)
    requires Safe(t, session) && Unobstructed(t, session)
    ensures Recoverable(t, session, {})
    ensures StampFree(t, session, stamp) ==> Ready(t, session, stamp)
  {
    hide StampFree, SessionNames, IsStaging;
    forall d, n | d in t && IsStaging(d) && n in t[d] ensures ChildAllowed(t, session, {}, d, n) {
      assert n in SessionNames(session) && t[d][n].Regular? && n !in t[LIVE];
    }
  }

  lemma ReadyAfterRecovery(t: Tree, session: string, stamp: string, done: seq<string>)
    requires LIVE in t && session != "" && DrainsAll(t, done) && LIVE !in done && Ready(t, session, stamp)
    ensures var t1 := Drained(t, done);
      && LiveIsRegular(t1, session)
      && StagingName(stamp) !in Listing(t1)
      && PublishedName(StagingName(stamp)).value !in Listing(t1)
  {
    RecoveredEntries(t, session, done);
    DrainedFrame(t, done);
    forall d, n | d in done && n in t[d] ensures n in SessionNames(session) {
      assert ChildAllowed(t, session, {}, d, n);
    }
  }

  /** An entry which was live before or is a recovered session file. */
  ghost predicate LiveOrRecovered(t: Tree, session: string, n: string, node: Node)
    requires LIVE in t
  {
    || (n in t[LIVE] && node == t[LIVE][n])
    || (n in SessionNames(session) && node.Regular? && n !in t)
  }

  lemma RecoveredStep(t: Tree, session: string, now: Tree, d: string)
    requires LIVE in t && session != "" && Recoverable(t, session, {}) && d in t && IsStaging(d)
    requires LIVE in now && d in now && d != LIVE && now[d] == t[d]
    requires forall n :: n in now[LIVE] ==> LiveOrRecovered(t, session, n, now[LIVE][n])
    ensures var live := PartlyRecovered(now, d, now[d].Keys)[LIVE];
      forall n :: n in live ==> LiveOrRecovered(t, session, n, live[n])
  {
    var live := PartlyRecovered(now, d, now[d].Keys)[LIVE];
    forall n | n in live ensures LiveOrRecovered(t, session, n, live[n]) {
      if n in t[d] {
        SessionNamesDiffer(session);
        assert live[n] == t[d][n];
        assert ChildAllowed(t, session, {}, d, n);
      } else {
        assert live[n] == now[LIVE][n];
      }
    }
  }

  /** Recovery brings back regular session files only. */
  lemma {:induction false} RecoveredEntries(t: Tree, session: string, done: seq<string>)
    requires LIVE in t && session != "" && Recoverable(t, session, {})
    requires AreStaging(t, done) && LIVE !in done
    ensures forall n :: n in Drained(t, done)[LIVE] ==> LiveOrRecovered(t, session, n, Drained(t, done)[LIVE][n])
    decreases |done|
  {
    if done != [] {
      var k := |done| - 1;
      StagingPrefix(t, done, k);
      RecoveredEntries(t, session, done[..k]);
      DrainedFrame(t, done[..k]);
      PrefixStep(done, k);
      DrainOneMore(t, done, k);
      assert done[..k + 1] == done;
      assert done[k] in done;
      RecoveredStep(t, session, Drained(t, done[..k]), done[k]);
    }
  }

  /** What recovery brings back obstructs nothing. */
  lemma DrainStaysUnobstructed(t: Tree, session: string, done: seq<string>)
    requires Safe(t, session) && Unobstructed(t, session) && session != "" && AreStaging(t, done)
    ensures LIVE !in done && Unobstructed(Drained(t, done), session)
  {
    hide SessionNames;
    StagingIsNotLive(t, done);
    SafeIsReady(t, session, "");
    RecoveredEntries(t, session, done);
  }

  /** Nor does what is back when recovery is cut short. */
  lemma PartStaysUnobstructed(t: Tree, session: string, d: string, attempted: set<string>, moved: set<string>)
    requires Safe(t, session) && Unobstructed(t, session) && d in t && IsStaging(d) && d != LIVE && moved <= t[d].Keys
    ensures Unobstructed(PartlyRecovered(Forget(t, attempted), d, moved), session)
  {
    hide SessionNames, IsStaging;
  }

  /** A reset of a safe tree, ended anywhere, puts no obstacle in the way. */
  lemma StaysUnobstructed(t: Tree, session: string, trail: Trail)
    requires Safe(t, session) && Unobstructed(t, session) && Valid(t, session, trail) && session != ""
    requires trail.Published? ==> trail.published !in SessionNames(session)
    requires trail.Staging? ==> trail.backup !in SessionNames(session)
    ensures Unobstructed(At(t, session, trail), session)
  {
    hide SessionNames, Drained;
    DrainStaysUnobstructed(t, session, trail.done);
    SafeDrain(t, session, trail.done);
    if trail.Recovering? {
      StagingIsNotLive(t, [trail.current]);
      DrainedFrame(t, trail.done);
      hide Safe, Unobstructed, PartlyRecovered, Forget;
      PartStaysUnobstructed(Drained(t, trail.done), session, trail.current, trail.attempted, trail.moved);
    } else if trail.Published? {
      PublishedIsNeverStaging(trail.backup);
    }
  }

  /** A reset adds no names but session files' and those of its stamp. */
  lemma NamesAfter(t: Tree, session: string, trail: Trail, stamp: string)
    requires Safe(t, session) && Valid(t, session, trail)
    requires trail.Staging? || trail.Published? ==> trail.backup == StagingName(stamp)
    ensures Listing(At(t, session, trail)) <= Listing(t) + Elements(SessionNames(session)) + StampedNames(stamp)
  {
    hide SessionNames, Drained;
    StampNames(stamp);
    StagingIsNotLive(t, trail.done);
    DrainedFrame(t, trail.done);
    SafeDrain(t, session, trail.done);
    DrainedNames(t, session, trail.done);
    if trail.Recovering? {
      StagingIsNotLive(t, [trail.current]);
      PartNames(Drained(t, trail.done), session, trail.current, trail.attempted, trail.moved);
    }
  }

  lemma PartNames(t: Tree, session: string, d: string, attempted: set<string>, moved: set<string>)
    requires Safe(t, session) && d in t && IsStaging(d) && d != LIVE && moved <= t[d].Keys
    ensures Listing(PartlyRecovered(Forget(t, attempted), d, moved)) <= Listing(t) + Elements(SessionNames(session))
  {
    hide SessionNames, IsStaging;
  }

  lemma DrainedNames(t: Tree, session: string, done: seq<string>)
    requires Safe(t, session) && AreStaging(t, done) && LIVE !in done
    ensures Listing(Drained(t, done)) <= Listing(t) + Elements(SessionNames(session))
  {
    hide SessionNames, IsStaging;
    DrainedFrame(t, done);
  }

  /** Stages the files one by one; a failure ends it early. */
  method StageFiles(disk: Disk, transaction: SessionBackupTransaction, files: seq<string>, ghost t: Tree)
    returns (ok: bool)
    requires transaction.Describes(disk, t) && transaction.moved == [] && !transaction.committed
    requires NoDuplicates(files) && files != [] && transaction.backup !in t[LIVE]
    requires forall n <- files :: n in t[LIVE] && n !in t
    modifies transaction`moved, disk`tree, disk`clock, disk`dead, disk`faults
    ensures disk.Steady()
    ensures transaction.Describes(disk, t) && transaction.moved <= files
    ensures ok ==> transaction.moved == files && disk.faults == old(disk.faults) && !disk.dead
    ensures !ok ==> disk.dead || disk.faults == old(disk.faults) + 1
    ensures old(disk.faults) <= disk.faults
    ensures old(disk.dead) ==> disk.dead
  {
    var i := 0;
    while i < |files|
      invariant 0 <= i <= |files| && transaction.moved == files[..i]
      invariant transaction.Describes(disk, t)
      invariant disk.faults == old(disk.faults) && disk.Steady()
      invariant i > 0 ==> !disk.dead
      invariant old(disk.dead) ==> disk.dead
    {
      PrefixStep(files, i);
      assert files[..i] + [files[i]] == files[..i + 1];
      ok := transaction.MoveLiveFile(disk, files[i], t);
      if !ok {
        return;
      }
      i := i + 1;
    }
    assert files[..i] == files;
    return true;
  }

  /** Staging, commit and rollback once the staging directory exists. */
  method MoveAndPublish(
      disk: Disk, session: string, backup: string, files: seq<string>, ghost t: Tree, ghost done: seq<string>)
    returns (r: Result<Option<string>, ClientError>, ghost trail: Trail)
    requires disk.Valid() && LIVE in t && DrainsAll(t, done) && LIVE !in done
    requires NoDuplicates(files) && files != [] && backup != LIVE
    requires var t1 := Drained(t, done);
      && disk.tree == Staged(t1, backup, {})
      && MayStage(t1, session, backup, Elements(files)) && backup !in Listing(t1)
      && Elements(files) == LiveNames(t1, session) && LiveIsRegular(t1, session)
    modifies disk`tree, disk`clock, disk`dead, disk`faults
    ensures disk.Steady()
    ensures disk.Valid()
    ensures Valid(t, session, trail) && disk.tree == At(t, session, trail)
    ensures r.Ok? ==> r.value.Some? && trail == Published(done, backup, r.value.value)
    ensures r.Err? ==> !trail.Published? && r.error == BackupSessionFile
    ensures trail.Staging? ==> trail.backup == backup
    ensures r.Err? && !disk.dead && disk.faults <= old(disk.faults) + 1 ==>
      trail == Recovered(done) || PublishedTaken(Drained(t, done), backup)
    // A published name that is taken is undone completely.
    ensures r.Err? && !disk.dead && disk.faults == old(disk.faults) ==> trail == Recovered(done)
    ensures r.Err? && !disk.dead ==>
      disk.faults > old(disk.faults) || PublishedTaken(Drained(t, done), backup)
  {
    hide Drained;
    ghost var t1 := Drained(t, done);
    var transaction := new SessionBackupTransaction.Begin(backup);
    assert Elements(transaction.moved) == {};
    assert forall n <- files :: n in Elements(files);
    var ok := StageFiles(disk, transaction, files, t1);
    assert forall n <- transaction.moved :: n in files;
    if ok {
      assert files[0] in Elements(files);
      var published := Publish(disk, session, transaction, t, done, t1);
      if published.Some? {
        return Ok(published), Published(done, backup, published.value);
      }
    }
    trail := GiveUp(disk, session, transaction, t, done);
    return Err(BackupSessionFile), trail;
  }

  /** Commits a transaction that has staged every live session file. */
  method Publish(
      disk: Disk, session: string, transaction: SessionBackupTransaction,
      ghost t: Tree, ghost done: seq<string>, ghost t1: Tree)
    returns (published: Option<string>)
    requires LIVE in t && DrainsAll(t, done) && LIVE !in done && !transaction.committed
    requires LIVE in t1 && t1 == Drained(t, done) && transaction.Describes(disk, t1)
    requires MayStage(t1, session, transaction.backup, Elements(transaction.moved))
    requires Elements(transaction.moved) == LiveNames(t1, session) != {}
    modifies transaction`committed, disk`tree, disk`clock, disk`dead, disk`faults
    ensures disk.Steady()
    ensures disk.Valid()
    ensures published.Some? ==> Valid(t, session, Published(done, transaction.backup, published.value))
    ensures published.Some? ==> disk.tree == At(t, session, Published(done, transaction.backup, published.value))
    ensures published.None? ==> !transaction.committed && disk.tree == old(disk.tree)
    ensures published.None? ==>
      disk.dead || disk.faults == old(disk.faults) + 1
      || (disk.faults == old(disk.faults) && PublishedTaken(t1, transaction.backup))
    ensures old(disk.dead) ==> disk.dead
    ensures old(disk.faults) <= disk.faults
  {
    PublishedIsNeverStaging(transaction.backup);
    published := transaction.Commit(disk, t1);
    if published.Some? {
      PublishedTrail(t, session, done, transaction.backup, published.value);
    }
  }

  lemma PublishedTrail(t: Tree, session: string, done: seq<string>, backup: string, published: string)
    requires LIVE in t && DrainsAll(t, done) && LIVE !in done && backup != LIVE
    requires var t1 := Drained(t, done);
      && MayStage(t1, session, backup, LiveNames(t1, session)) && LiveNames(t1, session) != {}
      && PublishedName(backup) == Some(published)
      && var t2 := Staged(t1, backup, LiveNames(t1, session));
      && (published !in t2 || t2[published] == map[])
    ensures published != backup
    ensures Valid(t, session, Published(done, backup, published))
    ensures var t1 := Drained(t, done);
      At(t, session, Published(done, backup, published))
      == RenameDirectory(Staged(t1, backup, LiveNames(t1, session)), backup, published)
  {
    PublishedIsNeverStaging(backup);
  }

  /** Rolls back after a failure and names the tree that is left. */
  method GiveUp(
      disk: Disk, session: string, transaction: SessionBackupTransaction, ghost t: Tree, ghost done: seq<string>)
    returns (ghost trail: Trail)
    requires LIVE in t && DrainsAll(t, done) && LIVE !in done && !transaction.committed
    requires transaction.Describes(disk, Drained(t, done))
    requires MayStage(Drained(t, done), session, transaction.backup, Elements(transaction.moved))
    modifies transaction`moved, disk`tree, disk`clock, disk`dead, disk`faults
    ensures disk.Steady()
    ensures disk.Valid()
    ensures Valid(t, session, trail) && disk.tree == At(t, session, trail)
    ensures (trail.Staging? && trail.backup == transaction.backup) || trail == Recovered(done)
    ensures old(disk.dead) ==> disk.dead
    ensures old(disk.faults) <= disk.faults
    ensures !disk.dead && disk.faults == old(disk.faults) ==> trail == Recovered(done)
    // When every undo rename works, the live files are exactly the earlier ones.
    ensures !old(disk.dead) && WorksFor(disk.fate, old(disk.clock), |old(transaction.moved)|) ==>
      trail == Recovered(done) || trail == Staging(done, transaction.backup, {})
  {
    ghost var left;
    var tidied;
    left, tidied := transaction.Rollback(disk, Drained(t, done));
    trail := if tidied then Recovered(done) else Staging(done, transaction.backup, left);
  }

  lemma NothingDone(t: Tree, session: string)
    requires LIVE in t
    ensures Valid(t, session, Recovered([])) && At(t, session, Recovered([])) == t
  {
  }

  /** The reset once recovery is done: `t` was there before, and the staging
      directories of `done` have been drained. */
  method BackUpLive(disk: Disk, session: string, stamp: string, ghost t: Tree, ghost done: seq<string>)
    returns (r: Result<Option<string>, ClientError>, ghost trail: Trail)
    requires disk.Valid() && session != "" && LIVE in t && DrainsAll(t, done) && LIVE !in done
    requires disk.tree == Drained(t, done)
    modifies disk`tree, disk`clock, disk`dead, disk`faults
    ensures disk.Steady()
    ensures disk.Valid()
    ensures Valid(t, session, trail) && disk.tree == At(t, session, trail)
    ensures r.Ok? && r.value.Some? ==>
      && trail == Published(done, StagingName(stamp), r.value.value)
      && r.value == Some("session-backup-" + stamp)
    ensures r.Ok? && r.value.None? ==> trail == Recovered(done) && LiveNames(disk.tree, session) == {}
    ensures trail.Staging? ==> trail.backup == StagingName(stamp)
    ensures r.Err? ==> !trail.Published? && r.error != SessionLocked
    ensures r.Err? && !disk.dead && disk.faults == old(disk.faults) + 1 ==>
      trail.Recovered? || (trail.Staging? && trail.moved == {}) || PublishedTaken(Drained(t, done), StagingName(stamp))
    ensures r.Err? && !disk.dead && disk.faults == old(disk.faults) ==>
      && trail == Recovered(done) && disk.tree == old(disk.tree)
      && ErrorOfObstacle(disk.tree, session, stamp, r.error)
  {
    hide Drained, SessionNames, Conserved;
    ghost var t1 := disk.tree;
    trail := Recovered(done);
    var files := SessionFilesForBackup(disk, session);
    if files.Err? {
      return Err(files.error), trail;
    }
    if files.value == [] {
      assert Elements(files.value) == {};
      return Ok(None), trail;
    }
    NothingStaged(t1, StagingName(stamp));
    StagingNameIsStaging(stamp);
    StampNames(stamp);
    var backup := CreateSessionBackupDirectory(disk, stamp);
    if backup.None? {
      if disk.tree != t1 {
        trail := Staging(done, StagingName(stamp), {});
      }
      return Err(CreateSessionBackup), trail;
    }
    r, trail := MoveAndPublish(disk, session, backup.value, files.value, t, done);
  }

  /** With no failing operation, the first obstacle in this order is the error: a
      session file that is no regular file, the staging name in use, the
      published name in use. */
  predicate ErrorOfObstacle(t1: Tree, session: string, stamp: string, error: ClientError)
    requires LIVE in t1
  {
    if !LiveIsRegular(t1, session) then error == InvalidSessionFile
    else if StagingName(stamp) in Listing(t1) then error == CreateSessionBackup
    else error == BackupSessionFile && PublishedTaken(t1, StagingName(stamp))
  }

  /** `auth reset --backup`, from the moment the session lock is requested. */
  method ResetSessionWithBackup(disk: Disk, session: string, stamp: string)
    returns (r: Result<Option<string>, ClientError>, ghost trail: Trail)
    requires disk.Valid() && session != ""
    modifies disk`tree, disk`clock, disk`dead, disk`faults
    ensures disk.Steady()
    ensures disk.Valid()
    // Wherever the reset ended, the tree is the one its trail describes.
    ensures Valid(old(disk.tree), session, trail) && disk.tree == At(old(disk.tree), session, trail)
    // A success fixes the tree completely.
    ensures r.Ok? && r.value.Some? ==>
      && trail.Published? && trail.backup == StagingName(stamp) && trail.published == r.value.value
      && r.value == Some("session-backup-" + stamp)
    ensures r.Ok? && r.value.None? ==>
      trail.Recovered? && DrainsAll(old(disk.tree), trail.done) && LiveNames(disk.tree, session) == {}
    ensures r.Ok? ==> Recoverable(old(disk.tree), session, disk.blind)
    // Nothing to do means that there was no session file, live or staged.
    ensures r == Ok(None) ==> NoSessionFiles(old(disk.tree), session)
    ensures trail.Staging? ==> trail.backup == StagingName(stamp)
    // No error is reported once the backup is published.
    ensures r.Err? ==> !trail.Published?
    // A single failure in a living process leaves no file half moved.
    ensures r.Err? && !disk.dead && disk.faults == old(disk.faults) + 1 && Ready(old(disk.tree), session, stamp) ==>
      NothingHalfMoved(old(disk.tree), trail)
    // Only a failing disk, a crash or a visible obstacle stops a reset.
    ensures r.Err? && !disk.dead && disk.faults == old(disk.faults) ==> !Ready(old(disk.tree), session, stamp)
    ensures AlwaysWorks(disk.fate) && !old(disk.dead) && Ready(old(disk.tree), session, stamp) ==> r.Ok?
    // The error says what it was: a lock that is not to be had; with no failing
    // operation, staged files that may not be put back, or an obstacle after it.
    ensures r == Err(SessionLocked) <==> old(disk.dead) || !disk.fate(old(disk.clock)).Works?
    ensures r.Err? && !disk.dead && disk.faults == old(disk.faults) ==>
      if !Recoverable(old(disk.tree), session, {}) then r.error == BackupSessionFile || disk.blind != {}
      else ErrorOfObstacle(disk.tree, session, stamp, r.error)
  {
    hide Drained, Recoverable, ErrorOfObstacle;
    ghost var t := disk.tree;
    trail := Recovered([]);
    NothingDone(t, session);
    var locked := disk.Try();
    if !locked {
      return Err(SessionLocked), trail;
    }
    var recovered;
    recovered, trail := Recover(disk, session);
    if !recovered {
      return Err(BackupSessionFile), trail;
    }
    ghost var done := trail.done;
    if Ready(t, session, stamp) {
      ReadyAfterRecovery(t, session, stamp, done);
      NoObstacle(disk.tree, session, stamp);
    }
    r, trail := BackUpLive(disk, session, stamp, t, done);
    if r == Ok(None) {
      NothingMeansNothing(t, session, disk.blind, done);
    }
  }

  lemma NoObstacle(t1: Tree, session: string, stamp: string)
    requires LIVE in t1 && LiveIsRegular(t1, session) && StagingName(stamp) !in Listing(t1)
    requires PublishedName(StagingName(stamp)).Some? && PublishedName(StagingName(stamp)).value !in Listing(t1)
    ensures !PublishedTaken(t1, StagingName(stamp))
    ensures forall error :: !ErrorOfObstacle(t1, session, stamp, error)
  {
  }

  /** A reset that reports success leaves nothing staged and nothing live; a
      reported backup holds exactly the session files that were live once
      recovery was done, and every other live entry stays. */
  lemma SuccessSettles(t: Tree, session: string, trail: Trail)
    requires LIVE in t && Valid(t, session, trail)
    requires trail.Published? || (trail.Recovered? && DrainsAll(t, trail.done) && LiveNames(At(t, session, trail), session) == {})
    ensures LIVE !in trail.done && Settled(At(t, session, trail), session)
    ensures trail.Published? ==>
      var found, end := Drained(t, trail.done), At(t, session, trail);
      && trail.published in end
      && end[trail.published] == Restrict(found[LIVE], LiveNames(found, session))
      && end[LIVE] == found[LIVE] - LiveNames(found, session)
  {
    StagingIsNotLive(t, trail.done);
    if trail.Published? {
      PublishedIsNeverStaging(trail.backup);
      PublishedSettles(Drained(t, trail.done), session, trail.backup, trail.published);
    }
  }

  lemma PublishedSettles(t1: Tree, session: string, backup: string, published: string)
    requires LIVE in t1 && backup != LIVE && backup != published && published != LIVE
    requires IsStaging(backup) && !IsStaging(published) && forall d :: d in t1 ==> !IsStaging(d)
    ensures var live := LiveNames(t1, session);
      var end := RenameDirectory(Staged(t1, backup, live), backup, published);
      && LIVE in end && Settled(end, session)
      && end[published] == Restrict(t1[LIVE], live) && end[LIVE] == t1[LIVE] - live
  {
  }

  /** No session file is live, and no staging directory holds anything. */
  ghost predicate NoSessionFiles(t: Tree, session: string)
    requires LIVE in t
  {
    LiveNames(t, session) == {} && forall d :: d in t && IsStaging(d) ==> t[d] == map[]
  }

  /** A reset that reports nothing to do was right: there was no session file,
      neither live nor staged. */
  lemma NothingMeansNothing(t: Tree, session: string, blind: set<string>, done: seq<string>)
    requires LIVE in t && Recoverable(t, session, blind) && DrainsAll(t, done) && LIVE !in done
    requires LiveNames(Drained(t, done), session) == {}
    ensures NoSessionFiles(t, session)
  {
    DrainedFrame(t, done);
    var live := LiveNames(Drained(t, done), session);
    assert LiveNames(t, session) <= live;
    forall d | d in t && IsStaging(d) ensures t[d].Keys <= live {
      assert d in StagingDirectories(t) && d in done;
      forall n | n in t[d] ensures n in live {
        assert ChildAllowed(t, session, blind, d, n);
      }
    }
  }

  /** One reset: its time stamp, how its operations end, and the names at which
      the preflight's look fails. */
  datatype Run = Run(stamp: string, fate: nat -> Fate, blind: set<string>)

  /** Nothing fails in this run, and the names for its backup are free. */
  ghost predicate Clean(t: Tree, session: string, run: Run)
    requires LIVE in t
  {
    AlwaysWorks(run.fate) && StampFree(t, session, run.stamp)
  }

  /** Every session file that was live or staged before is in exactly one
      backup, one that is new. */
  ghost predicate AllPublishedOnce(before: Tree, after: Tree, session: string) {
    forall name, node :: name in SessionNames(session) && IsOpen(before, name, node) ==>
      PublishedOnce(before, after, name, node)
  }

  /** Any number of resets in a row, each ended by whatever fails or kills it.
      They lose nothing; and when nothing fails in the last one, it settles the
      directory, with every file of the start in exactly one new backup. For
      that it is enough that every run has a stamp of its own which the start
      has no entry for. */
  method ResetRepeatedly(start: Tree, session: string, runs: seq<Run>) returns (end: Tree, ghost ts: seq<Tree>)
    requires Safe(start, session) && session != ""
    ensures Runs(ts, session) && ts[0] == start && ts[|ts| - 1] == end && |ts| == |runs| + 1
    ensures Safe(end, session) && Conserved(start, end) && BackupsKept(start, end)
    ensures (&& Unobstructed(start, session) && (forall run <- runs :: StampApart(session, run.stamp))
             && runs != [] && Clean(ts[|ts| - 2], session, runs[|runs| - 1])) ==>
      Settled(end, session) && AllPublishedOnce(start, end, session)
    ensures (&& Unobstructed(start, session) && FreshStamps(start, session, runs)
             && runs != [] && AlwaysWorks(runs[|runs| - 1].fate)) ==>
      Settled(end, session) && AllPublishedOnce(start, end, session)
  {
    end, ts := start, [start];
    assert Conserved(start, start);
    hide Conserved, BackupsKept, StampApart, StampFree, Unobstructed, Safe, PublishedOnce, AllPublishedOnce, Settled;
    hide FreshStamps, NamesOnly, Listing, AlwaysWorks;
    NamesOfNone(start, session, runs);
    var i := 0;
    while i < |runs|
      invariant 0 <= i <= |runs| && |ts| == i + 1
      invariant Runs(ts, session) && ts[0] == start && ts[i] == end
      invariant Safe(end, session) && Conserved(start, end) && BackupsKept(start, end)
      invariant Unobstructed(start, session) && (forall run <- runs :: StampApart(session, run.stamp)) ==>
        && Unobstructed(end, session)
        && (i > 0 && Clean(ts[i - 1], session, runs[i - 1]) ==> Settled(end, session))
      invariant NamesOnly(start, session, runs[..i], end)
      invariant i > 0 && FreshStamps(start, session, runs) ==> StampFree(ts[i - 1], session, runs[i - 1].stamp)
    {
      ghost var before := end;
      NamesStayFresh(start, session, runs, i, end);
      end := ResetOnce(end, session, runs[i]);
      ConservedTransitive(start, before, end);
      BackupsKeptTransitive(start, before, end);
      RunsAppend(ts, session, end);
      NamesOfOneMore(start, session, runs, i, before, end);
      ts := ts + [end];
      i := i + 1;
    }
    if Settled(end, session) {
      SettledPublishesAll(ts, session);
    }
    FreshStampsAreApart(start, session, runs);
  }

  /** Every run has a stamp of its own, which nothing at the start is named by. */
  ghost predicate FreshStamps(start: Tree, session: string, runs: seq<Run>)
    requires LIVE in start
  {
    && (forall run <- runs :: StampFree(start, session, run.stamp))
    && forall i, j :: 0 <= i < j < |runs| ==> runs[i].stamp != runs[j].stamp
  }

  /** Besides what was there, only session files and names of these runs. */
  ghost predicate NamesOnly(start: Tree, session: string, runs: seq<Run>, t: Tree)
    requires LIVE in start && LIVE in t
  {
    forall n <- Listing(t) ::
      n in Listing(start) || n in SessionNames(session) || exists run <- runs :: n in StampedNames(run.stamp)
  }

  lemma NamesOfNone(start: Tree, session: string, runs: seq<Run>)
    requires LIVE in start
    ensures NamesOnly(start, session, runs[..0], start)
  {
  }

  lemma NamesOfOneMore(start: Tree, session: string, runs: seq<Run>, i: nat, t: Tree, end: Tree)
    requires LIVE in start && LIVE in t && LIVE in end && i < |runs| && NamesOnly(start, session, runs[..i], t)
    requires Listing(end) <= Listing(t) + Elements(SessionNames(session)) + StampedNames(runs[i].stamp)
    ensures NamesOnly(start, session, runs[..i + 1], end)
  {
    hide Listing, SessionNames, StampedNames;
    assert runs[..i + 1] == runs[..i] + [runs[i]];
    assert runs[i] in runs[..i + 1];
    assert forall run <- runs[..i] :: run in runs[..i + 1];
  }

  lemma NamesStayFresh(start: Tree, session: string, runs: seq<Run>, i: nat, t: Tree)
    requires LIVE in start && LIVE in t && i < |runs| && NamesOnly(start, session, runs[..i], t)
    ensures FreshStamps(start, session, runs) ==> StampFree(t, session, runs[i].stamp)
  {
    hide Listing, SessionNames, StampedNames;
    if FreshStamps(start, session, runs) {
      assert runs[i] in runs;
      forall run | run in runs[..i] ensures run.stamp != runs[i].stamp {
        var j :| 0 <= j < i && runs[j] == run;
        assert runs[j].stamp != runs[i].stamp;
      }
      forall run | run in runs[..i] {
        FreshStampIsFree(session, runs[i].stamp, run.stamp);
      }
    }
  }

  lemma FreshStampsAreApart(start: Tree, session: string, runs: seq<Run>)
    requires LIVE in start
    ensures FreshStamps(start, session, runs) ==> forall run <- runs :: StampApart(session, run.stamp)
  {
    hide StampApart;
  }

  /** One reset by a process of its own. */
  method ResetOnce(t: Tree, session: string, run: Run) returns (end: Tree)
    requires Safe(t, session) && session != ""
    ensures LIVE in end && ResetStep(t, session, end)
    ensures Safe(end, session) && Conserved(t, end) && BackupsKept(t, end)
    ensures Unobstructed(t, session) && StampApart(session, run.stamp) ==>
      && Unobstructed(end, session)
      && (Clean(t, session, run) ==> Settled(end, session))
    ensures Listing(end) <= Listing(t) + Elements(SessionNames(session)) + StampedNames(run.stamp)
  {
    hide Conserved, BackupsKept, StampFree, Unobstructed, SessionNames, StampedNames, Listing, Elements;
    var disk := new Disk(t, run.fate, run.blind);
    var r;
    ghost var trail;
    r, trail := ResetSessionWithBackup(disk, session, run.stamp);
    end := disk.tree;
    assert ResetStep(t, session, end);
    StepIsSafe(t, session, end);
    NamesAfter(t, session, trail, run.stamp);
    if Unobstructed(t, session) && StampApart(session, run.stamp) {
      SafeIsReady(t, session, run.stamp);
      StaysUnobstructed(t, session, trail);
    }
    if r.Ok? {
      SuccessSettles(t, session, trail);
    }
  }

  lemma SettledPublishesAll(ts: seq<Tree>, session: string)
    requires Runs(ts, session) && Safe(ts[0], session) && Settled(ts[|ts| - 1], session)
    ensures AllPublishedOnce(ts[0], ts[|ts| - 1], session)
  {
    forall name, node | name in SessionNames(session) && IsOpen(ts[0], name, node)
      ensures PublishedOnce(ts[0], ts[|ts| - 1], name, node)
    {
      SettledRunsPublishOnce(ts, session, name, node);
    }
  }

  lemma RunsAppend(ts: seq<Tree>, session: string, t: Tree)
    requires Runs(ts, session) && LIVE in t && ResetStep(ts[|ts| - 1], session, t)
    ensures Runs(ts + [t], session)
  {
    var all := ts + [t];
    forall i | 0 <= i < |all| - 1 ensures ResetStep(all[i], session, all[i + 1]) {
      assert i < |ts| - 1 ==> ResetStep(ts[i], session, ts[i + 1]);
    }
  }
}
