/** The state document and the token file of companion setup, written by
    temporary file and rename (src/setup_store.rs), on a disk that may fail at
    every operation and under a process that may die before any of them. */
module SetupStore {
  import opened Basics
  import opened SetupState

  datatype Path = StatePath | TokenPath | Temporary(target: Path, counter: nat)

  datatype Document = StateDocument(state: PersistedSetupState) | TokenDocument(token: string)

  /** A file holds a whole document or whatever an interrupted write left. */
  datatype File = Whole(document: Document) | Torn

  datatype LoadResult = Loaded(state: PersistedSetupState) | NotFound | Unreadable

  ghost predicate NoTemporaries(files: map<Path, File>) {
    forall p :: p in files ==> !p.Temporary?
  }

  /** What a load that works makes of the files. */
  function LoadOf(files: map<Path, File>): LoadResult {
    if StatePath !in files then NotFound
    else
      match files[StatePath]
      case Whole(StateDocument(state)) => Loaded(state)
      case _ => Unreadable
  }

  /** Loaded is exactly a whole state document, not found exactly an absent file;
      anything else is unreadable. */
  lemma LoadOfMeans(files: map<Path, File>)
    ensures LoadOf(files) == NotFound <==> StatePath !in files
    ensures forall state :: LoadOf(files) == Loaded(state) <==>
      StatePath in files && files[StatePath] == Whole(StateDocument(state))
  {
  }

  /** One of the four operations up to the rename fails, and the one after it,
      which removes the temporary if there is one, works. */
  predicate TidiedUp(fate: nat -> Fate, from: nat) {
    || !fate(from).Works?
    || (fate(from + 1).Fails? && fate(from + 2).Works?)
    || (fate(from + 1).Works? && fate(from + 2).Fails? && fate(from + 3).Works?)
    || (fate(from + 1).Works? && fate(from + 2).Works? && fate(from + 3).Fails? && fate(from + 4).Works?)
  }

  class Store {
    var files: map<Path, File>
    var counter: nat
    var clock: nat
    var dead: bool
    const fate: nat -> Fate

    constructor (files: map<Path, File>, fate: nat -> Fate)
      ensures this.files == files && this.fate == fate && !dead && counter == 0 && clock == 0
    {
      this.files, this.fate := files, fate;
      counter, clock, dead := 0, 0, false;
    }

    method Try() returns (ok: bool)
      modifies this`clock, this`dead
      ensures ok <==> !old(dead) && fate(old(clock)).Works?
      ensures dead <==> old(dead) || fate(old(clock)).Dies?
      ensures clock == if old(dead) then old(clock) else old(clock) + 1
    {
      if dead {
        return false;
      }
      var f := fate(clock);
      clock := clock + 1;
      dead := f.Dies?;
      return f.Works?;
    }

    /** Best-effort removal of a temporary; the caller fails in any case. */
    method CleanUp(temporary: Path)
      requires temporary.Temporary?
      modifies this`files, this`clock, this`dead
      ensures forall p: Path :: !p.Temporary? ==> SameDocument(old(files), files, p)
      ensures old(dead) ==> dead
      ensures files == if !old(dead) && fate(old(clock)).Works? then old(files) - {temporary} else old(files)
    {
      var ok := Try();
      if ok {
        files := files - {temporary};
      }
    }

    /** Creates a temporary, writes the document and syncs it; what a failure
        leaves is removed if that works. */
    method FillTemporary(temporary: Path, document: Document) returns (ok: bool)
      requires temporary.Temporary?
      modifies this`files, this`clock, this`dead
      ensures forall p: Path :: !p.Temporary? ==> SameDocument(old(files), files, p)
      ensures old(dead) ==> dead && files == old(files) && !ok
      ensures !old(dead) && temporary !in old(files) && WorksFor(fate, old(clock), 3) ==>
        ok && !dead && clock == old(clock) + 3 && files == old(files)[temporary := Whole(document)]
      // What a failure leaves: nothing when tidying up works, and where the
      // process dies the file as far as it got.
      ensures !old(dead) && temporary !in old(files) ==>
        var first, second, third, fourth :=
          fate(old(clock)), fate(old(clock) + 1), fate(old(clock) + 2), fate(old(clock) + 3);
        && (!first.Works? ==> files == old(files) && !ok)
        && (first.Works? && second.Fails? && third.Works? ==> files == old(files) && !ok)
        && (first.Works? && second.Works? && third.Fails? && fourth.Works? ==> files == old(files) && !ok)
        && (first.Works? && second.Dies? ==> files == old(files)[temporary := Torn] && !ok)
        && (first.Works? && second.Works? && third.Dies? ==> files == old(files)[temporary := Whole(document)] && !ok)
    {
      var created := Try();
      if !created || temporary in files {
        return false;
      }
      files := files[temporary := Torn];
      ok := Try();
      if ok {
        files := files[temporary := Whole(document)];
        ok := Try();
      }
      if !ok {
        CleanUp(temporary);
      }
    }

    /** Writes a document under `path`. The rename commits: whatever happens,
        the file is as it was or holds the whole new document, and no other
        document is touched. A failed final sync reports an error afterwards. */
    method WriteChecked(path: Path, document: Document) returns (ok: bool)
      requires !path.Temporary?
      modifies this`files, this`counter, this`clock, this`dead
      ensures SavedOrNot(old(files), path, document, files)
      ensures ok ==> path in files && files[path] == Whole(document) && !dead
      ensures old(dead) ==> dead && files == old(files)
      ensures counter == old(counter) + 1
      // Once the rename is done the document is there, whatever the sync does.
      ensures !old(dead) && NoTemporaries(old(files)) && WorksFor(fate, old(clock), 4) ==>
        && files == old(files)[path := Whole(document)] && clock == old(clock) + 5
        && ok == fate(old(clock) + 4).Works? && dead == fate(old(clock) + 4).Dies?
      // The first failure, up to the rename, changes nothing when tidying up works.
      ensures !old(dead) && NoTemporaries(old(files)) && TidiedUp(fate, old(clock)) ==> files == old(files) && !ok
    {
      counter := counter + 1;
      var temporary := Temporary(path, counter);
      var filled := FillTemporary(temporary, document);
      if !filled {
        return false;
      }
      ok := RenameOver(temporary, path, document);
    }

    /** The rename, which commits, and the sync of the directory. */
    method RenameOver(temporary: Path, path: Path, document: Document) returns (ok: bool)
      requires temporary.Temporary? && !path.Temporary?
      modifies this`files, this`clock, this`dead
      ensures old(dead) ==> dead && files == old(files) && !ok
      ensures !old(dead) ==>
        var renamed, second := fate(old(clock)), fate(old(clock) + 1);
        && (renamed.Works? ==>
              && files == (old(files) - {temporary})[path := Whole(document)] && clock == old(clock) + 2
              && ok == second.Works? && dead == second.Dies?)
        && (renamed.Fails? ==> !ok && files == if second.Works? then old(files) - {temporary} else old(files))
        && (renamed.Dies? ==> !ok && dead && files == old(files))
    {
      ok := Try();
      if !ok {
        CleanUp(temporary);
        return;
      }
      files := (files - {temporary})[path := Whole(document)];
      ok := Try();
    }

    /** A document that is too large is refused before anything is written. */
    method SaveState(state: PersistedSetupState) returns (ok: bool)
      modifies this`files, this`counter, this`clock, this`dead
      ensures SavedOrNot(old(files), StatePath, StateDocument(state), files)
      ensures ok ==> StatePath in files && files[StatePath] == Whole(StateDocument(state)) && !dead
      ensures old(dead) ==> dead && files == old(files) && !ok
      ensures !old(dead) && NoTemporaries(old(files)) && WorksFor(fate, old(clock), 5) ==>
        && files == old(files)[StatePath := Whole(StateDocument(state))] && clock == old(clock) + 6
        && ok == fate(old(clock) + 5).Works? && dead == fate(old(clock) + 5).Dies?
    {
      var fits := Try();
      if !fits {
        return false;
      }
      ok := WriteChecked(StatePath, StateDocument(state));
    }

    method SaveToken(token: string) returns (ok: bool)
      modifies this`files, this`counter, this`clock, this`dead
      ensures SavedOrNot(old(files), TokenPath, TokenDocument(token), files)
      ensures ok ==> TokenPath in files && files[TokenPath] == Whole(TokenDocument(token)) && !dead
      ensures old(dead) ==> dead && files == old(files) && !ok
      ensures !old(dead) && NoTemporaries(old(files)) && WorksFor(fate, old(clock), 4) ==>
        && files == old(files)[TokenPath := Whole(TokenDocument(token))] && clock == old(clock) + 5
        && ok == fate(old(clock) + 4).Works? && dead == fate(old(clock) + 4).Dies?
    {
      ok := WriteChecked(TokenPath, TokenDocument(token));
    }

    method LoadState() returns (r: LoadResult)
      modifies this`clock, this`dead
      ensures r == if !old(dead) && fate(old(clock)).Works? then LoadOf(files) else Unreadable
      ensures dead <==> old(dead) || fate(old(clock)).Dies?
      ensures clock == if old(dead) then old(clock) else old(clock) + 1
    {
      var ok := Try();
      return if ok then LoadOf(files) else Unreadable;
    }
  }

  predicate SameDocument(before: map<Path, File>, after: map<Path, File>, p: Path) {
    (p in after <==> p in before) && (p in after ==> after[p] == before[p])
  }

  /** All or nothing for one document, nothing for the other. */
  ghost predicate SavedOrNot(before: map<Path, File>, path: Path, document: Document, after: map<Path, File>) {
    && (forall p: Path :: !p.Temporary? && p != path ==> SameDocument(before, after, p))
    && ((path in after && after[path] == Whole(document)) || SameDocument(before, after, path))
  }
}
