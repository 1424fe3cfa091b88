/** Which dialog folder the companion owns: the planner, its search for a free
    id, the verifier, and how the three fit together
    (src/setup_provision.rs). */
module FolderPlanning {
  import opened Basics
  import opened DialogFolders

  const FOLDER_TITLE := "Lavis"

  datatype DialogFolder = DialogFolder(
    id: int, title: string, regular: bool, included: seq<DialogPeer>, pinned: seq<DialogPeer>)

  datatype FolderCapacity = FolderCapacity(maximum: nat, firstValidId: int)

  datatype FolderPlan = Existing(id: int, folder: DialogFolder) | Create(id: int, folder: DialogFolder)

  predicate Used(filters: seq<DialogFolder>, id: int) {
    exists f <- filters :: f.id == id
  }

  ghost predicate UniqueIds(filters: seq<DialogFolder>) {
    forall i, j :: 0 <= i < j < |filters| ==> filters[i].id != filters[j].id
  }

  function Find(filters: seq<DialogFolder>, id: int): (r: Option<DialogFolder>)
    ensures r.Some? <==> Used(filters, id)
    ensures r.Some? ==> r.value in filters && r.value.id == id
  {
    if filters == [] then None
    else if filters[0].id == id then Some(filters[0])
    else
      assert filters == [filters[0]] + filters[1..];
      Find(filters[1..], id)
  }

  lemma {:induction false} FindUnique(filters: seq<DialogFolder>, i: nat)
    requires UniqueIds(filters) && i < |filters|
    ensures Find(filters, filters[i].id) == Some(filters[i])
    decreases i
  {
    if i > 0 {
      FindUnique(filters[1..], i - 1);
    }
  }

  // ------------------------------------------------------------ id search

  ghost function UsedFrom(filters: seq<DialogFolder>, id: int): set<int> {
    set f | f in filters && f.id >= id :: f.id
  }

  /** Tries ids upwards. The search ends because every id it skips is used by a
      folder of its own. */
  function FirstUnused(filters: seq<DialogFolder>, from: int): (id: int)
    ensures from <= id <= from + |UsedFrom(filters, from)|
    ensures !Used(filters, id)
    ensures forall skipped :: from <= skipped < id ==> Used(filters, skipped)
    decreases |UsedFrom(filters, from)|
  {
    if Used(filters, from) then
      assert UsedFrom(filters, from + 1) == UsedFrom(filters, from) - {from};
      assert from in UsedFrom(filters, from);
      FirstUnused(filters, from + 1)
    else from
  }

  lemma {:induction false} UsedFromIsSmall(filters: seq<DialogFolder>, from: int)
    ensures |UsedFrom(filters, from)| <= |filters|
    decreases |filters|
  {
    if filters == [] {
      assert UsedFrom(filters, from) == {};
    } else {
      var init, last := filters[..|filters| - 1], filters[|filters| - 1];
      assert filters == init + [last];
      UsedFromIsSmall(init, from);
      if last.id >= from {
        assert UsedFrom(filters, from) == UsedFrom(init, from) + {last.id};
      } else {
        assert UsedFrom(filters, from) == UsedFrom(init, from);
      }
    }
  }

  /** The search looks at no more than one candidate per folder, plus one. */
  lemma SearchIsBounded(filters: seq<DialogFolder>, from: int)
    ensures FirstUnused(filters, from) - from + 1 <= |filters| + 1
  {
    UsedFromIsSmall(filters, from);
  }

  // -------------------------------------------------------------- planning

  predicate Includes(folder: DialogFolder, key: PeerKey) {
    exists p <- folder.included :: p.Key() == key
  }

  predicate IsCandidate(folder: DialogFolder, group: PeerKey, bot: PeerKey) {
    folder.title == FOLDER_TITLE && Includes(folder, group) && Includes(folder, bot)
  }

  function Candidates(filters: seq<DialogFolder>, group: PeerKey, bot: PeerKey): (r: seq<DialogFolder>)
    ensures forall f :: f in r <==> f in filters && IsCandidate(f, group, bot)
  {
    if filters == [] then []
    else
      assert filters == [filters[0]] + filters[1..];
      var rest := Candidates(filters[1..], group, bot);
      if IsCandidate(filters[0], group, bot) then [filters[0]] + rest else rest
  }

  function EmptyFolder(id: int): DialogFolder {
    DialogFolder(id, FOLDER_TITLE, true, [], [])
  }

  predicate SomeNamed(filters: seq<DialogFolder>) {
    exists f <- filters :: f.title == FOLDER_TITLE
  }

  function PlanFolder(
      filters: seq<DialogFolder>, chatId: int, botId: int, capacity: FolderCapacity, recordedId: Option<int>)
    : Result<FolderPlan, ProvisionError>
  {
    var group, bot := ChannelKey(chatId), UserKey(botId);
    match recordedId
    case Some(recorded) =>
      (match Find(filters, recorded)
       case Some(folder) =>
         if !folder.regular || folder.title != FOLDER_TITLE
            || exists f <- filters :: f.title == FOLDER_TITLE && f.id != recorded
         then Err(FolderNameConflict)
         else Ok(Existing(folder.id, folder))
       case None =>
         if SomeNamed(filters) || |filters| >= capacity.maximum then Err(FolderNameConflict)
         else Ok(Create(recorded, EmptyFolder(recorded))))
    case None =>
      if exists f <- filters :: f.title == FOLDER_TITLE && !f.regular then Err(FolderNameConflict)
      else
        var candidates := Candidates(filters, group, bot);
        if |candidates| == 1 then Ok(Existing(candidates[0].id, candidates[0]))
        else if candidates != [] || SomeNamed(filters) then Err(FolderNameConflict)
        else if exists f <- filters :: Includes(f, group) || Includes(f, bot) then Err(FolderNameConflict)
        else if |filters| >= capacity.maximum then Err(FolderCapacityReached)
        else
          var id := FirstUnused(filters, capacity.firstValidId);
          Ok(Create(id, EmptyFolder(id)))
  }

  lemma {:induction false} CandidatesAppend(a: seq<DialogFolder>, b: seq<DialogFolder>, group: PeerKey, bot: PeerKey)
    ensures Candidates(a + b, group, bot) == Candidates(a, group, bot) + Candidates(b, group, bot)
    decreases |a|
  {
    if a == [] {
      assert a + b == b;
    } else {
      assert (a + b)[1..] == a[1..] + b;
      CandidatesAppend(a[1..], b, group, bot);
    }
  }

  lemma NoCandidateIff(filters: seq<DialogFolder>, group: PeerKey, bot: PeerKey)
    ensures Candidates(filters, group, bot) == [] <==> forall f <- filters :: !IsCandidate(f, group, bot)
  {
    var r := Candidates(filters, group, bot);
    assert r != [] ==> r[0] in r;
  }

  lemma CandidatesAround(filters: seq<DialogFolder>, i: nat, group: PeerKey, bot: PeerKey)
    requires i < |filters| && IsCandidate(filters[i], group, bot)
    ensures Candidates(filters, group, bot) ==
      Candidates(filters[..i], group, bot) + [filters[i]] + Candidates(filters[i + 1..], group, bot)
    ensures OnlyCandidate(filters, i, group, bot) <==>
      Candidates(filters[..i], group, bot) == [] && Candidates(filters[i + 1..], group, bot) == []
  {
    var before, after := filters[..i], filters[i + 1..];
    hide IsCandidate, OnlyCandidate;
    assert Candidates([filters[i]], group, bot) == [filters[i]];
    assert filters == before + [filters[i]] + after;
    CandidatesAppend(before + [filters[i]], after, group, bot);
    CandidatesAppend(before, [filters[i]], group, bot);
    NoCandidateIff(before, group, bot);
    NoCandidateIff(after, group, bot);
    OnlyCandidateAround(filters, i, group, bot);
  }

  lemma OnlyCandidateAround(filters: seq<DialogFolder>, i: nat, group: PeerKey, bot: PeerKey)
    requires i < |filters| && IsCandidate(filters[i], group, bot)
    ensures OnlyCandidate(filters, i, group, bot) <==>
      && (forall f <- filters[..i] :: !IsCandidate(f, group, bot))
      && forall f <- filters[i + 1..] :: !IsCandidate(f, group, bot)
  {
    hide IsCandidate;
    var before, after := filters[..i], filters[i + 1..];
    forall j | 0 <= j < |filters| && j != i ensures if j < i then filters[j] in before else filters[j] in after {
      assert if j < i then before[j] == filters[j] else after[j - i - 1] == filters[j];
    }
    assert forall f :: f in before ==> exists j :: 0 <= j < i && filters[j] == f;
    assert forall f :: f in after ==> exists j :: i < j < |filters| && filters[j] == f;
  }

  lemma OneCandidateIff(filters: seq<DialogFolder>, group: PeerKey, bot: PeerKey)
    ensures |Candidates(filters, group, bot)| == 1 <==> exists i :: OnlyCandidate(filters, i, group, bot)
    ensures forall i :: OnlyCandidate(filters, i, group, bot) ==> Candidates(filters, group, bot) == [filters[i]]
  {
    hide IsCandidate, Candidates;
    var r := Candidates(filters, group, bot);
    forall i | OnlyCandidate(filters, i, group, bot) ensures r == [filters[i]] {
      CandidatesAround(filters, i, group, bot);
    }
    if |r| == 1 {
      assert r[0] in r;
      var i :| 0 <= i < |filters| && filters[i] == r[0];
      CandidatesAround(filters, i, group, bot);
      assert OnlyCandidate(filters, i, group, bot);
    }
  }

  /** Of all folders the i-th alone has the title and includes both peers. */
  ghost predicate OnlyCandidate(filters: seq<DialogFolder>, i: int, group: PeerKey, bot: PeerKey) {
    && 0 <= i < |filters| && IsCandidate(filters[i], group, bot)
    && forall j :: 0 <= j < |filters| && j != i ==> !IsCandidate(filters[j], group, bot)
  }

  /** A candidate is titled "Lavis" and includes the group and the bot, each in
      its own namespace. */
  lemma CandidateMeans(folder: DialogFolder, chatId: int, botId: int)
    ensures IsCandidate(folder, ChannelKey(chatId), UserKey(botId)) <==>
      && folder.title == "Lavis"
      && (exists p <- folder.included :: p.Channel? && p.id == chatId)
      && (exists p <- folder.included :: p.User? && p.id == botId)
  {
    forall p: DialogPeer
      ensures (p.Key() == ChannelKey(chatId) <==> p.Channel? && p.id == chatId) && (p.Key() == UserKey(botId) <==> p.User? && p.id == botId)
    {
    }
  }

  /** No folder has the companion's title or holds one of its peers. */
  ghost predicate Untouched(filters: seq<DialogFolder>, group: PeerKey, bot: PeerKey) {
    forall f <- filters :: f.title != FOLDER_TITLE && !Includes(f, group) && !Includes(f, bot)
  }

  /** Without a recorded id a folder is created exactly when nothing on the
      account looks like the companion's and there is room for one more. */
  lemma UnrecordedCreate(filters: seq<DialogFolder>, chatId: int, botId: int, capacity: FolderCapacity)
    ensures var plan := PlanFolder(filters, chatId, botId, capacity, None);
      && (plan.Ok? && plan.value.Create? <==>
            Untouched(filters, ChannelKey(chatId), UserKey(botId)) && |filters| < capacity.maximum)
      && (plan == Err(FolderCapacityReached) <==>
            Untouched(filters, ChannelKey(chatId), UserKey(botId)) && |filters| >= capacity.maximum)
      && (plan.Ok? && plan.value.Create? ==>
            && plan.value.folder == DialogFolder(plan.value.id, "Lavis", true, [], [])
            && capacity.firstValidId <= plan.value.id <= capacity.firstValidId + |filters|
            && !Used(filters, plan.value.id)
            && forall id :: capacity.firstValidId <= id < plan.value.id ==> Used(filters, id))
  {
    UsedFromIsSmall(filters, capacity.firstValidId);
    var candidates := Candidates(filters, ChannelKey(chatId), UserKey(botId));
    if candidates != [] {
      assert candidates[0] in filters;
    }
  }

  /** Without a recorded id an existing folder is adopted exactly when it is
      the one titled folder holding both typed peers and no shared folder
      carries the title. */
  lemma UnrecordedAdopt(filters: seq<DialogFolder>, chatId: int, botId: int, capacity: FolderCapacity)
    ensures var group, bot := ChannelKey(chatId), UserKey(botId);
      var plan := PlanFolder(filters, chatId, botId, capacity, None);
      && (plan.Ok? && plan.value.Existing? <==>
            && (exists i :: OnlyCandidate(filters, i, group, bot))
            && forall f <- filters :: f.title == "Lavis" ==> f.regular)
      && (plan.Ok? && plan.value.Existing? ==>
            && plan.value.folder in filters && plan.value.folder.id == plan.value.id
            && plan.value.folder.regular && IsCandidate(plan.value.folder, group, bot))
      && (plan.Err? ==> plan.error == FolderCapacityReached || plan.error == FolderNameConflict)
  {
    var candidates := Candidates(filters, ChannelKey(chatId), UserKey(botId));
    OneCandidateIff(filters, ChannelKey(chatId), UserKey(botId));
    if |candidates| == 1 {
      assert candidates[0] in candidates;
    }
  }

  /** A recorded id is kept for good: it is reused, recreated under the same
      id, or reported as a conflict, also when the list is full. */
  lemma RecordedIdIsKept(
      filters: seq<DialogFolder>, chatId: int, botId: int, capacity: FolderCapacity, recorded: int)
    ensures var plan := PlanFolder(filters, chatId, botId, capacity, Some(recorded));
      && (plan.Ok? ==> plan.value.id == recorded == plan.value.folder.id)
      && (plan.Err? ==> plan.error == FolderNameConflict)
      && (plan.Ok? && plan.value.Create? <==>
            && (forall f <- filters :: f.id != recorded && f.title != "Lavis") && |filters| < capacity.maximum)
      && (plan.Ok? && plan.value.Create? ==> plan.value.folder == DialogFolder(recorded, "Lavis", true, [], []))
  {
  }

  /** With a recorded id a folder is taken over if and only if it is listed with
      that id, regular and titled, and no folder of another id has the title; it
      is then that folder as it is listed. */
  lemma RecordedIsAdoptedIff(
      filters: seq<DialogFolder>, chatId: int, botId: int, capacity: FolderCapacity, recorded: int)
    requires UniqueIds(filters)
    ensures var plan := PlanFolder(filters, chatId, botId, capacity, Some(recorded));
      && (plan.Ok? && plan.value.Existing? <==>
            && (exists f <- filters :: f.id == recorded && f.regular && f.title == "Lavis")
            && forall f <- filters :: f.title == "Lavis" ==> f.id == recorded)
      && (plan.Ok? && plan.value.Existing? ==> plan.value.folder in filters && plan.value.folder.id == recorded)
  {
    if Find(filters, recorded).Some? {
      var i :| 0 <= i < |filters| && filters[i].id == recorded;
      FindUnique(filters, i);
      forall f | f in filters && f.id == recorded ensures f == filters[i] {
        var j :| 0 <= j < |filters| && filters[j] == f;
        assert j == i;
      }
    }
  }

  /** A recorded id that is gone is a conflict exactly when the list is full or
      another folder has the title; otherwise the folder is made again. */
  lemma MissingIdIsConflictIff(
      filters: seq<DialogFolder>, chatId: int, botId: int, capacity: FolderCapacity, recorded: int)
    requires forall f <- filters :: f.id != recorded
    ensures var plan := PlanFolder(filters, chatId, botId, capacity, Some(recorded));
      if |filters| >= capacity.maximum || exists f <- filters :: f.title == "Lavis" then plan == Err(FolderNameConflict)
      else plan == Ok(Create(recorded, DialogFolder(recorded, "Lavis", true, [], [])))
  {
  }

  ghost predicate OnlyOwnTitle(filters: seq<DialogFolder>, id: int) {
    forall f <- filters :: f.title == FOLDER_TITLE ==> f.id == id
  }

  /** A stored companion folder is planned again, unchanged, exactly when no
      other folder carries its title. */
  lemma ReplannedIff(
      filters: seq<DialogFolder>, i: nat, chatId: int, botId: int, capacity: FolderCapacity)
    requires UniqueIds(filters) && i < |filters|
    requires filters[i].regular && filters[i].title == FOLDER_TITLE
    ensures PlanFolder(filters, chatId, botId, capacity, Some(filters[i].id)) == Ok(Existing(filters[i].id, filters[i]))
       <==> OnlyOwnTitle(filters, filters[i].id)
  {
    FindUnique(filters, i);
  }

  // ---------------------------------------------------------- verification

  datatype FolderVerification = FolderVerification(
    matches: bool,
    includedCount: nat,
    pinnedCount: nat,
    missingMembership: set<PeerKey>,
    missingPinned: set<PeerKey>)

  function VerifyFolder(filters: seq<DialogFolder>, id: int, managed: seq<DialogPeer>): FolderVerification {
    var normalized := NormalizedPeerSet(managed);
    var expected := if normalized.Some? then normalized.value else {};
    match Find(filters, id)
    case None => FolderVerification(false, 0, 0, expected, expected)
    case Some(folder) =>
      var missingMembership := expected - Keys(folder.included + folder.pinned);
      var missingPinned := expected - Keys(folder.pinned);
      FolderVerification(
        && folder.title == FOLDER_TITLE
        && folder.regular
        && NormalizedPeerSet(folder.included).Some?
        && NormalizedPeerSet(folder.pinned).Some?
        && missingMembership == {}
        && missingPinned == {},
        |folder.included|, |folder.pinned|, missingMembership, missingPinned)
  }

  /** What the verifier tells besides: both counts, and the managed keys that are
      in neither list, and those that are not pinned. A missing folder lacks all. */
  lemma VerificationTells(filters: seq<DialogFolder>, id: int, managed: seq<DialogPeer>)
    requires UniqueKeys(managed)
    ensures var v := VerifyFolder(filters, id, managed);
      match Find(filters, id)
      case None => v == FolderVerification(false, 0, 0, Keys(managed), Keys(managed))
      case Some(folder) =>
        && v.includedCount == |folder.included| && v.pinnedCount == |folder.pinned|
        && (forall k :: k in v.missingPinned <==> k in Keys(managed) && k !in Keys(folder.pinned))
        && (forall k :: k in v.missingMembership <==>
              k in Keys(managed) && k !in Keys(folder.pinned) && k !in Keys(folder.included))
  {
    NormalizedIffUnique(managed);
    if Find(filters, id).Some? {
      var folder := Find(filters, id).value;
      assert forall p :: p in folder.included + folder.pinned <==> p in folder.included || p in folder.pinned;
    }
  }

  lemma NothingMissingIff(managed: seq<DialogPeer>, folder: DialogFolder)
    ensures Keys(managed) - Keys(folder.pinned) == {} <==> Keys(managed) <= Keys(folder.pinned)
    ensures Keys(folder.pinned) <= Keys(folder.included + folder.pinned)
    ensures Keys(managed) <= Keys(folder.pinned) ==> Keys(managed) - Keys(folder.included + folder.pinned) == {}
  {
    forall k | k in Keys(managed) && Keys(managed) - Keys(folder.pinned) == {} ensures k in Keys(folder.pinned) {
      assert k !in Keys(managed) - Keys(folder.pinned);
    }
    assert forall p :: p in folder.pinned ==> p in folder.included + folder.pinned;
  }

  /** The verifier accepts a folder exactly when it is a regular one of the
      right name, pins every managed peer and repeats none. */
  lemma VerifiedMeans(filters: seq<DialogFolder>, id: int, managed: seq<DialogPeer>)
    requires UniqueKeys(managed)
    ensures VerifyFolder(filters, id, managed).matches <==> (
      && Find(filters, id).Some?
      && Find(filters, id).value.title == "Lavis"
      && Find(filters, id).value.regular
      && UniqueKeys(Find(filters, id).value.included)
      && UniqueKeys(Find(filters, id).value.pinned)
      && Keys(managed) <= Keys(Find(filters, id).value.pinned))
  {
    NormalizedIffUnique(managed);
    if Find(filters, id).Some? {
      var folder := Find(filters, id).value;
      NormalizedIffUnique(folder.included);
      NormalizedIffUnique(folder.pinned);
      NothingMissingIff(managed, folder);
    }
  }

  /** A folder with every managed peer merged into both of its lists. */
  ghost predicate FolderMerged(before: DialogFolder, managed: seq<DialogPeer>, after: DialogFolder) {
    && after.id == before.id && after.title == before.title && after.regular == before.regular
    && IsMerge(before.included, managed, after.included)
    && IsMerge(before.pinned, managed, after.pinned)
  }

  /** The verifier accepts what the merge wrote, whatever was there before. */
  lemma MergedFolderVerifies(
      filters: seq<DialogFolder>, i: nat, before: DialogFolder, managed: seq<DialogPeer>)
    requires UniqueIds(filters) && i < |filters| && UniqueKeys(managed)
    requires FolderMerged(before, managed, filters[i])
    requires before.title == FOLDER_TITLE && before.regular
    ensures VerifyFolder(filters, filters[i].id, managed).matches
  {
    FindUnique(filters, i);
    SortedUnique(filters[i].included);
    SortedUnique(filters[i].pinned);
    VerifiedMeans(filters, filters[i].id, managed);
    assert ByKey(filters[i].pinned).Keys == (ByKey(before.pinned) + ByKey(managed)).Keys;
  }

  /** Running again with the same managed peers writes back the same folder. */
  lemma SecondMergeIsIdentical(before: DialogFolder, managed: seq<DialogPeer>, first: DialogFolder, second: DialogFolder)
    requires FolderMerged(before, managed, first) && FolderMerged(first, managed, second)
    ensures first == second
  {
    MergeIsIdempotent(before.included, managed, first.included);
    MergeIsIdempotent(before.pinned, managed, first.pinned);
    MergeIsDetermined(first.included, managed, first.included, second.included);
    MergeIsDetermined(first.pinned, managed, first.pinned, second.pinned);
  }
}
