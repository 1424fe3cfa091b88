/** The remote side of provisioning and the durable state file, behind the
    calls `provision` makes (src/setup_provision.rs, `ProvisionTransport`, as
    the adapter in src/setup_grammers.rs answers them). */
module RemoteWorkspace {
  import opened Basics
  import opened DialogFolders
  import opened FolderPlanning
  import opened SetupState

  datatype BotIdentity = BotIdentity(id: int, accessHash: int)

  datatype ForumGroup = ForumGroup(id: int, accessHash: Option<int>)

  datatype CommunityIdentity = CommunityIdentity(id: int, accessHash: int, public: bool, megagroup: bool)

  /** One answer of the outside world. Every call takes the next one and reads
      the parts it needs. `written` tells a save that failed after its rename
      from one that failed before. */
  datatype Reply = Reply(
    ok: bool,
    written: bool,
    found: bool,
    topic: int,
    bot: BotIdentity,
    group: ForumGroup,
    community: CommunityIdentity,
    capacity: FolderCapacity,
    folders: seq<DialogFolder>)

  /** An answer with which every call succeeds. */
  predicate Good(reply: Reply) {
    && reply.ok && reply.found && reply.group.accessHash.Some?
    && reply.community.public && reply.community.megagroup
  }

  /** A remote call that succeeded. */
  datatype Fact =
    | BotResolved(username: string, bot: BotIdentity)
    | BotStarted(bot: BotIdentity)
    | ConfigRead
    | GroupSeen(groupId: int)
    | TopicKnown(groupId: int, title: string, topicId: int)
    | Invited(groupId: int, username: string)
    | Promoted(groupId: int, username: string)
    | TopicMissing(groupId: int, title: string)
    | CommunityResolved(community: CommunityIdentity)
    | CommunitySeen(community: CommunityIdentity)
    | CommunityJoined(communityId: int)
    | FiltersRead
    | FolderWritten(folderId: int)
    | FolderVerified(folderId: int)

  predicate BotComplete(i: SetupIdentities) {
    i.botUserId.Some? && i.botAccessHash.Some?
  }

  predicate CommunityComplete(i: SetupIdentities) {
    i.communityChatId.Some? && i.communityAccessHash.Some?
  }

  /** The community on record, which has to be public and a megagroup. */
  function RecordedCommunity(i: SetupIdentities): CommunityIdentity
    requires CommunityComplete(i)
  {
    CommunityIdentity(i.communityChatId.value, i.communityAccessHash.value, true, true)
  }

  /** Every identity was reported by a remote call, and every stage flag rests
      on calls that succeeded for the very identities recorded beside it. */
  ghost predicate Backed(s: PersistedSetupState, facts: set<Fact>) {
    var st, id := s.stages, s.identities;
    && (BotComplete(id) ==>
          && id.botUsername.Some?
          && BotResolved(id.botUsername.value, BotIdentity(id.botUserId.value, id.botAccessHash.value)) in facts)
    && (id.companionChatId.Some? ==> GroupSeen(id.companionChatId.value) in facts)
    && (CommunityComplete(id) ==> CommunityResolved(RecordedCommunity(id)) in facts)
    && (st.botDialogInitialized ==>
          BotComplete(id) && BotStarted(BotIdentity(id.botUserId.value, id.botAccessHash.value)) in facts)
    && (st.appConfigChecked ==> ConfigRead in facts)
    && (st.forumGroupCreated ==> id.companionChatId.Some?)
    && (st.forumTopicCreated ==>
          && id.companionChatId.Some? && id.companionTopicId.Some?
          && id.companionLogsTopicId.Some? && id.companionBackupsTopicId.Some?
          && TopicKnown(id.companionChatId.value, "General", id.companionTopicId.value) in facts
          && TopicKnown(id.companionChatId.value, "Logs", id.companionLogsTopicId.value) in facts
          && TopicKnown(id.companionChatId.value, "Backups", id.companionBackupsTopicId.value) in facts)
    && (st.botInvited ==>
          id.companionChatId.Some? && exists u :: Invited(id.companionChatId.value, u) in facts)
    && (st.botRightsConfigured ==>
          id.companionChatId.Some? && exists u :: Promoted(id.companionChatId.value, u) in facts)
    && (st.communityJoined ==>
          CommunityComplete(id) && CommunityJoined(id.communityChatId.value) in facts)
    && (st.folderConfigured ==>
          && id.companionFolderId.Some?
          && FolderWritten(id.companionFolderId.value) in facts
          && FolderVerified(id.companionFolderId.value) in facts)
    && (st.companionConfigured ==> FiltersRead in facts)
  }

  /** What may change from one saved state to a later one. */
  ghost predicate Evolves(a: PersistedSetupState, b: PersistedSetupState) {
    var x, y := a.identities, b.identities;
    && (BotComplete(x) ==>
          y.botUsername == x.botUsername && y.botUserId == x.botUserId && y.botAccessHash == x.botAccessHash)
    && (x.companionChatId.Some? ==>
          y.companionChatId == x.companionChatId && y.companionChatAccessHash == x.companionChatAccessHash)
    && (x.companionFolderId.Some? ==> y.companionFolderId == x.companionFolderId)
    && (CommunityComplete(x) ==>
          y.communityChatId == x.communityChatId && y.communityAccessHash == x.communityAccessHash)
    && (a.stages.botCreated ==> b.stages.botCreated)
    && (a.stages.botIdentityRecorded ==> b.stages.botIdentityRecorded)
    && (a.stages.botDialogInitialized ==> b.stages.botDialogInitialized)
    && (a.stages.appConfigChecked ==> b.stages.appConfigChecked)
    && (a.stages.forumGroupCreated ==> b.stages.forumGroupCreated)
    && (a.stages.forumTopicCreated ==> b.stages.forumTopicCreated)
    && (a.stages.botInvited ==> b.stages.botInvited)
    && (a.stages.botRightsConfigured ==> b.stages.botRightsConfigured)
    && (a.stages.communityJoined ==> b.stages.communityJoined)
    && (a.stages.companionConfigured ==> b.stages.companionConfigured)
  }

  lemma EvolvesTransitive(a: PersistedSetupState, b: PersistedSetupState, c: PersistedSetupState)
    requires Evolves(a, b) && Evolves(b, c)
    ensures Evolves(a, c)
  {
  }

  lemma BackedGrows(s: PersistedSetupState, facts: set<Fact>, more: set<Fact>)
    requires Backed(s, facts) && facts <= more
    ensures Backed(s, more)
  {
  }

  /** A group creation: the group, and the one the state file named then. */
  datatype Creation = Creation(group: ForumGroup, recorded: Option<int>)

  /** No group was ever created while another was recorded, so that every
      creation but the last one was followed by a save that did not happen. */
  ghost predicate OneGroupKept(creations: seq<Creation>, chatId: Option<int>) {
    && (forall c <- creations :: c.recorded.None?)
    && (chatId.Some? ==> creations != [] && creations[|creations| - 1].group.id == chatId.value)
  }

  function Without(order: seq<int>, id: int): (r: seq<int>)
    ensures id !in r
    ensures forall x :: x in r <==> x in order && x != id
    ensures NoDuplicates(order) ==> NoDuplicates(r)
  {
    if order == [] then []
    else
      var last := order[|order| - 1];
      assert order == order[..|order| - 1] + [last];
      var rest := Without(order[..|order| - 1], id);
      assert NoDuplicates(order) ==> last !in order[..|order| - 1];
      if last == id then rest else rest + [last]
  }

  /** The state a run works on, updated in place between saves. */
  class SetupDocument {
    var state: PersistedSetupState

    constructor (state: PersistedSetupState)
      ensures this.state == state
    {
      this.state := state;
    }
  }

  class Workspace {
    const script: nat -> Reply
    /** Whether the server stores folders as told and reports them truly. */
    const faithful: bool
    var turn: nat
    var durable: PersistedSetupState
    var folders: map<int, DialogFolder>
    var order: seq<int>
    var sentOrder: seq<int>
    ghost var facts: set<Fact>
    ghost var creations: seq<Creation>
    /** The folder lists read so far. */
    ghost var seen: seq<seq<DialogFolder>>

    ghost predicate Valid() reads this {
      && NoDuplicates(order) && Elements(order) == folders.Keys
      && (forall id :: id in folders ==> folders[id].id == id)
      && Backed(durable, facts)
      && OneGroupKept(creations, durable.identities.companionChatId)
    }

    /** A run is under way with `doc` as its working state. */
    ghost predicate Running(doc: SetupDocument) reads this, doc {
      && Valid() && Backed(doc.state, facts) && Evolves(durable, doc.state)
      && OneGroupKept(creations, doc.state.identities.companionChatId)
    }

    constructor (script: nat -> Reply, faithful: bool)
      ensures Valid() && durable == DEFAULT_STATE && facts == {} && creations == []
      ensures folders == map[] && this.faithful == faithful && this.script == script
    {
      this.script, this.faithful := script, faithful;
      turn, durable, facts, creations, seen := 0, DEFAULT_STATE, {}, [], [];
      folders, order, sentOrder := map[], [], [];
    }

    /** Nothing ever fails, neither a call nor a save. */
    ghost predicate Healthy() {
      forall n: nat :: Good(script(n))
    }

    /** Some answer tells this limit on folders. */
    ghost predicate Answers(capacity: FolderCapacity) {
      exists n: nat :: script(n).capacity == capacity
    }

    method Ask() returns (reply: Reply)
      modifies this`turn
      ensures turn == old(turn) + 1 && reply == script(old(turn))
      ensures Healthy() ==> Good(reply)
    {
      reply := script(turn);
      turn := turn + 1;
    }

    /** Saving writes the whole document or leaves the file as it was; it may
        report failure either way. */
    method SaveState(doc: SetupDocument) returns (ok: bool)
      requires Running(doc)
      modifies this`turn, this`durable
      ensures Healthy() ==> ok
      ensures turn == old(turn) + 1 && ok == script(old(turn)).ok
      ensures durable == doc.state || (!ok && durable == old(durable))
      ensures Running(doc) && Evolves(old(durable), durable)
    {
      var reply := Ask();
      if reply.ok || reply.written {
        durable := doc.state;
      }
      return reply.ok;
    }

    /** Records that a remote call succeeded. */
    ghost method Learn(fact: Fact, doc: SetupDocument)
      requires Running(doc)
      modifies this`facts
      ensures Running(doc) && facts == old(facts) + {fact}
    {
      facts := facts + {fact};
      BackedGrows(durable, old(facts), facts);
      BackedGrows(doc.state, old(facts), facts);
    }

    method ResolveBot(username: string, ghost doc: SetupDocument) returns (r: Option<BotIdentity>)
      requires Running(doc)
      modifies this`turn, this`facts
      ensures Healthy() ==> r.Some?
      ensures Running(doc) && facts == if r.Some? then old(facts) + {BotResolved(username, r.value)} else old(facts)
      ensures turn == old(turn) + 1 && r == if script(old(turn)).ok then Some(script(old(turn)).bot) else None
    {
      var reply := Ask();
      if !reply.ok {
        return None;
      }
      Learn(BotResolved(username, reply.bot), doc);
      return Some(reply.bot);
    }

    method StartBot(bot: BotIdentity, ghost doc: SetupDocument) returns (ok: bool)
      requires Running(doc)
      modifies this`turn, this`facts
      ensures Healthy() ==> ok
      ensures Running(doc) && facts == if ok then old(facts) + {BotStarted(bot)} else old(facts)
      ensures turn == old(turn) + 1 && ok == script(old(turn)).ok
    {
      ok := Perform(BotStarted(bot), doc);
    }

    method GetAppConfig(ghost doc: SetupDocument) returns (r: Option<FolderCapacity>)
      requires Running(doc)
      modifies this`turn, this`facts
      ensures Healthy() ==> r.Some?
      ensures Running(doc) && facts == if r.Some? then old(facts) + {ConfigRead} else old(facts)
      ensures r.Some? ==> Answers(r.value)
      ensures turn == old(turn) + 1 && r == if script(old(turn)).ok then Some(script(old(turn)).capacity) else None
    {
      var reply := Ask();
      if !reply.ok {
        return None;
      }
      Learn(ConfigRead, doc);
      return Some(reply.capacity);
    }

    /** The recorded group as it was asked for, when it is still a forum. */
    method GetForumGroup(group: ForumGroup, ghost doc: SetupDocument) returns (r: Result<Option<ForumGroup>, ProvisionError>)
      requires Running(doc)
      modifies this`turn, this`facts
      ensures Healthy() ==> r == Ok(Some(group))
      ensures Running(doc) && facts == if r == Ok(Some(group)) then old(facts) + {GroupSeen(group.id)} else old(facts)
      ensures r.Ok? ==> r.value == None || r.value == Some(group)
      ensures var reply := script(old(turn));
        r == if !reply.ok then Err(if reply.found then GroupChanged else GroupUnavailable)
             else Ok(if reply.found then Some(group) else None)
    {
      var reply := Ask();
      if !reply.ok {
        return Err(if reply.found then GroupChanged else GroupUnavailable);
      }
      if !reply.found {
        return Ok(None);
      }
      Learn(GroupSeen(group.id), doc);
      return Ok(Some(group));
    }

    method CreateForumGroup(ghost doc: SetupDocument) returns (r: Option<ForumGroup>)
      requires Running(doc) && doc.state.identities.companionChatId.None?
      modifies this`turn, this`facts, this`creations
      ensures Healthy() ==> r.Some? && r.value.accessHash.Some?
      ensures r.Some? <==> script(old(turn)).ok
      ensures Running(doc) && facts == if r.Some? then old(facts) + {GroupSeen(r.value.id)} else old(facts)
      ensures creations ==
        if r.Some? then old(creations) + [Creation(r.value, durable.identities.companionChatId)] else old(creations)
    {
      var reply := Ask();
      if !reply.ok {
        return None;
      }
      creations := creations + [Creation(reply.group, durable.identities.companionChatId)];
      Learn(GroupSeen(reply.group.id), doc);
      return Some(reply.group);
    }

    method SetForumGroupPhoto(ghost doc: SetupDocument) returns (ok: bool)
      requires Running(doc)
      modifies this`turn
      ensures Running(doc)
    {
      var reply := Ask();
      return reply.ok;
    }

    method GetForumTopic(group: ForumGroup, title: string, ghost doc: SetupDocument)
      returns (r: Result<Option<int>, ProvisionError>)
      requires Running(doc)
      modifies this`turn, this`facts
      ensures Healthy() ==> r.Ok? && r.value.Some?
      ensures Running(doc) && turn == old(turn) + 1
      ensures r.Ok? ==> r.value.Some? == script(old(turn)).found
      ensures facts ==
        if r.Err? then old(facts)
        else if r.value.Some? then old(facts) + {TopicKnown(group.id, title, r.value.value)}
        else old(facts) + {TopicMissing(group.id, title)}
      ensures r.Err? ==> r.error == if title == "General" then GeneralTopicLookup else CreateTopic
    {
      var reply := Ask();
      if !reply.ok {
        return Err(if title == "General" then GeneralTopicLookup else CreateTopic);
      }
      if !reply.found {
        Learn(TopicMissing(group.id, title), doc);
        return Ok(None);
      }
      Learn(TopicKnown(group.id, title, reply.topic), doc);
      return Ok(Some(reply.topic));
    }

    method CreateForumTopic(group: ForumGroup, title: string, ghost doc: SetupDocument) returns (r: Option<int>)
      requires Running(doc)
      modifies this`turn, this`facts
      ensures Healthy() ==> r.Some?
      ensures Running(doc) && turn == old(turn) + 1
      ensures facts == if r.Some? then old(facts) + {TopicKnown(group.id, title, r.value)} else old(facts)
    {
      var reply := Ask();
      if !reply.ok {
        return None;
      }
      Learn(TopicKnown(group.id, title, reply.topic), doc);
      return Some(reply.topic);
    }

    method InviteToChannel(group: ForumGroup, botUsername: string, ghost doc: SetupDocument) returns (ok: bool)
      requires Running(doc)
      modifies this`turn, this`facts
      ensures Healthy() ==> ok
      ensures Running(doc) && facts == if ok then old(facts) + {Invited(group.id, botUsername)} else old(facts)
      ensures turn == old(turn) + 1 && ok == script(old(turn)).ok
    {
      ok := Perform(Invited(group.id, botUsername), doc);
    }

    method EditAdmin(group: ForumGroup, botUsername: string, ghost doc: SetupDocument) returns (ok: bool)
      requires Running(doc)
      modifies this`turn, this`facts
      ensures Healthy() ==> ok
      ensures Running(doc) && facts == if ok then old(facts) + {Promoted(group.id, botUsername)} else old(facts)
      ensures turn == old(turn) + 1 && ok == script(old(turn)).ok
    {
      ok := Perform(Promoted(group.id, botUsername), doc);
    }

    method ResolveCommunity(ghost doc: SetupDocument) returns (r: Option<CommunityIdentity>)
      requires Running(doc)
      modifies this`turn, this`facts
      ensures Healthy() ==> r.Some? && r.value.public && r.value.megagroup
      ensures Running(doc)
      ensures r == if script(old(turn)).ok then Some(script(old(turn)).community) else None
      ensures facts ==
        if r.Some? then old(facts) + {CommunityResolved(r.value)} else old(facts)
    {
      var reply := Ask();
      if !reply.ok {
        return None;
      }
      Learn(CommunityResolved(reply.community), doc);
      return Some(reply.community);
    }

    /** Whether the recorded community is there, and what it is now. */
    method GetCommunity(id: int, accessHash: int, ghost doc: SetupDocument) returns (r: Option<CommunityIdentity>)
      requires Running(doc)
      modifies this`turn, this`facts
      ensures Healthy() ==> r.Some? && r.value.public && r.value.megagroup
      ensures Running(doc) && facts == if r.Some? then old(facts) + {CommunitySeen(r.value)} else old(facts)
      ensures var reply := script(old(turn));
        r == if reply.ok && reply.found
             then Some(CommunityIdentity(id, accessHash, reply.community.public, reply.community.megagroup)) else None
    {
      var reply := Ask();
      if !reply.ok || !reply.found {
        return None;
      }
      r := Some(CommunityIdentity(id, accessHash, reply.community.public, reply.community.megagroup));
      Learn(CommunitySeen(r.value), doc);
    }

    method JoinCommunity(communityId: int, ghost doc: SetupDocument) returns (ok: bool)
      requires Running(doc)
      modifies this`turn, this`facts
      ensures Healthy() ==> ok
      ensures Running(doc) && facts == if ok then old(facts) + {CommunityJoined(communityId)} else old(facts)
      ensures turn == old(turn) + 1 && ok == script(old(turn)).ok
    {
      ok := Perform(CommunityJoined(communityId), doc);
    }

    /** A call that answers nothing but success or failure. */
    method Perform(ghost fact: Fact, ghost doc: SetupDocument) returns (ok: bool)
      requires Running(doc)
      modifies this`turn, this`facts
      ensures Healthy() ==> ok
      ensures Running(doc) && facts == if ok then old(facts) + {fact} else old(facts)
      ensures turn == old(turn) + 1 && ok == script(old(turn)).ok
    {
      var reply := Ask();
      if reply.ok {
        Learn(fact, doc);
      }
      return reply.ok;
    }

    /** The folder list that was read passed the verifier. */
    ghost method NoteVerified(id: int, managed: seq<DialogPeer>, doc: SetupDocument)
      requires Running(doc) && seen != [] && VerifyFolder(seen[|seen| - 1], id, managed).matches
      modifies this`facts
      ensures Running(doc) && facts == old(facts) + {FolderVerified(id)}
    {
      Learn(FolderVerified(id), doc);
    }

    /** The folders in display order. */
    function Listing(): (r: seq<DialogFolder>)
      requires Elements(order) == folders.Keys
      reads this
      ensures |r| == |order|
      ensures forall i :: 0 <= i < |r| ==> order[i] in folders && r[i] == folders[order[i]]
    {
      assert forall i :: 0 <= i < |order| ==> order[i] in Elements(order);
      var known, ids := folders, order;
      seq(|ids|, i requires 0 <= i < |ids| && ids[i] in known => known[ids[i]])
    }

    method GetDialogFilters(ghost doc: SetupDocument) returns (r: Result<seq<DialogFolder>, ProvisionError>)
      requires Running(doc)
      modifies this`turn, this`facts, this`seen
      ensures Healthy() ==> r.Ok?
      ensures Running(doc) && facts == if r.Ok? then old(facts) + {FiltersRead} else old(facts)
      ensures seen == if r.Ok? then old(seen) + [r.value] else old(seen)
      ensures r.Ok? && faithful ==> r.value == Listing()
      ensures r.Err? ==> r.error == if script(old(turn)).found then DialogFilterDecode else DialogFiltersRead
      ensures turn == old(turn) + 1 && r.Ok? == script(old(turn)).ok
    {
      var reply := Ask();
      if !reply.ok {
        return Err(if reply.found then DialogFilterDecode else DialogFiltersRead);
      }
      r := Ok(if faithful then Listing() else reply.folders);
      seen := seen + [r.value];
      Learn(FiltersRead, doc);
    }

    /** Stores a folder, at the end of the list when its id is new. A failing
        call may still have been carried out. */
    method UpdateDialogFilter(folder: DialogFolder, ghost doc: SetupDocument) returns (ok: bool)
      requires Running(doc)
      modifies this`turn, this`folders, this`order, this`facts
      ensures Healthy() ==> ok
      ensures Running(doc) && facts == if ok then old(facts) + {FolderWritten(folder.id)} else old(facts)
      ensures folders == old(folders) || folders == old(folders)[folder.id := folder]
      ensures ok && faithful ==> folders == old(folders)[folder.id := folder]
      ensures Without(order, folder.id) == Without(old(order), folder.id)
    {
      var reply := Ask();
      if faithful && (reply.ok || reply.written) {
        StoreFolder(folder);
      }
      if reply.ok {
        Learn(FolderWritten(folder.id), doc);
      }
      return reply.ok;
    }

    method StoreFolder(folder: DialogFolder)
      requires Valid()
      modifies this`folders, this`order
      ensures Valid() && folders == old(folders)[folder.id := folder]
      ensures Without(order, folder.id) == Without(old(order), folder.id)
    {
      if folder.id !in folders {
        assert folder.id !in Elements(order);
        ElementsAppend(order, folder.id);
        assert (order + [folder.id])[..|order|] == order;
        WithoutAbsent(order, folder.id);
        order := order + [folder.id];
      }
      folders := folders[folder.id := folder];
    }

    /** Reorders the list: a permutation of the stored ids is taken for sure when
        the call succeeds on a faithful server, anything else never. */
    method UpdateDialogFiltersOrder(newOrder: seq<int>) returns (ok: bool)
      requires Valid()
      modifies this`turn, this`order, this`sentOrder
      ensures Healthy() ==> ok
      ensures Valid() && sentOrder == newOrder
      ensures order == old(order) || (order == newOrder && Permutes(newOrder))
      ensures ok && faithful && NoDuplicates(newOrder) && Elements(newOrder) == folders.Keys ==> order == newOrder
    {
      sentOrder := newOrder;
      var reply := Ask();
      if faithful && (reply.ok || reply.written) && IsPermutation(newOrder) {
        order := newOrder;
      }
      return reply.ok;
    }

    ghost predicate Permutes(ids: seq<int>) reads this {
      NoDuplicates(ids) && Elements(ids) == folders.Keys
    }

    predicate IsPermutation(ids: seq<int>)
      reads this
      ensures IsPermutation(ids) <==> Permutes(ids)
    {
      assert Elements(ids) == set x | x in ids;
      (set x | x in ids) == folders.Keys && forall i, j :: 0 <= i < j < |ids| ==> ids[i] != ids[j]
    }

    lemma ListingIsUnique()
      requires Valid()
      ensures UniqueIds(Listing())
      ensures forall f: DialogFolder :: f in Listing() <==> f.id in folders && folders[f.id] == f
    {
      var all := Listing();
      forall i | 0 <= i < |order| ensures all[i].id == order[i] && all[i] == folders[order[i]] {
        assert order[i] in folders;
      }
      forall f: DialogFolder | f.id in folders && folders[f.id] == f ensures f in all {
        assert f.id in Elements(order);
        var i :| 0 <= i < |order| && order[i] == f.id;
        assert all[i] == f;
      }
    }
  }

  /** Leaving one id out keeps all others in their order. */
  lemma {:induction false} WithoutKeepsOrder(before: seq<int>, id: int, after: seq<int>)
    requires id !in before && id !in after
    ensures Without(before + [id] + after, id) == before + after
    decreases |after|
  {
    var all := before + [id] + after;
    if after == [] {
      assert all[..|all| - 1] == before;
      WithoutAbsent(before, id);
    } else {
      var n := |after| - 1;
      assert all[..|all| - 1] == before + [id] + after[..n];
      WithoutKeepsOrder(before, id, after[..n]);
      assert before + after == before + after[..n] + [after[n]];
    }
  }

  lemma {:induction false} WithoutAbsent(order: seq<int>, id: int)
    requires id !in order
    ensures Without(order, id) == order
    decreases |order|
  {
    if order != [] {
      var last := order[|order| - 1];
      assert order == order[..|order| - 1] + [last];
      WithoutAbsent(order[..|order| - 1], id);
    }
  }
}
