/** The staged, resumable provisioning of the companion workspace
    (`provision` and `onboard_community` in src/setup_provision.rs). */
module Provisioning {
  import opened Basics
  import opened DialogFolders
  import opened FolderPlanning
  import opened SetupState
  import opened RemoteWorkspace

  /** Progress of one run: the file only evolves, and so does the working copy. */
  twostate predicate Progress(w: Workspace, doc: SetupDocument)
    reads w, doc
  {
    && w.Running(doc)
    && Evolves(old(w.durable), w.durable) && Evolves(old(doc.state), doc.state)
    && old(w.facts) <= w.facts
  }

  /** One stage: the working copy becomes `next` or stays as it was, and only a
      failed save can leave a change unsaved. */
  twostate predicate Stage(w: Workspace, doc: SetupDocument, next: PersistedSetupState, error: Option<ProvisionError>)
    reads w, doc
  {
    && (doc.state == old(doc.state) || doc.state == next)
    && (w.durable == old(w.durable) || w.durable == doc.state)
    && (error.None? ==> doc.state == next)
    && (doc.state != old(doc.state) ==> w.durable == doc.state || error == Some(Storage))
  }

  function ErrorOf<T>(r: Result<T, ProvisionError>): Option<ProvisionError> {
    if r.Ok? then None else Some(r.error)
  }

  predicate Recorded(s: PersistedSetupState, bot: BotIdentity) {
    s.identities.botUserId == Some(bot.id) && s.identities.botAccessHash == Some(bot.accessHash)
  }

  predicate GroupRecorded(s: PersistedSetupState, group: ForumGroup) {
    s.identities.companionChatId == Some(group.id)
  }

  /** A group on record is there with its access hash. */
  predicate HashKnown(s: PersistedSetupState) {
    s.identities.companionChatId.Some? ==> s.identities.companionChatAccessHash.Some?
  }

  /** Group and bot are those on record. */
  predicate Identified(s: PersistedSetupState, group: ForumGroup, bot: BotIdentity) {
    GroupRecorded(s, group) && s.identities.companionChatAccessHash == group.accessHash && Recorded(s, bot)
  }

  /** Every identity is on record and the community is joined. */
  predicate Joined(s: PersistedSetupState) {
    && s.identities.companionChatId.Some? && BotComplete(s.identities)
    && s.stages.communityJoined && CommunityComplete(s.identities)
  }

  lemma IdentifiedJoined(
      a: PersistedSetupState, b: PersistedSetupState, group: ForumGroup, bot: BotIdentity, facts: set<Fact>)
    requires Evolves(a, b) && Identified(a, group, bot) && a.stages.communityJoined && Backed(b, facts)
    ensures Joined(b)
  {
  }

  lemma IdentifiedStays(a: PersistedSetupState, b: PersistedSetupState, group: ForumGroup, bot: BotIdentity)
    requires Evolves(a, b) && Identified(a, group, bot)
    ensures Identified(b, group, bot)
  {
  }

  /** Replaces the working copy by `next` and saves it. */
  method Persist(w: Workspace, doc: SetupDocument, next: PersistedSetupState) returns (r: Result<(), ProvisionError>)
    requires w.Running(doc) && Backed(next, w.facts) && Evolves(doc.state, next)
    requires OneGroupKept(w.creations, next.identities.companionChatId)
    modifies w`turn, w`durable, doc
    ensures w.Healthy() ==> r.Ok?
    ensures Progress(w, doc) && Stage(w, doc, next, ErrorOf(r)) && doc.state == next
    ensures r.Ok? ==> w.durable == next
    ensures r.Err? ==> r.error == Storage
    ensures w.turn == old(w.turn) + 1 && r.Ok? == w.script(old(w.turn)).ok
  {
    EvolvesTransitive(w.durable, doc.state, next);
    doc.state := next;
    var saved := w.SaveState(doc);
    return if saved then Ok(()) else Err(Storage);
  }

  /** A stage with a flag: skipped without a call when the flag is set; otherwise
      one call and, when that works, one save decide. */
  twostate predicate OneCall(w: Workspace, done: bool, failure: ProvisionError, r: Result<(), ProvisionError>)
    reads w
  {
    if done then r.Ok? && w.turn == old(w.turn)
    else if !w.script(old(w.turn)).ok then r == Err(failure) && w.turn == old(w.turn) + 1
    else
      && w.turn == old(w.turn) + 2 && r.Ok? == w.script(old(w.turn) + 1).ok
      && (r.Err? ==> r.error == Storage)
  }

  // ----------------------------------------------- the state after a stage

  function WithBot(s: PersistedSetupState, username: string, bot: BotIdentity): PersistedSetupState {
    s.(identities := s.identities.(
      botUsername := Some(username), botUserId := Some(bot.id), botAccessHash := Some(bot.accessHash)))
  }

  function WithGroup(s: PersistedSetupState, group: ForumGroup): PersistedSetupState {
    s.(identities := s.identities.(companionChatId := Some(group.id), companionChatAccessHash := group.accessHash),
       stages := s.stages.(forumGroupCreated := true))
  }

  function WithTopics(s: PersistedSetupState, general: int, logs: int, backups: int): PersistedSetupState {
    s.(identities := s.identities.(
         companionTopicId := Some(general), companionLogsTopicId := Some(logs), companionBackupsTopicId := Some(backups)),
       stages := s.stages.(forumTopicCreated := true))
  }

  function WithCommunity(s: PersistedSetupState, id: int, accessHash: int): PersistedSetupState {
    s.(identities := s.identities.(communityChatId := Some(id), communityAccessHash := Some(accessHash)))
  }

  // ------------------------------------------------------------ bot stages

  lemma ResolvingIsSound(s: PersistedSetupState, username: string, bot: BotIdentity, facts: set<Fact>)
    requires Backed(s, facts) && !BotComplete(s.identities) && BotResolved(username, bot) in facts
    ensures Backed(WithBot(s, username, bot), facts) && Evolves(s, WithBot(s, username, bot))
  {
  }

  method ResolveBotStage(w: Workspace, doc: SetupDocument, botUsername: string)
    returns (r: Result<BotIdentity, ProvisionError>)
    requires w.Running(doc)
    modifies w`turn, w`durable, w`facts, doc
    ensures w.Healthy() ==> r.Ok?
    ensures doc.state.identities.companionFolderId == old(doc.state).identities.companionFolderId
    ensures w.Healthy() && HashKnown(old(doc.state)) ==> HashKnown(doc.state)
    ensures Progress(w, doc)
    ensures r.Ok? ==> Recorded(doc.state, r.value)
    ensures r.Ok? ==>
      var before := old(doc.state);
      Stage(w, doc, if BotComplete(before.identities) then before else WithBot(before, botUsername, r.value), None)
    ensures BotComplete(old(doc.state).identities) ==> r.Ok? && w.turn == old(w.turn)
    ensures r.Err? ==> r.error == Storage || (r.error == ResolveBot && doc.state == old(doc.state))
    ensures !BotComplete(old(doc.state).identities) ==>
      if !w.script(old(w.turn)).ok then r == Err(ResolveBot) && w.turn == old(w.turn) + 1
      else
        && w.turn == old(w.turn) + 2
        && r == if w.script(old(w.turn) + 1).ok then Ok(w.script(old(w.turn)).bot) else Err(Storage)
  {
    hide Backed, Evolves, OneGroupKept;
    EvolvesReflexive(w.durable);
    EvolvesReflexive(doc.state);
    var id := doc.state.identities;
    if id.botUserId.Some? && id.botAccessHash.Some? {
      return Ok(BotIdentity(id.botUserId.value, id.botAccessHash.value));
    }
    var bot := w.ResolveBot(botUsername, doc);
    if bot.None? {
      return Err(ResolveBot);
    }
    ResolvingIsSound(doc.state, botUsername, bot.value, w.facts);
    var saved := Persist(w, doc, WithBot(doc.state, botUsername, bot.value));
    return if saved.Ok? then Ok(bot.value) else Err(saved.error);
  }

  method StartBotStage(w: Workspace, doc: SetupDocument, bot: BotIdentity) returns (r: Result<(), ProvisionError>)
    requires w.Running(doc) && Recorded(doc.state, bot)
    modifies w`turn, w`durable, w`facts, doc
    ensures w.Healthy() ==> r.Ok?
    ensures doc.state.identities.companionFolderId == old(doc.state).identities.companionFolderId
    ensures w.Healthy() && HashKnown(old(doc.state)) ==> HashKnown(doc.state)
    ensures Progress(w, doc)
    ensures r.Ok? ==> doc.state.stages.botDialogInitialized
    ensures r.Err? ==> r.error == StartBot || r.error == Storage
    ensures OneCall(w, old(doc.state).stages.botDialogInitialized, StartBot, r)
    ensures r == Err(StartBot) ==> doc.state == old(doc.state) && !doc.state.stages.botDialogInitialized
    ensures Stage(
      w, doc, old(doc.state).(stages := old(doc.state).stages.(botDialogInitialized := true)), ErrorOf(r))
  {
    hide Backed, Evolves, OneGroupKept;
    EvolvesReflexive(w.durable);
    EvolvesReflexive(doc.state);
    if doc.state.stages.botDialogInitialized {
      return Ok(());
    }
    var started := w.StartBot(bot, doc);
    if !started {
      return Err(StartBot);
    }
    StartingIsSound(doc.state, bot, w.facts);
    r := Persist(w, doc, doc.state.(stages := doc.state.stages.(botDialogInitialized := true)));
  }

  lemma StartingIsSound(s: PersistedSetupState, bot: BotIdentity, facts: set<Fact>)
    requires Backed(s, facts) && Recorded(s, bot) && BotStarted(bot) in facts
    ensures var next := s.(stages := s.stages.(botDialogInitialized := true));
      Backed(next, facts) && Evolves(s, next)
  {
  }

  lemma CheckingIsSound(s: PersistedSetupState, facts: set<Fact>)
    requires Backed(s, facts) && ConfigRead in facts
    ensures var next := s.(stages := s.stages.(appConfigChecked := true)); Backed(next, facts) && Evolves(s, next)
  {
  }

  method AppConfigStage(w: Workspace, doc: SetupDocument) returns (r: Result<(), ProvisionError>)
    requires w.Running(doc)
    modifies w`turn, w`durable, w`facts, doc
    ensures w.Healthy() ==> r.Ok?
    ensures doc.state.identities.companionFolderId == old(doc.state).identities.companionFolderId
    ensures w.Healthy() && HashKnown(old(doc.state)) ==> HashKnown(doc.state)
    ensures Progress(w, doc)
    ensures r.Ok? ==> doc.state.stages.appConfigChecked
    ensures r.Err? ==> r.error == AppConfig || r.error == Storage
    ensures OneCall(w, old(doc.state).stages.appConfigChecked, AppConfig, r)
    ensures r == Err(AppConfig) ==> doc.state == old(doc.state) && !doc.state.stages.appConfigChecked
    ensures Stage(w, doc, old(doc.state).(stages := old(doc.state).stages.(appConfigChecked := true)), ErrorOf(r))
  {
    hide Backed, Evolves, OneGroupKept;
    EvolvesReflexive(w.durable);
    EvolvesReflexive(doc.state);
    if doc.state.stages.appConfigChecked {
      return Ok(());
    }
    var config := w.GetAppConfig(doc);
    if config.None? {
      return Err(AppConfig);
    }
    CheckingIsSound(doc.state, w.facts);
    r := Persist(w, doc, doc.state.(stages := doc.state.stages.(appConfigChecked := true)));
  }

  // ---------------------------------------------------------- group stages

  /** At most one group is created, only while none is recorded, and unless its
      record reaches the file the run ends with a storage error. */
  twostate predicate CreatesOneAtMost(w: Workspace, error: Option<ProvisionError>)
    reads w
  {
    && old(w.creations) <= w.creations && |w.creations| <= |old(w.creations)| + 1
    && (w.creations != old(w.creations) ==>
          && old(w.durable).identities.companionChatId.None?
          && (w.durable.identities.companionChatId.Some? || error == Some(Storage)))
  }

  lemma EvolvesReflexive(s: PersistedSetupState)
    ensures Evolves(s, s)
  {
  }

  lemma EvolvesKeeps(a: PersistedSetupState, b: PersistedSetupState)
    requires Evolves(a, b)
    ensures BotComplete(a.identities) ==>
      b.identities.botUserId == a.identities.botUserId && b.identities.botAccessHash == a.identities.botAccessHash
    ensures a.identities.companionChatId.Some? ==>
      && b.identities.companionChatId == a.identities.companionChatId
      && b.identities.companionChatAccessHash == a.identities.companionChatAccessHash
    ensures a.stages.botDialogInitialized ==> b.stages.botDialogInitialized
    ensures a.stages.appConfigChecked ==> b.stages.appConfigChecked
    ensures a.stages.forumGroupCreated ==> b.stages.forumGroupCreated
    ensures a.stages.forumTopicCreated ==> b.stages.forumTopicCreated
    ensures a.stages.botInvited ==> b.stages.botInvited
    ensures a.stages.botRightsConfigured ==> b.stages.botRightsConfigured
  {
  }

  lemma RecordingGroupIsSound(s: PersistedSetupState, group: ForumGroup, facts: set<Fact>)
    requires Backed(s, facts) && s.identities.companionChatId.None? && GroupSeen(group.id) in facts
    ensures Backed(WithGroup(s, group), facts) && Evolves(s, WithGroup(s, group))
  {
  }

  /** Finds the recorded group, or creates one and saves it at once. */
  method GroupStage(w: Workspace, doc: SetupDocument) returns (r: Result<ForumGroup, ProvisionError>)
    requires w.Running(doc)
    modifies w`turn, w`durable, w`facts, w`creations, doc
    ensures w.Healthy() ==> r.Ok?
    ensures doc.state.identities.companionFolderId == old(doc.state).identities.companionFolderId
    ensures w.Healthy() && HashKnown(old(doc.state)) ==> HashKnown(doc.state)
    ensures Progress(w, doc) && CreatesOneAtMost(w, ErrorOf(r))
    ensures r.Ok? ==> GroupRecorded(doc.state, r.value) && GroupSeen(r.value.id) in w.facts
    ensures r.Ok? ==> r.value.accessHash == doc.state.identities.companionChatAccessHash
    ensures r.Ok? ==>
      var before := old(doc.state);
      Stage(w, doc, if before.identities.companionChatId.Some? then before else WithGroup(before, r.value), None)
    ensures r.Err? && r.error != Storage ==> doc.state == old(doc.state)
    ensures r.Err? ==> r.error != DialogFilterVerify
    ensures old(doc.state).identities.companionChatId.Some? ==> w.creations == old(w.creations)
    // A group that was created is on record with its flag in the first save.
    ensures old(doc.state).identities.companionChatId.None? && r.Ok? ==>
      w.durable == doc.state && doc.state.stages.forumGroupCreated
    ensures var reply, id := w.script(old(w.turn)), old(doc.state).identities;
      if id.companionChatId.None? then (if reply.ok then r.Ok? || r.error == Storage else r == Err(CreateGroup))
      else r == if !reply.ok then Err(if reply.found then GroupChanged else GroupUnavailable)
                else if !reply.found then Err(GroupUnavailable)
                else Ok(ForumGroup(id.companionChatId.value, id.companionChatAccessHash))
  {
    hide Backed;
    EvolvesReflexive(w.durable);
    EvolvesReflexive(doc.state);
    var id := doc.state.identities;
    if id.companionChatId.Some? {
      var known := w.GetForumGroup(ForumGroup(id.companionChatId.value, id.companionChatAccessHash), doc);
      if known.Err? {
        return Err(known.error);
      }
      return if known.value.None? then Err(GroupUnavailable) else Ok(known.value.value);
    }
    var created := w.CreateForumGroup(doc);
    if created.None? {
      return Err(CreateGroup);
    }
    RecordingGroupIsSound(doc.state, created.value, w.facts);
    var saved := Persist(w, doc, WithGroup(doc.state, created.value));
    return if saved.Ok? then Ok(created.value) else Err(saved.error);
  }

  lemma FlaggingGroupIsSound(s: PersistedSetupState, facts: set<Fact>)
    requires Backed(s, facts) && s.identities.companionChatId.Some?
    ensures var next := s.(stages := s.stages.(forumGroupCreated := true)); Backed(next, facts) && Evolves(s, next)
  {
  }

  /** The avatar is best effort; the flag is repaired when it was missing. */
  method GroupPhotoAndFlagStage(w: Workspace, doc: SetupDocument, group: ForumGroup) returns (r: Result<(), ProvisionError>)
    requires w.Running(doc) && GroupRecorded(doc.state, group)
    modifies w`turn, w`durable, doc
    ensures w.Healthy() ==> r.Ok?
    ensures doc.state.identities.companionFolderId == old(doc.state).identities.companionFolderId
    ensures w.Healthy() && HashKnown(old(doc.state)) ==> HashKnown(doc.state)
    ensures Progress(w, doc)
    ensures r.Ok? ==> doc.state.stages.forumGroupCreated
    ensures r.Err? ==> r.error == Storage
    ensures Stage(w, doc, old(doc.state).(stages := old(doc.state).stages.(forumGroupCreated := true)), ErrorOf(r))
  {
    hide Backed, Evolves, OneGroupKept;
    EvolvesReflexive(w.durable);
    EvolvesReflexive(doc.state);
    var ignored := w.SetForumGroupPhoto(doc);
    if doc.state.stages.forumGroupCreated {
      return Ok(());
    }
    FlaggingGroupIsSound(doc.state, w.facts);
    r := Persist(w, doc, doc.state.(stages := doc.state.stages.(forumGroupCreated := true)));
  }

  method FindOrCreateTopic(w: Workspace, doc: SetupDocument, group: ForumGroup, title: string)
    returns (r: Result<int, ProvisionError>)
    requires w.Running(doc)
    modifies w`turn, w`facts
    ensures w.Healthy() ==> r.Ok?
    ensures w.Running(doc) && old(w.facts) <= w.facts
    ensures r.Ok? ==> TopicKnown(group.id, title, r.value) in w.facts
    // The look-up finds it; or it says that it is missing, and it is created.
    ensures r.Ok? ==>
      var known := TopicKnown(group.id, title, r.value);
      if w.script(old(w.turn)).found then w.turn == old(w.turn) + 1 && w.facts == old(w.facts) + {known}
      else title != "General" && w.turn == old(w.turn) + 2 && w.facts == old(w.facts) + {TopicMissing(group.id, title), known}
    ensures r.Err? ==> r.error == if title == "General" then GeneralTopicLookup else CreateTopic
  {
    var found := w.GetForumTopic(group, title, doc);
    if found.Err? {
      return Err(found.error);
    }
    if found.value.Some? {
      return Ok(found.value.value);
    }
    if title == "General" {
      return Err(GeneralTopicLookup);
    }
    var created := w.CreateForumTopic(group, title, doc);
    return if created.Some? then Ok(created.value) else Err(CreateTopic);
  }

  /** All three topics are looked up on every run, before anything is saved. */
  method TopicsStage(w: Workspace, doc: SetupDocument, group: ForumGroup)
    returns (r: Result<(), ProvisionError>, ghost general: int, ghost logs: int, ghost backups: int)
    requires w.Running(doc) && GroupRecorded(doc.state, group)
    modifies w`turn, w`durable, w`facts, doc
    ensures w.Healthy() ==> r.Ok?
    ensures doc.state.identities.companionFolderId == old(doc.state).identities.companionFolderId
    ensures w.Healthy() && HashKnown(old(doc.state)) ==> HashKnown(doc.state)
    ensures Progress(w, doc)
    ensures r.Ok? ==> doc.state.stages.forumTopicCreated
    ensures r.Err? ==> r.error == GeneralTopicLookup || r.error == CreateTopic || r.error == Storage
    ensures Stage(w, doc, WithTopics(old(doc.state), general, logs, backups), ErrorOf(r))
    ensures r.Ok? ==>
      && TopicKnown(group.id, "General", general) in w.facts
      && TopicKnown(group.id, "Logs", logs) in w.facts
      && TopicKnown(group.id, "Backups", backups) in w.facts
  {
    var topics := [];
    var titles := ["General", "Logs", "Backups"];
    general, logs, backups := 0, 0, 0;
    var i := 0;
    while i < 3
      invariant 0 <= i <= 3 && |topics| == i
      invariant w.Running(doc) && old(w.facts) <= w.facts
      invariant doc.state == old(doc.state) && w.durable == old(w.durable)
      invariant forall k :: 0 <= k < i ==> TopicKnown(group.id, titles[k], topics[k]) in w.facts
    {
      var topic := FindOrCreateTopic(w, doc, group, titles[i]);
      if topic.Err? {
        return Err(topic.error), general, logs, backups;
      }
      topics := topics + [topic.value];
      i := i + 1;
    }
    assert titles[0] == "General" && titles[1] == "Logs" && titles[2] == "Backups";
    general, logs, backups := topics[0], topics[1], topics[2];
    r := Persist(w, doc, WithTopics(doc.state, topics[0], topics[1], topics[2]));
  }

  lemma InvitingIsSound(s: PersistedSetupState, groupId: int, username: string, facts: set<Fact>)
    requires Backed(s, facts) && s.identities.companionChatId == Some(groupId)
    ensures Invited(groupId, username) in facts ==>
      var next := s.(stages := s.stages.(botInvited := true)); Backed(next, facts) && Evolves(s, next)
    ensures Promoted(groupId, username) in facts ==>
      var next := s.(stages := s.stages.(botRightsConfigured := true)); Backed(next, facts) && Evolves(s, next)
  {
  }

  method InviteStage(w: Workspace, doc: SetupDocument, group: ForumGroup, botUsername: string)
    returns (r: Result<(), ProvisionError>)
    requires w.Running(doc) && GroupRecorded(doc.state, group)
    modifies w`turn, w`durable, w`facts, doc
    ensures w.Healthy() ==> r.Ok?
    ensures doc.state.identities.companionFolderId == old(doc.state).identities.companionFolderId
    ensures w.Healthy() && HashKnown(old(doc.state)) ==> HashKnown(doc.state)
    ensures Progress(w, doc)
    ensures r.Ok? ==> doc.state.stages.botInvited
    ensures r.Err? ==> r.error == InviteBot || r.error == Storage
    ensures OneCall(w, old(doc.state).stages.botInvited, InviteBot, r)
    ensures r == Err(InviteBot) ==> doc.state == old(doc.state) && !doc.state.stages.botInvited
    ensures Stage(w, doc, old(doc.state).(stages := old(doc.state).stages.(botInvited := true)), ErrorOf(r))
  {
    hide Backed, Evolves, OneGroupKept;
    EvolvesReflexive(w.durable);
    EvolvesReflexive(doc.state);
    if doc.state.stages.botInvited {
      return Ok(());
    }
    var invited := w.InviteToChannel(group, botUsername, doc);
    if !invited {
      return Err(InviteBot);
    }
    InvitingIsSound(doc.state, group.id, botUsername, w.facts);
    r := Persist(w, doc, doc.state.(stages := doc.state.stages.(botInvited := true)));
  }

  method PromoteStage(w: Workspace, doc: SetupDocument, group: ForumGroup, botUsername: string)
    returns (r: Result<(), ProvisionError>)
    requires w.Running(doc) && GroupRecorded(doc.state, group)
    modifies w`turn, w`durable, w`facts, doc
    ensures w.Healthy() ==> r.Ok?
    ensures doc.state.identities.companionFolderId == old(doc.state).identities.companionFolderId
    ensures w.Healthy() && HashKnown(old(doc.state)) ==> HashKnown(doc.state)
    ensures Progress(w, doc)
    ensures r.Ok? ==> doc.state.stages.botRightsConfigured
    ensures r.Err? ==> r.error == PromoteBot || r.error == Storage
    ensures OneCall(w, old(doc.state).stages.botRightsConfigured, PromoteBot, r)
    ensures r == Err(PromoteBot) ==> doc.state == old(doc.state) && !doc.state.stages.botRightsConfigured
    ensures Stage(w, doc, old(doc.state).(stages := old(doc.state).stages.(botRightsConfigured := true)), ErrorOf(r))
  {
    hide Backed, Evolves, OneGroupKept;
    EvolvesReflexive(w.durable);
    EvolvesReflexive(doc.state);
    if doc.state.stages.botRightsConfigured {
      return Ok(());
    }
    var promoted := w.EditAdmin(group, botUsername, doc);
    if !promoted {
      return Err(PromoteBot);
    }
    InvitingIsSound(doc.state, group.id, botUsername, w.facts);
    r := Persist(w, doc, doc.state.(stages := doc.state.stages.(botRightsConfigured := true)));
  }

  // -------------------------------------------------------------- community

  /** Nothing but the community's identity and flag has changed. */
  predicate OnlyCommunityDiffers(a: PersistedSetupState, b: PersistedSetupState) {
    b == a.(
      identities := a.identities.(
        communityChatId := b.identities.communityChatId, communityAccessHash := b.identities.communityAccessHash),
      stages := a.stages.(communityJoined := b.stages.communityJoined))
  }

  lemma RecordingCommunityIsSound(s: PersistedSetupState, id: int, accessHash: int, facts: set<Fact>)
    requires Backed(s, facts) && !CommunityComplete(s.identities)
    requires CommunityResolved(CommunityIdentity(id, accessHash, true, true)) in facts
    ensures var next := WithCommunity(s, id, accessHash);
      && Backed(next, facts) && Evolves(s, next) && OnlyCommunityDiffers(s, next)
      && next.identities.communityChatId == Some(id) && next.identities.communityAccessHash == Some(accessHash)
      && next.identities.companionChatId == s.identities.companionChatId
  {
  }

  lemma OnlyCommunityMayDiffer(s: PersistedSetupState)
    ensures OnlyCommunityDiffers(s, s)
  {
  }

  /** Confirms the recorded community, or resolves and records it. */
  method FindCommunity(w: Workspace, doc: SetupDocument) returns (r: Result<(), ProvisionError>)
    requires w.Running(doc)
    modifies w`turn, w`durable, w`facts, doc
    ensures w.Healthy() ==> r.Ok?
    ensures Progress(w, doc) && OnlyCommunityDiffers(old(doc.state), doc.state)
    ensures r.Ok? ==> CommunityComplete(doc.state.identities)
    // What is recorded, or was and is confirmed, is public and a megagroup.
    ensures r.Ok? ==>
      var seen := RecordedCommunity(doc.state.identities);
      (if CommunityComplete(old(doc.state).identities) then CommunitySeen(seen) else CommunityResolved(seen)) in w.facts
    ensures CommunityComplete(old(doc.state).identities) ==> doc.state == old(doc.state) && w.durable == old(w.durable)
    ensures r.Ok? && !CommunityComplete(old(doc.state).identities) ==>
      var id := doc.state.identities;
      w.durable == doc.state == WithCommunity(old(doc.state), id.communityChatId.value, id.communityAccessHash.value)
    ensures r.Err? && r.error != Storage ==> doc.state == old(doc.state)
    ensures r.Err? ==> CommunityError(r.error)
  {
    hide Backed, Evolves, OneGroupKept, OnlyCommunityDiffers, WithCommunity;
    if CommunityComplete(doc.state.identities) {
      r := ConfirmCommunity(w, doc);
      OnlyCommunityMayDiffer(doc.state);
    } else {
      r := RecordCommunity(w, doc);
    }
  }

  method ConfirmCommunity(w: Workspace, doc: SetupDocument) returns (r: Result<(), ProvisionError>)
    requires w.Running(doc) && CommunityComplete(doc.state.identities)
    modifies w`turn, w`facts
    ensures w.Healthy() ==> r.Ok?
    ensures Progress(w, doc)
    ensures r.Ok? ==> CommunitySeen(RecordedCommunity(doc.state.identities)) in w.facts
    ensures var reply := w.script(old(w.turn));
      r == if !reply.ok || !reply.found then Err(CommunityUnavailable)
           else if !reply.community.public || !reply.community.megagroup then Err(CommunityInvalidPeer)
           else Ok(())
  {
    EvolvesReflexive(w.durable);
    EvolvesReflexive(doc.state);
    var id := doc.state.identities;
    var known := w.GetCommunity(id.communityChatId.value, id.communityAccessHash.value, doc);
    if known.None? {
      return Err(CommunityUnavailable);
    }
    return if known.value.public && known.value.megagroup then Ok(()) else Err(CommunityInvalidPeer);
  }

  method RecordCommunity(w: Workspace, doc: SetupDocument) returns (r: Result<(), ProvisionError>)
    requires w.Running(doc) && !CommunityComplete(doc.state.identities)
    modifies w`turn, w`durable, w`facts, doc
    ensures w.Healthy() ==> r.Ok?
    ensures Progress(w, doc) && OnlyCommunityDiffers(old(doc.state), doc.state)
    ensures r.Ok? ==> CommunityComplete(doc.state.identities)
    ensures r.Ok? ==> CommunityResolved(RecordedCommunity(doc.state.identities)) in w.facts
    ensures r.Ok? ==>
      var id := doc.state.identities;
      w.durable == doc.state == WithCommunity(old(doc.state), id.communityChatId.value, id.communityAccessHash.value)
    ensures r.Err? && r.error != Storage ==> doc.state == old(doc.state)
    ensures var reply := w.script(old(w.turn));
      if !reply.ok then r == Err(CommunityResolve)
      else if !reply.community.public || !reply.community.megagroup then r == Err(CommunityInvalidPeer)
      else r.Ok? || r.error == Storage
  {
    hide Backed, Evolves, OneGroupKept, OnlyCommunityDiffers, WithCommunity;
    EvolvesReflexive(w.durable);
    EvolvesReflexive(doc.state);
    OnlyCommunityMayDiffer(doc.state);
    var resolved := w.ResolveCommunity(doc);
    if resolved.None? {
      return Err(CommunityResolve);
    }
    if !resolved.value.public || !resolved.value.megagroup {
      return Err(CommunityInvalidPeer);
    }
    RecordingCommunityIsSound(doc.state, resolved.value.id, resolved.value.accessHash, w.facts);
    r := Persist(w, doc, WithCommunity(doc.state, resolved.value.id, resolved.value.accessHash));
  }

  lemma JoiningIsSound(s: PersistedSetupState, facts: set<Fact>)
    requires Backed(s, facts) && CommunityComplete(s.identities)
    requires CommunityJoined(s.identities.communityChatId.value) in facts
    ensures var next := s.(stages := s.stages.(communityJoined := true));
      Backed(next, facts) && Evolves(s, next) && OnlyCommunityDiffers(s, next)
  {
  }

  method JoinCommunity(w: Workspace, doc: SetupDocument) returns (r: Result<(), ProvisionError>)
    requires w.Running(doc) && CommunityComplete(doc.state.identities)
    modifies w`turn, w`durable, w`facts, doc
    ensures w.Healthy() ==> r.Ok?
    ensures Progress(w, doc)
    ensures r.Ok? ==> doc.state.stages.communityJoined
    ensures r.Err? ==> r.error == CommunityJoin || r.error == Storage
    ensures OneCall(w, old(doc.state).stages.communityJoined, CommunityJoin, r)
    ensures r == Err(CommunityJoin) ==> doc.state == old(doc.state) && !doc.state.stages.communityJoined
    ensures OnlyCommunityDiffers(old(doc.state), doc.state) && CommunityComplete(doc.state.identities)
    ensures Stage(w, doc, old(doc.state).(stages := old(doc.state).stages.(communityJoined := true)), ErrorOf(r))
  {
    hide Backed, Evolves, OneGroupKept, OnlyCommunityDiffers;
    EvolvesReflexive(w.durable);
    EvolvesReflexive(doc.state);
    OnlyCommunityMayDiffer(doc.state);
    if doc.state.stages.communityJoined {
      return Ok(());
    }
    var joined := w.JoinCommunity(doc.state.identities.communityChatId.value, doc);
    if !joined {
      return Err(CommunityJoin);
    }
    JoiningIsSound(doc.state, w.facts);
    r := Persist(w, doc, doc.state.(stages := doc.state.stages.(communityJoined := true)));
  }

  lemma CommunityDiffersTransitive(a: PersistedSetupState, b: PersistedSetupState, c: PersistedSetupState)
    requires OnlyCommunityDiffers(a, b) && OnlyCommunityDiffers(b, c)
    ensures OnlyCommunityDiffers(a, c) && c.identities.companionFolderId == a.identities.companionFolderId
  {
  }

  /** The errors of the community's stage. */
  predicate CommunityError(error: ProvisionError) {
    || error == CommunityResolve || error == CommunityInvalidPeer || error == CommunityJoin
    || error == CommunityUnavailable || error == Storage
  }

  /** Joining the public community. The caller keeps its result, also a failed
      save, and goes on. */
  method OnboardCommunity(w: Workspace, doc: SetupDocument) returns (r: Result<(), ProvisionError>)
    requires w.Running(doc)
    modifies w`turn, w`durable, w`facts, doc
    ensures w.Healthy() ==> r.Ok?
    ensures doc.state.identities.companionFolderId == old(doc.state).identities.companionFolderId
    ensures Progress(w, doc)
    ensures r.Ok? ==> doc.state.stages.communityJoined && CommunityComplete(doc.state.identities)
    ensures OnlyCommunityDiffers(old(doc.state), doc.state)
    ensures r.Err? ==> CommunityError(r.error)
  {
    hide Backed, Evolves, OneGroupKept, OnlyCommunityDiffers, Stage, WithCommunity;
    ghost var durable0, state0 := w.durable, doc.state;
    r := FindCommunity(w, doc);
    OnlyCommunityMayDiffer(state0);
    CommunityDiffersTransitive(state0, state0, doc.state);
    if r.Err? {
      return;
    }
    ghost var durable1, state1 := w.durable, doc.state;
    r := JoinCommunity(w, doc);
    CommunityDiffersTransitive(state0, state1, doc.state);
    EvolvesTransitive(durable0, durable1, w.durable);
    EvolvesTransitive(state0, state1, doc.state);
  }

  // ---------------------------------------------------------------- folder

  datatype WithoutFolder = Capacity | NameOrOwnershipConflict

  datatype ProvisionResult =
    | Completed
    | CompletedWithoutFolder(reason: WithoutFolder)
    | CompletedWithoutCommunity(error: ProvisionError)

  datatype FolderChoice =
    | Chosen(filters: seq<DialogFolder>, folder: DialogFolder)
    | Skipped(reason: WithoutFolder)
    | Failed(error: ProvisionError)

  predicate FolderRecorded(s: PersistedSetupState, id: int) {
    s.identities.companionFolderId == Some(id)
  }

  ghost predicate PlannedFrom(
      filters: seq<DialogFolder>, chatId: int, botId: int, capacity: FolderCapacity, recorded: Option<int>, folder: DialogFolder)
  {
    var plan := PlanFolder(filters, chatId, botId, capacity, recorded);
    plan.Ok? && plan.value.folder == folder
  }

  ghost predicate RefusedFrom(
      filters: seq<DialogFolder>, chatId: int, botId: int, capacity: FolderCapacity, recorded: Option<int>, reason: WithoutFolder)
  {
    var plan := PlanFolder(filters, chatId, botId, capacity, recorded);
    plan == Err(if reason == Capacity then FolderCapacityReached else FolderNameConflict)
  }

  /** The planner reports these two errors only. */
  function ReasonOf(error: ProvisionError): WithoutFolder {
    if error == FolderCapacityReached then Capacity else NameOrOwnershipConflict
  }

  /** Reads the folders and plans; a chosen id is saved before it is used. */
  method ChooseFolder(w: Workspace, doc: SetupDocument, group: ForumGroup, bot: BotIdentity)
    returns (choice: FolderChoice, ghost capacity: FolderCapacity)
    requires w.Running(doc)
    modifies w`turn, w`durable, w`facts, w`seen, doc
    ensures w.Healthy() ==> !choice.Failed?
    ensures !choice.Failed? ==> w.Answers(capacity)
    ensures |old(w.seen)| <= |w.seen| && (choice.Failed? ==> FolderError(choice.error))
    ensures choice.Chosen? || choice == Failed(Storage) ==> |old(w.seen)| < |w.seen|
    ensures Progress(w, doc)
    ensures choice.Failed? ==> choice.error != DialogFilterVerify
    ensures choice.Chosen? ==>
      && doc.state == PlannedState(old(doc.state), choice.folder.id) && FiltersRead in w.facts
      && choice.folder.regular && choice.folder.title == FOLDER_TITLE
      && PlannedFrom(choice.filters, group.id, bot.id, capacity, old(doc.state).identities.companionFolderId, choice.folder)
    ensures choice.Chosen? && w.faithful ==> choice.filters == w.Listing()
    ensures choice.Skipped? ==> w.durable == doc.state == SkippedState(old(doc.state), choice.reason)
    ensures choice.Skipped? && w.faithful ==>
      RefusedFrom(w.Listing(), group.id, bot.id, capacity, old(doc.state).identities.companionFolderId, choice.reason)
    ensures choice.Chosen? ==> choice.filters in w.seen && w.durable == doc.state
  {
    hide Backed, Evolves, OneGroupKept, SkippedState, PlannedState;
    EvolvesReflexive(w.durable);
    EvolvesReflexive(doc.state);
    capacity := FolderCapacity(0, 0);
    var config := w.GetAppConfig(doc);
    if config.None? {
      return Failed(AppConfig), capacity;
    }
    capacity := config.value;
    var read := w.GetDialogFilters(doc);
    if read.Err? {
      return Failed(read.error), capacity;
    }
    var filters := read.value;
    var recorded := doc.state.identities.companionFolderId;
    var plan := PlanFolder(filters, group.id, bot.id, config.value, recorded);
    PlanIsOwned(filters, group.id, bot.id, capacity, recorded);
    choice := SavePlan(w, doc, filters, plan);
  }

  function SkippedState(s: PersistedSetupState, reason: WithoutFolder): (r: PersistedSetupState)
    ensures r.identities == s.identities
  {
    s.(status :=
         if reason == Capacity then "completed_without_folder_capacity" else "completed_without_folder_name_conflict",
       stages := s.stages.(companionConfigured := true))
  }

  function PlannedState(s: PersistedSetupState, id: int): (r: PersistedSetupState)
    ensures r.identities.companionFolderId == Some(id) && !r.stages.folderConfigured
  {
    s.(identities := s.identities.(companionFolderId := Some(id)),
       stages := s.stages.(folderConfigured := false))
  }

  lemma SkippingIsSound(s: PersistedSetupState, reason: WithoutFolder, facts: set<Fact>)
    requires Backed(s, facts) && FiltersRead in facts
    ensures Backed(SkippedState(s, reason), facts) && Evolves(s, SkippedState(s, reason))
  {
  }

  lemma PlanningIsSound(s: PersistedSetupState, id: int, facts: set<Fact>)
    requires Backed(s, facts)
    requires s.identities.companionFolderId.Some? ==> s.identities.companionFolderId == Some(id)
    ensures Backed(PlannedState(s, id), facts) && Evolves(s, PlannedState(s, id))
  {
  }

  /** Saves the planned id, or why there will be no folder. */
  method SavePlan(
      w: Workspace, doc: SetupDocument, filters: seq<DialogFolder>, plan: Result<FolderPlan, ProvisionError>)
    returns (choice: FolderChoice)
    requires w.Running(doc) && FiltersRead in w.facts
    requires plan.Ok? ==>
      && plan.value.folder.id == plan.value.id
      && (doc.state.identities.companionFolderId.Some? ==> doc.state.identities.companionFolderId == Some(plan.value.id))
    modifies w`turn, w`durable, doc
    ensures w.Healthy() ==> !choice.Failed?
    ensures Progress(w, doc)
    ensures choice.Failed? ==> choice.error == Storage
    ensures choice.Skipped? ==>
      plan.Err? && choice.reason == ReasonOf(plan.error) && w.durable == doc.state == SkippedState(old(doc.state), choice.reason)
    ensures choice.Chosen? ==>
      && plan.Ok? && choice == Chosen(filters, plan.value.folder)
      && w.durable == doc.state == PlannedState(old(doc.state), plan.value.id)
      && w.durable.identities == old(doc.state).identities.(companionFolderId := Some(plan.value.id))
      && w.durable.stages == old(doc.state).stages.(folderConfigured := false)
      && w.durable.status == old(doc.state).status
  {
    if plan.Err? {
      var reason := ReasonOf(plan.error);
      SkippingIsSound(doc.state, reason, w.facts);
      var saved := Persist(w, doc, SkippedState(doc.state, reason));
      return if saved.Ok? then Skipped(reason) else Failed(saved.error);
    }
    PlanningIsSound(doc.state, plan.value.id, w.facts);
    var saved := Persist(w, doc, PlannedState(doc.state, plan.value.id));
    return if saved.Ok? then Chosen(filters, plan.value.folder) else Failed(saved.error);
  }

  /** Every plan is for a regular folder of the companion's name, under the id
      it was planned for; the planner reports no other errors than two. */
  lemma PlanIsOwned(
      filters: seq<DialogFolder>, chatId: int, botId: int, capacity: FolderCapacity, recorded: Option<int>)
    ensures var plan := PlanFolder(filters, chatId, botId, capacity, recorded);
      && (plan.Ok? ==>
            && plan.value.folder.regular && plan.value.folder.title == FOLDER_TITLE
            && plan.value.folder.id == plan.value.id
            && (recorded.Some? ==> recorded == Some(plan.value.id)))
      && (plan.Err? ==> plan.error == FolderCapacityReached || plan.error == FolderNameConflict)
  {
    if recorded.None? {
      UnrecordedAdopt(filters, chatId, botId, capacity);
      UnrecordedCreate(filters, chatId, botId, capacity);
    }
  }

  function Ids(filters: seq<DialogFolder>): (r: seq<int>)
    ensures |r| == |filters|
    ensures forall i :: 0 <= i < |r| ==> r[i] == filters[i].id
  {
    seq(|filters|, i requires 0 <= i < |filters| => filters[i].id)
  }

  predicate DistinctPeers(folder: DialogFolder)
    ensures DistinctPeers(folder) <==> UniqueKeys(folder.included) && UniqueKeys(folder.pinned)
  {
    NormalizedIffUnique(folder.included);
    NormalizedIffUnique(folder.pinned);
    NormalizedPeerSet(folder.included).Some? && NormalizedPeerSet(folder.pinned).Some?
  }

  /** Merges the managed peers into both lists of the folder. */
  method MergeFolder(folder: DialogFolder, managed: seq<DialogPeer>) returns (r: Result<DialogFolder, ProvisionError>)
    ensures r.Ok? <==> DistinctPeers(folder)
    ensures r.Ok? ==> FolderMerged(folder, managed, r.value)
    ensures r.Err? ==> r.error == DialogFilterDecode
  {
    var included := MergePeers(folder.included, managed);
    if included.Err? {
      return Err(included.error);
    }
    var pinned := MergePeers(folder.pinned, managed);
    if pinned.Err? {
      return Err(pinned.error);
    }
    return Ok(folder.(included := included.value, pinned := pinned.value));
  }

  /** The folder list after the update: only the managed folder differs, and it
      is the merge of what was planned, last in the order that was sent. */
  twostate predicate FolderStored(w: Workspace, folder: DialogFolder, managed: seq<DialogPeer>)
    reads w
  {
    && folder.id in w.folders
    && FolderMerged(folder, managed, w.folders[folder.id])
    && w.folders == old(w.folders)[folder.id := w.folders[folder.id]]
    && w.order == w.sentOrder == Without(old(w.order), folder.id) + [folder.id]
  }

  /** No call was made and nothing was saved. */
  twostate predicate NothingDone(w: Workspace, doc: SetupDocument)
    reads w, doc
  {
    && w.turn == old(w.turn) && w.folders == old(w.folders) && w.order == old(w.order) && w.seen == old(w.seen)
    && w.durable == old(w.durable) && doc.state == old(doc.state)
  }

  /** Merges the managed peers into the folder and sends it. */
  method UpdateStage(w: Workspace, doc: SetupDocument, folder: DialogFolder, managed: seq<DialogPeer>)
    returns (r: Result<(), ProvisionError>)
    requires w.Running(doc)
    modifies w`turn, w`folders, w`order, w`facts
    ensures w.Healthy() && DistinctPeers(folder) ==> r.Ok?
    // A repeated key is refused before anything is called.
    ensures r == Err(DialogFilterDecode) <==> !DistinctPeers(folder)
    ensures !DistinctPeers(folder) ==> NothingDone(w, doc)
    ensures w.Running(doc) && old(w.facts) <= w.facts
    ensures r.Err? ==> r.error == DialogFilterDecode || r.error == DialogFilterUpdate
    ensures Without(w.order, folder.id) == Without(old(w.order), folder.id)
    ensures forall id :: id in old(w.folders) && id != folder.id ==> id in w.folders && w.folders[id] == old(w.folders)[id]
    ensures r.Ok? ==> FolderWritten(folder.id) in w.facts
    ensures r.Ok? && w.faithful ==>
      && folder.id in w.folders && FolderMerged(folder, managed, w.folders[folder.id])
      && w.folders == old(w.folders)[folder.id := w.folders[folder.id]]
  {
    var merged := MergeFolder(folder, managed);
    if merged.Err? {
      return Err(merged.error);
    }
    var updated := w.UpdateDialogFilter(merged.value, doc);
    return if updated then Ok(()) else Err(DialogFilterUpdate);
  }

  /** Writes the merged folder, moves it to the end and reads it back. */
  method WriteFolder(
      w: Workspace, doc: SetupDocument, filters: seq<DialogFolder>, folder: DialogFolder, managed: seq<DialogPeer>)
    returns (r: Result<(), ProvisionError>)
    requires w.Running(doc) && UniqueKeys(managed)
    requires folder.regular && folder.title == FOLDER_TITLE
    requires w.faithful ==> filters == w.Listing()
    modifies w`turn, w`folders, w`order, w`sentOrder, w`facts, w`seen
    ensures w.Healthy() && DistinctPeers(folder) ==> r.Ok? || r.error == DialogFilterVerify
    ensures r.Ok? ==> DistinctPeers(folder)
    ensures !DistinctPeers(folder) ==> r == Err(DialogFilterDecode) && NothingDone(w, doc)
    ensures |old(w.seen)| <= |w.seen| && (r.Err? ==> FolderError(r.error))
    ensures w.Running(doc) && old(w.facts) <= w.facts
    ensures r.Err? && w.faithful ==> r.error != DialogFilterVerify
    ensures forall id :: id in old(w.folders) && id != folder.id ==> id in w.folders && w.folders[id] == old(w.folders)[id]
    ensures r.Ok? ==> FolderWritten(folder.id) in w.facts && FolderVerified(folder.id) in w.facts
    ensures r.Ok? && w.faithful ==> FolderStored(w, folder, managed)
  {
    hide FolderMerged, Workspace.Valid, UniqueKeys, DistinctPeers, Backed, Evolves, OneGroupKept;
    IdsOfListing(w);
    r := UpdateStage(w, doc, folder, managed);
    if r.Err? {
      return;
    }
    var ordered := OrderStage(w, doc, filters, folder.id);
    if !ordered {
      return Err(DialogFilterOrder);
    }
    r := VerifyStage(w, doc, folder, managed);
  }

  /** Sends every id once, the managed one last. */
  method OrderStage(w: Workspace, doc: SetupDocument, filters: seq<DialogFolder>, id: int) returns (ok: bool)
    requires w.Running(doc)
    requires w.faithful ==> id in w.folders && Without(Ids(filters), id) == Without(w.order, id)
    modifies w`turn, w`order, w`sentOrder
    ensures w.Healthy() ==> ok
    ensures w.Running(doc)
    ensures w.faithful ==> w.Permutes(w.sentOrder)
    ensures w.faithful ==> w.sentOrder == Without(old(w.order), id) + [id]
    ensures ok && w.faithful ==> w.order == w.sentOrder
  {
    NewOrderPermutes(w.order, id);
    assert id in w.folders ==> Elements(w.order) + {id} == w.folders.Keys;
    ok := w.UpdateDialogFiltersOrder(Without(Ids(filters), id) + [id]);
  }

  lemma NewOrderPermutes(order: seq<int>, id: int)
    requires NoDuplicates(order)
    ensures NoDuplicates(Without(order, id) + [id])
    ensures Elements(Without(order, id) + [id]) == Elements(order) + {id}
  {
    ElementsAppend(Without(order, id), id);
  }

  lemma IdsOfListing(w: Workspace)
    requires w.Valid()
    ensures Ids(w.Listing()) == w.order
  {
    forall i | 0 <= i < |w.order| ensures w.Listing()[i].id == w.order[i] {
      assert w.order[i] in w.folders;
    }
  }

  method VerifyStage(w: Workspace, doc: SetupDocument, folder: DialogFolder, managed: seq<DialogPeer>)
    returns (r: Result<(), ProvisionError>)
    requires w.Running(doc) && UniqueKeys(managed)
    requires folder.regular && folder.title == FOLDER_TITLE
    requires w.faithful ==> folder.id in w.folders && FolderMerged(folder, managed, w.folders[folder.id])
    modifies w`turn, w`facts, w`seen
    ensures w.Healthy() ==> r.Ok? || r.error == DialogFilterVerify
    ensures |old(w.seen)| <= |w.seen| && (r.Err? ==> FolderError(r.error))
    ensures w.Running(doc) && old(w.facts) <= w.facts
    ensures r.Ok? ==> FolderVerified(folder.id) in w.facts
    ensures r.Err? && w.faithful ==> r.error != DialogFilterVerify
  {
    hide VerifyFolder, FolderMerged, Backed, OneGroupKept, Evolves;
    var read := w.GetDialogFilters(doc);
    if read.Err? {
      return Err(read.error);
    }
    if w.faithful {
      w.ListingIsUnique();
      var i :| 0 <= i < |read.value| && read.value[i] == w.folders[folder.id];
      MergedFolderVerifies(read.value, i, folder, managed);
    }
    if !VerifyFolder(read.value, folder.id, managed).matches {
      return Err(DialogFilterVerify);
    }
    w.NoteVerified(folder.id, managed, doc);
    return Ok(());
  }

  /** The peers the companion manages, sorted: its group, its bot, and the
      community once that is joined. */
  function ManagedPeers(
      groupId: int, groupHash: int, bot: BotIdentity, communityOk: bool, s: PersistedSetupState): seq<DialogPeer>
  {
    SortByKey(OwnPeers(groupId, groupHash, bot, communityOk, s))
  }

  function OwnPeers(
      groupId: int, groupHash: int, bot: BotIdentity, communityOk: bool, s: PersistedSetupState): seq<DialogPeer>
  {
    var own := [Channel(groupId, groupHash), User(bot.id, bot.accessHash)];
    if communityOk && s.stages.communityJoined && CommunityComplete(s.identities) then
      own + [Channel(s.identities.communityChatId.value, s.identities.communityAccessHash.value)]
    else own
  }

  function ConfiguredState(s: PersistedSetupState, communityOk: bool): (r: PersistedSetupState)
    ensures r.identities == s.identities
  {
    s.(status := if communityOk then "companion_and_community_configured" else "companion_configured_community_pending",
       stages := s.stages.(folderConfigured := true, companionConfigured := true))
  }

  lemma ConfiguringIsSound(s: PersistedSetupState, communityOk: bool, id: int, facts: set<Fact>)
    requires Backed(s, facts) && FolderRecorded(s, id)
    requires FolderWritten(id) in facts && FolderVerified(id) in facts && FiltersRead in facts
    ensures Backed(ConfiguredState(s, communityOk), facts) && Evolves(s, ConfiguredState(s, communityOk))
  {
  }

  /** Writes the folder and saves that it is configured. */
  method WriteAndConclude(
      w: Workspace, doc: SetupDocument, filters: seq<DialogFolder>, folder: DialogFolder, managed: seq<DialogPeer>,
      communityOk: bool)
    returns (r: Result<(), ProvisionError>)
    requires w.Running(doc) && UniqueKeys(managed)
    requires FolderRecorded(doc.state, folder.id) && FiltersRead in w.facts
    requires folder.regular && folder.title == FOLDER_TITLE
    requires w.faithful ==> filters == w.Listing()
    modifies w`turn, w`durable, w`facts, w`seen, w`folders, w`order, w`sentOrder, doc
    ensures w.Healthy() && DistinctPeers(folder) ==> r.Ok? || r.error == DialogFilterVerify
    ensures r.Ok? ==> DistinctPeers(folder)
    ensures !DistinctPeers(folder) ==> r == Err(DialogFilterDecode) && NothingDone(w, doc)
    ensures |old(w.seen)| <= |w.seen| && (r.Err? ==> FolderError(r.error))
    ensures Progress(w, doc)
    ensures r.Err? && w.faithful ==> r.error != DialogFilterVerify
    ensures forall id :: id in old(w.folders) && id != folder.id ==> id in w.folders && w.folders[id] == old(w.folders)[id]
    ensures r.Ok? ==> w.durable == doc.state == ConfiguredState(old(doc.state), communityOk)
    ensures r.Ok? && w.faithful ==> FolderStored(w, folder, managed)
    ensures doc.state == old(doc.state) || doc.state == ConfiguredState(old(doc.state), communityOk)
  {
    hide Backed, Evolves, OneGroupKept, FolderMerged, Without, DistinctPeers, UniqueKeys, ConfiguredState;
    EvolvesReflexive(w.durable);
    EvolvesReflexive(doc.state);
    r := WriteFolder(w, doc, filters, folder, managed);
    if r.Err? {
      return;
    }
    ConfiguringIsSound(doc.state, communityOk, folder.id, w.facts);
    r := Persist(w, doc, ConfiguredState(doc.state, communityOk));
  }

  /** What the folder stage did: nothing, refused a plan, stopped after planning
      from `listing`, or stored `folder` with `managed` merged in, `folder` being
      what the planner chose from the list as it was. */
  datatype FolderTrace =
    | NoFolder
    | Refused(capacity: FolderCapacity)
    | Stopped(listing: seq<DialogFolder>, capacity: FolderCapacity)
    | Wrote(folder: DialogFolder, managed: seq<DialogPeer>, capacity: FolderCapacity)

  function CapacityOf(trace: FolderTrace): FolderCapacity {
    if trace.NoFolder? then FolderCapacity(0, 0) else trace.capacity
  }

  /** What was written or refused is what the planner says of this list, of the
      folder id recorded before, and of the group and bot on record. */
  ghost predicate PlanTraced(
      listing: seq<DialogFolder>, recorded: Option<int>, s: PersistedSetupState, result: ProvisionResult, trace: FolderTrace)
  {
    var id := s.identities;
    && id.companionChatId.Some? && BotComplete(id)
    && (trace.Wrote? ==>
          PlannedFrom(listing, id.companionChatId.value, id.botUserId.value, trace.capacity, recorded, trace.folder))
    && (trace.Refused? && result.CompletedWithoutFolder? ==>
          RefusedFrom(listing, id.companionChatId.value, id.botUserId.value, trace.capacity, recorded, result.reason))
  }

  /** The managed peers are the group and the bot on record and, when it is
      joined, the community on record. */
  ghost predicate ManagesExactly(s: PersistedSetupState, communityOk: bool, managed: seq<DialogPeer>) {
    var id := s.identities;
    && id.companionChatId.Some? && id.companionChatAccessHash.Some? && BotComplete(id) && UniqueKeys(managed)
    && managed == ManagedPeers(
         id.companionChatId.value, id.companionChatAccessHash.value,
         BotIdentity(id.botUserId.value, id.botAccessHash.value), communityOk, s)
  }

  /** The peers of the folder can be merged with those on record: the group has
      its access hash, the community to be added is not the group itself, and
      neither list of the folder repeats a key. */
  predicate Decodes(s: PersistedSetupState, communityOk: bool, folder: DialogFolder) {
    var id := s.identities;
    && id.companionChatAccessHash.Some? && DistinctPeers(folder)
    && (communityOk && s.stages.communityJoined && CommunityComplete(id) ==> id.communityChatId != id.companionChatId)
  }

  /** Managed peers repeat a key exactly when group and community are one. */
  lemma ManagedRepeatIff(groupId: int, groupHash: int, bot: BotIdentity, communityOk: bool, s: PersistedSetupState)
    ensures UniqueKeys(ManagedPeers(groupId, groupHash, bot, communityOk, s)) <==>
      !(communityOk && s.stages.communityJoined && CommunityComplete(s.identities)
        && s.identities.communityChatId.value == groupId)
  {
    var own := OwnPeers(groupId, groupHash, bot, communityOk, s);
    var managed := ManagedPeers(groupId, groupHash, bot, communityOk, s);
    SamePeers(managed, own);
    NormalizedIffUnique(managed);
    NormalizedIffUnique(own);
    assert |managed| == |multiset(managed)| == |multiset(own)| == |own|;
  }

  lemma ChosenDecodes(
      s: PersistedSetupState, group: ForumGroup, bot: BotIdentity, communityOk: bool, folder: DialogFolder)
    requires Identified(s, group, bot)
    ensures Decodes(s, communityOk, folder) <==>
      && group.accessHash.Some? && DistinctPeers(folder)
      && UniqueKeys(ManagedPeers(group.id, group.accessHash.value, bot, communityOk, s))
    ensures Decodes(s, communityOk, folder) ==>
      ManagesExactly(
        ConfiguredState(s, communityOk), communityOk,
        ManagedPeers(group.id, group.accessHash.value, bot, communityOk, s))
  {
    hide DistinctPeers, UniqueKeys;
    if group.accessHash.Some? {
      ManagedRepeatIff(group.id, group.accessHash.value, bot, communityOk, s);
    }
  }

  /** A folder is planned for this list whose peers cannot be merged. */
  predicate Unwritable(
      listing: seq<DialogFolder>, recorded: Option<int>, s: PersistedSetupState, communityOk: bool, capacity: FolderCapacity)
  {
    var id := s.identities;
    && id.companionChatId.Some? && BotComplete(id)
    && var plan := PlanFolder(listing, id.companionChatId.value, id.botUserId.value, capacity, recorded);
      plan.Ok? && !Decodes(s, communityOk, plan.value.folder)
  }

  /** Both lists hold this peer as it is. */
  predicate Shows(folder: DialogFolder, peer: DialogPeer) {
    peer in folder.included && peer in folder.pinned
  }

  /** The folder includes and pins group, bot and joined community, each with
      the access hash on record. */
  ghost predicate HoldsWorkspace(folder: DialogFolder, s: PersistedSetupState, communityOk: bool) {
    var id := s.identities;
    && id.companionChatId.Some? && id.companionChatAccessHash.Some? && BotComplete(id)
    && Shows(folder, Channel(id.companionChatId.value, id.companionChatAccessHash.value))
    && Shows(folder, User(id.botUserId.value, id.botAccessHash.value))
    && (communityOk && s.stages.communityJoined && CommunityComplete(id) ==>
          Shows(folder, Channel(id.communityChatId.value, id.communityAccessHash.value)))
  }

  /** `peer` is one of these three. */
  predicate IsWorkspacePeer(peer: DialogPeer, s: PersistedSetupState, communityOk: bool) {
    var id := s.identities;
    && id.companionChatId.Some? && id.companionChatAccessHash.Some? && BotComplete(id)
    && (|| peer == Channel(id.companionChatId.value, id.companionChatAccessHash.value)
        || peer == User(id.botUserId.value, id.botAccessHash.value)
        || (&& communityOk && s.stages.communityJoined && CommunityComplete(id)
            && peer == Channel(id.communityChatId.value, id.communityAccessHash.value)))
  }

  lemma MergedHoldsWorkspace(
      s: PersistedSetupState, communityOk: bool, managed: seq<DialogPeer>, before: DialogFolder, after: DialogFolder)
    requires ManagesExactly(s, communityOk, managed) && FolderMerged(before, managed, after)
    ensures HoldsWorkspace(after, s, communityOk)
  {
    hide ManagesExactly;
    ManagedAreThese(s, communityOk, managed);
    MergedHolds(before.included, managed, after.included);
    MergedHolds(before.pinned, managed, after.pinned);
  }

  /** What was there before and is no workspace peer is kept as it was, unless a
      workspace peer has its key; nothing else is added. */
  lemma MergedKeepsOthers(
      s: PersistedSetupState, communityOk: bool, managed: seq<DialogPeer>, before: DialogFolder, after: DialogFolder)
    requires ManagesExactly(s, communityOk, managed) && FolderMerged(before, managed, after) && DistinctPeers(before)
    ensures forall p :: p in after.included <==>
      || IsWorkspacePeer(p, s, communityOk)
      || (p in before.included && forall q :: IsWorkspacePeer(q, s, communityOk) ==> q.Key() != p.Key())
    ensures forall p :: p in after.pinned <==>
      || IsWorkspacePeer(p, s, communityOk)
      || (p in before.pinned && forall q :: IsWorkspacePeer(q, s, communityOk) ==> q.Key() != p.Key())
  {
    hide IsWorkspacePeer, IsMerge;
    ManagedAreThese(s, communityOk, managed);
    MergeMeans(before.included, managed, after.included);
    MergeMeans(before.pinned, managed, after.pinned);
    hide ManagesExactly;
  }

  lemma MergedHolds(before: seq<DialogPeer>, managed: seq<DialogPeer>, merged: seq<DialogPeer>)
    requires UniqueKeys(managed) && IsMerge(before, managed, merged)
    ensures forall p :: p in managed ==> p in merged
  {
    SortedUnique(merged);
    SortedPeersByKey(managed);
    SortedPeersByKey(merged);
  }

  /** The managed peers are exactly these three, or two. */
  lemma ManagedAreThese(s: PersistedSetupState, communityOk: bool, managed: seq<DialogPeer>)
    requires ManagesExactly(s, communityOk, managed)
    ensures UniqueKeys(managed) && s.identities.companionChatId.Some?
    ensures s.identities.companionChatAccessHash.Some? && BotComplete(s.identities)
    ensures forall p :: p in managed <==> IsWorkspacePeer(p, s, communityOk)
  {
    var own := OwnPeers(
      s.identities.companionChatId.value, s.identities.companionChatAccessHash.value,
      BotIdentity(s.identities.botUserId.value, s.identities.botAccessHash.value), communityOk, s);
    SamePeers(managed, own);
    assert forall p :: p in own <==> p == own[0] || p == own[1] || (|own| > 2 && p == own[2]);
  }

  function Outcome(community: Result<(), ProvisionError>): ProvisionResult {
    if community.Ok? then Completed else CompletedWithoutCommunity(community.error)
  }

  function StatusOf(result: ProvisionResult): string {
    match result
    case Completed => "companion_and_community_configured"
    case CompletedWithoutCommunity(_) => "companion_configured_community_pending"
    case CompletedWithoutFolder(Capacity) => "completed_without_folder_capacity"
    case CompletedWithoutFolder(NameOrOwnershipConflict) => "completed_without_folder_name_conflict"
  }

  /** What the file says of a run that reports `result`. */
  ghost predicate Concluded(w: Workspace, doc: SetupDocument, result: ProvisionResult, trace: FolderTrace)
    reads w, doc
  {
    && w.durable == doc.state
    && doc.state.status == StatusOf(result)
    && doc.state.stages.companionConfigured
    && (result.CompletedWithoutFolder? <==> trace.Refused?)
    && (!result.CompletedWithoutFolder? <==> trace.Wrote?)
    && (trace.Wrote? ==>
          && doc.state.stages.folderConfigured && FolderRecorded(doc.state, trace.folder.id)
          && trace.folder.regular && trace.folder.title == FOLDER_TITLE
          && ManagesExactly(doc.state, result.Completed?, trace.managed))
    && (result.Completed? ==> doc.state.stages.communityJoined)
  }

  /** The folder stage once a folder is chosen and its id saved. */
  method WriteChosen(
      w: Workspace, doc: SetupDocument, group: ForumGroup, bot: BotIdentity, communityOk: bool,
      filters: seq<DialogFolder>, folder: DialogFolder)
    returns (r: Result<(), ProvisionError>, ghost managed: seq<DialogPeer>)
    requires w.Running(doc) && Identified(doc.state, group, bot)
    requires FolderRecorded(doc.state, folder.id) && FiltersRead in w.facts
    requires folder.regular && folder.title == FOLDER_TITLE
    requires w.faithful ==> filters == w.Listing()
    modifies w`turn, w`durable, w`facts, w`seen, w`folders, w`order, w`sentOrder, doc
    ensures w.Healthy() && Decodes(old(doc.state), communityOk, folder) ==> r.Ok? || r.error == DialogFilterVerify
    ensures r.Ok? ==> Decodes(old(doc.state), communityOk, folder)
    ensures |old(w.seen)| <= |w.seen| && (r.Err? ==> FolderError(r.error))
    ensures Progress(w, doc)
    ensures r.Err? && w.faithful ==> r.error != DialogFilterVerify
    ensures forall id :: id in old(w.folders) && id != folder.id ==> id in w.folders && w.folders[id] == old(w.folders)[id]
    ensures r.Ok? ==> w.durable == doc.state == ConfiguredState(old(doc.state), communityOk)
    ensures doc.state == old(doc.state) || doc.state == ConfiguredState(old(doc.state), communityOk)
    ensures r.Ok? ==> ManagesExactly(doc.state, communityOk, managed)
    // Without an access hash, or with a repeated key, nothing is called.
    ensures !Decodes(old(doc.state), communityOk, folder) ==> r == Err(DialogFilterDecode) && NothingDone(w, doc)
    ensures r.Ok? && w.faithful ==> FolderStored(w, folder, managed)
  {
    hide Backed, OneGroupKept, FolderMerged, Without, DistinctPeers, UniqueKeys, Decodes, ManagesExactly, ManagedPeers;
    EvolvesReflexive(w.durable);
    EvolvesReflexive(doc.state);
    managed := [];
    ChosenDecodes(doc.state, group, bot, communityOk, folder);
    if group.accessHash.None? {
      return Err(DialogFilterDecode), managed;
    }
    var peers := ManagedPeers(group.id, group.accessHash.value, bot, communityOk, doc.state);
    managed := peers;
    var distinct := HasDistinctKeys(peers);
    if !distinct {
      return Err(DialogFilterDecode), managed;
    }
    r := WriteAndConclude(w, doc, filters, folder, peers, communityOk);
  }

  method HasDistinctKeys(peers: seq<DialogPeer>) returns (distinct: bool)
    ensures distinct <==> UniqueKeys(peers)
  {
    NormalizedIffUnique(peers);
    distinct := NormalizedPeerSet(peers).Some?;
  }

  lemma PlanningRecords(s: PersistedSetupState, id: int, communityOk: bool)
    ensures FolderRecorded(PlannedState(s, id), id)
    ensures FolderRecorded(ConfiguredState(PlannedState(s, id), communityOk), id)
  {
  }

  lemma SkippingConcludes(
      w: Workspace, doc: SetupDocument, s: PersistedSetupState, reason: WithoutFolder, capacity: FolderCapacity)
    requires w.durable == doc.state == SkippedState(s, reason)
    ensures Concluded(w, doc, CompletedWithoutFolder(reason), Refused(capacity))
  {
  }

  lemma ConfiguringConcludes(
      w: Workspace, doc: SetupDocument, s: PersistedSetupState, community: Result<(), ProvisionError>, trace: FolderTrace)
    requires trace.Wrote? && trace.folder.regular && trace.folder.title == FOLDER_TITLE
    requires community.Ok? ==> s.stages.communityJoined
    requires ManagesExactly(doc.state, community.Ok?, trace.managed)
    requires w.durable == doc.state == ConfiguredState(PlannedState(s, trace.folder.id), community.Ok?)
    ensures Concluded(w, doc, Outcome(community), trace)
  {
  }

  /** A planned folder is written or not as its peers decode. */
  lemma UnwritableIff(
      listing: seq<DialogFolder>, recorded: Option<int>, s: PersistedSetupState, communityOk: bool,
      group: ForumGroup, bot: BotIdentity, capacity: FolderCapacity)
    requires Identified(s, group, bot)
    ensures forall folder :: PlannedFrom(listing, group.id, bot.id, capacity, recorded, folder) ==>
      (Unwritable(listing, recorded, s, communityOk, capacity) <==> !Decodes(s, communityOk, folder))
    ensures forall reason :: RefusedFrom(listing, group.id, bot.id, capacity, recorded, reason) ==>
      !Unwritable(listing, recorded, s, communityOk, capacity)
  {
  }

  lemma DecodingStays(s: PersistedSetupState, id: int, communityOk: bool, folder: DialogFolder)
    ensures var planned := PlannedState(s, id);
      Decodes(ConfiguredState(planned, communityOk), communityOk, folder) == Decodes(planned, communityOk, folder)
  {
  }

  /** Planned, but the peers cannot be merged: the plan's id is saved, and the
      folders are as they were. */
  twostate predicate Unmerged(w: Workspace, doc: SetupDocument, communityOk: bool, trace: FolderTrace)
    reads w, doc
  {
    && trace.Stopped? && trace.listing in w.seen
    && Unwritable(
         trace.listing, old(doc.state).identities.companionFolderId, doc.state, communityOk, trace.capacity)
    && w.durable == doc.state && doc.state.identities.companionFolderId.Some? && !doc.state.stages.folderConfigured
    && (communityOk ==> doc.state.stages.communityJoined)
    && w.folders == old(w.folders) && w.order == old(w.order)
  }

  /** The errors of the folder stage; none is one of the community's. */
  predicate FolderError(error: ProvisionError) {
    || error == AppConfig || error == DialogFiltersRead || error == DialogFilterDecode
    || error == DialogFilterUpdate || error == DialogFilterOrder || error == DialogFilterVerify
    || error == Storage
  }

  /** Plans, and writes what is planned. */
  method FolderStage(
      w: Workspace, doc: SetupDocument, group: ForumGroup, bot: BotIdentity, community: Result<(), ProvisionError>)
    returns (r: Result<ProvisionResult, ProvisionError>, ghost trace: FolderTrace)
    requires w.Running(doc) && Identified(doc.state, group, bot)
    requires community.Ok? ==> doc.state.stages.communityJoined
    modifies w`turn, w`durable, w`facts, w`seen, w`folders, w`order, w`sentOrder, doc
    ensures r.Ok? ==> !trace.NoFolder? && !trace.Stopped?
    // When nothing fails, only peers that cannot be merged stop it, or a server
    // that does not store what it is told.
    ensures w.Healthy() && r.Err? ==>
      r.error == DialogFilterVerify || (r.error == DialogFilterDecode && Unmerged(w, doc, community.Ok?, trace))
    ensures r.Ok? && w.faithful ==>
      !Unwritable(old(w.Listing()), old(doc.state).identities.companionFolderId, doc.state, community.Ok?, trace.capacity)
    ensures trace.Stopped? && w.faithful ==> trace.listing == old(w.Listing())
    ensures !trace.NoFolder? ==> w.Answers(trace.capacity)
    ensures Progress(w, doc)
    ensures r.Err? && w.faithful ==> r.error != DialogFilterVerify
    ensures forall id :: id in old(w.folders) && !FolderRecorded(doc.state, id) ==>
      id in w.folders && w.folders[id] == old(w.folders)[id]
    ensures r.Ok? ==> Concluded(w, doc, r.value, trace)
    // No folder: the planner refused, and nothing was touched.
    ensures r.Ok? && trace.Refused? ==>
      r.value.CompletedWithoutFolder? && doc.state == SkippedState(old(doc.state), r.value.reason)
    ensures r.Ok? && trace.Refused? ==> w.folders == old(w.folders) && w.order == old(w.order)
    // A folder: the planner's choice, with exactly the managed peers merged in.
    ensures r.Ok? && trace.Wrote? ==>
      && r.value == (if community.Ok? then Completed else CompletedWithoutCommunity(community.error))
      && doc.state == ConfiguredState(PlannedState(old(doc.state), trace.folder.id), community.Ok?)
    ensures r.Ok? && trace.Wrote? && w.faithful ==> FolderStored(w, trace.folder, trace.managed)
    // Both are what the planner says of the list as it was.
    ensures r.Ok? && w.faithful ==>
      PlanTraced(old(w.Listing()), old(doc.state).identities.companionFolderId, doc.state, r.value, trace)
    // An error is one of this stage's own.
    ensures r.Err? ==> FolderError(r.error) && (r.error == Storage ==> |w.seen| > |old(w.seen)|)
  {
    hide Backed, Evolves, OneGroupKept, ManagesExactly, RefusedFrom, PlannedFrom, FolderMerged, Without;
    hide SkippedState, PlannedState, ConfiguredState, Concluded, Unwritable, Decodes;
    trace := NoFolder;
    ghost var durable0, state0 := w.durable, doc.state;
    var choice;
    ghost var capacity;
    choice, capacity := ChooseFolder(w, doc, group, bot);
    ghost var durable1, state1 := w.durable, doc.state;
    match choice {
      case Failed(error) =>
        return Err(error), trace;
      case Skipped(reason) =>
        SkippingConcludes(w, doc, state0, reason, capacity);
        IdentifiedStays(state0, doc.state, group, bot);
        UnwritableIff(w.Listing(), state0.identities.companionFolderId, doc.state, community.Ok?, group, bot, capacity);
        return Ok(CompletedWithoutFolder(reason)), Refused(capacity);
      case Chosen(filters, folder) =>
        PlanningRecords(state0, folder.id, community.Ok?);
        IdentifiedStays(state0, doc.state, group, bot);
        var written;
        ghost var managed;
        written, managed := WriteChosen(w, doc, group, bot, community.Ok?, filters, folder);
        EvolvesTransitive(durable0, durable1, w.durable);
        EvolvesTransitive(state0, state1, doc.state);
        IdentifiedStays(state0, doc.state, group, bot);
        UnwritableIff(filters, state0.identities.companionFolderId, doc.state, community.Ok?, group, bot, capacity);
        DecodingStays(state0, folder.id, community.Ok?, folder);
        trace := Stopped(filters, capacity);
        if written.Err? {
          return Err(written.error), trace;
        }
        trace := Wrote(folder, managed, capacity);
        ConfiguringConcludes(w, doc, state0, community, trace);
        r := Ok(Outcome(community));
    }
  }

  // -------------------------------------------------------------- whole run

  /** How far a run got that ended in this error: everything before the stage of
      the error is on record, and that stage is not. A failed save can be any
      stage's. */
  predicate ErrorFits(s: PersistedSetupState, error: ProvisionError) {
    var st, id := s.stages, s.identities;
    match error
    case ResolveBot => !BotComplete(id)
    case StartBot => BotComplete(id) && !st.botDialogInitialized
    case AppConfig =>
      || (BotComplete(id) && st.botDialogInitialized && !st.appConfigChecked) || CompanionReady(st)
    case CreateGroup => BotComplete(id) && st.botDialogInitialized && st.appConfigChecked && id.companionChatId.None?
    case GroupUnavailable => st.botDialogInitialized && st.appConfigChecked && id.companionChatId.Some?
    case GroupChanged => st.botDialogInitialized && st.appConfigChecked && id.companionChatId.Some?
    case GeneralTopicLookup => st.appConfigChecked && st.forumGroupCreated
    case CreateTopic => st.appConfigChecked && st.forumGroupCreated
    case InviteBot => st.forumTopicCreated && !st.botInvited
    case PromoteBot => st.forumTopicCreated && st.botInvited && !st.botRightsConfigured
    case Storage => true
    case _ => FolderError(error) && CompanionReady(st)
  }

  lemma BotErrorsFit(s: PersistedSetupState)
    ensures ErrorFits(s, Storage)
    ensures !BotComplete(s.identities) ==> ErrorFits(s, ResolveBot)
    ensures BotComplete(s.identities) && !s.stages.botDialogInitialized ==> ErrorFits(s, StartBot)
    ensures BotComplete(s.identities) && s.stages.botDialogInitialized && !s.stages.appConfigChecked ==>
      ErrorFits(s, AppConfig)
  {
  }

  lemma GroupErrorsFit(s: PersistedSetupState)
    requires BotComplete(s.identities) && s.stages.botDialogInitialized && s.stages.appConfigChecked
    ensures ErrorFits(s, Storage)
    ensures s.identities.companionChatId.None? ==> ErrorFits(s, CreateGroup)
    ensures s.identities.companionChatId.Some? ==> ErrorFits(s, GroupUnavailable) && ErrorFits(s, GroupChanged)
    ensures s.stages.forumGroupCreated ==> ErrorFits(s, GeneralTopicLookup) && ErrorFits(s, CreateTopic)
  {
  }

  lemma MemberErrorsFit(s: PersistedSetupState)
    requires s.stages.forumTopicCreated
    ensures ErrorFits(s, Storage)
    ensures !s.stages.botInvited ==> ErrorFits(s, InviteBot)
    ensures s.stages.botInvited && !s.stages.botRightsConfigured ==> ErrorFits(s, PromoteBot)
  {
  }

  lemma FolderErrorsFit(s: PersistedSetupState)
    requires CompanionReady(s.stages)
    ensures forall error :: FolderError(error) ==> ErrorFits(s, error)
  {
  }

  method BotStages(w: Workspace, doc: SetupDocument, botUsername: string) returns (r: Result<BotIdentity, ProvisionError>)
    requires w.Running(doc)
    modifies w`turn, w`durable, w`facts, doc
    ensures w.Healthy() ==> r.Ok?
    ensures doc.state.identities.companionFolderId == old(doc.state).identities.companionFolderId
    ensures w.Healthy() && HashKnown(old(doc.state)) ==> HashKnown(doc.state)
    ensures Progress(w, doc)
    ensures r.Ok? ==> Recorded(doc.state, r.value)
    ensures r.Ok? ==> doc.state.stages.botDialogInitialized && doc.state.stages.appConfigChecked
    ensures r.Err? ==> r.error != DialogFilterVerify && ErrorFits(doc.state, r.error)
  {
    hide ErrorFits, Stage, OneCall, Backed, Evolves, OneGroupKept;
    ghost var durable0, state0 := w.durable, doc.state;
    r := ResolveBotStage(w, doc, botUsername);
    BotErrorsFit(doc.state);
    if r.Err? {
      return;
    }
    ghost var durable1, state1 := w.durable, doc.state;
    var started := StartBotStage(w, doc, r.value);
    EvolvesTransitive(durable0, durable1, w.durable);
    EvolvesTransitive(state0, state1, doc.state);
    EvolvesKeeps(state1, doc.state);
    BotErrorsFit(doc.state);
    if started.Err? {
      return Err(started.error);
    }
    ghost var durable2, state2 := w.durable, doc.state;
    var configured := AppConfigStage(w, doc);
    EvolvesTransitive(durable0, durable2, w.durable);
    EvolvesTransitive(state0, state2, doc.state);
    EvolvesKeeps(state2, doc.state);
    BotErrorsFit(doc.state);
    if configured.Err? {
      return Err(configured.error);
    }
  }

  method GroupStages(w: Workspace, doc: SetupDocument) returns (r: Result<ForumGroup, ProvisionError>)
    requires w.Running(doc) && BotComplete(doc.state.identities)
    requires doc.state.stages.botDialogInitialized && doc.state.stages.appConfigChecked
    modifies w`turn, w`durable, w`facts, w`creations, doc
    ensures w.Healthy() ==> r.Ok?
    ensures doc.state.identities.companionFolderId == old(doc.state).identities.companionFolderId
    ensures w.Healthy() && HashKnown(old(doc.state)) ==> HashKnown(doc.state)
    ensures Progress(w, doc)
    ensures r.Ok? ==> GroupRecorded(doc.state, r.value)
    ensures r.Ok? ==> doc.state.identities.companionChatAccessHash == r.value.accessHash
    ensures r.Ok? ==> doc.state.stages.forumGroupCreated && doc.state.stages.forumTopicCreated
    ensures r.Err? ==> r.error != DialogFilterVerify && ErrorFits(doc.state, r.error)
    ensures CreatesOneAtMost(w, ErrorOf(r))
  {
    hide ErrorFits, Stage, Backed, Evolves, OneGroupKept;
    GroupErrorsFit(doc.state);
    ghost var durable0, state0 := w.durable, doc.state;
    r := GroupStage(w, doc);
    EvolvesKeeps(state0, doc.state);
    GroupErrorsFit(doc.state);
    if r.Err? {
      return;
    }
    ghost var durable1, state1 := w.durable, doc.state;
    var flagged := GroupPhotoAndFlagStage(w, doc, r.value);
    EvolvesTransitive(durable0, durable1, w.durable);
    EvolvesTransitive(state0, state1, doc.state);
    EvolvesKeeps(state1, doc.state);
    EvolvesKeeps(durable1, w.durable);
    GroupErrorsFit(doc.state);
    if flagged.Err? {
      return Err(flagged.error);
    }
    ghost var durable2, state2 := w.durable, doc.state;
    var topics;
    ghost var general, logs, backups;
    topics, general, logs, backups := TopicsStage(w, doc, r.value);
    EvolvesTransitive(durable0, durable2, w.durable);
    EvolvesTransitive(state0, state2, doc.state);
    EvolvesKeeps(state2, doc.state);
    EvolvesKeeps(durable2, w.durable);
    GroupErrorsFit(doc.state);
    if topics.Err? {
      return Err(topics.error);
    }
  }

  method MemberStages(w: Workspace, doc: SetupDocument, group: ForumGroup, botUsername: string)
    returns (r: Result<(), ProvisionError>)
    requires w.Running(doc) && GroupRecorded(doc.state, group) && doc.state.stages.forumTopicCreated
    modifies w`turn, w`durable, w`facts, doc
    ensures w.Healthy() ==> r.Ok?
    ensures doc.state.identities.companionFolderId == old(doc.state).identities.companionFolderId
    ensures w.Healthy() && HashKnown(old(doc.state)) ==> HashKnown(doc.state)
    ensures Progress(w, doc)
    ensures r.Ok? ==> doc.state.stages.botInvited && doc.state.stages.botRightsConfigured
    ensures r.Err? ==> r.error != DialogFilterVerify && ErrorFits(doc.state, r.error)
  {
    hide ErrorFits, Stage, OneCall, Backed, Evolves, OneGroupKept;
    ghost var durable0, state0 := w.durable, doc.state;
    r := InviteStage(w, doc, group, botUsername);
    EvolvesKeeps(state0, doc.state);
    MemberErrorsFit(doc.state);
    if r.Err? {
      return;
    }
    ghost var durable1, state1 := w.durable, doc.state;
    r := PromoteStage(w, doc, group, botUsername);
    EvolvesKeeps(state1, doc.state);
    MemberErrorsFit(doc.state);
    EvolvesTransitive(durable0, durable1, w.durable);
    EvolvesTransitive(state0, state1, doc.state);
  }

  /** The flags a finished run has set, whatever became of folder and community. */
  predicate CompanionReady(st: SetupStages) {
    && st.botDialogInitialized && st.appConfigChecked && st.forumGroupCreated
    && st.forumTopicCreated && st.botInvited && st.botRightsConfigured
  }

  /** Everything before the community: bot, group, topics, membership. */
  method CompanionStages(w: Workspace, doc: SetupDocument, botUsername: string)
    returns (r: Result<(BotIdentity, ForumGroup), ProvisionError>)
    requires w.Running(doc)
    modifies w`turn, w`durable, w`facts, w`creations, doc
    ensures w.Healthy() ==> r.Ok?
    ensures doc.state.identities.companionFolderId == old(doc.state).identities.companionFolderId
    ensures w.Healthy() && HashKnown(old(doc.state)) ==> HashKnown(doc.state)
    ensures Progress(w, doc)
    ensures r.Ok? ==> CompanionReady(doc.state.stages)
    ensures r.Ok? ==> Identified(doc.state, r.value.1, r.value.0)
    ensures r.Err? ==> r.error != DialogFilterVerify && ErrorFits(doc.state, r.error)
    ensures CreatesOneAtMost(w, ErrorOf(r))
  {
    hide ErrorFits;
    ghost var durable0, state0 := w.durable, doc.state;
    var bot := BotStages(w, doc, botUsername);
    if bot.Err? {
      return Err(bot.error);
    }
    ghost var durable1, state1 := w.durable, doc.state;
    var group := GroupStages(w, doc);
    EvolvesTransitive(durable0, durable1, w.durable);
    EvolvesTransitive(state0, state1, doc.state);
    if group.Err? {
      return Err(group.error);
    }
    ghost var durable2, state2 := w.durable, doc.state;
    var members := MemberStages(w, doc, group.value, botUsername);
    EvolvesTransitive(durable0, durable2, w.durable);
    EvolvesTransitive(state0, state2, doc.state);
    if members.Err? {
      return Err(members.error);
    }
    return Ok((bot.value, group.value));
  }

  /** The community, then the folder. An error of the former is kept for the
      result and stops nothing. */
  method CommunityAndFolder(w: Workspace, doc: SetupDocument, bot: BotIdentity, group: ForumGroup)
    returns (r: Result<ProvisionResult, ProvisionError>, ghost trace: FolderTrace)
    requires w.Running(doc) && Identified(doc.state, group, bot) && CompanionReady(doc.state.stages)
    modifies w`turn, w`durable, w`facts, w`seen, w`folders, w`order, w`sentOrder, doc
    ensures w.Healthy() && r.Err? ==>
      r.error == DialogFilterVerify || (r.error == DialogFilterDecode && Unmerged(w, doc, true, trace))
    ensures r.Ok? ==> !trace.NoFolder? && !trace.Stopped?
    ensures r.Ok? && r.value.CompletedWithoutCommunity? ==> CommunityError(r.value.error)
    ensures w.Healthy() && r.Ok? ==> !r.value.CompletedWithoutCommunity?
    ensures w.Healthy() ==> Joined(doc.state)
    ensures w.Healthy() && r.Ok? && w.faithful ==>
      !Unwritable(old(w.Listing()), old(doc.state).identities.companionFolderId, doc.state, true, trace.capacity)
    ensures trace.Stopped? && w.faithful ==> trace.listing == old(w.Listing())
    ensures !trace.NoFolder? ==> w.Answers(trace.capacity)
    ensures Progress(w, doc)
    ensures r.Ok? ==> Concluded(w, doc, r.value, trace)
    ensures CompanionReady(doc.state.stages)
    ensures r.Err? ==> FolderError(r.error) && (r.error == Storage ==> |w.seen| > |old(w.seen)|)
    ensures r.Err? && w.faithful ==> r.error != DialogFilterVerify
    ensures forall id :: id in old(w.folders) && !FolderRecorded(doc.state, id) ==>
      id in w.folders && w.folders[id] == old(w.folders)[id]
    ensures r.Ok? && trace.Refused? ==>
      && w.folders == old(w.folders) && w.order == old(w.order)
      && doc.state.identities.companionFolderId == old(doc.state).identities.companionFolderId
    ensures r.Ok? && w.faithful ==>
      PlanTraced(old(w.Listing()), old(doc.state).identities.companionFolderId, doc.state, r.value, trace)
    ensures r.Ok? && trace.Wrote? && w.faithful ==>
      FolderStored(w, trace.folder, trace.managed) && HoldsWorkspace(w.folders[trace.folder.id], doc.state, r.value.Completed?)
  {
    hide Backed, Evolves, OneGroupKept, OnlyCommunityDiffers, PlanTraced, ManagesExactly, HoldsWorkspace;
    hide SkippedState, PlannedState, ConfiguredState, FolderMerged, Unwritable;
    ghost var durable0, state0 := w.durable, doc.state;
    var community := OnboardCommunity(w, doc);
    ghost var durable1, state1 := w.durable, doc.state;
    IdentifiedStays(state0, state1, group, bot);
    r, trace := FolderStage(w, doc, group, bot, community);
    if community.Ok? {
      IdentifiedJoined(state1, doc.state, group, bot, w.facts);
    }
    EvolvesTransitive(durable0, durable1, w.durable);
    EvolvesTransitive(state0, state1, doc.state);
    if r.Ok? && trace.Wrote? && w.faithful {
      MergedHoldsWorkspace(
        doc.state, r.value.Completed?, trace.managed, trace.folder, w.folders[trace.folder.id]);
    }
  }

  /** One provisioning run. */
  method Provision(w: Workspace, doc: SetupDocument, botUsername: string)
    returns (r: Result<ProvisionResult, ProvisionError>, ghost trace: FolderTrace)
    requires w.Running(doc)
    modifies w`turn, w`durable, w`facts, w`seen, w`creations, w`folders, w`order, w`sentOrder, doc
    // When nothing fails, the community is joined, and only peers that cannot be
    // merged stop the run, or a server that does not store what it is told.
    ensures w.Healthy() && r.Err? ==>
      r.error == DialogFilterVerify || (r.error == DialogFilterDecode && Unmerged(w, doc, true, trace))
    ensures r.Ok? ==> !trace.NoFolder? && !trace.Stopped?
    ensures r.Ok? && r.value.CompletedWithoutCommunity? ==> CommunityError(r.value.error)
    ensures w.Healthy() && r.Ok? ==> !r.value.CompletedWithoutCommunity?
    ensures w.Healthy() ==> Joined(doc.state)
    ensures w.Healthy() && r.Ok? && w.faithful ==>
      !Unwritable(old(w.Listing()), old(doc.state).identities.companionFolderId, doc.state, true, trace.capacity)
    ensures w.Healthy() && HashKnown(old(doc.state)) ==> HashKnown(doc.state)
    ensures trace.Stopped? && w.faithful ==> trace.listing == old(w.Listing())
    ensures !trace.NoFolder? ==> w.Answers(trace.capacity)
    ensures Progress(w, doc)
    ensures r.Ok? ==> CompanionReady(doc.state.stages) && Concluded(w, doc, r.value, trace)
    ensures r.Err? ==> ErrorFits(doc.state, r.error)
    ensures r.Err? && w.faithful ==> r.error != DialogFilterVerify
    ensures CreatesOneAtMost(w, ErrorOf(r))
    ensures forall id :: id in old(w.folders) && !FolderRecorded(doc.state, id) ==>
      id in w.folders && w.folders[id] == old(w.folders)[id]
    // Without a folder nothing is touched; with one, only that one, which holds
    // group, bot and joined community. Both as planned from the list as it was.
    ensures r.Ok? && trace.Refused? ==>
      && w.folders == old(w.folders) && w.order == old(w.order)
      && doc.state.identities.companionFolderId == old(doc.state).identities.companionFolderId
    ensures r.Ok? && w.faithful ==>
      PlanTraced(old(w.Listing()), old(doc.state).identities.companionFolderId, doc.state, r.value, trace)
    ensures r.Ok? && trace.Wrote? && w.faithful ==>
      FolderStored(w, trace.folder, trace.managed) && HoldsWorkspace(w.folders[trace.folder.id], doc.state, r.value.Completed?)
  {
    hide ErrorFits, FolderError, PlanTraced, ManagesExactly, HoldsWorkspace, FolderMerged, Concluded, Unwritable;
    trace := NoFolder;
    ghost var durable0, state0 := w.durable, doc.state;
    var ready := CompanionStages(w, doc, botUsername);
    if ready.Err? {
      return Err(ready.error), trace;
    }
    ghost var durable1, state1 := w.durable, doc.state;
    r, trace := CommunityAndFolder(w, doc, ready.value.0, ready.value.1);
    EvolvesTransitive(durable0, durable1, w.durable);
    EvolvesTransitive(state0, state1, doc.state);
    FolderErrorsFit(doc.state);
  }

  /** How many runs ended in a storage error. */
  function StorageErrors(results: seq<Result<ProvisionResult, ProvisionError>>): nat {
    if results == [] then 0
    else StorageErrors(results[..|results| - 1]) + if results[|results| - 1] == Err(Storage) then 1 else 0
  }

  /** Any number of runs, each starting from the saved state, whatever the
      outside world answers. Every group created but one is paid for by a run
      that ended in a storage error. */
  method ProvisionRepeatedly(w: Workspace, botUsernames: seq<string>)
    returns (results: seq<Result<ProvisionResult, ProvisionError>>)
    requires w.Valid()
    modifies w
    ensures w.Valid() && Evolves(old(w.durable), w.durable)
    ensures |results| == |botUsernames|
    ensures old(w.creations) <= w.creations
    ensures old(w.durable).identities.companionChatId.Some? ==> w.creations == old(w.creations)
    ensures |w.creations| <= |old(w.creations)| + 1 + StorageErrors(results)
    ensures w.durable.identities.companionChatId.None? ==> |w.creations| <= |old(w.creations)| + StorageErrors(results)
  {
    hide Backed, OneGroupKept, PlanTraced, Concluded, HoldsWorkspace;
    results := [];
    var i := 0;
    while i < |botUsernames|
      invariant 0 <= i <= |botUsernames| && |results| == i
      invariant w.Valid() && Evolves(old(w.durable), w.durable)
      invariant old(w.creations) <= w.creations
      invariant old(w.durable).identities.companionChatId.Some? ==> w.creations == old(w.creations)
      invariant |w.creations| <= |old(w.creations)| + StorageErrors(results)
        + if w.durable.identities.companionChatId.Some? then 1 else 0
    {
      var doc := new SetupDocument(w.durable);
      ghost var before := w.durable;
      DocumentFits(w, doc);
      var r;
      ghost var trace;
      r, trace := Provision(w, doc, botUsernames[i]);
      EvolvesTransitive(old(w.durable), before, w.durable);
      assert (results + [r])[..|results|] == results;
      results := results + [r];
      i := i + 1;
    }
  }

  lemma DocumentFits(w: Workspace, doc: SetupDocument)
    requires w.Valid() && doc.state == w.durable
    ensures w.Running(doc) && Evolves(w.durable, w.durable)
  {
  }

  // ------------------------------------------------------- running it again

  /** Moving the managed folder to the end twice is moving it there once. */
  lemma OrderIsStable(order: seq<int>, id: int)
    ensures Without(Without(order, id) + [id], id) + [id] == Without(order, id) + [id]
  {
    var once := Without(order, id) + [id];
    assert once[..|once| - 1] == Without(order, id);
    WithoutAbsent(Without(order, id), id);
  }

  /** Merging peers that were merged before gives the identical folder. */
  lemma RemergingIsFixed(
      before: DialogFolder, managed: seq<DialogPeer>, stored: DialogFolder, again: seq<DialogPeer>, after: DialogFolder)
    requires FolderMerged(before, managed, stored) && FolderMerged(stored, again, after)
    requires UniqueKeys(managed) && UniqueKeys(again) && forall p :: p in again ==> p in managed
    ensures after == stored
  {
    RemergingPeers(before.included, managed, stored.included, again);
    RemergingPeers(before.pinned, managed, stored.pinned, again);
    MergeIsDetermined(stored.included, again, stored.included, after.included);
    MergeIsDetermined(stored.pinned, again, stored.pinned, after.pinned);
  }

  lemma RemergingPeers(
      before: seq<DialogPeer>, managed: seq<DialogPeer>, merged: seq<DialogPeer>, again: seq<DialogPeer>)
    requires IsMerge(before, managed, merged)
    requires UniqueKeys(managed) && UniqueKeys(again) && forall p :: p in again ==> p in managed
    ensures IsMerge(merged, again, merged)
  {
    hide ByKey;
    SortedPeersByKey(managed);
    SortedPeersByKey(again);
    forall k | k in ByKey(again) ensures k in ByKey(managed) && ByKey(managed)[k] == ByKey(again)[k] {
      assert ByKey(again)[k] in managed;
    }
    assert (ByKey(merged) + ByKey(again)).Keys == ByKey(merged).Keys;
  }

  /** Once joined and complete, the managed peers can only lose the community. */
  lemma ManagedShrinks(
      a: PersistedSetupState, okBefore: bool, managed: seq<DialogPeer>,
      b: PersistedSetupState, okAfter: bool, again: seq<DialogPeer>)
    requires Evolves(a, b) && ManagesExactly(a, okBefore, managed) && ManagesExactly(b, okAfter, again)
    requires okAfter ==> okBefore && a.stages.communityJoined && CommunityComplete(a.identities)
    ensures forall p :: p in again ==> p in managed
  {
    var x, y := a.identities, b.identities;
    var bot := BotIdentity(x.botUserId.value, x.botAccessHash.value);
    var mine := OwnPeers(x.companionChatId.value, x.companionChatAccessHash.value, bot, okBefore, a);
    var theirs := OwnPeers(x.companionChatId.value, x.companionChatAccessHash.value, bot, okAfter, b);
    SamePeers(managed, mine);
    SamePeers(again, theirs);
    assert theirs == mine || theirs + [mine[|mine| - 1]] == mine;
  }

  /** Only the folder with this id has the companion's title. */
  ghost predicate AloneUnderTitle(folders: map<int, DialogFolder>, id: int) {
    forall k :: k in folders && folders[k].title == FOLDER_TITLE ==> k == id
  }

  /** Whoever plans for this list with this id recorded plans this folder. */
  ghost predicate PlansExisting(listing: seq<DialogFolder>, stored: DialogFolder) {
    forall chatId, botId, capacity ::
      PlanFolder(listing, chatId, botId, capacity, Some(stored.id)) == Ok(Existing(stored.id, stored))
  }

  /** Whatever is planned with the id of a listed folder on record is that
      folder, or refused. */
  lemma PlannedIsStored(
      listing: seq<DialogFolder>, stored: DialogFolder, s: PersistedSetupState, result: ProvisionResult, trace: FolderTrace)
    requires UniqueIds(listing) && stored in listing && PlanTraced(listing, Some(stored.id), s, result, trace)
    ensures trace.Wrote? ==> trace.folder == stored
    ensures PlansExisting(listing, stored) && result.CompletedWithoutFolder? ==> !trace.Refused?
  {
    var i :| 0 <= i < |listing| && listing[i] == stored;
    FindUnique(listing, i);
    var id := s.identities;
    assert PlansExisting(listing, stored) && trace.Refused? ==>
      PlanFolder(listing, id.companionChatId.value, id.botUserId.value, trace.capacity, Some(stored.id))
      == Ok(Existing(stored.id, stored));
  }

  predicate WroteFolder(r: Result<ProvisionResult, ProvisionError>) {
    r.Ok? && !r.value.CompletedWithoutFolder?
  }

  lemma JoinedIsComplete(s: PersistedSetupState, facts: set<Fact>)
    requires Backed(s, facts)
    ensures s.stages.communityJoined ==> CommunityComplete(s.identities)
  {
  }

  // -------------------------------------------------- two runs are one run

  /** One run that wrote `planned` with `managed` merged in has this effect. */
  ghost predicate OneRun(
      folders: map<int, DialogFolder>, order: seq<int>, planned: DialogFolder, managed: seq<DialogPeer>,
      folders': map<int, DialogFolder>, order': seq<int>)
  {
    && planned.id in folders' && FolderMerged(planned, managed, folders'[planned.id])
    && folders' == folders[planned.id := folders'[planned.id]]
    && order' == Without(order, planned.id) + [planned.id]
  }

  ghost predicate AtMostOneTitled(folders: map<int, DialogFolder>) {
    forall a, b :: a in folders && b in folders && folders[a].title == FOLDER_TITLE && folders[b].title == FOLDER_TITLE ==>
      a == b
  }

  /** Merging more peers after some of them is merging them at once. */
  lemma MergingMoreIsOneMerge(
      before: DialogFolder, managed: seq<DialogPeer>, stored: DialogFolder, more: seq<DialogPeer>, after: DialogFolder)
    requires FolderMerged(before, managed, stored) && FolderMerged(stored, more, after)
    requires UniqueKeys(managed) && UniqueKeys(more) && forall p :: p in managed ==> p in more
    ensures FolderMerged(before, more, after)
  {
    hide ByKey, UniqueKeys;
    ManagedKeysGrow(managed, more);
    LaterWins(ByKey(before.included), ByKey(managed), ByKey(more));
    LaterWins(ByKey(before.pinned), ByKey(managed), ByKey(more));
  }

  lemma ManagedKeysGrow(managed: seq<DialogPeer>, more: seq<DialogPeer>)
    requires forall p :: p in managed ==> p in more
    ensures ByKey(managed).Keys <= ByKey(more).Keys
  {
    forall k | k in ByKey(managed) ensures k in ByKey(more) {
      assert ByKey(managed)[k] in more;
    }
  }

  lemma LaterWins<K, V>(a: map<K, V>, b: map<K, V>, c: map<K, V>)
    requires b.Keys <= c.Keys
    ensures a + b + c == a + c
  {
  }

  lemma ManagedGrows(
      a: PersistedSetupState, managed: seq<DialogPeer>, b: PersistedSetupState, ok: bool, more: seq<DialogPeer>)
    requires Evolves(a, b) && ManagesExactly(a, false, managed) && ManagesExactly(b, ok, more)
    ensures forall p :: p in managed ==> p in more
  {
    var x, y := a.identities, b.identities;
    var bot := BotIdentity(x.botUserId.value, x.botAccessHash.value);
    var mine := OwnPeers(x.companionChatId.value, x.companionChatAccessHash.value, bot, false, a);
    var theirs := OwnPeers(x.companionChatId.value, x.companionChatAccessHash.value, bot, ok, b);
    SamePeers(managed, mine);
    SamePeers(more, theirs);
    assert mine == theirs[..2];
  }

  lemma ManagesStays(a: PersistedSetupState, ok: bool, managed: seq<DialogPeer>, b: PersistedSetupState)
    requires Evolves(a, b) && ManagesExactly(a, ok, managed)
    requires ok ==> a.stages.communityJoined && CommunityComplete(a.identities)
    ensures ManagesExactly(b, ok, managed)
  {
  }

  lemma PlanTraceStays(
      listing: seq<DialogFolder>, recorded: Option<int>, a: PersistedSetupState, b: PersistedSetupState,
      result: ProvisionResult, capacity: FolderCapacity, folder: DialogFolder, managed: seq<DialogPeer>, more: seq<DialogPeer>)
    requires Evolves(a, b) && BotComplete(a.identities)
    requires PlanTraced(listing, recorded, a, result, Wrote(folder, managed, capacity))
    ensures PlanTraced(listing, recorded, b, result, Wrote(folder, more, capacity))
  {
    hide PlannedFrom;
  }

  /** What two runs make of a folder is what one would have made of it. */
  lemma SecondMerge(
      before: DialogFolder, first: seq<DialogPeer>, stored: DialogFolder, second: seq<DialogPeer>, after: DialogFolder,
      a: PersistedSetupState, okFirst: bool, b: PersistedSetupState, okSecond: bool)
    requires FolderMerged(before, first, stored) && FolderMerged(stored, second, after) && Evolves(a, b)
    requires ManagesExactly(a, okFirst, first) && ManagesExactly(b, okSecond, second)
    requires okFirst ==> a.stages.communityJoined && CommunityComplete(a.identities)
    ensures var both := if okSecond && !okFirst then second else first;
      ManagesExactly(b, okFirst || okSecond, both) && FolderMerged(before, both, after)
  {
    if okSecond && !okFirst {
      ManagedGrows(a, first, b, okSecond, second);
      MergingMoreIsOneMerge(before, first, stored, second, after);
    } else {
      ManagedShrinks(a, okFirst, first, b, okSecond, second);
      RemergingIsFixed(before, first, stored, second, after);
      ManagesStays(a, okFirst, first, b);
    }
  }

  /** The state file and the server's folders between two runs. */
  datatype Snapshot = Snapshot(
    state: PersistedSetupState, folders: map<int, DialogFolder>, order: seq<int>, listing: seq<DialogFolder>)

  ghost predicate Listed(s: Snapshot) {
    && UniqueIds(s.listing)
    && (forall f: DialogFolder :: f in s.listing <==> f.id in s.folders && s.folders[f.id] == f)
    && (forall id :: id in s.folders ==> s.folders[id].id == id)
  }

  ghost function Now(w: Workspace): (s: Snapshot)
    requires w.Valid()
    reads w
    ensures Listed(s)
  {
    w.ListingIsUnique();
    Snapshot(w.durable, w.folders, w.order, w.Listing())
  }

  predicate SameFolders(a: Snapshot, b: Snapshot) {
    b.folders == a.folders && b.order == a.order && b.listing == a.listing
  }

  /** What a run that reports `result` makes of `a`. */
  ghost predicate RunEffect(a: Snapshot, result: ProvisionResult, trace: FolderTrace, b: Snapshot) {
    && Evolves(a.state, b.state)
    && PlanTraced(a.listing, a.state.identities.companionFolderId, b.state, result, trace)
    && (result.CompletedWithoutFolder? <==> trace.Refused?) && (trace.Refused? || trace.Wrote?)
    && (trace.Refused? ==> SameFolders(a, b) && b.state.identities.companionFolderId == a.state.identities.companionFolderId)
    && (trace.Wrote? ==>
          && FolderRecorded(b.state, trace.folder.id) && trace.folder.regular && trace.folder.title == FOLDER_TITLE
          && ManagesExactly(b.state, result.Completed?, trace.managed)
          && OneRun(a.folders, a.order, trace.folder, trace.managed, b.folders, b.order))
    && (result.Completed? ==> b.state.stages.communityJoined && CommunityComplete(b.state.identities))
  }

  /** A run in which nothing failed. It succeeds exactly unless a folder is
      planned whose peers cannot be merged; then the plan's id is saved. */
  ghost predicate HealthyRun(a: Snapshot, r: Result<ProvisionResult, ProvisionError>, trace: FolderTrace, b: Snapshot) {
    && !trace.NoFolder? && Joined(b.state) && Evolves(a.state, b.state)
    && (HashKnown(a.state) ==> HashKnown(b.state))
    && (r.Err? <==> Unwritable(a.listing, a.state.identities.companionFolderId, b.state, true, trace.capacity))
    && (r.Err? ==>
          r.error == DialogFilterDecode && SameFolders(a, b) && b.state.identities.companionFolderId.Some?)
    && (r.Ok? ==> !r.value.CompletedWithoutCommunity? && RunEffect(a, r.value, trace, b))
  }

  lemma UnwritableStays(
      listing: seq<DialogFolder>, recorded: Option<int>, a: PersistedSetupState, b: PersistedSetupState,
      capacity: FolderCapacity)
    requires Evolves(a, b) && Joined(a)
    ensures a.identities.companionFolderId.Some? ==> b.identities.companionFolderId == a.identities.companionFolderId
    ensures Unwritable(listing, recorded, a, true, capacity) <==> Unwritable(listing, recorded, b, true, capacity)
  {
  }

  /** What was written can be merged with again. */
  lemma WrittenDecodes(
      a: Snapshot, result: ProvisionResult, trace: FolderTrace, b: Snapshot, s: PersistedSetupState, capacity: FolderCapacity)
    requires Listed(b) && RunEffect(a, result, trace, b) && trace.Wrote? && Evolves(b.state, s) && Joined(b.state)
    requires !Unwritable(a.listing, a.state.identities.companionFolderId, b.state, true, trace.capacity)
    ensures !Unwritable(b.listing, b.state.identities.companionFolderId, s, true, capacity)
  {
    hide RunEffect, PlanTraced, FolderMerged, ManagesExactly, UniqueIds, Evolves, Joined, Decodes, DistinctPeers;
    StoredByEffect(a, result, trace, b);
    EffectIsPlanned(a, result, trace, b);
    var stored := b.folders[trace.folder.id];
    MergedIsDistinct(trace.folder, trace.managed, stored);
    TracedDecodes(a.listing, a.state.identities.companionFolderId, b.state, result, trace);
    DecodingGrows(b.state, s, trace.folder, stored);
    hide Listed;
    OnlyStoredIsPlanned(b.listing, stored);
  }

  lemma TracedDecodes(
      listing: seq<DialogFolder>, recorded: Option<int>, s: PersistedSetupState, result: ProvisionResult, trace: FolderTrace)
    requires PlanTraced(listing, recorded, s, result, trace) && trace.Wrote?
    requires !Unwritable(listing, recorded, s, true, trace.capacity)
    ensures Decodes(s, true, trace.folder)
  {
    hide Decodes;
  }

  lemma DecodingGrows(a: PersistedSetupState, b: PersistedSetupState, folder: DialogFolder, stored: DialogFolder)
    requires Evolves(a, b) && Joined(a) && Decodes(a, true, folder) && DistinctPeers(stored)
    ensures Decodes(b, true, stored)
  {
    hide DistinctPeers;
  }

  lemma OnlyStoredIsPlanned(listing: seq<DialogFolder>, stored: DialogFolder)
    requires UniqueIds(listing) && stored in listing
    ensures forall chatId, botId, capacity ::
      var plan := PlanFolder(listing, chatId, botId, capacity, Some(stored.id)); plan.Ok? ==> plan.value.folder == stored
  {
    var i :| 0 <= i < |listing| && listing[i] == stored;
    FindUnique(listing, i);
  }

  lemma MergedIsDistinct(before: DialogFolder, managed: seq<DialogPeer>, after: DialogFolder)
    requires FolderMerged(before, managed, after)
    ensures DistinctPeers(after)
  {
    SortedUnique(after.included);
    SortedUnique(after.pinned);
  }

  /** What can be seen before a run: a recorded group has its hash and no folder
      of the companion's name repeats a peer. Then only a community that is the
      group itself can stop it. */
  lemma DecodesBeforehand(
      listing: seq<DialogFolder>, recorded: Option<int>, s: PersistedSetupState, capacity: FolderCapacity)
    requires HashKnown(s) && NoRepeats(listing)
    requires s.identities.communityChatId != s.identities.companionChatId
    ensures !Unwritable(listing, recorded, s, true, capacity)
  {
    if s.identities.companionChatId.Some? && BotComplete(s.identities) {
      PlanIsOwned(listing, s.identities.companionChatId.value, s.identities.botUserId.value, capacity, recorded);
      if recorded.None? {
        UnrecordedAdopt(listing, s.identities.companionChatId.value, s.identities.botUserId.value, capacity);
        UnrecordedCreate(listing, s.identities.companionChatId.value, s.identities.botUserId.value, capacity);
      }
    }
  }

  predicate NoRepeats(listing: seq<DialogFolder>) {
    forall f <- listing :: f.title == FOLDER_TITLE ==> DistinctPeers(f)
  }

  /** A run from the saved state. */
  method RunOnce(w: Workspace, botUsername: string) returns (r: Result<ProvisionResult, ProvisionError>, ghost trace: FolderTrace)
    requires w.Valid() && w.faithful
    modifies w
    ensures w.Valid() && (r.Ok? ==> RunEffect(old(Now(w)), r.value, trace, Now(w)))
    ensures w.Healthy() ==> HealthyRun(old(Now(w)), r, trace, Now(w))
    ensures !trace.NoFolder? ==> w.Answers(trace.capacity)
  {
    hide Backed, Evolves, OneGroupKept, CreatesOneAtMost, PlanTraced, FolderMerged, ManagesExactly, HoldsWorkspace, Unwritable;
    var doc := new SetupDocument(w.durable);
    DocumentFits(w, doc);
    r, trace := Provision(w, doc, botUsername);
    JoinedIsComplete(w.durable, w.facts);
  }

  /** When no two folders have the title, the one that was written is alone. */
  lemma WrittenIsAlone(a: Snapshot, result: ProvisionResult, trace: FolderTrace, b: Snapshot)
    requires Listed(a) && Listed(b) && RunEffect(a, result, trace, b) && AtMostOneTitled(a.folders) && trace.Wrote?
    ensures PlansExisting(b.listing, b.folders[trace.folder.id])
  {
    hide Evolves, ManagesExactly;
    var id := trace.folder.id;
    var chatId, botId := b.state.identities.companionChatId.value, b.state.identities.botUserId.value;
    var recorded := a.state.identities.companionFolderId;
    var plan := PlanFolder(a.listing, chatId, botId, trace.capacity, recorded);
    PlanIsOwned(a.listing, chatId, botId, trace.capacity, recorded);
    if recorded.None? {
      UnrecordedCreate(a.listing, chatId, botId, trace.capacity);
      UnrecordedAdopt(a.listing, chatId, botId, trace.capacity);
    }
    assert plan.value.Existing? ==> trace.folder in a.listing;
    assert AloneUnderTitle(b.folders, id);
    AlonePlansExisting(b.listing, b.folders[id]);
  }

  lemma AlonePlansExisting(listing: seq<DialogFolder>, stored: DialogFolder)
    requires UniqueIds(listing) && stored in listing && OnlyOwnTitle(listing, stored.id)
    requires stored.regular && stored.title == FOLDER_TITLE
    ensures PlansExisting(listing, stored)
  {
    var i :| 0 <= i < |listing| && listing[i] == stored;
    forall chatId, botId, capacity
      ensures PlanFolder(listing, chatId, botId, capacity, Some(stored.id)) == Ok(Existing(stored.id, stored))
    {
      ReplannedIff(listing, i, chatId, botId, capacity);
    }
  }

  /** The one run that two runs amount to: the community is in it when either
      of them had it. */
  function BothRuns(r1: ProvisionResult, t1: FolderTrace, r2: ProvisionResult, t2: FolderTrace): FolderTrace
    requires t1.Wrote?
  {
    if t2.Wrote? && r2.Completed? && !r1.Completed? then t1.(managed := t2.managed) else t1
  }

  lemma TwoRunsAreOne(
      a: Snapshot, r1: ProvisionResult, t1: FolderTrace, b: Snapshot, r2: ProvisionResult, t2: FolderTrace, c: Snapshot)
    requires Listed(b) && RunEffect(a, r1, t1, b) && RunEffect(b, r2, t2, c) && t1.Wrote?
    ensures var one := BothRuns(r1, t1, r2, t2);
      && FolderRecorded(c.state, one.folder.id)
      && PlanTraced(a.listing, a.state.identities.companionFolderId, c.state, r1, one)
      && ManagesExactly(c.state, r1.Completed? || r2.Completed?, one.managed)
      && OneRun(a.folders, a.order, one.folder, one.managed, c.folders, c.order)
  {
    hide RunEffect, PlanTraced, FolderMerged, Evolves, UniqueIds, ManagesExactly, Without;
    StoredByEffect(a, r1, t1, b);
    var one, stored := BothRuns(r1, t1, r2, t2), b.folders[t1.folder.id];
    EffectIsPlanned(a, r1, t1, b);
    EffectIsPlanned(b, r2, t2, c);
    ManagedAreRecorded(b.state, r1.Completed?, t1.managed);
    PlanTraceStays(
      a.listing, a.state.identities.companionFolderId, b.state, c.state, r1, t1.capacity, t1.folder, t1.managed, one.managed);
    PlannedIsStored(b.listing, stored, c.state, r2, t2);
    if t2.Wrote? {
      StoredByEffect(b, r2, t2, c);
      SecondMerge(
        t1.folder, t1.managed, stored, t2.managed, c.folders[stored.id],
        b.state, r1.Completed?, c.state, r2.Completed?);
    } else {
      ManagesStays(b.state, r1.Completed?, t1.managed, c.state);
    }
  }

  /** Two runs in a row over a faithful server, whatever else it answers. When
      the first wrote its folder and the second ends well, folders and order are
      what one run would have made of them: `trace` is that run. The community
      is in it when either run had it. And a second run is never refused a
      folder unless two folders had the title to begin with. */
  method ProvisionTwice(w: Workspace, botUsername: string)
    returns (
      first: Result<ProvisionResult, ProvisionError>, second: Result<ProvisionResult, ProvisionError>,
      ghost trace: FolderTrace, ghost limits: (FolderCapacity, FolderCapacity))
    requires w.Valid() && w.faithful
    modifies w
    ensures w.Valid()
    // When nothing fails, a run succeeds exactly unless a folder is planned whose
    // peers cannot be merged, and after one that wrote its folder the next one
    // succeeds.
    ensures w.Healthy() ==> w.Answers(limits.0) && w.Answers(limits.1)
    ensures w.Healthy() ==>
      (first.Err? <==>
        Unwritable(old(w.Listing()), old(w.durable).identities.companionFolderId, w.durable, true, limits.0))
    ensures w.Healthy() && WroteFolder(first) ==> second.Ok?
    ensures w.Healthy() && !WroteFolder(first) ==>
      (second.Err? <==>
        Unwritable(old(w.Listing()), RecordedAfter(first, old(w.durable), w.durable), w.durable, true, limits.1))
    ensures w.Healthy() && first.Err? ==> first.error == DialogFilterDecode
    ensures w.Healthy() && second.Err? ==> second.error == DialogFilterDecode
    // Nothing of this can happen as far as it can be seen beforehand.
    ensures w.Healthy() && HashKnown(old(w.durable)) && NoRepeats(old(w.Listing())) ==>
      w.durable.identities.communityChatId != w.durable.identities.companionChatId ==> first.Ok? && second.Ok?
    ensures WroteFolder(first) && second.Ok? ==>
      && trace.Wrote? && FolderRecorded(w.durable, trace.folder.id)
      && PlanTraced(old(w.Listing()), old(w.durable).identities.companionFolderId, w.durable, first.value, trace)
      && ManagesExactly(w.durable, first.value.Completed? || second.value.Completed?, trace.managed)
      && OneRun(old(w.folders), old(w.order), trace.folder, trace.managed, w.folders, w.order)
    ensures WroteFolder(first) && second.Ok? && AtMostOneTitled(old(w.folders)) ==> WroteFolder(second)
  {
    hide RunEffect, AtMostOneTitled, PlanTraced, ManagesExactly, OneRun, Unwritable, NoRepeats, HealthyRun;
    ghost var a, t1, t2 := Now(w), NoFolder, NoFolder;
    first, t1 := RunOnce(w, botUsername);
    ghost var b := Now(w);
    second, t2 := RunOnce(w, botUsername);
    trace := NoFolder;
    limits := (CapacityOf(t1), CapacityOf(t2));
    if w.Healthy() {
      SecondSucceedsIff(a, first, t1, b, second, t2, Now(w));
    }
    if first.Ok? && second.Ok? {
      ghost var c := Now(w);
      EffectWrote(a, first.value, t1, b);
      if t1.Wrote? {
        trace := BothRuns(first.value, t1, second.value, t2);
        TwoRunsAreOne(a, first.value, t1, b, second.value, t2, c);
        if AtMostOneTitled(a.folders) {
          SecondIsNotRefused(a, first.value, t1, b, second.value, t2, c);
        }
      }
    }
  }

  /** What becomes of a second run after one in which nothing failed. */
  lemma SecondSucceedsIff(
      a: Snapshot, first: Result<ProvisionResult, ProvisionError>, t1: FolderTrace, b: Snapshot,
      second: Result<ProvisionResult, ProvisionError>, t2: FolderTrace, c: Snapshot)
    requires Listed(b) && HealthyRun(a, first, t1, b) && HealthyRun(b, second, t2, c)
    ensures !t1.NoFolder? && !t2.NoFolder?
    ensures first.Err? ==> first.error == DialogFilterDecode
    ensures second.Err? ==> second.error == DialogFilterDecode
    ensures first.Err? <==> Unwritable(a.listing, a.state.identities.companionFolderId, c.state, true, t1.capacity)
    ensures WroteFolder(first) ==> second.Ok?
    ensures !WroteFolder(first) ==>
      (second.Err? <==>
        Unwritable(a.listing, RecordedAfter(first, a.state, c.state), c.state, true, t2.capacity))
    ensures HashKnown(a.state) && NoRepeats(a.listing) ==>
      c.state.identities.communityChatId != c.state.identities.companionChatId ==> first.Ok? && second.Ok?
  {
    hide Unwritable, Joined, NoRepeats, Evolves, PlanTraced, ManagesExactly, OneRun;
    var recorded := a.state.identities.companionFolderId;
    UnwritableStays(a.listing, recorded, b.state, c.state, t1.capacity);
    if WroteFolder(first) {
      WrittenDecodes(a, first.value, t1, b, c.state, t2.capacity);
    }
    if HashKnown(a.state) && NoRepeats(a.listing) && c.state.identities.communityChatId != c.state.identities.companionChatId {
      DecodesBeforehand(a.listing, recorded, c.state, t1.capacity);
      DecodesBeforehand(a.listing, RecordedAfter(first, a.state, c.state), c.state, t2.capacity);
    }
  }

  /** The folder id on record when the second run starts: a run that stops after
      planning has saved it, one that is refused has not. */
  function RecordedAfter(
      first: Result<ProvisionResult, ProvisionError>, before: PersistedSetupState, after: PersistedSetupState): Option<int>
  {
    if first.Ok? then before.identities.companionFolderId else after.identities.companionFolderId
  }

  /** A second run, while no other folder has the title: it is not refused, it
      plans the stored folder under the id it has, and unless it adds the
      community it writes back the identical folder in the identical order. */
  lemma SecondRunIsIdle(
      a: Snapshot, r1: ProvisionResult, t1: FolderTrace, b: Snapshot, r2: ProvisionResult, t2: FolderTrace, c: Snapshot)
    requires Listed(b) && RunEffect(a, r1, t1, b) && RunEffect(b, r2, t2, c)
    requires t1.Wrote? && AloneUnderTitle(b.folders, t1.folder.id)
    ensures t1.folder.id in b.folders
    ensures var stored := b.folders[t1.folder.id];
      && PlansExisting(b.listing, stored) && !r2.CompletedWithoutFolder? && t2.folder == stored
      && FolderRecorded(c.state, stored.id)
      && ((r2.Completed? ==> r1.Completed?) ==> c.folders == b.folders && c.order == b.order)
  {
    hide RunEffect, PlanTraced, FolderMerged, Evolves, PlansExisting, UniqueIds, ManagesExactly, AloneUnderTitle;
    StoredByEffect(a, r1, t1, b);
    var stored := b.folders[t1.folder.id];
    EffectIsPlanned(b, r2, t2, c);
    PlannedIsStored(b.listing, stored, c.state, r2, t2);
    StoredByEffect(b, r2, t2, c);
    if r2.Completed? ==> r1.Completed? {
      ManagedShrinks(b.state, r1.Completed?, t1.managed, c.state, r2.Completed?, t2.managed);
      ManagedAreRecorded(b.state, r1.Completed?, t1.managed);
      ManagedAreRecorded(c.state, r2.Completed?, t2.managed);
      RemergingIsFixed(t1.folder, t1.managed, stored, t2.managed, c.folders[stored.id]);
    }
  }

  lemma StoredByEffect(a: Snapshot, result: ProvisionResult, trace: FolderTrace, b: Snapshot)
    requires RunEffect(a, result, trace, b) && trace.Wrote?
    ensures var id := trace.folder.id;
      && id in b.folders && FolderMerged(trace.folder, trace.managed, b.folders[id])
      && FolderRecorded(b.state, id) && ManagesExactly(b.state, result.Completed?, trace.managed)
      && (result.Completed? ==> b.state.stages.communityJoined && CommunityComplete(b.state.identities))
      && b.folders == a.folders[id := b.folders[id]] && b.order == Without(a.order, id) + [id]
      && Without(b.order, id) + [id] == b.order
    ensures Listed(b) ==> var stored := b.folders[trace.folder.id];
      stored in b.listing && stored.id == trace.folder.id && UniqueIds(b.listing)
    ensures Listed(b) && AloneUnderTitle(b.folders, trace.folder.id) ==> PlansExisting(b.listing, b.folders[trace.folder.id])
  {
    hide PlanTraced, ManagesExactly, Evolves;
    OrderIsStable(a.order, trace.folder.id);
    if Listed(b) && AloneUnderTitle(b.folders, trace.folder.id) {
      AlonePlansExisting(b.listing, b.folders[trace.folder.id]);
    }
  }

  lemma EffectIsPlanned(a: Snapshot, result: ProvisionResult, trace: FolderTrace, b: Snapshot)
    requires RunEffect(a, result, trace, b)
    ensures Evolves(a.state, b.state)
    ensures PlanTraced(a.listing, a.state.identities.companionFolderId, b.state, result, trace)
    ensures (result.CompletedWithoutFolder? <==> trace.Refused?) && (trace.Refused? || trace.Wrote?)
    ensures trace.Refused? ==> b.folders == a.folders && b.order == a.order
    ensures a.state.identities.companionFolderId.Some? ==>
      b.state.identities.companionFolderId == a.state.identities.companionFolderId
  {
    hide PlanTraced;
  }

  lemma EffectWrote(a: Snapshot, result: ProvisionResult, trace: FolderTrace, b: Snapshot)
    requires RunEffect(a, result, trace, b)
    ensures !result.CompletedWithoutFolder? <==> trace.Wrote?
  {
  }

  lemma SecondIsNotRefused(
      a: Snapshot, r1: ProvisionResult, t1: FolderTrace, b: Snapshot, r2: ProvisionResult, t2: FolderTrace, c: Snapshot)
    requires Listed(a) && Listed(b) && RunEffect(a, r1, t1, b) && RunEffect(b, r2, t2, c)
    requires t1.Wrote? && AtMostOneTitled(a.folders)
    ensures !r2.CompletedWithoutFolder?
  {
    WrittenIsAlone(a, r1, t1, b);
    hide PlanTraced, FolderMerged, ManagesExactly, Evolves, PlansExisting, UniqueIds;
    PlannedIsStored(b.listing, b.folders[t1.folder.id], c.state, r2, t2);
  }

  lemma ManagedAreRecorded(s: PersistedSetupState, ok: bool, managed: seq<DialogPeer>)
    requires ManagesExactly(s, ok, managed)
    ensures BotComplete(s.identities) && UniqueKeys(managed)
  {
  }
}
