/** The BotFather conversation as it is really held, one message per reply, and
    the ordered durable writes that end it (src/setup_telegram.rs). */
module CompanionSetup {
  import opened Basics
  import opened SetupConversation
  import opened SetupState
  import opened SetupStore
  import Utf

  const DISPLAY_NAME := "Lavis — really your userbot"

  datatype Step = AtCancel | AtNewBot | AtDisplayName | AtUsername | AtComplete

  datatype Progress =
    | StillPending
    | NameOccupied
    | NameInvalid
    | BotLimitReached
    | MustWait
    | NotUnderstood
    | ProvisionReady

  datatype TelegramError = SendFailed | BotApiFailed | StorageFailed | UsernameMismatch

  /** A BotFather reply as its text is read. */
  datatype Reply = Reply(response: BotFatherResponse, asksForName: bool, asksForUsername: bool)

  /** The four messages of one conversation, in order. */
  function Script(username: Username): seq<string> {
    ["/cancel", "/newbot", DISPLAY_NAME, username.display]
  }

  /** How many of them have been attempted when a step is reached. */
  function Attempted(step: Step): nat {
    match step
    case AtCancel => 0
    case AtNewBot => 2
    case AtDisplayName => 3
    case AtUsername => 4
    case AtComplete => 4
  }

  /** What a reply makes the conversation send. */
  function Sends(step: Step, username: Username, reply: Reply): seq<string> {
    if reply.response.LimitReached? || reply.response.FloodWait? then []
    else
      match step
      case AtCancel => ["/newbot"]
      case AtNewBot => if reply.asksForName then [DISPLAY_NAME] else []
      case AtDisplayName => if reply.asksForUsername then [username.display] else []
      case _ => []
  }

  /** The step after a reply that does not complete the conversation. */
  function StepAfter(step: Step, reply: Reply): Step {
    if reply.response.LimitReached? || reply.response.FloodWait? then step
    else
      match step
      case AtCancel => AtNewBot
      case AtNewBot => if reply.asksForName then AtDisplayName else step
      case AtDisplayName => if reply.asksForUsername then AtUsername else step
      case _ => step
  }

  /** What is reported when nothing fails. */
  function ProgressOf(step: Step, reply: Reply): Progress {
    if reply.response.LimitReached? then BotLimitReached
    else if reply.response.FloodWait? then MustWait
    else if step.AtComplete? then ProvisionReady
    else if !step.AtUsername? then StillPending
    else
      match reply.response
      case Success(_) => ProvisionReady
      case UsernameOccupied => NameOccupied
      case UsernameInvalid => NameInvalid
      case _ => NotUnderstood
  }

  /** The whole table of replies. Limit and flood end it at every step; each
      prompt is answered once, at its own step; after the username only a success
      makes it ready. */
  lemma RepliesMean(step: Step, username: Username, reply: Reply)
    ensures var sends, next, told := Sends(step, username, reply), StepAfter(step, reply), ProgressOf(step, reply);
      if reply.response == LimitReached then sends == [] && next == step && told == BotLimitReached
      else if reply.response == FloodWait then sends == [] && next == step && told == MustWait
      else
        match step
        case AtCancel => sends == ["/newbot"] && next == AtNewBot && told == StillPending
        case AtNewBot =>
          && told == StillPending
          && (if reply.asksForName then sends == ["Lavis — really your userbot"] && next == AtDisplayName
              else sends == [] && next == AtNewBot)
        case AtDisplayName =>
          && told == StillPending
          && (if reply.asksForUsername then sends == [username.display] && next == AtUsername
              else sends == [] && next == AtDisplayName)
        case AtUsername =>
          && sends == [] && next == AtUsername
          && (told == ProvisionReady <==> reply.response.Success?)
          && (told == NameOccupied <==> reply.response == UsernameOccupied)
          && (told == NameInvalid <==> reply.response == UsernameInvalid)
          && (told == NotUnderstood <==> reply.response == Unexpected)
        case AtComplete => sends == [] && next == AtComplete && told == ProvisionReady
  {
  }

  /** The four messages, and how many of them a step has behind it. */
  lemma ScriptIs(username: Username)
    ensures Script(username) == ["/cancel", "/newbot", "Lavis — really your userbot", username.display]
    ensures Attempted(AtCancel) == 0 && Attempted(AtNewBot) == 2 && Attempted(AtDisplayName) == 3
    ensures Attempted(AtUsername) == 4 && Attempted(AtComplete) == 4
  {
  }

  class BotFatherChat {
    const delivers: nat -> bool
    var attempts: seq<string>

    constructor (delivers: nat -> bool)
      ensures attempts == [] && this.delivers == delivers
    {
      this.delivers, attempts := delivers, [];
    }

    method Send(text: string) returns (ok: bool)
      modifies this
      ensures attempts == old(attempts) + [text] && ok == delivers(|old(attempts)|)
    {
      ok := delivers(|attempts|);
      attempts := attempts + [text];
    }
  }

  // ------------------------------------------------------- durable evidence

  /** What the Bot API confirmed a token to be. */
  datatype Verified = Verified(token: string, id: int, username: string)

  /** The two durable documents, as far as they are whole. */
  datatype Durable = Durable(state: Option<PersistedSetupState>, token: Option<string>)

  function DurableOf(files: map<Path, File>): Durable {
    Durable(
      if StatePath in files && files[StatePath].Whole? && files[StatePath].document.StateDocument?
      then Some(files[StatePath].document.state) else None,
      if TokenPath in files && files[TokenPath].Whole? && files[TokenPath].document.TokenDocument?
      then Some(files[TokenPath].document.token) else None)
  }

  lemma StateSavedOrNot(before: map<Path, File>, state: PersistedSetupState, after: map<Path, File>)
    requires SavedOrNot(before, StatePath, StateDocument(state), after)
    ensures DurableOf(after) == DurableOf(before) || DurableOf(after) == DurableOf(before).(state := Some(state))
  {
    assert SameDocument(before, after, TokenPath);
  }

  lemma TokenSavedOrNot(before: map<Path, File>, token: string, after: map<Path, File>)
    requires SavedOrNot(before, TokenPath, TokenDocument(token), after)
    ensures DurableOf(after) == DurableOf(before) || DurableOf(after) == DurableOf(before).(token := Some(token))
  {
    assert SameDocument(before, after, StatePath);
  }

  predicate BotCreated(d: Durable) {
    d.state.Some? && d.state.value.stages.botCreated
  }

  /** A durable "bot created" is backed: identity and token are durable and the
      Bot API confirmed that this token is that bot. */
  ghost predicate Sound(d: Durable, verified: set<Verified>) {
    BotCreated(d) ==>
      var id := d.state.value.identities;
      && d.state.value.stages.botIdentityRecorded
      && d.token.Some? && id.botUserId.Some? && id.botUsername.Some?
      && Verified(d.token.value, id.botUserId.value, id.botUsername.value) in verified
  }

  /** A token belongs to one bot. */
  ghost predicate TokensIdentify(verified: set<Verified>) {
    forall a, b :: a in verified && b in verified && a.token == b.token ==> a == b
  }

  function WithIdentity(s: PersistedSetupState, id: int, username: string): PersistedSetupState {
    s.(identities := s.identities.(botUsername := Some(username), botUserId := Some(id)),
       stages := s.stages.(botIdentityRecorded := true))
  }

  function WithBotCreated(s: PersistedSetupState): PersistedSetupState {
    s.(status := "bot_validated", stages := s.stages.(botCreated := true))
  }

  function StoredOrDefault(d: Durable): PersistedSetupState {
    if d.state.Some? then d.state.value else DEFAULT_STATE
  }

  /** The durable states which the three writes pass through, in order. */
  function WritePath(d: Durable, v: Verified): seq<Durable> {
    var recorded := WithIdentity(StoredOrDefault(d), v.id, v.username);
    [ d,
      Durable(Some(recorded), d.token),
      Durable(Some(recorded), Some(v.token)),
      Durable(Some(WithBotCreated(recorded)), Some(v.token)) ]
  }

  /** The three writes, field by field: the identity with its flag, then the
      token, then "bot created" with its status; nothing else ever changes. */
  lemma WritesMean(d: Durable, v: Verified)
    ensures var path, stored := WritePath(d, v), if d.state.Some? then d.state.value else DEFAULT_STATE;
      && |path| == 4 && path[0] == d
      && path[1].token == d.token && path[2].token == path[3].token == Some(v.token)
      && path[1].state == path[2].state && path[1].state.Some? && path[3].state.Some?
      && var first, last := path[1].state.value, path[3].state.value;
        && first.status == stored.status && last.status == "bot_validated"
        && first.stages == stored.stages.(botIdentityRecorded := true)
        && last.stages == stored.stages.(botIdentityRecorded := true, botCreated := true)
        && first.identities == last.identities
        && first.identities == stored.identities.(botUsername := Some(v.username), botUserId := Some(v.id))
  {
  }

  /** The first setup ever leaves exactly this document. */
  lemma FirstSetupIs(v: Verified)
    ensures WritePath(Durable(None, None), v)[3] == Durable(
      Some(PersistedSetupState(
        SetupStages(true, true, false, false, false, false, false, false, false, false, false),
        "bot_validated",
        SetupIdentities(Some(v.username), Some(v.id), None, None, None, None, None, None, None, None, None))),
      Some(v.token))
  {
  }

  /** Every state on the way is sound exactly when no bot was marked created
      before, or it was this very bot. */
  lemma WritePathSoundIff(d: Durable, v: Verified, verified: set<Verified>)
    requires v in verified && TokensIdentify(verified) && Sound(d, verified)
    ensures (forall k :: 0 <= k < 4 ==> Sound(WritePath(d, v)[k], verified)) <==>
      (BotCreated(d) ==>
        d.state.value.identities.botUserId == Some(v.id) && d.state.value.identities.botUsername == Some(v.username))
  {
    var path := WritePath(d, v);
    assert Sound(path[2], verified) && Sound(path[3], verified);
    if BotCreated(d) {
      var id := d.state.value.identities;
      var before := Verified(d.token.value, id.botUserId.value, id.botUsername.value);
      assert Sound(path[1], verified) <==> Verified(d.token.value, v.id, v.username) in verified;
      assert Verified(d.token.value, v.id, v.username) in verified ==> Verified(d.token.value, v.id, v.username) == before;
    }
  }

  // ------------------------------------------------------------ conversation

  /** `get_me`: what the Bot API says of a token, if it answers. */
  datatype Answer = Answer(id: int, username: string) | NoAnswer

  predicate TokenAcceptable(token: string) {
    && 1 <= |token| && Utf.ByteLength(token) <= 512
    && forall c <- token :: c != '\n' && c != '\r' && c != '\0'
  }

  /** One to 512 bytes without a line break or a NUL. */
  lemma TokenAcceptableMeans(token: string)
    ensures TokenAcceptable(token) <==>
      1 <= Utf.ByteLength(token) <= 512 && forall c <- token :: c as int != 10 && c as int != 13 && c as int != 0
  {
    Utf.UnitsBounds(token);
    assert token == "" ==> Utf.ByteLength(token) == 0;
  }

  /** Nothing but the store can stop this token from being persisted. */
  ghost predicate Ready(username: Username, files: map<Path, File>, dead: bool, token: string, answer: Answer) {
    && !dead && NoTemporaries(files) && !LoadOf(files).Unreadable?
    && TokenAcceptable(token) && answer.Answer?
    && ToAsciiLower(answer.username) == ToAsciiLower(username.normalized)
  }

  /** All operations of the write path work, but for its last sync perhaps. */
  ghost predicate AllWork(fate: nat -> Fate, from: nat) {
    WorksFor(fate, from, 17)
  }

  /** The process dies at the sync of the first write. */
  ghost predicate DiesAtFirstSync(fate: nat -> Fate, from: nat) {
    WorksFor(fate, from, 6) && fate(from + 6).Dies?
  }

  /** What becomes of a token that is ready: all three writes are there when all
      operations work, only the first one when the process dies at its sync. */
  twostate predicate PersistsExactly(store: Store, username: Username, token: string, answer: Answer)
    reads store
  {
    Ready(username, old(store.files), old(store.dead), token, answer) ==>
      var path := WritePath(DurableOf(old(store.files)), Verified(token, answer.id, answer.username));
      && (AllWork(store.fate, old(store.clock)) ==>
            && DurableOf(store.files) == path[3] && NoTemporaries(store.files)
            && store.clock == old(store.clock) + 18
            && store.dead == store.fate(old(store.clock) + 17).Dies?)
      && (DiesAtFirstSync(store.fate, old(store.clock)) ==> store.dead && DurableOf(store.files) == path[1])
  }

  /** Readiness is reported exactly when the last sync works as well. */
  twostate predicate ReadyWhenDurable(store: Store, username: Username, token: string, answer: Answer, ready: bool)
    reads store
  {
    Ready(username, old(store.files), old(store.dead), token, answer) && AllWork(store.fate, old(store.clock)) ==>
      (ready <==> store.fate(old(store.clock) + 17).Works?)
  }

  /** The store has not been used. */
  twostate predicate Unused(store: Store)
    reads store
  {
    && store.files == old(store.files) && store.clock == old(store.clock)
    && store.dead == old(store.dead) && store.counter == old(store.counter)
  }

  class Conversation {
    const username: Username
    var step: Step

    constructor (username: Username)
      ensures this.username == username && step == AtCancel
    {
      this.username, step := username, AtCancel;
    }

    /** Exactly the messages up to the current step were attempted. */
    ghost predicate InStep(chat: BotFatherChat) reads this, chat {
      chat.attempts == Script(username)[..Attempted(step)]
    }

    /** Cancelling a stale flow is best effort; the new one starts anyway. */
    method Start(chat: BotFatherChat) returns (ok: bool)
      modifies this`step, chat
      ensures step == AtNewBot && chat.attempts == old(chat.attempts) + ["/cancel", "/newbot"]
      ensures ok == chat.delivers(|old(chat.attempts)| + 1)
    {
      var ignored := chat.Send("/cancel");
      step := AtNewBot;
      ok := chat.Send("/newbot");
    }

    /** One BotFather reply: at most one message is sent, the step only moves
        forward, and the disk ends on the write path of the confirmed bot. */
    method OnBotFatherReply(reply: Reply, chat: BotFatherChat, store: Store, answer: Answer)
      returns (r: Result<Progress, TelegramError>, ghost stage: nat)
      modifies this`step, chat, store`files, store`counter, store`clock, store`dead
      ensures chat.attempts == old(chat.attempts) + Sends(old(step), username, reply)
      ensures step == if r == Ok(ProvisionReady) then AtComplete else StepAfter(old(step), reply)
      ensures r.Ok? ==> r.value == ProgressOf(old(step), reply)
      ensures r == Err(SendFailed) <==> Sends(old(step), username, reply) != [] && !chat.delivers(|old(chat.attempts)|)
      ensures r.Err? && r.error != SendFailed ==> old(step) == AtUsername && reply.response.Success?
      ensures old(step) != AtCancel && old(InStep(chat)) ==> InStep(chat)
      ensures EndsOnWritePath(old(store.files), store.files, reply, answer, stage)
      ensures stage > 0 ==> old(step) == AtUsername && ConfirmsUsername(username, reply, answer)
      ensures r == Ok(ProvisionReady) && old(step) == AtUsername ==> stage == 3
      ensures old(step) == AtUsername && reply.response.Success? ==>
        ReadyWhenDurable(store, username, reply.response.token, answer, r == Ok(ProvisionReady))
      ensures if old(step) == AtUsername && reply.response.Success?
        then PersistsExactly(store, username, reply.response.token, answer) else Unused(store)
    {
      stage := 0;
      if reply.response.LimitReached? {
        return Ok(BotLimitReached), stage;
      }
      if reply.response.FloodWait? {
        return Ok(MustWait), stage;
      }
      match step {
        case AtCancel =>
          step := AtNewBot;
          var sent := chat.Send("/newbot");
          r := if sent then Ok(StillPending) else Err(SendFailed);
        case AtNewBot =>
          var sent := true;
          if reply.asksForName {
            step := AtDisplayName;
            sent := chat.Send(DISPLAY_NAME);
          }
          r := if sent then Ok(StillPending) else Err(SendFailed);
        case AtDisplayName =>
          var sent := true;
          if reply.asksForUsername {
            step := AtUsername;
            sent := chat.Send(username.display);
          }
          r := if sent then Ok(StillPending) else Err(SendFailed);
        case AtUsername =>
          r, stage := OnUsernameReply(reply.response, store, answer);
          if r == Ok(ProvisionReady) {
            step := AtComplete;
          }
        case AtComplete =>
          r := Ok(ProvisionReady);
      }
    }

    method OnUsernameReply(response: BotFatherResponse, store: Store, answer: Answer)
      returns (r: Result<Progress, TelegramError>, ghost stage: nat)
      modifies store`files, store`counter, store`clock, store`dead
      ensures r.Ok? ==> r.value == ProgressOf(AtUsername, Reply(response, false, false))
      ensures r.Err? ==> r.error != SendFailed && response.Success?
      ensures EndsOnWritePath(old(store.files), store.files, Reply(response, false, false), answer, stage)
      ensures stage > 0 ==> ConfirmsUsername(username, Reply(response, false, false), answer)
      ensures r == Ok(ProvisionReady) ==> stage == 3
      ensures response.Success? ==> ReadyWhenDurable(store, username, response.token, answer, r == Ok(ProvisionReady))
      ensures if response.Success? then PersistsExactly(store, username, response.token, answer) else Unused(store)
    {
      stage := 0;
      match response {
        case Success(token) =>
          var persisted;
          persisted, stage := ValidateAndPersist(store, token, answer);
          r := if persisted.Ok? then Ok(ProvisionReady) else Err(persisted.error);
        case UsernameOccupied => r := Ok(NameOccupied);
        case UsernameInvalid => r := Ok(NameInvalid);
        case LimitReached => r := Ok(BotLimitReached);
        case FloodWait => r := Ok(MustWait);
        case Unexpected => r := Ok(NotUnderstood);
      }
    }

    /** Checks the token with the Bot API, then writes identity, token and flag
        in this order. `stage` is how many of the writes became durable. */
    method ValidateAndPersist(store: Store, token: string, answer: Answer)
      returns (r: Result<(), TelegramError>, ghost stage: nat)
      modifies store`files, store`counter, store`clock, store`dead
      ensures stage < 4
      ensures stage > 0 ==> answer.Answer? && ToAsciiLower(answer.username) == ToAsciiLower(username.normalized)
      ensures answer.Answer? ==>
        DurableOf(store.files) == WritePath(DurableOf(old(store.files)), Verified(token, answer.id, answer.username))[stage]
      ensures answer.NoAnswer? ==> store.files == old(store.files)
      ensures r.Ok? ==> stage == 3 && answer.Answer? && TokenAcceptable(token)
      // Refused before the store is touched, and why.
      ensures
        if !TokenAcceptable(token) then r == Err(StorageFailed) && Unused(store)
        else if answer.NoAnswer? then r == Err(BotApiFailed) && Unused(store)
        else if ToAsciiLower(answer.username) != ToAsciiLower(username.normalized) then
          r == Err(UsernameMismatch) && Unused(store)
        else r.Ok? || r.error == StorageFailed
      ensures r.Err? && r.error != StorageFailed ==> stage == 0
      ensures r.Err? ==> r.error != SendFailed
      ensures PersistsExactly(store, username, token, answer)
      ensures ReadyWhenDurable(store, username, token, answer, r.Ok?)
    {
      stage := 0;
      if !TokenAcceptable(token) {
        return Err(StorageFailed), stage;
      }
      if answer.NoAnswer? {
        return Err(BotApiFailed), stage;
      }
      if ToAsciiLower(answer.username) != ToAsciiLower(username.normalized) {
        return Err(UsernameMismatch), stage;
      }
      store.counter := 0;
      var loaded := store.LoadState();
      if loaded.Unreadable? {
        return Err(StorageFailed), stage;
      }
      var saved;
      saved, stage := WriteBot(
        store, Verified(token, answer.id, answer.username), if loaded.Loaded? then loaded.state else DEFAULT_STATE);
      return if saved then Ok(()) else Err(StorageFailed), stage;
    }

    /** The three writes: identity, then token, then flag. */
    static method WriteBot(store: Store, bot: Verified, stored: PersistedSetupState)
      returns (saved: bool, ghost stage: nat)
      requires stored == StoredOrDefault(DurableOf(store.files))
      modifies store`files, store`counter, store`clock, store`dead
      ensures stage < 4 && DurableOf(store.files) == WritePath(DurableOf(old(store.files)), bot)[stage]
      ensures saved ==> stage == 3
      ensures (!old(store.dead) && NoTemporaries(old(store.files)) && WorksFor(store.fate, old(store.clock), 16)) ==>
        && stage == 3 && NoTemporaries(store.files) && store.clock == old(store.clock) + 17
        && saved == store.fate(old(store.clock) + 16).Works? && store.dead == store.fate(old(store.clock) + 16).Dies?
      ensures (&& !old(store.dead) && NoTemporaries(old(store.files))
               && WorksFor(store.fate, old(store.clock), 5) && store.fate(old(store.clock) + 5).Dies?) ==>
        store.dead && DurableOf(store.files) == WritePath(DurableOf(old(store.files)), bot)[1]
    {
      hide WithIdentity, WithBotCreated, StoredOrDefault;
      ghost var before, files := DurableOf(store.files), store.files;
      var state := WithIdentity(stored, bot.id, bot.username);
      saved := store.SaveState(state);
      StateSavedOrNot(files, state, store.files);
      stage := if DurableOf(store.files) == before.(state := Some(state)) then 1 else 0;
      if !saved {
        return;
      }
      files := store.files;
      saved := store.SaveToken(bot.token);
      TokenSavedOrNot(files, bot.token, store.files);
      stage := if DurableOf(store.files).token == Some(bot.token) then 2 else 1;
      if !saved {
        return;
      }
      files := store.files;
      saved := store.SaveState(WithBotCreated(state));
      StateSavedOrNot(files, WithBotCreated(state), store.files);
      stage := if DurableOf(store.files).state == Some(WithBotCreated(state)) then 3 else 2;
    }
  }

  /** The reply brings a token which the Bot API says is the bot asked for. */
  predicate ConfirmsUsername(username: Username, reply: Reply, answer: Answer) {
    && reply.response.Success? && answer.Answer?
    && ToAsciiLower(answer.username) == ToAsciiLower(username.normalized)
  }

  ghost predicate EndsOnWritePath(
      before: map<Path, File>, after: map<Path, File>, reply: Reply, answer: Answer, stage: nat)
  {
    if reply.response.Success? && answer.Answer? then
      stage < 4 && DurableOf(after) ==
        WritePath(DurableOf(before), Verified(reply.response.token, answer.id, answer.username))[stage]
    else DurableOf(after) == DurableOf(before)
  }

  /** Every confirmed success reply is for a bot that the Bot API vouches for. */
  ghost predicate Vouched(username: Username, replies: seq<(Reply, Answer)>, verified: set<Verified>) {
    forall x <- replies :: ConfirmsUsername(username, x.0, x.1) ==>
      Verified(x.0.response.token, x.1.id, x.1.username) in verified
  }

  /** A bot marked created on disk is the bot of every confirmed success reply. */
  ghost predicate CreatedMatches(d: Durable, username: Username, replies: seq<(Reply, Answer)>) {
    BotCreated(d) ==> forall x <- replies :: ConfirmsUsername(username, x.0, x.1) ==>
      d.state.value.identities.botUserId == Some(x.1.id) && d.state.value.identities.botUsername == Some(x.1.username)
  }

  /** All confirmed success replies are for one bot, which is also the created
      one on disk if there is one. */
  ghost predicate SameBotThroughout(files: map<Path, File>, username: Username, replies: seq<(Reply, Answer)>) {
    && CreatedMatches(DurableOf(files), username, replies)
    && forall x, y :: x in replies && y in replies ==>
         ConfirmsUsername(username, x.0, x.1) && ConfirmsUsername(username, y.0, y.1) ==> x.1 == y.1
  }

  /** A whole conversation: one start, then any replies, going on whatever is
      reported. The messages attempted are a prefix of the script; and as long
      as no bot was marked created before, or every reply that passes the check
      of the username is for that same bot, each state the disk can be left in
      is sound. */
  method Converse(username: Username, chat: BotFatherChat, store: Store, replies: seq<(Reply, Answer)>, ghost verified: set<Verified>)
    requires chat.attempts == [] && Sound(DurableOf(store.files), verified) && TokensIdentify(verified)
    requires Vouched(username, replies, verified)
    modifies chat, store`files, store`counter, store`clock, store`dead
    ensures chat.attempts <= Script(username)
    ensures SameBotThroughout(old(store.files), username, replies) ==> Sound(DurableOf(store.files), verified)
  {
    hide Sound, TokensIdentify, Ready, AllWork, DiesAtFirstSync, ToAsciiLower, Sends;
    var conversation := new Conversation(username);
    assert Script(username)[..0] == [];
    var started := conversation.Start(chat);
    var i := 0;
    while i < |replies|
      invariant 0 <= i <= |replies|
      invariant conversation.InStep(chat) && conversation.step != AtCancel
      invariant SameBotThroughout(old(store.files), username, replies) ==>
        Sound(DurableOf(store.files), verified) && CreatedMatches(DurableOf(store.files), username, replies)
    {
      ghost var before := DurableOf(store.files);
      var reply, answer := replies[i].0, replies[i].1;
      assert replies[i] in replies;
      var r;
      ghost var stage;
      r, stage := conversation.OnBotFatherReply(reply, chat, store, answer);
      if SameBotThroughout(old(store.files), username, replies) && ConfirmsUsername(username, reply, answer) {
        var v := Verified(reply.response.token, answer.id, answer.username);
        WritePathSoundIff(before, v, verified);
        assert Sound(WritePath(before, v)[stage], verified);
      }
      i := i + 1;
    }
  }

  // ------------------------------------------------- as the runtime holds it

  /** One conversation: the name chosen, which messages get through, and what
      BotFather and the Bot API answer. */
  datatype Attempt = Attempt(username: Username, delivers: nat -> bool, replies: seq<(Reply, Answer)>)

  /** One look for an existing bot, and the attempts behind it: how the store's
      operations end, the look being the first of them. */
  datatype Session = Session(fate: nat -> Fate, attempts: seq<Attempt>)

  /** What makes the runtime refuse to set up another bot. */
  predicate NamesBot(r: LoadResult) {
    r.Loaded? && r.state.identities.botUsername.Some? && r.state.identities.botUserId.Some?
  }

  /** What an attempt comes to when all its messages get through: it waits, the
      name is rejected and another may be tried, it is dropped, or a success
      reply ends it. */
  datatype Ending = Waiting | Rejected | Dropped | Succeeds(username: Username, token: string, answer: Answer)

  function Leads(step: Step, username: Username, replies: seq<(Reply, Answer)>): Ending
    decreases |replies|
  {
    if replies == [] then Waiting
    else
      var reply := replies[0].0;
      if step.AtUsername? && reply.response.Success? then Succeeds(username, reply.response.token, replies[0].1)
      else
        match ProgressOf(step, reply)
        case StillPending => Leads(StepAfter(step, reply), username, replies[1..])
        case NameOccupied => Rejected
        case NameInvalid => Rejected
        case _ => Dropped
  }

  lemma NoReplyLeads(step: Step, username: Username)
    ensures Leads(step, username, []) == Waiting
  {
  }

  lemma LeadsOn(step: Step, username: Username, replies: seq<(Reply, Answer)>, i: nat)
    requires i < |replies|
    ensures
      var reply, rest := replies[i].0, Leads(step, username, replies[i..]);
      if step.AtUsername? && reply.response.Success? then rest == Succeeds(username, reply.response.token, replies[i].1)
      else if ProgressOf(step, reply).StillPending? then rest == Leads(StepAfter(step, reply), username, replies[i + 1..])
      else if ProgressOf(step, reply).NameOccupied? || ProgressOf(step, reply).NameInvalid? then rest == Rejected
      else rest == Dropped
  {
    assert replies[i..][0] == replies[i] && replies[i..][1..] == replies[i + 1..];
  }

  function LeadsTo(attempts: seq<Attempt>): Ending {
    if attempts == [] then Waiting
    else
      var e := Leads(AtNewBot, attempts[0].username, attempts[0].replies);
      if e.Rejected? then LeadsTo(attempts[1..]) else e
  }

  lemma LeadsToOn(attempts: seq<Attempt>, i: nat)
    requires i <= |attempts|
    ensures LeadsTo(attempts[i..]) ==
      if i == |attempts| then Waiting
      else
        var e := Leads(AtNewBot, attempts[i].username, attempts[i].replies);
        if e.Rejected? then LeadsTo(attempts[i + 1..]) else e
  {
    if i < |attempts| {
      assert attempts[i..][0] == attempts[i] && attempts[i..][1..] == attempts[i + 1..];
    }
  }

  ghost predicate AllDelivered(delivers: nat -> bool) {
    forall n: nat :: delivers(n)
  }

  ghost predicate AllVouched(attempts: seq<Attempt>, verified: set<Verified>) {
    forall a <- attempts :: Vouched(a.username, a.replies, verified)
  }

  lemma WritePathFromNoBot(d: Durable, v: Verified, k: nat, verified: set<Verified>)
    requires !BotCreated(d) && k < 4 && (k > 0 ==> v in verified)
    ensures Sound(WritePath(d, v)[k], verified)
  {
  }

  /** What the Bot API vouches for when a success reply is confirmed. */
  function Confirmed(x: (Reply, Answer)): Verified
    requires x.0.response.Success? && x.1.Answer?
  {
    Verified(x.0.response.token, x.1.id, x.1.username)
  }

  /** The disk is as it was, or on the write path of a confirmed reply. */
  ghost predicate OnSomePath(d: Durable, username: Username, replies: seq<(Reply, Answer)>, end: Durable) {
    || end == d
    || exists j, k :: 0 <= j < |replies| && 0 <= k < 4 && ConfirmsUsername(username, replies[j].0, replies[j].1)
         && end == WritePath(d, Confirmed(replies[j]))[k]
  }

  /** A conversation until it is over: readiness, an error, or any report but
      that it goes on. `again` says that another name may be tried. When no bot
      was marked created before, or the confirmed replies are for that very bot,
      the disk is sound wherever it ends, crashes included. */
  method ConverseToTheEnd(
      username: Username, chat: BotFatherChat, store: Store, replies: seq<(Reply, Answer)>, ghost verified: set<Verified>)
    returns (again: bool, ready: bool)
    requires chat.attempts == [] && Vouched(username, replies, verified)
    modifies chat, store`files, store`counter, store`clock, store`dead
    ensures chat.attempts <= Script(username)
    ensures !BotCreated(DurableOf(old(store.files))) ==> Sound(DurableOf(store.files), verified)
    ensures
      (&& Sound(DurableOf(old(store.files)), verified) && TokensIdentify(verified)
       && CreatedMatches(DurableOf(old(store.files)), username, replies)) ==>
      Sound(DurableOf(store.files), verified)
    ensures OnSomePath(DurableOf(old(store.files)), username, replies, DurableOf(store.files))
    ensures again ==> Unused(store) && !ready
    ensures !chat.delivers(1) ==> again && chat.attempts == ["/cancel", "/newbot"]
    ensures ready ==> BotCreated(DurableOf(store.files))
    // When the messages get through, the replies decide.
    ensures AllDelivered(chat.delivers) ==>
      var e := Leads(AtNewBot, username, replies);
      && (again <==> e.Rejected?)
      && (if e.Succeeds? then
            && chat.attempts == Script(username) && PersistsExactly(store, e.username, e.token, e.answer)
            && ReadyWhenDurable(store, e.username, e.token, e.answer, ready)
          else Unused(store) && !ready)
  {
    hide WritePath, Sound, Ready, AllWork, DiesAtFirstSync, Leads, CreatedMatches, Vouched, TokensIdentify;
    hide BotCreated, DurableOf, ToAsciiLower, Sends, OnSomePath;
    StaysOnPath(DurableOf(store.files), username, replies);
    var conversation := new Conversation(username);
    assert Script(username)[..0] == [];
    UntouchedStaysSound(DurableOf(store.files), verified);
    LastIsCreated(DurableOf(store.files));
    var started := conversation.Start(chat);
    if !started {
      return true, false;
    }
    var i := 0;
    assert replies[0..] == replies;
    while i < |replies|
      invariant 0 <= i <= |replies| && Unused(store)
      invariant conversation.InStep(chat) && conversation.step != AtCancel && conversation.step != AtComplete
      invariant Leads(AtNewBot, username, replies) == Leads(conversation.step, username, replies[i..])
    {
      var reply, answer := replies[i].0, replies[i].1;
      LeadsOn(conversation.step, username, replies, i);
      var r;
      ghost var stage;
      r, stage := conversation.OnBotFatherReply(reply, chat, store, answer);
      if ConfirmsUsername(username, reply, answer) {
        StageIsSound(DurableOf(old(store.files)), username, replies, i, stage, verified);
        StageIsOnPath(DurableOf(old(store.files)), username, replies, i, stage);
      }
      if r != Ok(StillPending) {
        return r == Ok(NameOccupied) || r == Ok(NameInvalid), r == Ok(ProvisionReady);
      }
      i := i + 1;
    }
    assert replies[i..] == [];
    NoReplyLeads(conversation.step, username);
    return false, false;
  }

  lemma StaysOnPath(d: Durable, username: Username, replies: seq<(Reply, Answer)>)
    ensures OnSomePath(d, username, replies, d)
  {
  }

  lemma StageIsOnPath(d: Durable, username: Username, replies: seq<(Reply, Answer)>, i: nat, stage: nat)
    requires i < |replies| && ConfirmsUsername(username, replies[i].0, replies[i].1) && stage < 4
    ensures
      var v := Verified(replies[i].0.response.token, replies[i].1.id, replies[i].1.username);
      OnSomePath(d, username, replies, WritePath(d, v)[stage])
  {
    var path := WritePath(d, Confirmed(replies[i]));
    assert path[stage] == path[stage];
  }

  lemma LastIsCreated(d: Durable)
    ensures forall v :: BotCreated(WritePath(d, v)[3])
  {
  }

  lemma UntouchedStaysSound(d: Durable, verified: set<Verified>)
    ensures !BotCreated(d) ==> Sound(d, verified)
    ensures forall v :: WritePath(d, v)[0] == d
  {
  }

  /** Wherever the writes for a confirmed reply end, the disk is sound. */
  lemma StageIsSound(
      d: Durable, username: Username, replies: seq<(Reply, Answer)>, i: nat, stage: nat, verified: set<Verified>)
    requires i < |replies| && ConfirmsUsername(username, replies[i].0, replies[i].1) && stage < 4
    requires Vouched(username, replies, verified)
    ensures
      var v := Verified(replies[i].0.response.token, replies[i].1.id, replies[i].1.username);
      (!BotCreated(d) || (Sound(d, verified) && TokensIdentify(verified) && CreatedMatches(d, username, replies))) ==>
        Sound(WritePath(d, v)[stage], verified)
  {
    hide WritePath, Sound;
    var v := Verified(replies[i].0.response.token, replies[i].1.id, replies[i].1.username);
    assert replies[i] in replies;
    if !BotCreated(d) {
      WritePathFromNoBot(d, v, stage, verified);
    } else if Sound(d, verified) && TokensIdentify(verified) && CreatedMatches(d, username, replies) {
      WritePathSoundIff(d, v, verified);
    }
  }

  /** The look for an existing bot does not fail, or there is none, or the
      replies are for that bot. */
  ghost predicate Guarded(files: map<Path, File>, session: Session) {
    && BotCreated(DurableOf(files)) && session.fate(0).Fails? ==>
      forall a <- session.attempts :: CreatedMatches(DurableOf(files), a.username, a.replies)
  }

  /** The look lets a session go on. */
  ghost predicate PassesLook(files: map<Path, File>, session: Session) {
    || session.fate(0).Fails?
    || (session.fate(0).Works? &&
        match DurableOf(files).state
        case None => true
        case Some(state) => state.identities.botUsername.None? || state.identities.botUserId.None?)
  }

  /** What a session can make of the disk: nothing when it is refused, and
      otherwise what one of its attempts can. */
  ghost predicate SessionEffect(files: map<Path, File>, session: Session, end: map<Path, File>) {
    && (!PassesLook(files, session) ==> end == files)
    && (DurableOf(end) == DurableOf(files)
        || exists a <- session.attempts :: OnSomePath(DurableOf(files), a.username, a.replies, DurableOf(end)))
  }

  /** A session by a process of its own: refused when the look finds a bot on
      record; otherwise one attempt after the other, each when the name of the
      one before was rejected or it could not be started. */
  method HoldSession(files: map<Path, File>, session: Session, ghost verified: set<Verified>)
    returns (end: map<Path, File>, sent: seq<seq<string>>, ready: bool)
    requires AllVouched(session.attempts, verified) && TokensIdentify(verified)
    ensures |sent| <= |session.attempts|
    ensures forall i :: 0 <= i < |sent| ==> sent[i] <= Script(session.attempts[i].username)
    ensures Sound(DurableOf(files), verified) && Guarded(files, session) ==> Sound(DurableOf(end), verified)
    ensures SessionEffect(files, session, end)
    ensures ready ==> BotCreated(DurableOf(end))
    // When the messages get through and the replies lead to a token that only
    // the store can stop, its writes are there as far as the store works.
    ensures
      var e := LeadsTo(session.attempts);
      (&& PassesLook(files, session) && (forall a <- session.attempts :: AllDelivered(a.delivers))
       && e.Succeeds? && Ready(e.username, files, false, e.token, e.answer)) ==>
      var path := WritePath(DurableOf(files), Verified(e.token, e.answer.id, e.answer.username));
      && (AllWork(session.fate, 1) ==> DurableOf(end) == path[3] && NoTemporaries(end))
      && (AllWork(session.fate, 1) ==> (ready <==> session.fate(18).Works?))
      && (DiesAtFirstSync(session.fate, 1) ==> DurableOf(end) == path[1])
  {
    hide WritePath, Sound, AllVouched, CreatedMatches, TokensIdentify, Ready, AllWork, DiesAtFirstSync, AllDelivered, LeadsTo, OnSomePath;
    var store := new Store(files, session.fate);
    sent := [];
    var known := store.LoadState();
    if NamesBot(known) || store.dead {
      return store.files, sent, false;
    }
    CreatedIsNamed(files, verified);
    UntouchedStaysSound(DurableOf(files), verified);
    sent, ready := TryNames(store, session.attempts, verified);
    return store.files, sent, ready;
  }

  /** One attempt after the other, each when the name of the one before was
      rejected or it could not be started. Only the last one uses the store. */
  method TryNames(store: Store, attempts: seq<Attempt>, ghost verified: set<Verified>)
    returns (sent: seq<seq<string>>, ready: bool)
    requires AllVouched(attempts, verified) && TokensIdentify(verified)
    modifies store`files, store`counter, store`clock, store`dead
    ensures |sent| <= |attempts|
    ensures forall i :: 0 <= i < |sent| ==> sent[i] <= Script(attempts[i].username)
    ensures !BotCreated(DurableOf(old(store.files))) ==> Sound(DurableOf(store.files), verified)
    ensures
      (&& Sound(DurableOf(old(store.files)), verified)
       && forall a <- attempts :: CreatedMatches(DurableOf(old(store.files)), a.username, a.replies)) ==>
      Sound(DurableOf(store.files), verified)
    ensures (forall a <- attempts :: AllDelivered(a.delivers)) ==>
      var e := LeadsTo(attempts);
      if e.Succeeds? then
        && PersistsExactly(store, e.username, e.token, e.answer)
        && ReadyWhenDurable(store, e.username, e.token, e.answer, ready)
      else Unused(store) && !ready
    ensures ready ==> BotCreated(DurableOf(store.files))
    ensures DurableOf(store.files) == DurableOf(old(store.files))
      || exists a <- attempts ::
           OnSomePath(DurableOf(old(store.files)), a.username, a.replies, DurableOf(store.files))
  {
    hide WritePath, Sound, Vouched, CreatedMatches, TokensIdentify, Ready, AllWork, DiesAtFirstSync, AllDelivered, Script;
    hide LeadsTo, Leads, BotCreated, OnSomePath;
    UntouchedStaysSound(DurableOf(store.files), verified);
    sent, ready := [], false;
    var i := 0;
    assert attempts[0..] == attempts;
    while i < |attempts|
      invariant 0 <= i == |sent| <= |attempts| && Unused(store) && !ready
      invariant forall k :: 0 <= k < i ==> sent[k] <= Script(attempts[k].username)
      invariant (forall a <- attempts :: AllDelivered(a.delivers)) ==> LeadsTo(attempts) == LeadsTo(attempts[i..])
    {
      var a := attempts[i];
      assert a in attempts;
      LeadsToOn(attempts, i);
      var chat := new BotFatherChat(a.delivers);
      var again;
      again, ready := ConverseToTheEnd(a.username, chat, store, a.replies, verified);
      sent := sent + [chat.attempts];
      if !again {
        return;
      }
      i := i + 1;
    }
    LeadsToOn(attempts, i);
  }

  /** A look that works finds a created bot. */
  lemma CreatedIsNamed(files: map<Path, File>, verified: set<Verified>)
    ensures Sound(DurableOf(files), verified) && BotCreated(DurableOf(files)) ==> NamesBot(LoadOf(files))
  {
  }

  /** Any number of sessions, each under its own faults: `states` are the disks
      before, between and after them. The disk stays sound as long as no look
      fails while a bot is marked created, unless the replies are for that bot. */
  method SetUpRepeatedly(start: map<Path, File>, sessions: seq<Session>, ghost verified: set<Verified>)
    returns (states: seq<map<Path, File>>)
    requires Sound(DurableOf(start), verified) && TokensIdentify(verified)
    requires forall s <- sessions :: AllVouched(s.attempts, verified)
    ensures |states| == |sessions| + 1 && states[0] == start
    ensures forall i :: 0 <= i < |sessions| ==> SessionEffect(states[i], sessions[i], states[i + 1])
    ensures forall n :: 0 <= n <= |sessions| && GuardedUpTo(states, sessions, n) ==> Sound(DurableOf(states[n]), verified)
  {
    hide Sound, Guarded, AllVouched, TokensIdentify, SessionEffect, GuardedUpTo, DurableOf;
    states := [start];
    for i := 0 to |sessions|
      invariant |states| == i + 1 && states[0] == start
      invariant forall k :: 0 <= k < i ==> SessionEffect(states[k], sessions[k], states[k + 1])
      invariant forall n :: 0 <= n <= i && GuardedUpTo(states, sessions, n) ==> Sound(DurableOf(states[n]), verified)
    {
      assert sessions[i] in sessions;
      var end, sent, ready := HoldSession(states[i], sessions[i], verified);
      GuardedOn(states, end, sessions);
      states := states + [end];
    }
  }

  lemma GuardedOn(states: seq<map<Path, File>>, end: map<Path, File>, sessions: seq<Session>)
    requires 1 <= |states| <= |sessions|
    ensures var last, more := |states| - 1, states + [end];
      && (forall n :: 0 <= n <= last ==> more[n] == states[n])
      && (forall n :: 0 <= n <= last ==> (GuardedUpTo(more, sessions, n) <==> GuardedUpTo(states, sessions, n)))
      && (GuardedUpTo(more, sessions, last + 1) ==>
            GuardedUpTo(states, sessions, last) && Guarded(states[last], sessions[last]))
  {
    hide Guarded;
    var last, more := |states| - 1, states + [end];
    assert GuardedUpTo(more, sessions, last + 1) ==> Guarded(more[last], sessions[last]);
  }

  /** The first `count` sessions are guarded. */
  ghost predicate GuardedUpTo(states: seq<map<Path, File>>, sessions: seq<Session>, count: nat)
    requires count <= |states| && count <= |sessions|
  {
    forall i :: 0 <= i < count ==> Guarded(states[i], sessions[i])
  }

  // ------------------------------------------------ what a failing look costs

  /** The look fails, and the process dies at the sync of the first write. */
  function LookFails(n: nat): Fate {
    if n == 0 then Fails else if n == 7 then Dies else Works
  }

  /** The state after the first write is sound exactly when the bot is the one
      that was marked created. */
  lemma FirstWriteSoundIff(d: Durable, v: Verified, verified: set<Verified>)
    requires v in verified && TokensIdentify(verified) && Sound(d, verified) && BotCreated(d)
    ensures Sound(WritePath(d, v)[1], verified) <==>
      d.state.value.identities.botUserId == Some(v.id) && d.state.value.identities.botUsername == Some(v.username)
  {
    var id := d.state.value.identities;
    var before := Verified(d.token.value, id.botUserId.value, id.botUsername.value);
    var after := Verified(d.token.value, v.id, v.username);
    assert Sound(WritePath(d, v)[1], verified) <==> after in verified;
    assert after in verified ==> after == before;
  }

  /** Behind a failing look the guard is needed: on any disk with a created bot,
      attempts that lead to a token, and these faults, the disk ends up sound
      exactly when the token is that bot's. */
  method FailedLookSoundIff(files: map<Path, File>, attempts: seq<Attempt>, ghost verified: set<Verified>)
    returns (end: map<Path, File>)
    requires AllVouched(attempts, verified) && TokensIdentify(verified)
    requires Sound(DurableOf(files), verified) && BotCreated(DurableOf(files)) && NoTemporaries(files)
    requires forall a <- attempts :: AllDelivered(a.delivers)
    requires var e := LeadsTo(attempts);
      && e.Succeeds? && TokenAcceptable(e.token) && e.answer.Answer?
      && ToAsciiLower(e.answer.username) == ToAsciiLower(e.username.normalized)
      && Verified(e.token, e.answer.id, e.answer.username) in verified
    ensures Sound(DurableOf(end), verified) <==>
      var e, id := LeadsTo(attempts), DurableOf(files).state.value.identities;
      id.botUserId == Some(e.answer.id) && id.botUsername == Some(e.answer.username)
  {
    hide WritePath, Sound, AllVouched, TokensIdentify, AllDelivered, TokenAcceptable;
    var e := LeadsTo(attempts);
    FirstWriteSoundIff(DurableOf(files), Verified(e.token, e.answer.id, e.answer.username), verified);
    var sent, ready;
    end, sent, ready := HoldSession(files, Session(LookFails, attempts), verified);
  }

  /** What the program takes for a token in a reply. */
  predicate TokenShaped(token: string) {
    exists k :: 6 <= k <= 12 && k < |token| && token[k] == ':' && 20 <= |token| - k - 1 <= 64
      && (forall c <- token[..k] :: '0' <= c <= '9')
      && (forall c <- token[k + 1..] :: IsNameChar(c) || c == '-')
  }

  /** Six times the digit, a colon, twenty times the letter. */
  function TokenOf(digit: char, letter: char): (r: string)
    ensures |r| == 27 && r[0] == digit
  {
    seq(6, _ => digit) + ":" + seq(20, _ => letter)
  }

  lemma TokenOfIsShaped(digit: char, letter: char)
    requires '0' <= digit <= '9' && 'A' <= letter <= 'Z'
    ensures TokenShaped(TokenOf(digit, letter)) && TokenAcceptable(TokenOf(digit, letter))
  {
    var token := TokenOf(digit, letter);
    assert token[..6] == seq(6, _ => digit) && token[6] == ':' && token[7..] == seq(20, _ => letter);
    assert forall c <- token :: c == digit || c == ':' || c == letter;
    ShortToken(token);
  }

  const FIRST_NAME := Username("first_bot", "first_bot")
  const SECOND_NAME := Username("second_bot", "second_bot")
  const FIRST_BOT := Verified(TokenOf('1', 'A'), 111111, "first_bot")
  const SECOND_BOT := Verified(TokenOf('2', 'B'), 222222, "second_bot")
  const ASKS_NAME := Reply(Unexpected, true, false)
  const ASKS_USERNAME := Reply(Unexpected, false, true)

  /** The replies of a conversation that goes well. */
  function GoesWell(name: Username, bot: Verified): Attempt {
    Attempt(name, n => true, [
      (ASKS_NAME, NoAnswer), (ASKS_USERNAME, NoAnswer),
      (Reply(Success(bot.token), false, false), Answer(bot.id, bot.username))])
  }

  lemma WellGoesWell(name: Username, bot: Verified)
    ensures LeadsTo([GoesWell(name, bot)]) == Succeeds(name, bot.token, Answer(bot.id, bot.username))
    ensures AllDelivered(GoesWell(name, bot).delivers)
    ensures AllVouched([GoesWell(name, bot)], {FIRST_BOT, SECOND_BOT}) <==>
      ToAsciiLower(bot.username) == ToAsciiLower(name.normalized) ==> bot in {FIRST_BOT, SECOND_BOT}
  {
    var replies := GoesWell(name, bot).replies;
    assert Leads(AtUsername, name, replies[2..]) == Succeeds(name, bot.token, Answer(bot.id, bot.username));
    assert replies[1..][1..] == replies[2..];
    assert Leads(AtDisplayName, name, replies[1..]) == Leads(AtUsername, name, replies[2..]);
    assert replies[2] in replies;
  }

  lemma ExampleBots()
    ensures TokenShaped(FIRST_BOT.token) && TokenShaped(SECOND_BOT.token)
    ensures TokenAcceptable(FIRST_BOT.token) && TokenAcceptable(SECOND_BOT.token)
    ensures TokensIdentify({FIRST_BOT, SECOND_BOT})
    ensures ToAsciiLower(FIRST_BOT.username) == ToAsciiLower(FIRST_NAME.normalized)
    ensures ToAsciiLower(SECOND_BOT.username) == ToAsciiLower(SECOND_NAME.normalized)
  {
    hide TokenShaped, TokenAcceptable, TokenOf;
    TokenOfIsShaped('1', 'A');
    TokenOfIsShaped('2', 'B');
  }

  lemma {:induction false} ShortToken(token: string)
    ensures Utf.ByteLength(token) <= 4 * |token|
    decreases |token|
  {
    if token != "" {
      ShortToken(token[..|token| - 1]);
    }
  }

  /** A session with nothing in its way sets the first bot up. */
  method SetUpFirst() returns (files: map<Path, File>)
    ensures DurableOf(files) == WritePath(Durable(None, None), FIRST_BOT)[3] && NoTemporaries(files)
  {
    ExampleBots();
    WellGoesWell(FIRST_NAME, FIRST_BOT);
    hide TokenAcceptable, ToAsciiLower, WritePath, AllVouched, TokensIdentify, LeadsTo, AllDelivered, GoesWell, TokenShaped;
    var sent, ready;
    files, sent, ready := HoldSession(
      map[], Session(n => Works, [GoesWell(FIRST_NAME, FIRST_BOT)]), {FIRST_BOT, SECOND_BOT});
  }

  /** What a failing look costs, from a first start: one session completes; in
      the next one the look fails and the process dies right after the first of
      its three writes. The disk then says that a bot was created and pairs the
      second identity with the first token. */
  method FailedGuardMixesBots() returns (end: map<Path, File>)
    ensures !Sound(DurableOf(end), {FIRST_BOT, SECOND_BOT})
  {
    ExampleBots();
    WellGoesWell(SECOND_NAME, SECOND_BOT);
    hide TokenAcceptable, ToAsciiLower, AllVouched, TokensIdentify, LeadsTo, AllDelivered, GoesWell, TokenShaped;
    var files := SetUpFirst();
    end := FailedLookSoundIff(files, [GoesWell(SECOND_NAME, SECOND_BOT)], {FIRST_BOT, SECOND_BOT});
  }
}
