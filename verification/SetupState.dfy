/** The durable record of companion setup (src/setup_store.rs). Fields which
    neither provisioning nor the BotFather conversation touches are left out. */
module SetupState {
  import opened Basics

  datatype SetupStages = SetupStages(
    botCreated: bool,
    botIdentityRecorded: bool,
    botDialogInitialized: bool,
    appConfigChecked: bool,
    forumGroupCreated: bool,
    forumTopicCreated: bool,
    botInvited: bool,
    botRightsConfigured: bool,
    folderConfigured: bool,
    communityJoined: bool,
    companionConfigured: bool)

  datatype SetupIdentities = SetupIdentities(
    botUsername: Option<string>,
    botUserId: Option<int>,
    botAccessHash: Option<int>,
    companionChatId: Option<int>,
    companionChatAccessHash: Option<int>,
    companionTopicId: Option<int>,
    companionLogsTopicId: Option<int>,
    companionBackupsTopicId: Option<int>,
    companionFolderId: Option<int>,
    communityChatId: Option<int>,
    communityAccessHash: Option<int>)

  datatype PersistedSetupState = PersistedSetupState(
    stages: SetupStages, status: string, identities: SetupIdentities)

  const DEFAULT_STATE := PersistedSetupState(
    SetupStages(false, false, false, false, false, false, false, false, false, false, false),
    "idle",
    SetupIdentities(None, None, None, None, None, None, None, None, None, None, None))
}
