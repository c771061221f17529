/** What has to be checked of every table and stretch of the migrations by itself. */
module TableChecks {
  import opened Schema
  import opened Creations
  import opened Tables
  import opened InitialTables

  lemma {:induction false} WellMadeFour(a: Creation, b: Creation, c: Creation, d: Creation)
    requires WellMade(a) && WellMade(b) && WellMade(c) && WellMade(d)
    ensures AllWellMade([a, b, c, d])
  {
  }

  // ---- Accounts ----

  lemma {:induction false} CircuitBreakerEventsWellMade()
    ensures WellMade(CircuitBreakerEvents())
  {
  }

  lemma {:induction false} FtnsBalancesWellMade()
    ensures WellMade(FtnsBalances())
  {
  }

  lemma {:induction false} FtnsTransactionsWellMade()
    ensures WellMade(FtnsTransactions())
  {
  }

  lemma {:induction false} ModelRegistryColumns()
    ensures Unrepeated(ModelRegistry().table.columns)
  {
  }

  lemma {:induction false} ModelRegistryFitting()
    ensures Fitting(ModelRegistry())
  {
  }

  lemma {:induction false} ModelRegistryWellMade()
    ensures WellMade(ModelRegistry())
  {
    ModelRegistryColumns();
    ModelRegistryFitting();
  }

  lemma {:induction false} PeerNodesWellMade()
    ensures WellMade(PeerNodes())
  {
  }

  lemma {:induction false} PeerNodesMirrored()
    ensures Mirrored(UpAccounts()[4], DownAccounts()[0])
  {
  }

  lemma {:induction false} ModelRegistryMirrored()
    ensures Mirrored(UpAccounts()[3], DownAccounts()[1])
  {
  }

  lemma {:induction false} FtnsTransactionsMirrored()
    ensures Mirrored(UpAccounts()[2], DownAccounts()[2])
  {
  }

  lemma {:induction false} FtnsBalancesMirrored()
    ensures Mirrored(UpAccounts()[1], DownAccounts()[3])
  {
  }

  lemma {:induction false} CircuitBreakerEventsMirrored()
    ensures Mirrored(UpAccounts()[0], DownAccounts()[4])
  {
  }

  lemma {:induction false} MirroredAccounts()
    ensures AllMirrored(UpAccounts(), DownAccounts())
  {
    CircuitBreakerEventsMirrored();
    FtnsBalancesMirrored();
    FtnsTransactionsMirrored();
    ModelRegistryMirrored();
    PeerNodesMirrored();
  }

  lemma {:induction false} NumberedAccounts()
    ensures NumberedFrom(UpAccounts(), 0)
  {
  }

  lemma {:induction false} RefsAccounts()
    ensures RefsFrom(StageAccounts().parents, UpAccounts())
  {
  }

  lemma {:induction false} PlacedAccounts()
    ensures NumberedFrom(UpAccounts(), 0) && RefsFrom(StageAccounts().parents, UpAccounts())
  {
    NumberedAccounts();
    RefsAccounts();
  }

  lemma {:induction false} MadeAccounts()
    ensures AllWellMade(UpAccounts())
  {
    CircuitBreakerEventsWellMade();
    FtnsBalancesWellMade();
    FtnsTransactionsWellMade();
    ModelRegistryWellMade();
    PeerNodesWellMade();
  }

  lemma {:induction false} OkAccounts()
    ensures StageOk(StageAccounts())
  {
    MadeAccounts();
    MirroredAccounts();
    PlacedAccounts();
  }

  // ---- Models ----

  lemma {:induction false} PrsmSessionsWellMade()
    ensures WellMade(PrsmSessions())
  {
  }

  lemma {:induction false} TeacherModelsWellMade()
    ensures WellMade(TeacherModels())
  {
  }

  lemma {:induction false} TeamsFront()
    ensures Differ(Teams().table.columns, 0, 12, 0, 12)
  {
  }

  lemma {:induction false} TeamsBack()
    ensures Differ(Teams().table.columns, 12, 24, 12, 24)
  {
  }

  lemma {:induction false} TeamsAcross()
    ensures Differ(Teams().table.columns, 0, 12, 12, 24)
  {
  }

  lemma {:induction false} TeamsColumns()
    ensures Unrepeated(Teams().table.columns)
  {
    TeamsFront();
    TeamsBack();
    TeamsAcross();
    UnrepeatedHalves(Teams().table.columns, 12);
  }

  lemma {:induction false} TeamsFitting()
    ensures Fitting(Teams())
  {
  }

  lemma {:induction false} TeamsWellMade()
    ensures WellMade(Teams())
  {
    TeamsColumns();
    TeamsFitting();
  }

  lemma {:induction false} TeamsMirrored()
    ensures Mirrored(UpModels()[2], DownModels()[0])
  {
  }

  lemma {:induction false} TeacherModelsMirrored()
    ensures Mirrored(UpModels()[1], DownModels()[1])
  {
  }

  lemma {:induction false} PrsmSessionsMirrored()
    ensures Mirrored(UpModels()[0], DownModels()[2])
  {
  }

  lemma {:induction false} MirroredModels()
    ensures AllMirrored(UpModels(), DownModels())
  {
    PrsmSessionsMirrored();
    TeacherModelsMirrored();
    TeamsMirrored();
  }

  lemma {:induction false} NumberedModels()
    ensures NumberedFrom(UpModels(), 5)
  {
  }

  lemma {:induction false} RefsModels()
    ensures RefsFrom(StageModels().parents, UpModels())
  {
  }

  lemma {:induction false} PlacedModels()
    ensures NumberedFrom(UpModels(), 5) && RefsFrom(StageModels().parents, UpModels())
  {
    NumberedModels();
    RefsModels();
  }

  lemma {:induction false} MadeModels()
    ensures AllWellMade(UpModels())
  {
    PrsmSessionsWellMade();
    TeacherModelsWellMade();
    TeamsWellMade();
  }

  lemma {:induction false} OkModels()
    ensures StageOk(StageModels())
  {
    MadeModels();
    MirroredModels();
    PlacedModels();
  }

  // ---- Reasoning ----

  lemma {:induction false} ArchitectTasksColumns()
    ensures Unrepeated(ArchitectTasks().table.columns)
  {
  }

  lemma {:induction false} ArchitectTasksFitting()
    ensures Fitting(ArchitectTasks())
  {
  }

  lemma {:induction false} ArchitectTasksWellMade()
    ensures WellMade(ArchitectTasks())
  {
    ArchitectTasksColumns();
    ArchitectTasksFitting();
  }

  lemma {:induction false} ReasoningStepsWellMade()
    ensures WellMade(ReasoningSteps())
  {
  }

  lemma {:induction false} SafetyFlagsWellMade()
    ensures WellMade(SafetyFlags())
  {
  }

  lemma {:induction false} TeamGovernanceFront()
    ensures Differ(TeamGovernance().table.columns, 0, 11, 0, 11)
  {
  }

  lemma {:induction false} TeamGovernanceBack()
    ensures Differ(TeamGovernance().table.columns, 11, 22, 11, 22)
  {
  }

  lemma {:induction false} TeamGovernanceAcross()
    ensures Differ(TeamGovernance().table.columns, 0, 11, 11, 22)
  {
  }

  lemma {:induction false} TeamGovernanceColumns()
    ensures Unrepeated(TeamGovernance().table.columns)
  {
    TeamGovernanceFront();
    TeamGovernanceBack();
    TeamGovernanceAcross();
    UnrepeatedHalves(TeamGovernance().table.columns, 11);
  }

  lemma {:induction false} TeamGovernanceFitting()
    ensures Fitting(TeamGovernance())
  {
  }

  lemma {:induction false} TeamGovernanceWellMade()
    ensures WellMade(TeamGovernance())
  {
    TeamGovernanceColumns();
    TeamGovernanceFitting();
  }

  lemma {:induction false} MirroredReasoning()
    ensures AllMirrored(UpReasoning(), DownReasoning())
  {
  }

  lemma {:induction false} NumberedReasoning()
    ensures NumberedFrom(UpReasoning(), 8)
  {
  }

  lemma {:induction false} RefsReasoning()
    ensures RefsFrom(StageReasoning().parents, UpReasoning())
  {
  }

  lemma {:induction false} PlacedReasoning()
    ensures NumberedFrom(UpReasoning(), 8) && RefsFrom(StageReasoning().parents, UpReasoning())
  {
    NumberedReasoning();
    RefsReasoning();
  }

  lemma {:induction false} MadeReasoning()
    ensures AllWellMade(UpReasoning())
  {
    ArchitectTasksWellMade();
    ReasoningStepsWellMade();
    SafetyFlagsWellMade();
    TeamGovernanceWellMade();
    WellMadeFour(ArchitectTasks(), ReasoningSteps(), SafetyFlags(), TeamGovernance());
  }

  lemma {:induction false} OkReasoning()
    ensures StageOk(StageReasoning())
  {
    MadeReasoning();
    MirroredReasoning();
    PlacedReasoning();
  }

  // ---- TeamWork ----

  lemma {:induction false} TeamMembersFront()
    ensures Differ(TeamMembers().table.columns, 0, 13, 0, 13)
  {
  }

  lemma {:induction false} TeamMembersBack()
    ensures Differ(TeamMembers().table.columns, 13, 27, 13, 27)
  {
  }

  lemma {:induction false} TeamMembersAcross()
    ensures Differ(TeamMembers().table.columns, 0, 13, 13, 27)
  {
  }

  lemma {:induction false} TeamMembersColumns()
    ensures Unrepeated(TeamMembers().table.columns)
  {
    TeamMembersFront();
    TeamMembersBack();
    TeamMembersAcross();
    UnrepeatedHalves(TeamMembers().table.columns, 13);
  }

  lemma {:induction false} TeamMembersFitting()
    ensures Fitting(TeamMembers())
  {
  }

  lemma {:induction false} TeamMembersWellMade()
    ensures WellMade(TeamMembers())
  {
    TeamMembersColumns();
    TeamMembersFitting();
  }

  lemma {:induction false} TeamTasksFront()
    ensures Differ(TeamTasks().table.columns, 0, 13, 0, 13)
  {
  }

  lemma {:induction false} TeamTasksBack()
    ensures Differ(TeamTasks().table.columns, 13, 27, 13, 27)
  {
  }

  lemma {:induction false} TeamTasksAcross()
    ensures Differ(TeamTasks().table.columns, 0, 13, 13, 27)
  {
  }

  lemma {:induction false} TeamTasksColumns()
    ensures Unrepeated(TeamTasks().table.columns)
  {
    TeamTasksFront();
    TeamTasksBack();
    TeamTasksAcross();
    UnrepeatedHalves(TeamTasks().table.columns, 13);
  }

  lemma {:induction false} TeamTasksFitting()
    ensures Fitting(TeamTasks())
  {
  }

  lemma {:induction false} TeamTasksWellMade()
    ensures WellMade(TeamTasks())
  {
    TeamTasksColumns();
    TeamTasksFitting();
  }

  lemma {:induction false} TeamWalletsFront()
    ensures Differ(TeamWallets().table.columns, 0, 10, 0, 10)
  {
  }

  lemma {:induction false} TeamWalletsBack()
    ensures Differ(TeamWallets().table.columns, 10, 20, 10, 20)
  {
  }

  lemma {:induction false} TeamWalletsAcross()
    ensures Differ(TeamWallets().table.columns, 0, 10, 10, 20)
  {
  }

  lemma {:induction false} TeamWalletsColumns()
    ensures Unrepeated(TeamWallets().table.columns)
  {
    TeamWalletsFront();
    TeamWalletsBack();
    TeamWalletsAcross();
    UnrepeatedHalves(TeamWallets().table.columns, 10);
  }

  lemma {:induction false} TeamWalletsFitting()
    ensures Fitting(TeamWallets())
  {
  }

  lemma {:induction false} TeamWalletsWellMade()
    ensures WellMade(TeamWallets())
  {
    TeamWalletsColumns();
    TeamWalletsFitting();
  }

  lemma {:induction false} MirroredTeamWork()
    ensures AllMirrored(UpTeamWork(), DownTeamWork())
  {
  }

  lemma {:induction false} NumberedTeamWork()
    ensures NumberedFrom(UpTeamWork(), 12)
  {
  }

  lemma {:induction false} RefsTeamWork()
    ensures RefsFrom(StageTeamWork().parents, UpTeamWork())
  {
  }

  lemma {:induction false} PlacedTeamWork()
    ensures NumberedFrom(UpTeamWork(), 12) && RefsFrom(StageTeamWork().parents, UpTeamWork())
  {
    NumberedTeamWork();
    RefsTeamWork();
  }

  lemma {:induction false} MadeTeamWork()
    ensures AllWellMade(UpTeamWork())
  {
    TeamMembersWellMade();
    TeamTasksWellMade();
    TeamWalletsWellMade();
  }

  lemma {:induction false} OkTeamWork()
    ensures StageOk(StageTeamWork())
  {
    MadeTeamWork();
    MirroredTeamWork();
    PlacedTeamWork();
  }

  // ---- Payments ----

  lemma {:induction false} PaymentTransactionsFront()
    ensures Differ(PaymentTransactions().table.columns, 0, 11, 0, 11)
  {
  }

  lemma {:induction false} PaymentTransactionsBack()
    ensures Differ(PaymentTransactions().table.columns, 11, 23, 11, 23)
  {
  }

  lemma {:induction false} PaymentTransactionsAcross()
    ensures Differ(PaymentTransactions().table.columns, 0, 11, 11, 23)
  {
  }

  lemma {:induction false} PaymentTransactionsColumns()
    ensures Unrepeated(PaymentTransactions().table.columns)
  {
    PaymentTransactionsFront();
    PaymentTransactionsBack();
    PaymentTransactionsAcross();
    UnrepeatedHalves(PaymentTransactions().table.columns, 11);
  }

  lemma {:induction false} PaymentTransactionsFitting()
    ensures Fitting(PaymentTransactions())
  {
  }

  lemma {:induction false} PaymentTransactionsWellMade()
    ensures WellMade(PaymentTransactions())
  {
    PaymentTransactionsColumns();
    PaymentTransactionsFitting();
  }

  lemma {:induction false} UserPaymentMethodsColumns()
    ensures Unrepeated(UserPaymentMethods().table.columns)
  {
  }

  lemma {:induction false} UserPaymentMethodsFitting()
    ensures Fitting(UserPaymentMethods())
  {
  }

  lemma {:induction false} UserPaymentMethodsWellMade()
    ensures WellMade(UserPaymentMethods())
  {
    UserPaymentMethodsColumns();
    UserPaymentMethodsFitting();
  }

  lemma {:induction false} ExchangeRateHistoryWellMade()
    ensures WellMade(ExchangeRateHistory())
  {
  }

  lemma {:induction false} ConfigurationWellMade()
    ensures WellMade(Configuration())
  {
  }

  lemma {:induction false} MirroredPayments()
    ensures AllMirrored(UpPayments(), DownPayments())
  {
  }

  lemma {:induction false} NumberedPayments()
    ensures NumberedFrom(UpPayments(), 15)
  {
  }

  lemma {:induction false} RefsPayments()
    ensures RefsFrom(StagePayments().parents, UpPayments())
  {
  }

  lemma {:induction false} PlacedPayments()
    ensures NumberedFrom(UpPayments(), 15) && RefsFrom(StagePayments().parents, UpPayments())
  {
    NumberedPayments();
    RefsPayments();
  }

  lemma {:induction false} MadePayments()
    ensures AllWellMade(UpPayments())
  {
    PaymentTransactionsWellMade();
    UserPaymentMethodsWellMade();
    ExchangeRateHistoryWellMade();
    ConfigurationWellMade();
  }

  lemma {:induction false} OkPayments()
    ensures StageOk(StagePayments())
  {
    MadePayments();
    MirroredPayments();
    PlacedPayments();
  }

  // ---- Migration 005 ----

  lemma {:induction false} UserReputationsWellMade()
    ensures WellMade(UserReputations())
  {
  }

  lemma {:induction false} ReputationEventsWellMade()
    ensures WellMade(ReputationEvents())
  {
  }

  lemma {:induction false} Mirrored005()
    ensures AllMirrored(Up005(), Down005())
  {
  }

  lemma {:induction false} Placed005()
    ensures NumberedFrom(Up005(), 19) && RefsFrom(Stage005().parents, Up005())
  {
  }

  lemma {:induction false} Ok005()
    ensures StageOk(Stage005())
  {
    UserReputationsWellMade();
    ReputationEventsWellMade();
    Mirrored005();
    Placed005();
  }

  // ---- Migration 006 ----

  lemma {:induction false} MarketplaceActivitiesWellMade()
    ensures WellMade(MarketplaceActivities())
  {
  }

  lemma {:induction false} Mirrored006()
    ensures AllMirrored(Up006(), Down006())
  {
  }

  lemma {:induction false} Placed006()
    ensures NumberedFrom(Up006(), 21) && RefsFrom(Stage006().parents, Up006())
  {
  }

  lemma {:induction false} Ok006()
    ensures StageOk(Stage006())
  {
    MarketplaceActivitiesWellMade();
    Mirrored006();
    Placed006();
  }

  // ---- Migration 007 ----

  lemma {:induction false} ContentProvenanceFront()
    ensures Differ(ContentProvenance().table.columns, 0, 9, 0, 9)
  {
  }

  lemma {:induction false} ContentProvenanceBack()
    ensures Differ(ContentProvenance().table.columns, 9, 18, 9, 18)
  {
  }

  lemma {:induction false} ContentProvenanceAcross()
    ensures Differ(ContentProvenance().table.columns, 0, 9, 9, 18)
  {
  }

  lemma {:induction false} ContentProvenanceColumns()
    ensures Unrepeated(ContentProvenance().table.columns)
  {
    ContentProvenanceFront();
    ContentProvenanceBack();
    ContentProvenanceAcross();
    UnrepeatedHalves(ContentProvenance().table.columns, 9);
  }

  lemma {:induction false} ContentProvenanceFitting()
    ensures Fitting(ContentProvenance())
  {
  }

  lemma {:induction false} ContentProvenanceWellMade()
    ensures WellMade(ContentProvenance())
  {
    ContentProvenanceColumns();
    ContentProvenanceFitting();
  }

  lemma {:induction false} GovernanceProposalsColumns()
    ensures Unrepeated(GovernanceProposals().table.columns)
  {
  }

  lemma {:induction false} GovernanceProposalsFitting()
    ensures Fitting(GovernanceProposals())
  {
  }

  lemma {:induction false} GovernanceProposalsWellMade()
    ensures WellMade(GovernanceProposals())
  {
    GovernanceProposalsColumns();
    GovernanceProposalsFitting();
  }

  lemma {:induction false} FtnsIdempotencyKeysWellMade()
    ensures WellMade(FtnsIdempotencyKeys())
  {
  }

  lemma {:induction false} Mirrored007()
    ensures AllMirrored(Up007(), Down007())
  {
  }

  lemma {:induction false} Placed007()
    ensures NumberedFrom(Up007(), 22) && RefsFrom(Stage007().parents, Up007())
  {
  }

  lemma {:induction false} Ok007()
    ensures StageOk(Stage007())
  {
    ContentProvenanceWellMade();
    GovernanceProposalsWellMade();
    FtnsIdempotencyKeysWellMade();
    Mirrored007();
    Placed007();
  }

  // ---- Migration 008 ----

  lemma {:induction false} UserApiConfigsWellMade()
    ensures WellMade(UserApiConfigs())
  {
  }

  lemma {:induction false} Ok008()
    ensures StageOk(Stage008())
  {
    UserApiConfigsWellMade();
  }

  // ---- Migration 009 ----

  lemma {:induction false} FtnsStakesWellMade()
    ensures WellMade(FtnsStakes())
  {
  }

  lemma {:induction false} FtnsUnstakeRequestsWellMade()
    ensures WellMade(FtnsUnstakeRequests())
  {
  }

  lemma {:induction false} FtnsSlashEventsWellMade()
    ensures WellMade(FtnsSlashEvents())
  {
  }

  lemma {:induction false} Mirrored009()
    ensures AllMirrored(Up009(), Down009())
  {
  }

  lemma {:induction false} Placed009()
    ensures NumberedFrom(Up009(), 26) && RefsFrom(Stage009().parents, Up009())
  {
  }

  lemma {:induction false} Ok009()
    ensures StageOk(Stage009())
  {
    FtnsStakesWellMade();
    FtnsUnstakeRequestsWellMade();
    FtnsSlashEventsWellMade();
    Mirrored009();
    Placed009();
  }

  // ---- Migration 010 ----

  lemma {:induction false} PqIdentitiesWellMade()
    ensures WellMade(PqIdentities())
  {
  }

  lemma {:induction false} Ok010()
    ensures StageOk(Stage010())
  {
    PqIdentitiesWellMade();
  }

  // ---- Migration 011 ----

  lemma {:induction false} TorrentManifestsWellMade()
    ensures WellMade(TorrentManifests())
  {
  }

  lemma {:induction false} TorrentSeederLogWellMade()
    ensures WellMade(TorrentSeederLog())
  {
  }

  lemma {:induction false} Mirrored011()
    ensures AllMirrored(Up011(), Down011())
  {
  }

  lemma {:induction false} Placed011()
    ensures NumberedFrom(Up011(), 30) && RefsFrom(Stage011().parents, Up011())
  {
    assert Up011()[0] == TorrentManifests();
  }

  lemma {:induction false} Ok011()
    ensures StageOk(Stage011())
  {
    TorrentManifestsWellMade();
    TorrentSeederLogWellMade();
    Mirrored011();
    Placed011();
  }

  // ---- Migration 012 ----

  lemma {:induction false} ProvenanceRecordsWellMade()
    ensures WellMade(ProvenanceRecords())
  {
  }

  lemma {:induction false} ReasoningChainsWellMade()
    ensures WellMade(ReasoningChains())
  {
  }

  lemma {:induction false} Mirrored012()
    ensures AllMirrored(Up012(), Down012())
  {
  }

  lemma {:induction false} Placed012()
    ensures NumberedFrom(Up012(), 32) && RefsFrom(Stage012().parents, Up012())
  {
  }

  lemma {:induction false} Ok012()
    ensures StageOk(Stage012())
  {
    ProvenanceRecordsWellMade();
    ReasoningChainsWellMade();
    Mirrored012();
    Placed012();
  }

  // ---- Migration 013 ----

  lemma {:induction false} AbTestRunsWellMade()
    ensures WellMade(AbTestRuns())
  {
  }

  lemma {:induction false} AbRoutingAssignmentsWellMade()
    ensures WellMade(AbRoutingAssignments())
  {
  }

  lemma {:induction false} Mirrored013()
    ensures AllMirrored(Up013(), Down013())
  {
  }

  lemma {:induction false} Placed013()
    ensures NumberedFrom(Up013(), 34) && RefsFrom(Stage013().parents, Up013())
  {
    assert Up013()[0] == AbTestRuns();
  }

  lemma {:induction false} Ok013()
    ensures StageOk(Stage013())
  {
    AbTestRunsWellMade();
    AbRoutingAssignmentsWellMade();
    Mirrored013();
    Placed013();
  }

  // ---- Migration 014 ----

  lemma {:induction false} FederationPeersWellMade()
    ensures WellMade(FederationPeers())
  {
  }

  lemma {:induction false} FederationMessagesWellMade()
    ensures WellMade(FederationMessages())
  {
  }

  lemma {:induction false} DistillationJobsWellMade()
    ensures WellMade(DistillationJobs())
  {
  }

  lemma {:induction false} DistillationResultsWellMade()
    ensures WellMade(DistillationResults())
  {
  }

  lemma {:induction false} EmergencyProtocolActionsWellMade()
    ensures WellMade(EmergencyProtocolActions())
  {
  }

  lemma {:induction false} Mirrored014()
    ensures AllMirrored(Up014(), Down014())
  {
  }

  lemma {:induction false} Placed014()
    ensures NumberedFrom(Up014(), 36) && RefsFrom(Stage014().parents, Up014())
  {
    assert Up014()[2] == DistillationJobs();
  }

  lemma {:induction false} Ok014()
    ensures StageOk(Stage014())
  {
    FederationPeersWellMade();
    FederationMessagesWellMade();
    DistillationJobsWellMade();
    DistillationResultsWellMade();
    EmergencyProtocolActionsWellMade();
    Mirrored014();
    Placed014();
  }
}
