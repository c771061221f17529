/** The tables of the initial migration: alembic/versions/8377a6cba565_initial_migration_create_all_prsm_tables.py. */
module InitialTables {
  import opened Schema
  import opened Creations
  import opened Names

  function CircuitBreakerEvents(): Creation {
    Creation(
      Table(CIRCUIT_BREAKER_EVENTS,
        [EVENT_ID, TRIGGERED_BY, SAFETY_LEVEL, REASON, AFFECTED_COMPONENTS, RESOLUTION_ACTION, RESOLVED_AT, CREATED_AT],
        [[EVENT_ID]], []),
      [],
      [(IDX_CIRCUIT_BREAKER_LEVEL_CREATED, [SAFETY_LEVEL, CREATED_AT]), (IDX_CIRCUIT_BREAKER_RESOLVED, [RESOLVED_AT]),
       (IX_CIRCUIT_BREAKER_EVENTS_SAFETY_LEVEL, [SAFETY_LEVEL])])
  }

  function FtnsBalances(): Creation {
    Creation(
      Table(FTNS_BALANCES,
        [USER_ID, BALANCE, LOCKED_BALANCE, LAST_DIVIDEND, CREATED_AT, UPDATED_AT],
        [[USER_ID]], []),
      [],
      [(IDX_FTNS_BALANCE_UPDATED, [UPDATED_AT])])
  }

  function FtnsTransactions(): Creation {
    Creation(
      Table(FTNS_TRANSACTIONS,
        [TRANSACTION_ID, FROM_USER, TO_USER, AMOUNT, TRANSACTION_TYPE, DESCRIPTION, CONTEXT_UNITS, IPFS_CID,
         BLOCK_HASH, CREATED_AT],
        [[TRANSACTION_ID]], []),
      [],
      [(IDX_FTNS_BLOCK_HASH, [BLOCK_HASH]), (IDX_FTNS_CREATED, [CREATED_AT]),
       (IDX_FTNS_USER_TYPE_CREATED, [TO_USER, TRANSACTION_TYPE, CREATED_AT]),
       (IX_FTNS_TRANSACTIONS_FROM_USER, [FROM_USER]), (IX_FTNS_TRANSACTIONS_TO_USER, [TO_USER]),
       (IX_FTNS_TRANSACTIONS_TRANSACTION_TYPE, [TRANSACTION_TYPE])])
  }

  function ModelRegistry(): Creation {
    Creation(
      Table(MODEL_REGISTRY,
        [MODEL_ID, NAME, DESCRIPTION, MODEL_TYPE, SPECIALIZATION, OWNER_ID, IPFS_CID, VERSION, PERFORMANCE_METRICS,
         RESOURCE_REQUIREMENTS, PRICING_MODEL, AVAILABILITY_STATUS, TOTAL_USAGE_HOURS, REPUTATION_SCORE, ACTIVE,
         CREATED_AT, UPDATED_AT],
        [[MODEL_ID], [NAME, VERSION, OWNER_ID]], []),
      [],
      [(IDX_MODEL_AVAILABILITY, [AVAILABILITY_STATUS]), (IDX_MODEL_OWNER_ACTIVE, [OWNER_ID, ACTIVE]),
       (IDX_MODEL_TYPE_SPECIALIZATION, [MODEL_TYPE, SPECIALIZATION]), (IX_MODEL_REGISTRY_ACTIVE, [ACTIVE]),
       (IX_MODEL_REGISTRY_AVAILABILITY_STATUS, [AVAILABILITY_STATUS]), (IX_MODEL_REGISTRY_IPFS_CID, [IPFS_CID]),
       (IX_MODEL_REGISTRY_MODEL_TYPE, [MODEL_TYPE]), (IX_MODEL_REGISTRY_OWNER_ID, [OWNER_ID]),
       (IX_MODEL_REGISTRY_SPECIALIZATION, [SPECIALIZATION])])
  }

  function PeerNodes(): Creation {
    Creation(
      Table(PEER_NODES,
        [NODE_ID, PEER_ID, MULTIADDR, CAPABILITIES, REPUTATION_SCORE, LAST_SEEN, ACTIVE, CREATED_AT, UPDATED_AT],
        [[NODE_ID], [PEER_ID]], []),
      [],
      [(IDX_PEER_ACTIVE_LAST_SEEN, [ACTIVE, LAST_SEEN]), (IDX_PEER_REPUTATION, [REPUTATION_SCORE]),
       (IX_PEER_NODES_ACTIVE, [ACTIVE])])
  }

  function PrsmSessions(): Creation {
    Creation(
      Table(PRSM_SESSIONS,
        [SESSION_ID, USER_ID, NWTN_CONTEXT_ALLOCATION, CONTEXT_USED, STATUS, MODEL_METADATA, CREATED_AT, UPDATED_AT],
        [[SESSION_ID]], []),
      [],
      [(IDX_SESSION_STATUS_CREATED, [STATUS, CREATED_AT]), (IDX_SESSION_USER_CREATED, [USER_ID, CREATED_AT]),
       (IX_PRSM_SESSIONS_STATUS, [STATUS]), (IX_PRSM_SESSIONS_USER_ID, [USER_ID])])
  }

  function TeacherModels(): Creation {
    Creation(
      Table(TEACHER_MODELS,
        [TEACHER_ID, NAME, SPECIALIZATION, MODEL_TYPE, PERFORMANCE_SCORE, CURRICULUM_IDS, STUDENT_MODELS, RLVR_SCORE,
         IPFS_CID, VERSION, ACTIVE, CREATED_AT, UPDATED_AT],
        [[TEACHER_ID], [NAME, VERSION]], []),
      [],
      [(IDX_TEACHER_PERFORMANCE, [PERFORMANCE_SCORE]), (IDX_TEACHER_SPECIALIZATION_ACTIVE, [SPECIALIZATION, ACTIVE]),
       (IX_TEACHER_MODELS_ACTIVE, [ACTIVE]), (IX_TEACHER_MODELS_IPFS_CID, [IPFS_CID]),
       (IX_TEACHER_MODELS_MODEL_TYPE, [MODEL_TYPE]), (IX_TEACHER_MODELS_SPECIALIZATION, [SPECIALIZATION])])
  }

  function Teams(): Creation {
    Creation(
      Table(TEAMS,
        [TEAM_ID, NAME, DESCRIPTION, TEAM_TYPE, AVATAR_URL, LOGO_URL, GOVERNANCE_MODEL, REWARD_POLICY, IS_PUBLIC,
         MAX_MEMBERS, ENTRY_STAKE_REQUIRED, RESEARCH_DOMAINS, KEYWORDS, IS_ACTIVE, FOUNDING_DATE, MEMBER_COUNT,
         TOTAL_FTNS_EARNED, TOTAL_TASKS_COMPLETED, IMPACT_SCORE, EXTERNAL_LINKS, CONTACT_INFO, MODEL_METADATA,
         CREATED_AT, UPDATED_AT],
        [[TEAM_ID], [NAME]], []),
      [],
      [(IDX_TEAM_IMPACT_SCORE, [IMPACT_SCORE]), (IDX_TEAM_PUBLIC_ACTIVE, [IS_PUBLIC, IS_ACTIVE]),
       (IDX_TEAM_TYPE_ACTIVE, [TEAM_TYPE, IS_ACTIVE]), (IX_TEAMS_IMPACT_SCORE, [IMPACT_SCORE]),
       (IX_TEAMS_IS_ACTIVE, [IS_ACTIVE]), (IX_TEAMS_IS_PUBLIC, [IS_PUBLIC]), (IX_TEAMS_TEAM_TYPE, [TEAM_TYPE])])
  }

  function ArchitectTasks(): Creation {
    Creation(
      Table(ARCHITECT_TASKS,
        [TASK_ID, SESSION_ID, PARENT_TASK_ID, LEVEL, INSTRUCTION, COMPLEXITY_SCORE, DEPENDENCIES, STATUS,
         ASSIGNED_AGENT, RESULT, EXECUTION_TIME, MODEL_METADATA, CREATED_AT, UPDATED_AT],
        [[TASK_ID]],
        [Ref(PARENT_TASK_ID, ARCHITECT_TASKS, TASK_ID), Ref(SESSION_ID, PRSM_SESSIONS, SESSION_ID)]),
      [],
      [(IDX_TASK_PARENT, [PARENT_TASK_ID]), (IDX_TASK_SESSION_LEVEL, [SESSION_ID, LEVEL]),
       (IDX_TASK_STATUS_CREATED, [STATUS, CREATED_AT]), (IX_ARCHITECT_TASKS_STATUS, [STATUS])])
  }

  function ReasoningSteps(): Creation {
    Creation(
      Table(REASONING_STEPS,
        [STEP_ID, SESSION_ID, AGENT_TYPE, AGENT_ID, INPUT_DATA, OUTPUT_DATA, EXECUTION_TIME, CONFIDENCE_SCORE,
         TIMESTAMP],
        [[STEP_ID]], [Ref(SESSION_ID, PRSM_SESSIONS, SESSION_ID)]),
      [],
      [(IDX_REASONING_AGENT_TYPE, [AGENT_TYPE]), (IDX_REASONING_SESSION_TIMESTAMP, [SESSION_ID, TIMESTAMP])])
  }

  function SafetyFlags(): Creation {
    Creation(
      Table(SAFETY_FLAGS,
        [FLAG_ID, SESSION_ID, LEVEL, CATEGORY, DESCRIPTION, TRIGGERED_BY, RESOLVED, TIMESTAMP],
        [[FLAG_ID]], [Ref(SESSION_ID, PRSM_SESSIONS, SESSION_ID)]),
      [],
      [(IDX_SAFETY_LEVEL_TIMESTAMP, [LEVEL, TIMESTAMP]), (IDX_SAFETY_RESOLVED, [RESOLVED]),
       (IX_SAFETY_FLAGS_LEVEL, [LEVEL]), (IX_SAFETY_FLAGS_RESOLVED, [RESOLVED])])
  }

  function TeamGovernance(): Creation {
    Creation(
      Table(TEAM_GOVERNANCE,
        [GOVERNANCE_ID, TEAM_ID, MODEL, CONSTITUTION, VOTING_PERIOD_DAYS, QUORUM_PERCENTAGE, APPROVAL_THRESHOLD,
         ROLE_ASSIGNMENTS, ROLE_TERM_LIMITS, PROPOSAL_TYPES, TYPE_THRESHOLDS, EMERGENCY_ROLES, EMERGENCY_PROCEDURES,
         MAX_OWNER_POWER, MEMBER_PROTECTION_THRESHOLD, ACTIVE_PROPOSALS, TOTAL_PROPOSALS, PROPOSALS_PASSED,
         AVERAGE_PARTICIPATION, LAST_VOTE, CREATED_AT, UPDATED_AT],
        [[GOVERNANCE_ID], [TEAM_ID]], [Ref(TEAM_ID, TEAMS, TEAM_ID)]),
      [],
      [(IDX_TEAM_GOVERNANCE_MODEL, [MODEL])])
  }

  function TeamMembers(): Creation {
    Creation(
      Table(TEAM_MEMBERS,
        [MEMBERSHIP_ID, TEAM_ID, USER_ID, ROLE, STATUS, INVITED_BY, INVITATION_MESSAGE, INVITED_AT, JOINED_AT,
         LEFT_AT, FTNS_CONTRIBUTED, TASKS_COMPLETED, MODELS_CONTRIBUTED, DATASETS_UPLOADED, PERFORMANCE_SCORE,
         REPUTATION_SCORE, COLLABORATION_SCORE, CAN_INVITE_MEMBERS, CAN_MANAGE_TASKS, CAN_ACCESS_TREASURY, CAN_VOTE,
         BIO, EXPERTISE_AREAS, PUBLIC_PROFILE, MODEL_METADATA, CREATED_AT, UPDATED_AT],
        [[MEMBERSHIP_ID], [TEAM_ID, USER_ID]], [Ref(TEAM_ID, TEAMS, TEAM_ID)]),
      [],
      [(IDX_TEAM_MEMBER_ROLE, [ROLE]), (IDX_TEAM_MEMBER_STATUS, [STATUS]),
       (IDX_TEAM_MEMBER_TEAM_USER, [TEAM_ID, USER_ID]), (IX_TEAM_MEMBERS_ROLE, [ROLE]),
       (IX_TEAM_MEMBERS_STATUS, [STATUS]), (IX_TEAM_MEMBERS_USER_ID, [USER_ID])])
  }

  function TeamTasks(): Creation {
    Creation(
      Table(TEAM_TASKS,
        [TASK_ID, TEAM_ID, TITLE, DESCRIPTION, TASK_TYPE, ASSIGNED_TO, CREATED_BY, PRIORITY, STATUS,
         PROGRESS_PERCENTAGE, FTNS_BUDGET, FTNS_SPENT, DUE_DATE, ESTIMATED_HOURS, ACTUAL_HOURS, OUTPUT_ARTIFACTS,
         OUTPUT_MODELS, PERFORMANCE_METRICS, REQUIRES_CONSENSUS, CONSENSUS_THRESHOLD, VOTES_FOR, VOTES_AGAINST, TAGS,
         EXTERNAL_LINKS, MODEL_METADATA, CREATED_AT, UPDATED_AT],
        [[TASK_ID]], [Ref(TEAM_ID, TEAMS, TEAM_ID)]),
      [],
      [(IDX_TEAM_TASK_CREATED_BY, [CREATED_BY]), (IDX_TEAM_TASK_DUE_DATE, [DUE_DATE]),
       (IDX_TEAM_TASK_TEAM_STATUS, [TEAM_ID, STATUS]), (IDX_TEAM_TASK_TYPE_PRIORITY, [TASK_TYPE, PRIORITY]),
       (IX_TEAM_TASKS_PRIORITY, [PRIORITY]), (IX_TEAM_TASKS_STATUS, [STATUS]), (IX_TEAM_TASKS_TASK_TYPE, [TASK_TYPE])])
  }

  function TeamWallets(): Creation {
    Creation(
      Table(TEAM_WALLETS,
        [WALLET_ID, TEAM_ID, IS_MULTISIG, REQUIRED_SIGNATURES, AUTHORIZED_SIGNERS, TOTAL_BALANCE, AVAILABLE_BALANCE,
         LOCKED_BALANCE, REWARD_POLICY, POLICY_CONFIG, DISTRIBUTION_METRICS, METRIC_WEIGHTS,
         AUTO_DISTRIBUTION_ENABLED, DISTRIBUTION_FREQUENCY_DAYS, LAST_DISTRIBUTION, WALLET_ADDRESS, SPENDING_LIMITS,
         EMERGENCY_FREEZE, CREATED_AT, UPDATED_AT],
        [[WALLET_ID], [TEAM_ID]], [Ref(TEAM_ID, TEAMS, TEAM_ID)]),
      [],
      [(IDX_TEAM_WALLET_BALANCE, [TOTAL_BALANCE]), (IDX_TEAM_WALLET_EMERGENCY, [EMERGENCY_FREEZE])])
  }

  function PaymentTransactions(): Creation {
    Creation(
      Table(PAYMENT_TRANSACTIONS,
        [TRANSACTION_ID, USER_ID, EXTERNAL_ID, FIAT_AMOUNT, FIAT_CURRENCY, CRYPTO_AMOUNT, CRYPTO_CURRENCY,
         EXCHANGE_RATE, PROCESSING_FEE, NETWORK_FEE, STATUS, PAYMENT_METHOD, PROVIDER_REFERENCE, BLOCKCHAIN_TX_HASH,
         KYC_STATUS, AML_CHECKED, RISK_SCORE, FAILURE_REASON, METADATA, CREATED_AT, UPDATED_AT, COMPLETED_AT,
         EXPIRES_AT],
        [[TRANSACTION_ID]], []),
      [(IX_PAYMENT_TRANSACTIONS_USER_ID, [USER_ID]), (IX_PAYMENT_TRANSACTIONS_EXTERNAL_ID, [EXTERNAL_ID])],
      [])
  }

  function UserPaymentMethods(): Creation {
    Creation(
      Table(USER_PAYMENT_METHODS,
        [METHOD_ID, USER_ID, PAYMENT_METHOD, PROVIDER, PROVIDER_METHOD_ID, LAST_FOUR, EXPIRY_MONTH, EXPIRY_YEAR,
         IS_VERIFIED, IS_DEFAULT, IS_ACTIVE, VERIFIED_AT, LAST_USED_AT, CREATED_AT],
        [[METHOD_ID]], []),
      [(IX_USER_PAYMENT_METHODS_USER_ID, [USER_ID])],
      [])
  }

  function ExchangeRateHistory(): Creation {
    Creation(
      Table(EXCHANGE_RATE_HISTORY,
        [RATE_ID, FROM_CURRENCY, TO_CURRENCY, RATE, VOLUME_24H, SOURCE, TIMESTAMP],
        [[RATE_ID]], []),
      [], [])
  }

  function Configuration(): Creation {
    Creation(
      Table(CONFIGURATION,
        [KEY, VALUE, VALUE_TYPE, DESCRIPTION, CREATED_AT, UPDATED_AT],
        [[KEY]], []),
      [], [])
  }

  function UpAccounts(): seq<Creation> {
    [CircuitBreakerEvents(), FtnsBalances(), FtnsTransactions(), ModelRegistry(), PeerNodes()]
  }

  function DownAccounts(): seq<Removal> {
    [Removal(PEER_NODES, [IX_PEER_NODES_ACTIVE, IDX_PEER_REPUTATION, IDX_PEER_ACTIVE_LAST_SEEN]),
     Removal(MODEL_REGISTRY,
             [IX_MODEL_REGISTRY_SPECIALIZATION, IX_MODEL_REGISTRY_OWNER_ID, IX_MODEL_REGISTRY_MODEL_TYPE,
              IX_MODEL_REGISTRY_IPFS_CID, IX_MODEL_REGISTRY_AVAILABILITY_STATUS, IX_MODEL_REGISTRY_ACTIVE,
              IDX_MODEL_TYPE_SPECIALIZATION, IDX_MODEL_OWNER_ACTIVE, IDX_MODEL_AVAILABILITY]),
     Removal(FTNS_TRANSACTIONS,
             [IX_FTNS_TRANSACTIONS_TRANSACTION_TYPE, IX_FTNS_TRANSACTIONS_TO_USER, IX_FTNS_TRANSACTIONS_FROM_USER,
              IDX_FTNS_USER_TYPE_CREATED, IDX_FTNS_CREATED, IDX_FTNS_BLOCK_HASH]),
     Removal(FTNS_BALANCES, [IDX_FTNS_BALANCE_UPDATED]),
     Removal(CIRCUIT_BREAKER_EVENTS,
             [IX_CIRCUIT_BREAKER_EVENTS_SAFETY_LEVEL, IDX_CIRCUIT_BREAKER_RESOLVED, IDX_CIRCUIT_BREAKER_LEVEL_CREATED])]
  }

  function StageAccounts(): Stage {
    Stage(0, UpAccounts(), DownAccounts(), [])
  }

  function UpModels(): seq<Creation> {
    [PrsmSessions(), TeacherModels(), Teams()]
  }

  function DownModels(): seq<Removal> {
    [Removal(TEAMS,
             [IX_TEAMS_TEAM_TYPE, IX_TEAMS_IS_PUBLIC, IX_TEAMS_IS_ACTIVE, IX_TEAMS_IMPACT_SCORE,
              IDX_TEAM_TYPE_ACTIVE, IDX_TEAM_PUBLIC_ACTIVE, IDX_TEAM_IMPACT_SCORE]),
     Removal(TEACHER_MODELS,
             [IX_TEACHER_MODELS_SPECIALIZATION, IX_TEACHER_MODELS_MODEL_TYPE, IX_TEACHER_MODELS_IPFS_CID,
              IX_TEACHER_MODELS_ACTIVE, IDX_TEACHER_SPECIALIZATION_ACTIVE, IDX_TEACHER_PERFORMANCE]),
     Removal(PRSM_SESSIONS,
             [IX_PRSM_SESSIONS_USER_ID, IX_PRSM_SESSIONS_STATUS, IDX_SESSION_USER_CREATED, IDX_SESSION_STATUS_CREATED])]
  }

  function StageModels(): Stage {
    Stage(5, UpModels(), DownModels(), [])
  }

  function UpReasoning(): seq<Creation> {
    [ArchitectTasks(), ReasoningSteps(), SafetyFlags(), TeamGovernance()]
  }

  function DownReasoning(): seq<Removal> {
    [Removal(TEAM_GOVERNANCE, [IDX_TEAM_GOVERNANCE_MODEL]),
     Removal(SAFETY_FLAGS,
             [IX_SAFETY_FLAGS_RESOLVED, IX_SAFETY_FLAGS_LEVEL, IDX_SAFETY_RESOLVED, IDX_SAFETY_LEVEL_TIMESTAMP]),
     Removal(REASONING_STEPS, [IDX_REASONING_SESSION_TIMESTAMP, IDX_REASONING_AGENT_TYPE]),
     Removal(ARCHITECT_TASKS,
             [IX_ARCHITECT_TASKS_STATUS, IDX_TASK_STATUS_CREATED, IDX_TASK_SESSION_LEVEL, IDX_TASK_PARENT])]
  }

  function StageReasoning(): Stage {
    Stage(8, UpReasoning(), DownReasoning(), [PrsmSessions(), Teams()])
  }

  function UpTeamWork(): seq<Creation> {
    [TeamMembers(), TeamTasks(), TeamWallets()]
  }

  function DownTeamWork(): seq<Removal> {
    [Removal(TEAM_WALLETS, [IDX_TEAM_WALLET_EMERGENCY, IDX_TEAM_WALLET_BALANCE]),
     Removal(TEAM_TASKS,
             [IX_TEAM_TASKS_TASK_TYPE, IX_TEAM_TASKS_STATUS, IX_TEAM_TASKS_PRIORITY, IDX_TEAM_TASK_TYPE_PRIORITY,
              IDX_TEAM_TASK_TEAM_STATUS, IDX_TEAM_TASK_DUE_DATE, IDX_TEAM_TASK_CREATED_BY]),
     Removal(TEAM_MEMBERS,
             [IX_TEAM_MEMBERS_USER_ID, IX_TEAM_MEMBERS_STATUS, IX_TEAM_MEMBERS_ROLE, IDX_TEAM_MEMBER_TEAM_USER,
              IDX_TEAM_MEMBER_STATUS, IDX_TEAM_MEMBER_ROLE])]
  }

  function StageTeamWork(): Stage {
    Stage(12, UpTeamWork(), DownTeamWork(), [Teams()])
  }

  function UpPayments(): seq<Creation> {
    [PaymentTransactions(), UserPaymentMethods(), ExchangeRateHistory(), Configuration()]
  }

  function DownPayments(): seq<Removal> {
    [Removal(CONFIGURATION, []),
     Removal(EXCHANGE_RATE_HISTORY, []),
     Removal(USER_PAYMENT_METHODS, []),
     Removal(PAYMENT_TRANSACTIONS, [])]
  }

  function StagePayments(): Stage {
    Stage(15, UpPayments(), DownPayments(), [])
  }
}
