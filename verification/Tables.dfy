/** The tables of migrations 005 to 014 and the order they are created and dropped in: alembic/versions. */
module Tables {
  import opened Schema
  import opened Creations
  import opened Names

  // ---- Migration 005 ----

  function UserReputations(): Creation {
    Creation(
      Table(USER_REPUTATIONS,
        [ID, USER_ID, OVERALL_SCORE, TRUST_LEVEL, DIMENSION_SCORES, BADGES, VERIFICATION_STATUS, REPUTATION_HISTORY,
         LAST_CALCULATED, NEXT_REVIEW, CREATED_AT, UPDATED_AT],
        [[ID], [USER_ID]], []),
      [],
      [(IDX_USER_REPUTATIONS_TRUST_LEVEL, [TRUST_LEVEL]), (IDX_USER_REPUTATIONS_OVERALL_SCORE, [OVERALL_SCORE]),
       (IX_USER_REPUTATIONS_USER_ID, [USER_ID])])
  }

  function ReputationEvents(): Creation {
    Creation(
      Table(REPUTATION_EVENTS,
        [ID, TRANSACTION_ID, USER_ID, EVENT_TYPE, DIMENSION, SCORE_CHANGE, EVIDENCE, SOURCE_USER_ID, VALIDATED,
         TIMESTAMP, CREATED_AT],
        [[ID], [TRANSACTION_ID]], []),
      [],
      [(IDX_REPUTATION_EVENTS_USER_TYPE, [USER_ID, EVENT_TYPE]),
       (IDX_REPUTATION_EVENTS_USER_TIMESTAMP, [USER_ID, TIMESTAMP]), (IX_REPUTATION_EVENTS_USER_ID, [USER_ID]),
       (IX_REPUTATION_EVENTS_EVENT_TYPE, [EVENT_TYPE]), (IX_REPUTATION_EVENTS_SOURCE_USER_ID, [SOURCE_USER_ID]),
       (IX_REPUTATION_EVENTS_TIMESTAMP, [TIMESTAMP])])
  }

  function Up005(): seq<Creation> {
    [UserReputations(), ReputationEvents()]
  }

  function Down005(): seq<Removal> {
    [Removal(REPUTATION_EVENTS,
             [IX_REPUTATION_EVENTS_TIMESTAMP, IX_REPUTATION_EVENTS_SOURCE_USER_ID, IX_REPUTATION_EVENTS_EVENT_TYPE,
              IX_REPUTATION_EVENTS_USER_ID, IDX_REPUTATION_EVENTS_USER_TIMESTAMP, IDX_REPUTATION_EVENTS_USER_TYPE]),
     Removal(USER_REPUTATIONS,
             [IX_USER_REPUTATIONS_USER_ID, IDX_USER_REPUTATIONS_OVERALL_SCORE, IDX_USER_REPUTATIONS_TRUST_LEVEL])]
  }

  function Stage005(): Stage {
    Stage(19, Up005(), Down005(), [])
  }

  // ---- Migration 006 ----

  function MarketplaceActivities(): Creation {
    Creation(
      Table(MARKETPLACE_ACTIVITIES,
        [ID, ACTIVITY_ID, USER_ID, ACTIVITY_TYPE, RESOURCE_ID, SESSION_ID, VALUE, ACTIVITY_METADATA, TIMESTAMP,
         CREATED_AT],
        [[ID], [ACTIVITY_ID]], []),
      [],
      [(IX_MARKETPLACE_ACTIVITIES_ACTIVITY_ID, [ACTIVITY_ID]), (IX_MARKETPLACE_ACTIVITIES_USER_ID, [USER_ID]),
       (IX_MARKETPLACE_ACTIVITIES_ACTIVITY_TYPE, [ACTIVITY_TYPE]),
       (IX_MARKETPLACE_ACTIVITIES_RESOURCE_ID, [RESOURCE_ID]), (IX_MARKETPLACE_ACTIVITIES_SESSION_ID, [SESSION_ID]),
       (IX_MARKETPLACE_ACTIVITIES_TIMESTAMP, [TIMESTAMP]), (IDX_MARKETPLACE_ACTIVITIES_USER_TS, [USER_ID, TIMESTAMP]),
       (IDX_MARKETPLACE_ACTIVITIES_TYPE_TS, [ACTIVITY_TYPE, TIMESTAMP]),
       (IDX_MARKETPLACE_ACTIVITIES_RESOURCE, [RESOURCE_ID, TIMESTAMP])])
  }

  function Up006(): seq<Creation> {
    [MarketplaceActivities()]
  }

  function Down006(): seq<Removal> {
    [Removal(MARKETPLACE_ACTIVITIES,
             [IDX_MARKETPLACE_ACTIVITIES_RESOURCE, IDX_MARKETPLACE_ACTIVITIES_TYPE_TS,
              IDX_MARKETPLACE_ACTIVITIES_USER_TS, IX_MARKETPLACE_ACTIVITIES_TIMESTAMP,
              IX_MARKETPLACE_ACTIVITIES_SESSION_ID, IX_MARKETPLACE_ACTIVITIES_RESOURCE_ID,
              IX_MARKETPLACE_ACTIVITIES_ACTIVITY_TYPE, IX_MARKETPLACE_ACTIVITIES_USER_ID,
              IX_MARKETPLACE_ACTIVITIES_ACTIVITY_ID])]
  }

  function Stage006(): Stage {
    Stage(21, Up006(), Down006(), [])
  }

  // ---- Migration 007 ----

  function ContentProvenance(): Creation {
    Creation(
      Table(CONTENT_PROVENANCE,
        [CID, FILENAME, SIZE_BYTES, CONTENT_HASH, CREATOR_ID, PROVENANCE_SIGNATURE, ROYALTY_RATE, PARENT_CIDS,
         ACCESS_COUNT, TOTAL_ROYALTIES, IS_SHARDED, MANIFEST_CID, TOTAL_SHARDS, EMBEDDING_ID, NEAR_DUPLICATE_OF,
         NEAR_DUPLICATE_SIMILARITY, CREATED_AT, UPDATED_AT],
        [[CID]], []),
      [],
      [(IDX_PROVENANCE_CREATOR, [CREATOR_ID]), (IDX_PROVENANCE_HASH, [CONTENT_HASH]),
       (IDX_PROVENANCE_CREATED, [CREATED_AT]), (IDX_PROVENANCE_MANIFEST, [MANIFEST_CID])])
  }

  function GovernanceProposals(): Creation {
    Creation(
      Table(GOVERNANCE_PROPOSALS,
        [PROPOSAL_ID, PROPOSER_ID, TITLE, DESCRIPTION, PROPOSAL_TYPE, STATUS, VOTES_FOR, VOTES_AGAINST,
         TOTAL_VOTING_POWER, REQUIRED_QUORUM, VOTING_STARTS, VOTING_ENDS, PROPOSAL_METADATA, CREATED_AT, UPDATED_AT],
        [[PROPOSAL_ID]], []),
      [],
      [(IDX_GOVERNANCE_STATUS, [STATUS]), (IDX_GOVERNANCE_PROPOSER, [PROPOSER_ID]),
       (IDX_GOVERNANCE_CREATED, [CREATED_AT])])
  }

  function FtnsIdempotencyKeys(): Creation {
    Creation(
      Table(FTNS_IDEMPOTENCY_KEYS,
        [IDEMPOTENCY_KEY, TRANSACTION_ID, CREATED_AT, EXPIRES_AT],
        [[IDEMPOTENCY_KEY]], []),
      [],
      [(IDX_IDEMPOTENCY_EXPIRES, [EXPIRES_AT])])
  }

  function Up007(): seq<Creation> {
    [ContentProvenance(), GovernanceProposals(), FtnsIdempotencyKeys()]
  }

  function Down007(): seq<Removal> {
    [Removal(FTNS_IDEMPOTENCY_KEYS, [IDX_IDEMPOTENCY_EXPIRES]),
     Removal(GOVERNANCE_PROPOSALS, [IDX_GOVERNANCE_CREATED, IDX_GOVERNANCE_PROPOSER, IDX_GOVERNANCE_STATUS]),
     Removal(CONTENT_PROVENANCE,
             [IDX_PROVENANCE_MANIFEST, IDX_PROVENANCE_CREATED, IDX_PROVENANCE_HASH, IDX_PROVENANCE_CREATOR])]
  }

  function Stage007(): Stage {
    Stage(22, Up007(), Down007(), [])
  }

  // ---- Migration 008 ----

  function UserApiConfigs(): Creation {
    Creation(
      Table(USER_API_CONFIGS,
        [ID, USER_ID, PROVIDER, CONFIG_DATA, CREATED_AT, UPDATED_AT],
        [[ID], [USER_ID, PROVIDER]], []),
      [],
      [(IDX_USER_API_CONFIG_USER, [USER_ID])])
  }

  function Up008(): seq<Creation> {
    [UserApiConfigs()]
  }

  function Down008(): seq<Removal> {
    [Removal(USER_API_CONFIGS, [IDX_USER_API_CONFIG_USER])]
  }

  function Stage008(): Stage {
    Stage(25, Up008(), Down008(), [])
  }

  // ---- Migration 009 ----

  function FtnsStakes(): Creation {
    Creation(
      Table(FTNS_STAKES,
        [STAKE_ID, USER_ID, AMOUNT, STAKE_TYPE, STATUS, REWARDS_EARNED, REWARDS_CLAIMED, LAST_REWARD_CALCULATION,
         STAKED_AT, UNSTAKE_REQUESTED_AT, WITHDRAWN_AT, LOCK_REASON, STAKE_METADATA],
        [[STAKE_ID]], []),
      [],
      [(IDX_STAKE_USER_STATUS, [USER_ID, STATUS]), (IDX_STAKE_STAKED_AT, [STAKED_AT]),
       (IX_FTNS_STAKES_USER_ID, [USER_ID]), (IX_FTNS_STAKES_STATUS, [STATUS])])
  }

  function FtnsUnstakeRequests(): Creation {
    Creation(
      Table(FTNS_UNSTAKE_REQUESTS,
        [REQUEST_ID, STAKE_ID, USER_ID, AMOUNT, STATUS, REQUESTED_AT, AVAILABLE_AT, COMPLETED_AT, CANCELLATION_REASON,
         REQUEST_METADATA],
        [[REQUEST_ID]], []),
      [],
      [(IDX_UNSTAKE_USER_STATUS, [USER_ID, STATUS]), (IDX_UNSTAKE_AVAILABLE_AT, [AVAILABLE_AT]),
       (IX_FTNS_UNSTAKE_REQUESTS_STAKE_ID, [STAKE_ID]), (IX_FTNS_UNSTAKE_REQUESTS_USER_ID, [USER_ID]),
       (IX_FTNS_UNSTAKE_REQUESTS_STATUS, [STATUS])])
  }

  function FtnsSlashEvents(): Creation {
    Creation(
      Table(FTNS_SLASH_EVENTS,
        [SLASH_ID, STAKE_ID, USER_ID, AMOUNT_SLASHED, REASON, SLASH_RATE, SLASHED_BY, EVIDENCE, SLASHED_AT,
         APPEAL_DEADLINE, APPEAL_STATUS, APPEAL_EVIDENCE, SLASH_METADATA],
        [[SLASH_ID]], []),
      [],
      [(IDX_SLASH_USER_SLASHED_AT, [USER_ID, SLASHED_AT]), (IDX_SLASH_STAKE, [STAKE_ID]),
       (IX_FTNS_SLASH_EVENTS_STAKE_ID, [STAKE_ID]), (IX_FTNS_SLASH_EVENTS_USER_ID, [USER_ID])])
  }

  function Up009(): seq<Creation> {
    [FtnsStakes(), FtnsUnstakeRequests(), FtnsSlashEvents()]
  }

  function Down009(): seq<Removal> {
    [Removal(FTNS_SLASH_EVENTS,
             [IX_FTNS_SLASH_EVENTS_USER_ID, IX_FTNS_SLASH_EVENTS_STAKE_ID, IDX_SLASH_STAKE, IDX_SLASH_USER_SLASHED_AT]),
     Removal(FTNS_UNSTAKE_REQUESTS,
             [IX_FTNS_UNSTAKE_REQUESTS_STATUS, IX_FTNS_UNSTAKE_REQUESTS_USER_ID, IX_FTNS_UNSTAKE_REQUESTS_STAKE_ID,
              IDX_UNSTAKE_AVAILABLE_AT, IDX_UNSTAKE_USER_STATUS]),
     Removal(FTNS_STAKES, [IX_FTNS_STAKES_STATUS, IX_FTNS_STAKES_USER_ID, IDX_STAKE_STAKED_AT, IDX_STAKE_USER_STATUS])]
  }

  function Stage009(): Stage {
    Stage(26, Up009(), Down009(), [])
  }

  // ---- Migration 010 ----

  function PqIdentities(): Creation {
    Creation(
      Table(PQ_IDENTITIES,
        [USER_ID, SECURITY_LEVEL, KEYPAIR_JSON, SIGNATURE_TYPE, CREATED_AT, LAST_USED, UPDATED_AT],
        [[USER_ID]], []),
      [],
      [(IDX_PQ_IDENTITY_USER, [USER_ID])])
  }

  function Up010(): seq<Creation> {
    [PqIdentities()]
  }

  function Down010(): seq<Removal> {
    [Removal(PQ_IDENTITIES, [IDX_PQ_IDENTITY_USER])]
  }

  function Stage010(): Stage {
    Stage(29, Up010(), Down010(), [])
  }

  // ---- Migration 011 ----

  function TorrentManifests(): Creation {
    Creation(
      Table(TORRENT_MANIFESTS,
        [INFOHASH, NAME, TOTAL_SIZE_BYTES, PIECE_LENGTH, NUM_PIECES, MAGNET_URI, TORRENT_BYTES, IPFS_CID, CREATED_AT,
         CREATED_BY, PROVENANCE_ID, METADATA],
        [[INFOHASH]], []),
      [],
      [(IDX_TORRENT_CREATED_AT, [CREATED_AT]), (IDX_TORRENT_CREATED_BY, [CREATED_BY]),
       (IX_TORRENT_MANIFESTS_IPFS_CID, [IPFS_CID])])
  }

  function TorrentSeederLog(): Creation {
    Creation(
      Table(TORRENT_SEEDER_LOG,
        [ID, INFOHASH, SEEDER_NODE_ID, BYTES_UPLOADED, REWARD_PAID, STARTED_AT, LAST_SEEN_AT, ACTIVE, SEEDER_METADATA],
        [[ID]], [Ref(INFOHASH, TORRENT_MANIFESTS, INFOHASH)]),
      [],
      [(IDX_SEEDER_INFOHASH_ACTIVE, [INFOHASH, ACTIVE]), (IDX_SEEDER_NODE_ACTIVE, [SEEDER_NODE_ID, ACTIVE]),
       (IDX_SEEDER_LAST_SEEN, [LAST_SEEN_AT]), (IX_TORRENT_SEEDER_LOG_INFOHASH, [INFOHASH])])
  }

  function Up011(): seq<Creation> {
    [TorrentManifests(), TorrentSeederLog()]
  }

  function Down011(): seq<Removal> {
    [Removal(TORRENT_SEEDER_LOG,
             [IX_TORRENT_SEEDER_LOG_INFOHASH, IDX_SEEDER_LAST_SEEN, IDX_SEEDER_NODE_ACTIVE,
              IDX_SEEDER_INFOHASH_ACTIVE]),
     Removal(TORRENT_MANIFESTS, [IX_TORRENT_MANIFESTS_IPFS_CID, IDX_TORRENT_CREATED_BY, IDX_TORRENT_CREATED_AT])]
  }

  function Stage011(): Stage {
    Stage(30, Up011(), Down011(), [])
  }

  // ---- Migration 012 ----

  function ProvenanceRecords(): Creation {
    Creation(
      Table(PROVENANCE_RECORDS,
        [RECORD_ID, PROVENANCE_TYPE, SOURCE_ENTITY, TARGET_ENTITY, OPERATION, INPUTS, OUTPUTS, METADATA, TRUST_LEVEL,
         VERIFICATION_STATUS, CONTENT_HASH, TIMESTAMP, ACTIVE],
        [[RECORD_ID]], []),
      [],
      [(IDX_PROVENANCE_SOURCE_ENTITY, [SOURCE_ENTITY]), (IDX_PROVENANCE_TARGET_ENTITY, [TARGET_ENTITY]),
       (IDX_PROVENANCE_TRUST_LEVEL, [TRUST_LEVEL]), (IDX_PROVENANCE_TIMESTAMP, [TIMESTAMP]),
       (IDX_PROVENANCE_CONTENT_HASH, [CONTENT_HASH]), (IX_PROVENANCE_RECORDS_RECORD_ID, [RECORD_ID]),
       (IX_PROVENANCE_RECORDS_SOURCE_ENTITY, [SOURCE_ENTITY])])
  }

  function ReasoningChains(): Creation {
    Creation(
      Table(REASONING_CHAINS,
        [CHAIN_ID, NODE_ID, QUERY, FINAL_CONCLUSION, CONFIDENCE_SCORE, TOTAL_STEPS, STEP_COUNT, FINALIZED,
         FINALIZED_AT, METADATA, CREATED_AT],
        [[CHAIN_ID]], []),
      [],
      [(IDX_CHAINS_NODE_ID, [NODE_ID]), (IDX_CHAINS_CREATED_AT, [CREATED_AT]),
       (IX_REASONING_CHAINS_CHAIN_ID, [CHAIN_ID]), (IX_REASONING_CHAINS_NODE_ID, [NODE_ID])])
  }

  function Up012(): seq<Creation> {
    [ProvenanceRecords(), ReasoningChains()]
  }

  function Down012(): seq<Removal> {
    [Removal(REASONING_CHAINS,
             [IX_REASONING_CHAINS_NODE_ID, IX_REASONING_CHAINS_CHAIN_ID, IDX_CHAINS_CREATED_AT, IDX_CHAINS_NODE_ID]),
     Removal(PROVENANCE_RECORDS,
             [IX_PROVENANCE_RECORDS_SOURCE_ENTITY, IX_PROVENANCE_RECORDS_RECORD_ID, IDX_PROVENANCE_CONTENT_HASH,
              IDX_PROVENANCE_TIMESTAMP, IDX_PROVENANCE_TRUST_LEVEL, IDX_PROVENANCE_TARGET_ENTITY,
              IDX_PROVENANCE_SOURCE_ENTITY])]
  }

  function Stage012(): Stage {
    Stage(32, Up012(), Down012(), [])
  }

  // ---- Migration 013 ----

  function AbTestRuns(): Creation {
    Creation(
      Table(AB_TEST_RUNS,
        [TEST_ID, NAME, STATUS, VARIANT_ID, CONTROL_ID, CURRENT_PHASE, ROLLOUT_PCT, STARTED_AT, COMPLETED_AT,
         ROLLBACK_REASON, METRICS, CREATED_AT],
        [[TEST_ID]], []),
      [],
      [(IDX_AB_TEST_STATUS, [STATUS]), (IDX_AB_TEST_CREATED_AT, [CREATED_AT]), (IX_AB_TEST_RUNS_TEST_ID, [TEST_ID]),
       (IX_AB_TEST_RUNS_STATUS, [STATUS])])
  }

  function AbRoutingAssignments(): Creation {
    Creation(
      Table(AB_ROUTING_ASSIGNMENTS,
        [ASSIGNMENT_ID, TEST_ID, REQUEST_HASH, VARIANT_ID, ASSIGNED_AT],
        [[ASSIGNMENT_ID]], [Ref(TEST_ID, AB_TEST_RUNS, TEST_ID)]),
      [],
      [(IDX_AB_ROUTING_TEST_HASH, [TEST_ID, REQUEST_HASH]), (IX_AB_ROUTING_ASSIGNMENTS_TEST_ID, [TEST_ID]),
       (IX_AB_ROUTING_ASSIGNMENTS_REQUEST_HASH, [REQUEST_HASH])])
  }

  function Up013(): seq<Creation> {
    [AbTestRuns(), AbRoutingAssignments()]
  }

  function Down013(): seq<Removal> {
    [Removal(AB_ROUTING_ASSIGNMENTS,
             [IX_AB_ROUTING_ASSIGNMENTS_REQUEST_HASH, IX_AB_ROUTING_ASSIGNMENTS_TEST_ID, IDX_AB_ROUTING_TEST_HASH]),
     Removal(AB_TEST_RUNS,
             [IX_AB_TEST_RUNS_STATUS, IX_AB_TEST_RUNS_TEST_ID, IDX_AB_TEST_CREATED_AT, IDX_AB_TEST_STATUS])]
  }

  function Stage013(): Stage {
    Stage(34, Up013(), Down013(), [])
  }

  // ---- Migration 014 ----

  function FederationPeers(): Creation {
    Creation(
      Table(FEDERATION_PEERS,
        [ID, PEER_ID, ADDRESS, PORT, NODE_TYPE, LAST_SEEN, QUALITY_SCORE, CAPABILITIES, IS_ACTIVE, CREATED_AT],
        [[ID], [PEER_ID]], []),
      [],
      [(IX_FEDERATION_PEERS_PEER_ID, [PEER_ID]), (IX_FEDERATION_PEERS_LAST_SEEN, [LAST_SEEN])])
  }

  function FederationMessages(): Creation {
    Creation(
      Table(FEDERATION_MESSAGES,
        [ID, MESSAGE_ID, MESSAGE_TYPE, SENDER_ID, RECIPIENT_ID, PAYLOAD, SENT_AT, RECEIVED_AT, PROCESSED_AT, STATUS,
         ERROR],
        [[ID], [MESSAGE_ID]], []),
      [],
      [(IX_FEDERATION_MESSAGES_MESSAGE_TYPE, [MESSAGE_TYPE]), (IX_FEDERATION_MESSAGES_SENDER_ID, [SENDER_ID]),
       (IX_FEDERATION_MESSAGES_STATUS, [STATUS])])
  }

  function DistillationJobs(): Creation {
    Creation(
      Table(DISTILLATION_JOBS,
        [JOB_ID, USER_ID, TEACHER_MODEL_ID, STUDENT_MODEL_ID, STRATEGY, STATUS, PRIORITY, CONFIG, RESULT, ERROR,
         CREATED_AT, STARTED_AT, COMPLETED_AT],
        [[JOB_ID]], []),
      [],
      [(IX_DISTILLATION_JOBS_USER_ID, [USER_ID]), (IX_DISTILLATION_JOBS_STATUS, [STATUS])])
  }

  function DistillationResults(): Creation {
    Creation(
      Table(DISTILLATION_RESULTS,
        [ID, JOB_ID, TEACHER_MODEL_ID, STUDENT_MODEL_ID, STRATEGY, ACCURACY_SCORE, COMPRESSION_RATIO, TRAINING_LOSS,
         VALIDATION_LOSS, TOKENS_USED, FTNS_COST, CREATED_AT, METADATA],
        [[ID]], [Ref(JOB_ID, DISTILLATION_JOBS, JOB_ID)]),
      [],
      [(IX_DISTILLATION_RESULTS_JOB_ID, [JOB_ID]), (IX_DISTILLATION_RESULTS_STRATEGY, [STRATEGY])])
  }

  function EmergencyProtocolActions(): Creation {
    Creation(
      Table(EMERGENCY_PROTOCOL_ACTIONS,
        [ID, ACTION_TYPE, TRIGGERED_BY, REASON, ORIGINAL_VALUE, NEW_VALUE, CREATED_AT, RESOLVED_AT, RESOLVED_BY],
        [[ID]], []),
      [],
      [(IX_EMERGENCY_PROTOCOL_ACTIONS_ACTION_TYPE, [ACTION_TYPE]),
       (IX_EMERGENCY_PROTOCOL_ACTIONS_CREATED_AT, [CREATED_AT])])
  }

  function Up014(): seq<Creation> {
    [FederationPeers(), FederationMessages(), DistillationJobs(), DistillationResults(), EmergencyProtocolActions()]
  }

  function Down014(): seq<Removal> {
    [Removal(EMERGENCY_PROTOCOL_ACTIONS,
             [IX_EMERGENCY_PROTOCOL_ACTIONS_CREATED_AT, IX_EMERGENCY_PROTOCOL_ACTIONS_ACTION_TYPE]),
     Removal(DISTILLATION_RESULTS, [IX_DISTILLATION_RESULTS_STRATEGY, IX_DISTILLATION_RESULTS_JOB_ID]),
     Removal(DISTILLATION_JOBS, [IX_DISTILLATION_JOBS_STATUS, IX_DISTILLATION_JOBS_USER_ID]),
     Removal(FEDERATION_MESSAGES,
             [IX_FEDERATION_MESSAGES_STATUS, IX_FEDERATION_MESSAGES_SENDER_ID, IX_FEDERATION_MESSAGES_MESSAGE_TYPE]),
     Removal(FEDERATION_PEERS, [IX_FEDERATION_PEERS_LAST_SEEN, IX_FEDERATION_PEERS_PEER_ID])]
  }

  function Stage014(): Stage {
    Stage(36, Up014(), Down014(), [])
  }
}
