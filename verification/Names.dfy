/**
 The names of the tables, columns and indexes that the migrations speak of. Names are only ever compared, so
 each is a constant of its own; the number of an index tells its table: index n belongs to table n / 100.
 */
module Names {
  import opened Schema

  // ---- Tables ----

  const CIRCUIT_BREAKER_EVENTS: Name := 0
  const FTNS_BALANCES: Name := 1
  const FTNS_TRANSACTIONS: Name := 2
  const MODEL_REGISTRY: Name := 3
  const PEER_NODES: Name := 4
  const PRSM_SESSIONS: Name := 5
  const TEACHER_MODELS: Name := 6
  const TEAMS: Name := 7
  const ARCHITECT_TASKS: Name := 8
  const REASONING_STEPS: Name := 9
  const SAFETY_FLAGS: Name := 10
  const TEAM_GOVERNANCE: Name := 11
  const TEAM_MEMBERS: Name := 12
  const TEAM_TASKS: Name := 13
  const TEAM_WALLETS: Name := 14
  const PAYMENT_TRANSACTIONS: Name := 15
  const USER_PAYMENT_METHODS: Name := 16
  const EXCHANGE_RATE_HISTORY: Name := 17
  const CONFIGURATION: Name := 18
  const USER_REPUTATIONS: Name := 19
  const REPUTATION_EVENTS: Name := 20
  const MARKETPLACE_ACTIVITIES: Name := 21
  const CONTENT_PROVENANCE: Name := 22
  const GOVERNANCE_PROPOSALS: Name := 23
  const FTNS_IDEMPOTENCY_KEYS: Name := 24
  const USER_API_CONFIGS: Name := 25
  const FTNS_STAKES: Name := 26
  const FTNS_UNSTAKE_REQUESTS: Name := 27
  const FTNS_SLASH_EVENTS: Name := 28
  const PQ_IDENTITIES: Name := 29
  const TORRENT_MANIFESTS: Name := 30
  const TORRENT_SEEDER_LOG: Name := 31
  const PROVENANCE_RECORDS: Name := 32
  const REASONING_CHAINS: Name := 33
  const AB_TEST_RUNS: Name := 34
  const AB_ROUTING_ASSIGNMENTS: Name := 35
  const FEDERATION_PEERS: Name := 36
  const FEDERATION_MESSAGES: Name := 37
  const DISTILLATION_JOBS: Name := 38
  const DISTILLATION_RESULTS: Name := 39
  const EMERGENCY_PROTOCOL_ACTIONS: Name := 40

  // ---- Columns ----

  const EVENT_ID: Name := 0
  const TRIGGERED_BY: Name := 1
  const SAFETY_LEVEL: Name := 2
  const REASON: Name := 3
  const AFFECTED_COMPONENTS: Name := 4
  const RESOLUTION_ACTION: Name := 5
  const RESOLVED_AT: Name := 6
  const CREATED_AT: Name := 7
  const USER_ID: Name := 8
  const BALANCE: Name := 9
  const LOCKED_BALANCE: Name := 10
  const LAST_DIVIDEND: Name := 11
  const UPDATED_AT: Name := 12
  const TRANSACTION_ID: Name := 13
  const FROM_USER: Name := 14
  const TO_USER: Name := 15
  const AMOUNT: Name := 16
  const TRANSACTION_TYPE: Name := 17
  const DESCRIPTION: Name := 18
  const CONTEXT_UNITS: Name := 19
  const IPFS_CID: Name := 20
  const BLOCK_HASH: Name := 21
  const MODEL_ID: Name := 22
  const NAME: Name := 23
  const MODEL_TYPE: Name := 24
  const SPECIALIZATION: Name := 25
  const OWNER_ID: Name := 26
  const VERSION: Name := 27
  const PERFORMANCE_METRICS: Name := 28
  const RESOURCE_REQUIREMENTS: Name := 29
  const PRICING_MODEL: Name := 30
  const AVAILABILITY_STATUS: Name := 31
  const TOTAL_USAGE_HOURS: Name := 32
  const REPUTATION_SCORE: Name := 33
  const ACTIVE: Name := 34
  const NODE_ID: Name := 35
  const PEER_ID: Name := 36
  const MULTIADDR: Name := 37
  const CAPABILITIES: Name := 38
  const LAST_SEEN: Name := 39
  const SESSION_ID: Name := 40
  const NWTN_CONTEXT_ALLOCATION: Name := 41
  const CONTEXT_USED: Name := 42
  const STATUS: Name := 43
  const MODEL_METADATA: Name := 44
  const TEACHER_ID: Name := 45
  const PERFORMANCE_SCORE: Name := 46
  const CURRICULUM_IDS: Name := 47
  const STUDENT_MODELS: Name := 48
  const RLVR_SCORE: Name := 49
  const TEAM_ID: Name := 50
  const TEAM_TYPE: Name := 51
  const AVATAR_URL: Name := 52
  const LOGO_URL: Name := 53
  const GOVERNANCE_MODEL: Name := 54
  const REWARD_POLICY: Name := 55
  const IS_PUBLIC: Name := 56
  const MAX_MEMBERS: Name := 57
  const ENTRY_STAKE_REQUIRED: Name := 58
  const RESEARCH_DOMAINS: Name := 59
  const KEYWORDS: Name := 60
  const IS_ACTIVE: Name := 61
  const FOUNDING_DATE: Name := 62
  const MEMBER_COUNT: Name := 63
  const TOTAL_FTNS_EARNED: Name := 64
  const TOTAL_TASKS_COMPLETED: Name := 65
  const IMPACT_SCORE: Name := 66
  const EXTERNAL_LINKS: Name := 67
  const CONTACT_INFO: Name := 68
  const TASK_ID: Name := 69
  const PARENT_TASK_ID: Name := 70
  const LEVEL: Name := 71
  const INSTRUCTION: Name := 72
  const COMPLEXITY_SCORE: Name := 73
  const DEPENDENCIES: Name := 74
  const ASSIGNED_AGENT: Name := 75
  const RESULT: Name := 76
  const EXECUTION_TIME: Name := 77
  const STEP_ID: Name := 78
  const AGENT_TYPE: Name := 79
  const AGENT_ID: Name := 80
  const INPUT_DATA: Name := 81
  const OUTPUT_DATA: Name := 82
  const CONFIDENCE_SCORE: Name := 83
  const TIMESTAMP: Name := 84
  const FLAG_ID: Name := 85
  const CATEGORY: Name := 86
  const RESOLVED: Name := 87
  const GOVERNANCE_ID: Name := 88
  const MODEL: Name := 89
  const CONSTITUTION: Name := 90
  const VOTING_PERIOD_DAYS: Name := 91
  const QUORUM_PERCENTAGE: Name := 92
  const APPROVAL_THRESHOLD: Name := 93
  const ROLE_ASSIGNMENTS: Name := 94
  const ROLE_TERM_LIMITS: Name := 95
  const PROPOSAL_TYPES: Name := 96
  const TYPE_THRESHOLDS: Name := 97
  const EMERGENCY_ROLES: Name := 98
  const EMERGENCY_PROCEDURES: Name := 99
  const MAX_OWNER_POWER: Name := 100
  const MEMBER_PROTECTION_THRESHOLD: Name := 101
  const ACTIVE_PROPOSALS: Name := 102
  const TOTAL_PROPOSALS: Name := 103
  const PROPOSALS_PASSED: Name := 104
  const AVERAGE_PARTICIPATION: Name := 105
  const LAST_VOTE: Name := 106
  const MEMBERSHIP_ID: Name := 107
  const ROLE: Name := 108
  const INVITED_BY: Name := 109
  const INVITATION_MESSAGE: Name := 110
  const INVITED_AT: Name := 111
  const JOINED_AT: Name := 112
  const LEFT_AT: Name := 113
  const FTNS_CONTRIBUTED: Name := 114
  const TASKS_COMPLETED: Name := 115
  const MODELS_CONTRIBUTED: Name := 116
  const DATASETS_UPLOADED: Name := 117
  const COLLABORATION_SCORE: Name := 118
  const CAN_INVITE_MEMBERS: Name := 119
  const CAN_MANAGE_TASKS: Name := 120
  const CAN_ACCESS_TREASURY: Name := 121
  const CAN_VOTE: Name := 122
  const BIO: Name := 123
  const EXPERTISE_AREAS: Name := 124
  const PUBLIC_PROFILE: Name := 125
  const TITLE: Name := 126
  const TASK_TYPE: Name := 127
  const ASSIGNED_TO: Name := 128
  const CREATED_BY: Name := 129
  const PRIORITY: Name := 130
  const PROGRESS_PERCENTAGE: Name := 131
  const FTNS_BUDGET: Name := 132
  const FTNS_SPENT: Name := 133
  const DUE_DATE: Name := 134
  const ESTIMATED_HOURS: Name := 135
  const ACTUAL_HOURS: Name := 136
  const OUTPUT_ARTIFACTS: Name := 137
  const OUTPUT_MODELS: Name := 138
  const REQUIRES_CONSENSUS: Name := 139
  const CONSENSUS_THRESHOLD: Name := 140
  const VOTES_FOR: Name := 141
  const VOTES_AGAINST: Name := 142
  const TAGS: Name := 143
  const WALLET_ID: Name := 144
  const IS_MULTISIG: Name := 145
  const REQUIRED_SIGNATURES: Name := 146
  const AUTHORIZED_SIGNERS: Name := 147
  const TOTAL_BALANCE: Name := 148
  const AVAILABLE_BALANCE: Name := 149
  const POLICY_CONFIG: Name := 150
  const DISTRIBUTION_METRICS: Name := 151
  const METRIC_WEIGHTS: Name := 152
  const AUTO_DISTRIBUTION_ENABLED: Name := 153
  const DISTRIBUTION_FREQUENCY_DAYS: Name := 154
  const LAST_DISTRIBUTION: Name := 155
  const WALLET_ADDRESS: Name := 156
  const SPENDING_LIMITS: Name := 157
  const EMERGENCY_FREEZE: Name := 158
  const EXTERNAL_ID: Name := 159
  const FIAT_AMOUNT: Name := 160
  const FIAT_CURRENCY: Name := 161
  const CRYPTO_AMOUNT: Name := 162
  const CRYPTO_CURRENCY: Name := 163
  const EXCHANGE_RATE: Name := 164
  const PROCESSING_FEE: Name := 165
  const NETWORK_FEE: Name := 166
  const PAYMENT_METHOD: Name := 167
  const PROVIDER_REFERENCE: Name := 168
  const BLOCKCHAIN_TX_HASH: Name := 169
  const KYC_STATUS: Name := 170
  const AML_CHECKED: Name := 171
  const RISK_SCORE: Name := 172
  const FAILURE_REASON: Name := 173
  const METADATA: Name := 174
  const COMPLETED_AT: Name := 175
  const EXPIRES_AT: Name := 176
  const METHOD_ID: Name := 177
  const PROVIDER: Name := 178
  const PROVIDER_METHOD_ID: Name := 179
  const LAST_FOUR: Name := 180
  const EXPIRY_MONTH: Name := 181
  const EXPIRY_YEAR: Name := 182
  const IS_VERIFIED: Name := 183
  const IS_DEFAULT: Name := 184
  const VERIFIED_AT: Name := 185
  const LAST_USED_AT: Name := 186
  const RATE_ID: Name := 187
  const FROM_CURRENCY: Name := 188
  const TO_CURRENCY: Name := 189
  const RATE: Name := 190
  const VOLUME_24H: Name := 191
  const SOURCE: Name := 192
  const KEY: Name := 193
  const VALUE: Name := 194
  const VALUE_TYPE: Name := 195
  const ID: Name := 196
  const OVERALL_SCORE: Name := 197
  const TRUST_LEVEL: Name := 198
  const DIMENSION_SCORES: Name := 199
  const BADGES: Name := 200
  const VERIFICATION_STATUS: Name := 201
  const REPUTATION_HISTORY: Name := 202
  const LAST_CALCULATED: Name := 203
  const NEXT_REVIEW: Name := 204
  const EVENT_TYPE: Name := 205
  const DIMENSION: Name := 206
  const SCORE_CHANGE: Name := 207
  const EVIDENCE: Name := 208
  const SOURCE_USER_ID: Name := 209
  const VALIDATED: Name := 210
  const ACTIVITY_ID: Name := 211
  const ACTIVITY_TYPE: Name := 212
  const RESOURCE_ID: Name := 213
  const ACTIVITY_METADATA: Name := 214
  const CID: Name := 215
  const FILENAME: Name := 216
  const SIZE_BYTES: Name := 217
  const CONTENT_HASH: Name := 218
  const CREATOR_ID: Name := 219
  const PROVENANCE_SIGNATURE: Name := 220
  const ROYALTY_RATE: Name := 221
  const PARENT_CIDS: Name := 222
  const ACCESS_COUNT: Name := 223
  const TOTAL_ROYALTIES: Name := 224
  const IS_SHARDED: Name := 225
  const MANIFEST_CID: Name := 226
  const TOTAL_SHARDS: Name := 227
  const EMBEDDING_ID: Name := 228
  const NEAR_DUPLICATE_OF: Name := 229
  const NEAR_DUPLICATE_SIMILARITY: Name := 230
  const PROPOSAL_ID: Name := 231
  const PROPOSER_ID: Name := 232
  const PROPOSAL_TYPE: Name := 233
  const TOTAL_VOTING_POWER: Name := 234
  const REQUIRED_QUORUM: Name := 235
  const VOTING_STARTS: Name := 236
  const VOTING_ENDS: Name := 237
  const PROPOSAL_METADATA: Name := 238
  const IDEMPOTENCY_KEY: Name := 239
  const CONFIG_DATA: Name := 240
  const STAKE_ID: Name := 241
  const STAKE_TYPE: Name := 242
  const REWARDS_EARNED: Name := 243
  const REWARDS_CLAIMED: Name := 244
  const LAST_REWARD_CALCULATION: Name := 245
  const STAKED_AT: Name := 246
  const UNSTAKE_REQUESTED_AT: Name := 247
  const WITHDRAWN_AT: Name := 248
  const LOCK_REASON: Name := 249
  const STAKE_METADATA: Name := 250
  const REQUEST_ID: Name := 251
  const REQUESTED_AT: Name := 252
  const AVAILABLE_AT: Name := 253
  const CANCELLATION_REASON: Name := 254
  const REQUEST_METADATA: Name := 255
  const SLASH_ID: Name := 256
  const AMOUNT_SLASHED: Name := 257
  const SLASH_RATE: Name := 258
  const SLASHED_BY: Name := 259
  const SLASHED_AT: Name := 260
  const APPEAL_DEADLINE: Name := 261
  const APPEAL_STATUS: Name := 262
  const APPEAL_EVIDENCE: Name := 263
  const SLASH_METADATA: Name := 264
  const SECURITY_LEVEL: Name := 265
  const KEYPAIR_JSON: Name := 266
  const SIGNATURE_TYPE: Name := 267
  const LAST_USED: Name := 268
  const INFOHASH: Name := 269
  const TOTAL_SIZE_BYTES: Name := 270
  const PIECE_LENGTH: Name := 271
  const NUM_PIECES: Name := 272
  const MAGNET_URI: Name := 273
  const TORRENT_BYTES: Name := 274
  const PROVENANCE_ID: Name := 275
  const SEEDER_NODE_ID: Name := 276
  const BYTES_UPLOADED: Name := 277
  const REWARD_PAID: Name := 278
  const STARTED_AT: Name := 279
  const LAST_SEEN_AT: Name := 280
  const SEEDER_METADATA: Name := 281
  const RECORD_ID: Name := 282
  const PROVENANCE_TYPE: Name := 283
  const SOURCE_ENTITY: Name := 284
  const TARGET_ENTITY: Name := 285
  const OPERATION: Name := 286
  const INPUTS: Name := 287
  const OUTPUTS: Name := 288
  const CHAIN_ID: Name := 289
  const QUERY: Name := 290
  const FINAL_CONCLUSION: Name := 291
  const TOTAL_STEPS: Name := 292
  const STEP_COUNT: Name := 293
  const FINALIZED: Name := 294
  const FINALIZED_AT: Name := 295
  const TEST_ID: Name := 296
  const VARIANT_ID: Name := 297
  const CONTROL_ID: Name := 298
  const CURRENT_PHASE: Name := 299
  const ROLLOUT_PCT: Name := 300
  const ROLLBACK_REASON: Name := 301
  const METRICS: Name := 302
  const ASSIGNMENT_ID: Name := 303
  const REQUEST_HASH: Name := 304
  const ASSIGNED_AT: Name := 305
  const ADDRESS: Name := 306
  const PORT: Name := 307
  const NODE_TYPE: Name := 308
  const QUALITY_SCORE: Name := 309
  const MESSAGE_ID: Name := 310
  const MESSAGE_TYPE: Name := 311
  const SENDER_ID: Name := 312
  const RECIPIENT_ID: Name := 313
  const PAYLOAD: Name := 314
  const SENT_AT: Name := 315
  const RECEIVED_AT: Name := 316
  const PROCESSED_AT: Name := 317
  const ERROR: Name := 318
  const JOB_ID: Name := 319
  const TEACHER_MODEL_ID: Name := 320
  const STUDENT_MODEL_ID: Name := 321
  const STRATEGY: Name := 322
  const CONFIG: Name := 323
  const ACCURACY_SCORE: Name := 324
  const COMPRESSION_RATIO: Name := 325
  const TRAINING_LOSS: Name := 326
  const VALIDATION_LOSS: Name := 327
  const TOKENS_USED: Name := 328
  const FTNS_COST: Name := 329
  const ACTION_TYPE: Name := 330
  const ORIGINAL_VALUE: Name := 331
  const NEW_VALUE: Name := 332
  const RESOLVED_BY: Name := 333
  const PROVENANCE_HASH: Name := 334
  const CONTENT_CID: Name := 335

  // ---- Indexes ----

  const IDX_CIRCUIT_BREAKER_LEVEL_CREATED: Name := 0
  const IDX_CIRCUIT_BREAKER_RESOLVED: Name := 1
  const IX_CIRCUIT_BREAKER_EVENTS_SAFETY_LEVEL: Name := 2
  const IDX_FTNS_BALANCE_UPDATED: Name := 100
  const IDX_FTNS_BLOCK_HASH: Name := 200
  const IDX_FTNS_CREATED: Name := 201
  const IDX_FTNS_USER_TYPE_CREATED: Name := 202
  const IX_FTNS_TRANSACTIONS_FROM_USER: Name := 203
  const IX_FTNS_TRANSACTIONS_TO_USER: Name := 204
  const IX_FTNS_TRANSACTIONS_TRANSACTION_TYPE: Name := 205
  const IDX_MODEL_AVAILABILITY: Name := 300
  const IDX_MODEL_OWNER_ACTIVE: Name := 301
  const IDX_MODEL_TYPE_SPECIALIZATION: Name := 302
  const IX_MODEL_REGISTRY_ACTIVE: Name := 303
  const IX_MODEL_REGISTRY_AVAILABILITY_STATUS: Name := 304
  const IX_MODEL_REGISTRY_IPFS_CID: Name := 305
  const IX_MODEL_REGISTRY_MODEL_TYPE: Name := 306
  const IX_MODEL_REGISTRY_OWNER_ID: Name := 307
  const IX_MODEL_REGISTRY_SPECIALIZATION: Name := 308
  const IDX_PEER_ACTIVE_LAST_SEEN: Name := 400
  const IDX_PEER_REPUTATION: Name := 401
  const IX_PEER_NODES_ACTIVE: Name := 402
  const IDX_SESSION_STATUS_CREATED: Name := 500
  const IDX_SESSION_USER_CREATED: Name := 501
  const IX_PRSM_SESSIONS_STATUS: Name := 502
  const IX_PRSM_SESSIONS_USER_ID: Name := 503
  const IDX_TEACHER_PERFORMANCE: Name := 600
  const IDX_TEACHER_SPECIALIZATION_ACTIVE: Name := 601
  const IX_TEACHER_MODELS_ACTIVE: Name := 602
  const IX_TEACHER_MODELS_IPFS_CID: Name := 603
  const IX_TEACHER_MODELS_MODEL_TYPE: Name := 604
  const IX_TEACHER_MODELS_SPECIALIZATION: Name := 605
  const IDX_TEAM_IMPACT_SCORE: Name := 700
  const IDX_TEAM_PUBLIC_ACTIVE: Name := 701
  const IDX_TEAM_TYPE_ACTIVE: Name := 702
  const IX_TEAMS_IMPACT_SCORE: Name := 703
  const IX_TEAMS_IS_ACTIVE: Name := 704
  const IX_TEAMS_IS_PUBLIC: Name := 705
  const IX_TEAMS_TEAM_TYPE: Name := 706
  const IDX_TASK_PARENT: Name := 800
  const IDX_TASK_SESSION_LEVEL: Name := 801
  const IDX_TASK_STATUS_CREATED: Name := 802
  const IX_ARCHITECT_TASKS_STATUS: Name := 803
  const IDX_REASONING_AGENT_TYPE: Name := 900
  const IDX_REASONING_SESSION_TIMESTAMP: Name := 901
  const IDX_SAFETY_LEVEL_TIMESTAMP: Name := 1000
  const IDX_SAFETY_RESOLVED: Name := 1001
  const IX_SAFETY_FLAGS_LEVEL: Name := 1002
  const IX_SAFETY_FLAGS_RESOLVED: Name := 1003
  const IDX_TEAM_GOVERNANCE_MODEL: Name := 1100
  const IDX_TEAM_MEMBER_ROLE: Name := 1200
  const IDX_TEAM_MEMBER_STATUS: Name := 1201
  const IDX_TEAM_MEMBER_TEAM_USER: Name := 1202
  const IX_TEAM_MEMBERS_ROLE: Name := 1203
  const IX_TEAM_MEMBERS_STATUS: Name := 1204
  const IX_TEAM_MEMBERS_USER_ID: Name := 1205
  const IDX_TEAM_TASK_CREATED_BY: Name := 1300
  const IDX_TEAM_TASK_DUE_DATE: Name := 1301
  const IDX_TEAM_TASK_TEAM_STATUS: Name := 1302
  const IDX_TEAM_TASK_TYPE_PRIORITY: Name := 1303
  const IX_TEAM_TASKS_PRIORITY: Name := 1304
  const IX_TEAM_TASKS_STATUS: Name := 1305
  const IX_TEAM_TASKS_TASK_TYPE: Name := 1306
  const IDX_TEAM_WALLET_BALANCE: Name := 1400
  const IDX_TEAM_WALLET_EMERGENCY: Name := 1401
  const IX_PAYMENT_TRANSACTIONS_USER_ID: Name := 1500
  const IX_PAYMENT_TRANSACTIONS_EXTERNAL_ID: Name := 1501
  const IX_USER_PAYMENT_METHODS_USER_ID: Name := 1600
  const IDX_USER_REPUTATIONS_TRUST_LEVEL: Name := 1900
  const IDX_USER_REPUTATIONS_OVERALL_SCORE: Name := 1901
  const IX_USER_REPUTATIONS_USER_ID: Name := 1902
  const IDX_REPUTATION_EVENTS_USER_TYPE: Name := 2000
  const IDX_REPUTATION_EVENTS_USER_TIMESTAMP: Name := 2001
  const IX_REPUTATION_EVENTS_USER_ID: Name := 2002
  const IX_REPUTATION_EVENTS_EVENT_TYPE: Name := 2003
  const IX_REPUTATION_EVENTS_SOURCE_USER_ID: Name := 2004
  const IX_REPUTATION_EVENTS_TIMESTAMP: Name := 2005
  const IX_MARKETPLACE_ACTIVITIES_ACTIVITY_ID: Name := 2100
  const IX_MARKETPLACE_ACTIVITIES_USER_ID: Name := 2101
  const IX_MARKETPLACE_ACTIVITIES_ACTIVITY_TYPE: Name := 2102
  const IX_MARKETPLACE_ACTIVITIES_RESOURCE_ID: Name := 2103
  const IX_MARKETPLACE_ACTIVITIES_SESSION_ID: Name := 2104
  const IX_MARKETPLACE_ACTIVITIES_TIMESTAMP: Name := 2105
  const IDX_MARKETPLACE_ACTIVITIES_USER_TS: Name := 2106
  const IDX_MARKETPLACE_ACTIVITIES_TYPE_TS: Name := 2107
  const IDX_MARKETPLACE_ACTIVITIES_RESOURCE: Name := 2108
  const IDX_PROVENANCE_CREATOR: Name := 2200
  const IDX_PROVENANCE_HASH: Name := 2201
  const IDX_PROVENANCE_CREATED: Name := 2202
  const IDX_PROVENANCE_MANIFEST: Name := 2203
  const IDX_GOVERNANCE_STATUS: Name := 2300
  const IDX_GOVERNANCE_PROPOSER: Name := 2301
  const IDX_GOVERNANCE_CREATED: Name := 2302
  const IDX_IDEMPOTENCY_EXPIRES: Name := 2400
  const IDX_USER_API_CONFIG_USER: Name := 2500
  const IDX_STAKE_USER_STATUS: Name := 2600
  const IDX_STAKE_STAKED_AT: Name := 2601
  const IX_FTNS_STAKES_USER_ID: Name := 2602
  const IX_FTNS_STAKES_STATUS: Name := 2603
  const IDX_UNSTAKE_USER_STATUS: Name := 2700
  const IDX_UNSTAKE_AVAILABLE_AT: Name := 2701
  const IX_FTNS_UNSTAKE_REQUESTS_STAKE_ID: Name := 2702
  const IX_FTNS_UNSTAKE_REQUESTS_USER_ID: Name := 2703
  const IX_FTNS_UNSTAKE_REQUESTS_STATUS: Name := 2704
  const IDX_SLASH_USER_SLASHED_AT: Name := 2800
  const IDX_SLASH_STAKE: Name := 2801
  const IX_FTNS_SLASH_EVENTS_STAKE_ID: Name := 2802
  const IX_FTNS_SLASH_EVENTS_USER_ID: Name := 2803
  const IDX_PQ_IDENTITY_USER: Name := 2900
  const IDX_TORRENT_CREATED_AT: Name := 3000
  const IDX_TORRENT_CREATED_BY: Name := 3001
  const IX_TORRENT_MANIFESTS_IPFS_CID: Name := 3002
  const IDX_SEEDER_INFOHASH_ACTIVE: Name := 3100
  const IDX_SEEDER_NODE_ACTIVE: Name := 3101
  const IDX_SEEDER_LAST_SEEN: Name := 3102
  const IX_TORRENT_SEEDER_LOG_INFOHASH: Name := 3103
  const IDX_PROVENANCE_SOURCE_ENTITY: Name := 3200
  const IDX_PROVENANCE_TARGET_ENTITY: Name := 3201
  const IDX_PROVENANCE_TRUST_LEVEL: Name := 3202
  const IDX_PROVENANCE_TIMESTAMP: Name := 3203
  const IDX_PROVENANCE_CONTENT_HASH: Name := 3204
  const IX_PROVENANCE_RECORDS_RECORD_ID: Name := 3205
  const IX_PROVENANCE_RECORDS_SOURCE_ENTITY: Name := 3206
  const IDX_CHAINS_NODE_ID: Name := 3300
  const IDX_CHAINS_CREATED_AT: Name := 3301
  const IX_REASONING_CHAINS_CHAIN_ID: Name := 3302
  const IX_REASONING_CHAINS_NODE_ID: Name := 3303
  const IDX_AB_TEST_STATUS: Name := 3400
  const IDX_AB_TEST_CREATED_AT: Name := 3401
  const IX_AB_TEST_RUNS_TEST_ID: Name := 3402
  const IX_AB_TEST_RUNS_STATUS: Name := 3403
  const IDX_AB_ROUTING_TEST_HASH: Name := 3500
  const IX_AB_ROUTING_ASSIGNMENTS_TEST_ID: Name := 3501
  const IX_AB_ROUTING_ASSIGNMENTS_REQUEST_HASH: Name := 3502
  const IX_FEDERATION_PEERS_PEER_ID: Name := 3600
  const IX_FEDERATION_PEERS_LAST_SEEN: Name := 3601
  const IX_FEDERATION_MESSAGES_MESSAGE_TYPE: Name := 3700
  const IX_FEDERATION_MESSAGES_SENDER_ID: Name := 3701
  const IX_FEDERATION_MESSAGES_STATUS: Name := 3702
  const IX_DISTILLATION_JOBS_USER_ID: Name := 3800
  const IX_DISTILLATION_JOBS_STATUS: Name := 3801
  const IX_DISTILLATION_RESULTS_JOB_ID: Name := 3900
  const IX_DISTILLATION_RESULTS_STRATEGY: Name := 3901
  const IX_EMERGENCY_PROTOCOL_ACTIONS_ACTION_TYPE: Name := 4000
  const IX_EMERGENCY_PROTOCOL_ACTIONS_CREATED_AT: Name := 4001
}
