# Zero-shadow evidence core: a verified model

The repository collects claims about assets, correlates them into assets, keeps the evidence in
SQLite, follows saved EC2 batches over time, keeps append-only review histories that a recipient
enrolls and advances, plans remediation queues, and publishes files without replacing any. This
project models the algorithms behind those features in Dafny and proves what they promise.

| file | what it models |
|---|---|
| `Ordering.dfy`, `Texts.dfy`, `JsonFields.dfy` | Python's string order, stable sorting, sets as sorted tuples, counting; `str.strip`; JSON objects and their field differences |
| `Models.dfy` | observations and their strong identity keys |
| `UnionFind.dfy`, `AssetGraph.dfy` | the array union-find and the loops of `correlate_assets`, proved against connected components |
| `AssetPartition.dfy`, `AssetGrowth.dfy`, `AssetOrder.dfy` | what correlation guarantees, how it changes with one more observation, what correlating again gives and when the input order matters |
| `Identifiers.dfy`, `AssetIdentity.dfy`, `AssetCollision.dfy` | joined keys and their digests: when asset ids and source keys tell their subjects apart, and which rows collide |
| `AwsDiscovery.dfy`, `InventoryCompare.dfy`, `ExportCompare.dfy` | import of an EC2 export, the records of a batch, the two-batch comparison, and what it says about the instances of two exports |
| `ObservationTimeline.dfy`, `TimelineProperties.dfy`, `TimelineCheckpoint.dfy` | the batch state machine, its meaning over the whole history, the recipient checkpoint |
| `ReviewHistory.dfy`, `AssessmentCompare.dfy`, `HistoryEnrollment.dfy` | validation, loading and extension of a hash chain; comparison of its reviews; selection along a lineage |
| `EvidenceStore.dfy`, `EvidenceProperties.dfy`, `InventoryStorage.dfy` | tables under the schema's constraints, transactional writers, the linked reader |
| `Publication.dfy`, `SequenceRestore.dfy`, `ArchiveEntry.dfy` | stage/link/unstage under interleaving, the multi-file restore, canonical Base64 entries |
| `Ownership.dfy`, `Remediation.dfy`, `WorkQueue.dfy`, `InventoryQueue.dfy` | rule resolution, plans, queues and the two-date comparison |

`dafny verify dfyconfig.toml` checks the whole project.

## Assumptions and conventions

* Digests are function parameters. Where a result needs collision freedom it says so in one named
  predicate: `InjectiveDigest` (and `HexDigest` for the shape of its texts), `Distinguishes` (a
  function from key tuples to asset ids; `Identifiers.UnbrokenKeysDistinguish` gives it from an
  injective digest), `Faithful` and `FaithfulText` (history and enrollment digests and canonical JSON
  text). Results without such a predicate hold for every digest.
* Instants and dates are integers. The texts of observations, findings, tags and directories are as
  their own validation leaves them (`Models.WellFormed` for observations); the asset id of a bundle,
  which no validation strips, is any text.
* `Rejected` and `None` stand for every exception of the source; which exception is not modelled.
* A batch whose database does not reproduce, or a receipt that does not verify, is `None`.

Five things the code does that a reader may not expect:

* Two assets of one batch can share an asset id whatever the digest. Under an injective digest they do
  so only when the source key of one row ends, on a line of its own, with the source key of another
  (`AssetIdentity.EqualIdsNest`). A set of validated row names rules that out for all its batches,
  whatever their other fields, exactly when no name nests another after a text that can end a key
  (`AssetCollision.NamesKeepIdsApart`). So record ids decide; but a later line of a cloud resource id
  or hostname can take part as well: every line that reads as a source key, with no white space
  before it, in any of the three places has a partner row beside which it collides
  (`AssetCollision.RecordOrCloudLineCollides`, `AssetCollision.HostnameLineCollides`). Two results stay
  one way: these last ones where white space stands before the line of a cloud resource id or
  hostname, and `Identifiers.UnbrokenKeysDistinguish` between batches, by which keys without a later
  line that starts like a key never give one id to two key tuples. EC2 exports have only such keys.
* The input order of distinct source rows matters exactly when two assets share an id
  (`AssetOrder.AnyInputOrder`).
* A source key belongs to one row name exactly when no other colon of `source:id` leaves an acceptable
  source before it and an acceptable record id after it (`Identifiers.SourceKeyIdentifiesRow`).
* A correlated batch fails to commit when two rows of one asset have the same text once source and
  record id are joined by NUL, or when one of the two is blank up to its first NUL
  (`InventoryStorage.CorrelatedBatchStores`, `InventoryStorage.NulRowsRefused`,
  `InventoryStorage.LeadingNulRefused`).
* A stored bundle reads back exactly when its asset id has no surrounding white space
  (`EvidenceProperties.StoredBundleReads`, with a lost bundle in `EvidenceProperties.SpacedBundleLost`).

## Model

| member | source | states |
|---|---|---|
| UnionFind.Find | engine/correlation/asset_graph.py:63-67 | returns the root of the walk's start, leaves exactly the halved parents, and changes no element's root |
| UnionFind.HalvingKeepsRoots | engine/correlation/asset_graph.py:65 | skipping one ancestor keeps `parents[i] <= i` and every root |
| UnionFind.LinkingMerges | engine/correlation/asset_graph.py:72-73 | linking the larger root under the smaller moves exactly that tree |
| UnionFind.Union | engine/correlation/asset_graph.py:69-73 | afterwards both trees have the smaller root and all others are untouched |
| AssetGraph.IndexKeys | engine/correlation/asset_graph.py:75-81 | after the key loop every key of an indexed observation sits in the tree of its first owner, and trees join only linked observations |
| AssetGraph.BuildForest | engine/correlation/asset_graph.py:60-81 | every root is the least index of its connected component |
| AssetGraph.RootsAreLeaders | engine/correlation/asset_graph.py:63-81 | once all keys are indexed, roots and least component indices are the same |
| AssetGraph.GroupByRoot | engine/correlation/asset_graph.py:83-85 | the dictionary holds each component in input order, keyed by its least index, in insertion order |
| AssetGraph.CorrelateAssets | engine/correlation/asset_graph.py:55-88 | the loops compute the consolidated connected components sorted by asset id |
| AssetGraph.SameLeader | engine/correlation/asset_graph.py:63-81 | two positions have one least index exactly when a chain of shared keys links them |
| AssetPartition.TogetherIffLinked | engine/correlation/asset_graph.py:60-88 | two observations share an asset exactly when a chain of shared identity keys links them |
| AssetPartition.EveryObservationOnce | engine/correlation/asset_graph.py:83-88 | the observations of the output are a permutation of the input |
| AssetPartition.DistinctAssetsDisjoint | engine/correlation/asset_graph.py:39-52 | no asset appears twice, distinct assets have disjoint non-empty key tuples, and each id is the digest of its keys |
| AssetPartition.AssetsSummarise | engine/correlation/asset_graph.py:42-50 | kinds, hostnames, addresses and sources of an asset list exactly what its observations say, each once, without empty hostnames |
| AssetPartition.KeysCovered | engine/correlation/asset_graph.py:41-50 | the key tuples cover exactly the keys of the observations |
| AssetPartition.AssetsAreComponents | engine/correlation/asset_graph.py:39-88 | an asset is in the output exactly when it consolidates the component of some observation |
| AssetPartition.AssetIdsDistinct | engine/correlation/asset_graph.py:34-36 | with a distinguishing digest no two assets of an output share an id |
| AssetOrder.AnyInputOrder | engine/correlation/asset_graph.py:83-88 | for distinct source rows every input order gives the same assets exactly when no two assets of the output share an id |
| AssetOrder.UnnestedAnyOrder | engine/correlation/asset_graph.py:34-52 | under an injective digest distinct rows without nested source keys give the same assets in every order |
| AssetOrder.CorrelateAgain | database/inventory_assessment_cli.py:41-57 | correlating the observations of an output returns that output, for every input and every digest |
| AssetGrowth.AddingOneObservation | engine/correlation/asset_graph.py:75-88 | one more observation replaces exactly the assets that share a key with it by one asset of their observations and the new one |
| AssetGrowth.UnsharedKeysStayApart | engine/correlation/asset_graph.py:75-88 | observations without shared keys stay one asset each |
| Identifiers.SingleLineKeysDistinguish | engine/correlation/asset_graph.py:34-36 | over single-line keys an injective digest distinguishes all key tuples |
| Identifiers.UnbrokenKeysDistinguish | engine/correlation/asset_graph.py:34-36 | over keys none of whose later lines starts with `source:`, `fqdn:` or `cloud:`, an injective digest distinguishes all key tuples, also those of different batches |
| AssetIdentity.EqualIdsNest | engine/correlation/asset_graph.py:34-41 | under an injective digest two assets of one batch share an id only if a source key of one ends, on a line of its own, with a source key of the other |
| AssetIdentity.UnnestedIdsDistinct | engine/correlation/asset_graph.py:34-88 | under an injective digest a batch without nested source keys has distinct asset ids |
| AssetCollision.NamesKeepIdsApart | engine/models.py:99-111 | for validated row names: all batches over them have distinct asset ids, whatever the other fields, exactly when no name nests another after a text that can end a key |
| AssetCollision.RecordOrCloudLineCollides | engine/correlation/asset_graph.py:34-36 | for all rows with a later line of the record id, or of the cloud resource id, that reads as a source key, a partner row makes two assets of one id, whatever the digest |
| AssetCollision.HostnameLineCollides | engine/correlation/asset_graph.py:34-36 | the same for a later line of a hostname with no white space before it |
| Identifiers.SourceKeyIdentifiesRow | engine/models.py:14-17 | over rows that pass validation, a source key belongs to one row name exactly when its text splits at one colon only into an acceptable source and record id |
| Identifiers.SameSourceKeyMerges | engine/models.py:99-111 | rows whose source keys coincide end in one asset |
| AwsDiscovery.ConvertExport | engine/discovery/aws_discovery.py:22-88 | accepts exactly the unpaginated exports of an allowed scope, account and region whose every row is good and distinct, and returns their claims sorted by record id and their row references in order |
| AwsDiscovery.ReadInstance | engine/discovery/aws_discovery.py:50-83 | accepts exactly good instances and projects them |
| AwsDiscovery.ReadTags | engine/discovery/aws_discovery.py:65-79 | accepts exactly duplicate-free tags with technical review labels and keeps the review tags |
| AwsDiscovery.ClaimsShareNothing | engine/models.py:99-111 | claims of one export share a key only for the same instance |
| AwsDiscovery.OneAssetPerInstance | engine/discovery/aws_discovery.py:96-101 | correlation of an accepted export yields one single-claim asset per instance |
| AwsDiscovery.OwnRowReference | engine/discovery/aws_discovery.py:85-86 | every instance has its own row reference and no other row claims its record id |
| AwsDiscovery.InstanceOrderIrrelevant | engine/discovery/aws_discovery.py:40-90 | reordering or regrouping instances keeps acceptance and every projected observation |
| AwsDiscovery.ExportKeysDistinguish | engine/discovery/aws_discovery.py:29-86 | no key of an accepted export breaks, so an injective digest alone keeps its asset ids apart |
| InventoryCompare.ReadRecords | database/ec2_inventory_compare.py:17-28 | succeeds exactly when every snapshot has one claim with a reference, and then returns the record dictionary |
| InventoryCompare.RetainedExportRecordable | database/ec2_inventory_compare.py:22-23 | `_records` never raises on a retained export |
| InventoryCompare.RetainedExportRecords | database/ec2_inventory_compare.py:17-28 | under an injective digest every instance of a retained export has exactly one record, with its own claims and row reference |
| InventoryCompare.CompareInventories | database/ec2_inventory_compare.py:31-61 | compares exactly when contexts agree, time advances and both batches have records; counts every list and reports whether the source bytes differ |
| InventoryCompare.DiffRecords | database/ec2_inventory_compare.py:41-61 | the change loop and key sets compute the comparison |
| JsonFields.NoChangedFields | database/ec2_inventory_compare.py:45 | no field is listed exactly when every field reads the same on both sides |
| InventoryCompare.ComparisonAccounts | database/ec2_inventory_compare.py:58-61 | the classes, and the reported counts, account for every record of both batches once |
| InventoryCompare.UnchangedMeans | database/ec2_inventory_compare.py:61 | an identity is unchanged exactly when both batches hold it with equal fields |
| InventoryCompare.ReorderedExportUnchanged | database/ec2_inventory_compare.py:62-65 | row positions and input bytes alone never show as additions, omissions or changes |
| ExportCompare.ExportsCompared | database/ec2_inventory_compare.py:31-61 | comparing two accepted exports of one context lists as added and omitted exactly the instances of one export only, and as changed exactly those of both whose addresses or review tags differ |
| ExportCompare.SameIdSameInstance | engine/correlation/asset_graph.py:34-36 | instances of one context have one asset id exactly when they have one instance id |
| ExportCompare.SameInstanceChanges | database/ec2_inventory_compare.py:41-48 | the changed fields of one instance are `ip_addresses` when its addresses differ and `tags` when its review tags differ, and no others |
| ObservationTimeline.ObservePresent | database/ec2_observation_timeline.py:52-62 | the identity loop emits the events defined over the history and keeps `last_seen` exact |
| ObservationTimeline.ObserveDeparted | database/ec2_observation_timeline.py:63-67 | the departure loop emits one event per omitted identity with its true last sighting |
| ObservationTimeline.BuildTimeline | database/ec2_observation_timeline.py:27-76 | accepts exactly 2 to 16 reproduced batches of one context with increasing times, and returns the timeline of their history |
| TimelineProperties.PreviousObservationIsLatest | database/ec2_observation_timeline.py:53-60 | a previous observation is named exactly when it is the latest earlier batch that holds the identity |
| TimelineProperties.StatusMeans | database/ec2_observation_timeline.py:57-58 | each label holds exactly when its definition over all earlier batches holds |
| TimelineProperties.EventsExactly | database/ec2_observation_timeline.py:52-67 | a batch reports each identity and each departure once and nothing else |
| TimelineProperties.WordAccepted | database/ec2_observation_timeline.py:52-67 | every identity's labels over any run form a word of first (changed or unchanged)* (not again (changed or unchanged)*)* [not] |
| TimelineProperties.TotalsBalance | database/ec2_observation_timeline.py:68-69 | first observations equal identities ever seen; arrivals minus departures equal the last batch |
| TimelineProperties.TimelineBalances | database/ec2_observation_timeline.py:75-76 | the same balance for the reported totals and `unique_asset_count` |
| TimelineProperties.AddedAreArrivals | database/ec2_inventory_compare.py:49 | the comparison's additions are the step's arrivals, in order |
| TimelineProperties.OmittedAreDepartures | database/ec2_inventory_compare.py:50 | the comparison's omissions are the step's departures with their last records |
| TimelineProperties.ChangesAreChangedEvents | database/ec2_inventory_compare.py:43-48 | the comparison's changes are the changed events, field lists and records included |
| TimelineProperties.UnchangedAreUnchangedEvents | database/ec2_inventory_compare.py:61 | the comparison's unchanged identities are those of the unchanged events |
| TimelineProperties.NeighboursComparable | database/ec2_inventory_compare.py:33-39 | neighbouring batches of an accepted timeline can always be compared |
| TimelineCheckpoint.CheckSlots | database/ec2_timeline_checkpoint.py:54-65 | accepts exactly 2 to 16 slots whose times strictly increase over all pairs |
| TimelineCheckpoint.ReviewSteps | database/ec2_timeline_checkpoint.py:74-104 | the loops compute the review of supplied against expected slots, and reject any foreign context |
| TimelineCheckpoint.AssessSequence | database/ec2_timeline_checkpoint.py:69-112 | reviews exactly accepted sequences of the recipient's context; satisfied exactly when the supplied times and digests are the expected list |
| TimelineCheckpoint.SatisfiedIffAsExpected | database/ec2_timeline_checkpoint.py:103 | `requirements_satisfied` holds exactly when supplied and expected lists are equal in order |
| TimelineCheckpoint.CountsAccount | database/ec2_timeline_checkpoint.py:80-98 | matched, missing and mismatched slots make up the expected list; matched, mismatched and unexpected make up the supplied one |
| TimelineCheckpoint.FoundPositionsIncrease | database/ec2_timeline_checkpoint.py:83-91 | found slots name supplied positions in strictly increasing order |
| ReviewHistory.ValidateItems | database/ec2_review_history.py:60-67 | the item loop accepts exactly when no finding moves and the row bound holds |
| ReviewHistory.Validate | database/ec2_review_history.py:40-70 | accepts exactly the accepted histories and returns their decision rows |
| ReviewHistory.ReadChain | database/ec2_review_history.py:107-121 | accepts exactly well-formed chains of canonical payloads |
| ReviewHistory.Load | database/ec2_review_history.py:81-131 | loads exactly databases whose chain, pinned head, validation and decision rows all agree |
| ReviewHistory.Retain | database/ec2_review_history.py:138-184 | extends exactly the pinned history, and the database it returns loads again under the new head |
| ReviewHistory.WriteChain | database/ec2_review_history.py:169-175 | writes the chain of the records, or meets two rows a UNIQUE constraint forbids |
| ReviewHistory.WrittenHistoryLoads | database/ec2_review_history.py:169-178 | the rows written for an accepted history always load again with the same records |
| ReviewHistory.PrefixAccepted | database/ec2_review_history.py:40-70 | validation is prefix-closed and decisions of a prefix are a prefix of all decisions |
| ReviewHistory.OneLineage | database/ec2_review_history.py:53-59 | dates and times never go back and discovery and model never change, over all pairs |
| ReviewHistory.FindingStaysOnAsset | database/ec2_review_history.py:60-64 | a finding keeps its asset over all pairs, even across reviews that omit it |
| ReviewHistory.HeadDetermines | database/ec2_review_history.py:30-32 | with injective digests equal heads mean equal lengths and equal reviews |
| ReviewHistory.SameHeadSameReviews | database/ec2_review_history.py:107-125 | two loadable databases with one pinned head hold the same reviews |
| ReviewHistory.AppendExtendsPinned | database/ec2_review_history.py:146-178 | an append keeps the pinned head at the old length, changes the head, and never starts from another head |
| AssessmentCompare.CompareAssessments | database/ec2_assessment_compare.py:24-51 | compares exactly verified reviews of one discovery and model, in order of time, with no finding moved, and reports whether the review inputs differ |
| AssessmentCompare.DiffItems | database/ec2_assessment_compare.py:33-44 | the loop and the key sets compute the comparison |
| AssessmentCompare.HistoryComparable | database/ec2_assessment_compare.py:28-37 | any two reviews of an accepted history pass every guard of the review comparison |
| AssessmentCompare.ChangesMean | database/ec2_assessment_compare.py:39-42 | a finding is listed as changed exactly when both reviews hold it and some field reads differently |
| AssessmentCompare.ChangedFieldsListed | database/ec2_assessment_compare.py:40 | the listed fields are exactly those that read differently, and never the finding or its asset |
| AssessmentCompare.ComparisonAccounts | database/ec2_assessment_compare.py:49-50 | the four counts account for the findings of both reviews once |
| AssessmentCompare.ComparisonReversed | database/ec2_assessment_compare.py:33-51 | comparing the other way round exchanges additions and omissions and reverses each change |
| AssessmentCompare.PatchRebuilds | database/ec2_assessment_compare.py:37-51 | applying a comparison to the older findings gives findings that read like the newer ones, so a comparison loses nothing |
| AssessmentCompare.HistoryReplays | database/ec2_assessment_compare.py:24-51 | the first review and the comparisons of neighbours determine every review of a history |
| AssessmentCompare.HistoryBalances | database/ec2_assessment_compare.py:49-50 | over any run of reviews additions minus omissions is the growth of the queue |
| HistoryEnrollment.Enroll | database/ec2_history_enrollment.py:100-104 | enrolls exactly capturable histories, and the published document always parses |
| HistoryEnrollment.Advance | database/ec2_history_enrollment.py:107-124 | advances exactly under the stated guards, and the published document always parses |
| HistoryEnrollment.MeasurePrefix | database/ec2_history_enrollment.py:113-117 | the prefix loop computes the head and decision count at the selected length |
| HistoryEnrollment.Verify | database/ec2_history_enrollment.py:127-134 | accepts exactly pinned bytes that the supplied evidence reproduces |
| HistoryEnrollment.AdvanceExtends | database/ec2_history_enrollment.py:107-124 | one advance moves to a strict extension under the same export, label, discovery and model |
| HistoryEnrollment.SelectionsGrow | database/ec2_history_enrollment.py:107-124 | over any run each selected history is a strict prefix of every later one |
| HistoryEnrollment.SelectionConstant | database/ec2_history_enrollment.py:118-122 | over any run export, label, discovery and model never change |
| HistoryEnrollment.RevisionsBounded | database/ec2_history_enrollment.py:47 | a revision is one plus its advances and at most its reviews, so a chain has at most 32 publications |
| HistoryEnrollment.HeadCheckImpliesDecisions | database/ec2_history_enrollment.py:121 | for a database captured under any export, the prefix decision count is implied by the head check |
| HistoryEnrollment.VerifiesExactly | database/ec2_history_enrollment.py:127-134 | a publication verifies on its own evidence, and on other evidence only with the same export, database bytes and reviews |
| EvidenceStore.Repository.StoreInventory | database/repository.py:121-146 | commits the whole batch, asset rows under their stripped ids and observations under the raw ones, or leaves every table as it was |
| EvidenceStore.Repository.StoreBundle | database/repository.py:148-208 | commits the whole bundle or leaves every table as it was |
| EvidenceStore.Repository.StoreAssessments | database/repository.py:298-315 | commits all assessments or leaves every table as it was |
| EvidenceStore.Repository.ReadAsset | database/evidence_reader.py:82-139 | returns the snapshot the read specification gives for the stripped id and the current rows |
| EvidenceStore.PlansJoinFindings | database/evidence_reader.py:119-121 | the join makes the plan-to-finding check redundant |
| EvidenceProperties.CallKeeps | database/repository.py:121-315 | a call keeps the database sound and only adds evidence; assessments leave discovery rows alone |
| EvidenceProperties.RunKeeps | database/schema.sql:4-154 | over any run references and uniqueness hold, evidence only grows and creation times never change |
| EvidenceProperties.BundleCommitsAll | database/repository.py:158-199 | a committed bundle adds each observation once, its finding, decision and plan, and rewrites only its asset row |
| EvidenceProperties.ReadListsLinkedRows | database/evidence_reader.py:104-139 | a snapshot lists exactly the rows linked to its asset, each once |
| EvidenceProperties.SoundReads | database/evidence_reader.py:113-121 | in a sound database a read fails only for a missing section |
| EvidenceProperties.StoredBundleReads | database/repository.py:148-208 | after a successful bundle its asset reads back, with every linked row and the bundle's own among them, exactly when the asset id has no surrounding white space |
| EvidenceProperties.SpacedBundleLost | database/evidence_reader.py:83 | a concrete bundle with asset id " a" commits into an empty database and cannot be read |
| EvidenceProperties.BundleStaysReadable | database/repository.py:121-315 | in any run from the empty database a committed bundle still reads back after any later calls, under the same condition |
| InventoryStorage.BatchCommits | database/repository.py:121-146 | a batch commits into an empty database only when it is not empty, every asset has observations, ids are readable and distinct, and its rows have distinct observation ids and source names; under an injective digest exactly then |
| InventoryStorage.CorrelatedBatchStores | database/repository.py:48-50 | the correlation of a list of observations commits exactly when it is not empty, its rows are distinct and named, no two assets share an id, and no two rows of one asset have the same NUL-joined text |
| InventoryStorage.NulRowsRefused | database/repository.py:49 | for all x, y and z and all digests the distinct rows (x NUL y, z) and (x, y NUL z) of one cloud resource never commit, although both pass validation |
| InventoryStorage.LeadingNulRefused | database/schema.sql:19-35 | a record id that starts with NUL passes validation and fails the schema's length check |
| InventoryStorage.AcceptedExportStores | database/ec2_inventory.py:41-45 | with injective digests an accepted export commits into an empty database exactly when it has an instance |
| Publication.NeverReplaced | database/assessment_backup.py:58-59 | over any interleaving a present destination keeps its bytes for ever |
| Publication.CompleteOrAbsent | database/assessment_backup.py:48-62 | stopped at any step, a new destination is absent or holds one publisher's complete bytes |
| Publication.OneSuccess | database/assessment_backup.py:48-62 | at most one publisher succeeds, and the destination holds its bytes |
| Publication.ExistingDestinationWins | database/assessment_backup.py:58-59 | over an existing destination nobody succeeds and nothing changes |
| SequenceRestore.PlanDistinct | database/ec2_sequence_archive.py:135-142 | restored files have distinct names, also as the texts `NN.sqlite`, `NN.json` and so on and against the staging file, and the completion record is last |
| SequenceRestore.CompleteUntilCleanup | database/ec2_sequence_archive.py:133-142 | until cleanup starts every published file is complete and `RESTORE.json` exists only with all of them |
| SequenceRestore.EverythingOrNothing | database/ec2_sequence_archive.py:133-146 | a run ends with every file and nothing else, or, after an error, with what was there before |
| ArchiveEntry.DecodeEncode | database/assessment_archive.py:47-57 | decoding encoded bytes returns them |
| ArchiveEntry.DecodesExactlyItsEntry | database/assessment_archive.py:47-60 | an entry decodes to bytes exactly when it is the entry of those bytes and they fit the limit |
| ArchiveEntry.LengthGuardAdmits | database/assessment_archive.py:55 | the text length guard admits every in-bound entry, and nothing beyond the limit rounded up to three bytes |
| ArchiveEntry.LooseTexts | database/assessment_archive.py:57-58 | the texts the library decoder accepts although they encode nothing are exactly those with non-zero unused bits in the last character; clearing the bits gives the encoding |
| ArchiveEntry.LooseTextRejected | database/assessment_archive.py:57-59 | every such text is refused by the comparison with the re-encoded entry |
| Ownership.FromDict | engine/ownership.py:83-134 | accepts exactly good directories and returns teams by id and rules by rule id |
| Ownership.ReadTags | engine/ownership.py:25-36 | accepts exactly non-blank, duplicate-free tags |
| Ownership.ResolutionMeans | engine/ownership.py:136-169 | a team is chosen exactly when the most specific matching rules all name it; ties are reported as ambiguous |
| Ownership.DirectoryAnyOrder | engine/ownership.py:131-134 | the order of teams and rules in the input does not matter |
| Ownership.ResolvedTeamListed | engine/ownership.py:116-117 | a directory resolves only to teams it lists |
| Remediation.PlanRemediation | engine/remediation.py:71-164 | plans exactly consistent dates; priority, due date, actions and factors follow the band, ownership and lateness |
| Remediation.LaterReview | engine/remediation.py:90-151 | a later review date keeps due date, owner and risk, and lowers the priority number by at most one, only by turning overdue |
| Remediation.UrgencyMonotone | engine/remediation.py:90-151 | a more severe band is never due later and never less urgent, and a requested date only brings a plan forward |
| WorkQueue.GroupItems | engine/work_queue.py:36-55 | the loop accepts exactly consistent items with distinct findings and groups them by team |
| WorkQueue.BuildWorkQueue | engine/work_queue.py:28-79 | builds the queue document of exactly the acceptable item lists |
| WorkQueue.AnyItemOrder | engine/work_queue.py:57-79 | the document is the same for every order of its items |
| WorkQueue.NothingLost | engine/work_queue.py:57-79 | queues and unassigned list together hold every item once, and the counts agree |
| WorkQueue.QueuesStrictlySorted | engine/work_queue.py:24-25 | every queue belongs to one team and is strictly sorted by priority, due date and finding |
| WorkQueue.RecoversEveryItem | database/ec2_assessment_compare.py:16-21 | reading a document back gives exactly one entry per item, the item itself |
| WorkQueue.MakeItem | engine/work_queue_cli.py:31-49 | builds an item exactly from good tags and plannable dates |
| WorkQueue.BuiltItemsConsistent | engine/work_queue_cli.py:31-49 | items built from one directory can only be refused for a finding id that occurs twice |
| InventoryQueue.PlanInventory | engine/inventory_queue_cli.py:31-115 | accepts exactly reviewable inputs and reports their queues, comparison and asset counts |
| InventoryQueue.ComparePriorities | engine/inventory_queue_cli.py:91-108 | the comparison loop; the guard on a changed risk assessment never fires |
| InventoryQueue.MovedIffDueBetween | engine/inventory_queue_cli.py:93-104 | an item changes exactly when its due date lies in the half-open interval from the baseline to the review date |
| InventoryQueue.ComparisonMeans | engine/inventory_queue_cli.py:98-108 | `changes` lists each item that falls due between the dates once per record, and no other, each newly overdue and at most one priority higher; the counts cover all records |

## Left out

- File opening, permissions, symbolic links, sidecar files, `fsync` and size limits in bytes: environment checks without an algorithm; the count limits (16 batches, 32 reviews, 20000 decisions, 10000 instances and records, 100 tags) are modelled.
- SHA-256, HMAC and Ed25519: digests are parameters; the shape of a digest text (64 lower-case hexadecimal digits) is not checked.
- Timestamps as text: the schema compares and orders ISO texts, in which a fractional second sorts before the whole second; with integer instants that difference does not appear.
- Unicode normalisation and IP address parsing: texts are already normalised and literal IPv4 addresses are a parameter; lower-casing covers ASCII letters.
- AwsDiscovery.ConvertExport: the JSON shape and size of an export, and the digest of its bytes, are not modelled; a parsed export is the argument.
- ReviewHistory.Load: raw table definitions, integrity pragmas and JSON syntax errors are outside the model; canonical text parses back or not at all.
- ReviewHistory.Retain: its record is the verified receipt or nothing; replay of a receipt is the parameter `reproduces`.
- InventoryQueue.PlanInventory: record syntax, digests of the inputs and the inventory binding digest are not modelled.
- TimelineCheckpoint.AssessSequence: checkpoint JSON, its pin and the formats of scope, account and region are not modelled.
- SequenceRestore.EverythingOrNothing: an `rmtree` that itself fails leaves a run that has not ended.
- Risk scoring, explanations and interpretation texts: the band and score of a finding are inputs.
- AssessmentCompare.CompareAssessments: the verification summaries that the report copies are not modelled.
- InventoryCompare.CompareInventories: the import contexts and snapshot digests that the report copies are not modelled.
- Command lines, demonstrations, the Airflow schedule, the storage probes, the keyring windows and approvals.
