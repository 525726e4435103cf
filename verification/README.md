# Evidence and certification model

A Dafny model of the scripts that decide whether evidence becomes a certificate: the plan, partition-worker and merge
protocols of phases 40.13.22, 40.13.23 and 40.13.24, the canonical encoding and proof coverage of OWL Direct results, the
immutable publication of compilation bundles, the integer statistics behind the performance claims, the W3C manifest walk and
tally, the property-chain evaluator, the OpenAPI reference check, and the GA release gate.

## How it is modelled

- Text is held as UTF-8, one character per byte; Python's string order is then `Orders.Le`. Integers are unbounded, as in
  Python; the 64-bit fields of the binary encoding are bounded where `struct.pack` bounds them.
- SHA-256, canonical JSON, `uuid.UUID` and Python's white-space test are parameters. Collision freedom is a hypothesis of the lemmas that need it, and only for the
  finitely many pre-images at hand; injectivity is proved on the pre-image bytes.
- A script that raises returns `None` or `false`. Missing JSON fields and missing files are values of the model.
- Drivers are function parameters that may answer anything. Worker runs are events in any order: failures, reruns,
  overwritten, removed and half-written reports (`ReportDirectory`). Publication is a step system over shared inodes, one step for each
  file-system call, with any number of processes that may crash between steps and sources that change while copied.
- Loops are methods with invariants, proved against specification functions; the hasher and the manifest loader are classes.
- Each acceptance rule is stated a second time, apart from the function that models the code, on the fields of the
  documents or the bytes that were hashed; the lemmas named `...Exactly`, `...Exact`, `...Iff` and `...Reads` connect the two.
- Where a phase document and its script disagree the model follows the script: `docs/phases/PHASE_40_13_22.md` says the merger
  requires all declared families and all three authorities, and `merge_phase40_13_22_reports.py` tests neither.
  `StandardsProtocol.EmptyPlanIsCertified` shows it, and `StandardsProtocol.CertificateCoversIffPlanDoes` says exactly when
  the coverage holds.

| files | what they hold |
|---|---|
| `Options`, `HexSha`, `Orders`, `Sorting`, `Sequences`, `Loops`, `Counters` | values, order, sorting, comprehensions, nested loops, counters |
| `DirectEncoding`, `DirectSpelling`, `DirectResult`, `DirectDigest`, `DirectCertificate`, `DirectProof` | Direct results: bytes, spelling rules, digest, certificate, proof bundle |
| `DirectDecoding`, `DirectImages`, `DirectRules`, `DirectIssue` | readers of the hashed bytes, exact acceptance rules, and the documents an honest run issues |
| `Publication`, `PublicationRoles`, `PublicationProgress` | the shared object root, the roles in a bundle, and progress |
| `ReportDirectory`, `Partitions` | histories of worker runs, partition numbers |
| `StandardsPlan`, `StandardsRun`, `StandardsProtocol`, `StandardsTeam` | phase 40.13.22 |
| `PerformancePlan`, `PerformanceRun`, `PerformanceMerge`, `PerformanceDensity`, `PerformanceProtocol`, `PerformanceTeam`, `PerformanceWorker`, `PerformanceGates`, `PerformanceCertificate`, `PerformanceClaims`, `IntegerStatistics` | phase 40.13.23 |
| `ReleasePlan`, `ReleaseRun`, `ReleaseProtocol`, `ReleaseEvidence`, `ReleaseTeam`, `ReleaseCertificate` | phase 40.13.24 |
| `PlannerExactness`, `MergerExactness` | what the three planners and the three mergers accept, spelled out on the fields |
| `ManifestWalk`, `ConformanceTally` | the W3C executor |
| `PropertyChain`, `OpenApiRefs` | the semantic corpus and the OpenAPI document |
| `GaRelease`, `GaArtifacts`, `GaExactness` | the GA gate |

## Model

| member | source | states |
|---|---|---|
| `DirectEncoding.Hasher.PutString` | scripts/validate_direct_certificate.py:22-23 | the buffer grows by the eight-byte big-endian length and the payload, and by nothing else |
| `DirectEncoding.Hasher.PutGraph` | scripts/validate_direct_certificate.py:25-27 | the buffer grows by the tagged graph encoding |
| `DirectEncoding.Hasher.PutTerm` | scripts/validate_direct_certificate.py:29-36 | the buffer grows by the tagged term encoding, with or without a language |
| `DirectEncoding.Hasher.PutRow` | scripts/validate_direct_proof.py:29-30 | the buffer grows by the binding count and the bindings in name order, whatever the order of the mapping |
| `DirectEncoding.StringCut` | scripts/validate_direct_certificate.py:22-23 | length prefixes make strings self-delimiting: equal texts with any tails have equal strings and equal tails |
| `DirectEncoding.GraphCut` | scripts/validate_direct_certificate.py:25-27 | graph encodings are self-delimiting and injective |
| `DirectEncoding.TermCut` | scripts/validate_direct_certificate.py:29-36 | term encodings are self-delimiting and injective over IRIs, blank nodes and literals with and without language |
| `DirectEncoding.RowCut` | scripts/validate_direct_certificate.py:39-40 | row encodings are self-delimiting, and equal encodings come from equal binding maps |
| `DirectEncoding.HexInjective` | scripts/validate_direct_certificate.py:61-61 | different digests have different hexadecimal spellings |
| `DirectDecoding.TermReads` | scripts/validate_direct_certificate.py:29-36 | a reader that knows only the format gets the term back from its encoding, and what follows it |
| `DirectDecoding.RowReads` | scripts/validate_direct_certificate.py:39-40 | from a row encoding, followed by anything, the reader gets exactly the bindings of the row, in name order |
| `DirectSpelling.CaseIsNotRead` | scripts/validate_direct_certificate.py:47-47 | two different texts are hexadecimal spellings of one UUID |
| `DirectResult.SolutionDigest` | scripts/validate_direct_certificate.py:38-41 | hashes exactly the domain, the row and the multiplicity, and fails exactly when the multiplicity is no u64 |
| `DirectResult.DigestRows` | scripts/validate_direct_certificate.py:53-54 | the digests of all rows in order, or none if some multiplicity is no u64 |
| `DirectResult.PutDigests` | scripts/validate_direct_certificate.py:53-54 | the buffer grows by the digests one after the other |
| `DirectResult.PutKey` | scripts/validate_direct_certificate.py:45-49 | the identity part of the pre-image is appended, and it fails exactly when a UUID cannot be read |
| `DirectResult.PutTable` | scripts/validate_direct_certificate.py:50-60 | the table part of the pre-image is appended, or nothing is promised when a count is no u64 |
| `DirectResult.ResultSha256` | scripts/validate_direct_certificate.py:43-61 | the digest of the result pre-image exactly for results the JSON schema accepts whose UUIDs can be read and whose counts fit, otherwise none |
| `DirectDigest.PreimageForgetsOrder` | scripts/validate_direct_certificate.py:47-54 | results that differ only in the order of their solutions and in the spelling of their UUIDs have the same pre-image |
| `DirectDigest.PreimageDeterminesResult` | scripts/validate_direct_certificate.py:22-61 | with collision-free row digests, pre-images are equal if and only if graph, variables, counts, outcome, error, the bag of solutions and the identity up to UUID spelling are equal; the documents themselves are then equal up to order if and only if the UUIDs are spelled alike |
| `DirectDigest.DigestDeterminesResult` | scripts/validate_direct_certificate.py:43-61 | the published digest identifies the answer up to solution order and UUID spelling, in both directions |
| `DirectDigest.SpellingsShareADigest` | scripts/validate_direct_certificate.py:47-47 | every digestible result has a twin that spells its dataset differently, is another document and has the same digest |
| `DirectImages.ResultReads` | scripts/validate_direct_certificate.py:43-61 | from the pre-image a reader gets back every hashed field of the result in its own place, nothing more and nothing left over |
| `DirectImages.SolutionReads` | scripts/validate_direct_certificate.py:38-41 | from the solution pre-image a reader gets back the bindings and the multiplicity |
| `DirectImages.DigestsOfRows` | scripts/validate_direct_certificate.py:53-54 | the digests in that table are those of the rows, each as often as it occurs, in increasing order |
| `DirectCertificate.CheckRows` | scripts/validate_direct_bgp_result.py:26-36 | the running total exactly when every row is valid and the whole sum fits a u64; an early overflow is never undone |
| `DirectCertificate.ValidateResult` | scripts/validate_direct_bgp_result.py:17-38 | accepts exactly the schema-valid and semantically valid results |
| `DirectCertificate.TotalGrows` | scripts/validate_direct_bgp_result.py:28-29 | with positive multiplicities no prefix total and no single row exceeds the total |
| `DirectCertificate.ValidResultEncodable` | scripts/validate_direct_certificate.py:47-52 | a validated result can be digested if and only if its UUIDs can be read and its candidate count fits a u64, the two things the validator does not test |
| `DirectCertificate.ValidateCertificate` | scripts/validate_direct_certificate.py:63-96 | accepts exactly the well-formed certificates, and with a result exactly those that bind this exact, complete result |
| `DirectCertificate.CertificateBindsOneAnswer` | scripts/validate_direct_certificate.py:86-96 | any two results one certificate binds are the same document up to solution order, spelling of identifiers included |
| `DirectCertificate.CertificateIgnoresDeliveryOrder` | scripts/validate_direct_certificate.py:86-96 | a certificate binds every reordering of a result it binds |
| `DirectCertificate.CertificateReadsTheSpelling` | scripts/validate_direct_certificate.py:86-92 | of the results that share the bound digest, a certificate binds exactly those that spell their identifiers alike |
| `DirectRules.CharactersCounted` | scripts/validate_direct_bgp_result.py:19-19 | the length tests count characters: the UTF-8 encoding of n code points has length n |
| `DirectRules.IriExactly` | scripts/validate_direct_bgp_result.py:12-15 | an absolute IRI is exactly a text without white space that starts with a scheme name of RFC 3986, section 3.1, and a colon |
| `DirectRules.ResultExactly` | scripts/validate_direct_bgp_result.py:17-38 | the validator accepts exactly the good results: digests, graph, variables, terms, multiplicities that count every answer once, and an outcome that is complete and exact or failed and empty |
| `DirectRules.CertificateExactly` | scripts/validate_direct_certificate.py:63-85 | the validator accepts exactly the certificates of a finished enumeration in a printable reasoner, with strictly ordered references that, in version 2, all lie in the one manifest |
| `DirectIssue.HonestCertificateAccepted` | scripts/validate_direct_certificate.py:63-96 | the certificate issued for a validated, digestible, complete result of an honest run is accepted and binds that result |
| `DirectProof.BindingSha` | scripts/validate_direct_proof.py:28-31 | hashes exactly the binding domain and the row |
| `DirectProof.BindingShas` | scripts/validate_direct_proof.py:59-61 | the binding digests of all solutions in order |
| `DirectProof.SupportId` | scripts/validate_direct_proof.py:32-37 | hashes exactly the support pre-image, and fails exactly when a UUID cannot be read or an ordinal, index or count does not fit its field |
| `DirectProof.CompletionId` | scripts/validate_direct_proof.py:38-41 | hashes exactly the completion pre-image, and fails exactly when a UUID cannot be read; `DirectImages.CompletionReads` says what that pre-image holds |
| `DirectProof.SupportBytesInjective` | scripts/validate_direct_proof.py:32-37 | equal support pre-images under one identity come from proofs equal in every hashed field; `DirectImages.SupportBytesExact` is the law for two identities |
| `DirectImages.SupportReads` | scripts/validate_direct_proof.py:32-37 | from the support pre-image a reader gets back the identity, the graph and each field of the proof in its own place |
| `DirectImages.SupportBytesExact` | scripts/validate_direct_proof.py:32-37 | support pre-images, of any two identities and proofs, are equal if and only if the UUIDs, all other identity fields and all hashed proof fields are |
| `DirectImages.CompletionReads` | scripts/validate_direct_proof.py:38-41 | from the completion pre-image a reader gets back the ten hashed fields, each in its own place |
| `DirectImages.CompletionBytesExact` | scripts/validate_direct_proof.py:38-41 | completion pre-images are equal if and only if the UUIDs, the query, the pattern, the result, the candidate space, the execution, the reasoner and the adapter are |
| `DirectProof.DomainsSeparate` | scripts/validate_direct_proof.py:12-41 | no support pre-image is a completion pre-image |
| `DirectProof.SupportIdsDistinct` | scripts/validate_direct_proof.py:47-51 | strictly increasing ordinals and separate domains make all support identifiers and the completion identifier different |
| `DirectProof.SupportIdsMatch` | scripts/validate_direct_proof.py:50-51 | true exactly when every answer proof carries the digest of its own fields |
| `DirectProof.CheckReferences` | scripts/validate_direct_proof.py:67-69 | true exactly when the references list the completion and every support identifier once each |
| `DirectProof.Validate` | scripts/validate_direct_proof.py:42-73 | returns the manifest digest exactly for accepted bundles; `DirectIssue.BundleMeans` says what acceptance implies and `DirectIssue.HonestBundleAccepted` that an honest bundle is accepted |
| `DirectProof.AcceptedProofsCoverTheBag` | scripts/validate_direct_proof.py:59-66 | each solution has exactly its multiplicity many proofs, no row is listed twice, and multiplicities add up to the declared total |
| `DirectProof.AcceptedReferencesAreExact` | scripts/validate_direct_proof.py:67-71 | the certificate carries exactly the total plus one pairwise different references: one for each proof and the completion |
| `DirectIssue.UnitsCover` | scripts/validate_direct_proof.py:59-66 | one proof for every occurrence of every row is an exact cover, if different rows have different digests |
| `DirectIssue.HonestBundleAccepted` | scripts/validate_direct_proof.py:42-73 | the manifest and the certificate of an honest run, with one support record for each occurrence of each answer, are accepted |
| `DirectIssue.BundleMeans` | scripts/validate_direct_proof.py:42-73 | the three accepted documents are about one identity, one result digest, one candidate space, one execution and one reasoner, and the certificate names the manifest |
| `Counters.TallyKeys` | scripts/validate_direct_proof.py:59-64 | fills the counter exactly when no key repeats |
| `Counters.Covered` | scripts/validate_direct_proof.py:59-66 | the two counters agree exactly when every key occurs its count of times and nothing else occurs |
| `Counters.CoverTotal` | scripts/validate_direct_proof.py:66-66 | the counts of an exact cover add up to the number of names |
| `Publication.NamesSeparate` | scripts/stage_reference_bundle.py:17-17 | temporary names are never final names, and final names are never temporary ones |
| `Publication.StepKeepsInvariant` | scripts/stage_reference_bundle.py:84-116 | every step of every process, a crash included, keeps the root invariant and changes no published file |
| `Publication.EmptyRootIsGood` | scripts/stage_reference_bundle.py:119-123 | the invariant holds of an empty root |
| `Publication.RunKeeps` | scripts/stage_reference_bundle.py:84-185 | the invariant and every published file survive any interleaving |
| `Publication.PublishedObjectsAreImmutable` | scripts/stage_reference_bundle.py:92-116 | in every run, a file visible under a final name hashes to its folder and never changes afterwards, and a visible bundle is never partial |
| `Publication.VisibleBundleIsComplete` | scripts/stage_reference_bundle.py:124-185 | in every reachable state a visible bundle has every object it names already visible with the recorded digest; `PublicationRoles.VisibleBundleOrigin` says which object fills which role |
| `Publication.ConflictMeansCollision` | scripts/stage_reference_bundle.py:96-110 | the conflict branches are unreachable for inputs, and reachable for a bundle only when the published content differs from its own rendering and has the same digest |
| `PublicationRoles.StepKeepsOrder` | scripts/stage_reference_bundle.py:124-131 | every step of every process keeps the inputs in command-line order: the k-th published object is the k-th input |
| `PublicationRoles.BundleFillsRoles` | scripts/stage_reference_bundle.py:124-155 | in every reachable state of every interleaving, the bundle a process publishes names its first input as source, its last as expected result, the one before as query and the rest as ontologies in order |
| `PublicationRoles.VisibleBundleOrigin` | scripts/stage_reference_bundle.py:129-185 | every bundle that became visible was linked by some process of the run, is the rendering of the bundle whose roles the inputs of that process fill, and all it names is visible |
| `PublicationProgress.LoneProcessFinishes` | scripts/stage_reference_bundle.py:119-185 | a process left alone with valid, different names, still sources, no leftovers and no colliding bundle finishes, and its bundle is visible under its digest |
| `PublicationProgress.NameExactly` | scripts/stage_reference_bundle.py:17-18 | the accepted names are exactly those of ASCII letters, digits, full stops, hyphens and underscores that start with no full stop or hyphen and are not reserved |
| `PublicationProgress.BadNameRaises` | scripts/stage_reference_bundle.py:84-91 | any other name raises before a file is touched |
| `PublicationProgress.LeftoverRaises` | scripts/stage_reference_bundle.py:100-101 | a temporary left by a crashed process with the same pid makes its successor raise before it writes |
| `PublicationProgress.CrashLeavesFiles` | scripts/stage_reference_bundle.py:92-116 | a crash changes no file, and the process takes no further step |
| `IntegerStatistics.IntegerNthRoot` | scripts/merge_phase40_13_23_reports.py:66-78 | terminates, raises exactly on a negative value or a degree below one, and otherwise returns r with r^d <= v < (r+1)^d |
| `IntegerStatistics.Bisect` | scripts/merge_phase40_13_23_reports.py:72-78 | narrows any bracket of the root to width one |
| `IntegerStatistics.RootUnique` | scripts/merge_phase40_13_23_reports.py:66-78 | no other number satisfies the root bounds |
| `IntegerStatistics.Products` | scripts/merge_phase40_13_23_reports.py:160-161 | the two loops compute the numerator and the denominator product |
| `IntegerStatistics.GeometricSpeedup` | scripts/merge_phase40_13_23_reports.py:158-162 | the root r of the floored quotient of the two products, or a failure exactly when no number is one |
| `IntegerStatistics.RatioRootIsGeometricMean` | scripts/merge_phase40_13_23_reports.py:158-162 | for positive medians that root is the greatest r with r^n * prod(ngkg) <= prod(1000 * jena), although the code divides before taking the root |
| `IntegerStatistics.GeometricMeanUnique` | scripts/merge_phase40_13_23_reports.py:158-162 | that number is unique |
| `IntegerStatistics.GeometricMeanBetween` | scripts/merge_phase40_13_23_reports.py:128-162 | it lies between every lower and every upper bound of the per-scenario speedups |
| `IntegerStatistics.GeometricMeanForgetsOrder` | scripts/merge_phase40_13_23_reports.py:158-162 | it does not depend on the order of the scenarios |
| `IntegerStatistics.NearestIsOrderStatistic` | scripts/merge_phase40_13_23_reports.py:31-36 | for percentiles 1 to 100 a member of the list with at least the rank many values not above it and fewer strictly below |
| `IntegerStatistics.OrderStatisticUnique` | scripts/merge_phase40_13_23_reports.py:31-36 | only one value is the order statistic of a rank |
| `IntegerStatistics.NearestForgetsOrder` | scripts/merge_phase40_13_23_reports.py:31-36 | every permutation of the list has the same percentile |
| `IntegerStatistics.NearestMonotone` | scripts/merge_phase40_13_23_reports.py:31-36 | percentiles grow with p |
| `IntegerStatistics.ZeroPercentileIsTheMaximum` | scripts/merge_phase40_13_23_reports.py:35-36 | at percentile 0 the index -1 returns the maximum |
| `StandardsPlan.BuildPlan` | scripts/build_phase40_13_22_plan.py:26-70 | a plan exactly for valid, pairwise different definitions and a partition count in range |
| `StandardsPlan.ValidatePlan` | scripts/run_phase40_13_22_partition.py:64-87 | accepts exactly the plans in strict identifier order whose digests and partitions recompute |
| `StandardsPlan.SortedIdsIncrease` | scripts/build_phase40_13_22_plan.py:68-68 | planned identifiers increase strictly |
| `StandardsPlan.BuiltPlanAcceptedIffNoEmptyId` | scripts/run_phase40_13_22_partition.py:78-87 | the worker accepts a built plan if and only if no case identifier is empty |
| `PlannerExactness.StandardsExactly` | scripts/build_phase40_13_22_plan.py:45-67 | the accepted definitions are exactly complete, differently named ones with a known oracle that expect success without an error class or failure with one |
| `StandardsTeam.DefinitionPlanned` | scripts/build_phase40_13_22_plan.py:51-68 | every definition is planned as written, under the digest of its descriptor and the partition of its identity |
| `StandardsRun.RunCasePasses` | scripts/run_phase40_13_22_partition.py:90-175 | an accepted pair of driver runs reached the planned outcome and agrees on one well-formed, normative digest or on the planned error class; `StandardsRun.RunCaseExactly` is the law in both directions |
| `StandardsRun.RunCaseExactly` | scripts/run_phase40_13_22_partition.py:90-175 | a case yields a row if and only if both drivers, each in its pinned version and within the limits, printed one and the same answer, it is the planned one, and the row records it: no good pair is refused |
| `StandardsRun.RunPartition` | scripts/run_phase40_13_22_partition.py:195-222 | a report exactly when every check and every assigned case succeeded; `StandardsTeam.WorkerSucceedsIff` says when that is |
| `StandardsTeam.WorkerSucceedsIff` | scripts/run_phase40_13_22_partition.py:195-222 | a worker reports if and only if its settings are in range, the plan and the suite are the planned ones and both engines agree on the planned answer for every assigned case |
| `StandardsRun.MergeRows` | scripts/merge_phase40_13_22_reports.py:53-62 | the inner loop accepts exactly the rows that recheck, and records their identifiers |
| `StandardsRun.ExactAssignment` | scripts/merge_phase40_13_22_reports.py:49-52 | rows that list the sorted assignment are pairwise different and cover it |
| `StandardsRun.MergeReports` | scripts/merge_phase40_13_22_reports.py:41-62 | the outer loop accepts exactly indexed, complete reports of different workers, and observes all lower partitions |
| `StandardsRun.Merge` | scripts/merge_phase40_13_22_reports.py:34-71 | issues the certificate exactly when the all-partitions barrier passes |
| `StandardsProtocol.WorkerRows` | scripts/run_phase40_13_22_partition.py:213-222 | a successful worker reports exactly its assigned cases, in order, each passed |
| `StandardsProtocol.CertificateMeansEveryCasePassed` | scripts/merge_phase40_13_22_reports.py:34-71 | after any history of worker runs, a certificate means that each planned case has exactly one merged observation, from its own partition, and that a worker ran it on the descriptor whose digest was planned and it passed there |
| `StandardsProtocol.WorkerReportsAcceptedIffFullTeam` | scripts/merge_phase40_13_22_reports.py:36-64 | successful reports are certified if and only if there is one worker for every partition under different non-empty names |
| `StandardsProtocol.CertificateCountsDefinitions` | scripts/merge_phase40_13_22_reports.py:65-71 | the certificate of a built plan counts every definition |
| `StandardsTeam.CertificateCountsFamilies` | scripts/merge_phase40_13_22_reports.py:65-70 | the certificate of a built plan counts in each family exactly its definitions, and lists no other family |
| `StandardsTeam.EveryDefinitionPassed` | scripts/merge_phase40_13_22_reports.py:34-71 | after any history, a certificate over a built plan means that each definition, as written, has exactly one merged row, from a worker that ran it on its own descriptor and saw both engines give the expected answer |
| `StandardsTeam.GoodAnswersAreCertified` | scripts/merge_phase40_13_22_reports.py:34-71 | conversely, if the drivers of one worker for each partition agree on the planned answers, every worker reports and the merger certifies |
| `MergerExactness.StandardsMergeExactly` | scripts/merge_phase40_13_22_reports.py:34-64 | whoever wrote them, the merger accepts exactly one complete report for each partition, by different named workers, whose rows stand for exactly the planned cases in identifier order |
| `StandardsProtocol.MergerAloneMissesTheDigest` | scripts/merge_phase40_13_22_reports.py:58-60 | without workers behind the reports, the merger certifies a success without the planned digest |
| `StandardsProtocol.EmptyPlanIsCertified` | scripts/merge_phase40_13_22_reports.py:36-71 | the planner accepts a suite without cases, one worker reports on it, and the merger certifies zero cases, against the phase document |
| `StandardsProtocol.CertificateCoversIffPlanDoes` | scripts/merge_phase40_13_22_reports.py:65-70 | a certificate covers given families and oracles if and only if the plan's cases do |
| `ReportDirectory.Provenance` | scripts/run_phase40_13_22_partition.py:223-226 | every readable report after any history was written by some successful invocation |
| `ReportDirectory.ListedReportOrigin` | scripts/merge_phase40_13_22_reports.py:36-39 | every report the merger lists was written by some successful invocation |
| `ReportDirectory.TornUntilMended` | scripts/run_phase40_13_24_partition.py:65-65 | a report is half-written if and only if some worker died writing it and no later run or removal mended it |
| `Partitions.DenseNumbers` | scripts/merge_phase40_13_22_reports.py:43-45 | n different numbers below n, once sorted, are 0 to n-1 |
| `Partitions.PartitionsAreIndices` | scripts/merge_phase40_13_23_reports.py:91-94 | reports of different partitions in range, sorted by partition, stand at their own index |
| `Partitions.EachPartitionAccepted` | scripts/merge_phase40_13_23_reports.py:91-103 | sorted reports are all acceptable at their index if and only if each partition has an acceptable report |
| `PerformancePlan.CheckNeighbours` | scripts/build_phase40_13_23_plan.py:120-125 | comparing neighbours decides whether resources grow strictly between any two scale points and the meaning never changes |
| `PerformancePlan.CheckGroup` | scripts/build_phase40_13_23_plan.py:116-128 | accepts exactly the dense, growing, steady groups that hold every required node count |
| `PerformancePlan.PlanScenarios` | scripts/build_phase40_13_23_plan.py:83-115 | accepts exactly valid, differently named definitions in which one dataset digest has one description |
| `PerformancePlan.FillGroups` | scripts/build_phase40_13_23_plan.py:115-115 | the dictionary holds for each capacity group its scenarios in order |
| `PerformancePlan.BuildPlan` | scripts/build_phase40_13_23_plan.py:53-146 | a plan exactly when the image digests, the hardware, pricing and autoscaling evidence, the definitions and the whole matrix are valid |
| `PerformancePlan.BuiltPlanIsSound` | scripts/build_phase40_13_23_plan.py:89-112 | planned identifiers are unique, partitions exist, trial counts meet the policy, and baseline families are compared |
| `PerformancePlan.BuiltGroupsAreDense` | scripts/merge_phase40_13_23_reports.py:145-148 | the merger's density test on capacity groups never refuses a built plan |
| `PerformancePlan.BuiltTeamIsDense` | scripts/merge_phase40_13_23_reports.py:39-49 | over a built plan, a full team of successful workers passes the barrier and every density test |
| `PlannerExactness.GroupExactly` | scripts/build_phase40_13_23_plan.py:116-128 | sorting a group and comparing neighbours decides whether its scales are 0 to n-1, a larger scale always has more nodes, cores and memory, all points mean the same, and every required node count occurs |
| `PlannerExactness.PerformanceExactly` | scripts/build_phase40_13_23_plan.py:53-134 | the planner accepts exactly good orders of good, differently named scenarios over enough large datasets, each digest with one description, every group good and every client level asked for |
| `PlannerExactness.DefinitionPlanned` | scripts/build_phase40_13_23_plan.py:109-115 | every definition is planned exactly once, with all its settings, under the digest of its descriptor and the partition of its identity |
| `PlannerExactness.PlanNames` | scripts/build_phase40_13_23_plan.py:135-146 | the plan names the images, and the digests of the inventory, hardware, pricing and autoscaling documents it was built from |
| `PerformanceRun.RunTrial` | scripts/run_phase40_13_23_partition.py:56-96 | an accepted row answers its own request, has the planned result inside the envelope, and took time and did work |
| `PerformanceWorker.RunTrialExactly` | scripts/run_phase40_13_23_partition.py:56-96 | a trial yields a row if and only if the driver printed exactly it, in the pinned version and within the limits, its counters are plausible, and it fits the request, the planned result and the envelope |
| `PerformanceRun.RunEngines` | scripts/run_phase40_13_23_partition.py:139-146 | the engine loop yields the accepted rows in order, or stops at the first failure |
| `PerformanceRun.RunPhase` | scripts/run_phase40_13_23_partition.py:136-146 | the trial loop runs every engine of every trial |
| `PerformanceRun.RunScenarios` | scripts/run_phase40_13_23_partition.py:127-146 | the scenario loop runs both phases of every assigned scenario, if all are ready |
| `PerformanceRun.RunPartition` | scripts/run_phase40_13_23_partition.py:113-148 | a report exactly when every setting, scenario and trial was accepted |
| `PerformanceWorker.ScheduleExactly` | scripts/run_phase40_13_23_partition.py:127-146 | a worker asks exactly for the planned warm-up and measured trials, with every required engine, of the scenarios of its partition |
| `PerformanceWorker.WorkerSucceedsIff` | scripts/run_phase40_13_23_partition.py:113-148 | a worker reports if and only if its settings are in range, its documents are the planned ones, and each scenario of its partition can start and has every planned trial answered well |
| `PerformanceMerge.CollectRows` | scripts/merge_phase40_13_23_reports.py:104-112 | accepts exactly rows that recheck, and files each under its scenario in order |
| `PerformanceMerge.CollectReports` | scripts/merge_phase40_13_23_reports.py:98-112 | accepts exactly indexed reports of differently named workers, and the dictionary holds all their rows |
| `PerformanceMerge.SummarizeAll` | scripts/merge_phase40_13_23_reports.py:120-144 | the scenario loop succeeds exactly when every scenario is summarized, and collects exactly the compared medians and hot speedups |
| `PerformanceMerge.OutcomePair` | scripts/merge_phase40_13_23_reports.py:126-144 | a summarized scenario has a speedup exactly when it was compared, its NGKG median is not zero, and that speedup is the ratio the mean takes |
| `PerformanceMerge.RatiosDefined` | scripts/merge_phase40_13_23_reports.py:158-162 | no denominator of the mean is zero, whatever counters the reports hold |
| `PerformanceMerge.CheckSpeed` | scripts/merge_phase40_13_23_reports.py:158-166 | passes exactly when the root of the ratios exists and it and the hot median reach their gates |
| `PerformanceMerge.Merge` | scripts/merge_phase40_13_23_reports.py:88-181 | issues the certificate exactly when the barrier, the thresholds, the capacity groups and the claim gates pass, for rows with any counters; `PerformanceCertificate.ClaimsExactly` restates them on the fields of the trials |
| `MergerExactness.PerformanceBarrierExactly` | scripts/merge_phase40_13_23_reports.py:91-112 | whoever wrote them, the barrier accepts exactly one complete report for each partition, by different named workers, whose rows have the planned result and scaling evidence and stay within the requested resources |
| `PerformanceGates.PercentileRanks` | scripts/merge_phase40_13_23_reports.py:31-63 | the percentile of floored rates is the whole part of the exact ratio that stands at that rank: fewer trials than the rank are below it, and at least as many are below the next number |
| `PerformanceGates.RankUnique` | scripts/merge_phase40_13_23_reports.py:31-63 | no other number has that rank |
| `PerformanceGates.EngineStatsExactly` | scripts/merge_phase40_13_23_reports.py:39-63 | for measured rows an engine is summarized if and only if it has each planned trial of both phases exactly once, and the summary holds the ranks 50, 95 and 99 of the durations, the median rates, and the largest node and memory counts of those trials |
| `PerformanceGates.StatsUnique` | scripts/merge_phase40_13_23_reports.py:46-63 | these numbers are unique |
| `PerformanceGates.SummarizeExactly` | scripts/merge_phase40_13_23_reports.py:120-144 | a scenario qualifies if and only if its trials are complete, report one artifact root, and meet the latency, throughput, speedup and cost limits, stated on durations, work and costs without rounding |
| `PerformanceGates.SummaryExactly` | scripts/merge_phase40_13_23_reports.py:120-144 | and the summary then holds the numbers of its trials |
| `PerformanceCertificate.GroupExactly` | scripts/merge_phase40_13_23_reports.py:145-156 | a capacity group passes if and only if its scales are 0 to n-1, the largest is no slower than the smallest in exact median rates, and all artifact roots its trials report are one |
| `PerformanceCertificate.MeanExactly` | scripts/merge_phase40_13_23_reports.py:158-164 | the mean gate passes if and only if some scenario was compared and the exact product of the median ratios reaches the gate to that power |
| `PerformanceCertificate.HotExactly` | scripts/merge_phase40_13_23_reports.py:165-166 | the hot gate passes if and only if fewer than half of the hot comparisons, counted by rank, fall short of it |
| `PerformanceCertificate.ScaleGatesExactly` | scripts/merge_phase40_13_23_reports.py:167-176 | the ingestion, property-path and concurrency gates pass if and only if some measured trial loads 100 GiB in time, fewer than half of the trials of some path scenario, counted by rank, stay below the edge rate, and some scenario asks for enough clients |
| `PerformanceCertificate.ClaimsExactly` | scripts/merge_phase40_13_23_reports.py:114-176 | for measured rows the claims hold if and only if the fields of the trials meet every one of them |
| `PerformanceDensity.DenseMeansOnce` | scripts/merge_phase40_13_23_reports.py:39-49 | a dense selection has exactly one merged row for each planned trial and none for any other |
| `PerformanceDensity.OneRequestPerEngine` | scripts/run_phase40_13_23_partition.py:132-141 | whichever engine the hash put first, each required engine is asked exactly once in a trial |
| `PerformanceDensity.ScenarioTrials` | scripts/run_phase40_13_23_partition.py:136-146 | one engine's requests in one phase are exactly its planned trials |
| `PerformanceDensity.ReportKeys` | scripts/run_phase40_13_23_partition.py:127-148 | a report holds one row for each scheduled trial and engine, and nothing else |
| `PerformanceProtocol.CertifiedTrials` | scripts/merge_phase40_13_23_reports.py:39-127 | in a certified run every required engine has exactly one row for each planned warm-up and measured trial of every scenario, and none beyond |
| `PerformanceProtocol.MergedRow` | scripts/merge_phase40_13_23_reports.py:104-112 | every merged row belongs to a scenario of its own partition, with the planned result and scaling evidence, inside the envelope |
| `PerformanceProtocol.CertifiedRowMeasured` | scripts/run_phase40_13_23_partition.py:76-146 | after any history, every certified row was measured by a successful worker on this plan and on the descriptor whose digest was planned: positive time, work and nodes |
| `PerformanceProtocol.AllRowsMeasured` | scripts/run_phase40_13_23_partition.py:83-86 | so every counter the merger divides by is positive in a certified run |
| `PerformanceProtocol.PositiveMedian` | scripts/merge_phase40_13_23_reports.py:46-63 | measured rows have a positive median duration |
| `PerformanceProtocol.PercentilesOrdered` | scripts/merge_phase40_13_23_reports.py:46-63 | whoever wrote the reports, every certified scenario and engine has p50 <= p95 <= p99 over exactly the planned number of measured trials |
| `PerformanceProtocol.CertifiedMeanBetween` | scripts/merge_phase40_13_23_reports.py:128-164 | after any history, the certified mean is the geometric mean of the compared medians, reaches its gate, and lies between any bounds of the compared speedups |
| `PerformanceProtocol.SomeScenarioReachesTheGate` | scripts/merge_phase40_13_23_reports.py:158-164 | after any history, the speedup of some compared scenario reaches the gate on the mean |
| `PerformanceProtocol.FileOrderIrrelevant` | scripts/merge_phase40_13_23_reports.py:91-94 | renaming the report files changes neither the verdict nor the merged rows |
| `PerformanceClaims.ThresholdsHoldForTrials` | scripts/merge_phase40_13_23_reports.py:129-136 | in a certified run of measured rows each scenario has exactly the planned number of measured trials, and enough of them are within the latency, throughput and cost limits, stated on durations, work items and costs |
| `PerformanceClaims.RequiredSpeedupHolds` | scripts/merge_phase40_13_23_reports.py:128-134 | for worker-measured rows a required speedup means that the scenario was compared and that the medians satisfy the ratio without rounding |
| `PerformanceClaims.GroupSharesOneArtifact` | scripts/merge_phase40_13_23_reports.py:151-156 | all certified trials of a capacity group that report an artifact root report the same one |
| `PerformanceClaims.LargestScaleIsNoSlower` | scripts/merge_phase40_13_23_reports.py:145-150 | in every certified group the median throughput at the largest scale is at least that at scale zero |
| `PerformanceClaims.CertifiedClaims` | scripts/merge_phase40_13_23_reports.py:88-181 | after any history, a certificate means that the trials the workers measured meet every claim |
| `PerformanceClaims.TeamCertifiedIff` | scripts/merge_phase40_13_23_reports.py:88-181 | a full team of successful workers is certified if and only if the inventory is the planned one and the trials they measured meet every claim |
| `PerformanceTeam.WorkerReportsAcceptedIffFullTeam` | scripts/merge_phase40_13_23_reports.py:91-112 | successful reports pass the barrier if and only if there is one worker for every partition under different non-empty names |
| `PerformanceTeam.TeamIsDense` | scripts/merge_phase40_13_23_reports.py:39-49 | a full team's rows are dense if and only if the planned count is not negative, for every scenario, engine and phase |
| `ReleasePlan.PlanScenarios` | scripts/build_phase40_13_24_plan.py:79-101 | accepts exactly valid, differently named definitions, and collects their scenarios, descriptors and provider-gate pairs |
| `ReleasePlan.BuildPlan` | scripts/build_phase40_13_24_plan.py:61-112 | a plan exactly when the inputs are valid and every gate is asked of every provider |
| `ReleasePlan.PlannedIdsIncrease` | scripts/build_phase40_13_24_plan.py:105-105 | a built plan lists each definition once, in strict identifier order |
| `PlannerExactness.ReleaseExactly` | scripts/build_phase40_13_24_plan.py:40-105 | the planner accepts exactly good requests with good, differently named scenarios that ask every gate of every provider |
| `ReleaseRun.RunScenario` | scripts/run_phase40_13_24_partition.py:43-61 | an observation is kept only if the scenario was approved and the observation met it |
| `ReleaseCertificate.RunScenarioExactly` | scripts/run_phase40_13_24_partition.py:43-61 | an observation is kept if and only if the scenario may run, the driver printed exactly it in time, and it satisfies every field of the scenario |
| `ReleaseRun.RunScenarios` | scripts/run_phase40_13_24_partition.py:42-61 | all observations in order, or none at the first failure |
| `ReleaseRun.RunPartition` | scripts/run_phase40_13_24_partition.py:38-63 | a report exactly when every assigned scenario was approved and met |
| `ReleaseCertificate.WorkerSucceedsIff` | scripts/run_phase40_13_24_partition.py:38-63 | a worker reports if and only if its settings are in range and every scenario of its partition may run and is answered well |
| `ReleaseRun.MergeRows` | scripts/merge_phase40_13_24_reports.py:39-43 | continues the dictionary exactly when all rows recheck and none repeats a scenario, across reports |
| `ReleaseRun.MergeReports` | scripts/merge_phase40_13_24_reports.py:33-43 | accepts exactly reports of different partitions and workers whose rows recheck without repetition |
| `ReleaseRun.HashLines` | scripts/merge_phase40_13_24_reports.py:46-48 | the loop yields the lines of the given identifiers in order |
| `ReleaseRun.HashEvidence` | scripts/merge_phase40_13_24_reports.py:46-48 | hashes the evidence lines in identifier order |
| `ReleaseRun.Merge` | scripts/merge_phase40_13_24_reports.py:27-57 | issues the certificate exactly when the barrier and the final coverage test pass |
| `MergerExactness.ReleaseBarrierExactly` | scripts/merge_phase40_13_24_reports.py:29-45 | whoever wrote them, the barrier accepts exactly one complete report for each partition, by different workers, whose observations stand for the planned scenarios, each exactly once |
| `ReleaseProtocol.CertifiedScenario` | scripts/merge_phase40_13_24_reports.py:34-45 | after any history, each planned scenario has exactly one merged observation, made by a run of its own partition that was approved for it and met every minimum |
| `ReleaseProtocol.BuiltCatalogMatches` | scripts/build_phase40_13_24_plan.py:97-100 | the planner's own catalog holds for each planned scenario the descriptor whose digest was planned |
| `ReleaseProtocol.DescriptorIsNotRechecked` | scripts/run_phase40_13_24_partition.py:45-49 | the worker accepts any other catalog with the same identifiers and reports the same, if the driver answers alike: no script recomputes the digest |
| `ReleaseProtocol.EveryGateOnEveryProvider` | scripts/build_phase40_13_24_plan.py:79-105 | a certificate over a built plan means that each of the 15 gates was passed on each of the 5 providers with three nodes and cores, all failures recovered, the soak policy met, and flag and exact approval for disruptive gates |
| `ReleaseProtocol.BarrierSuffices` | scripts/merge_phase40_13_24_reports.py:56-57 | the final five-provider, fifteen-gate test never refuses a built plan |
| `ReleaseProtocol.FileOrderIrrelevant` | scripts/merge_phase40_13_24_reports.py:29-35 | renaming the report files changes neither the verdict nor the certificate |
| `ReleaseEvidence.RootDependsOnlyOnEvidence` | scripts/merge_phase40_13_24_reports.py:46-48 | two certified runs over the same scenarios with the same evidence have the same root, whatever their partition counts, workers and files |
| `ReleaseEvidence.EvidenceTextExact` | scripts/merge_phase40_13_24_reports.py:46-48 | for texts without NUL the hashed text and the scenario-to-evidence map determine each other |
| `ReleaseEvidence.NulMakesTextsAmbiguous` | scripts/merge_phase40_13_24_reports.py:46-48 | two different evidence maps with NUL in a digest have one hashed text; no script tests the form of these digests |
| `ReleaseTeam.WorkerReportsAcceptedIffFullTeam` | scripts/merge_phase40_13_24_reports.py:29-57 | successful reports on a built plan are certified if and only if there is one worker for every partition under different names |
| `ReleaseCertificate.EveryDefinitionMet` | scripts/merge_phase40_13_24_reports.py:27-57 | after any history, a certificate over a built plan means that each definition, as written, has exactly one merged observation, of its own partition, that meets its output, minimums and duration, from a worker allowed to run it |
| `ReleaseCertificate.GoodAnswersAreCertified` | scripts/merge_phase40_13_24_reports.py:27-57 | conversely, if one worker for each partition is allowed to run its scenarios and its driver answers them well, every worker reports and the merger certifies |
| `ReleaseCertificate.CertificateNames` | scripts/merge_phase40_13_24_reports.py:49-57 | the certificate of a built plan names the release, the performance certificate and the semantic evidence of the request, the five providers and the fifteen gates |
| `ManifestWalk.ListItems` | scripts/run_w3c_conformance.py:116-130 | terminates on every graph and follows the list until its end |
| `ManifestWalk.ListItemsExact` | scripts/run_w3c_conformance.py:116-130 | the items of exactly the finite, nil-terminated lists; cycles and gaps raise |
| `ManifestWalk.Loader.Load` | scripts/run_w3c_conformance.py:264-288 | terminates on cyclic includes; on success adds exactly the newly reachable manifests and counts each once, on failure a reachable manifest is broken |
| `ManifestWalk.Loader.LoadRoots` | scripts/run_w3c_conformance.py:403-406 | the inventory over all roots with one shared set, or a broken reachable manifest |
| `ManifestWalk.InventoryIsReachable` | scripts/run_w3c_conformance.py:264-288 | the visited set is exactly what the roots reach by includes, and each manifest contributes its own entries exactly once |
| `ManifestWalk.LoadedImpliesUnbroken` | scripts/run_w3c_conformance.py:264-288 | loading never succeeds where a reachable manifest is broken |
| `ManifestWalk.RootOrderIrrelevant` | scripts/run_w3c_conformance.py:403-406 | the order of the roots changes neither the manifests nor the bag of tests |
| `ConformanceTally.ClassifyAll` | scripts/run_w3c_conformance.py:408-552 | each test is recorded once at its index and counted unless it is left as a task, with the bags of its types and of the kinds found |
| `ConformanceTally.ExecuteAll` | scripts/run_w3c_conformance.py:575-580 | each task updates its own record and the counter catches up |
| `ConformanceTally.RunSuite` | scripts/run_w3c_conformance.py:408-601 | one record for each test in index order with its final status, a tally that is the bag of statuses and sums to the inventory, and exact counts by type and by kind; it raises exactly when some task run does |
| `ConformanceTally.PassExactly` | scripts/run_w3c_conformance.py:306-351 | a record says pass if and only if the test was left as a task, its driver finished within both output limits and the last line it printed says pass; the exit code is not read |
| `ConformanceTally.StatusExactly` | scripts/run_w3c_conformance.py:306-351 | each record has exactly the status its types, its regimes, the settings and its driver run call for, timeouts and excess output included |
| `ConformanceTally.RaisesExactly` | scripts/run_w3c_conformance.py:331-351 | the executor raises exactly for a task whose driver finished within the limits and printed a JSON value that is no object |
| `ConformanceTally.KindExactly` | scripts/run_w3c_conformance.py:41-49 | a test is counted under the kind of its first supported type, under OWL Direct if it declares regimes, and not at all if these cannot be run |
| `ConformanceTally.NothingPassesUnrun` | scripts/run_w3c_conformance.py:408-552 | no test is recorded as passed without a run |
| `ConformanceTally.KindsCountRunnable` | scripts/run_w3c_conformance.py:455-458 | the counts by kind add up to the number of tests that are not classified as unsupported |
| `ConformanceTally.CleanExitMeansNoFailure` | scripts/run_w3c_conformance.py:609-613 | the exit code is zero or one, and zero if and only if no record says fail, where asked for none says unsupported, and, unless only the inventory was asked for, some record says pass |
| `PropertyChain.ExtendPath` | scripts/validate_phase40_13_24_semantic_corpus.py:56-59 | one extension of a path for each matching pair, without repetition |
| `PropertyChain.FillRelations` | scripts/validate_phase40_13_24_semantic_corpus.py:46-52 | the loops collect for each property exactly the pairs that some statement of some block relates by it, and exactly the graphs that state one |
| `PropertyChain.Expand` | scripts/validate_phase40_13_24_semantic_corpus.py:54-60 | from exactly the walks of length k, each once, to exactly those of length k+1, each once |
| `PropertyChain.ExpandChain` | scripts/validate_phase40_13_24_semantic_corpus.py:53-60 | exactly one path for each complete walk through the chain |
| `PropertyChain.WalkIsComposed` | scripts/validate_phase40_13_24_semantic_corpus.py:53-60 | the ends of a walk are a pair of the composed relation |
| `PropertyChain.ComposedHasWalk` | scripts/validate_phase40_13_24_semantic_corpus.py:53-60 | each pair of the composed relation, as in section 2.3.2 of OWL 2 Direct Semantics, has a walk |
| `PropertyChain.EmittedExactly` | scripts/validate_phase40_13_24_semantic_corpus.py:61-64 | a triple is emitted if and only if it lies on a complete walk or is the target property of a composed pair |
| `PropertyChain.EvaluateChain` | scripts/validate_phase40_13_24_semantic_corpus.py:53-64 | over given relations, the exact context graph, or a refusal exactly when no pair is composed |
| `PropertyChain.ContextGraph` | scripts/validate_phase40_13_24_semantic_corpus.py:37-64 | on the statements of the blocks: the graph holds exactly the statements on complete walks and the target triples of their ends; refused exactly for fewer than three blocks, domains or contributing graphs, chains of fewer than two hops, or no walk |
| `PropertyChain.LineInjective` | scripts/validate_phase40_13_24_semantic_corpus.py:21-26 | different triples over local names are different lines |
| `OpenApiRefs.UnescapeEscape` | scripts/verify_api_openapi_parity.py:105-105 | unescaping inverts escaping on every key, as sections 3 and 4 of RFC 6901 ask |
| `OpenApiRefs.SplitJoin` | scripts/verify_api_openapi_parity.py:104-104 | splitting inverts joining for parts without a slash |
| `OpenApiRefs.JoinSplit` | scripts/verify_api_openapi_parity.py:104-104 | joining inverts splitting on every text, and no part has a slash |
| `OpenApiRefs.UnescapeIsOnePass` | scripts/verify_api_openapi_parity.py:105-105 | the two replacements equal one pass over the escapes on every text, malformed escapes included |
| `OpenApiRefs.ResolvePointer` | scripts/verify_api_openapi_parity.py:100-110 | the value the unescaped keys reach, or a refusal |
| `OpenApiRefs.PointerRoundTrip` | scripts/verify_api_openapi_parity.py:100-110 | the pointer made from any non-empty key path resolves to exactly what the path reaches |
| `OpenApiRefs.ResolvesExactly` | scripts/verify_api_openapi_parity.py:100-110 | with unique keys a pointer resolves if and only if it starts with `#/` and the document has a value at the end of the named fields |
| `OpenApiRefs.CheckRefs` | scripts/verify_api_openapi_parity.py:129-138 | the worklist terminates, and succeeds if and only if every textual `$ref` anywhere in the document resolves; with unique keys, if and only if every such field, at any place of any object or array, names a value of the document |
| `GaRelease.CertifyItems` | scripts/certify_ga_release.py:44-51 | the fail-fast loop succeeds exactly when no kind repeats and every item passes |
| `GaRelease.ValidateQualifications` | scripts/certify_ga_release.py:40-54 | the release digest exactly for complete ledgers |
| `GaExactness.CertifiableExactly` | scripts/certify_ga_release.py:40-54 | the certifier accepts exactly the ledgers of this version and release that list one live, complete, failure-free qualification with a lower-case certificate digest for each kind |
| `GaRelease.AssessItems` | scripts/assess_ga_readiness.py:26-33 | the collecting loop finds exactly the duplicate and not-live blockers, in order |
| `GaRelease.Assess` | scripts/assess_ga_readiness.py:21-36 | the whole blocker list, or an exception when an absent kind would be sorted among unknown names |
| `GaExactness.BlockersExactly` | scripts/assess_ga_readiness.py:21-36 | under a good header a blocker is listed if and only if a kind repeats, evidence is not good, a kind is missing or a kind is unknown; it raises exactly when an absent and an unknown kind meet |
| `GaExactness.BadHeaderExactly` | scripts/assess_ga_readiness.py:21-25 | the header blocker stands alone exactly when the header is not good |
| `GaRelease.CertifierAgreesWithReadiness` | scripts/certify_ga_release.py:40-54 | the certifier accepts if and only if there are no blockers and the release and certificate digests are all lower-case hexadecimal |
| `GaRelease.DigestFormSplitsThem` | scripts/assess_ga_readiness.py:24-32 | a ledger with one live item for each required kind and 64-character certificate digests has no blockers, and the certifier accepts it if and only if all of them are lower-case hexadecimal |
| `GaRelease.UpperCaseDigestSplitsThem` | scripts/certify_ga_release.py:40-54 | on the twenty kinds of the release, one upper-case digest makes a ledger that is publishable to one script and refused by the other |
| `GaArtifacts.HashRows` | scripts/certify_ga_release.py:80-95 | the loop succeeds exactly when no class or path repeats and every artifact passes, and has then hashed every row |
| `GaArtifacts.ValidateArtifacts` | scripts/certify_ga_release.py:77-98 | the text under the root exactly for accepted manifests |
| `GaExactness.ManifestExactly` | scripts/certify_ga_release.py:77-97 | the manifests of this release with different, signed, immutable artifacts, one of each class, that are files with the recorded digest under relative paths, or an image index named by digest, are exactly the accepted ones |
| `GaArtifacts.OneArtifactPerClass` | scripts/certify_ga_release.py:81-97 | an accepted manifest has exactly one artifact for each required class and no other |
| `GaArtifacts.RootForgetsOrder` | scripts/certify_ga_release.py:81-98 | every reordering gets the same verdict and the same root |
| `GaArtifacts.RootBindsArtifacts` | scripts/certify_ga_release.py:86-95 | accepted manifests with the same text under the root have the same paths, digests and signatures, even where the OCI reference contains NUL |

## Left out

- The Rust crates, the Java reasoner adapter, SQL, Helm and Kubernetes files, and the static token checks: not part of this model.
- JSON, YAML, RDF and regular-expression parsing: the model starts from parsed values. `DirectSpelling.Library` takes `uuid.UUID` and the white-space test as functions.
- Unknown extra keys in reports: a document that has exactly the required fields is a value of its record type, and one that has not is absent.
- Subprocess plumbing, temporary request files, timeouts, thread pools, path resolution in descriptors, fsync, directory creation and report file output: I/O; only what the driver answered matters to the results.
- `_balanced_route_calls` and the other route tests of the OpenAPI script, `cpu_set_count`, `validate_defects` and the remaining GA record checks, and the RC1 twins: independent tests that would only add easy members.
- The comparison of the context graph with the expected file: one equality after the part that is modelled.
- `reportSetSha256` of the merged certificates: one more digest of the reports.
- IntegerStatistics.NearestIsOrderStatistic: takes the rank as an exact integer ceiling; the script divides in floating point, which agrees for every list of fewer than 2^40 values.
- DirectProof.Validate: asks for fewer than 2^63 variables and solutions, as every Python list has; so do DirectResult.ResultSha256 and DirectCertificate.ValidateCertificate.
- Publication.VisibleBundleIsComplete: identifies a bundle by its rendering, so it asks that different bundles render differently.
- OpenApiRefs.CheckRefs: documents are trees; YAML aliases that make a document cyclic are not modelled. `OpenApiRefs.ResolvesExactly` asks for unique keys, as every parsed object has.
- PerformanceCertificate.ClaimsExactly: is about rows with positive durations, work and nodes, which every worker establishes (`PerformanceProtocol.AllRowsMeasured`); for other rows `PerformanceMerge.Merge` says what the merger decides.
- PublicationProgress.LoneProcessFinishes: asks for no other active process; with others the steps interleave, and only the safety results are claimed.
