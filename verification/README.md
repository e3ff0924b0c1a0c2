# A verified model of the Insights Results Smart Proxy

The smart proxy joins facts from four services into views that must agree: the active clusters from AMS, rule
hits, acknowledgements and disables from the aggregator, simplified reports from Redis, and rule content from
the content service. This project models those joins in Dafny and proves what they guarantee.

Every loop of the modelled functions that updates state is a method proved against a specification function
(collecting the keys of a map is the `order` parameter below); the theorems are lemmas about those functions,
for all inputs, all runs or all reachable states.

## How the code is read

- A Go map is iterated in an arbitrary order. The order is a parameter (`order`, `orders`) constrained only to
  deliver each key once, so a theorem that does not mention it holds for every order.
- Whether the content directory is set is an input of the views: `ready` says whether it was at the first check.
  A call that finds it unset times out there (see below), and the directory is never reset, so within one call
  either the first lookup times out or none does. Where a timeout does not end the call, `slow` lists the
  lookups that timed out. The protocol behind `ready` is modelled in `Publication`.
- The content views are fixed to one storage snapshot per call.
- `uint32` counters wrap (`Wrap32`, `Increment32`); the checked conversions fail outside their range. Go `int`
  is unbounded here.
- The composite-ID generator of the shared library is taken to succeed with `module|KEY` exactly when both parts
  are non-empty over `[a-zA-Z_0-9.]`, and otherwise to leave an empty ID.
- Date parsing and UUID validation are arbitrary functions. White space and lower-casing of rule statuses are exact.
- The error-key tables of a fetched directory are separate objects, as decoding a response makes them.

## Where the code does not do what its documentation says

- The total risk is documented as a floor; Go's division truncates. They differ exactly when the sum is negative
  and odd (`RuleContent.TotalRiskIsFloor`, `RuleContent.TotalRiskIsNotFloor`).
- A rule without content is meant to be omitted from the recommendation list. The error of the last lookup
  survives the loop, so a rule without content fails the whole list when it is the last one looked up, which for
  impacting rules depends on map iteration order (`RecommendationFacts.ErrorIff`,
  `RecommendationFacts.OrderIndependentIff`). The entries beside the error do not
  (`RecommendationFacts.EntriesIgnoreOrder`).
- A pair whose composite ID cannot be generated is still listed, under the empty ID, and the severity lookup
  then dereferences nil (`RuleContent.LookupsSafeIff`, `RuleContent.UnsafeLoadHappens`).
- Waiting for the content directory is meant to end when the directory arrives. Nothing signals the condition
  variable, so a lookup that finds no directory times out even if one is fetched and published meanwhile
  (`Publication.TimesOutIffBeganEmpty`, `Publication.TimesOutAfterPublication`).
- A request that sees the groups error flag can end with neither groups nor an error (`Groups.SilentNilIff`).
- The overview counts internal rules, the cluster list does not (`Overview.OverviewAgreesIff`,
  `Overview.ClustersHitAgreeIff`, `Overview.InternalHitDisagrees`).
- Two rules of one module that share an accepted key list their composite ID twice, and the recommendation list
  then counts its clusters twice (`RuleContent.RepeatedRuleLoads`, `RecommendationFacts.DoubleCountingIff`,
  `RecommendationFacts.RepeatedRuleOvercounts`).
- A request whose ID is `reports`, which is a valid ID, is taken for a report key (`RedisReads.RequestKeyListed`,
  `RedisReads.ReportsIsPassedOver`).
- Impacted time stamps are looked up by error key and module joined without a separator, so different rules can
  share a key (`Report.OwnRecordIff`, `Report.JoinedKeysCollide`).

## Model

| member | source | states |
|---|---|---|
| Identifiers.ParsePrintRoundTrip | types/operations.go:50-71 | parsing an ID gives (m, k) iff generating from (m, k) gives the ID |
| Identifiers.AcceptorsAgree | server/router_utils.go:85-99 | the router expression, the Redis expression and the split-based parser accept the same strings, exactly those the generator prints |
| Identifiers.CompositeInjective | types/operations.go:50-71 | two valid pairs have the same composite ID iff they are the same pair |
| Identifiers.TrimReport | server/utils.go:66-68 | trimming `.report` undoes appending it and leaves other modules alone |
| Identifiers.InternalIff | content/parsing.go:173-181 | a module is internal iff its second dot-separated part is `internal` or `ocs` |
| RuleContent.TotalRiskIsFloor | content/parsing.go:107-111 | the computed total risk is the documented floor iff the sum is non-negative or even |
| RuleContent.TotalRiskIsNotFloor | content/parsing.go:107-111 | impact -1 and likelihood 0 give 0, where the floor is -1 |
| RuleContent.StatusReading | content/parsing.go:153-173 | the three accepted statuses; letter case and surrounding white space never change the verdict |
| RuleContent.StatusIff | content/parsing.go:151-171 | a status is accepted iff, up to white space around it and letter case, it is `active`, `inactive` or empty; active iff the first, missing iff the last |
| RuleContent.DraftIsRejected | content/parsing.go:56-59 | an error key with status `draft` is not accepted |
| RuleContent.MapsAgree | content/content.go:104-125 | whatever is stored, the pair map and the composite map answer with the same last object under matching keys |
| RuleContent.ListsInOrder | content/content.go:120-124 | the internal and external lists hold one ID per stored entry, in load order |
| RuleContent.StoredIffAcceptable | content/parsing.go:46-105 | a (module, key) pair is stored iff the directory has it with one of the three statuses and a proper or missing date |
| RuleContent.StoredContent | content/parsing.go:72-101 | with distinct modules the stored object shows the rule's own properties, field by field |
| RuleContent.StoredObjectsNameTheirKeys | content/parsing.go:82-101 | after any load every stored object names the key it is stored under, and its flag, risk and managed status follow from its own fields |
| RuleContent.LookupsSafeIff | content/content.go:157-187 | the severity and managed lookups never meet a missing entry iff every accepted external pair has a composite ID |
| RuleContent.UnsafeLoadHappens | content/content.go:109-124 | a directory with one rule whose module has a dash is accepted and makes the lookups unsafe |
| RuleContent.RepeatedRuleLoads | content/content.go:120-124 | a directory that holds an external rule twice lists its composite ID twice |
| RuleContent.WellIndexedIff | content/content.go:105-153 | the two lists partition the composite keys without repetition iff every accepted pair has a composite ID and none is accepted twice |
| RuleContent.LoadIsWellIndexed | content/parsing.go:46-105 | so any load of distinct modules with generable IDs is well indexed and its lookups are safe |
| ContentStorage.RulesWithContentStorage.SetRuleWithContent | content/content.go:104-125 | one store updates both maps and one list, and nothing else |
| ContentStorage.RulesWithContentStorage.SetRule | content/content.go:127-132 | one plugin-level store leaves the key-level indexes alone |
| ContentStorage.RulesWithContentStorage.GetExternalRuleSeverities | content/content.go:155-175 | succeeds iff every listed external ID has content; then gives each its risk and the set of risks |
| ContentStorage.RulesWithContentStorage.GetExternalRulesManagedInfo | content/content.go:177-187 | succeeds iff every listed external ID has content; then gives each its managed flag |
| ContentStorage.LoadRuleContent | content/parsing.go:46-105 | the new storage indexes exactly the accepted entries of the directory as it was, and the directory's tables are rescored in place |
| RuleLoading.RescoredAt | content/parsing.go:74-78 | accepted keys are rescored in place, the others keep their properties, no key comes or goes |
| ContentStorage.TotalRiskAgrees | content/parsing.go:72-82 | after a load of distinct modules the plugin-level and key-level maps give the same total risk for every stored pair |
| RuleLoading.AfterKeysView | content/parsing.go:51-101 | the inner loop, which rescores the table it iterates, stores exactly the entries the table accepted when the loop began |
| RuleLoading.AfterKeysRules | content/parsing.go:74-80 | and stores the rule at plugin level iff one of its keys is accepted |
| RuleLoading.PluginStoredIff | content/parsing.go:79-80 | the plugin-level map holds a module iff the directory has it with an accepted key, and then its last such rule |
| RuleLoading.FinishedRiskAgrees | content/parsing.go:72-82 | in a complete load of distinct modules both levels give one total risk per stored pair |
| Publication.ReadsSeeCompleteLoads | content/content.go:427-443 | in every run a lookup sees, at key level and at plugin level with its shared tables, the empty storage or one complete load; what is published is the latest complete load |
| Publication.ReadersSeeOneRisk | content/parsing.go:72-82 | in every run over directories of distinct modules the two levels a lookup sees give the same total risk |
| Publication.SettledForever | content/parsing.go:74-104 | a published storage is never written again, nor are the error-key tables it shares with its directory |
| Publication.ReadsAreStableAndMonotone | content/content.go:401-443 | reads through one pointer agree however the updater runs, and a pointer taken later never leads to an older load |
| Publication.OnlyPublishPublishes | content/content.go:431-435 | without a publication, in particular after a failed fetch or during a load, lookups keep getting the same storage showing the same contents |
| Publication.LoadsAreHistory | content/content.go:427-443 | in every run the published directories are the fetched ones, in order, but for the one being loaded; one per publication |
| Publication.PublishedIsLatest | content/parsing.go:104 | in every run the published storage shows the complete load of the latest publication, and every publication publishes the directory fetched last |
| Publication.LookupSeesLatest | content/content.go:286-296 | in every run a lookup sees, until it leaves, the complete load of the directory published last before it took the pointer |
| Publication.LoadCompletes | content/parsing.go:46-105 | a load that has begun can always be completed and published |
| Publication.TimesOutIffBeganEmpty | content/content.go:196-221 | in every run a lookup times out iff no fetch had succeeded when it began, and takes the pointer iff one had |
| Publication.TimesOutAfterPublication | content/content.go:205-214 | a run in which a lookup times out although a directory was fetched, published and read during its wait |
| Groups.UpdaterHoldsLastSuccess | smart_proxy.go:187-238 | in every run the flag is raised iff an error is stored iff the last fetch failed, and the stored groups are those of the last successful fetch |
| Groups.GroupsAreFresh | server/server.go:1257-1264 | a request that saw `false` receives the groups of a successful fetch at least as recent as the one current when it saw the flag |
| Groups.ErrorVanishesOnlyAfterSuccess | server/server.go:1248-1255 | a request that saw `true` receives nil iff the last fetch before its second receive succeeded, which then came after it saw the flag; otherwise it gets the translated error of that fetch |
| Groups.NobodyIsStuck | smart_proxy.go:213-222 | from any state, in any order of the waiting requests, at most the pending fetch and one receive per request serve them all, each with what the updater then holds, after which any request can start |
| Groups.PollingGoesOn | smart_proxy.go:213-238 | from any state the updater can come to one more fetch, whatever it returns |
| Groups.FlagOrMiss | server/server.go:1236-1247 | a request may miss the flag at any time and can receive it exactly while the updater selects |
| Groups.WaitingIsPatient | server/server.go:1229-1265 | nothing but its own receive ends or changes a request's wait |
| Groups.RequestAnswer | server/server.go:1229-1265 | in every run: after seeing the flag raised, no groups and the translated error of the last fetch before the second receive, if that failed; otherwise the groups of the last successful fetch before it, no older than the one current at the flag, and an error iff they are nil |
| Groups.MissedFlagAnswer | server/server.go:1236-1247 | a request that misses the flag answers with an empty list and no error |
| Groups.SilentNilIff | server/server.go:1229-1265 | a request ends without groups and without error iff it saw the flag raised and the last fetch before its second receive succeeded |
| Groups.SilentNilHappens | server/server.go:1248-1255 | a run in which that happens |
| Clusters.GetClusterNames | types/operations.go:27-35 | the array lists the cluster IDs in order |
| Clusters.ClusterInfoArrayToMap | types/operations.go:39-47 | the map keeps the last record of each ID |
| Clusters.InfoMapKeepsLast | types/operations.go:39-47 | an ID is in the map iff some record has it, with the last such record |
| Clusters.InfoMapLossless | types/operations.go:39-47 | with distinct IDs every record is found under its ID |
| DisabledRules.GetUserDisabledRulesPerCluster | server/handlers_v2.go:637-655 | groups the disable records by cluster |
| DisabledRules.GetRuleDisabledClusters | server/handlers_v2.go:420-431 | groups the disable records by rule |
| DisabledRules.GroupingsAreTransposes | server/handlers_v2.go:420-431 | the two groupings of one list are transposes with equal multiplicities; a record without a composite ID appears in neither |
| DisabledRules.ReportSuffixIrrelevant | server/utils.go:63-75 | a disable stored with or without `.report` counts for the same composite ID |
| DisabledRules.GenerateRuleAckMap | server/acks_handlers.go:396-409 | the map holds exactly the composite IDs the listed acknowledgements generate |
| ClusterList.FilterOutDisabledRules | server/handlers_v2.go:595-625 | keeps, in order, the hits that are neither acknowledged nor disabled on the cluster |
| ClusterList.MatchClusterInfoAndUserData | server/handlers_v2.go:524-591 | one row per cluster, or a timeout, or a nil dereference exactly when the content lookups are unsafe |
| ClusterList.RowIsExact | server/handlers_v2.go:540-588 | row by row, over the inputs: the cluster's record, the aggregator's times, and the counting hits in total and by each risk of an external rule |
| ClusterList.WrapsAround | server/handlers_v2.go:577-583 | the uint32 counters wrap around at 2^32 |
| ClusterList.RowMultiplicity | server/handlers_v2.go:565-584 | a rule counts in a row as often as it hits, unless a filter removes it altogether |
| ClusterList.RowSumsToTotal | server/handlers_v2.go:553-584 | the hits by total risk of a row add up to its total, modulo 2^32 and exactly below it |
| Recommendations.SafeUint8 | server/handlers_v2.go:68-76 | succeeds iff the value is in 0..255, unchanged |
| Recommendations.SafeUint32 | server/handlers_v2.go:78-86 | succeeds iff the value is below 2^32 and not negative, unchanged |
| Recommendations.ExcludeDisabledClusters | server/handlers_v2.go:668-687 | keeps, in order, the impacted clusters the rule is not disabled on |
| Recommendations.GetFilteredRecommendationsList | server/handlers_v2.go:690-771 | the walk over the selected IDs, with the error that survives it |
| RecommendationFacts.ErrorIff | server/handlers_v2.go:696-771 | the list comes with an error iff content timed out, a number did not fit, or the last rule that reached the content lookup has no content; and which error |
| RecommendationFacts.FailsIff | server/handlers_v2.go:736-766 | a visited rule ends the walk iff content timed out, a risk is outside uint8 or its cluster count is outside uint32; it is missing iff it has no content |
| RecommendationFacts.ListedEntryIsExact | server/handlers_v2.go:773-812 | an entry carries its rule's numbers unchanged, its acknowledgement and the number of clusters it is counted on |
| RecommendationFacts.EntryShowsContent | server/handlers_v2.go:773-812 | every field of an entry, over the content, the acknowledgements and the impacted clusters that count |
| RecommendationFacts.ListIsExact | server/handlers_v2.go:700-771 | for every flag the list shows, in order, the selected rules that have content, up to the first that ends the walk |
| RecommendationFacts.OmissionCanFail | server/handlers_v2.go:736-744 | whenever the only impacting rule has no content, the list fails instead of omitting it |
| RecommendationFacts.OrderIndependentIff | server/handlers_v2.go:658-666 | whether the OnlyImpacting list fails is the same for every iteration order iff something fails outright, or no rule or every rule lacks content |
| RecommendationFacts.EntriesIgnoreOrder | server/handlers_v2.go:658-666 | when nothing fails outright, the OnlyImpacting entries are the same multiset for every iteration order |
| RecommendationFacts.ExcludingIsTheUnhitPart | server/handlers_v2.go:724-729 | ExcludingImpacting is, in order, the IncludingImpacting entries whose rule hits nothing, all with count zero |
| RecommendationFacts.IncludingMeetsOnly | server/handlers_v2.go:703-714 | the remaining IncludingImpacting entries are the OnlyImpacting entries of external rules |
| RecommendationFacts.DoubleCountingIff | server/handlers_v2.go:524-771 | the impacted-cluster counts of the enabled rules add up to the hit totals of the clusters iff every rule listed as external more than once is acknowledged, or disabled or not applicable on every cluster it hits; they are never less |
| RecommendationFacts.RepeatedRuleOvercounts | server/handlers_v2.go:717-771 | one hit of a rule listed as external twice: the recommendations count more than the clusters |
| RecommendationFacts.DoubleCounting | server/handlers_v2.go:690-771 | so with each external rule listed once the two views count the same hits |
| Overview.GetOrganizationOverview | server/handlers_v1.go:177-254 | counts the shown hits by risk and by tag and the clusters hit; times out iff content is missing and some cluster has an enabled hit |
| Overview.OverviewIsExact | server/handlers_v1.go:214-250 | over the inputs: hits by risk and by tag and clusters hit, from the hits that are neither acknowledged nor disabled, have content and suit the cluster |
| Overview.OverviewIsColumnSum | server/handlers_v1.go:240 | at every risk the overview is the column sum of the cluster list plus the shown hits of rules the list does not count |
| Overview.OverviewAgreesIff | server/handlers_v1.go:218-245 | the overview equals the column sums at every risk iff no rule outside the external list is shown |
| Overview.ClustersHitAgreeIff | server/handlers_v1.go:247-250 | the clusters hit are as many as the rows with a positive total iff every cluster that shows a hit shows one the cluster list counts; they are never fewer |
| Overview.ClustersHitArePositiveRows | server/handlers_v1.go:247-250 | in particular, when only listed rules are shown, the clusters hit are exactly the rows with a positive total |
| Overview.InternalHitDisagrees | server/handlers_v1.go:218-250 | an organisation whose only hit is an internal rule: the overview has a cluster and a risk hit, the cluster list has neither |
| Report.FilterRulesInResponse | server/server.go:1293-1338 | the visible rules with content and the counts of hidden and content-less rules; a timeout ends it at the first rule that is not hidden, with the counters as they are then |
| Report.FateIff | server/server.go:1267-1335 | when a rule is hidden, has no content, is OSD-filtered or is visible, over the query and its pair's content |
| Report.ReportIsConserved | server/server.go:1304-1335 | report length is visible + no content + hidden + OSD-filtered |
| Report.ResponsesMatchVisible | server/server.go:1312-1334 | the i-th response is the i-th visible rule with its own fields and its pair's content, field by field |
| Report.VisibleKeepsOrder | server/server.go:1304-1335 | the visible rules are an order-preserving subsequence of the report |
| Report.GetDisabledExtends | server/server.go:1306-1310 | asking for disabled rules only adds responses, keeping the order |
| Report.GetDisabledHidesNothing | server/server.go:1306-1310 | nothing is hidden when disabled rules are asked for |
| Report.PublishedCount | server/server.go:1067-1084 | the published count covers every rule neither hidden nor OSD-filtered iff something is visible or hidden or everything has content; when it is zero |
| Report.ResponseShowsDirectory | content/content.go:450-493 | a visible rule, reported with or without `.report`, shows the risk and texts of its own directory entry |
| Report.FillImpacted | server/server.go:1000-1023 | each response is stamped in place from the last report entry with its joined key |
| Report.OnlyImpactedChanges | server/server.go:1014-1022 | nothing but the time stamp changes, and only to the creation time of a reported rule with the same joined key |
| Report.OwnRecordIff | server/server.go:1003-1012 | every reported rule finds its own record iff no two reported rules share a joined key |
| Report.JoinedKeysCollide | server/server.go:1006-1011 | two different rules that share a joined key |
| Report.ImpactedIsOwnCreation | server/server.go:1010-1022 | without collisions a response is stamped with its own rule's creation time, if that is a proper time |
| ClustersDetail.ProcessClustersDetailResponse | server/handlers_v2.go:1225-1274 | the enabled and disabled lists built from records, impacted clusters and the acknowledgement |
| ClustersDetail.DetailIsExact | server/handlers_v2.go:1240-1274 | both lists entry by entry: records of active clusters with display names, then the other impacted clusters with the acknowledgement's time and justification, or enabled |
| ClustersDetail.DetailTimes | server/handlers_v2.go:1237-1274 | for any inputs, how often each cluster appears in each list |
| ClustersDetail.DetailPartition | server/handlers_v2.go:1251-1274 | for duplicate-free inputs every impacted cluster lands in exactly one list, once; an acknowledged rule leaves nothing enabled |
| ClustersDetail.RecordWins | server/handlers_v2.go:1241-1255 | the disable record of an active cluster is what the disabled list shows, acknowledged or not |
| ClustersDetail.InactiveRecordsHaveNoEffect | server/handlers_v2.go:1241-1249 | dropping the records of inactive clusters changes nothing |
| Workloads.ProcessWorkloadsRecommendations | server/handlers_v2.go:1667-1718 | the summary of each active namespace |
| Workloads.ListIsExact | server/handlers_v2.go:1681-1715 | exactly the namespaces of active clusters, in order, with display name, unchanged metadata, the hit counts summed by severity and the highest severity |
| Workloads.FillInWorkloadsData | server/handlers_v2.go:1798-1849 | succeeds iff every check has content; then fills the recommendations in place and grades the namespace; otherwise exactly those before the first check without content are filled |
| Workloads.DetailIsExact | server/handlers_v2.go:1814-1848 | the detail's metadata over the inputs: object counts summed by severity and the highest severity |
| Workloads.HighestIsMaximum | server/handlers_v2.go:1702-1704 | the highest severity is the maximum of the incoming value and the severities of the known checks |
| Workloads.ListIgnoresOrder | server/handlers_v2.go:1698-1708 | the list does not depend on the iteration order of any hit-count map |
| Workloads.ListAgreesWithDetail | server/handlers_v2.go:1805-1848 | if the hit counts are the object counts grouped by check, list and detail give the same hits by severity and highest severity |
| AmsPaging.ExecuteSubscriptionListRequest | amsclient/amsclient.go:270-348 | reading pages until an empty one gives the first-occurrence deduplication of all valid items read |
| AmsPaging.UniqueKeepsFirsts | amsclient/amsclient.go:298-343 | the result holds exactly the first valid item of each ID, in the order of the items |
| AmsPaging.ListedIffFirst | amsclient/amsclient.go:298-343 | a record is listed iff it shows the first item with its ID, a UUID, with the stated defaults for missing attributes |
| AmsPaging.UniqueIsDistinct | amsclient/amsclient.go:316-320 | the IDs are distinct, so the list-to-map conversion is lossless |
| AmsPaging.FirstIsFirstValid | amsclient/amsclient.go:179-183 | the result is nil iff no valid item was read, and otherwise element 0 is the first valid item |
| AmsPaging.PagingIrrelevant | amsclient/amsclient.go:279-296 | however a list is divided into non-empty pages ended by an empty one, the listing succeeds with the clusters of the whole list |
| AmsPaging.FailedPageEndsListing | amsclient/amsclient.go:287-291 | a failed request ends the listing with an error and the clusters of the pages before it |
| RedisReads.GetRequestIDsForClusterID | services/redis.go:113-152 | lists the IDs of all scanned keys in order, or fails with the scan |
| RedisReads.BatchingIrrelevant | services/redis.go:122-148 | the keys scanned are the batches in order, however the server divides them |
| RedisReads.ScanFailsIff | services/redis.go:122-132 | the scan fails iff a reply fails before the one that ends the iteration |
| RedisReads.KeysDiffer | services/redis.go:48-59 | different organisations, clusters or requests have different keys |
| RedisReads.RequestKeyListed | services/redis.go:134-142 | a request key lists its own ID unless that ID is `reports` |
| RedisReads.ReportsIsPassedOver | server/router_utils.go:187-198 | `reports` is a valid request ID, and a request with that ID is not listed |
| RedisReads.ReportKeyNotListed | services/redis.go:136-139 | a report key is never listed as a request |
| RedisReads.RebuiltKeyIff | services/redis.go:278 | rebuilding the existence key from a listed ID gives the scanned key iff the part after the prefix has no separator |
| RedisReads.ScanListsRequests | services/redis.go:48-59 | scanning a cluster's keys lists exactly the IDs of its request markers, in scan order |
| RedisReads.GetTimestampsForRequestIDs | services/redis.go:157-213 | the statuses of the requested IDs, through an array of report keys; fails with the pipeline or with any reply |
| RedisReads.OmittingIsFiltering | services/redis.go:194-206 | omitting missing requests is filtering the full answer by validity, and both fail together |
| RedisReads.StatusesFailIff | services/redis.go:186-192 | the lookup fails iff some reply cannot be read |
| RedisReads.FullAnswerIsPositional | services/redis.go:183-210 | the full answer has one entry per ID with its times, and names the requested ID where data is missing |
| RedisReads.ReadRuleHits | services/redis.go:248-264 | keeps, in order, the comma-separated parts that are composite IDs |
| RedisReads.CsvRoundTrip | services/redis.go:248-264 | reading the comma-join of valid IDs gives back the list, also the empty one |
| RedisReads.HitsFromRedisParse | server/handlers_v2.go:1557-1560 | every hit read from Redis parses, and printing its parts gives it back |
| RequestReport.FilterRulesGetContent | server/handlers_v2.go:1531-1573 | the simplified hits that are not acknowledged, not disabled and have content |
| RequestReport.ReportIsExact | server/handlers_v2.go:1539-1569 | one entry per hit that is neither acknowledged nor disabled and has content, in order, with that rule's name and content |
| RequestReport.EntriesNameTheirHits | server/handlers_v2.go:1557-1569 | on hits from Redis every entry names a shown hit exactly, with that rule's content |
| RequestReport.ShownHitsAppear | server/handlers_v2.go:1539-1569 | no shown hit is lost |
| Acks.AckService.AcknowledgePost | server/acks_handlers.go:196-252 | creates an acknowledgement with 201 or returns the existing one unchanged with 200; 400 for an unreadable selector |
| Acks.AckService.UpdateAcknowledge | server/acks_handlers.go:285-343 | replaces an existing justification with 200, otherwise 404; 400 for an unreadable ID |
| Acks.AckService.DeleteAcknowledge | server/acks_handlers.go:356-394 | removes an existing acknowledgement with 204, otherwise 404; 400 for an unreadable ID |
| Acks.RunFollowsLives | server/acks_handlers.go:210-343 | after any run each rule's acknowledgement depends only on the requests about it and follows the life of a single acknowledgement |
| Acks.StepStores | server/acks_handlers.go:210-394 | what POST, PUT and DELETE store; POST keeps an existing acknowledgement as it is |
| Acks.UnreadableIsRefused | server/acks_handlers.go:196-376 | a request is refused with 400, changing nothing, iff its selector or ID names no rule |
| Acks.AckedIffLastWasPost | server/acks_handlers.go:210-394 | a rule is acknowledged iff its last POST or DELETE was a POST, or there was neither and it was acknowledged before |
| Acks.AnswerMeaning | server/acks_handlers.go:210-394 | every answer in a run follows from the state of its own rule at that moment; POST on an acknowledged rule returns its old justification |
| Acks.AcksAreConserved | server/acks_handlers.go:245-248 | over any run the acknowledgements grow by the 201 answers and shrink by the 204 answers |
| Acks.ClusterListHides | server/handlers_v2.go:603-622 | the cluster list drops a hit because of acknowledgements iff its rule is acknowledged and has a composite ID |
| Acks.ReportHides | server/server.go:1267-1287 | the report hides a rule iff disabled rules are not asked for and it is disabled on the cluster or acknowledged under its module without `.report` |
| Acks.RequestReportHides | server/handlers_v2.go:1539-1548 | the request report has no entry of an acknowledged rule |
| Acks.RunHidesAcknowledged | server/acks_handlers.go:396-409 | a rule acknowledged at the end of a run is hidden from the cluster list, the report and the request report |

## Left out

- HTTP routing, authentication, RBAC, URL building, JSON and gob decoding, response writing, logging and metrics: plumbing around the modelled functions.
- The length of the content wait: a lookup that waits may time out at any later moment.
- Failing aggregator calls inside the acknowledgement handlers: the lifecycle is proved for runs without them.
- `generateOrgOverview`: it counts clusters whose rules are all disabled and so does not join the overview theorems.
- V1/V2 content conversions, user-agent handling, configuration, upgrade risks and the AMS search string: field copies or single branches.
- Reading the published storage at several moments within one request: the views are proved for one snapshot.
- 64-bit overflow of Go `int`.
- RecommendationFacts.DoubleCountingIff: assumes both hit relations describe the same hits, both disable groupings come from one list and no count reaches 2^32, as the two views read them from separate aggregator answers.
