# OpsDesk alert pipeline: a verified model

OpsDesk runs data-centre operations. Site collectors receive SNMP traps and poll hardware, buffer what they find and
deliver it to the API. The API keeps one alert row per event, pages people and opens incidents, and the web console
rings until somebody looks. This project models that path and proves what it guarantees over every input, every
interleaving and every run. `dafny verify dfyconfig.toml` checks all of it.

## How the model is laid out

| module | what it models |
|---|---|
| `Delivery`, `Protocol`, `ProtocolRuns`, `ProtocolLimits` | the collector's bounded queue and its file as a class; the delivery protocol as a step system; its guarantees over runs; exactly when they fail |
| `Alerts`, `AlertRuns`, `AlertCalls`, `AlertPolicy`, `AlertRaces` | `ingest` with its helpers as a class over rows, audit trail and outgoing calls; what every serialised run keeps of rows and audit; which calls it makes; each call from what the ingest learned; ingests that are not serialised |
| `AlertRules`, `RuleCache` | rule choice and the cached rule service; the cache over time, with slow reads and other writers |
| `Notifications`, `NotificationRuns` | arrival tracker, shared claim list and alarm of a tab; all tabs of a browser together |
| `Snmp`, `SnmpExact`, `SnmpProofs`, `Pipeline` | PDU to trap to alert; what is computed in terms of the varbinds; translation, slugs and identity; a trap's whole way to its row |
| `Batches`, `Alertmanager` | the batch loop of the adapters; Alertmanager episodes |
| `Health`, `HealthExact` | Redfish, iLO and OME health snapshots; what they say in terms of what the hardware reported |
| `Email`, `EmailExact` | quoted-reply stripping and HTML escaping; the stripper's patterns as the texts they generate |
| `Wrappers`, `Text` | options, results, and the string operations of the runtime |

**The delivery protocol.** `flush` gives up control only while it awaits a send, so its atomic pieces are the loop test
(which starts a send or ends the flush) and the settling of a send. The steps are: enqueue, start of a flush, the server
acting on a request, a request acting late (after its send was given up), a send resolving, a send rejecting (before or
after the server acted), and a crash with reload. The server may fail before or after its write. A payload carries a
ticket, its position in the order of acceptance; tickets and the sets built from them are history that no step consults.
The guarantees hold for *disciplined* runs: one flush at a time, no eviction while a send is pending, and restarts of a
file-backed buffer whose cap still holds the queue. `ProtocolLimits` takes these conditions away: queue and file stay
sound in every run at all, and a settled send removes what it sent exactly as long as no step evicts under a pending
send or removes under another one (`SafeExact`, `SafeRunRemovesSent`). `EvictionDrops` and `OverlapDrops` say from
every state what is lost otherwise, `RestartExact` does so for restarts, and `EvictionLoses` and `OverlapLoses` are
complete runs from the start.

**Ingestion.** What one ingest learns from outside (lookups, the rule, the clock, the answers or failures of the
incident, change and inbox services, and where it fails itself) is a parameter of that ingest, so every theorem holds
for every behaviour of those services. Runs are serialised: nothing touches a row between an ingest's read and its
write. `AlertRaces` splits the two and says exactly when a write keeps the audit trail true (`StaleAuditExact`), stores
what the serialised order would (`StaleWriteAgrees`) and takes nothing back (`ForwardExact`).

**Computed values.** Where the code computes a value by branches and loops, the model's function follows it and a lemma
beside it says what the value is without naming that function: the calls of an ingest in the fields of its context
(`CallsExact`), the component of a trap in its varbinds (`ComponentExact`), a health verdict in the reported statuses
(`RedfishVerdict`, `HpeVerdict`, `DellVerdict`), a pattern in the texts it matches (`OriginalMessageExact`).

**Time and text.** Times are integers. Lower-casing, number and date parsing and SHA-256 are functions the model takes
as parameters. Strings are sequences of characters.

## Where the code does not do what its documentation says

- The SNMP adapter's comments (`integrations/snmp/src/normalize.ts:26-28`, `167-169`) leave it to the alerts pipeline to
  pair linkDown with linkUp by fingerprint. The fingerprints agree (`LinkTrapsPair`), but the row of a linkDown stays open
  unless CI slug, component slug and occurrence all agree (`LinkUpClosesExactly`).
- The buffer promises to remove delivered items and to drop only the oldest when full
  (`apps/collector/src/delivery-buffer.ts:37`, `49-53`). An eviction during a send, or two overlapping flushes, remove an
  item that was never sent (`EvictionDrops`, `OverlapDrops`); nothing else does (`SafeExact`).
- The buffer key is documented as stable per event (`apps/collector/src/delivery-buffer.ts:12`). It holds the trap OID or,
  for v1 traps, the specific number alone, and the occurrence; neither component, enterprise nor generic trap. Traps that
  share it are one event exactly when CI, alert type and component have the same slugs (`SameKeyIsSameEvent`): a queued v1
  cold start hides an authentication failure of the same tick, and two interfaces of one device hide each other. Even
  for one event the ignored trap is lost when it is further along than everything delivered of its event
  (`IgnoredTrapLoses`): a queued v1 linkDown swallows its own linkUp (`LinkDownSwallowsLinkUp`).
- "Every mutation busts the cache" (`apps/api/src/modules/alerts/alert-rules.service.ts:28`) does not reach a read that is
  under way: it reinstalls the old rows for up to one TTL (`OvertakenReadServesOldRows`, bounded by `BoundedStaleness`).
  A mutation also awaits its transaction before it invalidates, so between the two the cache may still answer. Outside
  that gap, and as long as no commit overtakes a read, every answer is the present table's (`AnswersOutsideGaps`).
- RECOVERED is documented as terminal (`apps/api/src/modules/alerts/alerts.service.ts:641-645`). It is for serialised ingests
  (`RunEvolves`) and for every interleaving in which no write finds a state beyond both the one it read and the one it
  was sent (`RaceStatesForward`), and for no other (`ForwardExact`): a late acknowledgement reopens a recovered alert
  (`StaleWriteReopens`), and a late write forgets a resolved site (`StaleWriteForgets`).
- A NOC page is best effort, but it is also never retried: when the first ingest of an event fails after its write, no
  later delivery pages (`FaultedFirstSightingNeverPages`). The same holds for the announcement of a recovery
  (`FaultedRecoveryIsNeverAnnounced`).

## Model

| member | source | states |
|---|---|---|
| `Delivery.DeliveryBuffer.constructor` | apps/collector/src/file-delivery-buffer.ts:20-44 | a file-backed buffer starts from the newest `maxItems` of a readable file and from nothing otherwise; the file is left alone; distinct keys in the file give a valid buffer |
| `Delivery.DeliveryBuffer.Enqueue` | apps/collector/src/delivery-buffer.ts:38-47 | the key is queued afterwards; a known key changes nothing; at most the single oldest item is dropped and the rest keeps its order; keys stay distinct, size within the cap, and the file follows |
| `Delivery.DeliveryBuffer.Flush` | apps/collector/src/delivery-buffer.ts:54-70 | an uninterrupted flush sends the queue in order up to and including the first failure, removes exactly the delivered prefix, and leaves the file equal to what remains exactly when the buffer has a file and something was delivered |
| `Delivery.DeliveryBuffer.OnChange` | apps/collector/src/file-delivery-buffer.ts:46-56 | the file becomes the queue, for the file-backed buffer only |
| `Protocol.KeepsEnqueue` | apps/collector/src/delivery-buffer.ts:38-47 | enqueueing keeps the protocol invariant: the head stays in flight, the file stays delivered items followed by the queue, and every accepted item stays accounted for |
| `Protocol.KeepsStart` | apps/collector/src/index.ts:112-119 | starting a flush when none is under way keeps the protocol invariant; posting the head overtakes nothing |
| `Protocol.KeepsOk` | apps/collector/src/delivery-buffer.ts:56-65 | the removal after a resolved send keeps the protocol invariant: only an item the server completed leaves the queue |
| `Protocol.KeepsFail` | apps/collector/src/delivery-buffer.ts:58-68 | a rejected send, before or after the server acted, ends the flush and keeps the protocol invariant |
| `Protocol.KeepsCrash` | apps/collector/src/file-delivery-buffer.ts:28-44 | a crash at any step and the reload after it keep the protocol invariant |
| `Protocol.KeepsInv` | apps/collector/src/delivery-buffer.ts:38-70 | every disciplined step of collector, network and server keeps the invariant: order, distinct keys, cap, head in flight, durable file, nothing lost, nothing overtaken, everything completed recorded |
| `ProtocolRuns.RunKeepsInv` | apps/collector/src/delivery-buffer.ts:28-74 | the invariant holds in every state of every disciplined run |
| `ProtocolRuns.EndToEnd` | apps/collector/src/file-delivery-buffer.ts:13-57 | in every disciplined run each accepted item was evicted by the cap, is held by the server as exactly one row (or carries no event), or is still queued in memory and in the file |
| `ProtocolRuns.PostedInOrder` | apps/collector/src/delivery-buffer.ts:49-65 | an item is first sent only once everything accepted before it was completed or evicted |
| `ProtocolRuns.RemovedIsSent` | apps/collector/src/delivery-buffer.ts:57-64 | the item a settled send removes is the one it sent, and the server has completed it |
| `ProtocolRuns.ReloadLosesNothing` | apps/collector/src/file-delivery-buffer.ts:28-56 | at any point a reload brings back the whole queue, preceded only by items already completed |
| `ProtocolRuns.FlushEndPersists` | apps/collector/src/delivery-buffer.ts:66-68 | the settled send that ends a flush leaves the file equal to the queue if the buffer has one and something was delivered, and as it was otherwise |
| `ProtocolRuns.CrashAfterFlush` | apps/collector/src/file-delivery-buffer.ts:28-56 | a crash right after such a flush, under a cap that holds the queue, brings back exactly the queue |
| `ProtocolRuns.OtherChannelFails` | apps/collector/src/index.ts:53-67 | an item of a channel other than snmp, alert and health is never posted; its send can only fail and leaves it queued |
| `ProtocolRuns.FailedIngestIsKept` | apps/collector/src/delivery-buffer.ts:58-62 | a request whose ingest fails, even after its write, is not taken for delivered |
| `ProtocolLimits.SafeExact` | apps/collector/src/delivery-buffer.ts:38-70 | while every pending send, of however many flushes, is on the head, a step keeps that if and only if it is no eviction under a pending send and no removal under another pending send |
| `ProtocolLimits.SoundStep` | apps/collector/src/delivery-buffer.ts:38-70 | every step at all, disciplined or not, keeps queue and file genuine, in order of acceptance, without repeated keys, and the queue within its cap |
| `ProtocolLimits.SoundRun` | apps/collector/src/delivery-buffer.ts:28-74 | so they are in every state of every run |
| `ProtocolLimits.OnHeadMeans` | apps/collector/src/delivery-buffer.ts:57-64 | every pending send is on the head if and only if each of them would remove the item it sent |
| `ProtocolLimits.SafeRunRemovesSent` | apps/collector/src/delivery-buffer.ts:57-64 | in every run of such safe steps a send that resolves removes exactly the item it sent |
| `ProtocolLimits.EvictionDrops` | apps/collector/src/delivery-buffer.ts:42-63 | from every state of a disciplined run with a completed send pending on a full queue, for every cap: a new key makes the flush remove the item behind the one it sent, and every item stays accounted for if and only if that one had been completed or evicted |
| `ProtocolLimits.OverlapDrops` | apps/collector/src/index.ts:112-119 | from every state with two completed sends pending on the head: the second removes the item behind it, and every item stays accounted for if and only if that one had been completed or evicted |
| `ProtocolLimits.EvictionExact` | apps/collector/src/delivery-buffer.ts:42-46 | while a send is pending in a disciplined run, an enqueue keeps the head in flight if and only if its key is queued already or there is room |
| `ProtocolLimits.RestartExact` | apps/collector/src/file-delivery-buffer.ts:34-37 | a restart brings the whole queue back if and only if the new cap holds it, and keeps every item accounted for if and only if what the cap cuts off had been completed or evicted |
| `ProtocolLimits.EvictionLoses` | apps/collector/src/delivery-buffer.ts:43-63 | a run in which an eviction during a send makes the flush drop an item that was never sent |
| `ProtocolLimits.OverlapLoses` | apps/collector/src/index.ts:112-119 | for every cap, a run in which two overlapping flushes drop an item that was never sent |
| `ProtocolRuns.FlushIsRun` | apps/collector/src/delivery-buffer.ts:54-70 | the uninterrupted flush is a run of the protocol, with the remaining queue in the file whenever something was delivered; delivering everything leaves queue and file empty |
| `Alerts.ReduceIsJoin` | apps/api/src/modules/alerts/alerts.service.ts:646-657 | the lifecycle reduction is the join of OPEN < ACKNOWLEDGED < RECOVERED |
| `Alerts.AlertsService.Ingest` | apps/api/src/modules/alerts/alerts.service.ts:111-330 | one ingest takes the store to the specified next store, answers `ResultOf` what it found, which describes that store, and throws only as its context says |
| `Alerts.ResultMeans` | apps/api/src/modules/alerts/alerts.service.ts:316-329 | the answer names the event's row, whether it was known and its state moved, the recent rows of its fingerprint and whether they make it flap, both suppressions, the incident the row ends up linked to, and whether this very ingest opened it |
| `Alerts.RecentExact` | apps/api/src/modules/alerts/alerts.service.ts:237-240 | the recent occurrences are the rows of the fingerprint last seen within the rule's window |
| `Alerts.WindowExact` | apps/api/src/modules/alerts/alerts.service.ts:237 | a row last seen k minutes ago is recent if and only if the window is at least k minutes long |
| `Alerts.SilencedExact` | apps/api/src/modules/alerts/alerts.service.ts:245-249 | an ingest is suppressed if and only if its CI is known and in maintenance, or in a change window, and silenced if its rule also says so |
| `Alerts.AlertsService.FollowUp` | apps/api/src/modules/alerts/alerts.service.ts:251-314 | the calls after the write: the page on a first sighting, tickets, and the recovery announcement |
| `Alerts.AlertsService.RecordRow` | apps/api/src/modules/alerts/alerts.service.ts:151-235 | the write creates or refreshes the one row of the event, with an audit record exactly for a creation or a state change |
| `Alerts.AlertsService.TicketAlert` | apps/api/src/modules/alerts/alerts.service.ts:255-303 | correlation first, incident creation only when nothing was linked, under the rule, suppression, CI, site, state and severity conditions |
| `Alerts.AlertsService.CorrelateToOpenIncident` | apps/api/src/modules/alerts/alerts.service.ts:409-435 | links to an open incident when all three calls answer; any failure is swallowed and leaves the row unlinked |
| `Alerts.AlertsService.OpenIncidentForAlert` | apps/api/src/modules/alerts/alerts.service.ts:337-380 | opens or finds the incident and links the row; any failure is swallowed and leaves the row unlinked |
| `Alerts.AlertsService.IngestBatch` | apps/api/src/modules/alerts/alerts.service.ts:562-565 | a batch is ingested in order and abandoned at the first ingest that throws, keeping what was done; each answer is that ingest's, from the store its predecessors left |
| `Alerts.TicketedChangesOneLink` | apps/api/src/modules/alerts/alerts.service.ts:255-303 | ticketing changes nothing but the alert's incident link, never an existing link, and answers what the row then holds |
| `AlertRuns.RunIsBatch` | apps/api/src/modules/alerts/alerts.service.ts:562-565 | a run of ingests is what the service's batch loop leaves behind |
| `AlertRuns.IngestedRows` | apps/api/src/modules/alerts/alerts.service.ts:140-235 | an ingest writes exactly one row, the one of its event, and keeps an existing incident link |
| `AlertRuns.RunReflects` | apps/api/src/modules/alerts/alerts.service.ts:140-235 | in every run rows are unique per event; each was born from the first delivery, holds the join of all delivered states and the latest occurrence, and every written event has one |
| `AlertRuns.OneRowPerEvent` | apps/api/src/modules/alerts/alerts.service.ts:140-235 | an event has exactly one row once some delivery of it was written, and none before |
| `AlertRuns.Convergence` | apps/api/src/modules/alerts/alerts.service.ts:151-164 | two runs that delivered the same payloads of an event, in any order and with any repetition, agree on its state and last sighting |
| `AlertRuns.RunDetails` | apps/api/src/modules/alerts/alerts.service.ts:156-164 | severity is that of the last delivery, type, fingerprint and raw reference those of the first, site and CI the first ones known |
| `AlertRuns.IngestEvolves` | apps/api/src/modules/alerts/alerts.service.ts:151-164 | one ingest moves every row only forward |
| `AlertRuns.RunEvolves` | apps/api/src/modules/alerts/alerts.service.ts:641-657 | over every continuation a row keeps its identity, first sighting, resolved references and incident link; RECOVERED is absorbing |
| `AlertRuns.SightingsOrdered` | apps/api/src/modules/alerts/alerts.service.ts:159-160 | the first sighting is never after the last |
| `AlertRuns.NextDelivery` | apps/api/src/modules/alerts/alerts.service.ts:140-191 | the next delivery moves the row of its own event and leaves every other row exactly as it was |
| `AlertRuns.DeliveryMatters` | apps/api/src/modules/alerts/alerts.service.ts:646-657 | a delivery changes the state its event is known in if and only if every delivery of that event so far was of a lower state |
| `AlertRuns.AuditReplays` | apps/api/src/modules/alerts/alerts.service.ts:166-233 | each alert has one ALERT_RAISED record, then at most two ALERT_STATE_CHANGED records that chain without gaps and replay to its current state |
| `AlertRuns.AuditSays` | apps/api/src/modules/alerts/alerts.service.ts:166-233 | over every run a raised record carries the first delivery's state and severity; a change record carries state and severity of the delivery that caused it, the highest state before it, and the severity of the delivery just before it |
| `AlertCalls.CallsJustified` | apps/api/src/modules/alerts/alerts.service.ts:245-314 | over every run an alert is paged once if its first sighting was due for it and never otherwise; it is announced as recovered once if it recovered cleanly while linked, and never otherwise; every link or incident call came from an unsuppressed ingest under a correlating rule when no delivery so far had recovered the alert and one had known its CI, incident calls also with a known site and a severity the rule opens incidents for; every stored link came from such a call |
| `AlertPolicy.CallsExact` | apps/api/src/modules/alerts/alerts.service.ts:245-314 | exactly which calls an ingest makes: a page on an unsilenced first sighting of a paging severity; a link when the alert is live, unlinked, on a known CI, unsilenced, under a correlating rule, and an incident is open; an incident when nothing could be linked, a site is known and the severity asks for one; an announcement when a linked alert recovers |
| `AlertPolicy.LinkExact` | apps/api/src/modules/alerts/alerts.service.ts:255-303 | exactly what an alert is linked to afterwards; any failure on the way leaves it unlinked |
| `AlertPolicy.MaintenanceSilences` | apps/api/src/modules/alerts/alerts.service.ts:245-303 | over every run an ingest on a CI in maintenance, or in a change window, under a suppressing rule makes no call but a recovery announcement |
| `AlertPolicy.FailedCheckIsNoWindow` | apps/api/src/modules/alerts/alerts.service.ts:387-399 | a maintenance check that fails leaves the same store and answer as one that finds no window |
| `AlertPolicy.FirstSightingIsPaged` | apps/api/src/modules/alerts/alerts.service.ts:251-253 | after every run, the first sighting of an event at a paging severity is paged when neither CI nor change window silences it |
| `AlertCalls.FaultedFirstSightingNeverPages` | apps/api/src/modules/alerts/alerts.service.ts:251-253 | an alert whose first ingest failed after its write is never paged |
| `AlertCalls.UnlinkedAlertIsRetried` | apps/api/src/modules/alerts/alerts.service.ts:401-435 | an unlinked live alert is linked by its next delivery for which the services answer, whatever went wrong before |
| `AlertCalls.UnlinkedAlertOpensIncident` | apps/api/src/modules/alerts/alerts.service.ts:277-303 | with nothing open on its CI and a severity that asks for it, the next delivery opens and links an incident |
| `AlertCalls.RecoveryIsAnnounced` | apps/api/src/modules/alerts/alerts.service.ts:305-314 | the delivery that recovers a linked alert makes its one recovery call |
| `AlertCalls.FaultedRecoveryIsNeverAnnounced` | apps/api/src/modules/alerts/alerts.service.ts:312-314 | over every run the number of announcements is decided by the first delivery that recovered the alert: one if it did not fail and the alert is linked, none otherwise, whatever is delivered later |
| `AlertRuns.ReplayDoesNotFlap` | apps/api/src/modules/alerts/alerts.service.ts:237-240 | a replay no newer than the row leaves every recent-occurrence count as it was |
| `AlertRaces.StaleWriteAgrees` | apps/api/src/modules/alerts/alerts.service.ts:140-191 | for any row read and any row found: an unserialised write stores the serialised state, sighting, site and CI if and only if the two rows agree there or the request covers both |
| `AlertRaces.ForwardExact` | apps/api/src/modules/alerts/alerts.service.ts:140-191 | a step of a race lets no state go back if and only if it is no write that finds a state beyond both the one it read and the one it was sent; it takes nothing back at all if and only if the like holds for sighting, site and CI |
| `AlertRaces.RaceStatesForward` | apps/api/src/modules/alerts/alerts.service.ts:641-657 | over every interleaving whose writes find no such state, states only move forward and a recovered alert stays recovered |
| `AlertRaces.RaceRowsForward` | apps/api/src/modules/alerts/alerts.service.ts:140-191 | over every interleaving whose writes fit, a row keeps its identity, references and link, and its state and sighting only move forward |
| `AlertRaces.StaleWriteForgets` | apps/api/src/modules/alerts/alerts.service.ts:161-163 | after every run that left a site unresolved: a delivery that does not know the site reads, one that does is ingested, the first writes; the site is unresolved again |
| `AlertRaces.StaleAuditExact` | apps/api/src/modules/alerts/alerts.service.ts:151-191 | a write that was computed from an earlier read keeps every audit trail true if and only if it finds the state it read |
| `AlertRaces.RaceKeepsAudit` | apps/api/src/modules/alerts/alerts.service.ts:140-191 | over every interleaving of reads, writes and whole ingests in which each write finds the state it read, every audit trail stays true |
| `AlertRaces.SplitIsSerialised` | apps/api/src/modules/alerts/alerts.service.ts:140-191 | a read and a write with nothing in between are the serialised write |
| `AlertRaces.StaleWriteReopens` | apps/api/src/modules/alerts/alerts.service.ts:140-191 | after every run that left an alert open: an acknowledgement reads, the recovery is ingested, the acknowledgement writes; the row goes from RECOVERED to ACKNOWLEDGED and its audit trail breaks |
| `AlertRules.MostSpecific` | apps/api/src/modules/alerts/alert-rules.service.ts:52-67 | the loop finds the first listed among the matching rules of greatest specificity, or nothing exactly when none match |
| `AlertRules.ChoiceUnique` | apps/api/src/modules/alerts/alert-rules.service.ts:52-67 | that description determines the rule |
| `AlertRules.ActiveIs` | apps/api/src/modules/alerts/alert-rules.service.ts:80-83 | the query answers each active row exactly as often as the table holds it, newest first, whatever the order of the table |
| `AlertRules.RuleChoice` | apps/api/src/modules/alerts/alert-rules.service.ts:42-69 | for every table the policy is that of a matching active rule such that no matching active rule is more specific and none equally specific is newer; the default exactly when none match |
| `AlertRules.PolicyWithoutRules` | apps/api/src/modules/alerts/alert-rules.service.ts:42-69 | where no rule applies: three sightings in thirty minutes flap, CRITICAL and nothing else pages and opens incidents, alerts are correlated and maintenance silences |
| `AlertRules.IrrelevantRule` | apps/api/src/modules/alerts/alert-rules.service.ts:54-67 | inserting a rule that does not match, or is strictly less specific than the winner, changes no result |
| `AlertRules.IrrelevantRow` | apps/api/src/modules/alerts/alert-rules.service.ts:54-86 | so does a new row of the table that is inactive, does not match or is strictly less specific |
| `AlertRules.AlertRulesService.ResolveRule` | apps/api/src/modules/alerts/alert-rules.service.ts:48-69 | the answer is the uncached resolution on fresh cached rows, or else on the table, which is then cached for one TTL |
| `AlertRules.AlertRulesService.ActiveRules` | apps/api/src/modules/alerts/alert-rules.service.ts:76-86 | cached rows while they have not expired, otherwise the active rows newest first |
| `AlertRules.AlertRulesService.InvalidateCache` | apps/api/src/modules/alerts/alert-rules.service.ts:72-74 | nothing is cached afterwards |
| `AlertRules.AlertRulesService.Create` | apps/api/src/modules/alerts/alert-rules.service.ts:102-142 | the table gains the row, and from then on every question at every time resolves on the new table |
| `AlertRules.AlertRulesService.Update` | apps/api/src/modules/alerts/alert-rules.service.ts:144-181 | an unknown id changes nothing; otherwise one row changes and every question resolves on the new table |
| `RuleCache.RunKeepsInv` | apps/api/src/modules/alerts/alert-rules.service.ts:76-86 | in every interleaving of reads, writes and writers, cached and fetched rows are those of a table that stood when they were read |
| `RuleCache.BoundedStaleness` | apps/api/src/modules/alerts/alert-rules.service.ts:76-86 | each answer is the uncached resolution on a table that stood when its rows were read, given less than one TTL after that read completed |
| `RuleCache.CacheRefines` | apps/api/src/modules/alerts/alert-rules.service.ts:48-86 | in sequential runs each answer is that of the table less than one TTL before; of the current table when this service is the only writer |
| `RuleCache.CacheWindow` | apps/api/src/modules/alerts/alert-rules.service.ts:76-86 | rows read are served for thirty seconds from the read, whatever another process writes, and no longer |
| `RuleCache.FetchWindow` | apps/api/src/modules/alerts/alert-rules.service.ts:80-85 | for a slow read the thirty seconds run from its end |
| `RuleCache.PromptExact` | apps/api/src/modules/alerts/alert-rules.service.ts:72-86 | while cache and reads under way hold the present active rows, a step keeps that if and only if it changes no active rows, or is a mutation with invalidation while no read lies between its query and its end, or one without while nothing is cached either |
| `RuleCache.PromptAnswersAreCurrent` | apps/api/src/modules/alerts/alert-rules.service.ts:48-86 | in every run, slow reads included, in which no mutation overtakes a read or the cache, every answer is that of the table of that moment |
| `RuleCache.InvalidateExact` | apps/api/src/modules/alerts/alert-rules.service.ts:72-74 | whatever the cache held, an invalidation brings everything up to date if and only if every read under way holds the present active rows |
| `RuleCache.UnovertakingExact` | apps/api/src/modules/alerts/alert-rules.service.ts:76-86 | the reads under way stay current if and only if a mutation changes no active rows or finds none between its query and its end |
| `RuleCache.AnswersOutsideGaps` | apps/api/src/modules/alerts/alert-rules.service.ts:139-179 | after every run in which no commit overtakes a read, with commits and invalidations apart: outside the gap between the two every answer is the present table's, and that of a read that ends is so even within |
| `RuleCache.AskIsResolveRule` | apps/api/src/modules/alerts/alert-rules.service.ts:48-86 | the service's `resolveRule` is the `Ask` step: same answer, same cache |
| `RuleCache.CommitIsCreate` | apps/api/src/modules/alerts/alert-rules.service.ts:102-138 | the transaction of `create` is the `Commit` step |
| `RuleCache.CommitIsUpdate` | apps/api/src/modules/alerts/alert-rules.service.ts:144-178 | the transaction of `update` is the `Commit` step when it finds its row, and no step otherwise |
| `RuleCache.InvalidateIsInvalidate` | apps/api/src/modules/alerts/alert-rules.service.ts:72-74 | what follows either, after whatever came in between, is the `Invalidate` step |
| `RuleCache.WriteIsCommitInvalidate` | apps/api/src/modules/alerts/alert-rules.service.ts:138-139 | with nothing in between the two are the `Write` step |
| `RuleCache.OvertakenReadServesOldRows` | apps/api/src/modules/alerts/alert-rules.service.ts:80-84 | a read overtaken by a write reinstalls the old rows, so the next answer is the old table's whenever the write matters |
| `Notifications.ArrivalTracker.Next` | apps/web/src/notifications/arrivals.ts:11-24 | exactly the unread items not seen before, nothing for the first list, and every listed id is seen afterwards |
| `Notifications.SharedStorage.ClaimArrivals` | apps/web/src/notifications/arrivals.ts:53-74 | exactly the unclaimed items are won and on the list afterwards; storage that cannot be read lets everything be won, and so does storage that cannot be written if anything is unclaimed |
| `Notifications.LoudestAudible` | apps/web/src/notifications/arrivals.ts:28-43 | CRITICAL before HIGH before NORMAL, of the tiers that are on and present; nothing when muted; never a silent tier |
| `Notifications.LoudestRings` | apps/web/src/notifications/useNotificationSounds.ts:79-86 | the loudest tier is CRITICAL exactly when a CRITICAL item is present and audible |
| `Notifications.AlarmTab.OnPoll` | apps/web/src/notifications/useNotificationSounds.ts:65-92 | the poll effect takes tracker, claim list, alarm set and timer to their specified next state |
| `Notifications.AlarmTab.OnTick` | apps/web/src/notifications/useNotificationSounds.ts:45-57 | a tick stops the alarm exactly when muted, the tier is off or nothing alarms |
| `Notifications.AlarmTab.OnPrefs` | apps/web/src/notifications/useNotificationSounds.ts:107-111 | muting or switching the tier off stops the alarm |
| `Notifications.AlarmTab.DropRead` | apps/web/src/notifications/useNotificationSounds.ts:69-74 | exactly the ids listed as read leave the alarm set |
| `Notifications.AlarmTab.StopAlarm` | apps/web/src/notifications/useNotificationSounds.ts:37-43 | nothing alarms and no timer runs |
| `Notifications.AlarmTab.StartAlarm` | apps/web/src/notifications/useNotificationSounds.ts:45-49 | a timer runs, and only the timer changes |
| `NotificationRuns.KeepsClaims` | apps/web/src/notifications/arrivals.ts:53-74 | a claim keeps the shared list equal to the last 200 ids of the claim order, and any two wins of one id more than 200 positions apart |
| `NotificationRuns.KeepsPoll` | apps/web/src/notifications/useNotificationSounds.ts:65-92 | a poll of one tab keeps the claim order and the alarm and tracker promises of every tab |
| `NotificationRuns.RunKeepsInv` | apps/web/src/notifications/useNotificationSounds.ts:37-124 | in every interleaving of any number of tabs, with storage failing at any poll: the timer runs exactly when the alarm set is non-empty, every alarm id is a CRITICAL notice this tab won and not read in its last poll, a running alarm is audible once the preference effect ran, and the tracker answers no id twice and none of its baseline |
| `NotificationRuns.OneTabRings` | apps/web/src/notifications/arrivals.ts:48-74 | two tabs ring for one notification only if at least 200 claims lie between their wins, or storage failed when one of them won it |
| `NotificationRuns.WorkingStorageRecords` | apps/web/src/notifications/arrivals.ts:60-70 | while storage works nothing is won outside the shared list |
| `NotificationRuns.ClaimedAgainAfterCap` | apps/web/src/notifications/arrivals.ts:61-69 | an id is won again if and only if at least 200 claims have followed its last one |
| `NotificationRuns.CriticalWinRings` | apps/web/src/notifications/useNotificationSounds.ts:75-86 | a new CRITICAL notice that the shared list does not hold, or any when the list cannot be read, starts the tab's alarm when the tier is audible |
| `NotificationRuns.PollAlarmExact` | apps/web/src/notifications/useNotificationSounds.ts:69-91 | after a poll exactly those ids alarm that did and are not listed as read, and the CRITICAL ones just won if unmuted with the tier on |
| `NotificationRuns.QuietExact` | apps/web/src/notifications/useNotificationSounds.ts:49-56 | a tick, or a change of preferences once its effect runs, stops an alarm if and only if muted or the tier is off |
| `NotificationRuns.AlarmRepeats` | apps/web/src/notifications/useNotificationSounds.ts:24-28 | an alarm rings on over every run, whatever happens in any tab, until it is acknowledged, read, muted or closed |
| `Snmp.PduToSnmpTrap` | apps/collector/src/snmp/pdu.ts:60-114 | a v1 PDU keeps its fields; of a v2c PDU the last readable uptime and last non-empty trap OID count, and the other varbinds stay in order |
| `SnmpExact.TrapExact` | apps/collector/src/snmp/pdu.ts:60-114 | sender, CI, time and version of the trap, and for v1 its own fields |
| `SnmpExact.UpTimeExact` | apps/collector/src/snmp/pdu.ts:89-96 | the last uptime varbind that reads as a number decides the uptime |
| `SnmpExact.TrapOidExact` | apps/collector/src/snmp/pdu.ts:97-103 | the last trap OID varbind with a text decides the trap OID |
| `SnmpExact.DataExact` | apps/collector/src/snmp/pdu.ts:104-105 | all other varbinds are passed on, in order |
| `SnmpExact.VarbindExact` | apps/collector/src/snmp/pdu.ts:46-52 | a varbind keeps OID and value; octets become text and an empty type is dropped |
| `Snmp.FillVarbindMap` | integrations/snmp/src/normalize.ts:151-157 | the loop builds the map from labels to values |
| `Snmp.LastVarbindWins` | integrations/snmp/src/normalize.ts:111-157 | every label maps to the value of its last varbind |
| `SnmpExact.LabelExact` | integrations/snmp/src/normalize.ts:111-113 | a varbind is labelled by its trimmed name, or by its OID when that is missing or blank |
| `SnmpExact.ComponentExact` | integrations/snmp/src/normalize.ts:115-141 | an interface trap takes the first interface name or description that says something, whatever index there is; else the first index with a value; else, as any trap, the first named part that says something; else none |
| `SnmpExact.KindsExact` | integrations/snmp/src/normalize.ts:66-67 | which varbinds name an interface, index one or name a part, by OID prefix and by name in any case |
| `SnmpExact.NameBeatsIndex` | integrations/snmp/src/normalize.ts:119-133 | index 3 and description Gi0/3 make the component if:Gi0/3 in either order |
| `SnmpExact.SiteExact` | integrations/snmp/src/normalize.ts:85-88 | the site code of a CI code is its alphanumeric part before the first hyphen or underscore |
| `SnmpExact.OidExact` | integrations/snmp/src/normalize.ts:90-109 | the OID of a trap: its own; for v1 the generic one or the enterprise's with two arcs more; else none |
| `SnmpExact.GenericOidExact` | integrations/snmp/src/normalize.ts:56-64 | generic trap g is standard trap g + 1 |
| `SnmpExact.GenericAlertExact` | integrations/snmp/src/normalize.ts:29-54 | type, severity, state and interface hint of each generic trap |
| `SnmpExact.UnknownTypeExact` | integrations/snmp/src/normalize.ts:143-149 | an unnamed unknown trap is typed by the last two arcs of its OID |
| `SnmpExact.AlertExact` | integrations/snmp/src/normalize.ts:196-235 | every field of the alert and of its attributes, with the collector's overrides of severity and clearing |
| `SnmpExact.RejectionExact` | integrations/snmp/src/normalize.ts:171-194 | which missing or unreadable field rejects a trap, in order, and what is read otherwise |
| `SnmpExact.SummaryExact` | integrations/snmp/src/normalize.ts:209-212 | the summary is title, component and sender joined by spaces |
| `SnmpProofs.SlugShape` | integrations/snmp/src/normalize.ts:69-75 | a slug holds only lower-case letters, digits and single inner underscores, never a hyphen |
| `SnmpProofs.SlugIdempotent` | integrations/snmp/src/normalize.ts:69-75 | slugging a slug changes nothing |
| `SnmpProofs.SlugJoinsWords` | integrations/snmp/src/normalize.ts:69-75 | a slug is the maximal alphanumeric runs of the trimmed, lower-cased text joined by underscores |
| `SnmpProofs.SlugOfWord` | integrations/snmp/src/normalize.ts:69-75 | a word of lower-case letters and digits is its own slug |
| `SnmpExact.EventIdFormat` | integrations/snmp/src/normalize.ts:205-207 | the event id is snmp, slugged CI, type and component, and the occurrence, joined by hyphens |
| `SnmpProofs.EventIdInjective` | integrations/snmp/src/normalize.ts:205-207 | event ids are equal if and only if slugged CI, alert type and component and the occurrence are |
| `SnmpProofs.EventKeyExact` | integrations/snmp/src/normalize.ts:171-235 | so for any two usable traps, in terms of what is read from them |
| `SnmpProofs.LinkTrapsPair` | apps/api/src/modules/alerts/alerts.fingerprint.ts:16-21 | linkDown and linkUp traps that agree on site, CI and interface have the same fingerprint, and the same event id exactly when their occurrences agree |
| `SnmpExact.FingerprintExact` | apps/api/src/modules/alerts/alerts.fingerprint.ts:10-21 | for a hash without collisions and parts without a bar, fingerprints agree if and only if site, CI, type and component do after trimming and lower-casing |
| `SnmpProofs.LinkUpClosesExactly` | integrations/snmp/src/normalize.ts:26-54 | after every run that left the linkDown row unrecovered, the linkUp recovers that row if and only if CI slug, component slug and occurrence agree; otherwise it leaves the row exactly as it was |
| `SnmpProofs.LinkUpLeavesLinkDownOpen` | integrations/snmp/src/normalize.ts:159-170 | a linkUp of another occurrence leaves the linkDown row open beside its own recovered row |
| `SnmpProofs.TranslatedTrap` | apps/collector/src/snmp/pdu.ts:85-113 | the collector reads uptime, trap OID and varbinds back from a v2c translation |
| `SnmpProofs.TranslationPreservesMeaning` | integrations/snmp/src/normalize.ts:171-235 | a v1 trap and its v2c translation by section 3.1 of RFC 3584 normalise to the same alert or the same error; attributes differ only in version, v1 fields and the varbinds a proxy adds |
| `Pipeline.ReadingIgnoresClock` | integrations/snmp/src/normalize.ts:182-194 | a trap that says when it was received normalises the same whenever the API gets to it |
| `Pipeline.TrapReachesItsRow` | apps/collector/src/index.ts:69-77 | in every disciplined run an accepted PDU of any version that normalises was evicted, is queued, or has exactly one row under its event id |
| `Pipeline.TranslationReachesItsRow` | apps/collector/src/snmp/pdu.ts:60-114 | a v1 trap sent as its v2c translation reaches the row its v1 form names |
| `Pipeline.BufferKeyExact` | apps/collector/src/index.ts:70-77 | two traps of one agent share their buffer key if and only if trap OID (or v1 specific number) and uptime (or receive time) agree |
| `Pipeline.BufferKeyNamesAgent` | apps/collector/src/index.ts:70-77 | across agents the key also determines the address, IPv6 included, whenever the trap OID holds no colon |
| `Pipeline.SameKeyIsSameEvent` | apps/collector/src/index.ts:70-77 | any two usable traps of one agent share their buffer key if and only if they agree on that and on the occurrence, and then are one event for the server if and only if CI, alert type and component have the same slugs |
| `Pipeline.IgnoredExact` | apps/collector/src/delivery-buffer.ts:39-41 | an item is ignored if and only if its key is queued |
| `Pipeline.IgnoredTrapLoses` | apps/collector/src/index.ts:70-77 | after every run in which the queued trap was ingested last: the ignored one would have changed the state its event is known in if and only if it is further along than every earlier delivery of that event, and than the queued one where the server takes both for one event |
| `Pipeline.V1KeyExact` | apps/collector/src/snmp/pdu.ts:71-83 | v1 traps of one agent and occurrence share their key if and only if their specific numbers agree, whatever enterprise and generic trap |
| `Pipeline.V2KeyExact` | apps/collector/src/index.ts:70-77 | v2c and v3 traps of one agent and uptime share their key if and only if their trap OIDs agree |
| `Pipeline.ColdStartHidesAuthenticationFailure` | apps/collector/src/index.ts:70-77 | a v1 cold start and an authentication failure of one tick share a buffer key although their event ids differ |
| `Pipeline.LinkDownSwallowsLinkUp` | apps/collector/src/index.ts:70-77 | a v1 linkDown and linkUp of one tick share buffer key and event id, so the queued linkDown keeps its row open that the linkUp would have recovered |
| `Batches.Collect` | apps/api/src/modules/alerts/alerts.service.ts:586-599 | results and rejections partition a batch: every item in its place, in order, rejections with position and error, and nothing else |
| `Alertmanager.NormalizeWebhook` | integrations/prometheus/src/normalize.ts:137-155 | an envelope without alerts is refused; otherwise alerts and errors partition the delivery |
| `Alertmanager.AlertExact` | integrations/prometheus/src/normalize.ts:101-128 | every field of the alert: time of start or, if resolved and known, of the end; first named component; first summary; event id by parts |
| `Alertmanager.SeverityExact` | integrations/prometheus/src/normalize.ts:25-43 | a severity label means what the table says in any case, and WARNING otherwise |
| `Alertmanager.SecondExact` | integrations/prometheus/src/normalize.ts:45-52 | times are cut down to whole seconds |
| `Alertmanager.RejectionExact` | integrations/prometheus/src/normalize.ts:76-99 | which missing label, fingerprint or start rejects a delivery, in order |
| `Alertmanager.EpisodeKeyInjective` | integrations/prometheus/src/normalize.ts:105-108 | an event id determines series fingerprint and start, whatever the fingerprint contains |
| `Alertmanager.EpisodeLife` | integrations/prometheus/src/normalize.ts:72-129 | in any run an episode has one row, RECOVERED if some resolved delivery was ingested and OPEN otherwise |
| `Alertmanager.ResolvedStaysResolved` | integrations/prometheus/src/normalize.ts:101-117 | a resolved episode never reopens, whatever is delivered later |
| `Health.Worst` | integrations/redfish/src/normalize.ts:54-62 | CRITICAL if one is, else WARNING if one is, else the first known state, else UNKNOWN |
| `Health.WorstInStages` | integrations/hpe-ilo/src/normalize.ts:155-162 | taking the worst in two stages is taking it at once, ties included |
| `Health.PushParts` | integrations/redfish/src/normalize.ts:80-94 | the degraded parts of a list are appended, in order and named |
| `HealthExact.DegradedExact` | integrations/redfish/src/normalize.ts:80-94 | exactly the present parts that are not healthy are listed, each with its health, under its name or number |
| `Health.CountParts` | integrations/redfish/src/normalize.ts:207-224 | present parts and healthy parts are counted, healthy never exceeding total |
| `HealthExact.CountExact` | integrations/redfish/src/normalize.ts:207-224 | the counts are those of the present parts and of the healthy ones among them |
| `Health.PartsConserved` | integrations/redfish/src/normalize.ts:80-94 | each present part is either counted as healthy or listed as degraded |
| `Health.NormalizeRedfishSystem` | integrations/redfish/src/normalize.ts:117-205 | errors for a missing CI code or system; otherwise degraded list, counts and predictions of the bundle, and the worst over rollup, degraded parts and predicted failures |
| `HealthExact.RedfishVerdict` | integrations/redfish/src/normalize.ts:176-183 | CRITICAL if rollup or a present part is; else WARNING if rollup, a present part or a predicted failure says so; else what the rollup says |
| `HealthExact.RedfishListed` | integrations/redfish/src/normalize.ts:132-174 | every entry of the list, by kind, name and reported health, sensors over their threshold included |
| `HealthExact.StatusExact` | integrations/redfish/src/normalize.ts:29-78 | what a status text means, rollup or own, and when a part is absent |
| `HealthExact.PredictionsExact` | integrations/redfish/src/normalize.ts:226-234 | as many failures are predicted as drives predict, or disks alert |
| `Health.RedfishConserves` | integrations/redfish/src/normalize.ts:132-234 | fans, power supplies and drives listed as degraded are exactly total minus healthy |
| `Health.NormalizeHpeIloSystem` | integrations/hpe-ilo/src/normalize.ts:97-163 | the two-stage overall health is one worst over all base inputs and HPE extras; everything else is the base with the extras appended |
| `HealthExact.HpeVerdict` | integrations/hpe-ilo/src/normalize.ts:155-162 | the verdict of the base, with unflagged subsystem rollups and batteries among what may be ill |
| `HealthExact.BatteryNamed` | integrations/hpe-ilo/src/normalize.ts:133-143 | a battery is listed by product name, or index, or position |
| `Health.PushRollups` | integrations/hpe-ilo/src/normalize.ts:118-130 | exactly the warning or critical rollups of kinds the base did not flag |
| `HealthExact.RollupExact` | integrations/hpe-ilo/src/normalize.ts:118-130 | exactly the unflagged subsystems that roll up as WARNING or CRITICAL are added |
| `HealthExact.AggregatesExact` | integrations/hpe-ilo/src/normalize.ts:56-67 | which subsystem rolls up to which kind |
| `Health.HpeConserves` | integrations/hpe-ilo/src/normalize.ts:115-155 | HPE keeps the base's drive count exactly, and its fan and power-supply counts unless none was degraded, when one rollup may be added |
| `Health.PushSubsystems` | integrations/dell-ome/src/normalize.ts:185-187 | the degraded subsystem rollups are appended under the kind their name maps to |
| `HealthExact.SubsystemsExact` | integrations/dell-ome/src/normalize.ts:185-187 | exactly the subsystems that are not healthy are listed |
| `HealthExact.KindExact` | integrations/dell-ome/src/normalize.ts:89-107 | which kind a subsystem name maps to |
| `Health.NormalizeDellOmeDevice` | integrations/dell-ome/src/normalize.ts:161-242 | the loops compute the snapshot, or the error for a missing CI code or device |
| `HealthExact.DellVerdict` | integrations/dell-ome/src/normalize.ts:209-220 | the verdict from the device's code, its parts and subsystems, and SMART alerts |
| `HealthExact.DellListed` | integrations/dell-ome/src/normalize.ts:176-207 | every entry of the list, by kind, name and reported code |
| `HealthExact.AlertingExact` | integrations/dell-ome/src/normalize.ts:109-111 | a disk alerts if and only if its failure state speaks of something present |
| `Health.NormalizeDellOmeDevices` | integrations/dell-ome/src/normalize.ts:249-273 | snapshots and rejections partition the fleet |
| `Health.DellConserves` | integrations/dell-ome/src/normalize.ts:176-232 | degraded drives are exactly total minus healthy; fans and power supplies once the subsystem rollups of their kind are added |
| `Email.StripQuotedReply` | integrations/email/src/parse.ts:44-73 | the trimmed join of exactly the unquoted lines before the first line that ends the body |
| `Email.StripLines` | integrations/email/src/parse.ts:46-70 | the loop with its early popping yields that text |
| `Email.BodyEndIsFirstStop` | integrations/email/src/parse.ts:50-68 | the body ends at the first marker, second of two adjacent quoted lines, or signature delimiter (section 4.3 of RFC 3676) |
| `EmailExact.OriginalMessageExact` | integrations/email/src/parse.ts:22-22 | the original-message marker as the texts it matches |
| `EmailExact.RuleExact` | integrations/email/src/parse.ts:23-23 | the rule marker: five underscores or more |
| `EmailExact.AttributionExact` | integrations/email/src/parse.ts:24-24 | the attribution marker: On, something, wrote: |
| `EmailExact.HeaderExact` | integrations/email/src/parse.ts:25-25 | the header marker: From: in any case, a space, something |
| `EmailExact.SentFromExact` | integrations/email/src/parse.ts:26-26 | the device marker: Sent from my in any case |
| `EmailExact.QuotedExact` | integrations/email/src/parse.ts:53-53 | a quoted line: white space, then an angle bracket |
| `EmailExact.SignatureExact` | integrations/email/src/parse.ts:65-65 | a signature delimiter: two hyphens and white space |
| `EmailExact.UnquotedExact` | integrations/email/src/parse.ts:53-69 | exactly the quoted lines go and the others keep their order |
| `EmailExact.UnixAt` | integrations/email/src/parse.ts:45-45 | a carriage return before a line feed goes, wherever it is |
| `EmailExact.UnixFixed` | integrations/email/src/parse.ts:45-45 | text without one stays as it is |
| `EmailExact.SplitExact` | integrations/email/src/parse.ts:45-45 | splitting at line feeds and joining again gives the text back |
| `Email.PopBlanks` | integrations/email/src/parse.ts:57-59 | popping blank lines leaves a prefix without a blank last line and never changes the trimmed text |
| `Email.EscapeIsOnePass` | integrations/email/src/render.ts:254-260 | the four sequential replacements are one substitution per character |
| `Email.EscapeIsInert` | integrations/email/src/render.ts:254-260 | escaped text holds no angle bracket and no double quote |
| `Email.EscapeRoundTrip` | integrations/email/src/render.ts:254-260 | decoding the entities gives every text back |

## Left out

- Alerts.AlertsService.Ingest: the arguments of incident and notification calls (category, priority, texts), log lines and the result's fingerprint are not modelled; a call that throws counts as not made; a row's id is its position in the table.
- AlertRuns.RunReflects: run-wide claims about rows are for serialised ingests; `AlertRaces` covers states and audit of interleaved updates, not the calls they make.
- AlertCalls.CallsJustified: a page is the call made for it; whether the inbox delivers it, an empty roster and the failures swallowed inside the call are not modelled.
- Delivery.DeliveryBuffer.OnChange: file-system failures and crashes inside a write; with the atomic rename such a crash equals one before or after the whole piece, as long as the file system keeps its promises.
- ProtocolRuns.EndToEnd: health snapshots carry no alert event, so for them it states only that the server acted.
- Alerts.AlertsService.IngestBatch: the shape of the response to a webhook.
- NotificationRuns.RunKeepsInv: claims on the shared list are atomic although the browser gives no such promise, a poll lists distinct ids, a failing storage is judged poll by poll, and a poll step is one the effect processes; the `enabled` flag, tones, volume and desktop notifications are not modelled.
- Snmp.PduToSnmpTrap: numbers are integers, and decoding octets to text is done by the parameter's maker.
- SnmpExact.FingerprintExact: SHA-256 is assumed to have no collisions; parts that contain the separator can collide before hashing.
- SnmpProofs.SlugIdempotent: assumes that lower-casing leaves ASCII text without capitals alone, as does `Pipeline.ColdStartHidesAuthenticationFailure`.
- Pipeline.SameKeyIsSameEvent: for traps stamped with a trimmed receive time, as the collector stamps every trap.
- AlertRules.ActiveIs: rows created at the same time keep the table's order, which the database does not promise.
- Pipeline.TrapReachesItsRow: one decoder stands for the whole run, which `ReadingIgnoresClock` justifies for traps with a receive time, as the collector always gives one.
- Health.NormalizeRedfishSystem: detail texts, power state, firmware, attributes and the names of predicted failures; a part's name is the first the source's fallback chain finds before its numbered default.
- Health.NormalizeDellOmeDevice: the same as for Redfish, and the connection state; a subsystem named like an inherited member of a JavaScript object, for which the source's table lookup finds that member and the model answers SYSTEM.
- Alertmanager.NormalizeWebhook: attributes and error texts; a severity label that names an inherited member of a JavaScript object, such as `constructor`, for which the source's table lookup finds that member and the model answers WARNING.
- The Zabbix mapping and the warranty providers: table lookups and maxima.
- Internals of the incident, change and inbox services: they appear as calls that answer or fail.
- HTTP clients, receivers, queues, controllers, authentication, storage, command line and seed data.
- Collector configuration, credentials and sound-preference storage.
- E-mail address parsing, entity keys and notification rendering apart from escaping.
- React components, theme and tone synthesis.
- SHA-256, JSON encoding and date parsing: parameters of the model.
