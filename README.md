# chrono-matchmaking matcher, modelled in Dafny

This project models the matching engine of chrono-matchmaking (`service/matcher.go`), a
rating-based matchmaker that groups queued players of one region and game mode, and the
queue store it calls (`storage/redis.go`), and proves properties of the model.

The engine has two strategies.

- **FindMatch (on demand).** A player who already has a saved match gets that match back.
  Otherwise the player's record is loaded and a rating window is computed from their waiting
  time. The store is asked for at most twice the match size of queued players of the same
  region and mode, rated inside the window, lowest rating first. The candidates are scanned in
  that order: the requester is skipped, and compatible candidates are taken until the match is
  full. A full match is saved first, and then every member is removed from the queue. A failed
  save or removal is only logged.
- **ProcessQueue (batch).** Up to 100 queued players of one region and mode are fetched,
  rated 0 to the largest 64-bit integer. Each player not yet used anchors a group, which takes,
  in fetch order, every unused player compatible with the anchor until it is full. A full group
  becomes a match that is saved, and its members are removed. A group that stays short releases
  every player it marked.

Compatibility means same region, same mode, and ratings at most `MaxRatingDiff` apart.

## How the model is built

- `policy.dfy` (module `Policy`) holds the pure helpers as functions: the match size per
  mode, the rating window and compatibility. Lemmas state the window's saturation, its linear
  ramp, its monotonicity and the compatibility interval.
- `store.dfy` (module `Store`) models the store.
  - The class `QueueStore` has the queue (one sequence ordered by rating; a region and mode is
    a filter of it), the player records keyed by identifier, the saved matches keyed by player
    identifier, and a ghost log of the `Save` and `Remove` writes in call order.
  - Two constant fault flags stand for a store whose range reads fail and one whose match
    writes fail. Each is fixed for the store, so a fault is all-or-nothing: either every
    range read (or every match write) of that store fails, or none does.
  - The pure state `StoreState`, with `Apply`/`ApplyAll`, gives the effect of a sequence of
    writes.
- `on_demand.dfy` (module `OnDemand`) and `batch.dfy` (module `Batch`) describe one call of each
  strategy as a pure plan: the result, and the writes it makes in order. The lemmas about the
  strategies are stated on these plans.
- `service.dfy` (module `Service`) holds the class `MatcherService`, whose methods are the Go
  methods: loops over the candidates, the anchors, the group and the removals. Each method calls
  the store object and is proved to return the plan's result. It also leaves the log extended by
  exactly the plan's writes, and the store in the state those writes produce.
- The clock and identifier generation are parameters. FindMatch gets the waiting time as a
  natural number of nanoseconds (a Go `time.Duration`), plus the new match's identifier and
  creation time. ProcessQueue gets functions from the match's ordinal in the pass to its
  identifier and creation time.

The code is modelled as written where it differs from the natural reading of the window.
The widened window only bounds the store query (`service/matcher.go:94-95`), while `isCompatible`
still compares against the base `MaxRatingDiff` (`:182`). So with the defaults after 61 seconds
the window is 300, yet a candidate rated 290 above the requester is rejected.
`Policy.WindowDoesNotWidenCompatibility` states this.

## Model

| member | source | states |
|---|---|---|
| Policy.GetPlayersPerMatch | service/matcher.go:40-49 | "1v1" needs 2 players and every other mode, "3v3" included, needs 6; so at least 2 always |
| Policy.SlicesOfWait | service/matcher.go:164 | truncating the wait to whole seconds and then to whole 30-second slices equals truncating it to whole slices of nanoseconds |
| Policy.RatingRangeSaturates | service/matcher.go:158-161 | past the maximum search time the window is exactly 1000, however long the wait |
| Policy.RatingRangeRamp | service/matcher.go:163-165 | up to the maximum search time the window is the base difference plus the rate times the number of whole 30-second slices waited |
| Policy.RatingRangeConstantWithinSlice | service/matcher.go:163-165 | two waits in the same slice, both before saturation, get the same window |
| Policy.RatingRangeMonotone | service/matcher.go:163-165 | with a non-negative rate the window is at least the base difference and never shrinks as the wait grows up to the maximum search time |
| Policy.DefaultRangeAfter61Seconds | service/matcher.go:30-37 | with the default configuration (200, five minutes, 50, 6) a 61-second wait gives a window of 300 |
| Policy.CompatibleIff | service/matcher.go:169-183 | compatible exactly when region and mode agree and the second rating lies within the base difference of the first on either side |
| Policy.CompatibleSymmetric | service/matcher.go:169-183 | compatibility does not depend on the order of the two players |
| Policy.IncompatibleAcrossPartitions | service/matcher.go:170-178 | players of different regions or modes are never compatible, whatever their ratings |
| Policy.WindowDoesNotWidenCompatibility | service/matcher.go:180-182 | after 61 seconds, with the defaults, a same-partition player 290 above lies inside the window but is incompatible; one 200 above is compatible |
| Store.Partition | storage/redis.go:180-182 | the entries of one region and mode are exactly the queue's entries with that region and mode, still ordered by rating |
| Store.PartitionCounts | storage/redis.go:180-182 | the partition holds every entry of its region and mode exactly as often as the queue does, and nothing else |
| Store.RatedWithin | storage/redis.go:123-131 | exactly the entries rated inside the inclusive range, still ordered by rating |
| Store.RatedWithinCounts | storage/redis.go:123-131 | the range filter holds every entry inside the range exactly as often as its input does, and nothing else |
| Store.RangeQuery | storage/redis.go:120-151 | a prefix of the range-filtered partition, so the lowest-rated matching entries, at most `limit` of them, in rating order; each is queued in that region and mode and inside the range; when fewer than `limit` come back, all matching entries come back |
| Store.Insert | storage/redis.go:53-58 | enqueuing adds exactly one entry, the new record, and keeps the queue ordered by rating |
| Store.RemoveEntry | storage/redis.go:99-101 | removing a record drops exactly the entries equal to it and keeps the order |
| Store.RemoveEntryCounts | storage/redis.go:99-101 | removing a record drops every entry equal to it and keeps every other entry exactly as often as before |
| Store.Removals | service/matcher.go:136-144 | one removal per member, in member order |
| Store.MatchOpsSavedFirst | service/matcher.go:128-144 | a match's writes are its save, then one removal per member in order; so every removal follows the save of a match holding that player |
| Store.SaveThenRemovals | service/matcher.go:128-144 | applying a match's writes is applying its save and then the removal of each member |
| Store.ApplyAllWellFormed | storage/redis.go:82-117 | any sequence of saves and removals keeps the queue ordered by rating and every record under its own identifier |
| Store.MatchOpsRecordMatch | service/matcher.go:128-134 | unless match writes fail, after a match's writes every member's saved match is that match |
| Store.MatchOpsKeepOthers | service/matcher.go:253-269 | a match's writes leave the saved match of every player outside it unchanged |
| Store.MatchOpsUnkeyMembers | storage/redis.go:106-110 | after a match's writes none of its members has a player record left |
| Store.ApplyAllShrinksPlayers | storage/redis.go:82-117 | saves and removals never add a player record |
| Store.FailedWritesKeepMatches | service/matcher.go:129-134 | when match writes fail, no sequence of writes changes the saved matches |
| Store.QueueStore.AddPlayerToQueue | storage/redis.go:45-79 | the record is enqueued once in rating order and stored under its identifier; matches and the log are unchanged |
| Store.QueueStore.RemovePlayerFromQueue | storage/redis.go:82-117 | fails with NotFound when no record is stored under the identifier; otherwise drops the record's queue entries and the record; the removal is logged either way |
| Store.QueueStore.GetPlayersInRange | storage/redis.go:120-151 | the range query's answer, or Unavailable when range reads fail |
| Store.QueueStore.GetPlayerByID | storage/redis.go:154-171 | the record stored under the identifier, or none |
| Store.QueueStore.GetMatchByPlayerID | service/matcher.go:66-67 | the match saved for the player, or none |
| Store.QueueStore.SaveMatch | service/matcher.go:129-134 | the save is logged; unless match writes fail, the match is stored under every member's identifier, otherwise it reports Unavailable and changes nothing |
| Store.QueueStore.GetQueueSize | storage/redis.go:174-177 | the number of queue entries of that region and mode |
| OnDemand.EligibleCandidates | service/matcher.go:107-118 | exactly the returned candidates that are not the requester and are compatible with them, in the order returned |
| OnDemand.GatherTakesEligiblePrefix | service/matcher.go:104-118 | the greedy scan with its early exit keeps the first eligible candidates that fit, in the order returned |
| OnDemand.FindMatchReturnsSavedMatch | service/matcher.go:65-74 | a player with a saved match gets exactly that match back and nothing is written |
| OnDemand.FindMatchMissingPlayer | service/matcher.go:76-80 | a player with no saved match and no record gets PlayerNotFound and nothing is written |
| OnDemand.FindMatchSucceedsIff | service/matcher.go:104-154 | a match is created if and only if the candidates hold at least size - 1 eligible players; otherwise the result is NoSuitableMatch and nothing is written |
| OnDemand.ScanSucceedsIff | service/matcher.go:103-154 | over any returned candidates the scan creates a match if and only if at least size - 1 of them are eligible; otherwise NoSuitableMatch with no writes |
| OnDemand.FindMatchCreatesMatch | service/matcher.go:104-134 | a created match has exactly the mode's size, is the requester followed by the first size - 1 eligible candidates, and its writes are the save followed by one removal per member |
| OnDemand.FindMatchMembersCompatible | service/matcher.go:89-118 | every member after the requester is a queued player of the requester's region and mode with another identifier, within the base difference and inside the window, lowest rating first |
| OnDemand.EligibleCandidateFacts | service/matcher.go:89-118 | an eligible candidate of the range query is another queued player of the requester's region and mode, within the base difference and inside the window |
| OnDemand.FindMatchWritesOrdered | service/matcher.go:128-144 | every removal follows the save of a match holding that player, and a call writes only when it creates a new match |
| OnDemand.FindMatchIdempotent | service/matcher.go:65-74 | after a call that returned a match, with working match writes, a second call returns the identical match and writes nothing (with failing match writes the match is lost instead, as the next row states) |
| OnDemand.FindMatchLostWhenWritesFail | service/matcher.go:128-144 | when match writes fail the created match is lost: the members are still removed, so the requester's next call gets PlayerNotFound and writes nothing |
| OnDemand.FindMatchPairsTwoQueuedPlayers | service/matcher.go:64-151 | with the defaults, EU "1v1" players rated 1500 and 1550 asking within 30 seconds are matched, requester first |
| OnDemand.PairCandidates | service/matcher.go:86-97 | with the defaults and a wait under 30 seconds, the range query for the player rated 1500 over a queue of 1500 and 1550 returns both, lowest rating first |
| OnDemand.PairGathers | service/matcher.go:104-118 | the scan for the player rated 1500 over those two skips the requester and takes 1550 |
| Batch.GrowShape | service/matcher.go:228-238 | the inner scan keeps its starting group, never grows it past the size, and adds only unused listed players, each compatible with the anchor and with distinct identifiers, marking exactly those |
| Batch.ReleaseRestoresUsed | service/matcher.go:282-286 | releasing a short group leaves the marks exactly as they were before the attempt |
| Batch.FullGroupOk | service/matcher.go:223-241 | a group attempt starts at its anchor, marks precisely its members, touches no earlier mark, and a full one satisfies the group conditions |
| Batch.ClusterShape | service/matcher.go:218-287 | every group the outer scan forms is full, anchored at its own index and compatible with its anchor; groups are pairwise disjoint with increasing anchors |
| Batch.PrependGroup | service/matcher.go:218-287 | a full group anchored at an index, in front of later groups that avoid its members, keeps the groups disjoint with increasing anchors |
| Batch.BatchOpsOrdered | service/matcher.go:253-269 | in the writes of a pass every removal follows the save of a match holding that player |
| Batch.BatchRecordsGroups | service/matcher.go:253-269 | after the writes for disjoint groups no member keeps a player record and, unless match writes fail, each member's saved match is their own group's match |
| Batch.ProcessQueueOutcome | service/matcher.go:206-213 | a pass fails only when the range read fails, and then writes nothing; with fewer players fetched than the match size it writes nothing |
| Batch.ProcessQueueGroupsValid | service/matcher.go:218-287 | every group has exactly the mode's size, its first member is the fetched player at its anchor index, all members are queued players of the region and mode, compatible with the anchor, distinct; no player is in two groups |
| Batch.ProcessQueueRecordsMatches | service/matcher.go:241-269 | after a pass no member of a formed group has a player record left and, unless match writes fail, each is saved with their group's match |
| Batch.ProcessQueueWritesOrdered | service/matcher.go:253-269 | each group is saved before any of its members is removed |
| Batch.ScenarioFetch | service/matcher.go:206 | the scenario's fetch returns all three players lowest rating first |
| Batch.ScenarioCluster | service/matcher.go:218-287 | in the scenario the 1500 anchor is paired with 1550 and the 1900 anchor stays short |
| Batch.ScenarioGroups | service/matcher.go:204-287 | the scenario's pass forms exactly the one group of the players rated 1500 and 1550 |
| Batch.ScenarioOps | service/matcher.go:241-269 | the writes for one pair are its save, then the removal of each player in order |
| Batch.ProcessQueuePairsAndReleases | service/matcher.go:201-290 | with the defaults, a "1v1" pass over EU players rated 1500, 1550 and 1900 forms one pair and writes its save and two removals, leaving 1900 queued |
| Service.MatcherService.constructor | service/matcher.go:52-61 | without a configuration the default one is used |
| Service.MatcherService.FindMatch | service/matcher.go:64-155 | returns the on-demand plan's result, extends the log by exactly its writes, and leaves the store in the state those writes produce |
| Service.MatcherService.MatchQueuedPlayer | service/matcher.go:82-154 | once the requester's record is loaded: CandidatesUnavailable when the range read fails, otherwise the scan's result, with exactly its writes logged and applied |
| Service.MatcherService.FetchCandidates | service/matcher.go:89-97 | the range query asks for twice the match size of players of the requester's region and mode within the window on either side of their rating, or Unavailable |
| Service.MatcherService.MatchCandidates | service/matcher.go:103-154 | the greedy scan over the returned candidates; a full group becomes the match, saved and then its members removed; otherwise NoSuitableMatch and no writes |
| Service.MatcherService.SelectPlayers | service/matcher.go:104-118 | the candidate loop with its early exit computes the greedy scan |
| Service.MatcherService.RecordMatch | service/matcher.go:128-144 | saves the match and then removes each member, logging exactly the match's writes and applying them |
| Service.MatcherService.RemoveMembers | service/matcher.go:136-144 | the removal loop logs and applies one removal per member, in member order |
| Service.MatcherService.ProcessQueue | service/matcher.go:201-290 | returns the batch plan's result, extends the log by exactly its writes, and leaves the store in the state those writes produce |
| Service.MatcherService.GroupPlayers | service/matcher.go:215-287 | the outer anchor loop logs and applies exactly the writes for the groups the outer scan forms |
| Service.MatcherService.AnchorTurn | service/matcher.go:218-280 | one anchor turn extends the formed groups and the writes by the anchor's group when it is full, and by nothing otherwise |
| Service.MatcherService.ProcessAnchor | service/matcher.go:218-287 | at one anchor, a used one is skipped, a full group is kept, and a short one is released, as the outer scan does |
| Service.MatcherService.GrowGroup | service/matcher.go:224-238 | the inner loop marks the anchor and computes the inner scan; the group starts with the anchor |
| Service.MatcherService.ReleaseGroup | service/matcher.go:282-286 | deleting the marks of the other members and then of the anchor removes exactly the group's identifiers |
| Service.MatcherService.RecordNext | service/matcher.go:253-269 | recording one more match extends the pass's writes and their effect by that match's writes |
| Service.MatcherService.AddPlayerToQueue | service/matcher.go:186-188 | forwards to the store: the record is enqueued once in rating order and stored under its identifier |
| Service.MatcherService.RemovePlayerFromQueue | service/matcher.go:191-193 | forwards to the store: NotFound without a record, otherwise the record and its queue entries are dropped |
| Service.MatcherService.GetQueueSize | service/matcher.go:196-198 | forwards to the store: the number of queue entries of that region and mode |

## Left out

- The HTTP handler (`handler/queue.go`) and the process wiring (`main.go`: configuration from the environment, the 10-second ticker, signals and shutdown) are transport and concurrency. The ticker runs ProcessQueue over the regions EU, US and ASIA and the modes "1v1" and "3v3" (`main.go:113-118`); the model covers one such pass.
- Concurrency is left out: two FindMatch calls that race and select overlapping candidates cannot be expressed in this sequential model. The `context` arguments are left out too.
- zap logging is left out. A failed save or removal is only logged, so the model keeps only its effect on the store.
- Redis, JSON and key formatting are left out: the 30-minute record expiry, marshalling errors, and the skipping of malformed queue entries in a range read. A record whose expiry has passed is therefore never modelled as missing.
- Among entries with equal ratings the model's queue keeps insertion order; Redis orders them by their JSON text, which is not modelled.
- Partial store faults are left out: the fault flags are constants of a store, so a store in which only some range reads or some match writes fail is not modelled.
- Store.QueueStore.GetPlayerByID: the I/O and unmarshalling errors of `storage/redis.go:161-168` are not modelled; any lookup failure is "no record", which FindMatch treats like the source does, as PlayerNotFound.
- Store.QueueStore.RemovePlayerFromQueue: only the "player not found" failure is modelled; the I/O failures of the Redis calls are not.
- Store.QueueStore.AddPlayerToQueue: its I/O and marshalling failures are not modelled; it always succeeds.
- Store.QueueStore.GetQueueSize: its I/O failure is not modelled.
- Store.QueueStore.GetMatchByPlayerID and Store.QueueStore.SaveMatch are called at `service/matcher.go:66`, `:129` and `:254` but are not defined in `storage/redis.go`. Their semantics here are chosen: a save stores the match under every member's identifier, and a lookup reads that entry. A failing lookup counts as no saved match, as at `:67`.
- The clock and identifiers are parameters: `time.Since` at `service/matcher.go:86`, `time.Now()` and `UnixNano` at `:123`, `:125`, `:248` and `:250`, and `uuid.New()` in `models/player.go:22`. `NewPlayer` and `MatchRequest` in `models/player.go` have no behaviour to verify.
- Floating point: `math.Abs(float64(...))` at `service/matcher.go:181` is an integer absolute value, and `int(waitTime.Seconds())` at `:164` is whole seconds of a natural number of nanoseconds. Negative durations, and ratings too large for a float64, are not modelled.
- Integer width: ratings and the window are unbounded integers, so wrap-around of Go `int` arithmetic in `rating ± window` is not modelled. `math.MaxInt` is taken as the 64-bit value.
- The `PlayersPerMatch` configuration field is carried but unused, as in the source; the match size always comes from the mode.
- The copy of the group into `matchPlayers` at `service/matcher.go:242-245` is an identity on values and is not a separate step.
