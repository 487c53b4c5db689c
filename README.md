# Mob stacker model

A Dafny model of the stacking engine of the Endstone "MobStacker" plugin
(`src/endstone_mobstacker/mobstacker.py`) and of the small helpers of its
settings menu (`src/endstone_mobstacker/menuui.py`).

The plugin merges nearby mobs of one type into a single *leader* entity.
The leader carries the `mobstack:leader` scoreboard tag, shows its count in
its name tag, and stands for all the mobs it absorbed.

The model has these parts:

- **Values.**
  - `Ids`: id normalisation (`_normalize_id`), the alias table and the allowed-type cache.
  - `Names`: the name-tag label with its invisible signature, and the parser that reads a count back.
  - `Geometry`: grid cells, the 27 neighbour cells, block centres, the flat radius test and dimension tokens.
  - `Ledger`: the count ledger (a missing entry counts as one), clamping, the keyed pending queue and map pruning.
  - `Config`: the settings record.
- **The world.** `World` holds the `Level` class: the server's entities in iteration order, plus a script of summon outcomes the host will return.
  - An entity is a record with a runtime id, type, dimension, position, flags, tags and name.
  - Host calls (rename, tag, untag, remove, summon) are methods on `Level` that change it in place.
- **Pure searches.**
  - `Search`: eligibility (`_eligible_basic`), nearest-with-tie-break minimum searches, the newborn resolvers and the centroid leader choice.
  - `Clustering`: bucketing by cell, neighbour gathering, grouping, the follower order and the absorption plan.
- **The engine.** `Engine.Stacker` is a class with the plugin's mutable state: settings, allowed cache, counts, the pending queue, the lethal-dedup map, the two feed-pop cooldown maps and the prune tick. Its methods are the plugin's handlers and tick work, and each states the ledger and level it leaves behind:
  - spawn;
  - lethal hit and death;
  - leader death with retries;
  - feed-to-pop;
  - the periodic scan: reload, prune, drain, tamed-leader defusal, the leader-pair fast path and grouping;
  - name reindexing.
- **The config parser.** `Toml` is the line-oriented TOML subset parser, together with the quoting the fallback config writer uses.
- **Menu helpers.** `Menu` holds:
  - payload splitting and the 0/1 read-back of toggles;
  - `_clean_id`, which is `Ids.Qualified`;
  - the allowed-list edits of the remove and add forms, applied to the engine's settings.

Points of the code's behaviour the model keeps exactly:

- **Cell size.** The scan and the defusal use `radius` when it is positive and 4.0 otherwise. The fast path uses `max(radius, 0.001)`.
- **When defusal runs.** Tamed-leader defusal runs once per scan, before the candidates are collected.
- **Tamed leader handover.** A tamed leader hands over `min(count, cap)`. The recipient's own count is overwritten with it.
- **Draining the pending queue.** The drain uses an empty snapshot, so the diff search may settle on a mob that already stood in the block.

## Model

| member | source | states |
|---|---|---|
| Ids.NormalizeIdShape | src/endstone_mobstacker/mobstacker.py:161-165 | blank input gives ""; otherwise the result is lowercase and contains ':'; the pigman aliases map to `minecraft:zombified_piglin`; any other id is the qualified id |
| Ids.NormalizeIdIdempotent | src/endstone_mobstacker/mobstacker.py:161-165 | normalising twice is normalising once |
| Ids.PiglinIsNormal | src/endstone_mobstacker/mobstacker.py:52-58 | the alias target is itself a normal id |
| Ids.QualifiedShape | src/endstone_mobstacker/menuui.py:34-37 | `_clean_id`: "" exactly for blank input; otherwise trimmed and lowercased, with `minecraft:` added only when there is no ':' |
| Ids.QualifiedIdempotent | src/endstone_mobstacker/menuui.py:34-37 | cleaning an already cleaned id changes nothing |
| Ids.AllowedCacheShape | src/endstone_mobstacker/mobstacker.py:781-793 | an id is in the cache exactly when some non-blank configured entry normalises to it; cached ids are non-empty and normal |
| Names.NameTag | src/endstone_mobstacker/mobstacker.py:867-882 | the label is empty exactly below the display threshold; a shown label ends with the signature |
| Names.NameTagFallback | src/endstone_mobstacker/mobstacker.py:876-878 | a template without a `{count}` field writes the same name as the default template |
| Names.ParseCountFromNameSpec | src/endstone_mobstacker/mobstacker.py:1328-1339 | a count is read exactly when the name ends with the signature and the trimmed text before it ends in a count marker, optional blanks and a digit run; the count is the value of those digits |
| Names.NameRoundTrip | src/endstone_mobstacker/mobstacker.py:867-882 | at or above the threshold the default label is "×" + count + signature, and parsing it gives back exactly that count |
| Geometry.EffectiveCell | src/endstone_mobstacker/mobstacker.py:462-472 | the cell size used for keys is positive and is the given size whenever that is positive |
| Geometry.NeighborCells | src/endstone_mobstacker/mobstacker.py:474-481 | 27 keys, the 3×3×3 block around the cell in the same dimension |
| Geometry.NeighborCellsExact | src/endstone_mobstacker/mobstacker.py:474-481 | a key is a neighbour exactly when it differs by at most one in each axis, in the same dimension |
| Geometry.NeighborCellsCover | src/endstone_mobstacker/mobstacker.py:741-746 | when the radius is at least the 1.25 y tolerance, two mobs within the flat radius (and the y tolerance) sit in neighbouring cells, so the 27-cell gather misses no partner |
| Geometry.BlockCenter | src/endstone_mobstacker/mobstacker.py:949-954 | the centre lies in the same block, within half a block on each axis |
| Geometry.CenterOf | src/endstone_mobstacker/mobstacker.py:949-954 | every position of a block has that block's centre |
| Geometry.BlockCenterIdempotent | src/endstone_mobstacker/mobstacker.py:949-954 | the centre of a centre is itself |
| Geometry.DimToken | src/endstone_mobstacker/mobstacker.py:720-730 | the token is one of the three dimension names, and is the nether exactly when the lowercased name mentions "nether" or ends in "1" |
| Geometry.NetherToken | src/endstone_mobstacker/mobstacker.py:720-730 | the nether token maps to itself |
| Geometry.EndToken | src/endstone_mobstacker/mobstacker.py:720-730 | the end token maps to itself |
| Geometry.OverworldToken | src/endstone_mobstacker/mobstacker.py:720-730 | the overworld token maps to itself |
| Geometry.DimTokenIdempotent | src/endstone_mobstacker/mobstacker.py:720-730 | tokenising a token gives it back |
| Ledger.CountOf | src/endstone_mobstacker/mobstacker.py:840-841 | over a ledger whose entries are all positive, every entity counts for at least one |
| Ledger.CountOfRange | src/endstone_mobstacker/mobstacker.py:840-845 | with positive entries bounded by a positive cap, every count lies in [1, cap]; a popped entity counts as a single mob |
| Ledger.Clamp | src/endstone_mobstacker/mobstacker.py:847-865 | the promoted count is at least one, at most the cap, and the count itself when already in range |
| Ledger.Enqueue | src/endstone_mobstacker/mobstacker.py:327-333 | the key's pending amount grows by exactly n; every other key is unchanged; the total grows by n; an existing key keeps its place and a new key goes last |
| Ledger.Pop | src/endstone_mobstacker/mobstacker.py:494-507 | the key is gone; every other key keeps its amount; the total drops by the key's amount |
| Ledger.DrainBatch | src/endstone_mobstacker/mobstacker.py:494-496 | a drain pass handles exactly min(8, n) entries of a queue of n, taken from its front |
| Ledger.DrainBatchSplits | src/endstone_mobstacker/mobstacker.py:494-496 | the batch has min(8, queue length) entries; batch and remainder recompose the queue, each with distinct keys and no key on both sides |
| Ledger.GetMissing | src/endstone_mobstacker/mobstacker.py:327-333 | a key never queued has nothing pending |
| Ledger.EnqueueThrice | src/endstone_mobstacker/mobstacker.py:1037-1040 | three enqueues of n under one key add 3·n to that key and to the total |
| Ledger.PruneMap | src/endstone_mobstacker/mobstacker.py:1043-1063 | exactly the keys that are live survive, each with its old value |
| Ledger.RemoveAll | src/endstone_mobstacker/mobstacker.py:586-592 | dropping the absorbed ids removes exactly those keys and keeps every other entry |
| Search.EligibleNoLeader | src/endstone_mobstacker/mobstacker.py:748-759 | without leader sources no leader is eligible; anything eligible without them is eligible with them |
| Search.FirstMin | src/endstone_mobstacker/mobstacker.py:356-387 | the index found holds an accepted element of least distance (strictly below the initial bound), the first such; none exactly when no accepted element is closer than the bound |
| Search.Nearest | src/endstone_mobstacker/mobstacker.py:356-387 | the chosen actor is accepted and no accepted actor is closer; none exactly when no accepted actor is within the bound |
| Search.SnapshotSameBlockIds | src/endstone_mobstacker/mobstacker.py:956-972 | the snapshot holds exactly the ids of the valid same-type mobs in that block |
| Search.FindNewbornByDiff | src/endstone_mobstacker/mobstacker.py:974-996 | a found mob is a live, same-type mob in the block that was not in the snapshot, and no such mob is nearer the centre; none exactly when there is no such mob |
| Search.DiffFindsOnlyNew | src/endstone_mobstacker/mobstacker.py:974-996 | the diff search never returns an id from the snapshot |
| Search.DiffFindsSoleNewborn | src/endstone_mobstacker/mobstacker.py:974-996 | when a single new mob appeared in the block, the diff search returns it |
| Search.FindSameBlockOrNear | src/endstone_mobstacker/mobstacker.py:356-387 | the diff result when there is one; otherwise a live same-type mob outside the snapshot, at most one block away on each axis and within 0.9 blocks horizontally, and the nearest such mob to the centre; none only when no such mob exists |
| Search.FindRetryFallback | src/endstone_mobstacker/mobstacker.py:1009-1030 | the retry's second search: the nearest accepted mob of the type near the centre, or none |
| Search.NearestLive | src/endstone_mobstacker/mobstacker.py:916-924 | the defusal recipient is a still-live member of the index with the least flat distance; none when none is live |
| Search.ScanBudget | src/endstone_mobstacker/mobstacker.py:636-659 | scanning stops after the remaining check budget; the result is the first-minimum over the entries scanned |
| Search.KeyMin | src/endstone_mobstacker/mobstacker.py:761-773 | the minimum by (centroid distance, runtime id) over the accepted members |
| Search.ChooseCentroidLeaderAsWritten | src/endstone_mobstacker/mobstacker.py:761-773 | as written: the chosen member is never a leader; it is the under-cap eligible member nearest the centroid; none exactly when no member is eligible |
| Search.ChooseCentroidLeader | src/endstone_mobstacker/mobstacker.py:761-773 | corrected: an under-cap leader nearest the centroid whenever the group has one; otherwise the as-written choice |
| Search.CentroidLeaderDiscrepancy | src/endstone_mobstacker/mobstacker.py:766-768 | for an under-cap leader grouped with an under-cap plain mob, the as-written choice is the plain mob and the corrected choice the leader |
| Clustering.CellMembers | src/endstone_mobstacker/mobstacker.py:529-533 | a bucket holds exactly the candidates whose cell key it is |
| Clustering.BuildBuckets | src/endstone_mobstacker/mobstacker.py:529-533 | the loop builds a bucketing of the candidates: every candidate sits in the bucket of its key, and buckets hold nothing else |
| Clustering.Gather | src/endstone_mobstacker/mobstacker.py:534-538 | the gathered neighbours are exactly the members of the 27 buckets |
| Clustering.NeighborsComplete | src/endstone_mobstacker/mobstacker.py:534-538 | when the radius is at least the 1.25 y tolerance, every candidate with the same dimension token within the flat radius of a mob is among its gathered neighbours |
| Clustering.Collect | src/endstone_mobstacker/mobstacker.py:544-552 | the group gets every neighbour whose current record passes the test, and nothing else |
| Clustering.GroupFollowersSpec | src/endstone_mobstacker/mobstacker.py:544-552 | a follower is a live, unvisited, same-type, in-radius, eligible neighbour other than the seed |
| Clustering.Group | src/endstone_mobstacker/mobstacker.py:544-552 | the group starts with the seed and otherwise holds unvisited mobs other than the seed, as currently recorded |
| Clustering.GroupCurrent | src/endstone_mobstacker/mobstacker.py:544-552 | every group member is the level's current record of that id |
| Clustering.Filter | src/endstone_mobstacker/mobstacker.py:520-521 | the candidate filter keeps exactly the entities that pass, and keeps ids unique |
| Clustering.Rids | src/endstone_mobstacker/mobstacker.py:554-557 | the ids marked visited are exactly the group's ids |
| Clustering.Insert | src/endstone_mobstacker/mobstacker.py:573-578 | inserting keeps the follower order by (flat distance to the leader, id), adds exactly one element and keeps every other |
| Clustering.SortFollowers | src/endstone_mobstacker/mobstacker.py:573-578 | the followers are ordered by (flat distance to the leader, id) and form a permutation of the group without the leader |
| Clustering.EffectiveCount | src/endstone_mobstacker/mobstacker.py:585-586 | a follower counts for at least one |
| Clustering.Absorb | src/endstone_mobstacker/mobstacker.py:580-597 | the amount absorbed is non-negative and never exceeds the space; nothing is taken exactly when nothing is absorbed |
| Clustering.AbsorbSaturated | src/endstone_mobstacker/mobstacker.py:580-582 | once the space is used up, later followers change nothing (the loop's break) |
| Clustering.AbsorbTakesEligible | src/endstone_mobstacker/mobstacker.py:583-592 | only eligible followers are taken, each at most once |
| Clustering.AbsorbMaximal | src/endstone_mobstacker/mobstacker.py:580-597 | an eligible follower left behind did not fit in the space remaining at its turn |
| Clustering.AbsorbSkipsOverflow | src/endstone_mobstacker/mobstacker.py:587-588 | a follower that would overflow is skipped, and a later one that fits is still absorbed |
| Clustering.Followers | src/endstone_mobstacker/mobstacker.py:583-586 | each sorted follower is read against the ledger and level at the start of absorption |
| Clustering.AbsorbTurnPlanned | src/endstone_mobstacker/mobstacker.py:580-597 | a removal turn taken on the live state agrees with the plan computed on the starting state |
| Clustering.AbsorbNext | src/endstone_mobstacker/mobstacker.py:580-597 | one more loop turn extends the plan by that follower's turn |
| Clustering.AbsorbTakenFrom | src/endstone_mobstacker/mobstacker.py:573-592 | every taken id is one of the sorted followers |
| Clustering.GroupTakenKnown | src/endstone_mobstacker/mobstacker.py:573-592 | no taken id is the leader's, and every taken id is a known entity |
| Clustering.GroupPlanTaken | src/endstone_mobstacker/mobstacker.py:573-597 | the group plan's taken ids are distinct known followers of the group |
| Clustering.AbsorbConserves | src/endstone_mobstacker/mobstacker.py:580-597 | the amount absorbed is exactly the sum of the ledger counts of the taken followers (a missing entry counting one): no unit is lost or created |
| Clustering.GroupPlanConserves | src/endstone_mobstacker/mobstacker.py:573-597 | for a whole group, the absorbed amount equals the summed counts of the followers it takes |
| Clustering.OfType | src/endstone_mobstacker/mobstacker.py:898-905 | the per-type index keeps exactly the pooled mobs of that normalised type |
| Clustering.BuildTypeIndex | src/endstone_mobstacker/mobstacker.py:898-905 | the loop builds the nested type→cell index of the defusal pool |
| Clustering.IndexedFrom | src/endstone_mobstacker/mobstacker.py:898-905 | anything found in the index is a pooled mob of that type |
| World.Apply | src/endstone_mobstacker/mobstacker.py:867-882 | rename, tag, untag and remove change only the name, the tags or the validity respectively |
| World.Level.Change | src/endstone_mobstacker/mobstacker.py:847-865 | one host call changes exactly that entity's record, as `Apply` says |
| World.Level.Summon | src/endstone_mobstacker/mobstacker.py:732-739 | the summon consumes one scripted outcome: refused or unseen leaves the level as it is; a visible newborn of that type, dimension and position is appended with the next fresh id (`AfterSummon`); the known entities are untouched |
| Engine.LiveIds | src/endstone_mobstacker/mobstacker.py:1043-1050 | the live set is exactly the ids of valid, non-dead entities |
| Engine.FastPool | src/endstone_mobstacker/mobstacker.py:610-614 | the fast-path pool is exactly the live, eligible, under-cap leaders |
| Engine.ReindexValue | src/endstone_mobstacker/mobstacker.py:1313-1325 | the rebuilt count lies in [1, cap]; it is the count a leader's name carries when that is in range |
| Engine.Reindexed | src/endstone_mobstacker/mobstacker.py:1313-1323 | only a live leader whose name yields no positive count loses its name; tags, validity and identity are kept |
| Engine.ReindexCountsKeys | src/endstone_mobstacker/mobstacker.py:1306-1325 | the rebuilt ledger has an entry exactly for the live mobs the loop visits |
| Engine.ReindexCountsValue | src/endstone_mobstacker/mobstacker.py:1306-1325 | each entry of the rebuilt ledger is the value read from that entity's name |
| Engine.ReindexCountsBounded | src/endstone_mobstacker/mobstacker.py:1306-1325 | every rebuilt count lies between one and the cap |
| Engine.Stacker.constructor | src/endstone_mobstacker/mobstacker.py:83-96 | the stacker starts with empty ledgers and queue and with the cache built from the settings |
| Engine.Stacker.RebuildAllowedCache | src/endstone_mobstacker/mobstacker.py:781-789 | the cache is the normalised image of the configured list; every cached id is non-empty and normal |
| Engine.Stacker.WriteAllow | src/endstone_mobstacker/menuui.py:229-238 | only the allowed list of the settings changes, and the cache is rebuilt from it |
| Engine.Stacker.SetCount | src/endstone_mobstacker/mobstacker.py:843-845 | the ledger entry becomes max(1, value); nothing else changes |
| Engine.Stacker.UpdateNametag | src/endstone_mobstacker/mobstacker.py:867-882 | the entity's name becomes the label of its ledger count; every other entity is unchanged |
| Engine.Stacker.ForceAdultReplace | src/endstone_mobstacker/mobstacker.py:174-190 | an allowed baby loses its ledger entry and is removed, and one mob of its type is summoned at its block centre: the level becomes exactly that (`AfterSummon` of the patched level); any other entity leaves the ledger and level unchanged |
| Engine.Stacker.AdultizeSameBlock | src/endstone_mobstacker/mobstacker.py:192-202 | a missing or adult candidate is returned as it is; a baby is replaced, and what comes back is a fresh entity in its block |
| Engine.Stacker.MarkLeader | src/endstone_mobstacker/mobstacker.py:847-865 | the ledger holds the clamped count; the entity gains the leader tag and the matching label; nothing else changes |
| Engine.Stacker.ReplaceBaby | src/endstone_mobstacker/mobstacker.py:851-858 | an allowed baby loses its entry, is removed and a mob of its type is summoned at its block centre; what comes back is that fresh newborn in the same block (itself possibly a baby), or none; no other entity or entry that existed changes; anything else changes nothing |
| Engine.Stacker.PromoteLeader | src/endstone_mobstacker/mobstacker.py:847-865 | an adult stays and becomes the leader; a baby's replacement does; the leader's count is the clamped count and its name the matching label |
| Engine.Stacker.AttachTo | src/endstone_mobstacker/mobstacker.py:344-349 | no candidate changes nothing; otherwise the candidate (or its adult replacement) becomes the leader with the clamped count |
| Engine.Stacker.SettleNewborn | src/endstone_mobstacker/mobstacker.py:336-354 | the newborn is attached with min(remaining, cap), or lost, or the retry task is scheduled; only a scheduled retry keeps the old entry; an attach or loss touches, besides the old entry, the records and entries of one other pre-existing id at most |
| Engine.Stacker.ProcessLeaderDeath | src/endstone_mobstacker/mobstacker.py:303-354 | it is dropped exactly when the count is at most one or the type is not allowed; a failed summon queues exactly count−1 under the floored-block key and drops the old entry; an attach gives a new leader min(count−1, cap); an attach or loss touches one other pre-existing id at most; a deferral keeps the entry and describes the retry |
| Engine.Stacker.ReplaceLeader | src/endstone_mobstacker/mobstacker.py:317-354 | for an allowed leader of count two or more: the death is never dropped, and the queue, attach, loss and deferral outcomes are those of `ProcessLeaderDeath` |
| Engine.Stacker.SummonAndSettle | src/endstone_mobstacker/mobstacker.py:326-354 | a refused summon queues exactly `remaining` under the block key and drops the old entry, with the level unchanged; otherwise the newborn is settled, touching one other pre-existing id at most |
| Engine.Stacker.QueueRemainder | src/endstone_mobstacker/mobstacker.py:329-332 | the pending queue gains the remainder under the key, and the old leader's entry is dropped |
| Engine.Stacker.AttachForRetry | src/endstone_mobstacker/mobstacker.py:1002-1007 | the retry attaches the found candidate with min(remaining, cap), or defers; the dead leader's record is untouched; only the candidate's record and entry (and the old entry) can change among pre-existing ids |
| Engine.Stacker.TryAttachNewborn | src/endstone_mobstacker/mobstacker.py:998-1036 | a retry's newborn search, then its fallback search, each with attach or defer; only a deferral keeps the old entry; besides the old entry at most two pre-existing ids change |
| Engine.Stacker.AttachFound | src/endstone_mobstacker/mobstacker.py:1002-1007 | one resolution attempt on a found candidate: no candidate changes nothing and defers; otherwise only the candidate and the old entry can change among pre-existing ids |
| Engine.Stacker.AttachFallback | src/endstone_mobstacker/mobstacker.py:1009-1036 | the fallback search of a retry, then attach or defer; among pre-existing ids only the one it found and the old entry can change |
| Engine.Stacker.RetryAttachNewborn | src/endstone_mobstacker/mobstacker.py:998-1040 | the retry attaches with min(remaining, cap), or is lost, or queues exactly the remaining count under the block key; besides the old entry at most two pre-existing ids change |
| Engine.Stacker.RetryChainAsWritten | src/endstone_mobstacker/mobstacker.py:352-354 | as written: three failed retries queue 3×remaining; a late attach after an early queueing keeps the queued amount as well |
| Engine.Stacker.RetryChain | src/endstone_mobstacker/mobstacker.py:352-354 | corrected: the retries stop at the first settled outcome, so at most the remaining count is queued, once |
| Engine.Stacker.AlreadyHandledThisTick | src/endstone_mobstacker/mobstacker.py:241-243 | true exactly when the recorded tick of the id equals now |
| Engine.Stacker.NoteHandledThisTick | src/endstone_mobstacker/mobstacker.py:245-246 | the id is recorded at now and counts as handled this tick |
| Engine.Stacker.MaybeHandleLethalHit | src/endstone_mobstacker/mobstacker.py:259-269 | the death is processed exactly for a lethal hit on a leader not yet handled this tick with the option on, and the tick is recorded; otherwise nothing changes |
| Engine.Stacker.OnActorDeath | src/endstone_mobstacker/mobstacker.py:278-300 | the cooldown entries of the dead id go; a leader not yet handled this tick is processed and recorded; a handled leader changes nothing more; a non-leader loses its ledger entry |
| Engine.Stacker.LethalHitThenDeath | src/endstone_mobstacker/mobstacker.py:259-300 | a leader's death is processed at most once per tick across the hurt and death paths, and at least once when it was not yet handled |
| Engine.Stacker.FeedPopGates | src/endstone_mobstacker/mobstacker.py:401-420 | the feature, entity and held-item gates of the feed-pop |
| Engine.Stacker.HandleFeedPop | src/endstone_mobstacker/mobstacker.py:400-450 | when every gate and both cooldowns pass, the feed time is stamped; it pops exactly when the stack also stands for two or more: the ledger holds count−1, the leader's name shows it, one plain mob is summoned at its block centre (`AfterSummon`) and the breed cooldown is set to now plus its length; otherwise the ledger, cooldown and level are unchanged |
| Engine.Stacker.StampAndPop | src/endstone_mobstacker/mobstacker.py:432-446 | the feed time is stamped; the stack pops exactly when it stands for two or more, as `HandleFeedPop` says; otherwise the ledger, cooldown and level are unchanged |
| Engine.Stacker.PopOne | src/endstone_mobstacker/mobstacker.py:434-446 | a stack of two or more pops as `SplitOne` says; a single one is left unchanged |
| Engine.Stacker.RecountAndSummon | src/endstone_mobstacker/mobstacker.py:441-446 | the ledger holds the new value, the leader shows its label, and the level is that relabelled level after one plain summon |
| Engine.Stacker.Recount | src/endstone_mobstacker/mobstacker.py:441-442 | the ledger entry becomes the value and the entity's name its label; no other entity changes |
| Engine.Stacker.SummonPlain | src/endstone_mobstacker/mobstacker.py:444-446 | the level after one plain summon of the entity's type at its block centre; known entities keep their records |
| Engine.Stacker.SplitOne | src/endstone_mobstacker/mobstacker.py:438-446 | the ledger holds count−1, the leader's name shows the new label, the level is exactly the relabelled level after one plain summon at the block centre, and the breed cooldown of that leader is set |
| Engine.Stacker.PruneCooldowns | src/endstone_mobstacker/mobstacker.py:1043-1063 | every key of the four maps belongs to a live entity afterwards; live entries keep their values |
| Engine.Stacker.PruneTick | src/endstone_mobstacker/mobstacker.py:488-491 | the tick advances; every tenth tick the maps are pruned, otherwise they are unchanged |
| Engine.Stacker.DrainOne | src/endstone_mobstacker/mobstacker.py:494-507 | when a newborn is found after the summon the key is popped, a promoted newborn holds min(n, cap), and outside one id every record and ledger entry is unchanged; otherwise the queue and ledger are unchanged and the level is exactly the level after the summon at the block centre; with no summon outcome left nothing is found |
| Engine.Stacker.PromoteDrained | src/endstone_mobstacker/mobstacker.py:500-506 | after an accepted summon: a resolved mob is promoted with min(n, cap), the key is popped and only that one id changes; with no mob resolved nothing changes |
| Engine.Stacker.DrainPending | src/endstone_mobstacker/mobstacker.py:494-507 | entries that remain keep their amounts, and nothing beyond the first eight is touched |
| Engine.Stacker.AbsorbOne | src/endstone_mobstacker/mobstacker.py:583-597 | one turn of the absorb loop is the planned turn on the starting state |
| Engine.Stacker.AbsorbAt | src/endstone_mobstacker/mobstacker.py:580-597 | after follower i the state reflects the plan over the first i+1 followers |
| Engine.Stacker.AbsorbInto | src/endstone_mobstacker/mobstacker.py:580-597 | the loop takes exactly the planned followers: their entries are gone and they are removed |
| Engine.Stacker.AbsorbGroup | src/endstone_mobstacker/mobstacker.py:573-597 | the level and ledger lose exactly the planned followers, whose summed counts are the amount absorbed; the leader is untouched and the absorbed amount fits its space |
| Engine.Stacker.AbsorbAndPromote | src/endstone_mobstacker/mobstacker.py:573-603 | nothing absorbed changes nothing; otherwise the leader ends at leader_count + absorbed ≤ cap, absorbed being exactly the summed counts of the removed followers, and each absorbed follower is removed with no ledger entry; every id other than the leader and the taken followers keeps its record and ledger entry |
| Engine.Stacker.PromoteAbsorber | src/endstone_mobstacker/mobstacker.py:599-601 | the absorbing leader is promoted with the new total, the removed followers stay removed, and every other id keeps its record and ledger entry |
| Engine.Stacker.StackGroup | src/endstone_mobstacker/mobstacker.py:543-603 | a group below `min_group` changes nothing and marks its members visited; visited only grows |
| Engine.Stacker.StackChosen | src/endstone_mobstacker/mobstacker.py:572-603 | with no centroid leader, or one at the cap, nothing changes and the whole group is marked seen; when the leader has room and absorbs something, its count grows by exactly the planned absorption, the taken followers and the leader are marked seen, and no other id changes; when it absorbs nobody nothing changes and the whole group is marked seen; seen only grows |
| Engine.Stacker.GroupAll | src/endstone_mobstacker/mobstacker.py:540-603 | the group loop over all candidates keeps the stacker valid and only evolves known entities |
| Engine.Stacker.StripLeader | src/endstone_mobstacker/mobstacker.py:929-941 | the tamed leader is defused: no ledger, feed or breed entry, no leader tag, an empty name; other entities are unchanged |
| Engine.Stacker.StripTags | src/endstone_mobstacker/mobstacker.py:933-941 | only the leader tag and the name of that entity change |
| Engine.Stacker.HandOver | src/endstone_mobstacker/mobstacker.py:916-927 | the nearest live candidate, if any, becomes a leader with min(count, cap); with no candidate nothing changes |
| Engine.Stacker.DefuseOne | src/endstone_mobstacker/mobstacker.py:907-941 | the tamed leader ends defused; the nearest candidate gets min(count, cap); only the leader and that candidate change, and the feed and breed maps lose only the leader's entries |
| Engine.Stacker.DefuseListed | src/endstone_mobstacker/mobstacker.py:907-941 | every listed tamed leader ends defused; only listed tamed leaders and pooled candidates change; the feed and breed maps lose exactly the listed tamed leaders |
| Engine.Stacker.DefuseAt | src/endstone_mobstacker/mobstacker.py:907-941 | the loop invariant: tamed leaders already visited are defused, later ones are untouched, only listed tamed leaders and pooled candidates have changed, and the feed and breed maps have lost exactly the visited tamed leaders |
| Engine.Stacker.DefuseTurn | src/endstone_mobstacker/mobstacker.py:907-941 | one turn: an entry that is not a tamed leader changes nothing; a tamed leader is defused, touching only itself and a pooled candidate |
| Engine.Stacker.DefuseListedLeader | src/endstone_mobstacker/mobstacker.py:913-941 | a listed tamed leader is defused; only it and a pooled candidate change, and it loses its feed and breed entries |
| Engine.Stacker.DefuseTamedLeaders | src/endstone_mobstacker/mobstacker.py:885-945 | with `ignore_tamed` off nothing changes; otherwise every live tamed leader ends defused, every id that is neither a live tamed leader nor an untamed eligible under-cap mob keeps its record and ledger entry, and the feed and breed maps lose exactly the live tamed leaders' entries |
| Engine.Stacker.DefuseLive | src/endstone_mobstacker/mobstacker.py:898-941 | once the live mobs are listed: every live tamed leader ends defused, only live tamed leaders and untamed eligible under-cap mobs change, and the feed and breed maps lose exactly the live tamed leaders' entries |
| Engine.Stacker.MergePair | src/endstone_mobstacker/mobstacker.py:665-675 | the as-written centroid choice keeps one of the pair, the first when both are leaders (the source's `or a`); the other is removed with its entry, and the kept one holds the sum |
| Engine.Stacker.MergeInto | src/endstone_mobstacker/mobstacker.py:669-674 | the source loses its entry and is removed; the leader is promoted with the sum |
| Engine.Stacker.PromoteMerged | src/endstone_mobstacker/mobstacker.py:672 | the merged leader holds the total; nothing else changes |
| Engine.Stacker.KillSource | src/endstone_mobstacker/mobstacker.py:670-671 | the source's entry is gone and it is marked removed; nothing else changes |
| Engine.Stacker.PairwiseMergeFastpath | src/endstone_mobstacker/mobstacker.py:606-682 | at most 3000 checks; no merge changes nothing; nothing outside the pool of under-cap leaders is touched |
| Engine.Stacker.FastPairs | src/endstone_mobstacker/mobstacker.py:623-680 | the loop over the pool keeps the bound of 3000 checks, changes nothing when no pair merges and touches nothing outside the pool |
| Engine.Stacker.FastPairTurn | src/endstone_mobstacker/mobstacker.py:625-680 | one turn of the outer loop keeps the check budget and the pool frame; when it merges, the turn's leader `a` absorbs one unused pool partner: both are marked used, the partner is removed with its entry and `a` holds the sum |
| Engine.Stacker.FastMerge | src/endstone_mobstacker/mobstacker.py:665-675 | both merged ids are marked used; for two leaders, `a` is kept with the summed count and `b` is removed with its entry |
| Engine.Stacker.FastPartner | src/endstone_mobstacker/mobstacker.py:636-662 | the partner is the nearest acceptable leader among the neighbours scanned within the remaining budget: same type, unused, under cap, with a sum that fits and within radius |
| Engine.Stacker.ReindexFromNames | src/endstone_mobstacker/mobstacker.py:1306-1325 | the ledger is replaced by the one rebuilt from the names, and each entity becomes its reindexed record (unreadable leader names cleared) |
| Engine.Stacker.ClearNameAt | src/endstone_mobstacker/mobstacker.py:1317-1323 | only that entity's name is cleared |
| Engine.Stacker.Reload | src/endstone_mobstacker/mobstacker.py:484-486 | the new settings are installed, the cache is rebuilt and the ledger is reindexed from names |
| Engine.Stacker.StackCandidates | src/endstone_mobstacker/mobstacker.py:520-527 | with no eligible candidate nothing changes |
| Engine.Stacker.ScanAndStack | src/endstone_mobstacker/mobstacker.py:483-603 | settings are replaced exactly when reloaded, with the cache rebuilt; the prune tick advances; the pending queue only loses entries, never gains or changes one |
| Engine.Stacker.OnActorSpawn | src/endstone_mobstacker/mobstacker.py:206-231 | an allowed baby loses its entry and the level is exactly its removal followed by one summon at its block centre; otherwise the spawn is settled (count read from a leader's name, capped; an eligible stack of two or more promoted, touching no other id); a spawned tamed leader ends defused |
| Engine.Stacker.SettleSpawnedLeader | src/endstone_mobstacker/mobstacker.py:217-223 | a leader with the default entry takes the count in its name, capped, and shows it; nothing else changes |
| Engine.Stacker.SettleSpawnedMob | src/endstone_mobstacker/mobstacker.py:216-228 | a non-leader gets a default entry, and is promoted with min(count, cap) and named with the label of that count when it stands for two or more and is eligible, with every other id keeping its record and ledger entry; otherwise the level is unchanged |
| Toml.ReadArray | src/endstone_mobstacker/mobstacker.py:1279-1289 | the loop reads exactly the quoted items of the array text, in order |
| Toml.ParseTomlSimple | src/endstone_mobstacker/mobstacker.py:1261-1303 | the loop yields the `stacking` table that folding the lines gives |
| Toml.ReadOneLine | src/endstone_mobstacker/mobstacker.py:1266-1303 | one pass of the line loop moves the reader exactly as reading that line does: blank and comment lines change nothing, a header sets the section, an assignment sets its key only under `[stacking]` |
| Toml.QuotedRoundTrip | src/endstone_mobstacker/mobstacker.py:1291-1293 | a value in double or single quotes reads back as that string |
| Toml.BoolCaseInsensitive | src/endstone_mobstacker/mobstacker.py:1294-1297 | true and false are read in any letter case |
| Toml.ArrayRoundTrip | src/endstone_mobstacker/mobstacker.py:1234 | the writer's `allowed_types = [...]` value reads back as the same list when no item contains a comma |
| Toml.QuotedListItems | src/endstone_mobstacker/mobstacker.py:1234 | splitting the written list on commas gives back each quoted item |
| Toml.NoStackingHeaderEmpty | src/endstone_mobstacker/mobstacker.py:1266-1276 | a text without a `[stacking]` header gives an empty table |
| Toml.KeysFromAssignments | src/endstone_mobstacker/mobstacker.py:1274-1276 | every key of the table comes from an assignment line inside the `stacking` section |
| Toml.LastAssignmentWins | src/endstone_mobstacker/mobstacker.py:1274-1300 | a later assignment of a key in the section replaces the earlier one |
| Menu.SplitModalPayload | src/endstone_mobstacker/menuui.py:8-22 | the result has exactly the requested length (negative lengths cut from the end, as the slice does); it starts with the payload's values in order and is padded with None |
| Menu.BadPayloadAllNone | src/endstone_mobstacker/menuui.py:10-17 | a payload that is neither a list nor JSON text for a list gives only None |
| Menu.ZeroOne | src/endstone_mobstacker/menuui.py:24-29 | the result is 0 or 1; a parsed value gives 1 exactly when it is at least one; a parse failure gives 1 exactly when the default is non-zero |
| Menu.EnabledReadBack | src/endstone_mobstacker/menuui.py:24-32 | the `enabled` toggle read back with `_zero_one` and stored with `_as_bool01`: a parsed value enables exactly when it is at least one, a parse failure keeps the current setting, and 1 and 0 read back as on and off |
| Menu.RemoveAll | src/endstone_mobstacker/menuui.py:193 | no entry equals the removed type; an entry remains exactly when it was listed and differs from it |
| Menu.RemoveAllAppend | src/endstone_mobstacker/menuui.py:193 | removal works entry by entry, so the remaining entries keep their relative order |
| Menu.RemoveAllAbsent | src/endstone_mobstacker/menuui.py:193 | removing an unlisted type leaves the list as it is |
| Menu.RemoveAllNoDuplicates | src/endstone_mobstacker/menuui.py:193 | removal introduces no duplicate |
| Menu.AppendIfAbsent | src/endstone_mobstacker/menuui.py:213-220 | the id ends in the list, the old list is a prefix, one entry is added exactly when the id was absent, and no duplicate is introduced |
| Menu.ConfirmRemove | src/endstone_mobstacker/menuui.py:182-197 | it removes exactly when the type was listed; the stored list is the list without it, and the cache is rebuilt only then |
| Menu.SubmitAddType | src/endstone_mobstacker/menuui.py:204-223 | an empty cleaned id is rejected and an already listed one leaves everything alone; otherwise the id is appended, the cache is rebuilt, and the id is allowed afterwards |
| Menu.EnteredIdAllowed | src/endstone_mobstacker/menuui.py:213-220 | a cleaned, non-empty id placed in the list is allowed by the cache built from it |

## Left out

- File I/O is not modelled: the config path, the example file, saving, loading and mtime polling. `Reload` takes the new settings as a parameter, and `WriteAllow` does not save.
- The TOML numeric branch (`int`/`float` of the text) is not modelled. `Toml.ParseValue` keeps such a value as its trimmed text.
- The `tomllib`/`tomli_w` path of the config writer is not modelled, only its fallback writer.
- The numeric text parsing of the menu is not modelled: `json.loads` in `_split_modal_payload` and `int(float(v))` in `_zero_one`. Their results are inputs, as a decoded list or None, and a parsed number or None.
- Command dispatch, `_run_cmd`, the silent sender and the command text of `_safe_summon` are not modelled. A summon's outcome comes from the level's script of outcomes.
- The host probes `_is_baby`, `_is_tamed`, `_is_lethal_hit`, `_now_ticks` and the held-item lookup are not modelled. They are fields of the entity record or parameters.
- The scheduler is not modelled. The three delayed retries of a leader death are explicit later calls, and the delayed scan is a plain call of `ScanAndStack`.
- The plugin lifecycle, commands, the menu forms and `_present` are not modelled. Only the helpers and the list edits of the menu are.
- Logging, quiet mode and name-tag visibility flags are not modelled. They do not affect stacking.
- Exceptions the source swallows become guards. A missing or invalid entity makes the host call a no-op.
- Engine.Stacker.Reload: the model assumes a stack cap of at least one, and so do `Engine.Stacker.constructor` and `Engine.Stacker.ScanAndStack` through `Valid`. The source never checks the cap: the settings menu stores the typed value as it is (menuui.py:129-143). With a cap below one, the spawn path (mobstacker.py:223) and the reindex (mobstacker.py:1317) store `min(parsed, cap)`, a ledger entry of zero or less, which the model's positive ledger does not allow.
- Engine.Stacker.constructor: requires a cap of at least one, for the reason given for `Reload`.
- Engine.Stacker.ScanAndStack: requires a reloaded cap of at least one, for the reason given for `Reload`.
- Engine.Stacker.ScanAndStack: the whole scan is not related to a single reference function. Its contract gives the settings, cache, tick and pending facts, and the grouping and merging are stated by `StackGroup`, `AbsorbAndPromote` and `PairwiseMergeFastpath`.
- Engine.Stacker.GroupAll: only states that the stacker stays valid and that the level only evolves. The per-group facts are in `StackGroup` and `AbsorbAndPromote`.
- Engine.Stacker.StackGroup: does not state the promoted total. That is in `AbsorbAndPromote`, which it calls.
- Engine.Stacker.DrainPending: does not state which newborn each drained entry attached to. Each step is stated by `DrainOne`.
- Engine.Stacker.DrainOne: states that at most one id changes when a mob is found, not which mob the newborn search chose.
- Engine.Stacker.PairwiseMergeFastpath: does not state that merging stops early once the check budget is spent. It does state the bound of 3000 checks.
- Engine.Stacker.OnActorSpawn: with `ignore_tamed` on, states only that a spawned tamed leader ends defused, not the settle facts, because the defusal may hand its count to another mob.
- Text.Lower: lowercasing is ASCII only, digits are ASCII `0`-`9`, and the count is the decimal value of those digits. Python's `str.lower`, `\d` and `int()` also accept other Unicode letters and digits.
- Names.NameTag: a label template is used only for its `{count}` field. A template with another `{field}` makes `str.format` raise a KeyError, which `_update_nametag` does not catch. The `{{`/`}}` escapes are not modelled either.
- Geometry.NeighborCellsCover: for a radius below the 1.25 y tolerance, the 27-cell gather may miss a partner that the y test accepts. The completeness lemmas therefore assume the radius is at least 1.25.
- Dimensions are keyed by their token (`_dim_token`) in cell keys, pending keys and comparisons.
- Engine.Stacker.StackChosen: uses the corrected `Search.ChooseCentroidLeader` (see Findings). An existing under-cap leader in the group is kept as the leader, where the code as written absorbs it into a plain mob. The discrepancy is stated by `Search.CentroidLeaderDiscrepancy`.
- Engine.Stacker.StackGroup: chooses the leader through `StackChosen`, so the same corrected choice applies.
- Engine.Stacker.FastPairs: does not state which pairs merge. Each merge is stated by `FastPairTurn` and `FastMerge`.
- Geometry positions are exact reals, so floating-point rounding is not modelled.
- `_safe_summon`'s retry across offsets is collapsed into one scripted outcome.

## Findings

| source | as written | input that shows it | evidently intended | confidence | as-written member | corrected member |
|---|---|---|---|---|---|---|
| src/endstone_mobstacker/mobstacker.py:352-354, 1037-1040 | three retries are scheduled at once, with the same remaining count; each one that finds nothing queues the full remaining count | a leader of count 5 dies and no newborn is ever found: pending gains 12, not 4; or the first retry queues 4 and the second attaches a newborn with 4, so 8 units appear | the remaining count is carried at most once: the retries stop at the first attach, and only a final failure queues it | not executed | Engine.Stacker.RetryChainAsWritten (with Ledger.EnqueueThrice) | Engine.Stacker.RetryChain |
| src/endstone_mobstacker/mobstacker.py:761-773 | the under-cap leader list calls `_eligible_basic` without `allow_leader_sources`, which rejects every leader, so that branch (766-768) is dead | an under-cap leader grouped with an under-cap plain mob: the plain mob is chosen and the existing leader is absorbed into it | an existing under-cap leader nearest the centroid is kept as the leader | not executed | Search.ChooseCentroidLeaderAsWritten (with Search.CentroidLeaderDiscrepancy) | Search.ChooseCentroidLeader |
