/** The stacking engine: the plugin object with its ledgers (`_counts`,
    `_pending`, `_death_handled_at`, `_last_feed_pop`,
    `_breed_cooldown_until`), the settings it reads and the level it acts on.
    Every method names exactly the fields it writes. */
module Engine {
  import opened Wrappers
  import opened Text
  import opened Ids
  import opened Names
  import opened Geometry
  import opened World
  import opened Ledger
  import opened Config
  import opened Search
  import opened Clustering

  /** MAX_FASTPAIR_CHECKS */
  const MaxFastPairChecks: int := 3000

  /** The tick `_already_handled_this_tick` assumes for an id never handled. */
  const NeverHandled: int := -999999

  /** BREED_ITEMS: the items that pop a stack of each breedable type. */
  function BreedItems(etype: string): set<string> {
    if etype == "minecraft:cow" || etype == "minecraft:sheep" then {"minecraft:wheat"}
    else if etype == "minecraft:pig" then {"minecraft:wheat", "minecraft:carrot", "minecraft:potato", "minecraft:beetroot"}
    else if etype == "minecraft:chicken" then
      {"minecraft:wheat_seeds", "minecraft:beetroot_seeds", "minecraft:pumpkin_seeds", "minecraft:melon_seeds"}
    else {}
  }

  /** What a scheduled `_retry_attach_newborn` call captures. */
  datatype RetryTask = RetryTask(oldRid: int, etype: string, dim: string, center: Pos, pre: set<int>,
                                 remaining: int, cap: int, s: Settings)

  /** How a leader death was settled: the ledger entry was just dropped, the
      remaining count was queued, attached to a new leader, or left to the
      scheduled retries. */
  datatype DeathOutcome =
    | Dropped
    | Queued(key: PendingKey, n: int)
    | Attached(leader: int)
    | Lost
    | Deferred(task: RetryTask)

  /** The result of handing a count to a resolved candidate: there was no
      usable candidate, it was promoted, or it was a baby whose adult
      replacement could not be found, so the promotion did nothing. */
  datatype Attach = NoCandidate | Promoted(leader: int) | PromotionFailed

  /** The `_pending` key for a stack at this position:
      (dimension token, floored block, normalised type). */
  function PendingKeyAt(etype: string, dim: string, p: Pos): PendingKey {
    PendingKey(dim, BlockOf(p), etype)
  }

  /** `dict.get(k, d)` */
  function GetOr(m: map<int, int>, k: int, d: int): int {
    if k in m then m[k] else d
  }

  /** A scheduled retry can never resolve the dying leader itself: either
      its record is no longer a live mob, or it is a leader that the
      snapshot taken before the summon already holds. */
  predicate OldLeaderSafe(actors: seq<Actor>, t: RetryTask) {
    match Find(actors, t.oldRid)
    case None => true
    case Some(a) => !LiveMob(a) || (t.oldRid in t.pre && IsLeader(a))
  }

  /** The ids of the entities that are valid and not dead. */
  function LiveIds(actors: seq<Actor>): (live: set<int>)
    ensures forall x :: x in live <==> exists i :: 0 <= i < |actors| && actors[i].rid == x && actors[i].valid && !actors[i].dead
  {
    set i | 0 <= i < |actors| && actors[i].valid && !actors[i].dead :: actors[i].rid
  }

  /** A live tamed mob carrying the leader tag. */
  predicate TamedLeader(actors: seq<Actor>, rid: int) {
    Find(actors, rid).Some? && LiveMob(Find(actors, rid).value) && IsLeader(Find(actors, rid).value)
    && Find(actors, rid).value.tamed
  }

  /** A possible recipient of a tamed leader's count: a live, untamed mob
      that may stack and is under the cap. */
  ghost predicate HandoverCandidate(actors: seq<Actor>, cache: set<string>, s: Settings, counts: map<int, int>, x: int) {
    Find(actors, x).Some? && LiveMob(Find(actors, x).value) && !Find(actors, x).value.tamed
    && EligibleBasic(Find(actors, x).value, cache, s, counts, true, false)
  }

  /** Map `m1` is `m0` without the entries of the live tamed leaders of
      `actors`. */
  ghost predicate LostTamedLeaders(m0: map<int, int>, m1: map<int, int>, actors: seq<Actor>) {
    forall x :: (x in m1 <==> x in m0 && !TamedLeader(actors, x)) && (x in m1 ==> m1[x] == m0[x])
  }

  /** The pool of untamed eligible listed mobs holds handover candidates. */
  lemma PooledCandidates(a0: seq<Actor>, acts: seq<Actor>, pool: seq<Actor>, cache: set<string>, s: Settings, c: map<int, int>)
    requires forall j :: 0 <= j < |acts| ==> Find(a0, acts[j].rid) == Some(acts[j]) && LiveMob(acts[j])
    requires forall m :: m in pool ==> m in acts && !m.tamed && EligibleBasic(m, cache, s, c, true, false)
    ensures forall m :: m in pool ==> Find(a0, m.rid) == Some(m) && !m.baby && HandoverCandidate(a0, cache, s, c, m.rid)
  {
    forall m | m in pool ensures Find(a0, m.rid) == Some(m) && !m.baby && HandoverCandidate(a0, cache, s, c, m.rid) {
      var j :| 0 <= j < |acts| && acts[j] == m;
    }
  }

  /** When every listed tamed leader is defused, so is every live tamed
      leader of the level the list was taken from. */
  lemma AllTamedDefused(a0: seq<Actor>, acts: seq<Actor>, a1: seq<Actor>, c1: map<int, int>, f1: map<int, int>, b1: map<int, int>)
    requires forall x :: TamedLeader(a0, x) ==>
               exists j :: 0 <= j < |acts| && acts[j].rid == x && acts[j].tamed && IsLeader(acts[j])
    requires forall j :: 0 <= j < |acts| && acts[j].tamed && IsLeader(acts[j]) ==> DefusedIn(a1, c1, f1, b1, acts[j].rid)
    ensures forall x :: TamedLeader(a0, x) ==> DefusedIn(a1, c1, f1, b1, x)
  {
    forall x | TamedLeader(a0, x) ensures DefusedIn(a1, c1, f1, b1, x) {
      var j :| 0 <= j < |acts| && acts[j].rid == x && acts[j].tamed && IsLeader(acts[j]);
    }
  }

  /** The frame of the whole defusal: the ids the loop may touch are the
      listed tamed leaders, which are exactly the level's live tamed
      leaders, and the pooled candidates. */
  lemma DefusalFrame(a0: seq<Actor>, c0: map<int, int>, f0: map<int, int>, b0: map<int, int>, nb: int,
                     acts: seq<Actor>, pool: seq<Actor>, cache: set<string>, s: Settings,
                     a1: seq<Actor>, c1: map<int, int>, f1: map<int, int>, b1: map<int, int>)
    requires forall j :: 0 <= j < |acts| ==> Find(a0, acts[j].rid) == Some(acts[j]) && LiveMob(acts[j])
    requires forall x :: TamedLeader(a0, x) ==>
               exists j :: 0 <= j < |acts| && acts[j].rid == x && acts[j].tamed && IsLeader(acts[j])
    requires forall m :: m in pool ==> HandoverCandidate(a0, cache, s, c0, m.rid)
    requires TouchedAtMost(a0, c0, a1, c1, nb, TamedLeadersBefore(acts, |acts|) + Rids(pool))
    requires f1 == f0 - TamedLeadersBefore(acts, |acts|) && b1 == b0 - TamedLeadersBefore(acts, |acts|)
    ensures forall x :: x < nb && !TamedLeader(a0, x) && !HandoverCandidate(a0, cache, s, c0, x) ==>
              Find(a1, x) == Find(a0, x) && (x in c1 <==> x in c0) && (x in c1 ==> c1[x] == c0[x])
    ensures LostTamedLeaders(f0, f1, a0) && LostTamedLeaders(b0, b1, a0)
  {
    var tl := TamedLeadersBefore(acts, |acts|);
    forall x ensures x in tl <==> TamedLeader(a0, x) {
      if x in tl {
        var j :| 0 <= j < |acts| && acts[j].tamed && IsLeader(acts[j]) && acts[j].rid == x;
      }
    }
    forall x | x in Rids(pool) ensures HandoverCandidate(a0, cache, s, c0, x) {
      var m :| m in pool && m.rid == x;
    }
  }

  /** A defused tamed entity: known to the level, no leader tag, no name,
      and no ledger, feed or breed entry. */
  predicate DefusedIn(actors: seq<Actor>, counts: map<int, int>, lastFeed: map<int, int>, breed: map<int, int>, rid: int) {
    Find(actors, rid).Some? && !IsLeader(Find(actors, rid).value) && Find(actors, rid).value.name == ""
    && rid !in counts && rid !in lastFeed && rid !in breed
  }

  /** Every tamed entity below `nb` other than `rid` keeps its record and
      its presence in the ledger. */
  ghost predicate TamedKept(before: seq<Actor>, c0: map<int, int>, after: seq<Actor>, c1: map<int, int>, nb: int, rid: int) {
    forall x :: x < nb && x != rid && Find(before, x).Some? && Find(before, x).value.tamed ==>
      Find(after, x) == Find(before, x) && (x in c1 <==> x in c0)
  }

  lemma TamedKeptTrans(a0: seq<Actor>, c0: map<int, int>, a1: seq<Actor>, c1: map<int, int>,
                       a2: seq<Actor>, c2: map<int, int>, nb: int, rid: int)
    requires TamedKept(a0, c0, a1, c1, nb, rid) && TamedKept(a1, c1, a2, c2, nb, rid)
    ensures TamedKept(a0, c0, a2, c2, nb, rid)
  {
  }

  /** The ids of the tamed leaders listed before `i`. */
  ghost function TamedLeadersBefore(acts: seq<Actor>, i: int): set<int> {
    set j | 0 <= j < i && j < |acts| && acts[j].tamed && IsLeader(acts[j]) :: acts[j].rid
  }

  /** The id of entry `i` when it is a tamed leader. */
  function TamedLeaderAt(acts: seq<Actor>, i: int): set<int>
    requires 0 <= i < |acts|
  {
    if acts[i].tamed && IsLeader(acts[i]) then {acts[i].rid} else {}
  }

  /** Listing one more entry adds its id when it is a tamed leader, and a
      map that lost the earlier ids loses this one too. */
  lemma TamedLeadersStep(acts: seq<Actor>, i: int, m: map<int, int>)
    requires 0 <= i < |acts|
    ensures TamedLeadersBefore(acts, i + 1) == TamedLeadersBefore(acts, i) + TamedLeaderAt(acts, i)
    ensures (m - TamedLeadersBefore(acts, i)) - TamedLeaderAt(acts, i) == m - TamedLeadersBefore(acts, i + 1)
  {
  }

  /** The frame of the defusal loop after `i` turns, from ledger `c0`,
      feed map `f0` and breed map `b0` on level `a0`. */
  ghost predicate DefuseFrameIn(a0: seq<Actor>, c0: map<int, int>, f0: map<int, int>, b0: map<int, int>, nb: int,
                                ids: set<int>, acts: seq<Actor>, i: int,
                                a1: seq<Actor>, c1: map<int, int>, f1: map<int, int>, b1: map<int, int>) {
    TouchedAtMost(a0, c0, a1, c1, nb, ids)
    && f1 == f0 - TamedLeadersBefore(acts, i) && b1 == b0 - TamedLeadersBefore(acts, i)
  }

  /** A turn that touches only ids of `ids` and drops the entry's own feed
      and breed entries extends the loop frame by one entry. */
  lemma DefuseFrameStep(a0: seq<Actor>, c0: map<int, int>, f0: map<int, int>, b0: map<int, int>, nb: int,
                        ids: set<int>, acts: seq<Actor>, i: int,
                        a1: seq<Actor>, c1: map<int, int>, f1: map<int, int>, b1: map<int, int>,
                        a2: seq<Actor>, c2: map<int, int>, f2: map<int, int>, b2: map<int, int>, step: set<int>)
    requires 0 <= i < |acts| && DefuseFrameIn(a0, c0, f0, b0, nb, ids, acts, i, a1, c1, f1, b1)
    requires TouchedAtMost(a1, c1, a2, c2, nb, step) && step <= ids
    requires f2 == f1 - TamedLeaderAt(acts, i) && b2 == b1 - TamedLeaderAt(acts, i)
    ensures DefuseFrameIn(a0, c0, f0, b0, nb, ids, acts, i + 1, a2, c2, f2, b2)
  {
    TouchedAtMostWithin(a0, c0, a1, c1, a2, c2, nb, ids, step);
    TamedLeadersStep(acts, i, f0);
    TamedLeadersStep(acts, i, b0);
  }

  /** A step that touches only ids of `ids` keeps a frame over `ids`. */
  lemma TouchedAtMostWithin(a0: seq<Actor>, c0: map<int, int>, a1: seq<Actor>, c1: map<int, int>,
                            a2: seq<Actor>, c2: map<int, int>, nb: int, ids: set<int>, step: set<int>)
    requires TouchedAtMost(a0, c0, a1, c1, nb, ids) && TouchedAtMost(a1, c1, a2, c2, nb, step) && step <= ids
    ensures TouchedAtMost(a0, c0, a2, c2, nb, ids)
  {
  }

  /** A handover that touched only `r`, followed by the strip of `rid`:
      every other tamed entity is kept, only `rid` and `r` are touched, and
      `r` keeps what the handover gave it. */
  lemma HandOverThenStrip(a0: seq<Actor>, c0: map<int, int>, a1: seq<Actor>, c1: map<int, int>,
                          a2: seq<Actor>, c2: map<int, int>, nb: int, rid: int, r: int)
    requires TamedKept(a0, c0, a1, c1, nb, rid) && TouchedAtMost(a0, c0, a1, c1, nb, {r})
    requires (forall x :: x != rid ==> Find(a2, x) == Find(a1, x)) && c2 == c1 - {rid}
    ensures TamedKept(a0, c0, a2, c2, nb, rid) && TouchedAtMost(a0, c0, a2, c2, nb, {rid, r})
    ensures r != rid ==> Find(a2, r) == Find(a1, r) && CountOf(c2, r) == CountOf(c1, r)
  {
    TamedKeptStrip(a1, c1, a2, c2, nb, rid);
  }

  /** Stripping `rid` alone keeps every other tamed record and count. */
  lemma TamedKeptStrip(a1: seq<Actor>, c1: map<int, int>, a2: seq<Actor>, c2: map<int, int>, nb: int, rid: int)
    requires forall x :: x != rid ==> Find(a2, x) == Find(a1, x)
    requires c2 == c1 - {rid}
    ensures TamedKept(a1, c1, a2, c2, nb, rid)
  {
  }

  /** The tamed entities listed from `i` on still have their listed record. */
  ghost predicate TamedUntouchedIn(actors: seq<Actor>, acts: seq<Actor>, i: int) {
    forall j :: 0 <= i <= j < |acts| && acts[j].tamed ==> Find(actors, acts[j].rid) == Some(acts[j])
  }

  /** The tamed leaders listed before `i` are defused and still tamed. */
  ghost predicate DefusedBeforeIn(actors: seq<Actor>, counts: map<int, int>, lastFeed: map<int, int>,
                                  breed: map<int, int>, acts: seq<Actor>, i: int) {
    forall j :: 0 <= j < |acts| && j < i && acts[j].tamed && IsLeader(acts[j]) ==>
      DefusedIn(actors, counts, lastFeed, breed, acts[j].rid) && Find(actors, acts[j].rid).value.tamed
  }

  /** One defusal step of `_defuse_tamed_leaders` keeps both loop facts:
      the tamed leader `acts[i]` is now defused, the earlier ones stay
      defused, and the later tamed ones are untouched. */
  lemma DefuseStep(acts: seq<Actor>, i: int, before: seq<Actor>, c0: map<int, int>, f0: map<int, int>,
                   b0: map<int, int>, after: seq<Actor>, c1: map<int, int>, f1: map<int, int>,
                   b1: map<int, int>, nb: int)
    requires UniqueRids(acts) && 0 <= i < |acts| && acts[i].tamed
    requires forall j :: 0 <= j < |acts| ==> acts[j].rid < nb
    requires TamedUntouchedIn(before, acts, i) && DefusedBeforeIn(before, c0, f0, b0, acts, i)
    requires DefusedIn(after, c1, f1, b1, acts[i].rid) && Find(after, acts[i].rid).value.tamed
    requires TamedKept(before, c0, after, c1, nb, acts[i].rid)
    requires f1.Keys <= f0.Keys && b1.Keys <= b0.Keys
    ensures TamedUntouchedIn(after, acts, i + 1) && DefusedBeforeIn(after, c1, f1, b1, acts, i + 1)
  {
    DefuseStepEarlier(acts, i, before, c0, f0, b0, after, c1, f1, b1, nb);
    DefuseStepLater(acts, i, before, after, c0, c1, nb);
  }

  /** The earlier tamed leaders stay defused across a defusal step. */
  lemma DefuseStepEarlier(acts: seq<Actor>, i: int, before: seq<Actor>, c0: map<int, int>, f0: map<int, int>,
                          b0: map<int, int>, after: seq<Actor>, c1: map<int, int>, f1: map<int, int>,
                          b1: map<int, int>, nb: int)
    requires UniqueRids(acts) && 0 <= i < |acts| && acts[i].tamed
    requires forall j :: 0 <= j < |acts| ==> acts[j].rid < nb
    requires DefusedBeforeIn(before, c0, f0, b0, acts, i)
    requires DefusedIn(after, c1, f1, b1, acts[i].rid) && Find(after, acts[i].rid).value.tamed
    requires TamedKept(before, c0, after, c1, nb, acts[i].rid)
    requires f1.Keys <= f0.Keys && b1.Keys <= b0.Keys
    ensures DefusedBeforeIn(after, c1, f1, b1, acts, i + 1)
  {
    forall j | 0 <= j < i && acts[j].tamed && IsLeader(acts[j])
      ensures DefusedIn(after, c1, f1, b1, acts[j].rid) && Find(after, acts[j].rid).value.tamed
    {
      var x := acts[j].rid;
      assert x != acts[i].rid;
      assert DefusedIn(before, c0, f0, b0, x) && Find(before, x).value.tamed;
      assert Find(after, x) == Find(before, x) && (x in c1 <==> x in c0);
    }
  }

  /** The later tamed entities keep their listed record across a defusal
      step. */
  lemma DefuseStepLater(acts: seq<Actor>, i: int, before: seq<Actor>, after: seq<Actor>,
                        c0: map<int, int>, c1: map<int, int>, nb: int)
    requires UniqueRids(acts) && 0 <= i < |acts|
    requires forall j :: 0 <= j < |acts| ==> acts[j].rid < nb
    requires TamedUntouchedIn(before, acts, i)
    requires TamedKept(before, c0, after, c1, nb, acts[i].rid)
    ensures TamedUntouchedIn(after, acts, i + 1)
  {
    forall j | i < j < |acts| && acts[j].tamed ensures Find(after, acts[j].rid) == Some(acts[j]) {
      var x := acts[j].rid;
      assert x != acts[i].rid && x < nb;
      assert Find(before, x) == Some(acts[j]);
    }
  }


  /** Every id below `nb` other than `x` and `y` keeps its record and its
      ledger entry. */
  ghost predicate PairFrame(a0: seq<Actor>, c0: map<int, int>, a1: seq<Actor>, c1: map<int, int>, nb: int, x: int, y: int) {
    forall z :: z < nb && z != x && z != y ==>
      Find(a1, z) == Find(a0, z) && (z in c1 <==> z in c0) && (z in c1 ==> c1[z] == c0[z])
  }

  /** The state after merging `src` into `l`: `l` is a leader counting
      `total`, `src` is removed and out of the ledger, and every other id
      below `nb` keeps its record and its entry. */
  ghost predicate MergedInto(a0: seq<Actor>, c0: map<int, int>, a1: seq<Actor>, c1: map<int, int>, nb: int,
                             l: Actor, src: Actor, total: int) {
    CountOf(c1, l.rid) == total && Find(a1, l.rid).Some? && IsLeader(Find(a1, l.rid).value)
    && src.rid !in c1 && Find(a1, src.rid) == Some(Apply(src, Kill))
    && PairFrame(a0, c0, a1, c1, nb, l.rid, src.rid)
  }

  /** Pool leader `a` has merged with an unused partner from the pool: `a`
      is kept as the leader with both counts, the partner is removed, and
      both are now used. */
  ghost predicate MergedWithPartner(a0: seq<Actor>, c0: map<int, int>, a1: seq<Actor>, c1: map<int, int>, nb: int,
                                    pool: seq<Actor>, used: set<int>, used': set<int>, a: Actor) {
    exists b :: b in pool && b.rid != a.rid && b.rid !in used && used' == used + {a.rid, b.rid}
                && MergedInto(a0, c0, a1, c1, nb, a, b, CountOf(c0, a.rid) + CountOf(c0, b.rid))
  }

  /** Removing `src` and then promoting only `l` merges `src` into `l`. */
  lemma MergeSteps(a0: seq<Actor>, c0: map<int, int>, a1: seq<Actor>, c1: map<int, int>,
                   a2: seq<Actor>, c2: map<int, int>, nb: int, l: Actor, src: Actor, total: int)
    requires l.rid != src.rid && src.rid < nb
    requires forall z :: z != src.rid ==> Find(a1, z) == Find(a0, z)
    requires Find(a1, src.rid) == Some(Apply(src, Kill)) && c1 == c0 - {src.rid}
    requires CountOf(c2, l.rid) == total && Find(a2, l.rid).Some? && IsLeader(Find(a2, l.rid).value)
    requires SameOutside(a1, nb, a2, l.rid) && SameOutsideIds(c1, c2, nb, l.rid)
    ensures MergedInto(a0, c0, a2, c2, nb, l, src, total)
  {
  }

  /** The pool of the leader fast path: live leaders eligible under the cap
      with leader sources allowed, in candidate order. */
  function FastPool(mobs: seq<Actor>, cache: set<string>, s: Settings, counts: map<int, int>): (pool: seq<Actor>)
    ensures forall m :: m in pool ==> m in mobs && LiveMob(m) && IsLeader(m) && !m.baby
                                      && !AtCap(counts, m.rid, s.maxStackSize)
  {
    Filter(mobs, (m: Actor) => LiveMob(m) && IsLeader(m) && EligibleBasic(m, cache, s, counts, true, true))
  }

  /** The partner test of the fast path as a predicate on the partner. */
  function PartnerOk(a: Actor, ca: int, counts: map<int, int>, used: set<int>, cap: int, r2: real): Actor -> bool {
    (b: Actor) => PairOk(a, b, ca, CountOf(counts, b.rid), used, cap, r2)
  }

  /** The flat squared distance from `a`. */
  function FlatFrom(a: Actor): Actor -> real {
    (b: Actor) => FlatD2(a.pos, b.pos)
  }

  /** The pool members not used yet still have their pool record. */
  ghost predicate PoolCurrent(actors: seq<Actor>, pool: seq<Actor>, used: set<int>) {
    forall m :: m in pool && m.rid !in used ==> Find(actors, m.rid) == Some(m)
  }

  /** Every id below `nb` outside `ids` keeps its record and its ledger
      entry. */
  ghost predicate UntouchedOutside(a0: seq<Actor>, c0: map<int, int>, a1: seq<Actor>, c1: map<int, int>, nb: int,
                                   ids: set<int>) {
    forall z :: z < nb && z !in ids ==>
      Find(a1, z) == Find(a0, z) && (z in c1 <==> z in c0) && (z in c1 ==> c1[z] == c0[z])
  }

  lemma UntouchedOutsideRefl(a: seq<Actor>, c: map<int, int>, nb: int, ids: set<int>)
    ensures UntouchedOutside(a, c, a, c, nb, ids)
  {
  }

  /** A merge of two pool members keeps the other unused members current
      and leaves everything outside the pool alone. */
  lemma FastMergeStep(a0: seq<Actor>, c0: map<int, int>, a1: seq<Actor>, c1: map<int, int>,
                      a2: seq<Actor>, c2: map<int, int>, nb: int, pool: seq<Actor>, used: set<int>,
                      l: Actor, src: Actor, total: int)
    requires forall i :: 0 <= i < |a1| ==> a1[i].rid < nb
    requires PoolCurrent(a1, pool, used) && UntouchedOutside(a0, c0, a1, c1, nb, Rids(pool))
    requires l.rid in Rids(pool) && src.rid in Rids(pool)
    requires MergedInto(a1, c1, a2, c2, nb, l, src, total)
    ensures PoolCurrent(a2, pool, used + {l.rid, src.rid})
    ensures UntouchedOutside(a0, c0, a2, c2, nb, Rids(pool))
  {
    forall m | m in pool && m.rid !in used + {l.rid, src.rid} ensures Find(a2, m.rid) == Some(m) {
      FindBelow(a1, nb, m.rid);
    }
  }

  /** The count `_reindex_from_names` gives a live mob: a leader's count
      read back from its name and clamped to the cap, or 1 for a leader
      whose name yields no positive count and for every other mob. */
  function ReindexValue(a: Actor, cap: int): (c: int)
    ensures cap >= 1 ==> 1 <= c <= cap
    ensures IsLeader(a) && ParseCountFromName(a.name).Some? && 1 <= ParseCountFromName(a.name).value <= cap ==>
              c == ParseCountFromName(a.name).value
  {
    if IsLeader(a) then
      var parsed := ParseCountFromName(a.name);
      if parsed.Some? && parsed.value >= 1 then Min(parsed.value, cap) else 1
    else 1
  }

  /** A live leader whose name yields no positive count has its name
      cleared by `_reindex_from_names`. */
  predicate NameCleared(a: Actor) {
    LiveMob(a) && IsLeader(a) && !(ParseCountFromName(a.name).Some? && ParseCountFromName(a.name).value >= 1)
  }

  /** The record after `_reindex_from_names`. */
  function Reindexed(a: Actor): (b: Actor)
    ensures Stable(a, b) && b.tags == a.tags && b.valid == a.valid
    ensures b.name == (if NameCleared(a) then "" else a.name)
  {
    if NameCleared(a) then a.(name := "") else a
  }

  /** The ledger `_reindex_from_names` builds from the level, entity by
      entity. */
  function ReindexCounts(acts: seq<Actor>, cap: int): map<int, int> {
    if acts == [] then map[]
    else
      var a := acts[|acts| - 1];
      var r := ReindexCounts(acts[..|acts| - 1], cap);
      if LiveMob(a) then r[a.rid := ReindexValue(a, cap)] else r
  }

  /** The rebuilt ledger has an entry exactly for the live mobs of the
      level. */
  lemma {:induction false} ReindexCountsKeys(acts: seq<Actor>, cap: int, k: int)
    ensures k in ReindexCounts(acts, cap) <==> exists i :: 0 <= i < |acts| && LiveMob(acts[i]) && acts[i].rid == k
  {
    if acts != [] {
      var init := acts[..|acts| - 1];
      ReindexCountsKeys(init, cap, k);
      if exists i :: 0 <= i < |init| && LiveMob(init[i]) && init[i].rid == k {
        var i :| 0 <= i < |init| && LiveMob(init[i]) && init[i].rid == k;
        assert acts[i] == init[i];
      }
      if exists i :: 0 <= i < |acts| && LiveMob(acts[i]) && acts[i].rid == k {
        var i :| 0 <= i < |acts| && LiveMob(acts[i]) && acts[i].rid == k;
        if i < |init| {
          assert init[i] == acts[i];
        }
      }
    }
  }

  /** With unique ids, each live mob's entry is its `ReindexValue`. */
  lemma {:induction false} ReindexCountsValue(acts: seq<Actor>, cap: int, i: int)
    requires UniqueRids(acts) && 0 <= i < |acts| && LiveMob(acts[i])
    ensures acts[i].rid in ReindexCounts(acts, cap)
    ensures ReindexCounts(acts, cap)[acts[i].rid] == ReindexValue(acts[i], cap)
  {
    var init := acts[..|acts| - 1];
    if i < |init| {
      assert forall x, y :: 0 <= x < y < |init| ==> init[x].rid != init[y].rid by {
        forall x, y | 0 <= x < y < |init| ensures init[x].rid != init[y].rid {
          assert init[x] == acts[x] && init[y] == acts[y];
        }
      }
      assert init[i] == acts[i] && acts[i].rid != acts[|acts| - 1].rid;
      ReindexCountsValue(init, cap, i);
    }
  }

  /** What `on_actor_spawn` does to a spawned adult (or disallowed) mob
      before the tamed-leader sweep, from ledger `c0` and level `before` to
      `c1` and `after`. */
  ghost predicate SpawnSettled(a: Actor, cache: set<string>, s: Settings, c0: map<int, int>, before: seq<Actor>, nb: int,
                               c1: map<int, int>, after: seq<Actor>)
  {
    if IsLeader(a) then LeaderSpawnSettled(a, s, c0, before, c1, after)
    else MobSpawnSettled(a, cache, s, c0, before, nb, c1, after)
  }

  /** The count a spawned leader settles on: the count in its name, capped,
      when its ledger entry is the default; its ledger count otherwise. */
  function SpawnedLeaderCount(n: int, k: Option<nat>, cap: int): (c: int)
    ensures n >= 1 && cap >= 1 ==> 1 <= c
    ensures n != 1 || k.None? || k.value < 1 ==> c == n
    ensures n == 1 && k.Some? && k.value >= 1 ==> c <= cap && (k.value <= cap ==> c == k.value)
  {
    if n == 1 && k.Some? && k.value >= 1 then Min(k.value, cap) else n
  }

  /** A spawned leader whose ledger entry is the default takes the count its
      name carries (at most the cap); either way it is renamed for its count
      and nothing else changes. */
  ghost predicate LeaderSpawnSettled(a: Actor, s: Settings, c0: map<int, int>, before: seq<Actor>,
                                     c1: map<int, int>, after: seq<Actor>)
  {
    var c := SpawnedLeaderCount(CountOf(c0, a.rid), ParseCountFromName(a.name), s.maxStackSize);
    c1 == c0[a.rid := c] && Find(after, a.rid) == Some(a.(name := NameTag(c, s.showNameForCountGe, s.labelFormat)))
    && forall x :: x != a.rid ==> Find(after, x) == Find(before, x)
  }

  /** A spawned non-leader gains a default ledger entry; if it stands for two
      or more and may stack, it is promoted with its count up to the cap, its
      name shows the label of that count, and no other id below `nb`
      changes; otherwise the level is left as it is. */
  ghost predicate MobSpawnSettled(a: Actor, cache: set<string>, s: Settings, c0: map<int, int>, before: seq<Actor>, nb: int,
                                  c1: map<int, int>, after: seq<Actor>)
  {
    var n := CountOf(c0, a.rid);
    if n >= 2 && EligibleBasic(a, cache, s, c0, true, false) then
      CountOf(c1, a.rid) == Min(n, s.maxStackSize) && Find(after, a.rid).Some? && IsLeader(Find(after, a.rid).value)
      && Find(after, a.rid).value.name == Label(s, Min(n, s.maxStackSize))
      && TouchedOnly(before, c0, after, c1, nb, a.rid)
    else
      c1 == c0[a.rid := n] && after == before
  }

  /** With a positive cap every rebuilt count lies between 1 and the cap. */
  lemma {:induction false} ReindexCountsBounded(acts: seq<Actor>, cap: int)
    requires cap >= 1
    ensures forall k :: k in ReindexCounts(acts, cap) ==> 1 <= ReindexCounts(acts, cap)[k] <= cap
  {
    if acts != [] {
      ReindexCountsBounded(acts[..|acts| - 1], cap);
    }
  }

  /** Outside entity `id`, every id below `nb` keeps its record and its
      ledger entry. */
  ghost predicate TouchedOnly(a0: seq<Actor>, c0: map<int, int>, a1: seq<Actor>, c1: map<int, int>, nb: int, id: int) {
    SameOutside(a0, nb, a1, id) && SameOutsideIds(c0, c1, nb, id)
  }

  /** Outside the ids in `ids`, every id below `nb` keeps its record and
      its ledger entry. */
  ghost predicate TouchedAtMost(a0: seq<Actor>, c0: map<int, int>, a1: seq<Actor>, c1: map<int, int>, nb: int, ids: set<int>) {
    forall x :: x < nb && x !in ids ==> Find(a1, x) == Find(a0, x) && (x in c1 <==> x in c0) && (x in c1 ==> c1[x] == c0[x])
  }

  /** A one-id frame, with or without the dropped entry `r`, is a frame
      over `{id, r}`. */
  lemma TouchedAtMostFrom(a0: seq<Actor>, c0: map<int, int>, a1: seq<Actor>, c1: map<int, int>, nb: int, id: int, r: int)
    requires TouchedOnly(a0, c0, a1, c1, nb, id) || (TouchedOnly(a0, c0 - {r}, a1, c1, nb, id) && r !in c1)
    ensures TouchedAtMost(a0, c0, a1, c1, nb, {id, r})
  {
  }

  /** Frames compose when the second one covers at least the ids of the
      first one's range. */
  lemma TouchedAtMostTrans(a0: seq<Actor>, c0: map<int, int>, a1: seq<Actor>, c1: map<int, int>, n0: int,
                           a2: seq<Actor>, c2: map<int, int>, n1: int, s1: set<int>, s2: set<int>)
    requires n0 <= n1 && TouchedAtMost(a0, c0, a1, c1, n0, s1) && TouchedAtMost(a1, c1, a2, c2, n1, s2)
    ensures TouchedAtMost(a0, c0, a2, c2, n0, s1 + s2)
  {
  }

  /** Removing the taken followers and then changing only the leader
      touches at most the leader and the taken followers. */
  lemma AbsorbFrame(a0: seq<Actor>, c0: map<int, int>, a1: seq<Actor>, c1: map<int, int>,
                    a2: seq<Actor>, c2: map<int, int>, nb: int, taken: seq<int>, l: int)
    requires UniqueRids(a0) && a1 == KillAll(a0, taken) && c1 == RemoveAll(c0, taken)
    requires (a2 == a1 && c2 == c1) || (SameOutside(a1, nb, a2, l) && SameOutsideIds(c1, c2, nb, l))
    ensures TouchedAtMost(a0, c0, a2, c2, nb, {l} + (set x | x in taken))
  {
    forall x | x < nb && x !in {l} + (set x | x in taken)
      ensures Find(a2, x) == Find(a0, x) && (x in c2 <==> x in c0) && (x in c2 ==> c2[x] == c0[x])
    {
      KillAllFind(a0, taken, x);
    }
  }

  /** The id of a candidate, or `d` when there is none. */
  function RidOr(cand: Option<Actor>, d: int): int {
    if cand.Some? then cand.value.rid else d
  }

  /** Two attempts that each touch the old leader's entry and one
      candidate touch at most three ids together. */
  lemma TwoAttemptsFrame(a0: seq<Actor>, c0: map<int, int>, n0: int, a1: seq<Actor>, c1: map<int, int>, n1: int,
                         a2: seq<Actor>, c2: map<int, int>, r: int, i: int, j: int)
    requires n0 <= n1 && TouchedAtMost(a0, c0, a1, c1, n0, {r, i}) && TouchedAtMost(a1, c1, a2, c2, n1, {r, j})
    ensures |{r, i, j}| <= 3 && TouchedAtMost(a0, c0, a2, c2, n0, {r, i, j})
  {
    TouchedAtMostTrans(a0, c0, a1, c1, n0, a2, c2, n1, {r, i}, {r, j});
    assert {r, i} + {r, j} == {r, i, j};
  }

  /** A frame that holds beyond a summon, which keeps every older id's
      record, holds from before the summon. */
  lemma TouchedOnlyWiden(a0: seq<Actor>, a1: seq<Actor>, a2: seq<Actor>, c0: map<int, int>, c2: map<int, int>,
                         n0: int, n1: int, id: int)
    requires n0 <= n1 && forall x :: x < n0 ==> Find(a1, x) == Find(a0, x)
    requires TouchedOnly(a1, c0, a2, c2, n1, id)
    ensures TouchedOnly(a0, c0, a2, c2, n0, id)
  {
  }

  /** The effect of a feed-pop split of leader `ent`: it stands for one
      unit less (see `Relabelled`) and its breed cooldown runs until
      `until`. */
  ghost predicate FeedPopped(c0: map<int, int>, b0: map<int, int>, a0: seq<Actor>, sm0: seq<SummonOutcome>, n0: int,
                             c1: map<int, int>, b1: map<int, int>, a1: seq<Actor>,
                             ent: Actor, until: int, s: Settings) {
    b1 == b0[ent.rid := until] && Relabelled(c0, a0, sm0, n0, c1, a1, ent, CountOf(c0, ent.rid) - 1, s)
  }

  /** Leader `ent` now stands for `value` and shows it in its name, no other
      entity changes, and at most one plain mob of its type appears,
      summoned at the centre of its block. */
  ghost predicate Relabelled(c0: map<int, int>, a0: seq<Actor>, sm0: seq<SummonOutcome>, n0: int,
                             c1: map<int, int>, after: seq<Actor>,
                             ent: Actor, value: int, s: Settings) {
    c1 == c0[ent.rid := value]
    && Find(after, ent.rid) == Some(ent.(name := Label(s, value)))
    && after == AfterSummon(Patched(a0, ent.rid, Rename(Label(s, value))), sm0, n0,
                            NormalizeId(ent.typ), DimToken(ent.dim), BlockCenter(ent.pos))
  }

  /** The name `_update_nametag` gives an entity with this count. */
  function Label(s: Settings, count: int): string {
    NameTag(count, s.showNameForCountGe, s.labelFormat)
  }

  class Stacker {
    var settings: Settings
    var allowedCache: set<string>
    var counts: map<int, int>
    var pending: seq<Entry>
    var deathHandledAt: map<int, int>
    var lastFeedPop: map<int, int>
    var breedCooldownUntil: map<int, int>
    var cdPruneTick: int
    const level: Level

    /** The level is consistent, the pending queue has one entry per key,
        every ledger count is at least one and the cap admits a count. */
    ghost predicate Valid()
      reads this`settings, this`pending, this`counts, level
    {
      level.Valid() && UniqueKeys(pending) && Positive(counts) && settings.maxStackSize >= 1
    }

    /** `on_load`: empty ledgers and the allowed cache built from the
        settings. */
    constructor (s: Settings, lvl: Level)
      requires lvl.Valid() && s.maxStackSize >= 1
      ensures Valid()
      ensures settings == s && level == lvl && allowedCache == AllowedCache(s.allowedTypes)
      ensures counts == map[] && pending == [] && deathHandledAt == map[] && lastFeedPop == map[]
      ensures breedCooldownUntil == map[] && cdPruneTick == 0
    {
      settings := s;
      level := lvl;
      allowedCache := AllowedCache(s.allowedTypes);
      counts := map[];
      pending := [];
      deathHandledAt := map[];
      lastFeedPop := map[];
      breedCooldownUntil := map[];
      cdPruneTick := 0;
    }

    /** `_rebuild_allowed_cache` */
    method RebuildAllowedCache()
      modifies this`allowedCache
      ensures allowedCache == AllowedCache(settings.allowedTypes)
      ensures forall id :: id in allowedCache ==> id != "" && NormalizeId(id) == id
    {
      allowedCache := AllowedCache(settings.allowedTypes);
      forall id | id in allowedCache ensures id != "" && NormalizeId(id) == id {
        AllowedCacheShape(settings.allowedTypes, id);
      }
    }

    /** `_write_allow` of the settings menu: the edited list replaces the
        configured one and the allowed-type cache is rebuilt from it. */
    method WriteAllow(allow: seq<string>)
      requires Valid()
      modifies this`settings, this`allowedCache
      ensures Valid() && settings == old(settings).(allowedTypes := allow)
      ensures allowedCache == AllowedCache(allow)
    {
      settings := settings.(allowedTypes := allow);
      RebuildAllowedCache();
    }

    /** `_set_count`: the stored value is never below 1. */
    method SetCount(rid: int, value: int)
      requires Valid()
      modifies this`counts
      ensures Valid()
      ensures counts == old(counts)[rid := Max(1, value)]
      ensures CountOf(counts, rid) >= 1 && (value >= 1 ==> CountOf(counts, rid) == value)
    {
      counts := counts[rid := Max(1, value)];
    }

    /** `_update_nametag`: the entity's name shows its ledger count, or is
        cleared below the display threshold. */
    method UpdateNametag(rid: int)
      requires Valid()
      modifies level
      ensures Valid()
      ensures level.actors == Patched(old(level.actors), rid, Rename(Label(settings, CountOf(counts, rid))))
      ensures level.nextRid == old(level.nextRid) && level.summons == old(level.summons)
      ensures Evolves(old(level.actors), level.nextRid, level.actors)
      ensures Find(level.actors, rid) == match Find(old(level.actors), rid)
                                         case None => None
                                         case Some(a) => Some(a.(name := Label(settings, CountOf(counts, rid))))
      ensures forall x :: x != rid ==> Find(level.actors, x) == Find(old(level.actors), x)
    {
      level.Change(rid, Rename(Label(settings, CountOf(counts, rid))));
    }

    /** `_force_adult_replace`: an allowed baby loses its ledger entry, is
        removed, and an adult is summoned at the centre of its block. */
    method ForceAdultReplace(a: Actor)
      requires Valid()
      modifies this`counts, level
      ensures Valid()
      ensures Evolves(old(level.actors), old(level.nextRid), level.actors) && level.nextRid >= old(level.nextRid)
      ensures SameOutside(old(level.actors), old(level.nextRid), level.actors, a.rid)
      ensures counts == if IsAllowed(allowedCache, a.typ) && a.baby then old(counts) - {a.rid} else old(counts)
      ensures !(IsAllowed(allowedCache, a.typ) && a.baby) ==>
                level.actors == old(level.actors) && level.nextRid == old(level.nextRid)
      ensures IsAllowed(allowedCache, a.typ) && a.baby ==>
                level.actors == AfterSummon(Patched(old(level.actors), a.rid, Kill), old(level.summons), old(level.nextRid),
                                            NormalizeId(a.typ), DimToken(a.dim), BlockCenter(a.pos))
    {
      if !IsAllowed(allowedCache, a.typ) {
        return;
      }
      if !a.baby {
        return;
      }
      var etype := NormalizeId(a.typ);
      var dim := DimToken(a.dim);
      var c := BlockCenter(a.pos);
      counts := counts - {a.rid};
      ghost var a0 := level.actors;
      level.Change(a.rid, Kill);
      ghost var a1 := level.actors;
      ghost var n1 := level.nextRid;
      var _ := level.Summon(etype, dim, c);
      EvolvesTrans(a0, n1, a1, n1, level.actors);
    }

    /** `_adultize_and_return_sameblock`: an adult candidate is returned as
        it is; a baby is replaced and the adult that appeared in the block
        (if the diff search sees one) is returned instead. */
    method AdultizeSameBlock(etype: string, dim: string, c: Pos, cand: Option<Actor>) returns (r: Option<Actor>)
      requires Valid()
      modifies this`counts, level
      ensures Valid()
      ensures Evolves(old(level.actors), old(level.nextRid), level.actors) && level.nextRid >= old(level.nextRid)
      ensures cand.None? || !cand.value.baby ==>
                r == cand && counts == old(counts) && level.actors == old(level.actors) && level.nextRid == old(level.nextRid)
      ensures cand.Some? && cand.value.baby ==>
                SameOutside(old(level.actors), old(level.nextRid), level.actors, cand.value.rid)
                && SameOutsideIds(old(counts), counts, old(level.nextRid), cand.value.rid)
      ensures cand.Some? && cand.value.baby && r.Some? ==>
                r.value in level.actors && r.value.rid >= old(level.nextRid) && InBlock(r.value, etype, dim, BlockOf(c))
    {
      if cand.None? {
        return None;
      }
      if !cand.value.baby {
        return cand;
      }
      var pre := SnapshotSameBlockIds(level.actors, etype, dim, c);
      ghost var before := level.actors;
      ghost var nb := level.nextRid;
      ForceAdultReplace(cand.value);
      r := FindNewbornByDiff(level.actors, etype, dim, c, pre);
      DiffFindsOnlyNew(before, nb, level.actors, etype, dim, c);
    }

    /** The tail of `_promote_leader`: tag the entity, store its count
        clamped to [1, cap] and rename it to match. */
    method MarkLeader(rid: int, count: int)
      requires Valid() && Find(level.actors, rid).Some?
      modifies this`counts, level
      ensures Valid()
      ensures Evolves(old(level.actors), level.nextRid, level.actors) && level.nextRid == old(level.nextRid)
      ensures counts == old(counts)[rid := Clamp(count, settings.maxStackSize)]
      ensures Find(level.actors, rid) ==
                Some(Find(old(level.actors), rid).value.(tags := Find(old(level.actors), rid).value.tags + {StackTag},
                                                         name := Label(settings, Clamp(count, settings.maxStackSize))))
      ensures forall x :: x != rid ==> Find(level.actors, x) == Find(old(level.actors), x)
    {
      ghost var a0 := level.actors;
      level.Change(rid, AddTag(StackTag));
      ghost var a1 := level.actors;
      SetCount(rid, Clamp(count, settings.maxStackSize));
      UpdateNametag(rid);
      EvolvesTrans(a0, level.nextRid, a1, level.nextRid, level.actors);
    }

    /** The head of `_promote_leader` for a baby: replace it and look for the
        adult by the same-block diff. */
    method ReplaceBaby(a: Actor) returns (adult: Option<Actor>)
      requires Valid()
      modifies this`counts, level
      ensures Valid()
      ensures Evolves(old(level.actors), old(level.nextRid), level.actors) && level.nextRid >= old(level.nextRid)
      ensures SameOutside(old(level.actors), old(level.nextRid), level.actors, a.rid)
      ensures SameOutsideIds(old(counts), counts, old(level.nextRid), a.rid)
      ensures counts == if IsAllowed(allowedCache, a.typ) && a.baby then old(counts) - {a.rid} else old(counts)
      ensures !(IsAllowed(allowedCache, a.typ) && a.baby) ==>
                level.actors == old(level.actors) && level.nextRid == old(level.nextRid) && adult.None?
      ensures IsAllowed(allowedCache, a.typ) && a.baby ==>
                level.actors == AfterSummon(Patched(old(level.actors), a.rid, Kill), old(level.summons), old(level.nextRid),
                                            NormalizeId(a.typ), DimToken(a.dim), BlockCenter(a.pos))
      ensures adult.Some? ==> |level.actors| == |old(level.actors)| + 1 && adult.value == level.actors[|old(level.actors)|]
                              && InBlock(adult.value, NormalizeId(a.typ), DimToken(a.dim), BlockOf(BlockCenter(a.pos)))
    {
      var etype := NormalizeId(a.typ);
      var dim := DimToken(a.dim);
      var c := BlockCenter(a.pos);
      var pre := SnapshotSameBlockIds(level.actors, etype, dim, c);
      ghost var before := level.actors;
      ghost var nb := level.nextRid;
      ForceAdultReplace(a);
      adult := FindNewbornByDiff(level.actors, etype, dim, c, pre);
      DiffFindsOnlyNew(before, nb, level.actors, etype, dim, c);
    }

    /** `_promote_leader`: the entity (or, for a baby, the adult that
        replaces it) carries the leader tag, a count clamped to [1, cap] and
        the matching name. Nothing else changes, except that a baby is
        removed and loses its ledger entry. */
    method PromoteLeader(a: Actor, count: int) returns (leader: Option<int>)
      requires Valid() && a in level.actors
      modifies this`counts, level
      ensures Valid()
      ensures Evolves(old(level.actors), old(level.nextRid), level.actors) && level.nextRid >= old(level.nextRid)
      ensures !a.baby ==> leader == Some(a.rid) && level.nextRid == old(level.nextRid)
      ensures a.baby ==> leader.None? || leader.value >= old(level.nextRid)
      ensures leader.Some? ==> CountOf(counts, leader.value) == Clamp(count, settings.maxStackSize)
      ensures leader.Some? ==>
                var r := Find(level.actors, leader.value);
                r.Some? && IsLeader(r.value) && r.value.name == Label(settings, Clamp(count, settings.maxStackSize))
      ensures SameOutsideIds(old(counts), counts, old(level.nextRid), a.rid)
      ensures SameOutside(old(level.actors), old(level.nextRid), level.actors, a.rid)
    {
      var target := a;
      ghost var a0 := level.actors;
      ghost var n0 := level.nextRid;
      ghost var c0 := counts;
      if a.baby {
        var adult := ReplaceBaby(a);
        if adult.None? {
          return None;
        }
        target := adult.value;
      }
      ghost var a1 := level.actors;
      ghost var n1 := level.nextRid;
      ghost var c1 := counts;
      assert SameOutside(a0, n0, a1, a.rid) && SameOutsideIds(c0, c1, n0, a.rid);
      ghost var j :| 0 <= j < |a1| && a1[j] == target;
      assert Find(a1, target.rid).Some?;
      MarkLeader(target.rid, count);
      EvolvesTrans(a0, n0, a1, n1, level.actors);
      leader := Some(target.rid);
    }

    /** The shared tail of the death and retry paths: make the candidate an
        adult if it is a baby, then promote it with count `n`. */
    method AttachTo(etype: string, dim: string, c: Pos, cand: Option<Actor>, n: int) returns (res: Attach)
      requires Valid() && (cand.Some? ==> cand.value in level.actors)
      modifies this`counts, level
      ensures Valid()
      ensures Evolves(old(level.actors), old(level.nextRid), level.actors) && level.nextRid >= old(level.nextRid)
      ensures cand.None? ==> res.NoCandidate? && counts == old(counts) && level.actors == old(level.actors)
      ensures res.Promoted? ==> CountOf(counts, res.leader) == Clamp(n, settings.maxStackSize)
      ensures res.Promoted? ==> Find(level.actors, res.leader).Some? && IsLeader(Find(level.actors, res.leader).value)
      ensures res.Promoted? ==> res.leader == cand.value.rid || res.leader >= old(level.nextRid)
      ensures cand.Some? ==> SameOutsideIds(old(counts), counts, old(level.nextRid), cand.value.rid)
      ensures cand.Some? ==> SameOutside(old(level.actors), old(level.nextRid), level.actors, cand.value.rid)
    {
      if cand.None? {
        return NoCandidate;
      }
      ghost var a0 := level.actors;
      ghost var n0 := level.nextRid;
      ghost var c0 := counts;
      var adult := AdultizeSameBlock(etype, dim, c, cand);
      if adult.None? {
        return NoCandidate;
      }
      ghost var a1 := level.actors;
      ghost var n1 := level.nextRid;
      ghost var c1 := counts;
      assert adult.value.rid == cand.value.rid || adult.value.rid >= n0;
      var l := PromoteLeader(adult.value, n);
      EvolvesTrans(a0, n0, a1, n1, level.actors);
      SameOutsideTrans(a0, n0, a1, n1, level.actors, cand.value.rid, adult.value.rid);
      SameOutsideIdsTrans(c0, n0, c1, n1, counts, cand.value.rid, adult.value.rid);
      if l.Some? {
        res := Promoted(l.value);
      } else {
        res := PromotionFailed;
      }
    }

    /** The part of `_process_leader_death` after a successful summon: the
        newborn (by diff, else nearby) takes `min(remaining, cap)` and the old
        leader's entry is dropped; when no newborn is resolved the entry stays
        and the retries are due. The old leader itself, when still a live
        mob, is in the snapshot `pre`, so it is never the one resolved.
        `base` and `n0` are the world before the summon, whose records of
        ids below `n0` the summon kept. */
    method SettleNewborn(oldRid: int, etype: string, dim: string, c: Pos, pre: set<int>, remaining: int,
                         ghost base: seq<Actor>, ghost n0: int)
      returns (o: DeathOutcome)
      requires Valid() && oldRid < level.nextRid
      requires n0 <= level.nextRid && forall x :: x < n0 ==> Find(level.actors, x) == Find(base, x)
      requires Find(level.actors, oldRid).Some? && LiveMob(Find(level.actors, oldRid).value) ==> oldRid in pre
      modifies this`counts, level
      ensures Valid()
      ensures Evolves(old(level.actors), old(level.nextRid), level.actors) && level.nextRid >= old(level.nextRid)
      ensures o.Attached? || o.Lost? || o.Deferred?
      ensures !o.Deferred? ==> oldRid !in counts
      ensures o.Attached? ==> o.leader != oldRid
                              && CountOf(counts, o.leader) == Clamp(Min(remaining, settings.maxStackSize), settings.maxStackSize)
                              && Find(level.actors, o.leader).Some? && IsLeader(Find(level.actors, o.leader).value)
      ensures o.Deferred? ==> CountOf(counts, oldRid) == CountOf(old(counts), oldRid)
                              && o.task == RetryTask(oldRid, etype, dim, c, pre, remaining, settings.maxStackSize, settings)
      ensures !o.Deferred? ==> exists id :: id != oldRid && TouchedOnly(base, old(counts) - {oldRid}, level.actors, counts, n0, id)
    {
      var cap := settings.maxStackSize;
      var nb := FindNewbornByDiff(level.actors, etype, dim, c, pre);
      if nb.None? {
        nb := FindSameBlockOrNear(level.actors, etype, dim, c, pre);
      }
      if nb.Some? && nb.value.rid == oldRid {
        assert false;
      }
      ghost var a1, n1 := level.actors, level.nextRid;
      o := AttachForRetry(RetryTask(oldRid, etype, dim, c, pre, remaining, cap, settings), nb);
      if !o.Deferred? {
        TouchedOnlyWiden(base, a1, level.actors, old(counts) - {oldRid}, counts, n0, n1, nb.value.rid);
      }
    }

    /** `_process_leader_death`: a leader of count 1 (or of a type no longer
        allowed) just loses its ledger entry; otherwise `count - 1` goes to
        a replacement summoned at the centre of its block, or to the pending
        queue when the summon is refused, or to the scheduled retries when
        the newborn is not seen yet. */
    method ProcessLeaderDeath(a: Actor) returns (o: DeathOutcome)
      requires Valid() && Find(level.actors, a.rid) == Some(a)
      modifies this`counts, this`pending, level
      ensures Valid()
      ensures Evolves(old(level.actors), old(level.nextRid), level.actors) && level.nextRid >= old(level.nextRid)
      ensures o.Dropped? <==> CountOf(old(counts), a.rid) <= 1 || !IsAllowed(allowedCache, a.typ)
      ensures o.Dropped? ==> counts == old(counts) - {a.rid} && level.actors == old(level.actors)
      ensures !o.Deferred? ==> a.rid !in counts
      ensures o.Queued? ==> o == Queued(PendingKeyAt(NormalizeId(a.typ), DimToken(a.dim), a.pos), CountOf(old(counts), a.rid) - 1)
                            && pending == Enqueue(old(pending), o.key, o.n)
                            && counts == old(counts) - {a.rid} && level.actors == old(level.actors)
      ensures !o.Queued? ==> pending == old(pending)
      ensures o.Attached? ==> o.leader != a.rid
                              && CountOf(counts, o.leader) == Clamp(Min(CountOf(old(counts), a.rid) - 1, settings.maxStackSize), settings.maxStackSize)
                              && Find(level.actors, o.leader).Some? && IsLeader(Find(level.actors, o.leader).value)
      ensures o.Attached? || o.Lost? ==>
                exists id :: id != a.rid && TouchedOnly(old(level.actors), old(counts) - {a.rid}, level.actors, counts,
                                                       old(level.nextRid), id)
      ensures o.Deferred? ==> CountOf(counts, a.rid) == CountOf(old(counts), a.rid)
                              && o.task == RetryTask(a.rid, NormalizeId(a.typ), DimToken(a.dim), BlockCenter(a.pos),
                                                     SnapshotSameBlockIds(old(level.actors), NormalizeId(a.typ), DimToken(a.dim), BlockCenter(a.pos)),
                                                     CountOf(old(counts), a.rid) - 1, settings.maxStackSize, settings)
    {
      var count := CountOf(counts, a.rid);
      if count <= 1 {
        counts := counts - {a.rid};
        return Dropped;
      }
      if !IsAllowed(allowedCache, a.typ) {
        counts := counts - {a.rid};
        return Dropped;
      }
      o := ReplaceLeader(a);
    }

    /** A refused replacement: the remainder waits in the pending queue and
        the old leader's entry is dropped. */
    method QueueRemainder(rid: int, key: PendingKey, n: int)
      requires UniqueKeys(pending)
      modifies this`pending, this`counts
      ensures pending == Enqueue(old(pending), key, n) && counts == old(counts) - {rid}
    {
      pending := Enqueue(pending, key, n);
      counts := counts - {rid};
    }

    /** The replacement part of `_process_leader_death`, for a leader of an
        allowed type with a count above 1. */
    method ReplaceLeader(a: Actor) returns (o: DeathOutcome)
      requires Valid() && Find(level.actors, a.rid) == Some(a)
      requires CountOf(counts, a.rid) > 1 && IsAllowed(allowedCache, a.typ)
      modifies this`counts, this`pending, level
      ensures Valid()
      ensures Evolves(old(level.actors), old(level.nextRid), level.actors) && level.nextRid >= old(level.nextRid)
      ensures !o.Dropped?
      ensures !o.Deferred? ==> a.rid !in counts
      ensures o.Queued? ==> o == Queued(PendingKeyAt(NormalizeId(a.typ), DimToken(a.dim), a.pos), CountOf(old(counts), a.rid) - 1)
                            && pending == Enqueue(old(pending), o.key, o.n)
                            && counts == old(counts) - {a.rid} && level.actors == old(level.actors)
      ensures !o.Queued? ==> pending == old(pending)
      ensures o.Attached? ==> o.leader != a.rid
                              && CountOf(counts, o.leader) == Clamp(Min(CountOf(old(counts), a.rid) - 1, settings.maxStackSize), settings.maxStackSize)
                              && Find(level.actors, o.leader).Some? && IsLeader(Find(level.actors, o.leader).value)
      ensures o.Attached? || o.Lost? ==>
                exists id :: id != a.rid && TouchedOnly(old(level.actors), old(counts) - {a.rid}, level.actors, counts,
                                                       old(level.nextRid), id)
      ensures o.Deferred? ==> CountOf(counts, a.rid) == CountOf(old(counts), a.rid)
                              && o.task == RetryTask(a.rid, NormalizeId(a.typ), DimToken(a.dim), BlockCenter(a.pos),
                                                     SnapshotSameBlockIds(old(level.actors), NormalizeId(a.typ), DimToken(a.dim), BlockCenter(a.pos)),
                                                     CountOf(old(counts), a.rid) - 1, settings.maxStackSize, settings)
    {
      var count := CountOf(counts, a.rid);
      var etype := NormalizeId(a.typ);
      var dim := DimToken(a.dim);
      var remaining := count - 1;
      var c := BlockCenter(a.pos);
      var pre := SnapshotSameBlockIds(level.actors, etype, dim, c);
      if LiveMob(a) {
        SnapshotHoldsOwn(level.actors, a);
      }
      o := SummonAndSettle(a.rid, etype, dim, c, pre, remaining);
    }

    /** The summon of `_process_leader_death` and what follows it: a refused
        summon queues `remaining` under the block of `c`; otherwise the
        newborn is settled as `SettleNewborn` says. */
    method SummonAndSettle(rid: int, etype: string, dim: string, c: Pos, pre: set<int>, remaining: int)
      returns (o: DeathOutcome)
      requires Valid() && Find(level.actors, rid).Some?
      requires LiveMob(Find(level.actors, rid).value) ==> rid in pre
      modifies this`counts, this`pending, level
      ensures Valid()
      ensures Evolves(old(level.actors), old(level.nextRid), level.actors) && level.nextRid >= old(level.nextRid)
      ensures !o.Dropped?
      ensures !o.Deferred? ==> rid !in counts
      ensures o.Queued? ==> o == Queued(PendingKeyAt(etype, dim, c), remaining)
                            && pending == Enqueue(old(pending), o.key, o.n)
                            && counts == old(counts) - {rid} && level.actors == old(level.actors)
      ensures !o.Queued? ==> pending == old(pending)
      ensures o.Attached? ==> o.leader != rid
                              && CountOf(counts, o.leader) == Clamp(Min(remaining, settings.maxStackSize), settings.maxStackSize)
                              && Find(level.actors, o.leader).Some? && IsLeader(Find(level.actors, o.leader).value)
      ensures o.Attached? || o.Lost? ==>
                exists id :: id != rid && TouchedOnly(old(level.actors), old(counts) - {rid}, level.actors, counts,
                                                     old(level.nextRid), id)
      ensures o.Deferred? ==> CountOf(counts, rid) == CountOf(old(counts), rid)
                              && o.task == RetryTask(rid, etype, dim, c, pre, remaining, settings.maxStackSize, settings)
    {
      var ok := level.Summon(etype, dim, c);
      if !ok {
        var key := PendingKeyAt(etype, dim, c);
        QueueRemainder(rid, key, remaining);
        return Queued(key, remaining);
      }
      o := SettleNewborn(rid, etype, dim, c, pre, remaining, old(level.actors), old(level.nextRid));
    }
  
    /** One resolution attempt of `_retry_attach_newborn`: a candidate that
        is (or is replaced by) an adult takes `min(remaining, cap)` and the
        old leader's entry is dropped; `Deferred` when there is none. */
    method AttachForRetry(t: RetryTask, cand: Option<Actor>) returns (o: DeathOutcome)
      requires Valid() && t.oldRid < level.nextRid
      requires cand.Some? ==> cand.value in level.actors && cand.value.rid != t.oldRid
      modifies this`counts, level
      ensures Valid()
      ensures Evolves(old(level.actors), old(level.nextRid), level.actors) && level.nextRid >= old(level.nextRid)
      ensures Find(level.actors, t.oldRid) == old(Find(level.actors, t.oldRid))
      ensures o.Attached? || o.Lost? || o.Deferred?
      ensures o.Deferred? ==> o == Deferred(t) && CountOf(counts, t.oldRid) == CountOf(old(counts), t.oldRid)
      ensures !o.Deferred? ==> t.oldRid !in counts
      ensures o.Attached? ==> o.leader != t.oldRid
                              && CountOf(counts, o.leader) == Clamp(Min(t.remaining, t.cap), settings.maxStackSize)
                              && Find(level.actors, o.leader).Some? && IsLeader(Find(level.actors, o.leader).value)
      ensures !o.Deferred? ==> cand.Some? && TouchedOnly(old(level.actors), old(counts) - {t.oldRid}, level.actors, counts,
                                                         old(level.nextRid), cand.value.rid)
      ensures o.Deferred? && cand.Some? ==> TouchedOnly(old(level.actors), old(counts), level.actors, counts,
                                                        old(level.nextRid), cand.value.rid)
      ensures cand.None? ==> level.actors == old(level.actors) && counts == old(counts)
    {
      ghost var a0, c0, n0 := level.actors, counts, level.nextRid;
      var res := AttachTo(t.etype, t.dim, t.center, cand, Min(t.remaining, t.cap));
      if res.NoCandidate? {
        return Deferred(t);
      }
      if res.Promoted? {
        CountOfRemove(counts, t.oldRid, res.leader);
      }
      counts := counts - {t.oldRid};
      assert TouchedOnly(a0, c0 - {t.oldRid}, level.actors, counts, n0, cand.value.rid);
      o := if res.Promoted? then Attached(res.leader) else Lost;
    }

    /** The resolution steps of `_retry_attach_newborn`: the newborn by diff,
        else nearby; failing that, the nearest eligible non-leader under cap
        within the radius of the block centre. The one found takes
        `min(remaining, cap)` and the old leader's entry is dropped;
        `Deferred` means that nothing could be resolved. */
    method TryAttachNewborn(t: RetryTask) returns (o: DeathOutcome, ghost touched: set<int>)
      requires Valid() && t.oldRid < level.nextRid && OldLeaderSafe(level.actors, t)
      modifies this`counts, level
      ensures Valid() && OldLeaderSafe(level.actors, t)
      ensures Evolves(old(level.actors), old(level.nextRid), level.actors) && level.nextRid >= old(level.nextRid)
      ensures Find(level.actors, t.oldRid) == old(Find(level.actors, t.oldRid))
      ensures o.Attached? || o.Lost? || o.Deferred?
      ensures o.Deferred? ==> o == Deferred(t) && CountOf(counts, t.oldRid) == CountOf(old(counts), t.oldRid)
      ensures !o.Deferred? ==> t.oldRid !in counts
      ensures o.Attached? ==> o.leader != t.oldRid
                              && CountOf(counts, o.leader) == Clamp(Min(t.remaining, t.cap), settings.maxStackSize)
      ensures t.oldRid in touched && |touched| <= 3
      ensures TouchedAtMost(old(level.actors), old(counts), level.actors, counts, old(level.nextRid), touched)
    {
      var nb := FindNewbornByDiff(level.actors, t.etype, t.dim, t.center, t.pre);
      if nb.None? {
        nb := FindSameBlockOrNear(level.actors, t.etype, t.dim, t.center, t.pre);
      }
      ghost var a0, c0, n0 := level.actors, counts, level.nextRid;
      o := AttachFound(t, nb);
      ghost var s1: set<int> := {t.oldRid, RidOr(nb, t.oldRid)};
      if !o.Deferred? {
        touched := s1;
        return;
      }
      ghost var a1, c1, n1 := level.actors, counts, level.nextRid;
      ghost var id;
      o, id := AttachFallback(t);
      EvolvesTrans(a0, n0, a1, n1, level.actors);
      touched := {t.oldRid, RidOr(nb, t.oldRid), id};
      TwoAttemptsFrame(a0, c0, n0, a1, c1, n1, level.actors, counts, t.oldRid, RidOr(nb, t.oldRid), id);
    }

    /** The last resolution step of `_retry_attach_newborn`: the nearest
        eligible non-leader under cap within the radius of the block centre;
        `id` is the one entity besides the old leader it may touch. */
    method AttachFallback(t: RetryTask) returns (o: DeathOutcome, ghost id: int)
      requires Valid() && t.oldRid < level.nextRid && OldLeaderSafe(level.actors, t)
      modifies this`counts, level
      ensures Valid() && OldLeaderSafe(level.actors, t)
      ensures Evolves(old(level.actors), old(level.nextRid), level.actors) && level.nextRid >= old(level.nextRid)
      ensures Find(level.actors, t.oldRid) == old(Find(level.actors, t.oldRid))
      ensures o.Attached? || o.Lost? || o.Deferred?
      ensures o.Deferred? ==> o == Deferred(t) && CountOf(counts, t.oldRid) == CountOf(old(counts), t.oldRid)
      ensures !o.Deferred? ==> t.oldRid !in counts
      ensures o.Attached? ==> o.leader != t.oldRid
                              && CountOf(counts, o.leader) == Clamp(Min(t.remaining, t.cap), settings.maxStackSize)
      ensures TouchedAtMost(old(level.actors), old(counts), level.actors, counts, old(level.nextRid), {t.oldRid, id})
    {
      var best := FindRetryFallback(level.actors, t.etype, t.dim, t.center, allowedCache, t.s, counts);
      o := AttachFound(t, best);
      id := RidOr(best, t.oldRid);
    }

    /** One resolution attempt on a candidate found in the level: it is never
        the dead leader, whose record is already removed. */
    method AttachFound(t: RetryTask, cand: Option<Actor>) returns (o: DeathOutcome)
      requires Valid() && t.oldRid < level.nextRid && OldLeaderSafe(level.actors, t)
      requires cand.Some? ==> cand.value in level.actors && LiveMob(cand.value)
      requires cand.Some? ==> cand.value.rid !in t.pre || !IsLeader(cand.value)
      modifies this`counts, level
      ensures Valid() && OldLeaderSafe(level.actors, t)
      ensures Evolves(old(level.actors), old(level.nextRid), level.actors) && level.nextRid >= old(level.nextRid)
      ensures Find(level.actors, t.oldRid) == old(Find(level.actors, t.oldRid))
      ensures o.Attached? || o.Lost? || o.Deferred?
      ensures o.Deferred? ==> o == Deferred(t) && CountOf(counts, t.oldRid) == CountOf(old(counts), t.oldRid)
      ensures !o.Deferred? ==> t.oldRid !in counts
      ensures o.Attached? ==> o.leader != t.oldRid
                              && CountOf(counts, o.leader) == Clamp(Min(t.remaining, t.cap), settings.maxStackSize)
      ensures cand.None? ==> o.Deferred? && level.actors == old(level.actors) && counts == old(counts)
      ensures TouchedAtMost(old(level.actors), old(counts), level.actors, counts, old(level.nextRid),
                            {t.oldRid, RidOr(cand, t.oldRid)})
    {
      if cand.Some? && cand.value.rid == t.oldRid {
        FindMember(level.actors, cand.value);
        assert false;
      }
      ghost var a0, c0, n0 := level.actors, counts, level.nextRid;
      o := AttachForRetry(t, cand);
      if cand.Some? {
        TouchedAtMostFrom(a0, c0, level.actors, counts, n0, cand.value.rid, t.oldRid);
        assert {cand.value.rid, t.oldRid} == {t.oldRid, RidOr(cand, t.oldRid)};
      }
    }

    /** `_retry_attach_newborn` as written: when nothing can be resolved, the
        whole remaining count is added to the pending queue at the death
        block, so that the stack is not dropped. */
    method RetryAttachNewborn(t: RetryTask) returns (o: DeathOutcome, ghost touched: set<int>)
      requires Valid() && t.oldRid < level.nextRid && OldLeaderSafe(level.actors, t)
      modifies this`counts, this`pending, level
      ensures Valid() && OldLeaderSafe(level.actors, t)
      ensures Evolves(old(level.actors), old(level.nextRid), level.actors) && level.nextRid >= old(level.nextRid)
      ensures Find(level.actors, t.oldRid) == old(Find(level.actors, t.oldRid))
      ensures o.Attached? || o.Lost? || o.Queued?
      ensures o.Queued? ==> o == Queued(PendingKeyAt(t.etype, t.dim, t.center), t.remaining)
                            && pending == Enqueue(old(pending), o.key, o.n)
                            && Get(pending, o.key) == Get(old(pending), o.key) + t.remaining
      ensures !o.Queued? ==> pending == old(pending) && t.oldRid !in counts
      ensures o.Attached? ==> o.leader != t.oldRid
                              && CountOf(counts, o.leader) == Clamp(Min(t.remaining, t.cap), settings.maxStackSize)
      ensures t.oldRid in touched && |touched| <= 3
      ensures TouchedAtMost(old(level.actors), old(counts), level.actors, counts, old(level.nextRid), touched)
    {
      o, touched := TryAttachNewborn(t);
      if o.Deferred? {
        var key := PendingKeyAt(t.etype, t.dim, t.center);
        pending := Enqueue(pending, key, t.remaining);
        o := Queued(key, t.remaining);
      }
    }

    /** The three retries `_process_leader_death` schedules (after 1, 3 and
        10 ticks), each a full `_retry_attach_newborn` with the same captured
        remaining count. A retry that finds nothing queues the remainder, and
        the later retries still run: three failures queue three times the
        remainder, and a failure followed by a success both queues the
        remainder and hands it to a new leader. */
    method RetryChainAsWritten(t: RetryTask) returns (o1: DeathOutcome, o2: DeathOutcome, o3: DeathOutcome)
      requires Valid() && t.oldRid < level.nextRid && OldLeaderSafe(level.actors, t)
      modifies this`counts, this`pending, level
      ensures Valid()
      ensures Evolves(old(level.actors), old(level.nextRid), level.actors)
      ensures o1.Queued? && o2.Queued? && o3.Queued? ==>
                Get(pending, PendingKeyAt(t.etype, t.dim, t.center))
                  == Get(old(pending), PendingKeyAt(t.etype, t.dim, t.center)) + 3 * t.remaining
      ensures o1.Queued? && o2.Attached? && !o3.Queued? ==>
                Get(pending, PendingKeyAt(t.etype, t.dim, t.center))
                  == Get(old(pending), PendingKeyAt(t.etype, t.dim, t.center)) + t.remaining
    {
      ghost var a0 := level.actors;
      ghost var n0 := level.nextRid;
      ghost var g;
      o1, g := RetryAttachNewborn(t);
      ghost var a1 := level.actors;
      ghost var n1 := level.nextRid;
      o2, g := RetryAttachNewborn(t);
      ghost var a2 := level.actors;
      ghost var n2 := level.nextRid;
      o3, g := RetryAttachNewborn(t);
      EvolvesTrans(a0, n0, a1, n1, a2);
      EvolvesTrans(a0, n0, a2, n2, level.actors);
    }

    /** The retry ladder as intended: up to three resolution attempts, and
        only when all three find nothing is the remainder queued, once. The
        remaining count then ends in exactly one place: on a new leader, or
        in the pending queue, whose entry grows by exactly that count. */
    method RetryChain(t: RetryTask) returns (o: DeathOutcome)
      requires Valid() && t.oldRid < level.nextRid && OldLeaderSafe(level.actors, t)
      modifies this`counts, this`pending, level
      ensures Valid()
      ensures Evolves(old(level.actors), old(level.nextRid), level.actors)
      ensures o.Attached? || o.Lost? || o.Queued?
      ensures o.Queued? ==> o == Queued(PendingKeyAt(t.etype, t.dim, t.center), t.remaining)
                            && pending == Enqueue(old(pending), o.key, t.remaining)
      ensures !o.Queued? ==> pending == old(pending) && t.oldRid !in counts
      ensures o.Attached? ==> o.leader != t.oldRid
                              && CountOf(counts, o.leader) == Clamp(Min(t.remaining, t.cap), settings.maxStackSize)
    {
      ghost var a0 := level.actors;
      ghost var n0 := level.nextRid;
      ghost var g;
      o, g := TryAttachNewborn(t);
      if o.Deferred? {
        ghost var a1 := level.actors;
        ghost var n1 := level.nextRid;
        o, g := TryAttachNewborn(t);
        EvolvesTrans(a0, n0, a1, n1, level.actors);
      }
      if o.Deferred? {
        ghost var a2 := level.actors;
        ghost var n2 := level.nextRid;
        o, g := TryAttachNewborn(t);
        EvolvesTrans(a0, n0, a2, n2, level.actors);
      }
      if o.Deferred? {
        var key := PendingKeyAt(t.etype, t.dim, t.center);
        pending := Enqueue(pending, key, t.remaining);
        o := Queued(key, t.remaining);
      }
    }

    /** `_already_handled_this_tick`: the id was marked at tick `now` (an id
        never marked reads as tick -999999). */
    function AlreadyHandledThisTick(rid: int, now: int): (b: bool)
      reads this`deathHandledAt
      ensures rid in deathHandledAt ==> (b <==> deathHandledAt[rid] == now)
      ensures rid !in deathHandledAt ==> (b <==> now == NeverHandled)
    {
      GetOr(deathHandledAt, rid, NeverHandled) == now
    }

    /** `_note_handled_this_tick` */
    method NoteHandledThisTick(rid: int, now: int)
      modifies this`deathHandledAt
      ensures deathHandledAt == old(deathHandledAt)[rid := now]
      ensures AlreadyHandledThisTick(rid, now)
    {
      deathHandledAt := deathHandledAt[rid := now];
    }

    /** `_maybe_handle_lethal_hit`: a lethal hit on a leader not yet handled
        this tick runs the leader-death protocol at once (when the setting
        allows it) and marks the leader handled for this tick. `lethal` is
        what `_is_lethal_hit` reads off the event. */
    method MaybeHandleLethalHit(a: Actor, lethal: bool, now: int) returns (o: Option<DeathOutcome>)
      requires Valid() && Find(level.actors, a.rid) == Some(a)
      modifies this`counts, this`pending, this`deathHandledAt, level
      ensures Valid()
      ensures Evolves(old(level.actors), old(level.nextRid), level.actors)
      ensures o.Some? <==> a.isMob && IsLeader(a) && !old(AlreadyHandledThisTick(a.rid, now)) && lethal
                           && settings.handleLethalOnHurt
      ensures o.Some? ==> deathHandledAt == old(deathHandledAt)[a.rid := now] && AlreadyHandledThisTick(a.rid, now)
      ensures o.None? ==> deathHandledAt == old(deathHandledAt) && counts == old(counts)
                          && pending == old(pending) && level.actors == old(level.actors)
    {
      if !a.isMob || !IsLeader(a) {
        return None;
      }
      if AlreadyHandledThisTick(a.rid, now) {
        return None;
      }
      if !lethal {
        return None;
      }
      if !settings.handleLethalOnHurt {
        return None;
      }
      var d := ProcessLeaderDeath(a);
      NoteHandledThisTick(a.rid, now);
      o := Some(d);
    }

    /** `on_actor_death`: the cooldown entries go; an entity already handled
        this tick is not decremented again (a non-leader just loses its
        ledger entry); a non-leader loses its ledger entry; a leader runs the
        leader-death protocol and is marked handled for this tick. */
    method OnActorDeath(a: Actor, now: int) returns (o: Option<DeathOutcome>)
      requires Valid() && Find(level.actors, a.rid) == Some(a)
      modifies this`counts, this`pending, this`deathHandledAt, this`breedCooldownUntil, this`lastFeedPop, level
      ensures Valid()
      ensures Evolves(old(level.actors), old(level.nextRid), level.actors)
      ensures breedCooldownUntil == old(breedCooldownUntil) - {a.rid}
      ensures lastFeedPop == old(lastFeedPop) - {a.rid}
      ensures o.Some? <==> a.isMob && IsLeader(a) && !old(AlreadyHandledThisTick(a.rid, now))
      ensures o.None? ==> pending == old(pending) && level.actors == old(level.actors)
                          && deathHandledAt == old(deathHandledAt)
      ensures o.None? && (!a.isMob || !IsLeader(a)) ==> counts == old(counts) - {a.rid}
      ensures o.None? && a.isMob && IsLeader(a) ==> counts == old(counts)
      ensures o.Some? ==> deathHandledAt == old(deathHandledAt)[a.rid := now]
    {
      breedCooldownUntil := breedCooldownUntil - {a.rid};
      lastFeedPop := lastFeedPop - {a.rid};
      if AlreadyHandledThisTick(a.rid, now) {
        if !a.isMob || !IsLeader(a) {
          counts := counts - {a.rid};
        }
        return None;
      }
      if !a.isMob {
        counts := counts - {a.rid};
        return None;
      }
      if !IsLeader(a) {
        counts := counts - {a.rid};
        return None;
      }
      var d := ProcessLeaderDeath(a);
      NoteHandledThisTick(a.rid, now);
      o := Some(d);
    }

    /** A lethal hit followed by the death notification for the same kill in
        the same tick runs the leader-death protocol at most once: when the
        hurt path ran it, the death path does not. */
    method LethalHitThenDeath(a: Actor, lethal: bool, now: int) returns (o1: Option<DeathOutcome>, o2: Option<DeathOutcome>)
      requires Valid() && Find(level.actors, a.rid) == Some(a)
      modifies this`counts, this`pending, this`deathHandledAt, this`breedCooldownUntil, this`lastFeedPop, level
      ensures Valid()
      ensures o1.Some? ==> o2.None?
      ensures a.isMob && IsLeader(a) && !old(AlreadyHandledThisTick(a.rid, now)) ==> o1.Some? || o2.Some?
    {
      o1 := MaybeHandleLethalHit(a, lethal, now);
      var cur := Find(level.actors, a.rid);
      if cur.None? {
        return o1, None;
      }
      if o1.None? {
        assert cur == Some(a);
      }
      o2 := OnActorDeath(cur.value, now);
    }

    /** The gates of `_handle_feed_pop_event` before the cooldowns: the
        feature is on, the target is an adult leader mob of an allowed type,
        not a tamed one when tamed mobs are ignored, and the held item (when
        one is required) is a breeding item of its type. */
    predicate FeedPopGates(ent: Actor, item: Option<string>)
      reads this`settings, this`allowedCache
    {
      settings.feedPopEnabled && ent.isMob && IsLeader(ent) && !ent.baby
      && !(ent.tamed && settings.ignoreTamed) && IsAllowed(allowedCache, ent.typ)
      && (!settings.feedPopRequireItem
          || (item.Some? && item.value != "" && item.value in BreedItems(NormalizeId(ent.typ))))
    }

    /** `_handle_feed_pop_event`: feeding a leader whose breed cooldown and
        feed cooldown have both elapsed stamps the feed time; if it stands
        for two or more it then gives up one unit, shows the new count,
        summons one plain mob at its block centre (whether or not that
        succeeds) and starts the breed cooldown. */
    method HandleFeedPop(ent: Actor, item: Option<string>, now: int) returns (popped: bool)
      requires Valid() && Find(level.actors, ent.rid) == Some(ent)
      modifies this`counts, this`lastFeedPop, this`breedCooldownUntil, level
      ensures Valid()
      ensures Evolves(old(level.actors), old(level.nextRid), level.actors)
      ensures lastFeedPop == if old(FeedPopDue(ent, item, now)) then old(lastFeedPop)[ent.rid := now] else old(lastFeedPop)
      ensures popped <==> old(FeedPopDue(ent, item, now)) && CountOf(old(counts), ent.rid) >= 2
      ensures popped ==> FeedPopped(old(counts), old(breedCooldownUntil), old(level.actors), old(level.summons), old(level.nextRid),
                                    counts, breedCooldownUntil, level.actors, ent,
                                    now + old(settings).feedPopBreedCooldownTicks, old(settings))
      ensures !popped ==> counts == old(counts) && breedCooldownUntil == old(breedCooldownUntil)
                          && level.actors == old(level.actors)
    {
      if !FeedPopDue(ent, item, now) {
        return false;
      }
      popped := StampAndPop(ent, now, now + settings.feedPopBreedCooldownTicks, settings);
    }

    /** A feed-pop whose gates have passed: the feed time is stamped and the
        stack pops when it stands for two or more. The stamp touches only
        the feed-time ledger, so it commutes with the split. */
    method StampAndPop(ent: Actor, now: int, until: int, ghost s: Settings) returns (popped: bool)
      requires Valid() && Find(level.actors, ent.rid) == Some(ent) && s == settings
      modifies this`counts, this`lastFeedPop, this`breedCooldownUntil, level
      ensures Valid()
      ensures Evolves(old(level.actors), old(level.nextRid), level.actors)
      ensures lastFeedPop == old(lastFeedPop)[ent.rid := now]
      ensures popped <==> CountOf(old(counts), ent.rid) >= 2
      ensures popped ==> FeedPopped(old(counts), old(breedCooldownUntil), old(level.actors), old(level.summons), old(level.nextRid),
                                    counts, breedCooldownUntil, level.actors, ent, until, s)
      ensures !popped ==> counts == old(counts) && breedCooldownUntil == old(breedCooldownUntil)
                          && level.actors == old(level.actors)
    {
      popped := PopOne(ent, until);
      lastFeedPop := lastFeedPop[ent.rid := now];
    }

    /** The split half of a feed-pop: a leader standing for two or more
        gives up one unit (see `SplitOne`); a single one is left alone. */
    method PopOne(ent: Actor, until: int) returns (popped: bool)
      requires Valid() && Find(level.actors, ent.rid) == Some(ent)
      modifies this`counts, this`breedCooldownUntil, level
      ensures Valid()
      ensures Evolves(old(level.actors), old(level.nextRid), level.actors)
      ensures popped <==> CountOf(old(counts), ent.rid) >= 2
      ensures popped ==> FeedPopped(old(counts), old(breedCooldownUntil), old(level.actors), old(level.summons), old(level.nextRid),
                                    counts, breedCooldownUntil, level.actors, ent, until, settings)
      ensures !popped ==> counts == old(counts) && breedCooldownUntil == old(breedCooldownUntil)
                          && level.actors == old(level.actors)
    {
      var count := CountOf(counts, ent.rid);
      if count < 2 {
        return false;
      }
      SplitOne(ent, count, until);
      popped := true;
    }

    /** The gates of a feed-pop: a breeding item fed to an adult stack of an
        allowed type, past its breed cooldown and its feed-pop cooldown. */
    predicate FeedPopDue(ent: Actor, item: Option<string>, now: int)
      reads this`settings, this`allowedCache, this`breedCooldownUntil, this`lastFeedPop
    {
      FeedPopGates(ent, item) && now >= GetOr(breedCooldownUntil, ent.rid, 0)
      && now - GetOr(lastFeedPop, ent.rid, 0) >= settings.feedPopCooldownTicks
    }

    /** The split itself: one unit less on the leader, its name updated, one
        plain mob summoned at its block centre and the breed cooldown set. */
    method SplitOne(ent: Actor, count: int, until: int)
      requires Valid() && Find(level.actors, ent.rid) == Some(ent) && count >= 2
      modifies this`counts, this`breedCooldownUntil, level
      ensures Valid()
      ensures Evolves(old(level.actors), old(level.nextRid), level.actors)
      ensures Relabelled(old(counts), old(level.actors), old(level.summons), old(level.nextRid), counts, level.actors, ent, count - 1, settings)
      ensures breedCooldownUntil == old(breedCooldownUntil)[ent.rid := until]
    {
      RecountAndSummon(ent, count - 1);
      breedCooldownUntil := breedCooldownUntil[ent.rid := until];
    }

    /** The ledger and level half of `SplitOne`. */
    method RecountAndSummon(ent: Actor, value: int)
      requires Valid() && Find(level.actors, ent.rid) == Some(ent) && value >= 1
      modifies this`counts, level
      ensures Valid()
      ensures Evolves(old(level.actors), old(level.nextRid), level.actors)
      ensures Relabelled(old(counts), old(level.actors), old(level.summons), old(level.nextRid), counts, level.actors, ent, value, settings)
    {
      Recount(ent, value);
      ghost var a1, n1, c1 := level.actors, level.nextRid, counts;
      SummonPlain(ent);
      assert counts == c1;
      EvolvesTrans(old(level.actors), n1, a1, n1, level.actors);
    }

    /** `_set_count` followed by `_update_nametag` on a live entity. */
    method Recount(ent: Actor, value: int)
      requires Valid() && Find(level.actors, ent.rid) == Some(ent) && value >= 1
      modifies this`counts, level
      ensures Valid() && level.nextRid == old(level.nextRid)
      ensures Evolves(old(level.actors), level.nextRid, level.actors)
      ensures counts == old(counts)[ent.rid := value]
      ensures Find(level.actors, ent.rid) == Some(ent.(name := Label(settings, value)))
      ensures level.actors == Patched(old(level.actors), ent.rid, Rename(Label(settings, value)))
      ensures level.summons == old(level.summons)
      ensures ent.rid < level.nextRid
    {
      SetCount(ent.rid, value);
      UpdateNametag(ent.rid);
    }

    /** `_safe_summon` of one plain mob of the entity's type at its block
        centre; every entity that existed keeps its record. */
    method SummonPlain(ent: Actor)
      requires Valid() && ent.rid < level.nextRid
      modifies level
      ensures Valid()
      ensures Evolves(old(level.actors), old(level.nextRid), level.actors) && level.nextRid >= old(level.nextRid)
      ensures Find(level.actors, ent.rid) == old(Find(level.actors, ent.rid))
      ensures level.actors == AfterSummon(old(level.actors), old(level.summons), old(level.nextRid),
                                          NormalizeId(ent.typ), DimToken(ent.dim), BlockCenter(ent.pos))
    {
      var _ := level.Summon(NormalizeId(ent.typ), DimToken(ent.dim), BlockCenter(ent.pos));
    }

    /** `_prune_cooldowns`: every ledger keeps only the ids of entities that
        are still valid and not dead, with their values unchanged. */
    method PruneCooldowns()
      requires Valid()
      modifies this`counts, this`deathHandledAt, this`lastFeedPop, this`breedCooldownUntil
      ensures Valid()
      ensures var live := LiveIds(level.actors);
              (forall k :: k in breedCooldownUntil <==> k in old(breedCooldownUntil) && k in live)
              && (forall k :: k in lastFeedPop <==> k in old(lastFeedPop) && k in live)
              && (forall k :: k in deathHandledAt <==> k in old(deathHandledAt) && k in live)
              && (forall k :: k in counts <==> k in old(counts) && k in live)
      ensures forall k :: k in breedCooldownUntil ==> breedCooldownUntil[k] == old(breedCooldownUntil)[k]
      ensures forall k :: k in lastFeedPop ==> lastFeedPop[k] == old(lastFeedPop)[k]
      ensures forall k :: k in deathHandledAt ==> deathHandledAt[k] == old(deathHandledAt)[k]
      ensures forall k :: k in counts ==> counts[k] == old(counts)[k]
    {
      var live := LiveIds(level.actors);
      breedCooldownUntil := PruneMap(breedCooldownUntil, live);
      lastFeedPop := PruneMap(lastFeedPop, live);
      deathHandledAt := PruneMap(deathHandledAt, live);
      counts := PruneMap(counts, live);
    }

    /** The ledger and the level after the followers in `taken` were
        absorbed from the state `a0`, `c0`: exactly those lost their ledger
        entries and were removed. */
    ghost predicate AbsorbedFrom(a0: seq<Actor>, c0: map<int, int>, taken: seq<int>)
      reads this, level
    {
      level.actors == KillAll(a0, taken) && counts == RemoveAll(c0, taken)
    }

    /** One turn of the absorption loop, as `AbsorbStep` plans it. */
    method AbsorbOne(ghost a0: seq<Actor>, ghost c0: map<int, int>, m: Actor, plan: Absorption, space: int)
      returns (next: Absorption)
      requires Valid() && UniqueRids(a0) && AbsorbedFrom(a0, c0, plan.taken)
      requires plan.absorbed < space
      modifies this`counts, level
      ensures Valid() && level.nextRid == old(level.nextRid) && level.summons == old(level.summons)
      ensures AbsorbedFrom(a0, c0, next.taken)
      ensures next == AbsorbTurn(old(level.actors), old(counts), m, plan, space, allowedCache, settings)
    {
      ghost var turn := AbsorbTurn(level.actors, counts, m, plan, space, allowedCache, settings);
      var cur := Find(level.actors, m.rid);
      var ok := cur.Some? && EligibleBasic(cur.value, allowedCache, settings, counts, false, true);
      var c := CountOf(counts, m.rid);
      if c <= 0 {
        c := 1;
      }
      if !ok || plan.absorbed + c > space {
        assert turn == plan;
        return plan;
      }
      next := Absorption(plan.taken + [m.rid], plan.absorbed + c);
      assert turn == next;
      TakeFollower(a0, c0, m.rid, plan.taken);
    }

    /** Absorbing one follower: its ledger entry goes and it is removed. */
    method TakeFollower(ghost a0: seq<Actor>, ghost c0: map<int, int>, rid: int, ghost taken: seq<int>)
      requires Valid() && AbsorbedFrom(a0, c0, taken)
      modifies this`counts, level
      ensures Valid() && level.nextRid == old(level.nextRid) && level.summons == old(level.summons)
      ensures AbsorbedFrom(a0, c0, taken + [rid])
    {
      counts := counts - {rid};
      level.Change(rid, Kill);
      assert (taken + [rid])[..|taken + [rid]| - 1] == taken;
    }

    /** Turn `i` of the absorption loop extends the plan by follower `i`. */
    method AbsorbAt(ghost a0: seq<Actor>, ghost c0: map<int, int>, sorted: seq<Actor>, i: int, plan: Absorption,
                    space: int) returns (next: Absorption)
      requires Valid() && UniqueRids(a0) && 0 <= i < |sorted|
      requires plan == Absorb(Followers(a0, c0, sorted, allowedCache, settings)[..i], space)
      requires plan.absorbed < space && AbsorbedFrom(a0, c0, plan.taken)
      modifies this`counts, level
      ensures Valid() && level.nextRid == old(level.nextRid) && level.summons == old(level.summons)
      ensures next == Absorb(Followers(a0, c0, sorted, allowedCache, settings)[..i + 1], space)
      ensures AbsorbedFrom(a0, c0, next.taken)
    {
      AbsorbNext(a0, c0, sorted, i, space, allowedCache, settings);
      next := AbsorbOne(a0, c0, sorted[i], plan, space);
    }

    /** The absorption loop of `_scan_and_stack` over the sorted followers:
        it does what `Absorb` plans from the followers as they stand before
        the loop. Each absorbed follower loses its ledger entry and is
        removed; nothing else changes. */
    method AbsorbInto(sorted: seq<Actor>, space: int) returns (plan: Absorption)
      requires Valid()
      modifies this`counts, level
      ensures Valid()
      ensures plan == Absorb(Followers(old(level.actors), old(counts), sorted, allowedCache, settings), space)
      ensures level.nextRid == old(level.nextRid) && level.summons == old(level.summons)
      ensures AbsorbedFrom(old(level.actors), old(counts), plan.taken)
    {
      ghost var fs := Followers(level.actors, counts, sorted, allowedCache, settings);
      ghost var a0 := level.actors;
      ghost var c0 := counts;
      plan := Absorption([], 0);
      var i := 0;
      while i < |sorted| && plan.absorbed < space
        invariant 0 <= i <= |sorted|
        invariant Valid() && level.nextRid == old(level.nextRid)
        invariant plan == Absorb(fs[..i], space)
        invariant level.summons == old(level.summons) && AbsorbedFrom(a0, c0, plan.taken)
      {
        plan := AbsorbAt(a0, c0, sorted, i, plan, space);
        i := i + 1;
      }
      AbsorbSaturated(fs, i, space);
    }

    /** The absorption of a group into its chosen leader `l`: the followers
        are sorted by flat distance to the leader, then id, absorbed as
        `Absorb` plans within the space left under the cap, and the leader
        is promoted to its count plus what it absorbed. Without an
        absorption nothing changes. */
    method AbsorbAndPromote(l: Actor, rest: seq<Actor>) returns (plan: Absorption)
      requires Valid() && Find(level.actors, l.rid) == Some(l) && !l.baby
      requires CountOf(counts, l.rid) < settings.maxStackSize
      requires forall m :: m in rest ==> m.rid != l.rid
      modifies this`counts, level
      ensures Valid()
      ensures Evolves(old(level.actors), old(level.nextRid), level.actors) && level.nextRid == old(level.nextRid)
      ensures plan == GroupPlan(old(level.actors), old(counts), l, rest, allowedCache, settings)
      ensures plan.absorbed == 0 ==> counts == old(counts) && level.actors == old(level.actors)
      ensures plan.absorbed > 0 ==> CountOf(counts, l.rid) == CountOf(old(counts), l.rid) + plan.absorbed <= settings.maxStackSize
      ensures plan.absorbed == SumCounts(old(counts), plan.taken)
      ensures plan.absorbed > 0 ==> Find(level.actors, l.rid).Some? && IsLeader(Find(level.actors, l.rid).value)
      ensures forall x :: x in plan.taken ==> x !in counts && Find(level.actors, x).Some? && !Find(level.actors, x).value.valid
      ensures TouchedAtMost(old(level.actors), old(counts), level.actors, counts, old(level.nextRid), {l.rid} + (set x | x in plan.taken))
    {
      var lc := CountOf(counts, l.rid);
      ghost var a0 := level.actors;
      ghost var c0 := counts;
      plan := AbsorbGroup(l, rest);
      ghost var a1 := level.actors;
      ghost var c1 := counts;
      if plan.absorbed > 0 {
        PromoteAbsorber(l, lc + plan.absorbed, plan.taken);
        EvolvesTrans(a0, level.nextRid, a1, level.nextRid, level.actors);
      }
      AbsorbFrame(a0, c0, a1, c1, level.actors, counts, level.nextRid, plan.taken, l.rid);
    }

    /** The absorption half of `AbsorbAndPromote`: the followers of `l` are
        absorbed as `GroupPlan` plans, and the leader keeps its record and
        its count. */
    method AbsorbGroup(l: Actor, rest: seq<Actor>) returns (plan: Absorption)
      requires Valid() && Find(level.actors, l.rid) == Some(l)
      requires CountOf(counts, l.rid) < settings.maxStackSize
      requires forall m :: m in rest ==> m.rid != l.rid
      modifies this`counts, level
      ensures Valid()
      ensures Evolves(old(level.actors), old(level.nextRid), level.actors) && level.nextRid == old(level.nextRid)
      ensures plan == GroupPlan(old(level.actors), old(counts), l, rest, allowedCache, settings)
      ensures level.actors == KillAll(old(level.actors), plan.taken) && counts == RemoveAll(old(counts), plan.taken)
      ensures plan.absorbed == SumCounts(old(counts), plan.taken)
      ensures Find(level.actors, l.rid) == Some(l) && CountOf(counts, l.rid) == CountOf(old(counts), l.rid)
      ensures CountOf(counts, l.rid) + plan.absorbed <= settings.maxStackSize
      ensures forall x :: x in plan.taken ==>
                x != l.rid && x < level.nextRid && x !in counts
                && Find(level.actors, x).Some? && !Find(level.actors, x).value.valid
    {
      var lc := CountOf(counts, l.rid);
      var space := Max(0, settings.maxStackSize - lc);
      assert space == settings.maxStackSize - lc;
      ghost var a0 := level.actors;
      ghost var c0 := counts;
      ghost var p := GroupPlan(a0, c0, l, rest, allowedCache, settings);
      plan := AbsorbInto(SortFollowers(rest, l.pos), space);
      assert plan == p;
      assert level.actors == KillAll(a0, p.taken) && counts == RemoveAll(c0, p.taken);
      GroupPlanTaken(a0, c0, l, rest, allowedCache, settings, level.nextRid);
      GroupPlanConserves(a0, c0, l, rest, allowedCache, settings);
    }

    /** `_promote_leader(leader, leader_count + absorbed)` after an
        absorption: the leader is an adult, so it is promoted in place, and
        the absorbed followers stay removed and out of the ledger. */
    method PromoteAbsorber(l: Actor, total: int, ghost taken: seq<int>)
      requires Valid() && Find(level.actors, l.rid) == Some(l) && !l.baby
      requires 1 <= total <= settings.maxStackSize
      requires forall x :: x in taken ==> x != l.rid && x < level.nextRid && x !in counts
      requires forall x :: x in taken ==> Find(level.actors, x).Some? && !Find(level.actors, x).value.valid
      modifies this`counts, level
      ensures Valid()
      ensures Evolves(old(level.actors), level.nextRid, level.actors) && level.nextRid == old(level.nextRid)
      ensures CountOf(counts, l.rid) == total
      ensures Find(level.actors, l.rid).Some? && IsLeader(Find(level.actors, l.rid).value)
      ensures forall x :: x in taken ==> x !in counts && Find(level.actors, x).Some? && !Find(level.actors, x).value.valid
      ensures SameOutside(old(level.actors), old(level.nextRid), level.actors, l.rid)
      ensures SameOutsideIds(old(counts), counts, old(level.nextRid), l.rid)
    {
      FindMember(level.actors, l);
      var _ := PromoteLeader(l, total);
    }

    /** One turn of the grouping scan of `_scan_and_stack` for candidate
        `a` (its current record) with neighbours `nbrs`: a group too small,
        without an under-cap leader, or without room is only marked visited;
        otherwise the followers are absorbed into the chosen leader. What is
        absorbed, and the leader when something is, become visited; when
        nothing is, the whole group does. */
    method StackGroup(a: Actor, nbrs: seq<Actor>, r2: real, visited: set<int>) returns (seen: set<int>)
      requires Valid() && Find(level.actors, a.rid) == Some(a)
      modifies this`counts, level
      ensures Valid()
      ensures Evolves(old(level.actors), old(level.nextRid), level.actors) && level.nextRid == old(level.nextRid)
      ensures visited <= seen
      ensures counts == old(counts) && level.actors == old(level.actors) ==> a.rid in seen
      ensures var g := Group(a, nbrs, old(level.actors), visited, r2, allowedCache, settings, old(counts));
              |g| < settings.minGroup ==> counts == old(counts) && level.actors == old(level.actors) && seen == visited + Rids(g)
    {
      var group := Group(a, nbrs, level.actors, visited, r2, allowedCache, settings, counts);
      if |group| < settings.minGroup {
        return visited + Rids(group);
      }
      seen := StackChosen(group, visited);
      assert a.rid in Rids(group);
    }

    /** The second half of `StackGroup` for a group big enough to stack:
        the centroid leader, when there is one with room, absorbs the rest
        of the group; the ids seen are the absorbed ones and the leader's,
        or the whole group when nothing was absorbed. */
    method StackChosen(group: seq<Actor>, visited: set<int>) returns (seen: set<int>)
      requires Valid() && |group| >= 1 && forall x :: x in group ==> Find(level.actors, x.rid) == Some(x)
      modifies this`counts, level
      ensures Valid()
      ensures Evolves(old(level.actors), old(level.nextRid), level.actors) && level.nextRid == old(level.nextRid)
      ensures visited <= seen
      ensures counts == old(counts) && level.actors == old(level.actors) ==> seen == visited + Rids(group)
      ensures var ch := ChooseCentroidLeader(group, allowedCache, settings, old(counts));
              ch.None? || CountOf(old(counts), ch.value.rid) >= settings.maxStackSize ==>
                counts == old(counts) && level.actors == old(level.actors) && seen == visited + Rids(group)
      ensures var ch := ChooseCentroidLeader(group, allowedCache, settings, old(counts));
              ch.Some? && CountOf(old(counts), ch.value.rid) < settings.maxStackSize ==>
                var plan := GroupPlan(old(level.actors), old(counts), ch.value,
                                      Filter(group, (m: Actor) => m.rid != ch.value.rid), allowedCache, settings);
                (plan.absorbed > 0 ==>
                   CountOf(counts, ch.value.rid) == CountOf(old(counts), ch.value.rid) + plan.absorbed
                   && seen == visited + (set x | x in plan.taken) + {ch.value.rid}
                   && TouchedAtMost(old(level.actors), old(counts), level.actors, counts, old(level.nextRid),
                                    {ch.value.rid} + (set x | x in plan.taken)))
                && (plan.absorbed == 0 ==> counts == old(counts) && level.actors == old(level.actors) && seen == visited + Rids(group))
    {
      var leader := ChooseCentroidLeader(group, allowedCache, settings, counts);
      // without a leader, or whose leader has no room
      if leader.None? || Max(0, settings.maxStackSize - CountOf(counts, leader.value.rid)) <= 0 {
        return visited + Rids(group);
      }
      var l := leader.value;
      var rest := Filter(group, (m: Actor) => m.rid != l.rid);
      var plan := AbsorbAndPromote(l, rest);
      if plan.absorbed > 0 {
        seen := visited + (set x | x in plan.taken) + {l.rid};
      } else {
        seen := visited + Rids(group);
      }
    }

    /** `DefusedIn` on the current state. */
    ghost predicate Defused(rid: int)
      reads this, level
    {
      DefusedIn(level.actors, counts, lastFeedPop, breedCooldownUntil, rid)
    }

    /** The tail of `_defuse_tamed_leaders` for one tamed leader: its
        ledger, breed and feed entries are dropped, its leader tag removed
        and its name cleared. */
    method StripLeader(rid: int)
      requires Valid() && Find(level.actors, rid).Some?
      modifies this`counts, this`lastFeedPop, this`breedCooldownUntil, level
      ensures Valid() && Defused(rid)
      ensures Evolves(old(level.actors), level.nextRid, level.actors) && level.nextRid == old(level.nextRid)
      ensures counts == old(counts) - {rid}
      ensures lastFeedPop == old(lastFeedPop) - {rid} && breedCooldownUntil == old(breedCooldownUntil) - {rid}
      ensures forall x :: x != rid ==> Find(level.actors, x) == Find(old(level.actors), x)
      ensures TouchedAtMost(old(level.actors), old(counts), level.actors, counts, old(level.nextRid), {rid})
    {
      counts := counts - {rid};
      breedCooldownUntil := breedCooldownUntil - {rid};
      lastFeedPop := lastFeedPop - {rid};
      StripTags(rid);
    }

    /** The tag and name half of `StripLeader`. */
    method StripTags(rid: int)
      requires Valid() && Find(level.actors, rid).Some?
      modifies level
      ensures Valid()
      ensures Evolves(old(level.actors), level.nextRid, level.actors) && level.nextRid == old(level.nextRid)
      ensures Find(level.actors, rid) == Some(old(Find(level.actors, rid)).value.(tags := old(Find(level.actors, rid)).value.tags - {StackTag}, name := ""))
      ensures forall x :: x != rid ==> Find(level.actors, x) == Find(old(level.actors), x)
    {
      ghost var a0 := level.actors;
      ghost var r0 := Find(a0, rid).value;
      level.Change(rid, RemoveTag(StackTag));
      ghost var a1 := level.actors;
      assert Find(a1, rid) == Some(r0.(tags := r0.tags - {StackTag}));
      level.Change(rid, Rename(""));
      EvolvesTrans(a0, level.nextRid, a1, level.nextRid, level.actors);
    }

    /** `_defuse_tamed_leaders` for one tamed leader `a` (its current
        record) and the untamed adult candidates `nbrs` of its type around
        it: the live candidate horizontally nearest to `a` is promoted with
        `min(count of a, cap)`; then `a` is stripped. Every other tamed
        entity keeps its record and its ledger presence. */
    method DefuseOne(a: Actor, nbrs: seq<Actor>) returns (best: Option<Actor>)
      requires Valid() && Find(level.actors, a.rid) == Some(a) && a.tamed
      requires forall m :: m in nbrs ==> Find(level.actors, m.rid).Some? && !Find(level.actors, m.rid).value.tamed
                                         && !Find(level.actors, m.rid).value.baby
      modifies this`counts, this`lastFeedPop, this`breedCooldownUntil, level
      ensures Valid() && Defused(a.rid)
      ensures Evolves(old(level.actors), old(level.nextRid), level.actors) && level.nextRid == old(level.nextRid)
      ensures lastFeedPop.Keys <= old(lastFeedPop).Keys && breedCooldownUntil.Keys <= old(breedCooldownUntil).Keys
      ensures best == NearestLive(nbrs, old(level.actors), a.pos)
      ensures best.Some? ==> best.value.rid != a.rid
                             && CountOf(counts, best.value.rid) == Min(CountOf(old(counts), a.rid), settings.maxStackSize)
                             && Find(level.actors, best.value.rid).Some? && IsLeader(Find(level.actors, best.value.rid).value)
      ensures TamedKept(old(level.actors), old(counts), level.actors, counts, old(level.nextRid), a.rid)
      ensures best.Some? ==> best.value in nbrs
      ensures lastFeedPop == old(lastFeedPop) - {a.rid} && breedCooldownUntil == old(breedCooldownUntil) - {a.rid}
      ensures TouchedAtMost(old(level.actors), old(counts), level.actors, counts, old(level.nextRid), {a.rid, RidOr(best, a.rid)})
    {
      best := HandOver(a, nbrs);
      ghost var a1, c1 := level.actors, counts;
      StripLeader(a.rid);
      EvolvesTrans(old(level.actors), old(level.nextRid), a1, level.nextRid, level.actors);
      HandOverThenStrip(old(level.actors), old(counts), a1, c1, level.actors, counts, level.nextRid, a.rid, RidOr(best, a.rid));
    }

    /** The promotion half of `DefuseOne`: the recipient is never `a`, since
        it is untamed, and only it changes. */
    method HandOver(a: Actor, nbrs: seq<Actor>) returns (best: Option<Actor>)
      requires Valid() && Find(level.actors, a.rid) == Some(a) && a.tamed
      requires forall m :: m in nbrs ==> Find(level.actors, m.rid).Some? && !Find(level.actors, m.rid).value.tamed
                                         && !Find(level.actors, m.rid).value.baby
      modifies this`counts, level
      ensures Valid() && best == NearestLive(nbrs, old(level.actors), a.pos)
      ensures Evolves(old(level.actors), old(level.nextRid), level.actors) && level.nextRid == old(level.nextRid)
      ensures Find(level.actors, a.rid) == Some(a) && CountOf(counts, a.rid) == CountOf(old(counts), a.rid)
      ensures best.Some? ==> best.value.rid != a.rid
                             && CountOf(counts, best.value.rid) == Min(CountOf(old(counts), a.rid), settings.maxStackSize)
                             && Find(level.actors, best.value.rid).Some? && IsLeader(Find(level.actors, best.value.rid).value)
      ensures best.None? ==> counts == old(counts) && level.actors == old(level.actors)
      ensures TamedKept(old(level.actors), old(counts), level.actors, counts, old(level.nextRid), a.rid)
      ensures best.Some? ==> SameOutside(old(level.actors), old(level.nextRid), level.actors, best.value.rid)
                             && SameOutsideIds(old(counts), counts, old(level.nextRid), best.value.rid)
      ensures TouchedAtMost(old(level.actors), old(counts), level.actors, counts, old(level.nextRid), {RidOr(best, a.rid)})
    {
      best := NearestLive(nbrs, level.actors, a.pos);
      if best.Some? {
        var cur := Find(level.actors, best.value.rid).value;
        FindBelow(level.actors, level.nextRid, a.rid);
        var _ := PromoteLeader(cur, Min(CountOf(counts, a.rid), settings.maxStackSize));
      }
    }

    /** `_defuse_tamed_leaders`: when tamed mobs are ignored, every live
        tamed leader hands its count to the nearest untamed, eligible,
        under-cap candidate of its type in the cells around it (when there is
        one) and is stripped of its tag, name and ledger entries. */
    method DefuseTamedLeaders()
      requires Valid()
      modifies this`counts, this`lastFeedPop, this`breedCooldownUntil, level
      ensures Valid()
      ensures Evolves(old(level.actors), old(level.nextRid), level.actors) && level.nextRid == old(level.nextRid)
      ensures !settings.ignoreTamed ==> counts == old(counts) && level.actors == old(level.actors)
                                        && lastFeedPop == old(lastFeedPop) && breedCooldownUntil == old(breedCooldownUntil)
      ensures settings.ignoreTamed ==> forall x :: TamedLeader(old(level.actors), x) ==> Defused(x)
      ensures settings.ignoreTamed ==>
                forall x :: x < old(level.nextRid) && !TamedLeader(old(level.actors), x)
                            && !HandoverCandidate(old(level.actors), allowedCache, settings, old(counts), x) ==>
                  Find(level.actors, x) == Find(old(level.actors), x)
                  && (x in counts <==> x in old(counts)) && (x in counts ==> counts[x] == old(counts)[x])
      ensures settings.ignoreTamed ==>
                LostTamedLeaders(old(lastFeedPop), lastFeedPop, old(level.actors))
                && LostTamedLeaders(old(breedCooldownUntil), breedCooldownUntil, old(level.actors))
    {
      if !settings.ignoreTamed {
        return;
      }
      var cell := if settings.radius > 0.0 then settings.radius else 4.0;
      var acts := Filter(level.actors, (a: Actor) => LiveMob(a));
      ghost var a0 := level.actors;
      ghost var n0 := level.nextRid;
      forall x | TamedLeader(a0, x) ensures exists j :: 0 <= j < |acts| && acts[j].rid == x && acts[j].tamed && IsLeader(acts[j]) {
        var r := Find(a0, x).value;
        assert r in acts;
      }
      if !exists a :: a in acts && IsLeader(a) && a.tamed {
        return;
      }
      forall j | 0 <= j < |acts|
        ensures Find(a0, acts[j].rid) == Some(acts[j]) && acts[j].rid < level.nextRid && LiveMob(acts[j])
      {
        assert acts[j] in acts;
        FindMember(a0, acts[j]);
        FindBelow(a0, level.nextRid, acts[j].rid);
      }
      DefuseLive(acts, cell);
    }

    /** `_defuse_tamed_leaders` once the live mobs `acts` are listed: the
        candidate pool and its type index are built, and every listed tamed
        leader is defused. Only tamed leaders and pooled candidates change. */
    method DefuseLive(acts: seq<Actor>, cell: real)
      requires Valid() && UniqueRids(acts)
      requires forall j :: 0 <= j < |acts| ==>
                 Find(level.actors, acts[j].rid) == Some(acts[j]) && acts[j].rid < level.nextRid && LiveMob(acts[j])
      requires forall x :: TamedLeader(level.actors, x) ==>
                 exists j :: 0 <= j < |acts| && acts[j].rid == x && acts[j].tamed && IsLeader(acts[j])
      modifies this`counts, this`lastFeedPop, this`breedCooldownUntil, level
      ensures Valid()
      ensures Evolves(old(level.actors), old(level.nextRid), level.actors) && level.nextRid == old(level.nextRid)
      ensures forall x :: TamedLeader(old(level.actors), x) ==> Defused(x)
      ensures forall x :: x < old(level.nextRid) && !TamedLeader(old(level.actors), x)
                          && !HandoverCandidate(old(level.actors), allowedCache, settings, old(counts), x) ==>
                Find(level.actors, x) == Find(old(level.actors), x)
                && (x in counts <==> x in old(counts)) && (x in counts ==> counts[x] == old(counts)[x])
      ensures LostTamedLeaders(old(lastFeedPop), lastFeedPop, old(level.actors))
      ensures LostTamedLeaders(old(breedCooldownUntil), breedCooldownUntil, old(level.actors))
    {
      ghost var a0 := level.actors;
      var cache, s, c := allowedCache, settings, counts;
      var pool := Filter(acts, (m: Actor) => !m.tamed && EligibleBasic(m, cache, s, c, true, false));
      var index := BuildTypeIndex(pool, cell);
      PooledCandidates(a0, acts, pool, cache, s, c);
      DefuseListed(acts, pool, index, cell);
      AllTamedDefused(a0, acts, level.actors, counts, lastFeedPop, breedCooldownUntil);
      DefusalFrame(a0, c, old(lastFeedPop), old(breedCooldownUntil), old(level.nextRid), acts, pool, cache, s,
                   level.actors, counts, lastFeedPop, breedCooldownUntil);
    }

    /** The loop of `_defuse_tamed_leaders` over the listed live mobs: each
        tamed leader among them is defused, around the type index `index` of
        the untamed adult candidates `pool`. */
    method DefuseListed(acts: seq<Actor>, pool: seq<Actor>, index: TypeIndex, cell: real)
      requires Valid() && UniqueRids(acts) && IsTypeIndex(index, pool, cell)
      requires forall m :: m in pool ==> Find(level.actors, m.rid) == Some(m) && !m.tamed && !m.baby
      requires forall j :: 0 <= j < |acts| ==> Find(level.actors, acts[j].rid) == Some(acts[j]) && acts[j].rid < level.nextRid
      modifies this`counts, this`lastFeedPop, this`breedCooldownUntil, level
      ensures Valid()
      ensures Evolves(old(level.actors), old(level.nextRid), level.actors) && level.nextRid == old(level.nextRid)
      ensures forall j :: 0 <= j < |acts| && acts[j].tamed && IsLeader(acts[j]) ==> Defused(acts[j].rid)
      ensures TouchedAtMost(old(level.actors), old(counts), level.actors, counts, old(level.nextRid),
                            TamedLeadersBefore(acts, |acts|) + Rids(pool))
      ensures lastFeedPop == old(lastFeedPop) - TamedLeadersBefore(acts, |acts|)
      ensures breedCooldownUntil == old(breedCooldownUntil) - TamedLeadersBefore(acts, |acts|)
    {
      ghost var a0 := level.actors;
      ghost var n0 := level.nextRid;
      ghost var c0, f0, b0 := counts, lastFeedPop, breedCooldownUntil;
      ghost var touched := TamedLeadersBefore(acts, |acts|) + Rids(pool);
      assert TamedLeadersBefore(acts, 0) == {};
      for i := 0 to |acts|
        invariant Valid() && Evolves(a0, n0, level.actors) && level.nextRid == n0
        invariant TamedUntouched(acts, i) && DefusedBefore(acts, i)
        invariant DefuseFrameIn(a0, c0, f0, b0, n0, touched, acts, i, level.actors, counts, lastFeedPop, breedCooldownUntil)
      {
        DefuseAt(acts, i, pool, index, cell, a0, n0, c0, f0, b0, touched);
      }
    }

    /** The tamed mobs listed from `i` on still have the records listed. */
    ghost predicate TamedUntouched(acts: seq<Actor>, i: int)
      reads this, level
    {
      TamedUntouchedIn(level.actors, acts, i)
    }

    /** The tamed leaders listed before `i` are defused. */
    ghost predicate DefusedBefore(acts: seq<Actor>, i: int)
      reads this, level
    {
      DefusedBeforeIn(level.actors, counts, lastFeedPop, breedCooldownUntil, acts, i)
    }

    /** Turn `i` of the defusal loop, with the frame of the loop so far:
        only ids of `ids` have changed since the loop began, and the feed and
        breed maps have lost exactly the tamed leaders listed so far. */
    method DefuseAt(acts: seq<Actor>, i: int, pool: seq<Actor>, index: TypeIndex, cell: real,
                    ghost a0: seq<Actor>, ghost n0: int, ghost c0: map<int, int>, ghost f0: map<int, int>,
                    ghost b0: map<int, int>, ghost ids: set<int>)
      requires Valid() && UniqueRids(acts) && IsTypeIndex(index, pool, cell) && 0 <= i < |acts|
      requires UniqueRids(a0) && Evolves(a0, n0, level.actors) && level.nextRid == n0
      requires forall m :: m in pool ==> Find(a0, m.rid) == Some(m) && !m.tamed && !m.baby
      requires forall j :: 0 <= j < |acts| ==> acts[j].rid < n0
      requires TamedUntouched(acts, i) && DefusedBefore(acts, i)
      requires ids == TamedLeadersBefore(acts, |acts|) + Rids(pool)
      requires DefuseFrameIn(a0, c0, f0, b0, n0, ids, acts, i, level.actors, counts, lastFeedPop, breedCooldownUntil)
      modifies this`counts, this`lastFeedPop, this`breedCooldownUntil, level
      ensures Valid() && Evolves(a0, n0, level.actors) && level.nextRid == n0
      ensures TamedUntouched(acts, i + 1) && DefusedBefore(acts, i + 1)
      ensures DefuseFrameIn(a0, c0, f0, b0, n0, ids, acts, i + 1, level.actors, counts, lastFeedPop, breedCooldownUntil)
    {
      ghost var a1, c1, f1, b1 := level.actors, counts, lastFeedPop, breedCooldownUntil;
      ghost var step := DefuseTurn(acts, i, pool, index, cell, a0, n0);
      DefuseFrameStep(a0, c0, f0, b0, n0, ids, acts, i, a1, c1, f1, b1, level.actors, counts, lastFeedPop, breedCooldownUntil, step);
    }

    /** One turn of the defusal loop: a listed tamed leader is defused, and
        only it and its recipient, a pooled candidate, change. */
    method DefuseTurn(acts: seq<Actor>, i: int, pool: seq<Actor>, index: TypeIndex, cell: real,
                      ghost a0: seq<Actor>, ghost n0: int) returns (ghost step: set<int>)
      requires Valid() && UniqueRids(acts) && IsTypeIndex(index, pool, cell) && 0 <= i < |acts|
      requires UniqueRids(a0) && Evolves(a0, n0, level.actors) && level.nextRid == n0
      requires forall m :: m in pool ==> Find(a0, m.rid) == Some(m) && !m.tamed && !m.baby
      requires forall j :: 0 <= j < |acts| ==> acts[j].rid < n0
      requires TamedUntouched(acts, i) && DefusedBefore(acts, i)
      modifies this`counts, this`lastFeedPop, this`breedCooldownUntil, level
      ensures Valid() && Evolves(a0, n0, level.actors) && level.nextRid == n0
      ensures TamedUntouched(acts, i + 1) && DefusedBefore(acts, i + 1)
      ensures step <= TamedLeadersBefore(acts, |acts|) + Rids(pool)
      ensures TouchedAtMost(old(level.actors), old(counts), level.actors, counts, n0, step)
      ensures lastFeedPop == old(lastFeedPop) - TamedLeaderAt(acts, i)
      ensures breedCooldownUntil == old(breedCooldownUntil) - TamedLeaderAt(acts, i)
    {
      // The leader test reads the live record and the tamed test does not
      // change; a tamed record is still the one listed.
      if !(acts[i].tamed && IsLeader(acts[i])) {
        assert lastFeedPop - {} == lastFeedPop && breedCooldownUntil - {} == breedCooldownUntil;
        return {};
      }
      step := DefuseListedLeader(acts, i, pool, index, cell, a0, n0);
    }

    /** `DefuseTurn` for a listed tamed leader. */
    method DefuseListedLeader(acts: seq<Actor>, i: int, pool: seq<Actor>, index: TypeIndex, cell: real,
                              ghost a0: seq<Actor>, ghost n0: int) returns (ghost step: set<int>)
      requires Valid() && UniqueRids(acts) && IsTypeIndex(index, pool, cell) && 0 <= i < |acts|
      requires acts[i].tamed && IsLeader(acts[i])
      requires UniqueRids(a0) && Evolves(a0, n0, level.actors) && level.nextRid == n0
      requires forall m :: m in pool ==> Find(a0, m.rid) == Some(m) && !m.tamed && !m.baby
      requires forall j :: 0 <= j < |acts| ==> acts[j].rid < n0
      requires TamedUntouched(acts, i) && DefusedBefore(acts, i)
      modifies this`counts, this`lastFeedPop, this`breedCooldownUntil, level
      ensures Valid() && Evolves(a0, n0, level.actors) && level.nextRid == n0
      ensures TamedUntouched(acts, i + 1) && DefusedBefore(acts, i + 1)
      ensures step <= TamedLeadersBefore(acts, |acts|) + Rids(pool)
      ensures TouchedAtMost(old(level.actors), old(counts), level.actors, counts, n0, step)
      ensures lastFeedPop == old(lastFeedPop) - {acts[i].rid}
      ensures breedCooldownUntil == old(breedCooldownUntil) - {acts[i].rid}
    {
      var a := acts[i];
      var nbrs := Neighbors(IndexGet(index, NormalizeId(a.typ)), a, cell);
      EvolvesKeeps(a0, n0, level.actors);
      forall m | m in nbrs
        ensures Find(level.actors, m.rid).Some? && !Find(level.actors, m.rid).value.tamed && !Find(level.actors, m.rid).value.baby
      {
        IndexedFrom(index, pool, cell, NormalizeId(a.typ), a, m);
      }
      ghost var before := level.actors;
      ghost var c0, f0, b0 := counts, lastFeedPop, breedCooldownUntil;
      var best := DefuseOne(a, nbrs);
      step := {a.rid, RidOr(best, a.rid)};
      if best.Some? {
        IndexedFrom(index, pool, cell, NormalizeId(a.typ), a, best.value);
      }
      assert a.rid in TamedLeadersBefore(acts, |acts|);
      EvolvesFind(before, n0, level.actors, a.rid);
      EvolvesTrans(a0, n0, before, n0, level.actors);
      DefuseStep(acts, i, before, c0, f0, b0, level.actors, counts, lastFeedPop, breedCooldownUntil, n0);
    }

    /** One entry of the pending drain in `_scan_and_stack`: summon at the
        centre of the queued block; when the summon is accepted and a mob
        is resolved there (by diff against an empty snapshot, else nearby),
        it is promoted with `min(remaining, cap)` and the key leaves the
        queue. Otherwise nothing but the summon script changes. */
    method DrainOne(e: Entry) returns (found: bool, leader: Option<int>)
      requires Valid()
      modifies this`counts, this`pending, level
      ensures Valid()
      ensures Evolves(old(level.actors), old(level.nextRid), level.actors) && level.nextRid >= old(level.nextRid)
      ensures found ==> pending == Pop(old(pending), e.key)
      ensures !found ==> pending == old(pending) && counts == old(counts)
      ensures old(level.summons) == [] ==> !found && level.actors == old(level.actors)
      ensures leader.Some? ==> found && CountOf(counts, leader.value) == Clamp(Min(e.n, settings.maxStackSize), settings.maxStackSize)
                               && Find(level.actors, leader.value).Some? && IsLeader(Find(level.actors, leader.value).value)
      ensures found ==> exists id :: TouchedOnly(old(level.actors), old(counts), level.actors, counts, old(level.nextRid), id)
      ensures !found ==> level.actors == AfterSummon(old(level.actors), old(level.summons), old(level.nextRid),
                                                     e.key.typ, e.key.dim, CenterOf(e.key.block))
    {
      var c := CenterOf(e.key.block);
      var ok := level.Summon(e.key.typ, e.key.dim, c);
      if !ok {
        return false, None;
      }
      found, leader := PromoteDrained(e, c, old(level.actors), old(level.nextRid));
    }

    /** The second half of `DrainOne`, after an accepted summon at `c` on
        level `a0`: the mob resolved there, if any, is promoted and the key
        leaves the queue; otherwise nothing changes. */
    method PromoteDrained(e: Entry, c: Pos, ghost a0: seq<Actor>, ghost n0: int) returns (found: bool, leader: Option<int>)
      requires Valid() && Evolves(a0, n0, level.actors) && n0 <= level.nextRid
      requires forall x :: x < n0 ==> Find(level.actors, x) == Find(a0, x)
      modifies this`counts, this`pending, level
      ensures Valid()
      ensures Evolves(a0, n0, level.actors) && level.nextRid >= old(level.nextRid)
      ensures found ==> pending == Pop(old(pending), e.key)
      ensures !found ==> pending == old(pending) && counts == old(counts) && level.actors == old(level.actors)
      ensures leader.Some? ==> found && CountOf(counts, leader.value) == Clamp(Min(e.n, settings.maxStackSize), settings.maxStackSize)
                               && Find(level.actors, leader.value).Some? && IsLeader(Find(level.actors, leader.value).value)
      ensures found ==> exists id :: TouchedOnly(a0, old(counts), level.actors, counts, n0, id)
    {
      var nb := FindNewbornByDiff(level.actors, e.key.typ, e.key.dim, c, {});
      if nb.None? {
        nb := FindSameBlockOrNear(level.actors, e.key.typ, e.key.dim, c, {});
      }
      if nb.None? {
        return false, None;
      }
      ghost var a1, n1 := level.actors, level.nextRid;
      leader := PromoteLeader(nb.value, Min(e.n, settings.maxStackSize));
      EvolvesTrans(a0, n0, a1, n1, level.actors);
      TouchedOnlyWiden(a0, a1, level.actors, old(counts), counts, n0, n1, nb.value.rid);
      pending := Pop(pending, e.key);
      found := true;
    }

    /** The pending drain of `_scan_and_stack`: the first eight queued
        entries are tried in order. A key only ever leaves the queue, and
        only a key of that batch; every amount still queued is unchanged. */
    method DrainPending()
      requires Valid()
      modifies this`counts, this`pending, level
      ensures Valid()
      ensures Evolves(old(level.actors), old(level.nextRid), level.actors) && level.nextRid >= old(level.nextRid)
      ensures forall k :: HasKey(pending, k) ==> HasKey(old(pending), k) && Get(pending, k) == Get(old(pending), k)
      ensures forall k :: HasKey(old(pending), k) && !HasKey(DrainBatch(old(pending)), k) ==> HasKey(pending, k)
    {
      ghost var a0, n0, p0 := level.actors, level.nextRid, pending;
      var batch := DrainBatch(pending);
      for i := 0 to |batch|
        invariant Valid() && Evolves(a0, n0, level.actors) && level.nextRid >= n0
        invariant forall k :: HasKey(pending, k) ==> HasKey(p0, k) && Get(pending, k) == Get(p0, k)
        invariant forall k :: HasKey(p0, k) && !HasKey(batch[..i], k) ==> HasKey(pending, k)
      {
        ghost var a1, n1, p1 := level.actors, level.nextRid, pending;
        var _, _ := DrainOne(batch[i]);
        EvolvesTrans(a0, n0, a1, n1, level.actors);
        forall k | HasKey(p0, k) && !HasKey(batch[..i + 1], k) ensures HasKey(pending, k) {
          assert !HasKey(batch[..i], k) by {
            forall j | 0 <= j < i ensures batch[..i][j].key != k {
              assert batch[..i + 1][j] == batch[..i][j];
            }
          }
          assert batch[i].key != k by {
            assert batch[..i + 1][i] == batch[i];
          }
          assert HasKey(p1, k);
        }
      }
      assert batch[..|batch|] == batch;
    }

    /** The grouping loop of `_scan_and_stack`: every candidate not yet
        visited forms a group with its unvisited neighbours from the 27
        cells around it, which `StackGroup` stacks. */
    method GroupAll(candidates: seq<Actor>, buckets: map<CellKey, seq<Actor>>, cell: real, r2: real)
      requires Valid() && forall c :: c in candidates ==> c.rid < level.nextRid
      requires forall c :: c in candidates ==> Find(level.actors, c.rid).Some?
      modifies this`counts, level
      ensures Valid()
      ensures Evolves(old(level.actors), old(level.nextRid), level.actors) && level.nextRid == old(level.nextRid)
    {
      ghost var a0, n0 := level.actors, level.nextRid;
      var visited: set<int> := {};
      for i := 0 to |candidates|
        invariant Valid() && Evolves(a0, n0, level.actors) && level.nextRid == n0
      {
        var c := candidates[i];
        if c.rid !in visited {
          EvolvesFind(a0, n0, level.actors, c.rid);
          var cur := Find(level.actors, c.rid).value;
          ghost var a1 := level.actors;
          visited := StackGroup(cur, Neighbors(buckets, c, cell), r2, visited);
          EvolvesTrans(a0, n0, a1, n0, level.actors);
        }
      }
    }

    /** The merge step of `_pairwise_merge_fastpath_bucketed` for two
        leaders whose counts fit the cap together: the pair's centroid
        leader (or `a` when none qualifies) keeps the sum of both counts,
        and the other one is removed with its ledger entry. Every other
        entity and count is untouched. */
    method MergePair(a: Actor, b: Actor) returns (leader: Actor, source: Actor)
      requires Valid() && Find(level.actors, a.rid) == Some(a) && Find(level.actors, b.rid) == Some(b)
      requires a.rid != b.rid && !a.baby && !b.baby
      requires CountOf(counts, a.rid) + CountOf(counts, b.rid) <= settings.maxStackSize
      modifies this`counts, level
      ensures Valid()
      ensures Evolves(old(level.actors), old(level.nextRid), level.actors) && level.nextRid == old(level.nextRid)
      ensures (leader == a && source == b) || (leader == b && source == a)
      ensures IsLeader(a) && IsLeader(b) ==> leader == a && source == b
      ensures MergedInto(old(level.actors), old(counts), level.actors, counts, level.nextRid, leader, source,
                         old(CountOf(counts, a.rid) + CountOf(counts, b.rid)))
    {
      var chosen := ChooseCentroidLeaderAsWritten([a, b], allowedCache, settings, counts);
      leader := if chosen.Some? then chosen.value else a;
      source := if leader.rid == a.rid then b else a;
      MergeInto(leader, source);
    }

    /** The two halves of a merge: the source loses its entry and is
        removed, then the leader is promoted with the sum of both counts. */
    method MergeInto(leader: Actor, source: Actor)
      requires Valid() && Find(level.actors, leader.rid) == Some(leader) && Find(level.actors, source.rid) == Some(source)
      requires leader.rid != source.rid && !leader.baby
      requires CountOf(counts, leader.rid) + CountOf(counts, source.rid) <= settings.maxStackSize
      modifies this`counts, level
      ensures Valid()
      ensures Evolves(old(level.actors), old(level.nextRid), level.actors) && level.nextRid == old(level.nextRid)
      ensures MergedInto(old(level.actors), old(counts), level.actors, counts, level.nextRid, leader, source,
                         old(CountOf(counts, leader.rid) + CountOf(counts, source.rid)))
    {
      var total := CountOf(counts, leader.rid) + CountOf(counts, source.rid);
      FindBelow(level.actors, level.nextRid, source.rid);
      KillSource(source.rid);
      ghost var a1, c1 := level.actors, counts;
      assert Find(a1, leader.rid) == Some(leader);
      PromoteMerged(leader, total);
      EvolvesTrans(old(level.actors), level.nextRid, a1, level.nextRid, level.actors);
      MergeSteps(old(level.actors), old(counts), a1, c1, level.actors, counts, level.nextRid, leader, source, total);
    }

    /** `_promote_leader(leader, total)` for an adult leader and a total
        within the cap: promoted in place with exactly that count. */
    method PromoteMerged(leader: Actor, total: int)
      requires Valid() && Find(level.actors, leader.rid) == Some(leader) && !leader.baby
      requires 1 <= total <= settings.maxStackSize
      modifies this`counts, level
      ensures Valid()
      ensures Evolves(old(level.actors), old(level.nextRid), level.actors) && level.nextRid == old(level.nextRid)
      ensures CountOf(counts, leader.rid) == total
      ensures Find(level.actors, leader.rid).Some? && IsLeader(Find(level.actors, leader.rid).value)
      ensures SameOutside(old(level.actors), level.nextRid, level.actors, leader.rid)
      ensures SameOutsideIds(old(counts), counts, level.nextRid, leader.rid)
    {
      FindMember(level.actors, leader);
      var promoted := PromoteLeader(leader, total);
    }

    /** `self._counts.pop(source)` and `source.remove()`. */
    method KillSource(rid: int)
      requires Valid()
      modifies this`counts, level
      ensures Valid()
      ensures Evolves(old(level.actors), old(level.nextRid), level.actors) && level.nextRid == old(level.nextRid)
      ensures counts == old(counts) - {rid}
      ensures forall x :: x != rid ==> Find(level.actors, x) == Find(old(level.actors), x)
      ensures Find(old(level.actors), rid).Some? ==>
                Find(level.actors, rid) == Some(Apply(Find(old(level.actors), rid).value, Kill))
    {
      counts := counts - {rid};
      level.Change(rid, Kill);
    }

    /** `_pairwise_merge_fastpath_bucketed`: the live under-cap leaders are
        bucketed by cell; each one not used yet and under the cap is paired
        with its partner (see `FastPartner`), looking at no more than
        `MaxFastPairChecks` entries in all; each pair merges, and both
        become used. Without a merge nothing changes; entities outside the
        pool are never touched. */
    method PairwiseMergeFastpath(mobs: seq<Actor>, cell: real, r2: real) returns (changed: bool, checks: int)
      requires Valid() && forall m :: m in mobs ==> Find(level.actors, m.rid) == Some(m)
      modifies this`counts, level
      ensures Valid()
      ensures Evolves(old(level.actors), old(level.nextRid), level.actors) && level.nextRid == old(level.nextRid)
      ensures 0 <= checks <= MaxFastPairChecks
      ensures !changed ==> counts == old(counts) && level.actors == old(level.actors)
      ensures UntouchedOutside(old(level.actors), old(counts), level.actors, counts, level.nextRid,
                               Rids(FastPool(mobs, allowedCache, settings, old(counts))))
    {
      changed, checks := false, 0;
      var pool := FastPool(mobs, allowedCache, settings, counts);
      ghost var a0, c0, n0 := level.actors, counts, level.nextRid;
      ghost var ids := Rids(pool);
      assert ids == Rids(FastPool(mobs, allowedCache, settings, old(counts)));
      if pool == [] {
        UntouchedOutsideRefl(a0, c0, n0, ids);
        return;
      }
      var buckets := BuildBuckets(pool, cell);
      UntouchedOutsideRefl(a0, c0, n0, ids);
      changed, checks := FastPairs(pool, buckets, cell, r2);
    }

    /** The loop of the fast path over the pool leaders in order: each one
        not yet used takes a turn, and the loop stops once a merge has
        happened with the check budget spent. */
    method FastPairs(pool: seq<Actor>, buckets: map<CellKey, seq<Actor>>, cell: real, r2: real)
      returns (changed: bool, checks: int)
      requires Valid() && IsBucketing(buckets, pool, cell) && forall m :: m in pool ==> !m.baby && IsLeader(m)
      requires PoolCurrent(level.actors, pool, {})
      modifies this`counts, level
      ensures Valid()
      ensures Evolves(old(level.actors), old(level.nextRid), level.actors) && level.nextRid == old(level.nextRid)
      ensures 0 <= checks <= MaxFastPairChecks
      ensures !changed ==> counts == old(counts) && level.actors == old(level.actors)
      ensures UntouchedOutside(old(level.actors), old(counts), level.actors, counts, level.nextRid, Rids(pool))
    {
      changed, checks := false, 0;
      ghost var a0, c0, n0 := level.actors, counts, level.nextRid;
      UntouchedOutsideRefl(a0, c0, n0, Rids(pool));
      var used: set<int> := {};
      for i := 0 to |pool|
        invariant Valid() && Evolves(a0, n0, level.actors) && level.nextRid == n0
        invariant 0 <= checks <= MaxFastPairChecks
        invariant !changed ==> counts == c0 && level.actors == a0
        invariant PoolCurrent(level.actors, pool, used) && UntouchedOutside(a0, c0, level.actors, counts, n0, Rids(pool))
      {
        var a := pool[i];
        if a.rid !in used {
          ghost var a1 := level.actors;
          var merged;
          used, checks, merged := FastPairTurn(a0, c0, pool, buckets, cell, r2, a, used, checks);
          EvolvesTrans(a0, n0, a1, n0, level.actors);
          changed := changed || merged;
          if merged && checks >= MaxFastPairChecks {
            break;
          }
        }
      }
    }

    /** One turn of the fast path for pool leader `a`: when it is under the
        cap and has a partner, the two merge and both become used. */
    method FastPairTurn(ghost a0: seq<Actor>, ghost c0: map<int, int>, pool: seq<Actor>,
                        buckets: map<CellKey, seq<Actor>>, cell: real, r2: real, a: Actor,
                        used: set<int>, checks: int) returns (used': set<int>, checks': int, merged: bool)
      requires Valid() && IsBucketing(buckets, pool, cell) && 0 <= checks <= MaxFastPairChecks
      requires a in pool && a.rid !in used && forall m :: m in pool ==> !m.baby && IsLeader(m)
      requires PoolCurrent(level.actors, pool, used)
      requires UntouchedOutside(a0, c0, level.actors, counts, level.nextRid, Rids(pool))
      modifies this`counts, level
      ensures Valid()
      ensures Evolves(old(level.actors), old(level.nextRid), level.actors) && level.nextRid == old(level.nextRid)
      ensures checks <= checks' <= MaxFastPairChecks
      ensures !merged ==> counts == old(counts) && level.actors == old(level.actors) && used' == used
      ensures merged ==> MergedWithPartner(old(level.actors), old(counts), level.actors, counts, level.nextRid,
                                           pool, used, used', a)
      ensures PoolCurrent(level.actors, pool, used')
      ensures UntouchedOutside(a0, c0, level.actors, counts, level.nextRid, Rids(pool))
    {
      used', checks', merged := used, checks, false;
      var ca := CountOf(counts, a.rid);
      if ca >= settings.maxStackSize {
        return;
      }
      var best, n := FastPartner(a, pool, buckets, cell, r2, used, checks);
      checks' := checks + n;
      if best.None? {
        return;
      }
      used' := FastMerge(a0, c0, pool, a, best.value, used);
      merged := true;
    }

    /** The merge of a fast-path pair of unused pool leaders: both become
        used, the other unused pool leaders keep their record and nothing
        outside the pool changes. */
    method FastMerge(ghost a0: seq<Actor>, ghost c0: map<int, int>, pool: seq<Actor>, a: Actor, b: Actor,
                     used: set<int>) returns (used': set<int>)
      requires Valid() && a in pool && b in pool && a.rid !in used && b.rid !in used && a.rid != b.rid
      requires !a.baby && !b.baby
      requires CountOf(counts, a.rid) + CountOf(counts, b.rid) <= settings.maxStackSize
      requires PoolCurrent(level.actors, pool, used)
      requires UntouchedOutside(a0, c0, level.actors, counts, level.nextRid, Rids(pool))
      modifies this`counts, level
      ensures Valid()
      ensures Evolves(old(level.actors), old(level.nextRid), level.actors) && level.nextRid == old(level.nextRid)
      ensures used' == used + {a.rid, b.rid}
      ensures IsLeader(a) && IsLeader(b) ==>
                MergedInto(old(level.actors), old(counts), level.actors, counts, level.nextRid, a, b,
                           old(CountOf(counts, a.rid) + CountOf(counts, b.rid)))
                && MergedWithPartner(old(level.actors), old(counts), level.actors, counts, level.nextRid, pool, used, used', a)
      ensures PoolCurrent(level.actors, pool, used')
      ensures UntouchedOutside(a0, c0, level.actors, counts, level.nextRid, Rids(pool))
    {
      ghost var a1, c1 := level.actors, counts;
      var total := CountOf(counts, a.rid) + CountOf(counts, b.rid);
      assert Find(a1, a.rid) == Some(a) && Find(a1, b.rid) == Some(b);
      var leader, source := MergePair(a, b);
      FastMergeStep(a0, c0, a1, c1, level.actors, counts, level.nextRid, pool, used, leader, source, total);
      used' := used + {leader.rid, source.rid};
    }

    /** The partner search of the fast path for `a`: among the neighbours
        gathered from the cells around `a`, scanning at most the checks
        left, the first one nearest `a` that passes the partner test. It is
        always a pool leader. */
    method FastPartner(a: Actor, pool: seq<Actor>, buckets: map<CellKey, seq<Actor>>, cell: real, r2: real,
                       used: set<int>, checks: int) returns (best: Option<Actor>, n: nat)
      requires IsBucketing(buckets, pool, cell) && 0 <= checks <= MaxFastPairChecks
      ensures checks + n <= MaxFastPairChecks
      ensures var nbrs := Neighbors(buckets, a, cell);
              var ok := PartnerOk(a, CountOf(counts, a.rid), counts, used, settings.maxStackSize, r2);
              n == Min(|nbrs|, MaxFastPairChecks - checks) && best == Pick(nbrs[..n], FirstMin(nbrs[..n], ok, FlatFrom(a)))
      ensures best.Some? ==> best.value in pool
                             && PairOk(a, best.value, CountOf(counts, a.rid), CountOf(counts, best.value.rid),
                                       used, settings.maxStackSize, r2)
    {
      var nbrs := Neighbors(buckets, a, cell);
      var ok := PartnerOk(a, CountOf(counts, a.rid), counts, used, settings.maxStackSize, r2);
      var r;
      r, n := ScanBudget(nbrs, ok, FlatFrom(a), MaxFastPairChecks - checks);
      best := Pick(nbrs[..n], r);
      if r.Some? {
        assert nbrs[..n][r.value] == nbrs[r.value];
        BucketsFrom(buckets, pool, cell, NeighborCells(CellKeyOf(a.dim, a.pos, cell)), nbrs[r.value]);
      }
    }

    /** `_reindex_from_names`: the ledger is rebuilt from the names on the
        level (`ReindexCounts`), and the live leaders whose name yields no
        positive count get their name cleared; no other record changes. */
    method ReindexFromNames()
      requires Valid()
      modifies this`counts, level
      ensures Valid()
      ensures counts == ReindexCounts(old(level.actors), settings.maxStackSize)
      ensures |level.actors| == |old(level.actors)|
      ensures forall i :: 0 <= i < |level.actors| ==> level.actors[i] == Reindexed(old(level.actors)[i])
      ensures Evolves(old(level.actors), old(level.nextRid), level.actors) && level.nextRid == old(level.nextRid)
    {
      counts := map[];
      var cap := settings.maxStackSize;
      var acts := level.actors;
      for i := 0 to |acts|
        invariant Valid() && level.nextRid == old(level.nextRid)
        invariant counts == ReindexCounts(acts[..i], cap)
        invariant |level.actors| == |acts|
        invariant forall j :: 0 <= j < |acts| ==> level.actors[j] == if j < i then Reindexed(acts[j]) else acts[j]
      {
        var a := acts[i];
        assert acts[..i + 1][..i] == acts[..i];
        if LiveMob(a) {
          counts := counts[a.rid := ReindexValue(a, cap)];
        }
        if NameCleared(a) {
          ClearNameAt(i);
        }
      }
      assert acts[..|acts|] == acts;
    }

    /** `a.name_tag = ""` for the entity at position `i` of the level. */
    method ClearNameAt(i: int)
      requires Valid() && 0 <= i < |level.actors|
      modifies level
      ensures Valid() && level.nextRid == old(level.nextRid)
      ensures |level.actors| == |old(level.actors)| && level.actors[i] == old(level.actors)[i].(name := "")
      ensures forall j :: 0 <= j < |level.actors| && j != i ==> level.actors[j] == old(level.actors)[j]
    {
      FindAt(level.actors, i);
      level.Change(level.actors[i].rid, Rename(""));
    }

    /** `_scan_and_stack`, one periodic scan. A reloaded configuration
        (the host's file check, passed in) replaces the settings, rebuilds
        the allowed cache and reindexes the ledger from the names; the
        prune counter advances, pruning every tenth scan; a non-empty
        pending queue is drained once; then, when stacking is enabled and
        some type is allowed, tamed leaders are defused and the candidates
        are stacked. Pending entries are only ever removed. */
    method ScanAndStack(reloaded: Option<Settings>)
      requires Valid() && (reloaded.Some? ==> reloaded.value.maxStackSize >= 1)
      modifies this`settings, this`allowedCache, this`counts, this`pending, this`deathHandledAt,
               this`lastFeedPop, this`breedCooldownUntil, this`cdPruneTick, level
      ensures Valid()
      ensures Evolves(old(level.actors), old(level.nextRid), level.actors) && level.nextRid >= old(level.nextRid)
      ensures settings == if reloaded.Some? then reloaded.value else old(settings)
      ensures allowedCache == if reloaded.Some? then AllowedCache(settings.allowedTypes) else old(allowedCache)
      ensures cdPruneTick == old(cdPruneTick) + 1
      ensures forall k :: HasKey(pending, k) ==> HasKey(old(pending), k) && Get(pending, k) == Get(old(pending), k)
    {
      ghost var a0, n0 := level.actors, level.nextRid;
      if reloaded.Some? {
        Reload(reloaded.value);
      }
      PruneTick();
      ghost var a1, n1 := level.actors, level.nextRid;
      if pending != [] {
        DrainPending();
      }
      EvolvesTrans(a0, n0, a1, n1, level.actors);
      if !settings.enabled || allowedCache == {} {
        return;
      }
      ghost var a2, n2 := level.actors, level.nextRid;
      DefuseAndStack();
      EvolvesTrans(a0, n0, a2, n2, level.actors);
    }

    /** `_defuse_tamed_leaders`, then the stacking part of the scan. */
    method DefuseAndStack()
      requires Valid()
      modifies this`counts, this`lastFeedPop, this`breedCooldownUntil, level
      ensures Valid()
      ensures Evolves(old(level.actors), old(level.nextRid), level.actors) && level.nextRid == old(level.nextRid)
    {
      DefuseTamedLeaders();
      ghost var a1 := level.actors;
      StackCandidates();
      EvolvesTrans(old(level.actors), level.nextRid, a1, level.nextRid, level.actors);
    }

    /** The reload branch of `_scan_and_stack`: new settings, the allowed
        cache rebuilt from them and the ledger reindexed from the names. */
    method Reload(s: Settings)
      requires Valid() && s.maxStackSize >= 1
      modifies this`settings, this`allowedCache, this`counts, level
      ensures Valid() && settings == s && allowedCache == AllowedCache(s.allowedTypes)
      ensures counts == ReindexCounts(old(level.actors), s.maxStackSize)
      ensures Evolves(old(level.actors), old(level.nextRid), level.actors) && level.nextRid == old(level.nextRid)
    {
      settings := s;
      RebuildAllowedCache();
      ReindexFromNames();
    }

    /** The prune counter of `_scan_and_stack`: it advances by one, and
        every tenth scan drops the entries of dead or removed entities. */
    method PruneTick()
      requires Valid()
      modifies this`cdPruneTick, this`counts, this`deathHandledAt, this`lastFeedPop, this`breedCooldownUntil
      ensures Valid() && cdPruneTick == old(cdPruneTick) + 1
      ensures cdPruneTick % 10 != 0 ==>
                counts == old(counts) && deathHandledAt == old(deathHandledAt)
                && lastFeedPop == old(lastFeedPop) && breedCooldownUntil == old(breedCooldownUntil)
      ensures cdPruneTick % 10 == 0 ==> forall k :: k in counts <==> k in old(counts) && k in LiveIds(level.actors)
    {
      var n := cdPruneTick + 1;
      if n % 10 == 0 {
        PruneCooldowns();
      }
      cdPruneTick := n;
    }

    /** The stacking part of `_scan_and_stack`: the candidates are the mobs
        eligible with leaders allowed; without any nothing happens. With
        leader pair merging on, the fast path runs first on cells of the
        radius (at least 0.001); then the candidates are bucketed on cells
        of the radius (4 when it is not positive) and grouped. */
    method StackCandidates()
      requires Valid()
      modifies this`counts, level
      ensures Valid()
      ensures Evolves(old(level.actors), old(level.nextRid), level.actors) && level.nextRid == old(level.nextRid)
      ensures (forall a :: a in old(level.actors) ==> !(a.isMob && EligibleBasic(a, allowedCache, settings, old(counts), false, true)))
              ==> counts == old(counts) && level.actors == old(level.actors)
    {
      var cache, s, cnt := allowedCache, settings, counts;
      var candidates := Filter(level.actors, (a: Actor) => a.isMob && EligibleBasic(a, cache, s, cnt, false, true));
      if candidates == [] {
        return;
      }
      assert candidates[0] in candidates;
      forall c | c in candidates ensures Find(level.actors, c.rid) == Some(c) && c.rid < level.nextRid {
        FindMember(level.actors, c);
        FindBelow(level.actors, level.nextRid, c.rid);
      }
      StackAll(candidates);
    }

    /** The fast path (when enabled) and the grouping scan over the
        candidates. */
    method StackAll(candidates: seq<Actor>)
      requires Valid()
      requires forall c :: c in candidates ==> Find(level.actors, c.rid) == Some(c) && c.rid < level.nextRid
      modifies this`counts, level
      ensures Valid()
      ensures Evolves(old(level.actors), old(level.nextRid), level.actors) && level.nextRid == old(level.nextRid)
    {
      ghost var a0, n0 := level.actors, level.nextRid;
      var r := settings.radius;
      var r2 := r * r;
      if settings.allowLeaderPairMerge {
        var _, _ := PairwiseMergeFastpath(candidates, if r >= 0.001 then r else 0.001, r2);
        EvolvesKeeps(a0, n0, level.actors);
      }
      var cell := if r > 0.0 then r else 4.0;
      var buckets := BuildBuckets(candidates, cell);
      ghost var a1 := level.actors;
      GroupAll(candidates, buckets, cell, r2);
      EvolvesTrans(a0, n0, a1, n0, level.actors);
    }
    /** `on_actor_spawn`: an allowed baby is replaced by an adult at once;
        any other mob is settled (default ledger entry, count recovered from
        a leader's name, promotion of an untagged stack) and the tamed
        leaders are then defused. */
    method OnActorSpawn(a: Actor)
      requires Valid() && Find(level.actors, a.rid) == Some(a)
      modifies this`counts, this`lastFeedPop, this`breedCooldownUntil, level
      ensures Valid()
      ensures Evolves(old(level.actors), old(level.nextRid), level.actors) && level.nextRid >= old(level.nextRid)
      ensures !a.isMob ==> counts == old(counts) && level.actors == old(level.actors)
                           && lastFeedPop == old(lastFeedPop) && breedCooldownUntil == old(breedCooldownUntil)
      ensures a.isMob && a.baby && IsAllowed(allowedCache, a.typ) ==>
                counts == old(counts) - {a.rid} && lastFeedPop == old(lastFeedPop)
                && breedCooldownUntil == old(breedCooldownUntil)
                && level.actors == AfterSummon(Patched(old(level.actors), a.rid, Kill), old(level.summons), old(level.nextRid),
                                               NormalizeId(a.typ), DimToken(a.dim), BlockCenter(a.pos))
      ensures a.isMob && !(a.baby && IsAllowed(allowedCache, a.typ)) && !settings.ignoreTamed ==>
                SpawnSettled(a, allowedCache, settings, old(counts), old(level.actors), old(level.nextRid), counts, level.actors)
                && lastFeedPop == old(lastFeedPop) && breedCooldownUntil == old(breedCooldownUntil)
      ensures (a.isMob && !(a.baby && IsAllowed(allowedCache, a.typ)) && settings.ignoreTamed
               && LiveMob(a) && IsLeader(a) && a.tamed) ==> Defused(a.rid)
    {
      if !a.isMob {
        return;
      }
      if a.baby && IsAllowed(allowedCache, a.typ) {
        ForceAdultReplace(a);
        return;
      }
      SettleAndDefuse(a);
    }

    /** A spawned mob that is not an allowed baby: settled, then the sweep. */
    method SettleAndDefuse(a: Actor)
      requires Valid() && Find(level.actors, a.rid) == Some(a) && !(a.baby && IsAllowed(allowedCache, a.typ))
      modifies this`counts, this`lastFeedPop, this`breedCooldownUntil, level
      ensures Valid()
      ensures Evolves(old(level.actors), old(level.nextRid), level.actors) && level.nextRid >= old(level.nextRid)
      ensures !settings.ignoreTamed ==>
                SpawnSettled(a, allowedCache, settings, old(counts), old(level.actors), old(level.nextRid), counts, level.actors)
                && lastFeedPop == old(lastFeedPop) && breedCooldownUntil == old(breedCooldownUntil)
      ensures settings.ignoreTamed && LiveMob(a) && IsLeader(a) && a.tamed ==> Defused(a.rid)
    {
      if IsLeader(a) {
        SettleLeaderAndDefuse(a);
      } else {
        SettleMobAndDefuse(a);
      }
    }

    /** A spawned leader settled, then the sweep. */
    method SettleLeaderAndDefuse(a: Actor)
      requires Valid() && Find(level.actors, a.rid) == Some(a) && IsLeader(a)
      modifies this`counts, this`lastFeedPop, this`breedCooldownUntil, level
      ensures Valid()
      ensures Evolves(old(level.actors), old(level.nextRid), level.actors) && level.nextRid == old(level.nextRid)
      ensures !settings.ignoreTamed ==>
                LeaderSpawnSettled(a, settings, old(counts), old(level.actors), counts, level.actors)
                && lastFeedPop == old(lastFeedPop) && breedCooldownUntil == old(breedCooldownUntil)
      ensures settings.ignoreTamed && LiveMob(a) && a.tamed ==> Defused(a.rid)
    {
      ghost var a0, n0 := level.actors, level.nextRid;
      SettleSpawnedLeader(a);
      assert LiveMob(a) && a.tamed ==> TamedLeader(level.actors, a.rid);
      ghost var a1 := level.actors;
      DefuseTamedLeaders();
      EvolvesTrans(a0, n0, a1, n0, level.actors);
    }

    /** A spawned non-leader settled, then the sweep. */
    method SettleMobAndDefuse(a: Actor)
      requires Valid() && Find(level.actors, a.rid) == Some(a) && !IsLeader(a)
      modifies this`counts, this`lastFeedPop, this`breedCooldownUntil, level
      ensures Valid()
      ensures Evolves(old(level.actors), old(level.nextRid), level.actors) && level.nextRid >= old(level.nextRid)
      ensures !settings.ignoreTamed ==>
                MobSpawnSettled(a, allowedCache, settings, old(counts), old(level.actors), old(level.nextRid), counts, level.actors)
                && lastFeedPop == old(lastFeedPop) && breedCooldownUntil == old(breedCooldownUntil)
    {
      ghost var a0, n0 := level.actors, level.nextRid;
      SettleSpawnedMob(a);
      ghost var a1, n1 := level.actors, level.nextRid;
      DefuseTamedLeaders();
      EvolvesTrans(a0, n0, a1, n1, level.actors);
    }

    /** A spawned leader: its count is recovered from its name when its
        ledger entry is the default, and its name is refreshed. */
    method SettleSpawnedLeader(a: Actor)
      requires Valid() && Find(level.actors, a.rid) == Some(a) && IsLeader(a)
      modifies this`counts, level
      ensures Valid()
      ensures Evolves(old(level.actors), old(level.nextRid), level.actors) && level.nextRid == old(level.nextRid)
      ensures LeaderSpawnSettled(a, settings, old(counts), old(level.actors), counts, level.actors)
    {
      var cnt := SpawnedLeaderCount(CountOf(counts, a.rid), ParseCountFromName(a.name), settings.maxStackSize);
      counts := counts[a.rid := cnt];
      UpdateNametag(a.rid);
    }

    /** A spawned non-leader: a default ledger entry, then promotion of a
        stack that may still grow. */
    method SettleSpawnedMob(a: Actor)
      requires Valid() && Find(level.actors, a.rid) == Some(a) && !IsLeader(a)
      modifies this`counts, level
      ensures Valid()
      ensures Evolves(old(level.actors), old(level.nextRid), level.actors) && level.nextRid >= old(level.nextRid)
      ensures MobSpawnSettled(a, allowedCache, settings, old(counts), old(level.actors), old(level.nextRid), counts, level.actors)
    {
      var cnt := CountOf(counts, a.rid);
      counts := counts[a.rid := cnt];
      if cnt >= 2 && EligibleBasic(a, allowedCache, settings, counts, true, false) {
        var _ := PromoteLeader(a, Min(cnt, settings.maxStackSize));
      } else {
        EvolvesRefl(level.actors, level.nextRid);
      }
    }
  }
}
