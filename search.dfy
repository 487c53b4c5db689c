/** Read-only searches over the level: eligibility, the newborn resolvers,
    the retry fallback and the centroid leader choice. Each search keeps the
    first candidate with the smallest distance, starting from the bound 9e18
    and replacing the best only on a strictly smaller distance. */
module Search {
  import opened Wrappers
  import opened Text
  import opened Ids
  import opened Geometry
  import opened World
  import opened Ledger
  import opened Config

  /** The initial "best distance" of every search. */
  const Far: real := 9000000000000000000.0

  /** `_eligible_basic`: may this entity take part in stacking? */
  predicate EligibleBasic(a: Actor, cache: set<string>, s: Settings, counts: map<int, int>,
                          requireUnderCap: bool, allowLeaderSources: bool)
  {
    if a.dead || !a.valid then false
    else if !IsAllowed(cache, a.typ) then false
    else if a.baby then false
    else if a.tamed && s.ignoreTamed then false
    else if Strip(a.name) != "" && !IsLeader(a) then false
    else if requireUnderCap && AtCap(counts, a.rid, s.maxStackSize) then false
    else if IsLeader(a) && !allowLeaderSources then false
    else true
  }

  /** An entity that refuses leader sources is never a leader. */
  lemma EligibleNoLeader(a: Actor, cache: set<string>, s: Settings, counts: map<int, int>, cap: bool)
    ensures EligibleBasic(a, cache, s, counts, cap, false) ==> !IsLeader(a)
    ensures EligibleBasic(a, cache, s, counts, cap, false) ==> EligibleBasic(a, cache, s, counts, cap, true)
  {
  }

  /** The index of the first candidate with the smallest distance below Far,
      scanning left to right and keeping the best on a strict improvement. */
  function FirstMin(xs: seq<Actor>, ok: Actor -> bool, d: Actor -> real): (r: Option<nat>)
    ensures r.Some? ==> r.value < |xs| && ok(xs[r.value]) && d(xs[r.value]) < Far
    ensures r.Some? ==> forall i :: 0 <= i < |xs| && ok(xs[i]) ==> d(xs[r.value]) <= d(xs[i])
    ensures r.Some? ==> forall i :: 0 <= i < r.value && ok(xs[i]) ==> d(xs[r.value]) < d(xs[i])
    ensures r.None? <==> forall i :: 0 <= i < |xs| && ok(xs[i]) ==> d(xs[i]) >= Far
    decreases |xs|
  {
    if xs == [] then None
    else
      var init := xs[..|xs| - 1];
      var r := FirstMin(init, ok, d);
      var last := xs[|xs| - 1];
      var bound := if r.Some? then d(xs[r.value]) else Far;
      assert forall i :: 0 <= i < |init| ==> xs[i] == init[i];
      if ok(last) && d(last) < bound then Some(|xs| - 1) else r
  }

  /** The search result as an entity. */
  function Pick(xs: seq<Actor>, r: Option<nat>): Option<Actor>
    requires r.Some? ==> r.value < |xs|
  {
    if r.Some? then Some(xs[r.value]) else None
  }

  /** The first candidate with the smallest distance below Far. */
  function Nearest(xs: seq<Actor>, ok: Actor -> bool, d: Actor -> real): (r: Option<Actor>)
    ensures r.Some? ==> r.value in xs && ok(r.value) && forall b :: b in xs && ok(b) ==> d(r.value) <= d(b)
    ensures r.None? ==> forall b :: b in xs && ok(b) ==> d(b) >= Far
  {
    var i := FirstMin(xs, ok, d);
    if i.None? then
      assert forall b :: b in xs && ok(b) ==> d(b) >= Far by {
        forall b | b in xs && ok(b) ensures d(b) >= Far {
          var j :| 0 <= j < |xs| && xs[j] == b;
        }
      }
      None
    else
      assert forall b :: b in xs && ok(b) ==> d(xs[i.value]) <= d(b) by {
        forall b | b in xs && ok(b) ensures d(xs[i.value]) <= d(b) {
          var j :| 0 <= j < |xs| && xs[j] == b;
        }
      }
      Some(xs[i.value])
  }

  /** A live mob of the given type and dimension token in the given block. */
  predicate InBlock(a: Actor, etype: string, dim: string, b: Block) {
    LiveMob(a) && NormalizeId(a.typ) == etype && DimToken(a.dim) == dim && BlockOf(a.pos) == b
  }

  /** `_snapshot_same_block_ids`: ids of the live mobs of that type in the
      block of `center`. */
  function SnapshotSameBlockIds(actors: seq<Actor>, etype: string, dim: string, center: Pos): (ids: set<int>)
    ensures forall i :: 0 <= i < |actors| && InBlock(actors[i], etype, dim, BlockOf(center)) ==> actors[i].rid in ids
    ensures forall x :: x in ids ==> exists i :: 0 <= i < |actors| && actors[i].rid == x && InBlock(actors[i], etype, dim, BlockOf(center))
  {
    set i | 0 <= i < |actors| && InBlock(actors[i], etype, dim, BlockOf(center)) :: actors[i].rid
  }

  /** A live mob is in the snapshot of its own block. */
  lemma SnapshotHoldsOwn(actors: seq<Actor>, a: Actor)
    requires a in actors && LiveMob(a)
    ensures a.rid in SnapshotSameBlockIds(actors, NormalizeId(a.typ), DimToken(a.dim), BlockCenter(a.pos))
  {
    var i :| 0 <= i < |actors| && actors[i] == a;
    assert InBlock(actors[i], NormalizeId(a.typ), DimToken(a.dim), BlockOf(BlockCenter(a.pos)));
  }

  predicate DiffCandidate(a: Actor, etype: string, dim: string, center: Pos, pre: set<int>) {
    InBlock(a, etype, dim, BlockOf(center)) && a.rid !in pre
  }

  /** Points in the same unit block are less than one apart on each axis. */
  lemma SameFloorClose(u: real, v: real)
    requires Floor(u) == Floor(v)
    ensures -1.0 < u - v < 1.0
  {
  }

  lemma SquareBelowOne(t: real)
    requires -1.0 < t < 1.0
    ensures t * t < 1.0
  {
    if t >= 0.0 {
      assert t * t <= t * 1.0;
    } else {
      assert t * t <= (-t) * 1.0;
    }
  }

  /** Two points in the same block are less than 2 apart horizontally. */
  lemma SameBlockNear(p: Pos, q: Pos)
    requires BlockOf(p) == BlockOf(q)
    ensures FlatD2(p, q) < 2.0
  {
    var dx, dz := p.x - q.x, p.z - q.z;
    SameFloorClose(p.x, q.x);
    SameFloorClose(p.z, q.z);
    SquareBelowOne(dx);
    SquareBelowOne(dz);
    var sx, sz := dx * dx, dz * dz;
    assert sx < 1.0 && sz < 1.0;
    assert FlatD2(p, q) == sx + sz;
  }

  /** `_find_newborn_by_diff`: the live same-type mob in the block of
      `center` that was not in the snapshot `pre`, nearest to the centre
      horizontally (first one on ties); none when there is no such mob. */
  function FindNewbornByDiff(actors: seq<Actor>, etype: string, dim: string, center: Pos, pre: set<int>): (r: Option<Actor>)
    ensures r.Some? ==> r.value in actors && DiffCandidate(r.value, etype, dim, center, pre)
    ensures r.Some? ==> forall b :: b in actors && DiffCandidate(b, etype, dim, center, pre) ==>
                          FlatD2(r.value.pos, center) <= FlatD2(b.pos, center)
    ensures r.None? <==> forall b :: b in actors ==> !DiffCandidate(b, etype, dim, center, pre)
  {
    var ok := (a: Actor) => DiffCandidate(a, etype, dim, center, pre);
    var d := (a: Actor) => FlatD2(a.pos, center);
    var i := FirstMin(actors, ok, d);
    if i.None? then
      assert forall b :: b in actors ==> !DiffCandidate(b, etype, dim, center, pre) by {
        forall b | b in actors && DiffCandidate(b, etype, dim, center, pre) ensures false {
          var j :| 0 <= j < |actors| && actors[j] == b;
          assert ok(actors[j]);
          SameBlockNear(b.pos, center);
        }
      }
      None
    else
      Some(actors[i.value])
  }

  predicate NearCandidate(a: Actor, etype: string, dim: string, center: Pos, pre: set<int>) {
    var b := BlockOf(center);
    LiveMob(a) && NormalizeId(a.typ) == etype && DimToken(a.dim) == dim && a.rid !in pre
    && -1 <= Floor(a.pos.y) - b.y <= 1 && -1 <= Floor(a.pos.x) - b.x <= 1 && -1 <= Floor(a.pos.z) - b.z <= 1
    && FlatD2(a.pos, center) <= 0.81
  }

  /** `_find_newborn_sameblock_or_near`: the diff search first; failing that,
      the nearest new same-type mob at most one block away on each axis and
      within 0.9 blocks horizontally of the centre. */
  function FindSameBlockOrNear(actors: seq<Actor>, etype: string, dim: string, center: Pos, pre: set<int>): (r: Option<Actor>)
    ensures FindNewbornByDiff(actors, etype, dim, center, pre).Some? ==> r == FindNewbornByDiff(actors, etype, dim, center, pre)
    ensures r.Some? ==> r.value in actors && r.value.rid !in pre && LiveMob(r.value) && NormalizeId(r.value.typ) == etype
    ensures r.Some? && !DiffCandidate(r.value, etype, dim, center, pre) ==> NearCandidate(r.value, etype, dim, center, pre)
    ensures r.None? ==> forall b :: b in actors ==> !NearCandidate(b, etype, dim, center, pre)
    ensures r.Some? && FindNewbornByDiff(actors, etype, dim, center, pre).None? ==>
              forall b :: b in actors && NearCandidate(b, etype, dim, center, pre) ==> FlatD2(r.value.pos, center) <= FlatD2(b.pos, center)
  {
    var m := FindNewbornByDiff(actors, etype, dim, center, pre);
    if m.Some? then m
    else
      var ok := (a: Actor) => NearCandidate(a, etype, dim, center, pre);
      var d := (a: Actor) => FlatD2(a.pos, center);
      var i := FirstMin(actors, ok, d);
      if i.None? then None
      else
        Some(actors[i.value])
  }

  /** Only an entity that appeared after the snapshot can be found by the
      diff search: every older record that is still a live same-block mob
      was live there at snapshot time too, so its id is in the snapshot. */
  lemma {:induction false} DiffFindsOnlyNew(before: seq<Actor>, nb: int, after: seq<Actor>,
                                            etype: string, dim: string, center: Pos)
    requires Evolves(before, nb, after)
    ensures var r := FindNewbornByDiff(after, etype, dim, center, SnapshotSameBlockIds(before, etype, dim, center));
            r.Some? ==> exists i :: |before| <= i < |after| && after[i] == r.value
  {
    var pre := SnapshotSameBlockIds(before, etype, dim, center);
    var r := FindNewbornByDiff(after, etype, dim, center, pre);
    if r.Some? {
      var j :| 0 <= j < |after| && after[j] == r.value;
    }
  }

  /** A summoned entity that is the only new live mob of its type in the
      block is what the diff search returns. */
  lemma {:induction false} DiffFindsSoleNewborn(before: seq<Actor>, nb: int, after: seq<Actor>,
                                                etype: string, dim: string, center: Pos)
    requires Evolves(before, nb, after) && |after| == |before| + 1
    requires InBlock(after[|before|], etype, dim, BlockOf(center))
    requires forall i :: 0 <= i < |before| ==> before[i].rid < nb
    ensures FindNewbornByDiff(after, etype, dim, center, SnapshotSameBlockIds(before, etype, dim, center))
            == Some(after[|before|])
  {
    var pre := SnapshotSameBlockIds(before, etype, dim, center);
    var n := after[|before|];
    assert n.rid !in pre;
    assert DiffCandidate(n, etype, dim, center, pre);
    DiffFindsOnlyNew(before, nb, after, etype, dim, center);
  }

  /** A live mob outside a snapshot is not an entity that was itself a live
      mob in the snapshot's block when it was taken. */
  lemma {:induction false} NotSnapshotted(before: seq<Actor>, after: seq<Actor>, x: Actor, a: Actor,
                                          etype: string, dim: string, center: Pos)
    requires UniqueRids(after) && x in after && LiveMob(x) && x.rid !in SnapshotSameBlockIds(before, etype, dim, center)
    requires a in before && Find(after, a.rid) == Some(a)
    requires NormalizeId(a.typ) == etype && DimToken(a.dim) == dim && BlockOf(a.pos) == BlockOf(center)
    ensures x.rid != a.rid
  {
    if x.rid == a.rid {
      var j :| 0 <= j < |after| && after[j] == x;
      FindAt(after, j);
    }
  }

  predicate FallbackCandidate(a: Actor, etype: string, dim: string, center: Pos, r2: real,
                              cache: set<string>, s: Settings, counts: map<int, int>)
  {
    LiveMob(a) && NormalizeId(a.typ) == etype && DimToken(a.dim) == dim
    && EligibleBasic(a, cache, s, counts, true, false)
    && Abs(a.pos.y - center.y) <= YTolerance && FlatD2(a.pos, center) <= r2
  }

  /** The fallback of `_retry_attach_newborn`: the nearest eligible, under-cap,
      non-leader mob of the type within the radius of the centre (flat, with
      the 1.25 vertical tolerance). */
  function FindRetryFallback(actors: seq<Actor>, etype: string, dim: string, center: Pos,
                             cache: set<string>, s: Settings, counts: map<int, int>): (r: Option<Actor>)
    ensures r.Some? ==> r.value in actors && FallbackCandidate(r.value, etype, dim, center, s.radius * s.radius, cache, s, counts)
    ensures r.Some? ==> forall b :: b in actors && FallbackCandidate(b, etype, dim, center, s.radius * s.radius, cache, s, counts) ==>
                          FlatD2(r.value.pos, center) <= FlatD2(b.pos, center)
    ensures r.None? ==> forall b :: b in actors && FallbackCandidate(b, etype, dim, center, s.radius * s.radius, cache, s, counts) ==>
                          FlatD2(b.pos, center) >= Far
  {
    var r2 := s.radius * s.radius;
    Nearest(actors, (a: Actor) => FallbackCandidate(a, etype, dim, center, r2, cache, s, counts), (a: Actor) => FlatD2(a.pos, center))
  }

  /** The entity with this id is known to the level, valid and not dead. */
  predicate LiveRecord(actors: seq<Actor>, rid: int) {
    Find(actors, rid).Some? && Find(actors, rid).value.valid && !Find(actors, rid).value.dead
  }

  /** The recipient search of `_defuse_tamed_leaders`: among the candidates
      whose entity is still live, the first one horizontally nearest `p`. */
  function NearestLive(cands: seq<Actor>, actors: seq<Actor>, p: Pos): (r: Option<Actor>)
    ensures r.Some? ==> r.value in cands && LiveRecord(actors, r.value.rid)
    ensures r.Some? ==> forall b :: b in cands && LiveRecord(actors, b.rid) ==> FlatD2(r.value.pos, p) <= FlatD2(b.pos, p)
    ensures r.None? ==> forall b :: b in cands && LiveRecord(actors, b.rid) ==> FlatD2(b.pos, p) >= Far
  {
    Nearest(cands, (m: Actor) => LiveRecord(actors, m.rid), (m: Actor) => FlatD2(m.pos, p))
  }

  /** The partner test of the leader fast path: not used yet, not `a`
      itself, the same type, under the cap, the two counts fit the cap
      together, and within the flat radius. */
  predicate PairOk(a: Actor, b: Actor, ca: int, cb: int, used: set<int>, cap: int, r2: real) {
    b.rid !in used && b.rid != a.rid && SameType(a.typ, b.typ) && cb < cap && ca + cb <= cap
    && WithinRadiusFlat(a.pos, b.pos, r2)
  }

  /** A first-minimum scan that may look at no more than `budget` entries:
      it visits the first `n` of them and finds what `FirstMin` finds there. */
  method ScanBudget(xs: seq<Actor>, ok: Actor -> bool, d: Actor -> real, budget: int) returns (r: Option<nat>, n: nat)
    ensures n == Min(|xs|, Max(0, budget))
    ensures r == FirstMin(xs[..n], ok, d)
  {
    r := None;
    var best := Far;
    n := 0;
    while n < |xs| && n < budget
      invariant n <= |xs| && (n == 0 || n <= budget)
      invariant r == FirstMin(xs[..n], ok, d)
      invariant best == if r.Some? then d(xs[r.value]) else Far
    {
      assert xs[..n + 1][..n] == xs[..n];
      var b := xs[n];
      if ok(b) && d(b) < best {
        r := Some(n);
        best := d(b);
      }
      n := n + 1;
    }
  }

  function SumX(g: seq<Actor>): real {
    if g == [] then 0.0 else SumX(g[..|g| - 1]) + g[|g| - 1].pos.x
  }

  function SumY(g: seq<Actor>): real {
    if g == [] then 0.0 else SumY(g[..|g| - 1]) + g[|g| - 1].pos.y
  }

  function SumZ(g: seq<Actor>): real {
    if g == [] then 0.0 else SumZ(g[..|g| - 1]) + g[|g| - 1].pos.z
  }

  /** The mean position of a non-empty group. */
  function Centroid(g: seq<Actor>): Pos
    requires |g| > 0
  {
    Pos(SumX(g) / |g| as real, SumY(g) / |g| as real, SumZ(g) / |g| as real)
  }

  /** The order of `min(..., key=(squared distance to c, runtime id))`. */
  predicate KeyLess(a: Actor, b: Actor, c: Pos) {
    D2(a.pos, c) < D2(b.pos, c) || (D2(a.pos, c) == D2(b.pos, c) && a.rid < b.rid)
  }

  /** `min` over the entities satisfying `ok`: the first one whose key no
      other candidate's key is below. */
  function KeyMin(xs: seq<Actor>, ok: Actor -> bool, c: Pos): (r: Option<nat>)
    ensures r.None? <==> forall i :: 0 <= i < |xs| ==> !ok(xs[i])
    ensures r.Some? ==> r.value < |xs| && ok(xs[r.value])
    ensures r.Some? ==> forall i :: 0 <= i < |xs| && ok(xs[i]) ==> !KeyLess(xs[i], xs[r.value], c)
    decreases |xs|
  {
    if xs == [] then None
    else
      var init := xs[..|xs| - 1];
      var r := KeyMin(init, ok, c);
      var last := xs[|xs| - 1];
      assert forall i :: 0 <= i < |init| ==> xs[i] == init[i];
      if ok(last) && (r.None? || KeyLess(last, xs[r.value], c)) then Some(|xs| - 1) else r
  }

  /** `_choose_centroid_leader_under_cap` as written: both lists call
      `_eligible_basic` without leader sources, which rejects every leader,
      so the list of under-cap leaders is always empty and the choice is the
      non-leader under cap nearest the centroid. */
  function ChooseCentroidLeaderAsWritten(group: seq<Actor>, cache: set<string>, s: Settings, counts: map<int, int>): (r: Option<Actor>)
    requires |group| > 0
    ensures r.Some? ==> r.value in group && EligibleBasic(r.value, cache, s, counts, true, false) && !IsLeader(r.value)
    ensures r.Some? ==> forall m :: m in group && EligibleBasic(m, cache, s, counts, true, false) ==>
                          !KeyLess(m, r.value, Centroid(group))
    ensures r.None? <==> forall m :: m in group ==> !EligibleBasic(m, cache, s, counts, true, false)
  {
    var c := Centroid(group);
    var leaders := KeyMin(group, (m: Actor) => IsLeader(m) && EligibleBasic(m, cache, s, counts, true, false), c);
    if leaders.Some? then
      assert false;
      None
    else
      var any := KeyMin(group, (m: Actor) => EligibleBasic(m, cache, s, counts, true, false), c);
      if any.Some? then Some(group[any.value]) else None
  }

  /** The leader choice as intended: an under-cap leader nearest the
      centroid when the group has one, otherwise the under-cap non-leader
      nearest the centroid. */
  function ChooseCentroidLeader(group: seq<Actor>, cache: set<string>, s: Settings, counts: map<int, int>): (r: Option<Actor>)
    requires |group| > 0
    ensures r.Some? ==> r.value in group && EligibleBasic(r.value, cache, s, counts, true, true)
    ensures (exists m :: m in group && IsLeader(m) && EligibleBasic(m, cache, s, counts, true, true)) ==>
              r.Some? && IsLeader(r.value)
              && forall m :: m in group && IsLeader(m) && EligibleBasic(m, cache, s, counts, true, true) ==>
                   !KeyLess(m, r.value, Centroid(group))
    ensures (forall m :: m in group ==> !(IsLeader(m) && EligibleBasic(m, cache, s, counts, true, true))) ==>
              r == ChooseCentroidLeaderAsWritten(group, cache, s, counts)
  {
    var c := Centroid(group);
    var leaders := KeyMin(group, (m: Actor) => IsLeader(m) && EligibleBasic(m, cache, s, counts, true, true), c);
    if leaders.Some? then
      Some(group[leaders.value])
    else
      var any := KeyMin(group, (m: Actor) => EligibleBasic(m, cache, s, counts, true, false), c);
      if any.Some? then Some(group[any.value]) else None
  }

  /** `min` over a pair. */
  lemma KeyMinPair(a: Actor, b: Actor, ok: Actor -> bool, c: Pos)
    ensures KeyMin([a, b], ok, c) ==
      if ok(b) && (!ok(a) || KeyLess(b, a, c)) then Some(1) else if ok(a) then Some(0) else None
  {
    assert [a, b][..1] == [a];
    assert [a][..0] == [];
  }

  /** An under-cap leader grouped with an under-cap plain mob: as written the
      plain mob is chosen and the existing leader would be absorbed into it;
      as intended the existing leader is kept. */
  lemma CentroidLeaderDiscrepancy(l: Actor, f: Actor, cache: set<string>, s: Settings, counts: map<int, int>)
    requires IsAllowed(cache, l.typ) && IsAllowed(cache, f.typ)
    requires l.valid && !l.dead && !l.baby && !l.tamed && IsLeader(l) && CountOf(counts, l.rid) < s.maxStackSize
    requires f.valid && !f.dead && !f.baby && !f.tamed && !IsLeader(f) && Strip(f.name) == ""
    requires CountOf(counts, f.rid) < s.maxStackSize
    ensures ChooseCentroidLeaderAsWritten([l, f], cache, s, counts) == Some(f)
    ensures ChooseCentroidLeader([l, f], cache, s, counts) == Some(l)
  {
    var g := [l, f];
    var c := Centroid(g);
    var leaderAsWritten := (m: Actor) => IsLeader(m) && EligibleBasic(m, cache, s, counts, true, false);
    var leader := (m: Actor) => IsLeader(m) && EligibleBasic(m, cache, s, counts, true, true);
    var any := (m: Actor) => EligibleBasic(m, cache, s, counts, true, false);
    assert !any(l) && any(f);
    assert !leaderAsWritten(l) && !leaderAsWritten(f);
    assert leader(l) && !leader(f);
    KeyMinPair(l, f, leaderAsWritten, c);
    KeyMinPair(l, f, leader, c);
    KeyMinPair(l, f, any, c);
  }
}
