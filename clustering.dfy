/** The pieces of the grouping scan that are pure: grid buckets, neighbour
    gathering, group formation, the follower order and the greedy absorption
    plan. */
module Clustering {
  import opened Wrappers
  import opened Ids
  import opened Geometry
  import opened World
  import opened Ledger
  import opened Config
  import opened Search

  /** The candidates of `xs` that fall in cell `k`, in order. */
  function CellMembers(xs: seq<Actor>, cell: real, k: CellKey): (r: seq<Actor>)
    ensures forall a :: a in r <==> a in xs && CellKeyOf(a.dim, a.pos, cell) == k
  {
    if xs == [] then []
    else
      var init := xs[..|xs| - 1];
      var last := xs[|xs| - 1];
      assert xs == init + [last];
      CellMembers(init, cell, k) + (if CellKeyOf(last.dim, last.pos, cell) == k then [last] else [])
  }

  /** The bucket dictionary: every key present holds exactly the candidates
      of that cell in order, and every absent key has none. */
  ghost predicate IsBucketing(b: map<CellKey, seq<Actor>>, xs: seq<Actor>, cell: real) {
    forall k :: (k in b ==> b[k] == CellMembers(xs, cell, k)) && (k !in b ==> CellMembers(xs, cell, k) == [])
  }

  /** `buckets.setdefault(key, []).append(a)` over the candidates. */
  method BuildBuckets(xs: seq<Actor>, cell: real) returns (b: map<CellKey, seq<Actor>>)
    ensures IsBucketing(b, xs, cell)
  {
    b := map[];
    var i := 0;
    while i < |xs|
      invariant 0 <= i <= |xs|
      invariant IsBucketing(b, xs[..i], cell)
    {
      var a := xs[i];
      var k := CellKeyOf(a.dim, a.pos, cell);
      assert xs[..i + 1][..i] == xs[..i];
      b := b[k := (if k in b then b[k] else []) + [a]];
      i := i + 1;
    }
    assert xs[..|xs|] == xs;
  }

  /** Appending one candidate to its own cell's bucket keeps a bucketing. */
  lemma BucketingAppend(b: map<CellKey, seq<Actor>>, xs: seq<Actor>, cell: real, a: Actor)
    requires IsBucketing(b, xs, cell)
    ensures var k := CellKeyOf(a.dim, a.pos, cell);
            IsBucketing(b[k := BucketGet(b, k) + [a]], xs + [a], cell)
  {
    assert (xs + [a])[..|xs|] == xs;
  }

  /** The members of a bucket all come from the bucketed candidates. */
  lemma BucketsFrom(b: map<CellKey, seq<Actor>>, xs: seq<Actor>, cell: real, cells: seq<CellKey>, m: Actor)
    requires IsBucketing(b, xs, cell) && m in Gather(b, cells)
    ensures m in xs
  {
    var i :| 0 <= i < |cells| && m in BucketGet(b, cells[i]);
    assert m in CellMembers(xs, cell, cells[i]);
  }

  /** The candidates of one normalised type, in order. */
  function OfType(xs: seq<Actor>, t: string): (r: seq<Actor>)
    ensures forall a :: a in r <==> a in xs && NormalizeId(a.typ) == t
  {
    if xs == [] then []
    else
      var init := xs[..|xs| - 1];
      var last := xs[|xs| - 1];
      assert xs == init + [last];
      OfType(init, t) + (if NormalizeId(last.typ) == t then [last] else [])
  }

  /** The type index of `_defuse_tamed_leaders`: type, then cell. */
  type TypeIndex = map<string, map<CellKey, seq<Actor>>>

  function IndexGet(idx: TypeIndex, t: string): map<CellKey, seq<Actor>> {
    if t in idx then idx[t] else map[]
  }

  /** Every type's inner dictionary buckets exactly the candidates of that type. */
  ghost predicate IsTypeIndex(idx: TypeIndex, xs: seq<Actor>, cell: real) {
    forall t :: IsBucketing(IndexGet(idx, t), OfType(xs, t), cell)
  }

  /** `index[t][cell_key].append(m)` for one candidate. */
  function IndexAdd(idx: TypeIndex, a: Actor, cell: real): TypeIndex {
    var t := NormalizeId(a.typ);
    var k := CellKeyOf(a.dim, a.pos, cell);
    idx[t := IndexGet(idx, t)[k := BucketGet(IndexGet(idx, t), k) + [a]]]
  }

  lemma OfTypeAppend(xs: seq<Actor>, a: Actor, t: string)
    ensures OfType(xs + [a], t) == OfType(xs, t) + (if NormalizeId(a.typ) == t then [a] else [])
  {
    assert (xs + [a])[..|xs|] == xs;
  }

  /** Adding a candidate to the index keeps it an index of the longer list. */
  lemma IndexAddKeeps(idx: TypeIndex, xs: seq<Actor>, cell: real, a: Actor)
    requires IsTypeIndex(idx, xs, cell)
    ensures IsTypeIndex(IndexAdd(idx, a, cell), xs + [a], cell)
  {
    var t := NormalizeId(a.typ);
    var next := IndexAdd(idx, a, cell);
    forall u ensures IsBucketing(IndexGet(next, u), OfType(xs + [a], u), cell) {
      OfTypeAppend(xs, a, u);
      if u == t {
        BucketingAppend(IndexGet(idx, t), OfType(xs, t), cell, a);
      } else {
        assert IndexGet(next, u) == IndexGet(idx, u);
        assert OfType(xs + [a], u) == OfType(xs, u);
        assert IsBucketing(IndexGet(idx, u), OfType(xs, u), cell);
      }
    }
  }

  /** What the neighbour cells of a type's index hold are candidates of that
      type. */
  lemma IndexedFrom(idx: TypeIndex, xs: seq<Actor>, cell: real, t: string, a: Actor, m: Actor)
    requires IsTypeIndex(idx, xs, cell) && m in Neighbors(IndexGet(idx, t), a, cell)
    ensures m in xs && NormalizeId(m.typ) == t
  {
    assert IsBucketing(IndexGet(idx, t), OfType(xs, t), cell);
    BucketsFrom(IndexGet(idx, t), OfType(xs, t), cell, NeighborCells(CellKeyOf(a.dim, a.pos, cell)), m);
  }

  /** Indexing one more candidate of `xs` extends the index of its prefix. */
  lemma IndexPrefixStep(idx: TypeIndex, xs: seq<Actor>, i: int, cell: real)
    requires 0 <= i < |xs| && IsTypeIndex(idx, xs[..i], cell)
    ensures IsTypeIndex(IndexAdd(idx, xs[i], cell), xs[..i + 1], cell)
  {
    var pre, next := xs[..i], xs[..i + 1];
    assert next == pre + [xs[i]];
    IndexAddKeeps(idx, pre, cell, xs[i]);
  }

  /** `index[t][cell_key].append(m)` over the candidates. */
  method BuildTypeIndex(xs: seq<Actor>, cell: real) returns (idx: TypeIndex)
    ensures IsTypeIndex(idx, xs, cell)
  {
    idx := map[];
    var i := 0;
    while i < |xs|
      invariant 0 <= i <= |xs|
      invariant IsTypeIndex(idx, xs[..i], cell)
    {
      IndexPrefixStep(idx, xs, i, cell);
      idx := IndexAdd(idx, xs[i], cell);
      i := i + 1;
    }
    assert xs[..|xs|] == xs;
  }

  function BucketGet(b: map<CellKey, seq<Actor>>, k: CellKey): seq<Actor> {
    if k in b then b[k] else []
  }

  /** The members of the given cells' buckets, cell by cell. */
  function Gather(b: map<CellKey, seq<Actor>>, cells: seq<CellKey>): (r: seq<Actor>)
    ensures forall a :: a in r <==> exists i :: 0 <= i < |cells| && a in BucketGet(b, cells[i])
  {
    if cells == [] then []
    else
      var rest := Gather(b, cells[1..]);
      assert forall a :: a in rest <==> exists i :: 1 <= i < |cells| && a in BucketGet(b, cells[i]) by {
        forall a ensures a in rest <==> exists i :: 1 <= i < |cells| && a in BucketGet(b, cells[i]) {
          if a in rest {
            var j :| 0 <= j < |cells[1..]| && a in BucketGet(b, cells[1..][j]);
            assert a in BucketGet(b, cells[j + 1]);
          }
          if exists i :: 1 <= i < |cells| && a in BucketGet(b, cells[i]) {
            var j :| 1 <= j < |cells| && a in BucketGet(b, cells[j]);
            assert cells[1..][j - 1] == cells[j];
          }
        }
      }
      BucketGet(b, cells[0]) + rest
  }

  /** The neighbours of a candidate: every candidate in the 27 cells around
      its own. */
  function Neighbors(b: map<CellKey, seq<Actor>>, a: Actor, cell: real): seq<Actor> {
    Gather(b, NeighborCells(CellKeyOf(a.dim, a.pos, cell)))
  }

  /** With cells as wide as the radius (at least the 1.25 vertical
      tolerance), the gathered neighbours of `a` include every candidate of
      the same dimension token that passes the flat radius test: the grid
      loses no pair the scan would have accepted. */
  lemma {:induction false} NeighborsComplete(b: map<CellKey, seq<Actor>>, xs: seq<Actor>, r: real, a: Actor, m: Actor)
    requires IsBucketing(b, xs, r) && r >= YTolerance
    requires m in xs && DimToken(m.dim) == DimToken(a.dim) && WithinRadiusFlat(a.pos, m.pos, r * r)
    ensures m in Neighbors(b, a, r)
  {
    var ka := CellKeyOf(a.dim, a.pos, r);
    var km := CellKeyOf(m.dim, m.pos, r);
    NeighborCellsCover(a.dim, a.pos, m.pos, r);
    assert km == CellKeyOf(a.dim, m.pos, r);
    var cells := NeighborCells(ka);
    var i :| 0 <= i < |cells| && cells[i] == km;
    assert m in CellMembers(xs, r, km);
    assert m in BucketGet(b, cells[i]);
  }

  /** The current record of a candidate, when it is still known to the level. */
  function Live(actors: seq<Actor>, m: Actor): Option<Actor> {
    Find(actors, m.rid)
  }

  /** Does neighbour `m`, whose current record is `live`, join the group of
      `a`? Not visited, not `a`, of the same type, within the flat radius,
      and eligible now (leaders excluded). */
  predicate Joins(a: Actor, m: Actor, live: Actor, visited: set<int>, r2: real,
                  cache: set<string>, s: Settings, counts: map<int, int>)
  {
    m.rid !in visited && m.rid != a.rid && SameType(a.typ, m.typ) && WithinRadiusFlat(a.pos, m.pos, r2)
    && EligibleBasic(live, cache, s, counts, false, false)
  }

  /** The current records of the neighbours still known to the level that
      `keep` accepts, in neighbour order. */
  function Collect(nbrs: seq<Actor>, actors: seq<Actor>, keep: (Actor, Actor) -> bool): (r: seq<Actor>)
    ensures |r| <= |nbrs|
    ensures forall x :: x in r ==>
              exists m :: m in nbrs && Live(actors, m).Some? && keep(m, Live(actors, m).value) && x == Live(actors, m).value
    ensures forall m :: m in nbrs && Live(actors, m).Some? && keep(m, Live(actors, m).value) ==> Live(actors, m).value in r
  {
    if nbrs == [] then []
    else
      var init := nbrs[..|nbrs| - 1];
      var m := nbrs[|nbrs| - 1];
      assert nbrs == init + [m];
      var rest := Collect(init, actors, keep);
      if Live(actors, m).Some? && keep(m, Live(actors, m).value) then rest + [Live(actors, m).value] else rest
  }

  /** The followers gathered for `a`: the current records of the neighbours
      that join its group. */
  function GroupFollowers(a: Actor, nbrs: seq<Actor>, actors: seq<Actor>, visited: set<int>, r2: real,
                          cache: set<string>, s: Settings, counts: map<int, int>): seq<Actor>
  {
    Collect(nbrs, actors, (m: Actor, live: Actor) => Joins(a, m, live, visited, r2, cache, s, counts))
  }

  /** A record is gathered exactly when it is the current record of a
      neighbour that joins. */
  lemma GroupFollowersSpec(a: Actor, nbrs: seq<Actor>, actors: seq<Actor>, visited: set<int>, r2: real,
                           cache: set<string>, s: Settings, counts: map<int, int>, x: Actor)
    ensures x in GroupFollowers(a, nbrs, actors, visited, r2, cache, s, counts) <==>
              exists m :: m in nbrs && Live(actors, m) == Some(x) && Joins(a, m, x, visited, r2, cache, s, counts)
  {
    var keep := (m: Actor, live: Actor) => Joins(a, m, live, visited, r2, cache, s, counts);
    if exists m :: m in nbrs && Live(actors, m) == Some(x) && Joins(a, m, x, visited, r2, cache, s, counts) {
      var m :| m in nbrs && Live(actors, m) == Some(x) && Joins(a, m, x, visited, r2, cache, s, counts);
      assert keep(m, x);
    }
  }

  /** The group of candidate `a`: its own record first, then the followers
      gathered from its neighbours. Every member is the current record of
      its entity, and no follower is `a` itself. */
  function Group(a: Actor, nbrs: seq<Actor>, actors: seq<Actor>, visited: set<int>, r2: real,
                 cache: set<string>, s: Settings, counts: map<int, int>): (g: seq<Actor>)
    ensures |g| >= 1 && g[0] == a
    ensures forall x :: x in g[1..] ==> x.rid != a.rid && x.rid !in visited
    ensures Find(actors, a.rid) == Some(a) ==> forall x :: x in g ==> Find(actors, x.rid) == Some(x)
  {
    var fs := GroupFollowers(a, nbrs, actors, visited, r2, cache, s, counts);
    forall x | x in fs ensures Find(actors, x.rid) == Some(x) && x.rid != a.rid && x.rid !in visited {
      GroupFollowersSpec(a, nbrs, actors, visited, r2, cache, s, counts, x);
    }
    assert ([a] + fs)[1..] == fs;
    [a] + fs
  }

  /** The entities of `xs` that `keep` accepts, in order. */
  function Filter(xs: seq<Actor>, keep: Actor -> bool): (r: seq<Actor>)
    ensures forall a :: a in r <==> a in xs && keep(a)
    ensures UniqueRids(xs) ==> UniqueRids(r)
  {
    if xs == [] then []
    else
      var init := xs[..|xs| - 1];
      var last := xs[|xs| - 1];
      assert xs == init + [last];
      var rest := Filter(init, keep);
      assert UniqueRids(xs) ==> forall y :: y in rest ==> y.rid != last.rid by {
        if UniqueRids(xs) {
          forall y | y in rest ensures y.rid != last.rid {
            var j :| 0 <= j < |init| && init[j] == y;
            assert xs[j] == y;
          }
        }
      }
      rest + (if keep(last) then [last] else [])
  }

  /** The runtime ids of a group. */
  function Rids(g: seq<Actor>): (ids: set<int>)
    ensures forall x :: x in ids <==> exists a :: a in g && a.rid == x
  {
    set a | a in g :: a.rid
  }

  /** Every gathered follower is the current record of its entity. */
  lemma GroupCurrent(a: Actor, nbrs: seq<Actor>, actors: seq<Actor>, visited: set<int>, r2: real,
                     cache: set<string>, s: Settings, counts: map<int, int>, x: Actor)
    requires x in GroupFollowers(a, nbrs, actors, visited, r2, cache, s, counts)
    ensures Find(actors, x.rid) == Some(x)
  {
    GroupFollowersSpec(a, nbrs, actors, visited, r2, cache, s, counts, x);
  }

  /** The sort key of a follower: squared flat distance to the leader, then
      runtime id. */
  predicate FollowerLess(a: Actor, b: Actor, lp: Pos) {
    FlatD2(a.pos, lp) < FlatD2(b.pos, lp) || (FlatD2(a.pos, lp) == FlatD2(b.pos, lp) && a.rid < b.rid)
  }

  predicate SortedFollowers(xs: seq<Actor>, lp: Pos) {
    forall i, j :: 0 <= i < j < |xs| ==> !FollowerLess(xs[j], xs[i], lp)
  }

  /** The follower order is transitive. */
  lemma FollowerLessTrans(a: Actor, b: Actor, c: Actor, lp: Pos)
    requires FollowerLess(a, b, lp) && FollowerLess(b, c, lp)
    ensures FollowerLess(a, c, lp)
  {
  }

  /** Every element of a sorted list's tail is not below its head. */
  lemma SortedHead(xs: seq<Actor>, lp: Pos)
    requires xs != [] && SortedFollowers(xs, lp)
    ensures SortedFollowers(xs[1..], lp)
    ensures forall y :: y in xs[1..] ==> !FollowerLess(y, xs[0], lp)
  {
    forall y | y in xs[1..] ensures !FollowerLess(y, xs[0], lp) {
      var k :| 0 <= k < |xs[1..]| && xs[1..][k] == y;
      assert xs[k + 1] == y;
    }
  }

  /** A head not above anything in a sorted tail gives a sorted list. */
  lemma SortedCons(h: Actor, t: seq<Actor>, lp: Pos)
    requires SortedFollowers(t, lp) && forall y :: y in t ==> !FollowerLess(y, h, lp)
    ensures SortedFollowers([h] + t, lp)
  {
    var r := [h] + t;
    forall i, j | 0 <= i < j < |r| ensures !FollowerLess(r[j], r[i], lp) {
      assert r[j] == t[j - 1];
      if i > 0 {
        assert r[i] == t[i - 1];
      }
    }
  }

  /** Insert into a sorted list after every element not above it. */
  function Insert(x: Actor, xs: seq<Actor>, lp: Pos): (r: seq<Actor>)
    requires SortedFollowers(xs, lp)
    ensures |r| == |xs| + 1
    ensures forall y :: y in r ==> y == x || y in xs
    ensures SortedFollowers(r, lp)
    ensures multiset(r) == multiset(xs) + multiset{x}
  {
    if xs == [] then [x]
    else if FollowerLess(x, xs[0], lp) then
      SortedHead(xs, lp);
      assert forall y :: y in xs ==> !FollowerLess(y, x, lp) by {
        forall y | y in xs ensures !FollowerLess(y, x, lp) {
          assert xs == [xs[0]] + xs[1..];
          assert y == xs[0] || y in xs[1..];
          if FollowerLess(y, x, lp) {
            FollowerLessTrans(y, x, xs[0], lp);
          }
        }
      }
      SortedCons(x, xs, lp);
      [x] + xs
    else
      SortedHead(xs, lp);
      var rest := Insert(x, xs[1..], lp);
      assert xs == [xs[0]] + xs[1..];
      SortedCons(xs[0], rest, lp);
      [xs[0]] + rest
  }

  /** `sorted(followers, key=(flat distance to the leader, runtime id))`:
      a sorted permutation of the followers. */
  function SortFollowers(xs: seq<Actor>, lp: Pos): (r: seq<Actor>)
    ensures SortedFollowers(r, lp)
    ensures multiset(r) == multiset(xs)
  {
    if xs == [] then []
    else
      assert xs == xs[..|xs| - 1] + [xs[|xs| - 1]];
      Insert(xs[|xs| - 1], SortFollowers(xs[..|xs| - 1], lp), lp)
  }

  /** What the absorption loop knows about a follower when it starts: its
      id, whether it is eligible (leaders allowed) and its ledger count. */
  datatype Follower = Follower(rid: int, eligible: bool, count: int)

  /** The followers taken so far and the total count they brought. */
  datatype Absorption = Absorption(taken: seq<int>, absorbed: int)

  /** `c = self._get_count(m); if c <= 0: c = 1` */
  function EffectiveCount(f: Follower): (c: int)
    ensures c >= 1
  {
    if f.count <= 0 then 1 else f.count
  }

  /** One turn of the absorption loop: stop once the space is used up, skip
      an ineligible (or already absorbed) follower, skip a follower whose
      count would overflow, otherwise absorb it. */
  function AbsorbStep(st: Absorption, f: Follower, space: int): Absorption {
    if st.absorbed >= space then st
    else if !f.eligible || f.rid in st.taken then st
    else if st.absorbed + EffectiveCount(f) > space then st
    else Absorption(st.taken + [f.rid], st.absorbed + EffectiveCount(f))
  }

  /** The absorption loop over the sorted followers. The total never
      exceeds the space left under the cap. */
  function Absorb(fs: seq<Follower>, space: int): (r: Absorption)
    ensures 0 <= r.absorbed
    ensures space >= 0 ==> r.absorbed <= space
    ensures |r.taken| <= |fs|
    ensures r.taken == [] <==> r.absorbed == 0
  {
    if fs == [] then Absorption([], 0)
    else AbsorbStep(Absorb(fs[..|fs| - 1], space), fs[|fs| - 1], space)
  }

  /** Once the space is used up the loop stops: the rest of the followers
      change nothing. */
  lemma {:induction false} AbsorbSaturated(fs: seq<Follower>, i: nat, space: int)
    requires i <= |fs| && (i == |fs| || Absorb(fs[..i], space).absorbed >= space)
    ensures Absorb(fs, space) == Absorb(fs[..i], space)
    decreases |fs| - i
  {
    if i < |fs| {
      assert fs[..i + 1][..i] == fs[..i];
      AbsorbSaturated(fs, i + 1, space);
    } else {
      assert fs[..i] == fs;
    }
  }

  /** The follower the absorption loop meets for entity `m`, as the level
      and the ledger stand before the loop: eligible when its entity is
      eligible with leaders allowed, with its ledger count. */
  function FollowerOf(actors: seq<Actor>, counts: map<int, int>, m: Actor, cache: set<string>, s: Settings): Follower {
    var cur := Find(actors, m.rid);
    Follower(m.rid, cur.Some? && EligibleBasic(cur.value, cache, s, counts, false, true), CountOf(counts, m.rid))
  }

  function Followers(actors: seq<Actor>, counts: map<int, int>, ms: seq<Actor>, cache: set<string>, s: Settings): (fs: seq<Follower>)
    ensures |fs| == |ms| && forall i :: 0 <= i < |ms| ==> fs[i] == FollowerOf(actors, counts, ms[i], cache, s)
  {
    seq(|ms|, i requires 0 <= i < |ms| => FollowerOf(actors, counts, ms[i], cache, s))
  }

  /** One turn of the absorption loop on the state it meets: the entity's
      current record and ledger count decide. */
  function AbsorbTurn(actors: seq<Actor>, counts: map<int, int>, m: Actor, plan: Absorption, space: int,
                      cache: set<string>, s: Settings): Absorption
  {
    var cur := Find(actors, m.rid);
    var c := if CountOf(counts, m.rid) <= 0 then 1 else CountOf(counts, m.rid);
    if !(cur.Some? && EligibleBasic(cur.value, cache, s, counts, false, true)) then plan
    else if plan.absorbed + c > space then plan
    else Absorption(plan.taken + [m.rid], plan.absorbed + c)
  }

  /** The turn taken on the live state is the turn `Absorb` plans from the
      state before the loop: a follower absorbed earlier is now removed and
      so ineligible, and any other keeps its record and its count. */
  lemma AbsorbTurnPlanned(a0: seq<Actor>, c0: map<int, int>, m: Actor, plan: Absorption, space: int,
                          cache: set<string>, s: Settings)
    requires UniqueRids(a0) && plan.absorbed < space
    ensures AbsorbTurn(KillAll(a0, plan.taken), RemoveAll(c0, plan.taken), m, plan, space, cache, s)
            == AbsorbStep(plan, FollowerOf(a0, c0, m, cache, s), space)
  {
    KillAllFind(a0, plan.taken, m.rid);
  }

  /** The next turn of the absorption loop, taken on the live state, extends
      the plan by the next follower. */
  lemma AbsorbNext(a0: seq<Actor>, c0: map<int, int>, ms: seq<Actor>, i: int, space: int,
                   cache: set<string>, s: Settings)
    requires UniqueRids(a0) && 0 <= i < |ms|
    requires Absorb(Followers(a0, c0, ms, cache, s)[..i], space).absorbed < space
    ensures var fs := Followers(a0, c0, ms, cache, s);
            var plan := Absorb(fs[..i], space);
            AbsorbTurn(KillAll(a0, plan.taken), RemoveAll(c0, plan.taken), ms[i], plan, space, cache, s)
              == Absorb(fs[..i + 1], space)
  {
    var fs := Followers(a0, c0, ms, cache, s);
    assert fs[..i + 1][..i] == fs[..i];
    AbsorbTurnPlanned(a0, c0, ms[i], Absorb(fs[..i], space), space, cache, s);
  }

  /** What the absorption of sorted followers takes are entities the level
      knew, none of them the entity `rid` kept out of the followers. */
  lemma AbsorbTakenFrom(a0: seq<Actor>, c0: map<int, int>, rest: seq<Actor>, lp: Pos, space: int,
                        cache: set<string>, s: Settings, rid: int)
    requires forall m :: m in rest ==> m.rid != rid
    ensures forall x :: x in Absorb(Followers(a0, c0, SortFollowers(rest, lp), cache, s), space).taken ==>
              x != rid && Find(a0, x).Some?
  {
    var sorted := SortFollowers(rest, lp);
    var fs := Followers(a0, c0, sorted, cache, s);
    AbsorbTakesEligible(fs, space);
    forall x | x in Absorb(fs, space).taken ensures x != rid && Find(a0, x).Some? {
      var i :| 0 <= i < |fs| && fs[i].rid == x && fs[i].eligible;
      assert sorted[i] in multiset(rest);
    }
  }

  /** The absorption plan of a group around leader `l`: the other members
      sorted by flat distance to the leader, then id, absorbed within the
      space the cap leaves above the leader's count. */
  function GroupPlan(actors: seq<Actor>, counts: map<int, int>, l: Actor, rest: seq<Actor>,
                     cache: set<string>, s: Settings): Absorption
  {
    Absorb(Followers(actors, counts, SortFollowers(rest, l.pos), cache, s), s.maxStackSize - CountOf(counts, l.rid))
  }

  /** The total the ledger `c` holds for the entities `ids`, each counted
      as the absorption loop counts it (a count of zero or less is one). */
  function SumCounts(c: map<int, int>, ids: seq<int>): (t: int)
    ensures t >= |ids|
  {
    if ids == [] then 0
    else SumCounts(c, ids[..|ids| - 1]) + (if CountOf(c, ids[|ids| - 1]) <= 0 then 1 else CountOf(c, ids[|ids| - 1]))
  }

  /** Every follower carries the count the ledger `c` holds for its id. */
  predicate CountsFrom(fs: seq<Follower>, c: map<int, int>) {
    forall i :: 0 <= i < |fs| ==> fs[i].count == CountOf(c, fs[i].rid)
  }

  /** Absorption conserves the count: what the loop adds to the leader is
      exactly the sum of the counts of the followers it took. */
  lemma {:induction false} AbsorbConserves(fs: seq<Follower>, space: int, c: map<int, int>)
    requires CountsFrom(fs, c)
    ensures Absorb(fs, space).absorbed == SumCounts(c, Absorb(fs, space).taken)
  {
    if fs != [] {
      var init := fs[..|fs| - 1];
      assert CountsFrom(init, c);
      AbsorbConserves(init, space, c);
      var st := Absorb(init, space);
      var f := fs[|fs| - 1];
      var st' := AbsorbStep(st, f, space);
      if st' != st {
        assert st'.taken[..|st'.taken| - 1] == st.taken;
      }
    }
  }

  /** A group's plan conserves the count: the total it absorbs is the sum of
      the ledger counts of the entities it takes. */
  lemma GroupPlanConserves(a0: seq<Actor>, c0: map<int, int>, l: Actor, rest: seq<Actor>,
                           cache: set<string>, s: Settings)
    ensures GroupPlan(a0, c0, l, rest, cache, s).absorbed == SumCounts(c0, GroupPlan(a0, c0, l, rest, cache, s).taken)
  {
    var fs := Followers(a0, c0, SortFollowers(rest, l.pos), cache, s);
    FollowersCountsFrom(a0, c0, SortFollowers(rest, l.pos), cache, s);
    AbsorbConserves(fs, s.maxStackSize - CountOf(c0, l.rid), c0);
  }

  /** The followers built from the ledger `c` carry its counts. */
  lemma FollowersCountsFrom(actors: seq<Actor>, c: map<int, int>, ms: seq<Actor>, cache: set<string>, s: Settings)
    ensures CountsFrom(Followers(actors, c, ms, cache, s), c)
  {
  }

  /** A group's plan takes only entities the level knows, never its leader. */
  lemma GroupTakenKnown(a0: seq<Actor>, c0: map<int, int>, l: Actor, rest: seq<Actor>, cache: set<string>, s: Settings)
    requires forall m :: m in rest ==> m.rid != l.rid
    ensures forall x :: x in GroupPlan(a0, c0, l, rest, cache, s).taken ==> x != l.rid && Find(a0, x).Some?
  {
    AbsorbTakenFrom(a0, c0, rest, l.pos, s.maxStackSize - CountOf(c0, l.rid), cache, s, l.rid);
  }

  /** After the absorption a group plans, the followers it took are removed
      and out of the ledger, while the leader keeps its record and count. */
  lemma GroupPlanTaken(a0: seq<Actor>, c0: map<int, int>, l: Actor, rest: seq<Actor>,
                       cache: set<string>, s: Settings, next: int)
    requires UniqueRids(a0) && forall i :: 0 <= i < |a0| ==> a0[i].rid < next
    requires Find(a0, l.rid) == Some(l) && forall m :: m in rest ==> m.rid != l.rid
    ensures var p := GroupPlan(a0, c0, l, rest, cache, s);
            UniqueRids(KillAll(a0, p.taken)) && Evolves(a0, next, KillAll(a0, p.taken))
            && Find(KillAll(a0, p.taken), l.rid) == Some(l)
            && CountOf(RemoveAll(c0, p.taken), l.rid) == CountOf(c0, l.rid)
            && forall x :: x in p.taken ==>
                 x != l.rid && x < next && x !in RemoveAll(c0, p.taken)
                 && Find(KillAll(a0, p.taken), x).Some? && !Find(KillAll(a0, p.taken), x).value.valid
  {
    var p := GroupPlan(a0, c0, l, rest, cache, s);
    GroupTakenKnown(a0, c0, l, rest, cache, s);
    var a1, c1 := KillAll(a0, p.taken), RemoveAll(c0, p.taken);
    KillAllKilled(a0, p.taken, next);
    KillAllFind(a0, p.taken, l.rid);
    assert Find(a1, l.rid) == Some(l);
    assert CountOf(c1, l.rid) == CountOf(c0, l.rid);
    forall x | x in p.taken
      ensures x != l.rid && x < next && x !in c1 && Find(a1, x).Some? && !Find(a1, x).value.valid
    {
      FindBelow(a0, next, x);
    }
  }

  /** Every absorbed follower was eligible, and none is taken twice. */
  lemma {:induction false} AbsorbTakesEligible(fs: seq<Follower>, space: int)
    ensures forall x :: x in Absorb(fs, space).taken ==> exists i :: 0 <= i < |fs| && fs[i].rid == x && fs[i].eligible
    ensures forall i, j :: 0 <= i < j < |Absorb(fs, space).taken| ==> Absorb(fs, space).taken[i] != Absorb(fs, space).taken[j]
  {
    if fs != [] {
      var init := fs[..|fs| - 1];
      AbsorbTakesEligible(init, space);
      forall x | x in Absorb(init, space).taken
        ensures exists i :: 0 <= i < |fs| && fs[i].rid == x && fs[i].eligible
      {
        var i :| 0 <= i < |init| && init[i].rid == x && init[i].eligible;
        assert fs[i] == init[i];
      }
    }
  }

  /** Greedy maximality: an eligible follower left behind could not have
      fitted, even in the space that remained at the end. */
  lemma {:induction false} AbsorbMaximal(fs: seq<Follower>, space: int)
    ensures forall i :: 0 <= i < |fs| && fs[i].eligible && fs[i].rid !in Absorb(fs, space).taken ==>
              Absorb(fs, space).absorbed + EffectiveCount(fs[i]) > space
  {
    if fs != [] {
      var init := fs[..|fs| - 1];
      AbsorbMaximal(init, space);
      var st := Absorb(init, space);
      var r := Absorb(fs, space);
      assert r.absorbed >= st.absorbed;
      assert forall x :: x in st.taken ==> x in r.taken;
      forall i | 0 <= i < |fs| && fs[i].eligible && fs[i].rid !in r.taken
        ensures r.absorbed + EffectiveCount(fs[i]) > space
      {
        if i < |init| {
          assert fs[i] == init[i];
        }
      }
    }
  }

  /** A follower too big for the remaining space is skipped, and a smaller
      one after it is still absorbed. */
  lemma AbsorbSkipsOverflow()
    ensures Absorb([Follower(1, true, 5), Follower(2, true, 2)], 3) == Absorption([2], 2)
  {
    var fs := [Follower(1, true, 5), Follower(2, true, 2)];
    assert fs[..1] == [Follower(1, true, 5)];
    assert fs[..1][..0] == [];
  }
}
