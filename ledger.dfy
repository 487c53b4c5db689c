/** The count ledger (`_counts`: runtime id to stack size, a missing entry
    meaning 1) and the pending queue (`_pending`: stacks waiting for a leader,
    keyed by dimension, block and type, in insertion order). */
module Ledger {
  import opened Geometry

  /** `_get_count`: the ledger entry, or 1 when there is none. Over a
      ledger of positive entries every entity counts for at least one. */
  function CountOf(counts: map<int, int>, rid: int): (c: int)
    ensures Positive(counts) ==> c >= 1
  {
    if rid in counts then counts[rid] else 1
  }

  /** Every stored count is at least one. */
  predicate Positive(counts: map<int, int>) {
    forall k :: k in counts ==> counts[k] >= 1
  }

  /** Every stored count is at most the cap. */
  predicate Bounded(counts: map<int, int>, cap: int) {
    forall k :: k in counts ==> counts[k] <= cap
  }

  /** Under a positive ledger bounded by a positive cap, every entity's
      count lies between one and the cap; an entity with no entry (never
      counted, or popped) counts as a single mob. */
  lemma CountOfRange(counts: map<int, int>, rid: int, cap: int)
    requires Positive(counts) && Bounded(counts, cap) && cap >= 1
    ensures 1 <= CountOf(counts, rid) <= cap
    ensures CountOf(counts - {rid}, rid) == 1
  {
  }

  /** Dropping one entry leaves every other count as it was. */
  lemma CountOfRemove(counts: map<int, int>, rid: int, other: int)
    requires other != rid
    ensures CountOf(counts - {rid}, other) == CountOf(counts, other)
  {
  }

  /** `_at_cap`: the entity's count has reached the cap. */
  predicate AtCap(counts: map<int, int>, rid: int, cap: int) {
    CountOf(counts, rid) >= cap
  }

  /** The ledgers agree on every id below `nb` outside `ids` (ids from
      `nb` on belong to entities that did not exist yet). */
  ghost predicate SameOutsideIds(before: map<int, int>, after: map<int, int>, nb: int, id: int) {
    forall x :: x < nb && x != id ==> (x in after <==> x in before) && (x in after ==> after[x] == before[x])
  }

  lemma SameOutsideIdsTrans(a: map<int, int>, na: int, b: map<int, int>, nb: int, c: map<int, int>, id1: int, id2: int)
    requires SameOutsideIds(a, b, na, id1) && SameOutsideIds(b, c, nb, id2) && na <= nb
    requires id2 == id1 || id2 >= na
    ensures SameOutsideIds(a, c, na, id1)
  {
  }

  /** The ledger after `pop` of each of `ids` in turn. */
  function RemoveAll(m: map<int, int>, ids: seq<int>): (r: map<int, int>)
    ensures forall x :: (x in r <==> x in m && x !in ids) && (x in r ==> r[x] == m[x])
  {
    if ids == [] then m
    else
      assert ids == ids[..|ids| - 1] + [ids[|ids| - 1]];
      RemoveAll(m, ids[..|ids| - 1]) - {ids[|ids| - 1]}
  }

  function Max(a: int, b: int): int {
    if a >= b then a else b
  }

  function Min(a: int, b: int): int {
    if a <= b then a else b
  }

  /** `max(1, min(count, cap))`: the stored size of a promoted leader. It is
      at least one, at most the cap when the cap is positive, and the count
      itself when that already lies in range. */
  function Clamp(count: int, cap: int): (r: int)
    ensures r >= 1
    ensures cap >= 1 ==> r <= cap
    ensures 1 <= count <= cap ==> r == count
    ensures r <= Max(1, count)
  {
    Max(1, Min(count, cap))
  }

  /** A pending-queue key: dimension token, block and normalised type. */
  datatype PendingKey = PendingKey(dim: string, block: Block, typ: string)

  datatype Entry = Entry(key: PendingKey, n: int)

  /** The queue as a dict in insertion order. */
  predicate UniqueKeys(p: seq<Entry>) {
    forall i, j :: 0 <= i < j < |p| ==> p[i].key != p[j].key
  }

  predicate HasKey(p: seq<Entry>, k: PendingKey) {
    exists i :: 0 <= i < |p| && p[i].key == k
  }

  /** `pending.get(k, 0)` */
  function Get(p: seq<Entry>, k: PendingKey): int {
    if p == [] then 0 else if p[0].key == k then p[0].n else Get(p[1..], k)
  }

  /** Sum of all queued counts. */
  function Total(p: seq<Entry>): int {
    if p == [] then 0 else p[0].n + Total(p[1..])
  }

  /** Membership of a key splits at the head of the queue. */
  lemma HasKeyCons(p: seq<Entry>, k: PendingKey)
    requires p != []
    ensures HasKey(p, k) <==> p[0].key == k || HasKey(p[1..], k)
  {
    if HasKey(p, k) && p[0].key != k {
      var i :| 0 <= i < |p| && p[i].key == k;
      assert p[1..][i - 1].key == k;
    }
    if HasKey(p[1..], k) {
      var i :| 0 <= i < |p[1..]| && p[1..][i].key == k;
      assert p[i + 1].key == k;
    }
  }

  /** A queue with unique keys does not repeat its head key in its tail. */
  lemma UniqueKeysCons(p: seq<Entry>)
    requires p != []
    ensures UniqueKeys(p) <==> UniqueKeys(p[1..]) && !HasKey(p[1..], p[0].key)
  {
    if UniqueKeys(p[1..]) && !HasKey(p[1..], p[0].key) {
      forall i, j | 0 <= i < j < |p| ensures p[i].key != p[j].key {
        if i == 0 {
          assert p[1..][j - 1] == p[j];
        } else {
          assert p[1..][i - 1] == p[i] && p[1..][j - 1] == p[j];
        }
      }
    }
  }

  /** `pending[k] = pending.get(k, 0) + n`: an existing key keeps its place
      and grows by n; a new key is appended with n. */
  function Enqueue(p: seq<Entry>, k: PendingKey, n: int): (r: seq<Entry>)
    requires UniqueKeys(p)
    ensures UniqueKeys(r)
    ensures Get(r, k) == Get(p, k) + n
    ensures forall k' :: k' != k ==> Get(r, k') == Get(p, k')
    ensures Total(r) == Total(p) + n
    ensures forall k' :: HasKey(r, k') <==> HasKey(p, k') || k' == k
    ensures HasKey(p, k) ==> |r| == |p| && forall i :: 0 <= i < |p| ==> r[i].key == p[i].key
    ensures !HasKey(p, k) ==> r == p + [Entry(k, n)]
  {
    if p == [] then
      var r := [Entry(k, n)];
      assert forall k' :: HasKey(r, k') <==> k' == k by {
        forall k' ensures HasKey(r, k') <==> k' == k { HasKeyCons(r, k'); }
      }
      r
    else
      UniqueKeysCons(p);
      HasKeyCons(p, k);
      if p[0].key == k then
        var r := [Entry(k, p[0].n + n)] + p[1..];
        assert r[1..] == p[1..];
        GetMissing(p[1..], k);
        assert forall k' :: HasKey(r, k') <==> HasKey(p, k') by {
          forall k' ensures HasKey(r, k') <==> HasKey(p, k') { HasKeyCons(r, k'); HasKeyCons(p, k'); }
        }
        UniqueKeysCons(r);
        r
      else
        var rest := Enqueue(p[1..], k, n);
        var r := [p[0]] + rest;
        assert r[1..] == rest;
        assert forall k' :: HasKey(r, k') <==> HasKey(p, k') || k' == k by {
          forall k' ensures HasKey(r, k') <==> HasKey(p, k') || k' == k { HasKeyCons(r, k'); HasKeyCons(p, k'); }
        }
        UniqueKeysCons(r);
        r
  }

  /** A key that is not queued reads as 0. */
  lemma {:induction false} GetMissing(p: seq<Entry>, k: PendingKey)
    requires !HasKey(p, k)
    ensures Get(p, k) == 0
  {
    if p != [] {
      HasKeyCons(p, k);
      GetMissing(p[1..], k);
    }
  }

  /** `pending.pop(k, None)` */
  function Pop(p: seq<Entry>, k: PendingKey): (r: seq<Entry>)
    requires UniqueKeys(p)
    ensures UniqueKeys(r)
    ensures !HasKey(r, k) && Get(r, k) == 0
    ensures forall k' :: k' != k ==> Get(r, k') == Get(p, k') && (HasKey(r, k') <==> HasKey(p, k'))
    ensures Total(r) == Total(p) - Get(p, k)
    ensures |r| <= |p|
  {
    if p == [] then []
    else
      UniqueKeysCons(p);
      if p[0].key == k then
        GetMissing(p[1..], k);
        assert forall k' :: k' != k ==> (HasKey(p[1..], k') <==> HasKey(p, k')) by {
          forall k' | k' != k ensures HasKey(p[1..], k') <==> HasKey(p, k') { HasKeyCons(p, k'); }
        }
        p[1..]
      else
        var rest := Pop(p[1..], k);
        var r := [p[0]] + rest;
        assert r[1..] == rest;
        HasKeyCons(r, k);
        HasKeyCons(r, p[0].key);
        assert !HasKey(rest, p[0].key);
        UniqueKeysCons(r);
        assert forall k' :: k' != k ==> (HasKey(r, k') <==> HasKey(p, k')) by {
          forall k' | k' != k ensures HasKey(r, k') <==> HasKey(p, k') { HasKeyCons(r, k'); HasKeyCons(p, k'); }
        }
        r
  }

  /** `list(pending.items())[:8]`: the entries a drain pass handles. */
  function DrainBatch(p: seq<Entry>): (b: seq<Entry>)
    ensures |b| == Min(8, |p|) && b <= p
  {
    if |p| <= 8 then p else p[..8]
  }

  /** A drain pass takes eight entries when there are that many and the
      whole queue otherwise; the batch and the entries left after it make
      up the queue again, with distinct keys on both sides and no key on
      both. */
  lemma DrainBatchSplits(p: seq<Entry>)
    requires UniqueKeys(p)
    ensures var b := DrainBatch(p);
            |b| == Min(8, |p|) && b + p[|b|..] == p
            && UniqueKeys(b) && UniqueKeys(p[|b|..])
            && forall k :: !(HasKey(b, k) && HasKey(p[|b|..], k))
  {
    var b := DrainBatch(p);
    var rest := p[|b|..];
    assert b + rest == p;
  }

  /** Enqueueing the same amount three times under one key queues three times
      that amount. */
  lemma EnqueueThrice(p: seq<Entry>, k: PendingKey, n: int)
    requires UniqueKeys(p)
    ensures Get(Enqueue(Enqueue(Enqueue(p, k, n), k, n), k, n), k) == Get(p, k) + 3 * n
    ensures Total(Enqueue(Enqueue(Enqueue(p, k, n), k, n), k, n)) == Total(p) + 3 * n
  {
  }

  /** A key set in one pass of the pruning loops: the entries of `m` whose
      id is live, with their values unchanged. */
  method PruneMap(m: map<int, int>, live: set<int>) returns (r: map<int, int>)
    ensures forall k :: k in r <==> k in m && k in live
    ensures forall k :: k in r ==> r[k] == m[k]
  {
    r := m;
    var keys := m.Keys;
    while keys != {}
      invariant keys <= m.Keys
      invariant forall k :: k in r <==> k in m && (k in keys || k in live)
      invariant forall k :: k in r ==> r[k] == m[k]
      decreases keys
    {
      assert (forall x :: x !in keys) ==> keys == {};
      var k :| k in keys;
      if k !in live {
        r := r - {k};
      }
      keys := keys - {k};
    }
  }
}
