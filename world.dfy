/** The host world as the stacker sees it: entity records and the level that
    holds them. Attribute probing on host objects (`_is_baby`, `_is_tamed`,
    the runtime id, validity) becomes plain fields of the record; a removed
    entity stays in the level with `valid` false, as a removed host object
    keeps answering `is_valid == False`. */
module World {
  import opened Wrappers
  import opened Geometry
  import Names

  datatype Actor = Actor(
    rid: int,
    typ: string,
    dim: string,
    pos: Pos,
    isMob: bool,
    valid: bool,
    dead: bool,
    baby: bool,
    tamed: bool,
    tags: set<string>,
    name: string)

  /** `_is_leader` */
  predicate IsLeader(a: Actor) {
    Names.StackTag in a.tags
  }

  /** A mob the scans consider at all: `isinstance(a, Mob)`, valid, not dead. */
  predicate LiveMob(a: Actor) {
    a.isMob && a.valid && !a.dead
  }

  predicate UniqueRids(s: seq<Actor>) {
    forall i, j :: 0 <= i < j < |s| ==> s[i].rid != s[j].rid
  }

  /** The record of the entity with runtime id `rid`, if the level has one. */
  function Find(s: seq<Actor>, rid: int): (r: Option<Actor>)
    ensures r.None? <==> forall i :: 0 <= i < |s| ==> s[i].rid != rid
    ensures r.Some? ==> r.value in s && r.value.rid == rid
  {
    if s == [] then None
    else if s[0].rid == rid then Some(s[0])
    else Find(s[1..], rid)
  }

  /** With unique ids, the record at index i is what Find returns for its id. */
  lemma {:induction false} FindAt(s: seq<Actor>, i: int)
    requires UniqueRids(s) && 0 <= i < |s|
    ensures Find(s, s[i].rid) == Some(s[i])
  {
    if i > 0 {
      assert s[0].rid != s[i].rid;
      FindAt(s[1..], i - 1);
    }
  }

  /** With unique ids, a member is what Find returns for its id. */
  lemma FindMember(s: seq<Actor>, a: Actor)
    requires UniqueRids(s) && a in s
    ensures Find(s, a.rid) == Some(a)
  {
    var i :| 0 <= i < |s| && s[i] == a;
    FindAt(s, i);
  }

  /** An id the level knows is below any bound on all its ids. */
  lemma FindBelow(s: seq<Actor>, next: int, x: int)
    requires forall i :: 0 <= i < |s| ==> s[i].rid < next
    requires Find(s, x).Some?
    ensures x < next
  {
    var i :| 0 <= i < |s| && s[i] == Find(s, x).value;
  }

  /** The level with the record of `rid` replaced by `a` (which keeps `rid`). */
  function Replace(s: seq<Actor>, rid: int, a: Actor): (r: seq<Actor>)
    requires a.rid == rid
    ensures |r| == |s|
    ensures forall i :: 0 <= i < |s| ==> r[i] == (if s[i].rid == rid then a else s[i])
  {
    seq(|s|, i requires 0 <= i < |s| => if s[i].rid == rid then a else s[i])
  }

  /** Replacing one record leaves every other id's record in place. */
  lemma {:induction false} ReplaceFind(s: seq<Actor>, rid: int, a: Actor, x: int)
    requires a.rid == rid && UniqueRids(s)
    ensures UniqueRids(Replace(s, rid, a))
    ensures Find(Replace(s, rid, a), x) == if x == rid && Find(s, rid).Some? then Some(a) else Find(s, x)
  {
    var r := Replace(s, rid, a);
    if Find(r, x).Some? {
      var i :| 0 <= i < |r| && r[i] == Find(r, x).value;
      FindAt(r, i);
      FindAt(s, i);
    }
  }

  /** What the host may change in an entity record while the stacker runs:
      tags, name, and validity, which only goes from true to false. */
  predicate Stable(a: Actor, b: Actor) {
    b.rid == a.rid && b.typ == a.typ && b.dim == a.dim && b.pos == a.pos && b.isMob == a.isMob
    && b.dead == a.dead && b.baby == a.baby && b.tamed == a.tamed && (b.valid ==> a.valid)
  }

  /** The level after some operations: existing records only change as
      `Stable` allows and new entities are appended with fresh ids. */
  predicate Evolves(before: seq<Actor>, nextBefore: int, after: seq<Actor>) {
    |before| <= |after|
    && (forall i :: 0 <= i < |before| ==> Stable(before[i], after[i]))
    && (forall i :: |before| <= i < |after| ==> after[i].rid >= nextBefore)
  }

  lemma EvolvesTrans(a: seq<Actor>, na: int, b: seq<Actor>, nb: int, c: seq<Actor>)
    requires Evolves(a, na, b) && Evolves(b, nb, c) && na <= nb
    ensures Evolves(a, na, c)
  {
  }

  lemma EvolvesRefl(a: seq<Actor>, n: int)
    ensures Evolves(a, n, a)
  {
  }

  /** After the level evolves, every id it already had is still there, with
      a record that only changed as `Stable` allows. */
  lemma EvolvesFind(before: seq<Actor>, nb: int, after: seq<Actor>, x: int)
    requires Evolves(before, nb, after) && UniqueRids(before) && UniqueRids(after)
    requires Find(before, x).Some?
    ensures Find(after, x).Some? && Stable(Find(before, x).value, Find(after, x).value)
  {
    var i :| 0 <= i < |before| && before[i] == Find(before, x).value;
    assert Stable(before[i], after[i]);
    FindAt(after, i);
  }

  /** The same for every id at once. */
  lemma EvolvesKeeps(before: seq<Actor>, nb: int, after: seq<Actor>)
    requires Evolves(before, nb, after) && UniqueRids(before) && UniqueRids(after)
    ensures forall x :: Find(before, x).Some? ==> Find(after, x).Some? && Stable(Find(before, x).value, Find(after, x).value)
  {
    forall x | Find(before, x).Some?
      ensures Find(after, x).Some? && Stable(Find(before, x).value, Find(after, x).value)
    {
      EvolvesFind(before, nb, after, x);
    }
  }

  /** Every id below `nb` other than `id` keeps its record. */
  ghost predicate SameOutside(before: seq<Actor>, nb: int, after: seq<Actor>, id: int) {
    forall x :: x < nb && x != id ==> Find(after, x) == Find(before, x)
  }

  /** Two frames compose when the second one's exception is the first one's
      or a fresh id. */
  lemma SameOutsideTrans(a: seq<Actor>, na: int, b: seq<Actor>, nb: int, c: seq<Actor>, id1: int, id2: int)
    requires SameOutside(a, na, b, id1) && SameOutside(b, nb, c, id2) && na <= nb
    requires id2 == id1 || id2 >= na
    ensures SameOutside(a, na, c, id1)
  {
  }

  /** A change the stacker makes to one entity through the host API. */
  datatype Patch = Rename(name: string) | AddTag(tag: string) | RemoveTag(tag: string) | Kill

  /** The entity record after the change: `a.name_tag = name`,
      `a.add_scoreboard_tag(tag)`, `a.remove_scoreboard_tag(tag)`,
      `a.remove()`. */
  function Apply(a: Actor, p: Patch): (b: Actor)
    ensures Stable(a, b)
    ensures p.Kill? ==> !b.valid && b.tags == a.tags && b.name == a.name
    ensures !p.Kill? ==> b.valid == a.valid
    ensures p.Rename? ==> b.name == p.name && b.tags == a.tags
    ensures p.AddTag? ==> b.tags == a.tags + {p.tag} && b.name == a.name
    ensures p.RemoveTag? ==> b.tags == a.tags - {p.tag} && b.name == a.name
  {
    match p
    case Rename(n) => a.(name := n)
    case AddTag(t) => a.(tags := a.tags + {t})
    case RemoveTag(t) => a.(tags := a.tags - {t})
    case Kill => a.(valid := false)
  }

  /** The level after applying `p` to the entity `rid`; a missing id is
      left alone, as the host's exception is swallowed. */
  function Patched(s: seq<Actor>, rid: int, p: Patch): seq<Actor> {
    match Find(s, rid)
    case None => s
    case Some(a) => Replace(s, rid, Apply(a, p))
  }

  /** Patching one id changes that id's record as `Apply` says and no other. */
  lemma PatchedFind(s: seq<Actor>, rid: int, p: Patch, x: int)
    requires UniqueRids(s)
    ensures UniqueRids(Patched(s, rid, p))
    ensures Evolves(s, 0, Patched(s, rid, p)) && |Patched(s, rid, p)| == |s|
    ensures Find(Patched(s, rid, p), x) ==
              if x == rid && Find(s, rid).Some? then Some(Apply(Find(s, rid).value, p)) else Find(s, x)
  {
    if Find(s, rid).Some? {
      ReplaceFind(s, rid, Apply(Find(s, rid).value, p), x);
    }
  }

  /** The level after `a.remove()` on each of `ids` in turn. */
  function KillAll(s: seq<Actor>, ids: seq<int>): seq<Actor> {
    if ids == [] then s else Patched(KillAll(s, ids[..|ids| - 1]), ids[|ids| - 1], Kill)
  }

  /** Removing several entities marks exactly those invalid. */
  lemma {:induction false} KillAllFind(s: seq<Actor>, ids: seq<int>, x: int)
    requires UniqueRids(s)
    ensures UniqueRids(KillAll(s, ids)) && Evolves(s, 0, KillAll(s, ids)) && |KillAll(s, ids)| == |s|
    ensures Find(KillAll(s, ids), x) ==
              if x in ids && Find(s, x).Some? then Some(Find(s, x).value.(valid := false)) else Find(s, x)
  {
    if ids != [] {
      var init := ids[..|ids| - 1];
      var last := ids[|ids| - 1];
      assert ids == init + [last];
      KillAllFind(s, init, x);
      KillAllFind(s, init, last);
      PatchedFind(KillAll(s, init), last, Kill, x);
      EvolvesTrans(s, 0, KillAll(s, init), 0, KillAll(s, ids));
    }
  }

  /** Every removed entity that the level knew is now invalid, and its id
      is below any bound on the level's ids. */
  lemma KillAllKilled(s: seq<Actor>, ids: seq<int>, next: int)
    requires UniqueRids(s) && forall i :: 0 <= i < |s| ==> s[i].rid < next
    ensures forall x :: x in ids && Find(s, x).Some? ==>
              x < next && Find(KillAll(s, ids), x).Some? && !Find(KillAll(s, ids), x).value.valid
  {
    forall x | x in ids && Find(s, x).Some?
      ensures x < next && Find(KillAll(s, ids), x).Some? && !Find(KillAll(s, ids), x).value.valid
    {
      KillAllFind(s, ids, x);
      FindBelow(s, next, x);
    }
  }

  /** What one summon command does, as the host decides it: the command is
      refused, or accepted without the entity being visible yet, or accepted
      with the entity appearing at `offset` from the requested point,
      possibly as a baby. */
  datatype SummonOutcome = Refused | Unseen | Appears(offset: Pos, baby: bool)

  /** The server level: its entities in iteration order, the outcomes the
      host will give to the next summon commands, and the next unused id. */
  class Level {
    var actors: seq<Actor>
    var summons: seq<SummonOutcome>
    var nextRid: int

    ghost predicate Valid()
      reads this
    {
      UniqueRids(actors) && forall i :: 0 <= i < |actors| ==> actors[i].rid < nextRid
    }

    constructor (actors0: seq<Actor>, summons0: seq<SummonOutcome>, next: int)
      requires UniqueRids(actors0)
      requires forall i :: 0 <= i < |actors0| ==> actors0[i].rid < next
      ensures Valid()
      ensures actors == actors0 && summons == summons0 && nextRid == next
    {
      actors := actors0;
      summons := summons0;
      nextRid := next;
    }

    /** One host call on an entity (rename, tag, untag, remove). */
    method Change(rid: int, p: Patch)
      requires Valid()
      modifies this
      ensures Valid()
      ensures summons == old(summons) && nextRid == old(nextRid)
      ensures actors == Patched(old(actors), rid, p)
      ensures Evolves(old(actors), nextRid, actors)
      ensures forall x :: Find(actors, x) == if x == rid && Find(old(actors), rid).Some?
                                              then Some(Apply(Find(old(actors), rid).value, p))
                                              else Find(old(actors), x)
    {
      forall x ensures Find(Patched(actors, rid, p), x) == if x == rid && Find(actors, rid).Some?
                                              then Some(Apply(Find(actors, rid).value, p))
                                              else Find(actors, x) {
        PatchedFind(actors, rid, p, x);
      }
      PatchedFind(actors, rid, p, rid);
      actors := Patched(actors, rid, p);
    }

    /** `_safe_summon`: the command is tried at several offsets until one is
        accepted; the host's answer is the next scripted outcome (an empty
        script refuses). A visible newborn is an adult or baby mob of the
        requested type in the requested dimension, with a fresh id, untamed,
        untagged and unnamed. */
    method Summon(etype: string, dim: string, at: Pos) returns (ok: bool)
      requires Valid()
      modifies this
      ensures Valid()
      ensures Evolves(old(actors), old(nextRid), actors) && nextRid >= old(nextRid)
      ensures forall x :: x < old(nextRid) ==> Find(actors, x) == Find(old(actors), x)
      ensures old(summons) == [] ==> !ok && summons == [] && actors == old(actors) && nextRid == old(nextRid)
      ensures old(summons) != [] ==> summons == old(summons)[1..]
      ensures old(summons) != [] ==> ok == !old(summons)[0].Refused?
      ensures old(summons) != [] && !old(summons)[0].Appears? ==> actors == old(actors) && nextRid == old(nextRid)
      ensures old(summons) != [] && old(summons)[0].Appears? ==>
        var o := old(summons)[0];
        nextRid == old(nextRid) + 1
        && actors == old(actors) + [Newborn(old(nextRid), etype, dim, at, o)]
      ensures actors == AfterSummon(old(actors), old(summons), old(nextRid), etype, dim, at)
    {
      if summons == [] {
        ok := false;
        return;
      }
      var o := summons[0];
      summons := summons[1..];
      ok := !o.Refused?;
      if o.Appears? {
        var n := Newborn(nextRid, etype, dim, at, o);
        forall x | x < nextRid ensures Find(actors + [n], x) == Find(actors, x) {
          AppendFind(actors, n, x);
        }
        actors := actors + [n];
        nextRid := nextRid + 1;
      }
    }
  }

  /** The entities after a summon of `etype` in `dim` at `at`, as the next
      scripted outcome decides: a newborn with id `nb` is appended only when
      it appears. */
  function AfterSummon(actors: seq<Actor>, summons: seq<SummonOutcome>, nb: int, etype: string, dim: string, at: Pos)
    : seq<Actor>
  {
    if summons != [] && summons[0].Appears? then actors + [Newborn(nb, etype, dim, at, summons[0])] else actors
  }

  /** The record of a summoned entity. */
  function Newborn(rid: int, etype: string, dim: string, at: Pos, o: SummonOutcome): Actor
    requires o.Appears?
  {
    Actor(rid, etype, dim, Pos(at.x + o.offset.x, at.y + o.offset.y, at.z + o.offset.z),
          true, true, false, o.baby, false, {}, "")
  }

  /** A summon leaves every existing id's record as it was. */
  lemma {:induction false} AppendFind(s: seq<Actor>, a: Actor, x: int)
    requires forall i :: 0 <= i < |s| ==> s[i].rid != a.rid
    ensures x != a.rid ==> Find(s + [a], x) == Find(s, x)
    ensures Find(s + [a], a.rid) == Some(a)
    decreases |s|
  {
    if s != [] {
      assert (s + [a])[1..] == s[1..] + [a];
      AppendFind(s[1..], a, x);
    }
  }
}
