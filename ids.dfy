/** Entity type identifiers: normalisation (`_normalize_id`), the alias table
    and the allowed-type cache built from the configured list. */
module Ids {
  import opened Text

  const Prefix: string := "minecraft:"
  const ZombifiedPiglin: string := "minecraft:zombified_piglin"

  /** ID_ALIASES: old names of the zombified piglin. */
  const Aliases: map<string, string> := map[
    "zombie_piglin" := ZombifiedPiglin,
    "minecraft:zombie_piglin" := ZombifiedPiglin,
    "minecraft:zombified_piglin" := ZombifiedPiglin,
    "minecraft:zombie_pigman" := ZombifiedPiglin,
    "zombie_pigman" := ZombifiedPiglin
  ]

  /** `ID_ALIASES.get(t, t)` */
  function AliasOf(t: string): string {
    if t in Aliases then Aliases[t] else t
  }

  /** The trimmed, lower-cased id with the namespace added when it has none;
      this is also what the settings menu's `_clean_id` computes. */
  function Qualified(raw: string): string {
    var t := Lower(Strip(raw));
    if t == "" then "" else if ':' in t then t else Prefix + t
  }

  /** `_normalize_id`: trim, lower-case, add `minecraft:` when there is no
      namespace, then rewrite the zombie-pigman aliases. */
  function NormalizeId(raw: string): string {
    AliasOf(Qualified(raw))
  }

  predicate IsLowerId(s: string) {
    forall i :: 0 <= i < |s| ==> !IsUpperAscii(s[i])
  }

  /** Prefixing the namespace keeps an id free of upper-case letters. */
  lemma {:induction false} PrefixKeepsLower(t: string)
    requires IsLowerId(t)
    ensures IsLowerId(Prefix + t)
  {
    var q := Prefix + t;
    forall i | 0 <= i < |q| ensures !IsUpperAscii(q[i]) {
      if i < |Prefix| { assert q[i] == Prefix[i]; } else { assert q[i] == t[i - |Prefix|]; }
    }
  }

  /** Lower-casing a stripped string keeps it stripped, keeps its colons and
      leaves no upper-case letter. */
  lemma LowerShape(s: string)
    requires s == [] || (!IsSpace(s[0]) && !IsSpace(s[|s| - 1]))
    ensures Lower(s) == [] <==> s == []
    ensures Lower(s) != [] ==> !IsSpace(Lower(s)[0]) && !IsSpace(Lower(s)[|s| - 1])
    ensures IsLowerId(Lower(s))
    ensures ':' in Lower(s) <==> ':' in s
  {
    LowerSpec(s);
    LowerKeepsColon(s);
    if s != [] {
      LowerCharSpace(s[0]);
      LowerCharSpace(s[|s| - 1]);
    }
  }

  lemma QualifiedBlank(raw: string)
    ensures Qualified(raw) == "" <==> AllSpace(raw)
  {
    StripSpec(raw);
    assert Lower(Strip(raw)) == [] <==> Strip(raw) == [];
  }

  lemma QualifiedNamespaced(raw: string)
    requires !AllSpace(raw)
    ensures ':' in Qualified(raw) && IsLowerId(Qualified(raw))
  {
    var s := Strip(raw);
    StripSpec(raw);
    LowerShape(s);
    var t := Lower(s);
    if ':' !in t {
      var q := Prefix + t;
      assert ':' == q[9];
      PrefixKeepsLower(t);
    }
  }

  lemma QualifiedTrimmed(raw: string)
    requires !AllSpace(raw)
    ensures Qualified(raw) != [] && !IsSpace(Qualified(raw)[0])
    ensures !IsSpace(Qualified(raw)[|Qualified(raw)| - 1])
  {
    var s := Strip(raw);
    StripSpec(raw);
    LowerShape(s);
    var t := Lower(s);
    assert t != [] && !IsSpace(t[0]) && !IsSpace(t[|t| - 1]);
    if ':' !in t {
      var q := Prefix + t;
      assert Qualified(raw) == q;
      assert q[0] == 'm';
      assert q[|q| - 1] == t[|t| - 1];
    } else {
      assert Qualified(raw) == t;
    }
  }

  /** A non-empty qualified id has a namespace, no upper-case letter and no
      surrounding whitespace; it is empty exactly for blank input. */
  lemma QualifiedShape(raw: string)
    ensures Qualified(raw) == "" <==> AllSpace(raw)
    ensures Qualified(raw) != "" ==>
      ':' in Qualified(raw) && IsLowerId(Qualified(raw))
      && !IsSpace(Qualified(raw)[0]) && !IsSpace(Qualified(raw)[|Qualified(raw)| - 1])
  {
    QualifiedBlank(raw);
    if !AllSpace(raw) {
      QualifiedNamespaced(raw);
      QualifiedTrimmed(raw);
    }
  }

  /** Facts about the alias table: every alias rewrites to the zombified
      piglin, which is itself a lower-case namespaced id mapped to itself. */
  lemma AliasFacts()
    ensures forall k :: k in Aliases ==> Aliases[k] == ZombifiedPiglin
    ensures "" !in Aliases && ZombifiedPiglin in Aliases
    ensures IsLowerId(ZombifiedPiglin) && ZombifiedPiglin[9] == ':'
    ensures ZombifiedPiglin[0] == 'm' && ZombifiedPiglin[|ZombifiedPiglin| - 1] == 'n'
  {
  }

  /** The properties the engine relies on: blank input maps to "", anything
      else to a lower-case namespaced id, with every zombie-pigman spelling
      mapped to the zombified piglin. */
  lemma {:induction false} NormalizeIdShape(raw: string)
    ensures NormalizeId(raw) == "" <==> AllSpace(raw)
    ensures NormalizeId(raw) != "" ==> ':' in NormalizeId(raw) && IsLowerId(NormalizeId(raw))
    ensures Qualified(raw) in Aliases ==> NormalizeId(raw) == ZombifiedPiglin
    ensures Qualified(raw) !in Aliases ==> NormalizeId(raw) == Qualified(raw)
  {
    QualifiedShape(raw);
    AliasFacts();
  }

  /** A qualified id is its own qualification. */
  lemma {:induction false} QualifiedIdempotent(raw: string)
    ensures Qualified(Qualified(raw)) == Qualified(raw)
  {
    var q := Qualified(raw);
    QualifiedShape(raw);
    if q != "" {
      StripNoop(q);
      LowerNoUpper(q);
    }
  }

  /** The alias target is already in normal form. */
  lemma PiglinIsNormal()
    ensures NormalizeId(ZombifiedPiglin) == ZombifiedPiglin
  {
    AliasFacts();
    PiglinTrimmedLower();
  }

  /** The alias target has no surrounding space, no upper-case letter and a
      namespace. */
  lemma PiglinTrimmedLower()
    ensures Lower(Strip(ZombifiedPiglin)) == ZombifiedPiglin && ':' in ZombifiedPiglin
  {
    var z := ZombifiedPiglin;
    AliasFacts();
    StripNoop(z);
    LowerNoUpper(z);
    assert ZombifiedPiglin[9] == ':';
  }

  /** Normalising twice is normalising once. */
  lemma {:induction false} NormalizeIdIdempotent(raw: string)
    ensures NormalizeId(NormalizeId(raw)) == NormalizeId(raw)
  {
    var q := Qualified(raw);
    AliasFacts();
    if q in Aliases {
      PiglinIsNormal();
    } else {
      QualifiedIdempotent(raw);
    }
  }

  /** `_rebuild_allowed_cache`: the normalised image of the non-blank entries
      of the configured list. */
  function AllowedCache(allowed: seq<string>): set<string> {
    set x | x in allowed && Strip(x) != "" :: NormalizeId(x)
  }

  /** The cache holds exactly the normalised forms of the non-blank entries,
      never "" and only ids that normalisation leaves unchanged. */
  lemma {:induction false} AllowedCacheShape(allowed: seq<string>, id: string)
    ensures id in AllowedCache(allowed) <==> exists x :: x in allowed && Strip(x) != "" && NormalizeId(x) == id
    ensures id in AllowedCache(allowed) ==> id != "" && NormalizeId(id) == id
  {
    if id in AllowedCache(allowed) {
      var x :| x in allowed && Strip(x) != "" && NormalizeId(x) == id;
      NormalizeIdShape(x);
      NormalizeIdIdempotent(x);
    }
  }

  /** `_is_allowed` */
  predicate IsAllowed(cache: set<string>, etype: string) {
    NormalizeId(etype) in cache
  }

  /** `_same_type` */
  predicate SameType(a: string, b: string) {
    NormalizeId(a) == NormalizeId(b)
  }
}
