/** The helpers of the in-game settings menu: reading a modal form's answer,
    the 0/1 toggles, and the two edits the menu makes to the list of
    allowed entity types. */
module Menu {
  import opened Wrappers
  import opened Text
  import opened Ids
  import opened Ledger
  import opened Engine

  /** What a modal form hands back: a list already; a text, together with
      what `json.loads` makes of it (the list it encodes, or None when it
      fails or encodes something else); or anything else. A list element
      is `None` for a missing answer. */
  datatype Payload<T> =
    | AsList(items: seq<Option<T>>)
    | AsText(decoded: Option<seq<Option<T>>>)
    | Other

  /** The list the payload stands for; the empty list when there is none. */
  function PayloadValues<T>(data: Payload<T>): seq<Option<T>> {
    match data
    case AsList(items) => items
    case AsText(decoded) => if decoded.Some? then decoded.value else []
    case Other => []
  }

  /** `_split_modal_payload`: exactly `expect` answers, the payload's first
      ones in order and `None` after them. A negative `expect` drops that
      many answers from the end, as the slice `vals[:expect]` does. */
  function SplitModalPayload<T>(data: Payload<T>, expected: int): (r: seq<Option<T>>)
    ensures |r| == if expected >= 0 then expected else Max(0, |PayloadValues(data)| + expected)
    ensures forall i :: 0 <= i < |r| && i < |PayloadValues(data)| ==> r[i] == PayloadValues(data)[i]
    ensures forall i :: |PayloadValues(data)| <= i < |r| ==> r[i] == None
  {
    var vals := PayloadValues(data);
    if |vals| < expected then vals + seq(expected - |vals|, _ => None)
    else if expected >= 0 then vals[..expected]
    else vals[..Max(0, |vals| + expected)]
  }

  /** A payload that is not a list, and does not decode to one, gives
      `expect` missing answers. */
  lemma BadPayloadAllNone<T>(data: Payload<T>, expected: nat)
    requires data.Other? || (data.AsText? && data.decoded.None?)
    ensures SplitModalPayload(data, expected) == seq(expected, _ => None)
  {
    var r := SplitModalPayload(data, expected);
    assert PayloadValues(data) == [];
    assert forall i :: 0 <= i < expected ==> r[i] == None;
  }

  /** `_zero_one`: `parsed` is `int(float(v))`, or None when that raises. */
  function ZeroOne(parsed: Option<int>, default: int): (r: int)
    ensures r == 0 || r == 1
    ensures parsed.Some? ==> (r == 1 <==> parsed.value >= 1)
    ensures parsed.None? ==> (r == 1 <==> default != 0)
  {
    match parsed
    case Some(n) => if n >= 1 then 1 else 0
    case None => if default != 0 then 1 else 0
  }

  /** `_as_bool01` */
  function AsBool01(v: int): bool {
    v >= 1
  }

  /** The `enabled` toggle of the settings form, read with `_zero_one` and
      stored with `_as_bool01`: a parsed value enables exactly when it is at
      least one, a parse failure keeps the current setting, and a 0/1 toggle
      reads back as itself. */
  lemma EnabledReadBack(parsed: Option<int>, current: bool)
    ensures parsed.Some? ==> (AsBool01(ZeroOne(parsed, if current then 1 else 0)) <==> parsed.value >= 1)
    ensures parsed.None? ==> AsBool01(ZeroOne(parsed, if current then 1 else 0)) == current
    ensures AsBool01(ZeroOne(Some(1), if current then 1 else 0)) && !AsBool01(ZeroOne(Some(0), if current then 1 else 0))
  {
  }


  /** The list edit of `_confirm_remove`: every entry equal to `etype` is
      dropped. */
  function RemoveAll(allow: seq<string>, etype: string): (r: seq<string>)
    ensures etype !in r
    ensures forall t :: t in r <==> t in allow && t != etype
    ensures |r| <= |allow|
  {
    if allow == [] then []
    else (if allow[0] == etype then [] else [allow[0]]) + RemoveAll(allow[1..], etype)
  }

  /** Removal works entry by entry, so the entries it keeps stay in their
      relative order. */
  lemma {:induction false} RemoveAllAppend(a: seq<string>, b: seq<string>, etype: string)
    ensures RemoveAll(a + b, etype) == RemoveAll(a, etype) + RemoveAll(b, etype)
  {
    if a != [] {
      assert (a + b)[1..] == a[1..] + b;
      RemoveAllAppend(a[1..], b, etype);
    } else {
      assert a + b == b;
    }
  }

  /** Removing a type that is not listed leaves the list as it is. */
  lemma {:induction false} RemoveAllAbsent(allow: seq<string>, etype: string)
    requires etype !in allow
    ensures RemoveAll(allow, etype) == allow
  {
    if allow != [] {
      RemoveAllAbsent(allow[1..], etype);
    }
  }

  predicate NoDuplicates(xs: seq<string>) {
    forall i, j :: 0 <= i < j < |xs| ==> xs[i] != xs[j]
  }

  /** Removal never introduces a duplicate. */
  lemma {:induction false} RemoveAllNoDuplicates(allow: seq<string>, etype: string)
    requires NoDuplicates(allow)
    ensures NoDuplicates(RemoveAll(allow, etype))
  {
    if allow != [] {
      RemoveAllNoDuplicates(allow[1..], etype);
      assert allow[0] !in allow[1..];
    }
  }

  /** The list edit of `_add_type`: `t` is appended when it is absent. */
  function AppendIfAbsent(allow: seq<string>, t: string): (r: seq<string>)
    ensures t in r && allow <= r
    ensures |r| == if t in allow then |allow| else |allow| + 1
    ensures NoDuplicates(allow) ==> NoDuplicates(r)
  {
    if t in allow then allow else allow + [t]
  }

  /** The id typed into the add form: the first answer, or "" when it is
      missing, cleaned by `_clean_id` (which is `Ids.Qualified`). */
  function EnteredId(data: Payload<string>): string {
    var vals := SplitModalPayload(data, 1);
    Qualified(if vals[0].Some? then vals[0].value else "")
  }

  datatype AddOutcome = Invalid | AlreadyPresent(id: string) | Added(id: string)

  /** `_confirm_remove`: an unlisted type changes nothing; a listed one is
      removed with all its copies and the cache is rebuilt. */
  method ConfirmRemove(p: Stacker, etype: string) returns (removed: bool)
    requires p.Valid()
    modifies p`settings, p`allowedCache
    ensures p.Valid()
    ensures removed <==> etype in old(p.settings.allowedTypes)
    ensures p.settings == old(p.settings).(allowedTypes := RemoveAll(old(p.settings.allowedTypes), etype))
    ensures !removed ==> p.allowedCache == old(p.allowedCache)
    ensures removed ==> p.allowedCache == AllowedCache(p.settings.allowedTypes)
  {
    var allow := p.settings.allowedTypes;
    if etype !in allow {
      RemoveAllAbsent(allow, etype);
      return false;
    }
    p.WriteAllow(RemoveAll(allow, etype));
    return true;
  }

  /** The submit handler of `_add_type`: a blank id is refused, a listed
      one is reported, and a new one is appended, after which the typed
      text names an allowed type. */
  method SubmitAddType(p: Stacker, data: Payload<string>) returns (outcome: AddOutcome)
    requires p.Valid()
    modifies p`settings, p`allowedCache
    ensures p.Valid()
    ensures EnteredId(data) == "" ==> outcome == Invalid
    ensures EnteredId(data) != "" && EnteredId(data) in old(p.settings.allowedTypes) ==>
              outcome == AlreadyPresent(EnteredId(data))
    ensures EnteredId(data) != "" && EnteredId(data) !in old(p.settings.allowedTypes) ==>
              outcome == Added(EnteredId(data))
    ensures outcome.Added? ==>
              p.settings == old(p.settings).(allowedTypes := old(p.settings.allowedTypes) + [outcome.id])
              && p.allowedCache == AllowedCache(p.settings.allowedTypes)
              && IsAllowed(p.allowedCache, outcome.id)
    ensures !outcome.Added? ==> p.settings == old(p.settings) && p.allowedCache == old(p.allowedCache)
  {
    var vals := SplitModalPayload(data, 1);
    var raw := if vals[0].Some? then vals[0].value else "";
    var t := Qualified(raw);
    if t == "" {
      return Invalid;
    }
    var allow := p.settings.allowedTypes;
    if t in allow {
      return AlreadyPresent(t);
    }
    var next := AppendIfAbsent(allow, t);
    p.WriteAllow(next);
    QualifiedIdempotent(raw);
    EnteredIdAllowed(allow, t);
    return Added(t);
  }

  /** A cleaned, non-empty id placed in the list is allowed by the cache
      built from it. */
  lemma EnteredIdAllowed(allow: seq<string>, t: string)
    requires t != "" && Qualified(t) == t
    ensures IsAllowed(AllowedCache(allow + [t]), t)
  {
    QualifiedShape(t);
    StripSpec(t);
    assert t in allow + [t];
  }
}
