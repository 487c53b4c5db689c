/** The plugin's own reader for its config file: a line-oriented subset of
    TOML with `[table]` headers, `key = value` lines, quoted strings,
    booleans and arrays of quoted strings. Only the assignments that sit
    under the `[stacking]` header are kept. */
module Toml {
  import opened Wrappers
  import opened Text

  /** A value read from the right-hand side of an assignment. Number text
      is kept as `Scalar`: its conversion to int or float is not modelled. */
  datatype Value =
    | Bool(b: bool)
    | Str(s: string)
    | Strings(items: seq<string>)
    | Scalar(text: string)

  type Table = map<string, Value>

  /** `s.startswith(open) and s.endswith(close)` for one-character affixes;
      a single character counts as both. */
  predicate Wrapped(s: string, open: char, close: char) {
    |s| >= 1 && s[0] == open && s[|s| - 1] == close
  }

  /** Python's `s[1:-1]`. */
  function Inner(s: string): string {
    if |s| >= 2 then s[1..|s| - 1] else []
  }

  predicate Quoted(s: string) {
    Wrapped(s, '"', '"') || Wrapped(s, '\'', '\'')
  }

  /** What one comma-separated array part contributes: its unquoted text
      when it is quoted, nothing otherwise. */
  function Unquoted(part: string): seq<string> {
    var p := Strip(part);
    if Quoted(p) then [Inner(p)] else []
  }

  function QuotedItems(parts: seq<string>): seq<string> {
    if parts == [] then [] else Unquoted(parts[0]) + QuotedItems(parts[1..])
  }

  /** The items of an array whose brackets are already removed and whose
      body is stripped. */
  function ArrayItems(inner: string): seq<string> {
    if inner == [] then [] else QuotedItems(Split(inner, ','))
  }

  /** The value of the text to the right of `=`, already stripped. */
  function ParseValue(val: string): Value {
    if Wrapped(val, '[', ']') then Strings(ArrayItems(Strip(Inner(val))))
    else if Quoted(val) then Str(Inner(val))
    else if Lower(val) == "true" || Lower(val) == "false" then Bool(Lower(val) == "true")
    else Scalar(val)
  }

  /** How one raw line is read. */
  datatype Line = Ignored | Header(name: string) | Assign(key: string, val: string)

  function ReadLine(raw: string): Line {
    var line := Strip(raw);
    if line == [] || line[0] == '#' then Ignored
    else if Wrapped(line, '[', ']') then Header(Strip(Inner(line)))
    else if '=' !in line then Ignored
    else
      var eq := IndexOf(line, '=');
      Assign(Strip(line[..eq]), Strip(line[eq + 1..]))
  }

  /** The reader's state between lines: the current header, if any, and
      the `stacking` table so far. */
  datatype Reader = Reader(section: Option<string>, table: Table)

  const Stacking: string := "stacking"

  function Feed(r: Reader, raw: string): Reader {
    match ReadLine(raw)
    case Ignored => r
    case Header(name) => r.(section := Some(name))
    case Assign(key, val) =>
      if r.section == Some(Stacking) then r.(table := r.table[key := ParseValue(val)]) else r
  }

  function FeedAll(r: Reader, lines: seq<string>): Reader
    decreases |lines|
  {
    if lines == [] then r else Feed(FeedAll(r, lines[..|lines| - 1]), lines[|lines| - 1])
  }

  /** The lines of the file after a leading byte-order mark is dropped. */
  function Lines(text: string): seq<string> {
    SplitLines(LStripChar(text, '\U{FEFF}'))
  }

  /** The `stacking` table read from the whole file. */
  function StackingTable(text: string): Table {
    FeedAll(Reader(None, map[]), Lines(text)).table
  }

  /** The loop over the parts of an array body. */
  method ReadArray(inner: string) returns (items: seq<string>)
    ensures items == ArrayItems(inner)
  {
    items := [];
    if inner == [] {
      return;
    }
    var parts := Split(inner, ',');
    for i := 0 to |parts|
      invariant items + QuotedItems(parts[i..]) == QuotedItems(parts)
    {
      var part := Strip(parts[i]);
      QuotedItemsStep(parts, i, items);
      var next := if Quoted(part) then items + [Inner(part)] else items;
      assert next == items + Unquoted(parts[i]);
      items := next;
    }
    assert parts[|parts|..] == [];
  }

  lemma QuotedItemsStep(parts: seq<string>, i: nat, items: seq<string>)
    requires i < |parts|
    ensures items + QuotedItems(parts[i..]) == (items + Unquoted(parts[i])) + QuotedItems(parts[i + 1..])
  {
    assert parts[i..][1..] == parts[i + 1..];
  }

  /** The line loop of the reader: each line is read in turn, a later
      assignment overwriting an earlier one. */
  method ParseTomlSimple(text: string) returns (table: Table)
    ensures table == StackingTable(text)
  {
    var lines := Lines(text);
    var section: Option<string> := None;
    table := map[];
    for i := 0 to |lines|
      invariant Reader(section, table) == FeedAll(Reader(None, map[]), lines[..i])
    {
      assert lines[..i + 1][..i] == lines[..i];
      section, table := ReadOneLine(section, table, lines[i]);
    }
    assert lines[..|lines|] == lines;
  }

  /** One pass of the line loop: the line is stripped, comments and blank
      lines are skipped, a header switches the section and an assignment
      under `[stacking]` sets its key. */
  method ReadOneLine(section: Option<string>, table: Table, raw: string)
    returns (section': Option<string>, table': Table)
    ensures Reader(section', table') == Feed(Reader(section, table), raw)
  {
    section', table' := section, table;
    var line := Strip(raw);
    if line == [] || line[0] == '#' {
      return;
    }
    if Wrapped(line, '[', ']') {
      section' := Some(Strip(Inner(line)));
      return;
    }
    if '=' !in line {
      return;
    }
    var eq := IndexOf(line, '=');
    var key, val := Strip(line[..eq]), Strip(line[eq + 1..]);
    if section != Some(Stacking) {
      return;
    }
    if Wrapped(val, '[', ']') {
      var items := ReadArray(Strip(Inner(val)));
      table' := table[key := Strings(items)];
    } else if Quoted(val) {
      table' := table[key := Str(Inner(val))];
    } else {
      var low := Lower(val);
      if low == "true" || low == "false" {
        table' := table[key := Bool(low == "true")];
      } else {
        table' := table[key := Scalar(val)];
      }
    }
  }

  // ---------- helpers ----------

  /** A string whose ends are not blank loses exactly one added blank. */
  lemma StripLeadingBlank(x: string)
    requires x != [] && !IsSpace(x[0]) && !IsSpace(x[|x| - 1])
    ensures Strip([' '] + x) == x
  {
    var y := [' '] + x;
    assert RStrip(y) == y;
    assert y[1..] == x;
    assert LStrip(y) == LStrip(x);
  }

  /** The first separator after a separator-free prefix is found right there. */
  lemma {:induction false} IndexAfterPrefix(a: string, c: char, x: string)
    requires c !in a
    ensures IndexOf(a + [c] + x, c) == |a|
  {
    if a != [] {
      assert (a + [c] + x)[1..] == a[1..] + [c] + x;
      IndexAfterPrefix(a[1..], c, x);
    }
  }

  lemma SplitAfterPrefix(a: string, x: string)
    requires ',' !in a
    ensures Split(a + [','] + x, ',') == [a] + Split(x, ',')
  {
    var s := a + [','] + x;
    IndexAfterPrefix(a, ',', x);
    assert s[..|a|] == a;
    assert s[|a| + 1..] == x;
  }

  // ---------- properties ----------

  /** `"s"` (or `'s'`) reads back as the string `s`, whatever `s` holds. */
  lemma QuotedRoundTrip(s: string)
    ensures ParseValue(['"'] + s + ['"']) == Str(s)
    ensures ParseValue(['\''] + s + ['\'']) == Str(s)
  {
    var d := ['"'] + s + ['"'];
    var q := ['\''] + s + ['\''];
    assert Inner(d) == s;
    assert Inner(q) == s;
  }

  /** Booleans are read case-insensitively: any spelling whose lower-case
      form is `true` or `false` is that boolean. */
  lemma BoolCaseInsensitive(val: string)
    requires Lower(val) == "true" || Lower(val) == "false"
    ensures ParseValue(val) == Bool(Lower(val) == "true")
  {
    LowerSpec(val);
    assert Lower(val)[0] == LowerChar(val[0]);
  }

  /** `"t"`, the way the fallback config writer quotes one type id. */
  function Quote(t: string): string {
    ['"'] + t + ['"']
  }

  /** The array body the fallback config writer produces for a list of
      type ids: the quoted ids joined by `", "`. */
  function QuotedList(ts: seq<string>): string
    decreases |ts|
  {
    if ts == [] then []
    else if |ts| == 1 then Quote(ts[0])
    else Quote(ts[0]) + [','] + [' '] + QuotedList(ts[1..])
  }

  function ArrayText(ts: seq<string>): string {
    ['['] + QuotedList(ts) + [']']
  }

  /** A quoted id without commas is one array part and reads back as the
      id, with or without a blank in front of it. */
  lemma QuoteFacts(t: string)
    requires ',' !in t
    ensures ',' !in Quote(t)
    ensures Unquoted(Quote(t)) == [t]
    ensures Unquoted([' '] + Quote(t)) == [t]
  {
    var q := Quote(t);
    forall k | 0 <= k < |q|
      ensures q[k] != ','
    {
      if 0 < k < |q| - 1 {
        assert q[k] == t[k - 1];
      }
    }
    StripNoop(q);
    StripLeadingBlank(q);
    assert Inner(q) == t;
  }

  /** A blank in front of a string only widens the first comma-separated
      part. */
  lemma SplitBlankFront(x: string)
    ensures Split([' '] + x, ',') == [[' '] + Split(x, ',')[0]] + Split(x, ',')[1..]
  {
    var y := [' '] + x;
    assert y[1..] == x;
    if ',' in x {
      var i := IndexOf(x, ',');
      assert IndexOf(y, ',') == i + 1;
      assert y[..i + 1] == [' '] + x[..i];
      assert y[i + 2..] == x[i + 1..];
    }
  }

  /** The parts of `QuotedList(ts)` give back `ts`; the first part is the
      first quoted id. */
  lemma {:induction false} QuotedListItems(ts: seq<string>)
    requires |ts| >= 1
    requires forall k :: 0 <= k < |ts| ==> ',' !in ts[k]
    ensures Split(QuotedList(ts), ',')[0] == Quote(ts[0])
    ensures QuotedItems(Split(QuotedList(ts), ',')) == ts
    decreases |ts|
  {
    var q := Quote(ts[0]);
    QuoteFacts(ts[0]);
    if |ts| == 1 {
      assert Split(QuotedList(ts), ',') == [q];
      assert QuotedItems([q]) == Unquoted(q) + QuotedItems([]);
    } else {
      var rest := QuotedList(ts[1..]);
      QuotedListSplit(ts);
      QuotedListItems(ts[1..]);
      QuotedItemsBlank(rest, ts[1]);
      assert ts == [ts[0]] + ts[1..];
    }
  }

  lemma QuotedListSplit(ts: seq<string>)
    requires |ts| >= 2 && ',' !in ts[0]
    ensures Split(QuotedList(ts), ',') == [Quote(ts[0])] + Split([' '] + QuotedList(ts[1..]), ',')
  {
    var q := Quote(ts[0]);
    var rest := QuotedList(ts[1..]);
    QuoteFacts(ts[0]);
    assert QuotedList(ts) == q + [','] + ([' '] + rest);
    SplitAfterPrefix(q, [' '] + rest);
  }

  /** A blank in front of a list whose first part is a quoted id changes
      nothing once each part is stripped. */
  lemma QuotedItemsBlank(x: string, t: string)
    requires ',' !in t && Split(x, ',')[0] == Quote(t)
    ensures QuotedItems(Split([' '] + x, ',')) == QuotedItems(Split(x, ','))
  {
    QuoteFacts(t);
    SplitBlankFront(x);
    var p := Split(x, ',');
    var tail := Split([' '] + x, ',');
    assert tail[1..] == p[1..];
    assert QuotedItems(tail) == Unquoted(tail[0]) + QuotedItems(tail[1..]);
    assert QuotedItems(p) == Unquoted(p[0]) + QuotedItems(p[1..]);
  }

  /** Round trip with the fallback config writer: an array of type ids
      without commas reads back as exactly those ids, in order. */
  lemma ArrayRoundTrip(ts: seq<string>)
    requires forall k :: 0 <= k < |ts| ==> ',' !in ts[k]
    ensures ParseValue(ArrayText(ts)) == Strings(ts)
  {
    var v := ArrayText(ts);
    assert Inner(v) == QuotedList(ts);
    if ts == [] {
      assert Strip([]) == [];
    } else {
      var x := QuotedList(ts);
      assert x[0] == '"';
      QuotedListLast(ts);
      StripNoop(x);
      QuotedListItems(ts);
      assert ArrayItems(x) == QuotedItems(Split(x, ','));
    }
  }

  lemma {:induction false} QuotedListLast(ts: seq<string>)
    requires |ts| >= 1
    ensures |QuotedList(ts)| >= 2 && QuotedList(ts)[|QuotedList(ts)| - 1] == '"'
    decreases |ts|
  {
    if |ts| > 1 {
      QuotedListLast(ts[1..]);
    }
  }

  /** Keys and values outside the `[stacking]` table are ignored: a file
      with no line that opens `[stacking]` yields an empty table. */
  lemma {:induction false} NoStackingHeaderEmpty(lines: seq<string>)
    requires forall k :: 0 <= k < |lines| ==> ReadLine(lines[k]) != Header(Stacking)
    ensures FeedAll(Reader(None, map[]), lines).table == map[]
    ensures FeedAll(Reader(None, map[]), lines).section != Some(Stacking)
    decreases |lines|
  {
    if lines != [] {
      var pre := lines[..|lines| - 1];
      assert forall k :: 0 <= k < |pre| ==> pre[k] == lines[k];
      NoStackingHeaderEmpty(pre);
    }
  }

  /** Every key of the table was assigned by some line of the file. */
  lemma {:induction false} KeysFromAssignments(lines: seq<string>, key: string)
    requires key in FeedAll(Reader(None, map[]), lines).table
    ensures exists k :: 0 <= k < |lines| && ReadLine(lines[k]).Assign? && ReadLine(lines[k]).key == key
    decreases |lines|
  {
    var pre := lines[..|lines| - 1];
    var last := lines[|lines| - 1];
    var line := ReadLine(last);
    if line.Assign? && line.key == key {
      assert ReadLine(lines[|lines| - 1]).key == key;
    } else {
      assert key in FeedAll(Reader(None, map[]), pre).table;
      KeysFromAssignments(pre, key);
      var k :| 0 <= k < |pre| && ReadLine(pre[k]).Assign? && ReadLine(pre[k]).key == key;
      assert pre[k] == lines[k];
    }
  }

  /** The last assignment to a key under `[stacking]` decides its value. */
  lemma LastAssignmentWins(lines: seq<string>, raw: string)
    requires FeedAll(Reader(None, map[]), lines).section == Some(Stacking)
    requires ReadLine(raw).Assign?
    ensures FeedAll(Reader(None, map[]), lines + [raw]).table[ReadLine(raw).key]
         == ParseValue(ReadLine(raw).val)
  {
    var all := lines + [raw];
    assert all[..|all| - 1] == lines;
  }
}
