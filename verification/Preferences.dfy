/**
 The map-valued settings: which section of `config.ini` means what, how tables, sort
 orders and process rules are printed, and how each key is taken over when read.
 */
module Preferences {
  import opened Common
  import opened Text
  import opened Ini
  import opened Values
  import PR = ProcessRules

  datatype SortBy = SortBy(column: string, ascending: bool)

  datatype Prefs = Prefs(
    widths: map<string, map<string, real>>,
    visible: map<string, map<string, bool>>,
    order: map<string, seq<string>>,
    sort: map<string, SortBy>,
    rules: map<string, PR.Rule>)

  const NOTHING := Prefs(map[], map[], map[], map[], map[])

  // -------------------------------------------------------------- sections

  datatype Kind = Width | Visible | Order

  datatype Section = General | Legacy | Sort | Rules | Table(kind: Kind, table: string) | Other

  const COLUMNS := "columns."

  function Suffix(kind: Kind): string {
    match kind
    case Width => ""
    case Visible => ".visible"
    case Order => ".order"
  }

  function TableName(kind: Kind, table: string): string {
    COLUMNS + table + Suffix(kind)
  }

  /** What a section name stands for; the part after the last dot decides. */
  function SectionOf(name: string): Section {
    if name == "general" then General
    else if name == "columns" then Legacy
    else if name == "sort" then Sort
    else if name == "process-rules" then Rules
    else if COLUMNS <= name then TableOf(name[|COLUMNS|..])
    else Other
  }

  function TableOf(rest: string): Section {
    var i := FindLast(rest, '.');
    if i >= 0 && rest[i..] == ".visible" then Table(Visible, rest[..i])
    else if i >= 0 && rest[i..] == ".order" then Table(Order, rest[..i])
    else Table(Width, rest)
  }

  /** Width sections of tables with these names mean something else. */
  predicate OwnWidths(table: string) {
    !HasSuffix(table, ".visible") && !HasSuffix(table, ".order")
  }

  predicate HasSuffix(s: string, suffix: string) {
    |suffix| <= |s| && s[|s| - |suffix|..] == suffix
  }

  lemma LastDot(s: string, suffix: string)
    requires suffix != [] && suffix[0] == '.' && '.' !in suffix[1..]
    ensures HasSuffix(s, suffix) <==> FindLast(s, '.') >= 0 && s[FindLast(s, '.')..] == suffix
  {
    var i := FindLast(s, '.');
    if HasSuffix(s, suffix) {
      var j := |s| - |suffix|;
      assert s[j] == s[j..][0] == '.';
      assert forall k :: j < k < |s| ==> s[k] == s[j..][1..][k - j - 1];
      assert i == j;
    }
  }

  lemma RestOfTable(kind: Kind, table: string)
    ensures TableOf(table + Suffix(kind)) == Table(kind, table) <==> (kind == Width ==> OwnWidths(table))
  {
    var rest := table + Suffix(kind);
    LastDot(rest, ".visible");
    LastDot(rest, ".order");
    hide FindLast, HasSuffix;
    if kind.Width? {
      assert rest == table;
    } else {
      assert rest[|table|..] == Suffix(kind) && rest[..|table|] == table;
      assert HasSuffix(rest, Suffix(kind));
    }
  }

  /** Each kind of table section is told apart from every other section, except for the width tables singled out above. */
  lemma SectionNames(kind: Kind, table: string)
    ensures SectionOf(TableName(kind, table)) == Table(kind, table) <==> (kind == Width ==> OwnWidths(table))
  {
    hide TableOf, OwnWidths, Suffix;
    var name := TableName(kind, table);
    var rest := table + Suffix(kind);
    assert name == COLUMNS + rest && name[|COLUMNS|..] == rest && COLUMNS <= name;
    assert name[7] == '.';
    RestOfTable(kind, table);
  }

  lemma NameOfTable(rest: string)
    ensures TableOf(rest).Table? && rest == TableOf(rest).table + Suffix(TableOf(rest).kind)
  {
    var i := FindLast(rest, '.');
    if i >= 0 {
      assert rest == rest[..i] + rest[i..];
    }
    assert rest + "" == rest;
    hide FindLast;
  }

  lemma NameOfSection(name: string)
    ensures SectionOf(name).Table? ==> name == TableName(SectionOf(name).kind, SectionOf(name).table)
    ensures SectionOf(name).General? ==> name == "general"
    ensures SectionOf(name).Sort? ==> name == "sort"
    ensures SectionOf(name).Rules? ==> name == "process-rules"
    ensures SectionOf(name).Legacy? ==> name == "columns"
  {
    hide TableOf, Suffix;
    if COLUMNS <= name {
      var rest := name[|COLUMNS|..];
      NameOfTable(rest);
      assert name == COLUMNS + rest;
      Regroup(COLUMNS, TableOf(rest).table, Suffix(TableOf(rest).kind));
    }
  }

  // -------------------------------------------------------------- printing

  function EntriesOf(ids: seq<string>, texts: map<string, string>): Entries
    requires forall i :: 0 <= i < |ids| ==> ids[i] in texts
  {
    if ids == [] then []
    else EntriesOf(ids[..|ids| - 1], texts) + [(ids[|ids| - 1], texts[ids[|ids| - 1]])]
  }

  /** The entries of one map, in the order it is walked. */
  function MapEntries(env: Env, texts: map<string, string>): Entries
    requires WalksFaithful(env)
  {
    EntriesOf(env.strings(texts.Keys), texts)
  }

  lemma {:induction false} LookEntriesOf(ids: seq<string>, texts: map<string, string>, k: string)
    requires forall i :: 0 <= i < |ids| ==> ids[i] in texts
    ensures Look(EntriesOf(ids, texts), k) == if k in ids then Some(texts[k]) else None
    decreases |ids|
  {
    if ids != [] {
      LookEntriesOf(ids[..|ids| - 1], texts, k);
      assert ids == ids[..|ids| - 1] + [ids[|ids| - 1]];
    }
  }

  lemma LookMap(env: Env, texts: map<string, string>, k: string)
    requires WalksFaithful(env)
    ensures Look(MapEntries(env, texts), k) == if k in texts then Some(texts[k]) else None
    ensures MapEntries(env, texts) == [] <==> texts == map[]
  {
    var ids := env.strings(texts.Keys);
    LookEntriesOf(ids, texts, k);
    if ids == [] && texts != map[] {
      var x :| x in texts;
      assert x in texts.Keys && x in ids;
    }
    if texts == map[] && ids != [] {
      assert ids[0] in ids;
    }
  }

  function WidthTexts(env: Env, cols: map<string, real>): map<string, string> {
    map c | c in cols :: env.showWidth(cols[c])
  }

  function VisibleTexts(cols: map<string, bool>): map<string, string> {
    map c | c in cols :: ShowBit(cols[c])
  }

  function ShowSort(s: SortBy): string {
    s.column + "," + ShowBool(s.ascending)
  }

  function SortTexts(sort: map<string, SortBy>): map<string, string> {
    map t | t in sort :: ShowSort(sort[t])
  }

  function Tables(p: Prefs, kind: Kind): set<string> {
    match kind
    case Width => p.widths.Keys
    case Visible => p.visible.Keys
    case Order => p.order.Keys
  }

  /** What the section of one table holds. */
  function Cells(env: Env, p: Prefs, kind: Kind, table: string): Entries
    requires WalksFaithful(env)
  {
    if table !in Tables(p, kind) then []
    else match kind
      case Width => MapEntries(env, WidthTexts(env, p.widths[table]))
      case Visible => MapEntries(env, VisibleTexts(p.visible[table]))
      case Order => if p.order[table] == [] then [] else [("order", Join(p.order[table], ','))]
  }

  const WIDTH_NOTE := "# column id = width px"

  const VISIBLE_NOTE := "# column id = 0 (hidden) | 1 (shown)"

  function Note(kind: Kind): string {
    match kind
    case Width => WIDTH_NOTE + "\n"
    case Visible => VISIBLE_NOTE + "\n"
    case Order => ""
  }

  function TableBlock(env: Env, p: Prefs, kind: Kind, table: string): Block
    requires WalksFaithful(env)
  {
    Block("\n", TableName(kind, table), Note(kind), Cells(env, p, kind, table))
  }

  /** One section per table that has something to print. */
  function TableBlocks(env: Env, p: Prefs, kind: Kind, tables: seq<string>): seq<Block>
    requires WalksFaithful(env)
  {
    if tables == [] then []
    else
      var t := tables[|tables| - 1];
      TableBlocks(env, p, kind, tables[..|tables| - 1]) +
      if Cells(env, p, kind, t) == [] then [] else [TableBlock(env, p, kind, t)]
  }

  const SORT_NOTE := "# table = stable column id, ascending"

  // In two pieces: proofs follow a literal character by character, and only so far.
  const RULES_NOTE := "# rule.N = JSON [normalized" + " image path, scheduling policy]"

  function SortBlocks(env: Env, p: Prefs): seq<Block>
    requires WalksFaithful(env)
  {
    if p.sort == map[] then [] else [Block("\n", "sort", SORT_NOTE + "\n", MapEntries(env, SortTexts(p.sort)))]
  }

  /** The paths whose rule says something. */
  function Telling(paths: seq<string>, rules: map<string, PR.Rule>): (r: seq<string>)
    ensures forall i :: 0 <= i < |r| ==> r[i] in paths && r[i] in rules && !rules[r[i]].IsEmpty()
  {
    if paths == [] then []
    else
      var path := paths[|paths| - 1];
      Telling(paths[..|paths| - 1], rules) + if path in rules && !rules[path].IsEmpty() then [path] else []
  }

  const RULE := "rule."

  /** Rules are numbered in the order they are printed. */
  function RuleEntries(env: Env, paths: seq<string>, rules: map<string, PR.Rule>): Entries
    requires forall i :: 0 <= i < |paths| ==> paths[i] in rules
  {
    if paths == [] then []
    else
      var path := paths[|paths| - 1];
      RuleEntries(env, paths[..|paths| - 1], rules) + [(RULE + Dec(|paths| - 1), env.toJson(path, rules[path]))]
  }

  function PrintedRules(env: Env, p: Prefs): Entries {
    RuleEntries(env, Telling(env.strings(p.rules.Keys), p.rules), p.rules)
  }

  function RuleBlocks(env: Env, p: Prefs): seq<Block> {
    if PrintedRules(env, p) == [] then [] else [Block("\n", "process-rules", RULES_NOTE + "\n", PrintedRules(env, p))]
  }

  /** Everything printed after the general section. */
  function PrefBlocks(env: Env, p: Prefs): seq<Block>
    requires WalksFaithful(env)
  {
    TableBlocks(env, p, Width, env.strings(p.widths.Keys)) +
    TableBlocks(env, p, Visible, env.strings(p.visible.Keys)) +
    TableBlocks(env, p, Order, env.strings(p.order.Keys)) +
    SortBlocks(env, p) + RuleBlocks(env, p)
  }

  // --------------------------------------------------------------- reading

  const LEAST_WIDTH := 40.0

  const MOST_WIDTH := 1200.0

  function ReadWidth(env: Env, table: string, value: string): Option<real> {
    var w := env.read(value);
    if table != "columns" && w.Some? && LEAST_WIDTH <= w.value <= MOST_WIDTH then w else None
  }

  function ReadSort(value: string): Option<SortBy> {
    var i := FindLast(value, ',');
    if i < 0 then None
    else
      var column, ascending := Trim(value[..i]), ParseBool(Trim(value[i + 1..]));
      if column == [] || ascending.None? then None else Some(SortBy(column, ascending.value))
  }

  /** Trimmed, without the empty ones. */
  function Ids(parts: seq<string>): seq<string> {
    if parts == [] then []
    else
      var id := Trim(parts[|parts| - 1]);
      Ids(parts[..|parts| - 1]) + if id == [] then [] else [id]
  }

  function ReadOrder(value: string): seq<string> {
    Ids(Split(value, ','))
  }

  function ReadRule(env: Env, value: string): Option<(string, PR.Rule)> {
    var r := env.fromJson(value);
    if r.Some? && Trim(r.value.0) != [] && !r.value.1.IsEmpty() then r else None
  }

  function Into<T>(m: map<string, map<string, T>>, table: string, id: string, v: T): map<string, map<string, T>> {
    m[table := (if table in m then m[table] else map[])[id := v]]
  }

  /** Take over one key. */
  function Absorb(env: Env, p: Prefs, section: string, key: string, value: string): Prefs {
    match SectionOf(section)
    case Sort =>
      var s := ReadSort(value);
      if s.None? then p else p.(sort := p.sort[key := s.value])
    case Rules =>
      var r := ReadRule(env, value);
      if !(RULE <= key) || r.None? then p else p.(rules := p.rules[r.value.0 := r.value.1])
    case Table(Visible, table) =>
      var on := ParseBool(value);
      if on.None? then p else p.(visible := Into(p.visible, table, key, on.value))
    case Table(Order, table) =>
      if key != "order" || ReadOrder(value) == [] then p else p.(order := p.order[table := ReadOrder(value)])
    case Table(Width, table) =>
      var w := ReadWidth(env, table, value);
      if w.None? then p else p.(widths := Into(p.widths, table, key, w.value))
    case _ => p
  }

  predicate Listed(keys: seq<(string, string)>, m: Keys) {
    forall i :: 0 <= i < |keys| ==> keys[i] in m
  }

  function AbsorbAll(env: Env, m: Keys, keys: seq<(string, string)>): Prefs
    requires Listed(keys, m)
  {
    if keys == [] then NOTHING
    else
      var k := keys[|keys| - 1];
      Absorb(env, AbsorbAll(env, m, keys[..|keys| - 1]), k.0, k.1, m[k])
  }

  // ------------------------------------------------ what reading takes over

  function Get<T>(m: map<string, T>, k: string): Option<T> {
    if k in m then Some(m[k]) else None
  }

  function Get2<T>(m: map<string, map<string, T>>, table: string, id: string): Option<T> {
    if table in m && id in m[table] then Some(m[table][id]) else None
  }

  ghost predicate NoEmpties<T>(m: map<string, map<string, T>>) {
    forall t :: t in m ==> m[t] != map[]
  }

  lemma SameMap<T>(a: map<string, T>, b: map<string, T>)
    requires forall k :: Get(a, k) == Get(b, k)
    ensures a == b
  {
    forall k
      ensures k in a <==> k in b
      ensures k in a ==> a[k] == b[k]
    {
      assert Get(a, k) == Get(b, k);
    }
  }

  lemma SameNested<T>(a: map<string, map<string, T>>, b: map<string, map<string, T>>)
    requires NoEmpties(a) && NoEmpties(b)
    requires forall t, k :: Get2(a, t, k) == Get2(b, t, k)
    ensures a == b
  {
    forall t
      ensures Get(a, t) == Get(b, t)
    {
      if t in a {
        var k :| k in a[t];
        assert Get2(a, t, k) == Get2(b, t, k);
      }
      if t in b {
        var k :| k in b[t];
        assert Get2(a, t, k) == Get2(b, t, k);
      }
      if t in a && t in b {
        forall k
          ensures Get(a[t], k) == Get(b[t], k)
        {
          assert Get2(a, t, k) == Get2(b, t, k);
        }
        SameMap(a[t], b[t]);
      }
    }
    SameMap(a, b);
  }

  lemma IntoAt<T>(m: map<string, map<string, T>>, table: string, id: string, v: T, t: string, k: string)
    ensures Get2(Into(m, table, id, v), t, k) == if t == table && k == id then Some(v) else Get2(m, t, k)
    ensures NoEmpties(m) ==> NoEmpties(Into(m, table, id, v))
  {
    assert id in Into(m, table, id, v)[table];
  }

  /** The value a key has, if it is among the listed ones. */
  function Value(m: Keys, keys: seq<(string, string)>, section: string, key: string): Option<string> {
    if (section, key) in keys then At(m, section, key) else None
  }

  // What each map should hold, given the value of the one key that speaks about a cell.

  function WidthCell(env: Env, table: string, v: Option<string>): Option<real> {
    if v.None? || !OwnWidths(table) then None else ReadWidth(env, table, v.value)
  }

  function VisibleCell(v: Option<string>): Option<bool> {
    if v.None? then None else ParseBool(v.value)
  }

  function OrderCell(v: Option<string>): Option<seq<string>> {
    if v.None? || ReadOrder(v.value) == [] then None else Some(ReadOrder(v.value))
  }

  function SortCell(v: Option<string>): Option<SortBy> {
    if v.None? then None else ReadSort(v.value)
  }

  function Else<T>(o: Option<T>, d: Option<T>): Option<T> {
    if o.Some? then o else d
  }

  /** The value offered for (`section`, `key`) by one key of the file. */
  function Offered(k: (string, string), value: string, section: string, key: string): Option<string> {
    if k == (section, key) then Some(value) else None
  }

  /** One more key: only its own cell can change. */
  lemma AbsorbWidth(env: Env, p: Prefs, k: (string, string), value: string, table: string, id: string)
    ensures
      var q := Absorb(env, p, k.0, k.1, value);
      && Get2(q.widths, table, id) ==
         Else(WidthCell(env, table, Offered(k, value, TableName(Width, table), id)), Get2(p.widths, table, id))
      && (NoEmpties(p.widths) ==> NoEmpties(q.widths))
  {
    hide SectionOf, ReadWidth, ParseBool, ReadSort, ReadOrder, ReadRule, TableName, Into, Get2, NoEmpties, OwnWidths;
    SectionNames(Width, table);
    NameOfSection(k.0);
    if SectionOf(k.0).Table? {
      var t := SectionOf(k.0).table;
      SectionNames(Width, t);
      if ReadWidth(env, t, value).Some? { IntoAt(p.widths, t, k.1, ReadWidth(env, t, value).value, table, id); }
    }
  }

  lemma AbsorbVisible(env: Env, p: Prefs, k: (string, string), value: string, table: string, id: string)
    ensures
      var q := Absorb(env, p, k.0, k.1, value);
      && Get2(q.visible, table, id) ==
         Else(VisibleCell(Offered(k, value, TableName(Visible, table), id)), Get2(p.visible, table, id))
      && (NoEmpties(p.visible) ==> NoEmpties(q.visible))
  {
    hide SectionOf, ReadWidth, ParseBool, ReadSort, ReadOrder, ReadRule, TableName, Into, Get2, NoEmpties, OwnWidths;
    SectionNames(Visible, table);
    NameOfSection(k.0);
    if SectionOf(k.0).Table? {
      if ParseBool(value).Some? { IntoAt(p.visible, SectionOf(k.0).table, k.1, ParseBool(value).value, table, id); }
    }
  }

  lemma AbsorbOrder(env: Env, p: Prefs, k: (string, string), value: string, table: string)
    ensures Get(Absorb(env, p, k.0, k.1, value).order, table) ==
            Else(OrderCell(Offered(k, value, TableName(Order, table), "order")), Get(p.order, table))
  {
    hide SectionOf, ReadWidth, ParseBool, ReadSort, ReadOrder, ReadRule, TableName, Into, OwnWidths;
    SectionNames(Order, table);
    NameOfSection(k.0);
  }

  lemma SortSection()
    ensures SectionOf("sort") == Sort && SectionOf("process-rules") == Rules && SectionOf("general") == General
  {
  }

  lemma AbsorbSort(env: Env, p: Prefs, k: (string, string), value: string, table: string)
    ensures Get(Absorb(env, p, k.0, k.1, value).sort, table) ==
            Else(SortCell(Offered(k, value, "sort", table)), Get(p.sort, table))
  {
    hide SectionOf, ReadWidth, ParseBool, ReadSort, ReadOrder, ReadRule, TableName, Into, OwnWidths;
    SortSection();
    NameOfSection(k.0);
  }

  /** A parsed file gives every cell the value of its own key, whatever the order of the keys. */
  lemma {:induction false} CellsRead(env: Env, m: Keys, keys: seq<(string, string)>, table: string, id: string)
    requires Listed(keys, m)
    ensures
      var p := AbsorbAll(env, m, keys);
      && Get2(p.widths, table, id) == WidthCell(env, table, Value(m, keys, TableName(Width, table), id))
      && Get2(p.visible, table, id) == VisibleCell(Value(m, keys, TableName(Visible, table), id))
      && Get(p.order, table) == OrderCell(Value(m, keys, TableName(Order, table), "order"))
      && Get(p.sort, table) == SortCell(Value(m, keys, "sort", table))
      && NoEmpties(p.widths) && NoEmpties(p.visible)
    decreases |keys|
  {
    hide WidthCell, VisibleCell, OrderCell, SortCell, Absorb, TableName, NoEmpties, Get, Get2, Value, Offered, At;
    if keys == [] {
      NothingRead(env, m, table, id);
    } else {
      var init, k := keys[..|keys| - 1], keys[|keys| - 1];
      CellsRead(env, m, init, table, id);
      var p := AbsorbAll(env, m, init);
      AbsorbWidth(env, p, k, m[k], table, id);
      AbsorbVisible(env, p, k, m[k], table, id);
      AbsorbOrder(env, p, k, m[k], table);
      AbsorbSort(env, p, k, m[k], table);
      CellsJoin(env, m, keys, table, id);
    }
  }

  lemma NothingRead(env: Env, m: Keys, table: string, id: string)
    ensures NoEmpties(NOTHING.widths) && NoEmpties(NOTHING.visible)
    ensures forall section, key :: Value(m, [], section, key) == None
    ensures Get2(NOTHING.widths, table, id) == None && Get2(NOTHING.visible, table, id) == None
    ensures Get(NOTHING.order, table) == None && Get(NOTHING.sort, table) == None
    ensures WidthCell(env, table, None) == None && VisibleCell(None) == None && OrderCell(None) == None && SortCell(None) == None
  {
  }

  /** The last key's offer and the earlier keys' value together are the value of all. */
  lemma ValueJoin(m: Keys, keys: seq<(string, string)>, section: string, key: string)
    requires Listed(keys, m) && keys != []
    ensures var k := keys[|keys| - 1];
            var earlier := Value(m, keys[..|keys| - 1], section, key);
            && Value(m, keys, section, key) == Else(Offered(k, m[k], section, key), earlier)
            && (Offered(k, m[k], section, key).Some? && earlier.Some? ==> Offered(k, m[k], section, key) == earlier)
  {
    assert keys == keys[..|keys| - 1] + [keys[|keys| - 1]];
  }

  lemma CellsJoin(env: Env, m: Keys, keys: seq<(string, string)>, table: string, id: string)
    requires Listed(keys, m) && keys != []
    ensures
      var init, k := keys[..|keys| - 1], keys[|keys| - 1];
      && WidthCell(env, table, Value(m, keys, TableName(Width, table), id)) ==
         Else(WidthCell(env, table, Offered(k, m[k], TableName(Width, table), id)),
              WidthCell(env, table, Value(m, init, TableName(Width, table), id)))
      && VisibleCell(Value(m, keys, TableName(Visible, table), id)) ==
         Else(VisibleCell(Offered(k, m[k], TableName(Visible, table), id)),
              VisibleCell(Value(m, init, TableName(Visible, table), id)))
      && OrderCell(Value(m, keys, TableName(Order, table), "order")) ==
         Else(OrderCell(Offered(k, m[k], TableName(Order, table), "order")),
              OrderCell(Value(m, init, TableName(Order, table), "order")))
      && SortCell(Value(m, keys, "sort", table)) ==
         Else(SortCell(Offered(k, m[k], "sort", table)), SortCell(Value(m, init, "sort", table)))
  {
    hide Value, Offered, TableName, OwnWidths, ReadWidth, ReadSort, ReadOrder, ParseBool;
    ValueJoin(m, keys, TableName(Width, table), id);
    ValueJoin(m, keys, TableName(Visible, table), id);
    ValueJoin(m, keys, TableName(Order, table), "order");
    ValueJoin(m, keys, "sort", table);
  }

  // ----------------------------------------------------------------- rules

  /** Every rule taken over was read from some key. */
  lemma {:induction false} RulesComeFrom(env: Env, m: Keys, keys: seq<(string, string)>, path: string)
    requires Listed(keys, m) && path in AbsorbAll(env, m, keys).rules
    ensures exists i :: 0 <= i < |keys| && SectionOf(keys[i].0).Rules? && RULE <= keys[i].1
                        && ReadRule(env, m[keys[i]]) == Some((path, AbsorbAll(env, m, keys).rules[path]))
    decreases |keys|
  {
    hide SectionOf, ReadRule, ReadSort, ReadOrder, ReadWidth, ParseBool, Into;
    var init, k := keys[..|keys| - 1], keys[|keys| - 1];
    var p := AbsorbAll(env, m, init);
    if SectionOf(k.0).Rules? && RULE <= k.1 && ReadRule(env, m[k]).Some? && ReadRule(env, m[k]).value.0 == path {
      assert keys[|keys| - 1] == k;
    } else {
      assert AbsorbAll(env, m, keys).rules[path] == p.rules[path];
      RulesComeFrom(env, m, init, path);
      var i :| 0 <= i < |init| && SectionOf(init[i].0).Rules? && RULE <= init[i].1
               && ReadRule(env, m[init[i]]) == Some((path, p.rules[path]));
      assert keys[i] == init[i];
    }
  }

  /** A key that holds a rule gives its path one. */
  lemma {:induction false} RulesArrive(env: Env, m: Keys, keys: seq<(string, string)>, i: nat)
    requires Listed(keys, m) && i < |keys|
    requires SectionOf(keys[i].0).Rules? && RULE <= keys[i].1 && ReadRule(env, m[keys[i]]).Some?
    ensures ReadRule(env, m[keys[i]]).value.0 in AbsorbAll(env, m, keys).rules
    decreases |keys|
  {
    hide SectionOf, ReadRule, ReadSort, ReadOrder, ReadWidth, ParseBool, Into;
    if i < |keys| - 1 {
      assert keys[..|keys| - 1][i] == keys[i];
      RulesArrive(env, m, keys[..|keys| - 1], i);
    }
  }
}
