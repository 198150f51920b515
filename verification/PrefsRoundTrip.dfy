/** Printing the map-valued settings and reading them back. */
module PrefsRoundTrip {
  import opened Common
  import opened Text
  import opened Ini
  import opened Values
  import opened Preferences
  import PR = ProcessRules

  // Tables as some file can hold them: nothing is empty, names and ids are read from lines, widths are in range.

  ghost predicate LoadableWidths(p: Prefs) {
    && (forall t :: t in p.widths ==> p.widths[t] != map[] && OwnWidths(t) && t != "columns" && CleanName(TableName(Width, t)))
    && (forall t, c {:trigger c in p.widths[t]} :: t in p.widths && c in p.widths[t] ==>
          GoodKey(c) && LEAST_WIDTH <= p.widths[t][c] <= MOST_WIDTH)
  }

  ghost predicate LoadableVisible(p: Prefs) {
    && (forall t :: t in p.visible ==> p.visible[t] != map[] && CleanName(TableName(Visible, t)))
    && (forall t, c {:trigger c in p.visible[t]} :: t in p.visible && c in p.visible[t] ==> GoodKey(c))
  }

  ghost predicate LoadableOrder(p: Prefs) {
    && (forall t :: t in p.order ==> p.order[t] != [] && CleanName(TableName(Order, t)))
    && (forall t, i :: t in p.order && 0 <= i < |p.order[t]| ==> IsId(p.order[t][i]))
  }

  ghost predicate LoadableTables(p: Prefs) {
    LoadableWidths(p) && LoadableVisible(p) && LoadableOrder(p)
  }

  /** What an ordered column id must be: neither empty nor padded, and without a comma. */
  predicate IsId(id: string) {
    id != [] && Trimmed(id) && ',' !in id
  }

  ghost predicate Loadable(p: Prefs) {
    && LoadableTables(p)
    && (forall t :: t in p.sort ==> GoodKey(t) && p.sort[t].column != [] && Trimmed(p.sort[t].column))
    && (forall path :: path in p.rules ==> !p.rules[path].IsEmpty() && Trim(path) != [])
  }

  /** No id that is printed as a key needs an escape. */
  ghost predicate PlainIds(p: Prefs) {
    && (forall t, c {:trigger c in p.widths[t]} :: t in p.widths && c in p.widths[t] ==> Plain(c))
    && (forall t, c {:trigger c in p.visible[t]} :: t in p.visible && c in p.visible[t] ==> Plain(c))
    && (forall t :: t in p.sort ==> Plain(t))
  }

  /** Every width survives being printed with one decimal. */
  ghost predicate ExactWidths(env: Env, p: Prefs) {
    forall t, c {:trigger c in p.widths[t]} :: t in p.widths && c in p.widths[t] ==> env.read(env.showWidth(p.widths[t][c])) == Some(p.widths[t][c])
  }

  /** What can be stored: what some file can hold, with plain ids and exactly printed widths. */
  ghost predicate Storable(env: Env, p: Prefs) {
    Loadable(p) && PlainIds(p) && ExactWidths(env, p)
  }

  // ------------------------------------------------------- single values

  lemma {:induction false} IdsAreIds(parts: seq<string>)
    requires forall i :: 0 <= i < |parts| ==> IsId(parts[i])
    ensures Ids(parts) == parts
    decreases |parts|
  {
    hide Trim, Trimmed;
    if parts != [] {
      var init, id := parts[..|parts| - 1], parts[|parts| - 1];
      assert forall i :: 0 <= i < |init| ==> init[i] == parts[i];
      IdsAreIds(init);
      TrimIff(id);
      assert init + [id] == parts;
    }
  }

  lemma OrderReadsBack(ids: seq<string>)
    requires ids != [] && forall i :: 0 <= i < |ids| ==> IsId(ids[i])
    ensures ReadOrder(Join(ids, ',')) == ids
  {
    SplitJoinIff(ids, ',');
    IdsAreIds(ids);
  }

  lemma {:induction false} JoinTrimmed(ids: seq<string>)
    requires ids != [] && forall i :: 0 <= i < |ids| ==> IsId(ids[i])
    ensures Join(ids, ',') != [] && Trimmed(Join(ids, ','))
    decreases |ids|
  {
    if |ids| > 1 {
      assert forall i :: 0 <= i < |ids| - 1 ==> ids[1..][i] == ids[i + 1];
      JoinTrimmed(ids[1..]);
    }
  }

  lemma LastComma(column: string, b: bool)
    ensures FindLast(ShowSort(SortBy(column, b)), ',') == |column|
  {
    var s, i := ShowSort(SortBy(column, b)), FindLast(ShowSort(SortBy(column, b)), ',');
    assert s[|column|] == ',';
    assert s[|column| + 1..] == ShowBool(b);
    assert forall k :: |column| < k < |s| ==> s[k] == s[|column| + 1..][k - |column| - 1] && s[k] != ',';
  }

  /** A sort order is read back exactly when its column is not empty and not padded. */
  lemma SortReadsBackIff(s: SortBy)
    ensures ReadSort(ShowSort(s)) == Some(s) <==> s.column != [] && Trimmed(s.column)
  {
    hide Trim, ParseBool, FindLast;
    LastComma(s.column, s.ascending);
    var text := ShowSort(s);
    assert text[..|s.column|] == s.column && text[|s.column| + 1..] == ShowBool(s.ascending);
    TrimIff(s.column);
    TrimIff(ShowBool(s.ascending));
    BoolReadsBack(s.ascending);
  }

  // -------------------------------------------------------------- lookups

  lemma {:induction false} LookTables(env: Env, p: Prefs, kind: Kind, tables: seq<string>, section: string, key: string)
    requires WalksFaithful(env)
    requires forall i :: 0 <= i < |tables| ==> SectionOf(TableName(kind, tables[i])) == Table(kind, tables[i])
    ensures LookAll(TableBlocks(env, p, kind, tables), section, key) ==
            var s := SectionOf(section);
            if s.Table? && s.kind == kind && s.table in tables then Look(Cells(env, p, kind, s.table), key) else None
    decreases |tables|
  {
    hide SectionOf, TableName, Cells, Note, WalksFaithful, Look, LookAll;
    NothingLooked(section, key);
    if tables != [] {
      var init, t := tables[..|tables| - 1], tables[|tables| - 1];
      LookTables(env, p, kind, init, section, key);
      NameOfSection(section);
      assert tables == init + [t];
      assert SectionOf(TableName(kind, tables[|tables| - 1])) == Table(kind, t);
      var cells, blocks := Cells(env, p, kind, t), TableBlocks(env, p, kind, init);
      if cells == [] {
        assert blocks + [] == blocks;
        LookNothing(key);
      } else {
        LookAllAppend(blocks, [TableBlock(env, p, kind, t)], section, key);
        LookOneBlock(TableBlock(env, p, kind, t), section, key);
      }
    }
  }

  lemma NothingLooked(section: string, key: string)
    ensures LookAll([], section, key) == None
  {
  }

  lemma LookOneBlock(b: Block, section: string, key: string)
    ensures LookAll([b], section, key) == if b.name == section then Look(b.entries, key) else None
  {
    assert [b][..0] == [];
  }

  /** What the printed text says about a key outside the general section. */
  function Printed(env: Env, p: Prefs, section: string, key: string): Option<string>
    requires WalksFaithful(env)
  {
    match SectionOf(section)
    case Table(kind, table) => Look(Cells(env, p, kind, table), key)
    case Sort => Look(MapEntries(env, SortTexts(p.sort)), key)
    case Rules => Look(PrintedRules(env, p), key)
    case _ => None
  }

  lemma LookSort(env: Env, p: Prefs, section: string, key: string)
    requires WalksFaithful(env)
    ensures LookAll(SortBlocks(env, p), section, key) ==
            if SectionOf(section).Sort? then Look(MapEntries(env, SortTexts(p.sort)), key) else None
  {
    hide SectionOf;
    NameOfSection(section);
    SortSection();
    LookMap(env, SortTexts(p.sort), key);
    hide MapEntries;
    if p.sort != map[] {
      LookOneBlock(SortBlocks(env, p)[0], section, key);
    }
  }

  lemma LookRules(env: Env, p: Prefs, section: string, key: string)
    ensures LookAll(RuleBlocks(env, p), section, key) ==
            if SectionOf(section).Rules? then Look(PrintedRules(env, p), key) else None
  {
    hide SectionOf, PrintedRules;
    NameOfSection(section);
    SortSection();
    if PrintedRules(env, p) != [] {
      LookOneBlock(RuleBlocks(env, p)[0], section, key);
    }
  }

  lemma LookPrefs(env: Env, p: Prefs, section: string, key: string)
    requires WalksFaithful(env) && LoadableTables(p)
    ensures LookAll(PrefBlocks(env, p), section, key) == Printed(env, p, section, key)
  {
    hide SectionOf, TableName, TableBlocks, SortBlocks, RuleBlocks, MapEntries, PrintedRules, LookAll, GoodKey, CleanName, OwnWidths, IsId;
    var w, v, o := env.strings(p.widths.Keys), env.strings(p.visible.Keys), env.strings(p.order.Keys);
    forall i | 0 <= i < |w|
      ensures SectionOf(TableName(Width, w[i])) == Table(Width, w[i])
    {
      assert w[i] in w;
      SectionNames(Width, w[i]);
    }
    forall i | 0 <= i < |v|
      ensures SectionOf(TableName(Visible, v[i])) == Table(Visible, v[i])
    {
      SectionNames(Visible, v[i]);
    }
    forall i | 0 <= i < |o|
      ensures SectionOf(TableName(Order, o[i])) == Table(Order, o[i])
    {
      SectionNames(Order, o[i]);
    }
    LookTables(env, p, Width, w, section, key);
    LookTables(env, p, Visible, v, section, key);
    LookTables(env, p, Order, o, section, key);
    LookSort(env, p, section, key);
    LookRules(env, p, section, key);
    LookAllAppend(TableBlocks(env, p, Width, w), TableBlocks(env, p, Visible, v), section, key);
    LookAllAppend(TableBlocks(env, p, Width, w) + TableBlocks(env, p, Visible, v), TableBlocks(env, p, Order, o), section, key);
    LookAllAppend(TableBlocks(env, p, Width, w) + TableBlocks(env, p, Visible, v) + TableBlocks(env, p, Order, o),
                  SortBlocks(env, p), section, key);
    LookAllAppend(TableBlocks(env, p, Width, w) + TableBlocks(env, p, Visible, v) + TableBlocks(env, p, Order, o) + SortBlocks(env, p),
                  RuleBlocks(env, p), section, key);
  }

  // ------------------------------------------------------------ read back

  // What each printed cell reads as.

  lemma WidthReadsBack(env: Env, p: Prefs, t: string, c: string)
    requires Faithful(env) && LoadableTables(p) && ExactWidths(env, p)
    ensures WidthCell(env, t, Look(Cells(env, p, Width, t), c)) == Get2(p.widths, t, c)
  {
    hide MapEntries, GoodKey, CleanName, OwnWidths, Look, FloatText, IsId;
    if t in p.widths {
      LookMap(env, WidthTexts(env, p.widths[t]), c);
      if c in p.widths[t] {
        var w := p.widths[t][c];
        assert LEAST_WIDTH <= w <= MOST_WIDTH && env.read(env.showWidth(w)) == Some(w);
      }
    } else {
      LookNothing(c);
    }
  }

  lemma VisibleReadsBack(env: Env, p: Prefs, t: string, c: string)
    requires Faithful(env)
    ensures VisibleCell(Look(Cells(env, p, Visible, t), c)) == Get2(p.visible, t, c)
  {
    hide MapEntries, Look, ParseBool, ShowBit;
    if t in p.visible {
      LookMap(env, VisibleTexts(p.visible[t]), c);
      if c in p.visible[t] { BitReadsBack(p.visible[t][c]); }
    } else {
      LookNothing(c);
    }
  }

  lemma OrderCellReadsBack(env: Env, p: Prefs, t: string)
    requires Faithful(env) && LoadableTables(p)
    ensures OrderCell(Look(Cells(env, p, Order, t), "order")) == Get(p.order, t)
  {
    hide MapEntries, Look, ReadOrder, Join, GoodKey, CleanName, OwnWidths, IsId;
    if t in p.order {
      OrderReadsBack(p.order[t]);
      LookSingle("order", Join(p.order[t], ','));
    } else {
      LookNothing("order");
    }
  }

  lemma SortCellReadsBack(env: Env, p: Prefs, t: string)
    requires Faithful(env) && Loadable(p)
    ensures SortCell(Look(MapEntries(env, SortTexts(p.sort)), t)) == Get(p.sort, t)
  {
    hide MapEntries, Look, ReadSort, ShowSort, LoadableTables, GoodKey, Trimmed;
    LookMap(env, SortTexts(p.sort), t);
    if t in p.sort {
      SortReadsBackIff(p.sort[t]);
    }
  }

  lemma LookNothing(k: string)
    ensures Look([], k) == None
  {
  }

  lemma LookSingle(k: string, v: string)
    ensures Look([(k, v)], k) == Some(v)
  {
  }

  lemma {:induction false} RuleEntryAt(env: Env, paths: seq<string>, rules: map<string, PR.Rule>, i: nat)
    requires i < |paths| && forall j :: 0 <= j < |paths| ==> paths[j] in rules
    ensures |RuleEntries(env, paths, rules)| == |paths|
    ensures RuleEntries(env, paths, rules)[i] == (RULE + Dec(i), env.toJson(paths[i], rules[paths[i]]))
    decreases |paths|
  {
    var init := paths[..|paths| - 1];
    if i < |paths| - 1 {
      RuleEntryAt(env, init, rules, i);
    } else if init != [] {
      RuleEntryAt(env, init, rules, 0);
    }
  }

  lemma RuleEntriesLength(env: Env, paths: seq<string>, rules: map<string, PR.Rule>)
    requires forall j :: 0 <= j < |paths| ==> paths[j] in rules
    ensures |RuleEntries(env, paths, rules)| == |paths|
  {
    if paths != [] {
      RuleEntryAt(env, paths, rules, 0);
    }
  }

  /** Each rule has a number of its own. */
  lemma LookRule(env: Env, paths: seq<string>, rules: map<string, PR.Rule>, i: nat)
    requires i < |paths| && forall j :: 0 <= j < |paths| ==> paths[j] in rules
    ensures Look(RuleEntries(env, paths, rules), RULE + Dec(i)) == Some(env.toJson(paths[i], rules[paths[i]]))
  {
    var entries := RuleEntries(env, paths, rules);
    RuleEntryAt(env, paths, rules, i);
    forall j | 0 <= j < |entries| && entries[j].0 == entries[i].0
      ensures j == i
    {
      RuleEntryAt(env, paths, rules, j);
      assert (RULE + Dec(j))[|RULE|..] == Dec(j) && (RULE + Dec(i))[|RULE|..] == Dec(i);
      DecInjective(i, j);
    }
    LookUnique(entries, i);
  }

  lemma TellingOne(paths: seq<string>, rules: map<string, PR.Rule>)
    requires paths != [] && paths[|paths| - 1] in rules && !rules[paths[|paths| - 1]].IsEmpty()
    ensures Telling(paths, rules) == Telling(paths[..|paths| - 1], rules) + [paths[|paths| - 1]]
  {
  }

  lemma {:induction false} AllTelling(paths: seq<string>, rules: map<string, PR.Rule>)
    requires forall i :: 0 <= i < |paths| ==> paths[i] in rules && !rules[paths[i]].IsEmpty()
    ensures Telling(paths, rules) == paths
    decreases |paths|
  {
    if paths != [] {
      var init, path := paths[..|paths| - 1], paths[|paths| - 1];
      assert forall i :: 0 <= i < |init| ==> init[i] == paths[i];
      AllTelling(init, rules);
      assert path in rules && !rules[path].IsEmpty();
      hide Telling;
      TellingOne(paths, rules);
      assert init + [path] == paths;
    }
  }

  ghost predicate RulesPrinted(env: Env, rules: map<string, PR.Rule>, paths: seq<string>, m: Keys) {
    && NoDup(paths) && (forall path :: path in paths <==> path in rules)
    && (forall i :: 0 <= i < |paths| ==> paths[i] in rules)
    && forall section, key :: SectionOf(section).Rules? ==> At(m, section, key) == Look(RuleEntries(env, paths, rules), key)
  }

  lemma RuleArrives(env: Env, rules: map<string, PR.Rule>, paths: seq<string>, m: Keys, keys: seq<(string, string)>, path: string)
    requires JsonFaithful(env) && RulesPrinted(env, rules, paths, m)
    requires Listed(keys, m) && (forall k :: k in m ==> k in keys)
    requires path in rules && !rules[path].IsEmpty() && Trim(path) != []
    ensures path in AbsorbAll(env, m, keys).rules
  {
    hide SectionOf, AbsorbAll, Look, RuleEntries, Trim, Dec;
    var i :| 0 <= i < |paths| && paths[i] == path;
    LookRule(env, paths, rules, i);
    SortSection();
    var k := ("process-rules", RULE + Dec(i));
    assert At(m, k.0, k.1) == Some(env.toJson(path, rules[path]));
    var j :| 0 <= j < |keys| && keys[j] == k;
    RulesArrive(env, m, keys, j);
  }

  lemma RuleComesFrom(env: Env, rules: map<string, PR.Rule>, paths: seq<string>, m: Keys, keys: seq<(string, string)>, path: string)
    requires JsonFaithful(env) && RulesPrinted(env, rules, paths, m)
    requires Listed(keys, m) && path in AbsorbAll(env, m, keys).rules
    ensures path in rules && rules[path] == AbsorbAll(env, m, keys).rules[path]
  {
    hide SectionOf, AbsorbAll, Look, RuleEntries, Trim, Dec;
    var q := AbsorbAll(env, m, keys).rules;
    RulesComeFrom(env, m, keys, path);
    var i :| 0 <= i < |keys| && SectionOf(keys[i].0).Rules? && RULE <= keys[i].1
             && ReadRule(env, m[keys[i]]) == Some((path, q[path]));
    assert At(m, keys[i].0, keys[i].1) == Some(m[keys[i]]);
    LookFrom(RuleEntries(env, paths, rules), keys[i].1);
    RuleEntriesLength(env, paths, rules);
    var j :| 0 <= j < |paths| && RuleEntries(env, paths, rules)[j].1 == m[keys[i]];
    RuleEntryAt(env, paths, rules, j);
    assert env.fromJson(m[keys[i]]) == Some((paths[j], rules[paths[j]]));
  }

  lemma AllPrinted(env: Env, p: Prefs)
    requires WalksFaithful(env) && Loadable(p)
    ensures PrintedRules(env, p) == RuleEntries(env, env.strings(p.rules.Keys), p.rules)
  {
    hide LoadableTables, RuleEntries, Telling;
    var paths := env.strings(p.rules.Keys);
    assert forall i :: 0 <= i < |paths| ==> paths[i] in p.rules.Keys;
    AllTelling(paths, p.rules);
  }

  lemma RulesReadBack(env: Env, p: Prefs, m: Keys, keys: seq<(string, string)>)
    requires Faithful(env) && Loadable(p) && Listed(keys, m) && (forall k :: k in m ==> k in keys)
    requires forall section, key :: SectionOf(section).Rules? ==> At(m, section, key) == Look(PrintedRules(env, p), key)
    ensures AbsorbAll(env, m, keys).rules == p.rules
  {
    hide SectionOf, AbsorbAll, Look, RuleEntries, Trim, Trimmed, GoodKey, LoadableTables, PrintedRules, FloatsFaithful, JsonFaithful;
    var paths := env.strings(p.rules.Keys);
    assert forall path :: path in paths <==> path in p.rules.Keys;
    AllPrinted(env, p);
    hide WalksFaithful;
    var q := AbsorbAll(env, m, keys).rules;
    forall path
      ensures Get(q, path) == Get(p.rules, path)
    {
      if path in p.rules {
        RuleArrives(env, p.rules, paths, m, keys, path);
      }
      if path in q {
        RuleComesFrom(env, p.rules, paths, m, keys, path);
      }
    }
    SameMap(q, p.rules);
  }

  /** `m` is what reading the printed text gives, outside the general section. */
  ghost predicate ReadFrom(env: Env, p: Prefs, m: Keys)
    requires WalksFaithful(env)
  {
    forall section, key :: !SectionOf(section).General? ==> At(m, section, key) == Printed(env, p, section, key)
  }

  lemma OneCell(env: Env, p: Prefs, m: Keys, keys: seq<(string, string)>, t: string, c: string)
    requires Faithful(env) && Storable(env, p) && Listed(keys, m) && (forall k :: k in m ==> k in keys)
    requires ReadFrom(env, p, m)
    ensures
      var q := AbsorbAll(env, m, keys);
      && Get2(q.widths, t, c) == Get2(p.widths, t, c) && Get2(q.visible, t, c) == Get2(p.visible, t, c)
      && Get(q.order, t) == Get(p.order, t) && Get(q.sort, t) == Get(p.sort, t)
  {
    hide SectionOf, AbsorbAll, Look, LoadableTables, PlainIds, ExactWidths, GoodKey, OwnWidths, Cells, MapEntries, PrintedRules,
         WidthCell, VisibleCell, OrderCell, SortCell, TableName, Value, FloatsFaithful, JsonFaithful, WalksFaithful;
    CellsRead(env, m, keys, t, c);
    WidthReadsBack(env, p, t, c);
    VisibleReadsBack(env, p, t, c);
    OrderCellReadsBack(env, p, t);
    SortCellReadsBack(env, p, t);
    ValueIsAt(m, keys);
    SortSection();
    SectionNames(Width, t);
    SectionNames(Visible, t);
    SectionNames(Order, t);
    if !OwnWidths(t) {
      NotOwnWidths(env, p, t, Value(m, keys, TableName(Width, t), c), c);
    }
  }

  /** Reading the printed maps gives them back. */
  lemma PrefsReadBack(env: Env, p: Prefs, m: Keys, keys: seq<(string, string)>)
    requires Faithful(env) && Storable(env, p) && Listed(keys, m) && (forall k :: k in m ==> k in keys)
    requires ReadFrom(env, p, m)
    ensures AbsorbAll(env, m, keys) == p
  {
    hide AbsorbAll, LoadableTables, PlainIds, ExactWidths, NoEmpties, Get, Get2, PrintedRules, SectionOf, GoodKey, Look, FloatsFaithful, JsonFaithful, WalksFaithful;
    var q := AbsorbAll(env, m, keys);
    forall t, c
      ensures Get2(q.widths, t, c) == Get2(p.widths, t, c)
      ensures Get2(q.visible, t, c) == Get2(p.visible, t, c)
    {
      OneCell(env, p, m, keys, t, c);
    }
    forall t
      ensures Get(q.order, t) == Get(p.order, t)
      ensures Get(q.sort, t) == Get(p.sort, t)
    {
      OneCell(env, p, m, keys, t, "");
    }
    CellsRead(env, m, keys, "", "");
    NoEmptyTables(p);
    SameNested(q.widths, p.widths);
    SameNested(q.visible, p.visible);
    SameMap(q.order, p.order);
    SameMap(q.sort, p.sort);
    RulesReadBack(env, p, m, keys);
  }

  lemma NoEmptyTables(p: Prefs)
    requires LoadableTables(p)
    ensures NoEmpties(p.widths) && NoEmpties(p.visible)
  {
    hide GoodKey, CleanName, OwnWidths;
  }

  lemma ValueIsAt(m: Keys, keys: seq<(string, string)>)
    requires Listed(keys, m) && (forall k :: k in m ==> k in keys)
    ensures forall section, key :: Value(m, keys, section, key) == At(m, section, key)
  {
  }

  lemma NotOwnWidths(env: Env, p: Prefs, t: string, v: Option<string>, c: string)
    requires LoadableTables(p) && !OwnWidths(t)
    ensures WidthCell(env, t, v) == None && Get2(p.widths, t, c) == None
  {
  }

  // ------------------------------------------------------- clean sections

  predicate SlugChar(c: char) {
    'a' <= c <= 'z' || '0' <= c <= '9' || c == '_' || c == '-' || c == '.'
  }

  /** Lower-case slugs always read back, with any trimmed value. */
  lemma SlugIsClean(k: string, v: string)
    requires k != [] && (forall i :: 0 <= i < |k| ==> SlugChar(k[i])) && Trimmed(v)
    ensures Clean(k, v)
  {
    hide AsciiLower, Strip, White, SlugChar;
    forall i | 0 <= i < |k|
      ensures !White(k[i]) && !('A' <= k[i] <= 'Z') && k[i] != '=' && k[i] != '#' && k[i] != '['
      ensures k[i] != '\\' && k[i] != '\n' && k[i] != ';'
    {
      SlugCharFacts(k[i]);
    }
    LowerIsSame(k);
    TrimmedIsStripped(v);
  }

  lemma SlugCharFacts(c: char)
    requires SlugChar(c)
    ensures !White(c) && !('A' <= c <= 'Z') && c != '=' && c != '#' && c != '[' && c != '\\' && c != '\n' && c != ';' && c != ','
  {
  }

  /** A slug without a dot. */
  predicate Slug(s: string) {
    s != [] && forall i :: 0 <= i < |s| ==> SlugChar(s[i]) && s[i] != '.'
  }

  /** Settings as the program makes them: tables and columns are named by slugs and nothing is empty. */
  ghost predicate SlugTables(env: Env, p: Prefs) {
    && (forall t :: t in p.widths ==> Slug(t) && t != "columns" && p.widths[t] != map[])
    && (forall t, c {:trigger c in p.widths[t]} :: t in p.widths && c in p.widths[t] ==>
          Slug(c) && env.tenth(p.widths[t][c]) && LEAST_WIDTH <= p.widths[t][c] <= MOST_WIDTH)
    && (forall t :: t in p.visible ==> Slug(t) && p.visible[t] != map[])
    && (forall t, c {:trigger c in p.visible[t]} :: t in p.visible && c in p.visible[t] ==> Slug(c))
    && (forall t :: t in p.order ==> Slug(t) && p.order[t] != [])
    && (forall t, i :: t in p.order && 0 <= i < |p.order[t]| ==> Slug(p.order[t][i]))
    && (forall t :: t in p.sort ==> Slug(t) && p.sort[t].column != [] && Trimmed(p.sort[t].column))
    && (forall path :: path in p.rules ==> !p.rules[path].IsEmpty() && Trim(path) != [])
  }

  lemma SlugTable(kind: Kind, t: string)
    requires Slug(t)
    ensures CleanName(TableName(kind, t)) && OwnWidths(t)
  {
    var name := TableName(kind, t);
    assert forall i :: 0 <= i < |Suffix(kind)| ==> SlugChar(Suffix(kind)[i]);
    assert forall i :: 0 <= i < |COLUMNS| ==> SlugChar(COLUMNS[i]);
    assert forall i :: 0 <= i < |name| ==>
             name[i] == if i < |COLUMNS| then COLUMNS[i] else if i < |COLUMNS| + |t| then t[i - |COLUMNS|] else Suffix(kind)[i - |COLUMNS| - |t|];
    NoSuffix(t, ".visible");
    NoSuffix(t, ".order");
    hide CleanName, SlugChar, Suffix;
    SlugName(name);
  }

  lemma NoSuffix(t: string, suffix: string)
    requires Slug(t) && suffix != [] && suffix[0] == '.'
    ensures !HasSuffix(t, suffix)
  {
    if HasSuffix(t, suffix) {
      assert t[|t| - |suffix|] == t[|t| - |suffix|..][0];
    }
  }

  lemma SlugId(id: string)
    requires Slug(id)
    ensures IsId(id)
  {
    hide SlugChar, White;
    forall i | 0 <= i < |id|
      ensures !White(id[i]) && id[i] != ','
    {
      SlugCharFacts(id[i]);
    }
  }

  lemma SlugKey(c: string)
    requires Slug(c)
    ensures GoodKey(c) && Plain(c)
  {
    hide SlugChar, GoodKey, Plain;
    SlugIsClean(c, "");
    CleanIsPlainLoose(c, "");
  }

  lemma SlugWidths(env: Env, p: Prefs)
    requires FloatsFaithful(env) && SlugTables(env, p)
    ensures LoadableWidths(p) && ExactWidths(env, p)
    ensures forall t, c {:trigger c in p.widths[t]} :: t in p.widths && c in p.widths[t] ==> Plain(c)
  {
    hide Slug, GoodKey, Plain, CleanName, OwnWidths, TableName, Trimmed, IsId, FloatText;
    forall t | t in p.widths
      ensures OwnWidths(t) && CleanName(TableName(Width, t))
    {
      SlugTable(Width, t);
    }
    forall t, c {:trigger c in p.widths[t]} | t in p.widths && c in p.widths[t]
      ensures GoodKey(c) && Plain(c) && LEAST_WIDTH <= p.widths[t][c] <= MOST_WIDTH
      ensures env.read(env.showWidth(p.widths[t][c])) == Some(p.widths[t][c])
    {
      SlugKey(c);
    }
  }

  lemma SlugVisible(env: Env, p: Prefs)
    requires SlugTables(env, p)
    ensures LoadableVisible(p)
    ensures forall t, c {:trigger c in p.visible[t]} :: t in p.visible && c in p.visible[t] ==> Plain(c)
  {
    hide Slug, GoodKey, Plain, CleanName, OwnWidths, TableName, Trimmed, IsId;
    forall t | t in p.visible
      ensures CleanName(TableName(Visible, t))
    {
      SlugTable(Visible, t);
    }
    forall t, c {:trigger c in p.visible[t]} | t in p.visible && c in p.visible[t]
      ensures GoodKey(c) && Plain(c)
    {
      SlugKey(c);
    }
  }

  lemma SlugOrder(env: Env, p: Prefs)
    requires SlugTables(env, p)
    ensures LoadableOrder(p)
  {
    hide Slug, GoodKey, Plain, CleanName, OwnWidths, TableName, Trimmed, IsId;
    forall t | t in p.order
      ensures CleanName(TableName(Order, t)) && forall i :: 0 <= i < |p.order[t]| ==> IsId(p.order[t][i])
    {
      SlugTable(Order, t);
      forall i | 0 <= i < |p.order[t]|
        ensures IsId(p.order[t][i])
      {
        SlugId(p.order[t][i]);
      }
    }
  }

  /** Such settings can be stored. */
  lemma SlugsAreStorable(env: Env, p: Prefs)
    requires Faithful(env) && SlugTables(env, p)
    ensures Storable(env, p)
  {
    hide Slug, GoodKey, Plain, LoadableWidths, LoadableVisible, LoadableOrder, ExactWidths, Trimmed,
         FloatsFaithful, JsonFaithful, WalksFaithful, LettersFaithful;
    SlugWidths(env, p);
    SlugVisible(env, p);
    SlugOrder(env, p);
    forall t | t in p.sort
      ensures GoodKey(t) && Plain(t)
    {
      SlugKey(t);
    }
  }

  /** The id that is not a slug: it is printed escaped and read back with the escape in it. */
  lemma EscapedIdIsLost(v: string)
    ensures !Clean("cpu;max", v)
    ensures ReadLine(Entry("cpu;max", v)) != Pair("cpu;max", v)
  {
    EntryReadsBackIff("cpu;max", v);
    assert "cpu;max"[3] == ';';
  }

  // ------------------------------------------------------- loose sections

  lemma LooseId(c: string, v: string)
    requires GoodKey(c) && Trimmed(v) && (c[0] != '[' || !EndsWith(v, ']'))
    ensures Loose(c, v)
  {
    TrimmedIsStripped(v);
    hide Strip, AsciiLower, Trimmed;
  }

  lemma SlugIsLoose(k: string, v: string)
    requires k != [] && (forall i :: 0 <= i < |k| ==> SlugChar(k[i])) && Trimmed(v)
    ensures Loose(k, v) && Plain(k)
  {
    hide SlugChar, Loose, Plain, Trimmed;
    SlugIsClean(k, v);
    CleanIsPlainLoose(k, v);
  }

  lemma SortText(s: SortBy)
    requires s.column != [] && Trimmed(s.column)
    ensures Trimmed(ShowSort(s)) && !EndsWith(ShowSort(s), ']')
  {
    hide White;
    BoolReadsBack(s.ascending);
  }

  lemma WidthText(env: Env, w: real)
    requires FloatsFaithful(env)
    ensures Trimmed(env.showWidth(w)) && !EndsWith(env.showWidth(w), ']')
  {
    FloatTextIsPlain(env.showWidth(w));
    hide White, Trimmed, Plain, Escape, Strip;
  }

  lemma {:induction false} EntriesOfLoose(ids: seq<string>, texts: map<string, string>)
    requires forall i :: 0 <= i < |ids| ==> ids[i] in texts && Loose(ids[i], texts[ids[i]])
    ensures AllLoose(EntriesOf(ids, texts))
    decreases |ids|
  {
    hide Loose;
    if ids != [] {
      EntriesOfLoose(ids[..|ids| - 1], texts);
    }
  }

  lemma MapEntriesLoose(env: Env, texts: map<string, string>)
    requires WalksFaithful(env) && forall k :: k in texts ==> Loose(k, texts[k])
    ensures AllLoose(MapEntries(env, texts))
  {
    hide Loose;
    var ids := env.strings(texts.Keys);
    assert forall i :: 0 <= i < |ids| ==> ids[i] in texts.Keys;
    EntriesOfLoose(ids, texts);
  }

  lemma WidthsLoose(env: Env, cols: map<string, real>)
    requires Faithful(env) && forall c :: c in cols ==> GoodKey(c)
    ensures AllLoose(MapEntries(env, WidthTexts(env, cols)))
  {
    hide Loose, GoodKey, MapEntries, Trimmed, EndsWith, FloatsFaithful, WalksFaithful, JsonFaithful, LettersFaithful;
    forall c | c in WidthTexts(env, cols)
      ensures Loose(c, WidthTexts(env, cols)[c])
    {
      WidthText(env, cols[c]);
      LooseId(c, env.showWidth(cols[c]));
    }
    MapEntriesLoose(env, WidthTexts(env, cols));
  }

  lemma VisibleLoose(env: Env, cols: map<string, bool>)
    requires WalksFaithful(env) && forall c :: c in cols ==> GoodKey(c)
    ensures AllLoose(MapEntries(env, VisibleTexts(cols)))
  {
    hide Loose, GoodKey, MapEntries, WalksFaithful;
    forall c | c in VisibleTexts(cols)
      ensures Loose(c, VisibleTexts(cols)[c])
    {
      BitReadsBack(cols[c]);
      LooseId(c, ShowBit(cols[c]));
    }
    MapEntriesLoose(env, VisibleTexts(cols));
  }

  lemma SortLoose(env: Env, p: Prefs)
    requires WalksFaithful(env) && Loadable(p)
    ensures AllLoose(MapEntries(env, SortTexts(p.sort)))
  {
    hide Loose, GoodKey, MapEntries, WalksFaithful, LoadableTables, Trimmed, EndsWith, ShowSort;
    forall t | t in SortTexts(p.sort)
      ensures Loose(t, SortTexts(p.sort)[t])
    {
      SortText(p.sort[t]);
      LooseId(t, ShowSort(p.sort[t]));
    }
    MapEntriesLoose(env, SortTexts(p.sort));
  }

  lemma CellsLoose(env: Env, p: Prefs, kind: Kind, t: string)
    requires Faithful(env) && LoadableTables(p)
    ensures AllLoose(Cells(env, p, kind, t))
    ensures t in Tables(p, kind) ==> CleanName(TableName(kind, t))
  {
    hide Loose, MapEntries, CleanName, OwnWidths, IsId, TableName, GoodKey, FloatsFaithful, WalksFaithful, JsonFaithful, LettersFaithful;
    if t in Tables(p, kind) {
      match kind
      case Width => WidthsLoose(env, p.widths[t]);
      case Visible => VisibleLoose(env, p.visible[t]);
      case Order =>
        JoinTrimmed(p.order[t]);
        SlugIsLoose("order", Join(p.order[t], ','));
    }
  }

  lemma NoteIsNote(kind: Kind)
    ensures IsNote(Note(kind))
  {
    hide IsNote;
    match kind
    case Width => NoteLine(WIDTH_NOTE);
    case Visible => NoteLine(VISIBLE_NOTE);
    case Order => NoNote();
  }

  lemma NotesAreNotes()
    ensures IsNote(SORT_NOTE + "\n") && IsNote(RULES_NOTE + "\n")
  {
    hide IsNote;
    assert '\n' !in SORT_NOTE && '\n' !in RULES_NOTE;
    NoteLine(SORT_NOTE);
    NoteLine(RULES_NOTE);
  }

  lemma NoNote()
    ensures IsNote("")
  {
  }

  lemma NoteLine(line: string)
    requires line != [] && line[0] == '#' && '\n' !in line
    ensures IsNote(line + "\n")
  {
    FindAt(line + "\n", '\n', |line|);
  }

  lemma {:induction false} TableBlocksLoose(env: Env, p: Prefs, kind: Kind, tables: seq<string>)
    requires Faithful(env) && LoadableTables(p)
    ensures AllLooseBlocks(TableBlocks(env, p, kind, tables))
    decreases |tables|
  {
    hide LoadableTables, FloatsFaithful, WalksFaithful, JsonFaithful, LettersFaithful, CleanName, AllLoose, IsNote, TableName, Note;
    if tables != [] {
      TableBlocksLoose(env, p, kind, tables[..|tables| - 1]);
      var t := tables[|tables| - 1];
      CellsLoose(env, p, kind, t);
      NoteIsNote(kind);
    }
  }

  lemma RuleEntriesLoose(env: Env, paths: seq<string>, rules: map<string, PR.Rule>)
    requires JsonFaithful(env) && forall i :: 0 <= i < |paths| ==> paths[i] in rules
    ensures AllLoose(RuleEntries(env, paths, rules))
    ensures forall i :: 0 <= i < |RuleEntries(env, paths, rules)| ==> Plain(RuleEntries(env, paths, rules)[i].0)
  {
    hide Loose, Plain, Dec;
    RuleEntriesLength(env, paths, rules);
    forall i | 0 <= i < |paths|
      ensures Loose(RuleEntries(env, paths, rules)[i].0, RuleEntries(env, paths, rules)[i].1)
      ensures Plain(RuleEntries(env, paths, rules)[i].0)
    {
      RuleEntryAt(env, paths, rules, i);
      SlugIsLoose(RULE + Dec(i), env.toJson(paths[i], rules[paths[i]]));
    }
  }

  lemma NamesAreClean()
    ensures CleanName("sort") && CleanName("process-rules") && CleanName("general")
  {
    hide CleanName;
    SlugName("sort");
    SlugName("process-rules");
    SlugName("general");
  }

  lemma SlugName(name: string)
    requires name != [] && forall i :: 0 <= i < |name| ==> SlugChar(name[i])
    ensures CleanName(name)
  {
    LowerIsSame(name);
  }

  /** Whatever some file can hold is printed as sections that are read entry by entry. */
  lemma PrefBlocksLoose(env: Env, p: Prefs)
    requires Faithful(env) && Loadable(p)
    ensures AllLooseBlocks(PrefBlocks(env, p))
  {
    hide LoadableTables, WalksFaithful, FloatsFaithful, CleanName, AllLoose, IsNote, TableBlocks, GoodKey, MapEntries, RuleEntries;
    TableBlocksLoose(env, p, Width, env.strings(p.widths.Keys));
    TableBlocksLoose(env, p, Visible, env.strings(p.visible.Keys));
    TableBlocksLoose(env, p, Order, env.strings(p.order.Keys));
    SortLoose(env, p);
    RuleEntriesLoose(env, Telling(env.strings(p.rules.Keys), p.rules), p.rules);
    NotesAreNotes();
    NamesAreClean();
  }

  /** With plain ids every printed key is plain. */
  lemma PrintedPlain(env: Env, p: Prefs, section: string, key: string)
    requires Faithful(env) && PlainIds(p)
    ensures Printed(env, p, section, key).Some? ==> Plain(key)
  {
    hide SectionOf, Plain, MapEntries, RuleEntries, Look, FloatsFaithful, LettersFaithful;
    if Printed(env, p, section, key).Some? {
      match SectionOf(section)
      case Table(kind, t) => CellsPlain(env, p, kind, t, key);
      case Sort => LookMap(env, SortTexts(p.sort), key);
      case Rules =>
        RuleEntriesLoose(env, Telling(env.strings(p.rules.Keys), p.rules), p.rules);
        LookFrom(PrintedRules(env, p), key);
    }
  }

  lemma CellsPlain(env: Env, p: Prefs, kind: Kind, t: string, key: string)
    requires Faithful(env) && PlainIds(p) && Look(Cells(env, p, kind, t), key).Some?
    ensures Plain(key)
  {
    hide Plain, MapEntries, Join, FloatsFaithful, LettersFaithful, JsonFaithful;
    if t !in Tables(p, kind) {
      assert false;
    } else if kind.Order? {
      OrderIsPlain();
      LookFrom(Cells(env, p, kind, t), key);
      assert key == "order";
    } else {
      hide Look;
      if kind.Width? {
        LookMap(env, WidthTexts(env, p.widths[t]), key);
      } else {
        LookMap(env, VisibleTexts(p.visible[t]), key);
      }
    }
  }

  lemma OrderIsPlain()
    ensures Plain("order")
  {
  }
}
