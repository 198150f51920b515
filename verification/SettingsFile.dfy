/** The loops that print and read `config.ini`, proved against the specification of `Settings`. */
module SettingsFile {
  import opened Common
  import opened Text
  import opened Ini
  import opened Values
  import opened Basics
  import opened Preferences
  import opened PrefsRoundTrip
  import opened Legacy
  import opened Whole = Settings
  import PR = ProcessRules

  // -------------------------------------------------------------- printing

  lemma EntriesTextAppend(entries: Entries, k: string, v: string)
    ensures EntriesText(entries + [(k, v)]) == EntriesText(entries) + Entry(k, v) + "\n"
  {
    assert (entries + [(k, v)])[..|entries|] == entries;
  }

  lemma {:induction false} BlocksTextAppend(a: seq<Block>, b: seq<Block>)
    ensures BlocksText(a + b) == BlocksText(a) + BlocksText(b)
    decreases |b|
  {
    hide BlockText;
    if b == [] {
      assert a + b == a;
    } else {
      BlocksTextAppend(a, b[..|b| - 1]);
      assert (a + b)[..|a + b| - 1] == a + b[..|b| - 1];
    }
  }

  lemma EntriesOfNext(ids: seq<string>, texts: map<string, string>, i: nat)
    requires i < |ids| && forall j :: 0 <= j < |ids| ==> ids[j] in texts
    ensures EntriesOf(ids[..i + 1], texts) == EntriesOf(ids[..i], texts) + [(ids[i], texts[ids[i]])]
  {
    assert ids[..i + 1][..i] == ids[..i];
  }

  lemma Walk(env: Env, s: set<string>)
    requires WalksFaithful(env)
    ensures forall i :: 0 <= i < |env.strings(s)| ==> env.strings(s)[i] in s
  {
    forall i | 0 <= i < |env.strings(s)|
      ensures env.strings(s)[i] in s
    {
      assert env.strings(s)[i] in env.strings(s);
    }
  }

  lemma WidthIsPlain(env: Env, w: real)
    requires FloatsFaithful(env)
    ensures Escape(env.showWidth(w)) == env.showWidth(w)
  {
    FloatTextIsPlain(env.showWidth(w));
    hide FloatText, Escape, Plain, Strip, Trimmed;
  }

  /** One line per column; the width is printed as it is. */
  method WidthLines(env: Env, cols: map<string, real>) returns (text: string)
    requires Faithful(env)
    ensures text == EntriesText(MapEntries(env, WidthTexts(env, cols)))
  {
    hide EntriesText, EntriesOf, Escape, FloatsFaithful, WalksFaithful, JsonFaithful, LettersFaithful;
    text := "";
    ghost var texts := WidthTexts(env, cols);
    assert texts.Keys == cols.Keys;
    var ids := env.strings(cols.Keys);
    Walk(env, cols.Keys);
    NoEntries(texts);
    assert ids[..0] == [];
    for i := 0 to |ids|
      invariant text == EntriesText(EntriesOf(ids[..i], texts))
    {
      EntriesOfNext(ids, texts, i);
      EntriesTextAppend(EntriesOf(ids[..i], texts), ids[i], texts[ids[i]]);
      WidthIsPlain(env, cols[ids[i]]);
      text := text + Escape(ids[i]) + "=" + env.showWidth(cols[ids[i]]) + "\n";
    }
    assert ids[..|ids|] == ids;
  }

  method VisibleLines(env: Env, cols: map<string, bool>) returns (text: string)
    requires WalksFaithful(env)
    ensures text == EntriesText(MapEntries(env, VisibleTexts(cols)))
  {
    hide EntriesText, EntriesOf, Escape, ShowBit, WalksFaithful;
    text := "";
    ghost var texts := VisibleTexts(cols);
    assert texts.Keys == cols.Keys;
    var ids := env.strings(cols.Keys);
    Walk(env, cols.Keys);
    NoEntries(texts);
    assert ids[..0] == [];
    for i := 0 to |ids|
      invariant text == EntriesText(EntriesOf(ids[..i], texts))
    {
      EntriesOfNext(ids, texts, i);
      EntriesTextAppend(EntriesOf(ids[..i], texts), ids[i], texts[ids[i]]);
      BitReadsBack(cols[ids[i]]);
      EscapePlainIff(ShowBit(cols[ids[i]]));
      text := text + Escape(ids[i]) + "=" + ShowBit(cols[ids[i]]) + "\n";
    }
    assert ids[..|ids|] == ids;
  }

  lemma NoEntries(texts: map<string, string>)
    ensures EntriesText(EntriesOf([], texts)) == ""
  {
  }

  /** `table=column,ascending`, the column escaped on its own. */
  method SortLines(env: Env, sort: map<string, SortBy>) returns (text: string)
    requires WalksFaithful(env)
    ensures text == EntriesText(MapEntries(env, SortTexts(sort)))
  {
    hide EntriesText, EntriesOf, Escape, ShowBool, WalksFaithful;
    text := "";
    ghost var texts := SortTexts(sort);
    assert texts.Keys == sort.Keys;
    var tables := env.strings(sort.Keys);
    Walk(env, sort.Keys);
    NoEntries(texts);
    assert tables[..0] == [];
    for i := 0 to |tables|
      invariant text == EntriesText(EntriesOf(tables[..i], texts))
    {
      var s := sort[tables[i]];
      EntriesOfNext(tables, texts, i);
      EntriesTextAppend(EntriesOf(tables[..i], texts), tables[i], texts[tables[i]]);
      SortEscape(s);
      text := text + Escape(tables[i]) + "=" + Escape(s.column) + "," + ShowBool(s.ascending) + "\n";
    }
    assert tables[..|tables|] == tables;
  }

  lemma SortEscape(s: SortBy)
    ensures Escape(ShowSort(s)) == Escape(s.column) + "," + ShowBool(s.ascending)
  {
    hide Escape;
    EscapeAppend(s.column + ",", ShowBool(s.ascending));
    EscapeAppend(s.column, ",");
    EscapePlainIff(",");
    EscapePlainIff(ShowBool(s.ascending));
  }

  lemma RuleEntriesNext(env: Env, paths: seq<string>, rules: map<string, PR.Rule>, i: nat)
    requires i < |paths| && forall j :: 0 <= j < |paths| ==> paths[j] in rules
    ensures RuleEntries(env, paths[..i + 1], rules) ==
            RuleEntries(env, paths[..i], rules) + [(RULE + Dec(i), env.toJson(paths[i], rules[paths[i]]))]
  {
    assert paths[..i + 1][..i] == paths[..i];
  }

  lemma RuleKeyPlain(i: nat)
    ensures Escape(RULE + Dec(i)) == RULE + Dec(i)
  {
    hide Dec;
    EscapePlainIff(RULE + Dec(i));
  }

  lemma NextRule(env: Env, paths: seq<string>, rules: map<string, PR.Rule>, i: nat)
    requires i < |paths| && forall j :: 0 <= j < |paths| ==> paths[j] in rules
    ensures EntriesText(RuleEntries(env, paths[..i + 1], rules)) ==
            EntriesText(RuleEntries(env, paths[..i], rules)) +
            (RULE + Dec(i) + "=" + Escape(env.toJson(paths[i], rules[paths[i]])) + "\n")
  {
    hide EntriesText, RuleEntries, Escape, Dec;
    var json := env.toJson(paths[i], rules[paths[i]]);
    RuleEntriesNext(env, paths, rules, i);
    EntriesTextAppend(RuleEntries(env, paths[..i], rules), RULE + Dec(i), json);
    RuleKeyPlain(i);
    Regroup(EntriesText(RuleEntries(env, paths[..i], rules)), RULE + Dec(i) + "=" + Escape(json), "\n");
  }

  /** Rules that say something, numbered from 0. */
  method RuleLines(env: Env, rules: map<string, PR.Rule>) returns (text: string, any: bool)
    requires WalksFaithful(env)
    ensures
      var entries := RuleEntries(env, Telling(env.strings(rules.Keys), rules), rules);
      text == EntriesText(entries) && (any <==> entries != [])
  {
    var paths := TellingPaths(env, rules);
    hide EntriesText, RuleEntries, Escape, Dec, WalksFaithful, Telling;
    RuleEntriesLength(env, paths, rules);
    text := "";
    assert paths[..0] == [];
    NoRuleEntries(env, rules);
    hide RULE;
    for i := 0 to |paths|
      invariant text == EntriesText(RuleEntries(env, paths[..i], rules))
    {
      NextRule(env, paths, rules, i);
      text := text + (RULE + Dec(i) + "=" + Escape(env.toJson(paths[i], rules[paths[i]])) + "\n");
    }
    assert paths[..|paths|] == paths;
    any := paths != [];
  }

  lemma NoRuleEntries(env: Env, rules: map<string, PR.Rule>)
    ensures EntriesText(RuleEntries(env, [], rules)) == ""
  {
  }

  method TellingPaths(env: Env, rules: map<string, PR.Rule>) returns (paths: seq<string>)
    requires WalksFaithful(env)
    ensures paths == Telling(env.strings(rules.Keys), rules)
    ensures forall j :: 0 <= j < |paths| ==> paths[j] in rules
  {
    paths := [];
    var all := env.strings(rules.Keys);
    Walk(env, rules.Keys);
    hide WalksFaithful;
    for i := 0 to |all|
      invariant paths == Telling(all[..i], rules)
    {
      assert all[..i + 1][..i] == all[..i];
      if !rules[all[i]].IsEmpty() {
        paths := paths + [all[i]];
      }
    }
    assert all[..|all|] == all;
  }

  /** The lines of one table's section; none if there is nothing to print. */
  method CellLines(env: Env, p: Prefs, kind: Kind, table: string) returns (text: string, any: bool)
    requires Faithful(env) && table in Tables(p, kind)
    ensures text == EntriesText(Cells(env, p, kind, table)) && (any <==> Cells(env, p, kind, table) != [])
  {
    hide MapEntries, Join, FloatsFaithful, JsonFaithful, LettersFaithful, Entry;
    match kind
    case Width =>
      text := WidthLines(env, p.widths[table]);
      any := p.widths[table] != map[];
      LookMap(env, WidthTexts(env, p.widths[table]), "");
      assert WidthTexts(env, p.widths[table]).Keys == p.widths[table].Keys;
    case Visible =>
      text := VisibleLines(env, p.visible[table]);
      any := p.visible[table] != map[];
      LookMap(env, VisibleTexts(p.visible[table]), "");
      assert VisibleTexts(p.visible[table]).Keys == p.visible[table].Keys;
    case Order =>
      any := p.order[table] != [];
      text := "";
      if any {
        text := OrderLine(p.order[table]);
      }
  }

  method OrderLine(ids: seq<string>) returns (text: string)
    ensures text == EntriesText([("order", Join(ids, ','))])
  {
    hide Escape, Join;
    EscapePlainIff("order");
    EntriesTextAppend([], "order", Join(ids, ','));
    assert [] + [("order", Join(ids, ','))] == [("order", Join(ids, ','))];
    text := "order=" + Escape(Join(ids, ',')) + "\n";
  }

  lemma TableBlocksNext(env: Env, p: Prefs, kind: Kind, tables: seq<string>, i: nat)
    requires WalksFaithful(env) && i < |tables|
    ensures BlocksText(TableBlocks(env, p, kind, tables[..i + 1])) ==
            BlocksText(TableBlocks(env, p, kind, tables[..i])) +
            if Cells(env, p, kind, tables[i]) == [] then "" else BlockText(TableBlock(env, p, kind, tables[i]))
  {
    hide BlockText, Cells, Note, TableName, WalksFaithful;
    assert tables[..i + 1][..i] == tables[..i];
    var earlier, b := TableBlocks(env, p, kind, tables[..i]), TableBlock(env, p, kind, tables[i]);
    assert earlier + [] == earlier;
    assert (earlier + [b])[..|earlier|] == earlier;
  }

  /** One section per table of one kind. */
  method PushTables(env: Env, p: Prefs, kind: Kind, before: string) returns (out: string)
    requires Faithful(env)
    ensures out == before + BlocksText(TableBlocks(env, p, kind, env.strings(Tables(p, kind))))
  {
    hide BlocksText, TableBlocks, Cells, Note, TableName, EntriesText, FloatsFaithful, JsonFaithful, LettersFaithful, Tables;
    out := before;
    var tables := env.strings(Tables(p, kind));
    Walk(env, Tables(p, kind));
    NoBlocks(env, p, kind);
    assert tables[..0] == [];
    for i := 0 to |tables|
      invariant out == before + BlocksText(TableBlocks(env, p, kind, tables[..i]))
    {
      TableBlocksNext(env, p, kind, tables, i);
      ghost var was := BlocksText(TableBlocks(env, p, kind, tables[..i]));
      var lines, any := CellLines(env, p, kind, tables[i]);
      if any {
        var section := "\n" + "[" + TableName(kind, tables[i]) + "]\n" + Note(kind) + lines;
        out := out + section;
        assert section == BlockText(TableBlock(env, p, kind, tables[i]));
        Regroup(before, was, section);
      }
    }
    assert tables[..|tables|] == tables;
  }

  lemma NoBlocks(env: Env, p: Prefs, kind: Kind)
    requires WalksFaithful(env)
    ensures BlocksText(TableBlocks(env, p, kind, [])) == ""
  {
  }

  lemma OneBlockText(b: Block)
    ensures BlocksText([b]) == BlockText(b) && BlocksText([]) == ""
  {
    assert [b][..0] == [];
  }

  method PushSort(env: Env, p: Prefs, before: string) returns (out: string)
    requires Faithful(env)
    ensures out == before + BlocksText(SortBlocks(env, p))
  {
    hide BlocksText, MapEntries, EntriesText, FloatsFaithful, JsonFaithful, LettersFaithful;
    out := before;
    OneBlockText(Block("", "", "", []));
    if p.sort != map[] {
      var lines := SortLines(env, p.sort);
      OneBlockText(SortBlocks(env, p)[0]);
      out := out + ("\n" + "[" + "sort" + "]\n" + (SORT_NOTE + "\n") + lines);
    }
  }

  method PushRules(env: Env, p: Prefs, before: string) returns (out: string)
    requires Faithful(env)
    ensures out == before + BlocksText(RuleBlocks(env, p))
  {
    hide BlocksText, RuleEntries, Telling, EntriesText, FloatsFaithful, JsonFaithful, LettersFaithful;
    out := before;
    OneBlockText(Block("", "", "", []));
    var lines, any := RuleLines(env, p.rules);
    if any {
      OneBlockText(RuleBlocks(env, p)[0]);
      out := out + ("\n" + "[" + "process-rules" + "]\n" + (RULES_NOTE + "\n") + lines);
    }
  }

  /** `render_ini`. */
  method RenderIni(env: Env, body: string, p: Prefs) returns (out: string)
    requires Faithful(env)
    ensures out == HEAD + (body + BlocksText(PrefBlocks(env, p)))
  {
    hide BlocksText, TableBlocks, SortBlocks, RuleBlocks, FloatsFaithful, JsonFaithful, LettersFaithful, HEAD;
    out := HEAD + body;
    out := PushTables(env, p, Width, out);
    out := PushTables(env, p, Visible, out);
    out := PushTables(env, p, Order, out);
    out := PushSort(env, p, out);
    out := PushRules(env, p, out);
    PrefText(env, p);
  }

  lemma PrefText(env: Env, p: Prefs)
    requires WalksFaithful(env)
    ensures BlocksText(PrefBlocks(env, p)) ==
            BlocksText(TableBlocks(env, p, Width, env.strings(p.widths.Keys))) +
            BlocksText(TableBlocks(env, p, Visible, env.strings(p.visible.Keys))) +
            BlocksText(TableBlocks(env, p, Order, env.strings(p.order.Keys))) +
            BlocksText(SortBlocks(env, p)) + BlocksText(RuleBlocks(env, p))
  {
    hide BlocksText, TableBlocks, SortBlocks, RuleBlocks, WalksFaithful;
    var w := TableBlocks(env, p, Width, env.strings(p.widths.Keys));
    var v := TableBlocks(env, p, Visible, env.strings(p.visible.Keys));
    var o := TableBlocks(env, p, Order, env.strings(p.order.Keys));
    BlocksTextAppend(w, v);
    BlocksTextAppend(w + v, o);
    BlocksTextAppend(w + v + o, SortBlocks(env, p));
    BlocksTextAppend(w + v + o + SortBlocks(env, p), RuleBlocks(env, p));
  }

  /** The text of `save_to`: keys of the general section are printed as they are. */
  method Save(env: Env, s: Settings) returns (text: string)
    requires Faithful(env)
    ensures text == SaveText(env, s)
  {
    hide EntriesText, BasicTexts, BlocksText, PrefBlocks, Escape, IsSlug, FloatsFaithful, JsonFaithful, LettersFaithful, HEAD;
    var texts := BasicTexts(env, s.basics);
    ghost var entries := BasicEntries(env, s.basics);
    var body := "[" + SECTION + "]\n";
    ghost var start := body;
    assert entries[..0] == [];
    NoEntriesText();
    for i := 0 to |KEYS|
      invariant body == start + EntriesText(entries[..i])
    {
      NextBasic(env, s.basics, i);
      Regroup(start, EntriesText(entries[..i]), KEYS[i] + "=" + Escape(texts[i]) + "\n");
      body := body + (KEYS[i] + "=" + Escape(texts[i]) + "\n");
    }
    assert entries[..|KEYS|] == entries;
    text := RenderIni(env, body, s.prefs);
    BasicText(env, s.basics);
    OneBlockText(BasicBlock(env, s.basics));
    BlocksTextAppend([BasicBlock(env, s.basics)], PrefBlocks(env, s.prefs));
  }

  lemma NextBasic(env: Env, b: Basics, i: nat)
    requires i < |KEYS|
    ensures EntriesText(BasicEntries(env, b)[..i + 1]) ==
            EntriesText(BasicEntries(env, b)[..i]) + (KEYS[i] + "=" + Escape(BasicTexts(env, b)[i]) + "\n")
  {
    hide EntriesText, BasicTexts, Escape, IsSlug;
    var entries, text := BasicEntries(env, b), BasicTexts(env, b)[i];
    KeysAreSlugs();
    PlainKey(KEYS[i]);
    assert entries[..i + 1] == entries[..i] + [(KEYS[i], text)];
    EntriesTextAppend(entries[..i], KEYS[i], text);
    Regroup(EntriesText(entries[..i]), KEYS[i] + "=" + Escape(text), "\n");
  }

  lemma NoEntriesText()
    ensures EntriesText([]) == ""
  {
  }

  lemma BasicText(env: Env, b: Basics)
    ensures BlockText(BasicBlock(env, b)) == "[" + SECTION + "]\n" + EntriesText(BasicEntries(env, b))
  {
    hide EntriesText, BasicTexts;
  }

  // --------------------------------------------------------------- reading

  /** The loop over all keys; `sawLegacy` is set by any key of the old section. */
  method ReadPrefs(env: Env, m: Keys, keys: seq<(string, string)>) returns (p: Prefs, sawLegacy: bool)
    requires Listed(keys, m)
    ensures p == AbsorbAll(env, m, keys)
    ensures sawLegacy <==> exists i :: 0 <= i < |keys| && keys[i].0 == "columns"
  {
    hide SectionOf, ReadSort, ReadRule, ReadOrder, ReadWidth, ParseBool, Into;
    p := NOTHING;
    sawLegacy := false;
    for n := 0 to |keys|
      invariant p == AbsorbAll(env, m, keys[..n])
      invariant sawLegacy <==> exists i :: 0 <= i < n && keys[i].0 == "columns"
    {
      assert keys[..n + 1][..n] == keys[..n];
      var (section, key) := keys[n];
      var value := m[keys[n]];
      NameOfSection(section);
      LegacySection();
      match SectionOf(section)
      case Legacy => sawLegacy := true;
      case Sort =>
        var s := ReadSort(value);
        if s.Some? { p := p.(sort := p.sort[key := s.value]); }
      case Rules =>
        var r := ReadRule(env, value);
        if RULE <= key && r.Some? { p := p.(rules := p.rules[r.value.0 := r.value.1]); }
      case Table(kind, table) =>
        match kind {
          case Visible =>
            var on := ParseBool(value);
            if on.Some? { p := p.(visible := Into(p.visible, table, key, on.value)); }
          case Order =>
            if key == "order" {
              var ids := ReadOrder(value);
              if ids != [] { p := p.(order := p.order[table := ids]); }
            }
          case Width =>
            var w := ReadWidth(env, table, value);
            if w.Some? { p := p.(widths := Into(p.widths, table, key, w.value)); }
        }
      case General =>
      case Other =>
    }
    assert keys[..|keys|] == keys;
  }

  /** `from_ini_text`. */
  method FromIniText(env: Env, text: string) returns (s: Settings)
    requires WalksFaithful(env)
    ensures s == FromText(env, text)
  {
    hide Feed, ReadBasics, AbsorbAll, MigrateAll, WalksFaithful;
    var m := ParseIni(text);
    var keys := env.pairs(m.Keys);
    KeysListed(env, m);
    var p, sawLegacy := ReadPrefs(env, m, keys);
    if sawLegacy {
      p := MigrateWidths(env, m, p, keys);
    } else {
      NothingToMigrate(env, m, p, keys);
    }
    s := Settings(ReadBasics(env, m), p);
  }
}
