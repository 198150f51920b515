/**
 Exactly which settings survive being saved and loaded: what some file can hold, with
 ids that are printed as they are and widths that are printed exactly.
 */
module SettingsExact {
  import opened Common
  import opened Text
  import opened Ini
  import opened Values
  import opened Basics
  import opened Preferences
  import opened PrefsRoundTrip
  import opened Legacy
  import opened Whole = Settings
  import PR = ProcessRules

  // ------------------------------------------- what a file can hold: ids

  lemma {:induction false} IdsAreTrimmed(parts: seq<string>)
    requires forall i :: 0 <= i < |parts| ==> ',' !in parts[i]
    ensures forall i :: 0 <= i < |Ids(parts)| ==> IsId(Ids(parts)[i])
    decreases |parts|
  {
    if parts != [] {
      var init, part := parts[..|parts| - 1], parts[|parts| - 1];
      assert forall i :: 0 <= i < |init| ==> init[i] == parts[i];
      IdsAreTrimmed(init);
      TrimIff(part);
      TrimIsPart(part);
      hide Trim, Trimmed;
    }
  }

  lemma ReadOrderIds(value: string)
    ensures forall i :: 0 <= i < |ReadOrder(value)| ==> IsId(ReadOrder(value)[i])
  {
    SplitHasNone(value, ',');
    IdsAreTrimmed(Split(value, ','));
    hide Split, Ids;
  }

  lemma ReadSortFacts(value: string)
    ensures ReadSort(value).Some? ==> ReadSort(value).value.column != [] && Trimmed(ReadSort(value).value.column)
  {
    hide Trim, Trimmed, ParseBool;
    var i := FindLast(value, ',');
    if i >= 0 { TrimIff(value[..i]); }
  }

  // --------------------------------------- what a file can hold: the maps

  /** A cell that was read has a key in the file. */
  lemma ValueIsGood(m: Keys, keys: seq<(string, string)>, section: string, key: string)
    requires GoodKeys(m) && Value(m, keys, section, key).Some?
    ensures CleanName(section) && GoodKey(key)
  {
    assert (section, key) in m;
    hide CleanName, GoodKey;
  }

  ghost predicate GoodWidth(t: string, c: string, w: real) {
    OwnWidths(t) && t != "columns" && CleanName(TableName(Width, t)) && GoodKey(c) && LEAST_WIDTH <= w <= MOST_WIDTH
  }

  lemma ReadCells(env: Env, m: Keys, keys: seq<(string, string)>, t: string, c: string)
    requires GoodKeys(m) && Listed(keys, m)
    ensures
      var p := AbsorbAll(env, m, keys);
      && (Get2(p.widths, t, c).Some? ==> GoodWidth(t, c, Get2(p.widths, t, c).value))
      && (Get2(p.visible, t, c).Some? ==> CleanName(TableName(Visible, t)) && GoodKey(c))
      && (Get(p.sort, t).Some? ==> GoodKey(t) && p.sort[t].column != [] && Trimmed(p.sort[t].column))
  {
    CellsRead(env, m, keys, t, c);
    hide AbsorbAll, CleanName, GoodKey, GoodKeys, Value, TableName, OwnWidths, NoEmpties, ReadSort, ParseBool, Trimmed;
    var p := AbsorbAll(env, m, keys);
    if Get2(p.widths, t, c).Some? { ValueIsGood(m, keys, TableName(Width, t), c); }
    if Get2(p.visible, t, c).Some? { ValueIsGood(m, keys, TableName(Visible, t), c); }
    if Get(p.sort, t).Some? {
      ValueIsGood(m, keys, "sort", t);
      ReadSortFacts(Value(m, keys, "sort", t).value);
    }
  }

  lemma ReadOrders(env: Env, m: Keys, keys: seq<(string, string)>, t: string)
    requires GoodKeys(m) && Listed(keys, m) && t in AbsorbAll(env, m, keys).order
    ensures var ids := AbsorbAll(env, m, keys).order[t];
            ids != [] && CleanName(TableName(Order, t)) && forall i :: 0 <= i < |ids| ==> IsId(ids[i])
  {
    CellsRead(env, m, keys, t, "");
    hide AbsorbAll, CleanName, GoodKey, GoodKeys, Value, TableName, ReadOrder, IsId;
    var v := Value(m, keys, TableName(Order, t), "order");
    assert Get(AbsorbAll(env, m, keys).order, t) == OrderCell(v);
    ValueIsGood(m, keys, TableName(Order, t), "order");
    ReadOrderIds(v.value);
  }

  lemma ReadRules(env: Env, m: Keys, keys: seq<(string, string)>, path: string)
    requires Listed(keys, m) && path in AbsorbAll(env, m, keys).rules
    ensures !AbsorbAll(env, m, keys).rules[path].IsEmpty() && Trim(path) != []
  {
    hide AbsorbAll, SectionOf, Trim;
    RulesComeFrom(env, m, keys, path);
  }

  lemma WidthsFromCells(p: Prefs)
    requires NoEmpties(p.widths)
    requires forall t, c :: Get2(p.widths, t, c).Some? ==> GoodWidth(t, c, Get2(p.widths, t, c).value)
    ensures LoadableWidths(p)
  {
    hide CleanName, GoodKey, OwnWidths, TableName;
    forall t, c {:trigger c in p.widths[t]} | t in p.widths && c in p.widths[t]
      ensures GoodWidth(t, c, p.widths[t][c])
    {
      assert Get2(p.widths, t, c).Some?;
    }
    forall t | t in p.widths
      ensures p.widths[t] != map[] && OwnWidths(t) && t != "columns" && CleanName(TableName(Width, t))
    {
      var c :| c in p.widths[t];
      assert GoodWidth(t, c, p.widths[t][c]);
    }
  }

  lemma VisibleFromCells(p: Prefs)
    requires NoEmpties(p.visible)
    requires forall t, c :: Get2(p.visible, t, c).Some? ==> CleanName(TableName(Visible, t)) && GoodKey(c)
    ensures LoadableVisible(p)
  {
    hide CleanName, GoodKey, TableName;
    forall t, c {:trigger c in p.visible[t]} | t in p.visible && c in p.visible[t]
      ensures GoodKey(c) && CleanName(TableName(Visible, t))
    {
      assert Get2(p.visible, t, c).Some?;
    }
    forall t | t in p.visible
      ensures p.visible[t] != map[] && CleanName(TableName(Visible, t))
    {
      var c :| c in p.visible[t];
      assert Get2(p.visible, t, c).Some?;
    }
  }

  lemma AbsorbedCells(env: Env, m: Keys, keys: seq<(string, string)>)
    requires GoodKeys(m) && Listed(keys, m)
    ensures LoadableWidths(AbsorbAll(env, m, keys)) && LoadableVisible(AbsorbAll(env, m, keys))
  {
    hide AbsorbAll, CleanName, GoodKey, GoodKeys, TableName, Trimmed, Get, Get2, NoEmpties, GoodWidth, Value, LoadableWidths, LoadableVisible;
    var p := AbsorbAll(env, m, keys);
    CellsRead(env, m, keys, "", "");
    forall t, c
      ensures Get2(p.widths, t, c).Some? ==> GoodWidth(t, c, Get2(p.widths, t, c).value)
      ensures Get2(p.visible, t, c).Some? ==> CleanName(TableName(Visible, t)) && GoodKey(c)
    {
      ReadCells(env, m, keys, t, c);
    }
    WidthsFromCells(p);
    VisibleFromCells(p);
  }

  /** What the loop over the keys takes over can be held by a file. */
  lemma AbsorbedIsLoadable(env: Env, m: Keys, keys: seq<(string, string)>)
    requires GoodKeys(m) && Listed(keys, m)
    ensures Loadable(AbsorbAll(env, m, keys))
  {
    hide AbsorbAll, CleanName, GoodKey, GoodKeys, TableName, IsId, Trimmed, Trim, LoadableWidths, LoadableVisible;
    var p := AbsorbAll(env, m, keys);
    AbsorbedCells(env, m, keys);
    forall t | t in p.order
      ensures p.order[t] != [] && CleanName(TableName(Order, t)) && forall i :: 0 <= i < |p.order[t]| ==> IsId(p.order[t][i])
    {
      ReadOrders(env, m, keys, t);
    }
    forall t | t in p.sort
      ensures GoodKey(t) && p.sort[t].column != [] && Trimmed(p.sort[t].column)
    {
      assert Get(p.sort, t).Some?;
      ReadCells(env, m, keys, t, "");
    }
    forall path | path in p.rules
      ensures !p.rules[path].IsEmpty() && Trim(path) != []
    {
      ReadRules(env, m, keys, path);
    }
  }

  // -------------------------------------- what a file can hold: migration

  lemma LegacyTables(table: string)
    ensures ColumnOrder(table) != [] ==> Slug(table) && table != "columns"
  {
  }

  predicate AllSlugs(ids: seq<string>) {
    forall i :: 0 <= i < |ids| ==> Slug(ids[i])
  }

  lemma LegacyColumns(table: string)
    ensures AllSlugs(ColumnOrder(table))
  {
    hide Slug;
    CommonColumns();
    OtherColumns();
  }

  lemma CommonColumns()
    ensures Slug("name") && Slug("status") && Slug("cpu") && Slug("mem") && Slug("disk") && Slug("net") && Slug("user") && Slug("pid")
  {
  }

  lemma OtherColumns()
    ensures Slug("platform") && Slug("elevated") && Slug("uac") && Slug("gpu") && Slug("pub") && Slug("impact")
    ensures Slug("desc") && Slug("group") && Slug("notif")
  {
  }

  lemma {:induction false} PairsInRange(order: seq<string>, widths: seq<real>, n: nat, id: string)
    requires n <= |order| && n <= |widths| && id in Pairs(order, widths, n)
    ensures LEAST_WIDTH <= Pairs(order, widths, n)[id] <= MOST_WIDTH
    decreases n
  {
    if n > 1 && id in Pairs(order, widths, n - 1) {
      PairsInRange(order, widths, n - 1, id);
    }
  }

  /** What the old section offers fits the new one. */
  lemma OldIsGood(env: Env, table: string, value: string, id: string)
    requires id in Old(env, table, value)
    ensures GoodWidth(table, id, Old(env, table, value)[id])
  {
    hide Widths, Split, Slug, GoodKey, CleanName, OwnWidths, TableName, ColumnOrder;
    var widths := Widths(env, Split(value, ',')).value;
    var order := ColumnOrder(table);
    var n := Shorter(|order|, |widths|);
    PairsInRange(order, widths, n, id);
    PairsOnly(order, widths, n, id);
    LegacyTables(table);
    LegacyColumns(table);
    hide Pairs;
    SlugTable(Width, table);
    SlugKey(id);
  }

  /** Filling in old widths keeps that. */
  lemma FillIsLoadable(p: Prefs, table: string, migrated: map<string, real>)
    requires Loadable(p) && forall id :: id in migrated ==> GoodWidth(table, id, migrated[id])
    ensures Loadable(Fill(p, table, migrated))
  {
    hide CleanName, GoodKey, OwnWidths, TableName, IsId, Trimmed, Trim;
    var q := Fill(p, table, migrated);
    if migrated != map[] {
      var id :| id in migrated;
      assert GoodWidth(table, id, migrated[id]);
      assert id in q.widths[table];
      forall t | t in q.widths
        ensures q.widths[t] != map[] && OwnWidths(t) && t != "columns" && CleanName(TableName(Width, t))
      {
        assert t != table ==> q.widths[t] == p.widths[t];
      }
      forall t, c {:trigger c in q.widths[t]} | t in q.widths && c in q.widths[t]
        ensures GoodKey(c) && LEAST_WIDTH <= q.widths[t][c] <= MOST_WIDTH
      {
        if t in p.widths && c in p.widths[t] {
          assert q.widths[t][c] == p.widths[t][c];
        } else {
          assert t == table && c in migrated && q.widths[t][c] == migrated[c];
        }
      }
    }
  }

  lemma {:induction false} MigratedIsLoadable(env: Env, m: Keys, p: Prefs, keys: seq<(string, string)>)
    requires Listed(keys, m) && Loadable(p)
    ensures Loadable(MigrateAll(env, m, p, keys))
    decreases |keys|
  {
    hide Loadable, Old, Fill;
    if keys != [] {
      var init, k := keys[..|keys| - 1], keys[|keys| - 1];
      MigratedIsLoadable(env, m, p, init);
      if k.0 == "columns" {
        forall id | id in Old(env, k.1, m[k])
          ensures GoodWidth(k.1, id, Old(env, k.1, m[k])[id])
        {
          OldIsGood(env, k.1, m[k], id);
        }
        FillIsLoadable(MigrateAll(env, m, p, init), k.1, Old(env, k.1, m[k]));
      }
    }
  }

  /** Whatever the text, what is loaded from it is in range and can be held by a file. */
  lemma LoadedIsLoadable(env: Env, text: string)
    requires Faithful(env)
    ensures InRange(env, FromText(env, text).basics) && Loadable(FromText(env, text).prefs)
  {
    hide Feed, ReadBasics, InRange, AbsorbAll, MigrateAll, Loadable, GoodKeys, CleanName, FloatsFaithful, LettersFaithful, JsonFaithful, WalksFaithful;
    var m := Feed(BLANK, text).out;
    var keys := env.pairs(m.Keys);
    assert GoodKeys(map[]) by { NoKeysAreGood(); }
    GoodFeed(BLANK, text);
    KeysListed(env, m);
    ReadIsInRange(env, m);
    AbsorbedIsLoadable(env, m, keys);
    MigratedIsLoadable(env, m, AbsorbAll(env, m, keys), keys);
  }

  lemma NoKeysAreGood()
    ensures GoodKeys(map[])
  {
  }

  // ------------------------------------------- what survives needs no escape

  /** Loading what `s` saves gives the maps of `s` back. */
  ghost predicate MapsSurvive(env: Env, s: Settings)
    requires WalksFaithful(env)
  {
    var m := SavedMap(env, s);
    var keys := env.pairs(m.Keys);
    && Loadable(s.prefs)
    && Listed(keys, m) && (forall k :: k in m ==> k in keys)
    && AbsorbAll(env, m, keys) == s.prefs
  }

  /** A surviving cell was read from its own key. */
  lemma CellsOf(env: Env, s: Settings, t: string, c: string)
    requires WalksFaithful(env)
    ensures MapsSurvive(env, s) ==>
              var m := SavedMap(env, s);
              && Get2(s.prefs.widths, t, c) == WidthCell(env, t, At(m, TableName(Width, t), c))
              && Get2(s.prefs.visible, t, c) == VisibleCell(At(m, TableName(Visible, t), c))
              && Get(s.prefs.sort, t) == SortCell(At(m, "sort", t))
  {
    hide SavedMap, AbsorbAll, WidthCell, VisibleCell, SortCell, OrderCell, Value, At, TableName, Loadable, NoEmpties;
    if MapsSurvive(env, s) {
      var m := SavedMap(env, s);
      var keys := env.pairs(m.Keys);
      CellsRead(env, m, keys, t, c);
      ValueIsAt(m, keys);
    }
  }

  lemma SavedCell(env: Env, s: Settings, kind: Kind, t: string, id: string)
    requires WalksFaithful(env) && (kind == Width ==> OwnWidths(t))
    ensures SavedValue(env, s, TableName(kind, t), id) == Look(Cells(env, s.prefs, kind, t), id)
  {
    hide SectionOf, TableName, Cells, Look, OwnWidths, BasicEntries;
    SectionNames(kind, t);
  }

  /** Every id is what some id among them is printed as. */
  ghost predicate FromPrinted(ids: set<string>) {
    forall c :: c in ids ==> exists id :: id in ids && Escape(id) == c
  }

  /** Then none needs an escape: it would be what a shorter such id is printed as, and so on without end. */
  lemma {:induction false} PrintedArePlain(ids: set<string>, c: string)
    requires FromPrinted(ids) && c in ids
    ensures Plain(c)
    decreases |c|
  {
    hide Escape, Plain;
    var id :| id in ids && Escape(id) == c;
    EscapePlainIff(id);
    if !Plain(id) {
      PrintedArePlain(ids, id);
    }
  }

  /** A surviving id is what some id of the same table is printed as. */
  lemma WidthSource(env: Env, s: Settings, t: string)
    requires Faithful(env)
    ensures MapsSurvive(env, s) && t in s.prefs.widths ==> FromPrinted(s.prefs.widths[t].Keys)
  {
    hide SavedMap, Escape, SectionOf, TableName, At, MapEntries, AbsorbAll, OwnWidths, ReadWidth, GoodKey, CleanName, IsId, SavedValue,
         Trimmed, FloatsFaithful, JsonFaithful, LettersFaithful;
    if MapsSurvive(env, s) && t in s.prefs.widths {
      forall c | c in s.prefs.widths[t].Keys
        ensures exists id :: id in s.prefs.widths[t].Keys && Escape(id) == c
      {
        CellsOf(env, s, t, c);
        SectionNames(Width, t);
        FoundAt(env, s, TableName(Width, t), c);
        var id :| Escape(id) == c && SavedValue(env, s, TableName(Width, t), id).Some?;
        SavedCell(env, s, Width, t, id);
        LookMap(env, WidthTexts(env, s.prefs.widths[t]), id);
        assert id in s.prefs.widths[t].Keys;
      }
    }
  }

  /** A surviving id is what some id of the same table is printed as. */
  lemma VisibleSource(env: Env, s: Settings, t: string)
    requires Faithful(env)
    ensures MapsSurvive(env, s) && t in s.prefs.visible ==> FromPrinted(s.prefs.visible[t].Keys)
  {
    hide SavedMap, Escape, SectionOf, TableName, At, MapEntries, AbsorbAll, OwnWidths, ParseBool, GoodKey, CleanName, IsId, SavedValue,
         Trimmed, FloatsFaithful, JsonFaithful, LettersFaithful;
    if MapsSurvive(env, s) && t in s.prefs.visible {
      forall c | c in s.prefs.visible[t].Keys
        ensures exists id :: id in s.prefs.visible[t].Keys && Escape(id) == c
      {
        CellsOf(env, s, t, c);
        SectionNames(Visible, t);
        FoundAt(env, s, TableName(Visible, t), c);
        var id :| Escape(id) == c && SavedValue(env, s, TableName(Visible, t), id).Some?;
        SavedCell(env, s, Visible, t, id);
        LookMap(env, VisibleTexts(s.prefs.visible[t]), id);
        assert id in s.prefs.visible[t].Keys;
      }
    }
  }

  lemma SortSource(env: Env, s: Settings)
    requires Faithful(env)
    ensures MapsSurvive(env, s) ==> FromPrinted(s.prefs.sort.Keys)
  {
    hide SavedMap, Escape, SectionOf, At, Look, MapEntries, AbsorbAll, ReadSort, BasicEntries, GoodKey, LoadableTables, Trimmed,
         FloatsFaithful, JsonFaithful, LettersFaithful;
    if MapsSurvive(env, s) {
      forall t | t in s.prefs.sort.Keys
        ensures exists id :: id in s.prefs.sort.Keys && Escape(id) == t
      {
        CellsOf(env, s, t, "");
        SortSection();
        FoundAt(env, s, "sort", t);
        var id :| Escape(id) == t && SavedValue(env, s, "sort", id).Some?;
        LookMap(env, SortTexts(s.prefs.sort), id);
        assert id in s.prefs.sort.Keys;
      }
    }
  }

  /** A surviving width is read back from its own text. */
  lemma WidthExact(env: Env, s: Settings, t: string, c: string)
    requires Faithful(env) && Plain(c)
    ensures MapsSurvive(env, s) && t in s.prefs.widths && c in s.prefs.widths[t] ==>
              env.read(env.showWidth(s.prefs.widths[t][c])) == Some(s.prefs.widths[t][c])
  {
    hide SavedMap, Escape, Plain, SectionOf, TableName, At, Look, MapEntries, AbsorbAll, OwnWidths, BasicEntries, GoodKey, CleanName, IsId,
         SavedValue, Trimmed, FloatsFaithful, JsonFaithful, LettersFaithful;
    if MapsSurvive(env, s) && t in s.prefs.widths && c in s.prefs.widths[t] {
      EscapePlainIff(c);
      SavedAt(env, s, TableName(Width, t), c);
      SavedCell(env, s, Width, t, c);
      CellsOf(env, s, t, c);
      LookMap(env, WidthTexts(env, s.prefs.widths[t]), c);
    }
  }

  /** What survives needs no escape and is printed exactly. */
  lemma SurvivorsAreStorable(env: Env, s: Settings)
    requires Faithful(env)
    ensures MapsSurvive(env, s) ==> PlainIds(s.prefs) && ExactWidths(env, s.prefs)
  {
    hide MapsSurvive, Plain, FromPrinted, FloatsFaithful, JsonFaithful, LettersFaithful, WalksFaithful;
    if MapsSurvive(env, s) {
      var p := s.prefs;
      forall t, c {:trigger c in p.widths[t]} | t in p.widths && c in p.widths[t]
        ensures Plain(c) && env.read(env.showWidth(p.widths[t][c])) == Some(p.widths[t][c])
      {
        WidthSource(env, s, t);
        PrintedArePlain(p.widths[t].Keys, c);
        WidthExact(env, s, t, c);
      }
      forall t, c {:trigger c in p.visible[t]} | t in p.visible && c in p.visible[t]
        ensures Plain(c)
      {
        VisibleSource(env, s, t);
        PrintedArePlain(p.visible[t].Keys, c);
      }
      forall t | t in p.sort
        ensures Plain(t)
      {
        SortSource(env, s);
        PrintedArePlain(p.sort.Keys, t);
      }
    }
  }

  /** Settings that survive are in range, and their maps survive on their own. */
  lemma SurvivorsSurvive(env: Env, s: Settings)
    requires Faithful(env)
    ensures FromText(env, SaveText(env, s)) == s ==> InRange(env, s.basics) && Loadable(s.prefs) && MapsSurvive(env, s)
  {
    hide SaveText, ReadBasics, InRange, AbsorbAll, MigrateAll, LoadableTables, GoodKey, Trimmed, Trim, SavedMap, Feed,
         FloatsFaithful, LettersFaithful, JsonFaithful, WalksFaithful;
    if FromText(env, SaveText(env, s)) == s {
      LoadedIsLoadable(env, SaveText(env, s));
      SavedKeys(env, s);
      var m := SavedMap(env, s);
      KeysListed(env, m);
      NoOldSection(env, s);
      NothingToMigrate(env, m, AbsorbAll(env, m, env.pairs(m.Keys)), env.pairs(m.Keys));
    }
  }

  /**
   Settings survive being saved and loaded exactly when every general value is in range
   and the maps are what some file can hold, with ids that need no escape and widths
   that are printed exactly.
   */
  lemma SettingsRoundTripIff(env: Env, s: Settings)
    requires Faithful(env)
    ensures FromText(env, SaveText(env, s)) == s <==> InRange(env, s.basics) && Storable(env, s.prefs)
  {
    hide FromText, SaveText, InRange, Loadable, PlainIds, ExactWidths, MapsSurvive, FloatsFaithful, LettersFaithful, JsonFaithful, WalksFaithful;
    if FromText(env, SaveText(env, s)) == s {
      SurvivorsSurvive(env, s);
      SurvivorsAreStorable(env, s);
    } else if InRange(env, s.basics) && Storable(env, s.prefs) {
      SettingsRoundTrip(env, s);
    }
  }

  /** Settings loaded from any file survive the next save and load exactly if their ids need no escape and their widths are printed exactly. */
  lemma LoadedSettingsAreStableIff(env: Env, text: string)
    requires Faithful(env)
    ensures var s := FromText(env, text);
            FromText(env, SaveText(env, s)) == s <==> PlainIds(s.prefs) && ExactWidths(env, s.prefs)
  {
    hide FromText, SaveText, InRange, Loadable, PlainIds, ExactWidths, FloatsFaithful, LettersFaithful, JsonFaithful, WalksFaithful;
    LoadedIsLoadable(env, text);
    SettingsRoundTripIff(env, FromText(env, text));
  }

  /** So do general settings from any file, beside any maps that can be stored. */
  lemma LoadedBasicsAreStable(env: Env, text: string, p: Prefs)
    requires Faithful(env) && Storable(env, p)
    ensures var b := FromText(env, text).basics; FromText(env, SaveText(env, Settings(b, p))) == Settings(b, p)
  {
    hide FromText, SaveText, InRange, Storable, Loadable;
    LoadedIsLoadable(env, text);
    SettingsRoundTrip(env, Settings(FromText(env, text).basics, p));
  }
}
