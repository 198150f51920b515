/**
 What loading makes of the table sections of any text: every width, visibility, column
 order and sort order there is, and no other, from the lines of the text alone.
 */
module LoadedTables {
  import opened Common
  import opened Text
  import opened Ini
  import opened IniReading
  import opened Values
  import opened Preferences
  import opened Legacy
  import opened Whole = Settings
  import D = Defaults

  /** The text gives the key of this section this value. */
  ghost predicate Gives(text: string, section: string, key: string, value: string) {
    HasValue(Lines(text), |Lines(text)|, section, key, value)
  }

  lemma GivesIff(text: string, section: string, key: string, value: string)
    ensures Gives(text, section, key, value) <==> At(Feed(BLANK, text).out, section, key) == Some(value)
  {
    KeyHasValueIff(text, section, key, value);
  }

  // ------------------------------------------------------------ one value

  /** The name of another kind of section. */
  predicate OtherSection(table: string) {
    table == "columns" || HasSuffix(table, ".visible") || HasSuffix(table, ".order")
  }

  /** A width from 40 to 1200. */
  predicate IsWidth(env: Env, value: string, w: real) {
    env.read(value) == Some(w) && 40.0 <= w <= 1200.0
  }

  /** A column and, after the last comma, whether to sort upwards. */
  ghost predicate IsSort(value: string, sort: SortBy) {
    exists left: string, right: string :: SortCut(value, left, right) && IsCore(left, sort.column) && sort.column != ""
                                          && D.Says(Trim(right), D.FlagWords(sort.ascending))
  }

  predicate SortCut(value: string, left: string, right: string) {
    value == left + "," + right && ',' !in right
  }

  lemma SortCutIff(value: string, left: string, right: string)
    ensures var i := FindLast(value, ',');
            SortCut(value, left, right) <==> i >= 0 && left == value[..i] && right == value[i + 1..]
  {
    hide FindLast, SortCut;
    if SortCut(value, left, right) {
      LastComma(value, left, right);
    }
    if FindLast(value, ',') >= 0 {
      CommaCuts(value, FindLast(value, ','));
    }
  }

  lemma CommaCuts(value: string, i: nat)
    requires i < |value| && value[i] == ',' && forall k :: i < k < |value| ==> value[k] != ','
    ensures SortCut(value, value[..i], value[i + 1..])
  {
    assert value == value[..i] + "," + value[i + 1..];
  }

  lemma LastComma(value: string, left: string, right: string)
    requires SortCut(value, left, right)
    ensures FindLast(value, ',') == |left| && left == value[..|left|] && right == value[|left| + 1..]
  {
    hide FindLast;
    assert value[|left|] == ',';
    forall k | |left| < k < |value|
      ensures value[k] != ','
    {
      assert value[k] == right[k - |left| - 1] && right[k - |left| - 1] in right;
    }
  }

  lemma SortIff(value: string, sort: SortBy)
    ensures IsSort(value, sort) <==> ReadSort(value) == Some(sort)
  {
    hide FindLast, Trim, IsCore, D.Says, D.FlagWords, ParseBool, SortCut;
    var i := FindLast(value, ',');
    if i >= 0 {
      SortCutIff(value, value[..i], value[i + 1..]);
      TrimIsCore(value[..i], sort.column);
      D.FlagMeans(Trim(value[i + 1..]), sort.ascending);
    }
    if left: string, right: string :| SortCut(value, left, right) && IsCore(left, sort.column) && sort.column != ""
                                      && D.Says(Trim(right), D.FlagWords(sort.ascending)) {
      SortCutIff(value, left, right);
    }
  }

  /** The parts without the white space around them, and without the empty ones. */
  lemma IdsOf(a: seq<string>, part: string, id: string)
    requires IsCore(part, id)
    ensures Ids([]) == [] && Ids(a + [part]) == if id == "" then Ids(a) else Ids(a) + [id]
  {
    TrimIsCore(part, id);
    assert (a + [part])[..|a|] == a;
  }

  // ------------------------------------------------------- the old section

  const OLD_COLUMNS: seq<(string, seq<string>)> := [
    ("processes", ["name", "status", "cpu", "mem", "disk", "net"]),
    ("details", ["name", "pid", "status", "user", "cpu", "mem", "platform", "elevated", "uac", "gpu"]),
    ("users", ["user", "status", "cpu", "mem", "disk", "net"]),
    ("startup", ["name", "pub", "status", "impact"]),
    ("services", ["name", "pid", "desc", "status", "group"]),
    ("apphistory", ["name", "cpu", "net", "notif"])]

  /** Column `i` of the table was this one, before columns had ids. */
  predicate WasColumn(table: string, i: nat, id: string) {
    exists t :: 0 <= t < |OLD_COLUMNS| && OLD_COLUMNS[t].0 == table && i < |OLD_COLUMNS[t].1| && OLD_COLUMNS[t].1[i] == id
  }

  lemma OldTable(t: nat)
    requires t < |OLD_COLUMNS|
    ensures ColumnOrder(OLD_COLUMNS[t].0) == OLD_COLUMNS[t].1
  {
  }

  lemma OldTables(table: string)
    ensures ColumnOrder(table) != [] ==> exists t :: 0 <= t < |OLD_COLUMNS| && OLD_COLUMNS[t].0 == table
  {
    if ColumnOrder(table) != [] {
      if table == "processes" { assert OLD_COLUMNS[0].0 == table; }
      else if table == "details" { assert OLD_COLUMNS[1].0 == table; }
      else if table == "users" { assert OLD_COLUMNS[2].0 == table; }
      else if table == "startup" { assert OLD_COLUMNS[3].0 == table; }
      else if table == "services" { assert OLD_COLUMNS[4].0 == table; }
      else { assert OLD_COLUMNS[5].0 == table; }
    }
  }

  lemma WasColumnIff(table: string, i: nat, id: string)
    ensures WasColumn(table, i, id) <==> i < |ColumnOrder(table)| && ColumnOrder(table)[i] == id
  {
    hide ColumnOrder;
    if WasColumn(table, i, id) {
      var t :| 0 <= t < |OLD_COLUMNS| && OLD_COLUMNS[t].0 == table && i < |OLD_COLUMNS[t].1| && OLD_COLUMNS[t].1[i] == id;
      OldTable(t);
    }
    if i < |ColumnOrder(table)| && ColumnOrder(table)[i] == id {
      OldTables(table);
      var t :| 0 <= t < |OLD_COLUMNS| && OLD_COLUMNS[t].0 == table;
      OldTable(t);
    }
  }

  predicate Positive(env: Env, part: string) {
    env.read(Trim(part)).Some? && env.read(Trim(part)).value > 0.0
  }

  /** The list of positive widths gives this column, by its old position, a width from 40 to 1200. */
  ghost predicate PositionGives(env: Env, value: string, table: string, id: string, w: real) {
    var parts := Split(value, ',');
    && (forall j :: 0 <= j < |parts| ==> Positive(env, parts[j]))
    && exists i: nat :: i < |parts| && WasColumn(table, i, id) && IsWidth(env, Trim(parts[i]), w)
  }

  lemma {:induction false} WidthsAre(env: Env, parts: seq<string>)
    ensures Widths(env, parts).Some? <==> forall j :: 0 <= j < |parts| ==> Positive(env, parts[j])
    ensures Widths(env, parts).Some? ==>
              var ws := Widths(env, parts).value;
              |ws| == |parts| && forall j :: 0 <= j < |parts| ==> env.read(Trim(parts[j])) == Some(ws[j])
    decreases |parts|
  {
    hide Trim;
    if parts != [] {
      var rest := parts[1..];
      WidthsAre(env, rest);
      assert forall j :: 0 <= j < |rest| ==> rest[j] == parts[j + 1];
      assert forall j :: 1 <= j < |parts| ==> parts[j] == rest[j - 1];
    }
  }

  lemma OldColumnsOnce(table: string)
    ensures NoDup(ColumnOrder(table))
  {
  }

  lemma PositionIff(env: Env, value: string, table: string, id: string, w: real)
    ensures PositionGives(env, value, table, id, w) <==> Get(Old(env, table, value), id) == Some(w)
  {
    hide Trim, Split, ColumnOrder, Widths, Pairs, Positive, WasColumn;
    var parts, order := Split(value, ','), ColumnOrder(table);
    WidthsAre(env, parts);
    OldColumnsOnce(table);
    if Widths(env, parts).Some? {
      var ws := Widths(env, parts).value;
      var n := Shorter(|order|, |ws|);
      if i: nat :| i < |parts| && WasColumn(table, i, id) && IsWidth(env, Trim(parts[i]), w) {
        WasColumnIff(table, i, id);
        PairsAt(order, ws, n, i);
      }
      if id in Pairs(order, ws, n) {
        PairsOnly(order, ws, n, id);
        var i: nat :| i < n && order[i] == id;
        WasColumnIff(table, i, id);
        PairsAt(order, ws, n, i);
        assert env.read(Trim(parts[i])) == Some(ws[i]);
      }
    }
  }

  // ---------------------------------------------------------- from any text

  /** The table's own section gives the column this width. */
  ghost predicate OwnWidth(env: Env, text: string, table: string, id: string, w: real) {
    !OtherSection(table) && exists v :: Gives(text, "columns." + table, id, v) && IsWidth(env, v, w)
  }

  /** The old section does. */
  ghost predicate OldWidthGiven(env: Env, text: string, table: string, id: string, w: real) {
    exists v :: Gives(text, "columns", table, v) && PositionGives(env, v, table, id, w)
  }

  ghost predicate Shown(text: string, table: string, id: string, on: bool) {
    exists v :: Gives(text, "columns." + table + ".visible", id, v) && D.Says(v, D.FlagWords(on))
  }

  ghost predicate Ordered(text: string, table: string, ids: seq<string>) {
    ids != [] && exists v :: Gives(text, "columns." + table + ".order", "order", v) && Ids(Split(v, ',')) == ids
  }

  ghost predicate Sorted(text: string, table: string, sort: SortBy) {
    exists v :: Gives(text, "sort", table, v) && IsSort(v, sort)
  }

  /** All keys of the map are walked. */
  lemma ValueIsAt(env: Env, m: Keys, section: string, key: string)
    requires WalksFaithful(env)
    ensures Value(m, env.pairs(m.Keys), section, key) == At(m, section, key)
  {
    KeysListed(env, m);
  }

  lemma Names(table: string)
    ensures TableName(Width, table) == "columns." + table
    ensures TableName(Visible, table) == "columns." + table + ".visible"
    ensures TableName(Order, table) == "columns." + table + ".order"
    ensures OtherSection(table) <==> table == "columns" || !OwnWidths(table)
  {
  }

  lemma OwnWidthIff(env: Env, text: string, table: string, id: string, w: real)
    ensures OwnWidth(env, text, table, id, w) <==>
            WidthCell(env, table, At(Feed(BLANK, text).out, TableName(Width, table), id)) == Some(w)
  {
    hide Gives, Feed, TableName, OtherSection, OwnWidths, At;
    Names(table);
    forall v: string
      ensures Gives(text, "columns." + table, id, v) <==> At(Feed(BLANK, text).out, "columns." + table, id) == Some(v)
    {
      GivesIff(text, "columns." + table, id, v);
    }
  }

  lemma OldWidthIff(env: Env, text: string, table: string, id: string, w: real)
    requires WalksFaithful(env)
    ensures var m := Feed(BLANK, text).out;
            OldWidthGiven(env, text, table, id, w) <==> OldWidth(env, m, env.pairs(m.Keys), table, id) == Some(w)
  {
    hide Gives, Feed, PositionGives, Old, WalksFaithful;
    var m := Feed(BLANK, text).out;
    KeysListed(env, m);
    forall v: string
      ensures Gives(text, "columns", table, v) <==> At(m, "columns", table) == Some(v)
      ensures PositionGives(env, v, table, id, w) <==> Get(Old(env, table, v), id) == Some(w)
    {
      GivesIff(text, "columns", table, v);
      PositionIff(env, v, table, id, w);
    }
  }

  lemma ShownIff(text: string, table: string, id: string, on: bool)
    ensures Shown(text, table, id, on) <==>
            VisibleCell(At(Feed(BLANK, text).out, TableName(Visible, table), id)) == Some(on)
  {
    hide Gives, Feed, TableName, At, D.Says, D.FlagWords, ParseBool, OtherSection, OwnWidths;
    Names(table);
    forall v: string
      ensures Gives(text, "columns." + table + ".visible", id, v) <==>
              At(Feed(BLANK, text).out, "columns." + table + ".visible", id) == Some(v)
      ensures D.Says(v, D.FlagWords(on)) <==> ParseBool(v) == Some(on)
    {
      GivesIff(text, "columns." + table + ".visible", id, v);
      D.FlagMeans(v, on);
    }
  }

  lemma OrderedIff(text: string, table: string, ids: seq<string>)
    ensures Ordered(text, table, ids) <==> OrderCell(At(Feed(BLANK, text).out, TableName(Order, table), "order")) == Some(ids)
  {
    hide Gives, Feed, TableName, At, Ids, Split, OtherSection, OwnWidths;
    Names(table);
    forall v: string
      ensures Gives(text, "columns." + table + ".order", "order", v) <==>
              At(Feed(BLANK, text).out, "columns." + table + ".order", "order") == Some(v)
    {
      GivesIff(text, "columns." + table + ".order", "order", v);
    }
  }

  lemma SortedIff(text: string, table: string, sort: SortBy)
    ensures Sorted(text, table, sort) <==> SortCell(At(Feed(BLANK, text).out, "sort", table)) == Some(sort)
  {
    hide Gives, Feed, At, IsSort, ReadSort;
    forall v: string
      ensures Gives(text, "sort", table, v) <==> At(Feed(BLANK, text).out, "sort", table) == Some(v)
      ensures IsSort(v, sort) <==> ReadSort(v) == Some(sort)
    {
      GivesIff(text, "sort", table, v);
      SortIff(v, sort);
    }
  }

  /**
   For every text, table and column: a width is loaded exactly if the table's own section gives it,
   or that gives none and the old section does by position; visibility, order and sort order exactly
   if their sections give them. Whatever else the text says changes nothing.
   */
  lemma LoadedTablesIff(env: Env, text: string, table: string, id: string, w: real, on: bool, ids: seq<string>, sort: SortBy)
    requires WalksFaithful(env)
    ensures var p := FromText(env, text).prefs;
            && (Get2(p.widths, table, id) == Some(w) <==>
                OwnWidth(env, text, table, id, w)
                || ((forall u :: !OwnWidth(env, text, table, id, u)) && OldWidthGiven(env, text, table, id, w)))
            && (Get2(p.visible, table, id) == Some(on) <==> Shown(text, table, id, on))
            && (Get(p.order, table) == Some(ids) <==> Ordered(text, table, ids))
            && (Get(p.sort, table) == Some(sort) <==> Sorted(text, table, sort))
  {
    hide OwnWidth, OldWidthGiven, Shown, Ordered, Sorted, Feed, WidthCell, VisibleCell, OrderCell, SortCell, OldWidth, Value, At,
         WalksFaithful, TableName, AbsorbAll, MigrateAll, Get2, Get;
    var m := Feed(BLANK, text).out;
    var keys := env.pairs(m.Keys);
    KeysListed(env, m);
    CellsRead(env, m, keys, table, id);
    ExplicitWidthWins(env, m, AbsorbAll(env, m, keys), keys, table, id);
    ValueIsAt(env, m, TableName(Width, table), id);
    ValueIsAt(env, m, TableName(Visible, table), id);
    ValueIsAt(env, m, TableName(Order, table), "order");
    ValueIsAt(env, m, "sort", table);
    forall u: real
      ensures OwnWidth(env, text, table, id, u) <==> WidthCell(env, table, At(m, TableName(Width, table), id)) == Some(u)
    {
      OwnWidthIff(env, text, table, id, u);
    }
    OldWidthIff(env, text, table, id, w);
    ShownIff(text, table, id, on);
    OrderedIff(text, table, ids);
    SortedIff(text, table, sort);
    var own := WidthCell(env, table, At(m, TableName(Width, table), id));
    if own.Some? {
      assert OwnWidth(env, text, table, id, own.value);
    }
  }
}
