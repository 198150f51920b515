/** The one-time migration of positional column widths. */
module Legacy {
  import opened Common
  import opened Text
  import opened Ini
  import opened Values
  import opened Preferences

  /** The columns of each table before columns had ids. */
  function ColumnOrder(table: string): seq<string> {
    if table == "processes" then ["name", "status", "cpu", "mem", "disk", "net"]
    else if table == "details" then ["name", "pid", "status", "user", "cpu", "mem", "platform", "elevated", "uac", "gpu"]
    else if table == "users" then ["user", "status", "cpu", "mem", "disk", "net"]
    else if table == "startup" then ["name", "pub", "status", "impact"]
    else if table == "services" then ["name", "pid", "desc", "status", "group"]
    else if table == "apphistory" then ["name", "cpu", "net", "notif"]
    else []
  }

  /** Positive widths; one bad part spoils the line. */
  function Widths(env: Env, parts: seq<string>): Option<seq<real>> {
    if parts == [] then Some([])
    else
      var w := env.read(Trim(parts[0]));
      if w.None? || w.value <= 0.0 then None else After([w.value], Widths(env, parts[1..]))
  }

  function After(first: seq<real>, rest: Option<seq<real>>): Option<seq<real>> {
    if rest.None? then None else Some(first + rest.value)
  }

  lemma NothingFirst(rest: Option<seq<real>>)
    ensures After([], rest) == rest
  {
    assert rest.Some? ==> [] + rest.value == rest.value;
  }

  lemma AfterOne(first: seq<real>, w: real, rest: Option<seq<real>>)
    ensures After(first, After([w], rest)) == After(first + [w], rest)
  {
    assert rest.Some? ==> first + ([w] + rest.value) == first + [w] + rest.value;
  }

  /** `parse_widths`. */
  method ParseWidths(env: Env, s: string) returns (r: Option<seq<real>>)
    ensures r == Widths(env, Split(s, ','))
  {
    hide Split, Trim;
    var parts := Split(s, ',');
    var widths: seq<real> := [];
    assert parts[0..] == parts;
    NothingFirst(Widths(env, parts));
    for i := 0 to |parts|
      invariant Widths(env, parts) == After(widths, Widths(env, parts[i..]))
    {
      assert parts[i..][1..] == parts[i + 1..];
      var w := env.read(Trim(parts[i]));
      if w.None? || w.value <= 0.0 {
        return None;
      }
      AfterOne(widths, w.value, Widths(env, parts[i + 1..]));
      widths := widths + [w.value];
    }
    assert parts[|parts|..] == [] && widths + [] == widths;
    r := Some(widths);
  }

  /** The first `n` columns that have a width worth keeping. */
  function Pairs(order: seq<string>, widths: seq<real>, n: nat): map<string, real>
    requires n <= |order| && n <= |widths|
  {
    if n == 0 then map[]
    else
      var m, w := Pairs(order, widths, n - 1), widths[n - 1];
      if LEAST_WIDTH <= w <= MOST_WIDTH then m[order[n - 1] := w] else m
  }

  function Shorter(a: nat, b: nat): nat {
    if a < b then a else b
  }

  function Positional(table: string, widths: seq<real>): map<string, real> {
    var order := ColumnOrder(table);
    Pairs(order, widths, Shorter(|order|, |widths|))
  }

  /** `migrate_positional_widths`. */
  method MigratePositionalWidths(table: string, widths: seq<real>) returns (out: map<string, real>)
    ensures out == Positional(table, widths)
  {
    out := map[];
    var order := ColumnOrder(table);
    for i := 0 to Shorter(|order|, |widths|)
      invariant out == Pairs(order, widths, i)
    {
      if LEAST_WIDTH <= widths[i] <= MOST_WIDTH {
        out := out[order[i] := widths[i]];
      }
    }
  }

  /** Position `i` of the old list lands on the `i`th known column, if that column occurs once. */
  lemma {:induction false} PairsAt(order: seq<string>, widths: seq<real>, n: nat, i: nat)
    requires i < n <= |order| && n <= |widths| && NoDup(order)
    ensures Get(Pairs(order, widths, n), order[i]) ==
            if LEAST_WIDTH <= widths[i] <= MOST_WIDTH then Some(widths[i]) else None
    decreases n
  {
    if i < n - 1 {
      PairsAt(order, widths, n - 1, i);
    } else if order[i] in Pairs(order, widths, n - 1) {
      PairsOnly(order, widths, n - 1, order[i]);
    }
  }

  lemma {:induction false} PairsOnly(order: seq<string>, widths: seq<real>, n: nat, id: string)
    requires n <= |order| && n <= |widths| && id in Pairs(order, widths, n)
    ensures exists i :: 0 <= i < n && order[i] == id
    decreases n
  {
    if order[n - 1] != id {
      PairsOnly(order, widths, n - 1, id);
    }
  }

  /** Fill in what the id-keyed sections did not set. */
  function Fill(p: Prefs, table: string, migrated: map<string, real>): Prefs {
    if migrated == map[] then p
    else
      var now := if table in p.widths then p.widths[table] else map[];
      p.(widths := p.widths[table := migrated + now])
  }

  /** The widths one key of the old section stands for. */
  function Old(env: Env, table: string, value: string): map<string, real> {
    var w := Widths(env, Split(value, ','));
    if w.None? then map[] else Positional(table, w.value)
  }

  function MigrateAll(env: Env, m: Keys, p: Prefs, keys: seq<(string, string)>): Prefs
    requires Listed(keys, m)
  {
    if keys == [] then p
    else
      var k, q := keys[|keys| - 1], MigrateAll(env, m, p, keys[..|keys| - 1]);
      if k.0 == "columns" then Fill(q, k.1, Old(env, k.1, m[k])) else q
  }

  /** The loop over the old section. */
  method MigrateWidths(env: Env, m: Keys, p: Prefs, keys: seq<(string, string)>) returns (q: Prefs)
    requires Listed(keys, m)
    ensures q == MigrateAll(env, m, p, keys)
  {
    hide Widths, Positional, Split;
    q := p;
    for i := 0 to |keys|
      invariant q == MigrateAll(env, m, p, keys[..i])
    {
      assert keys[..i + 1][..i] == keys[..i];
      var (section, table) := keys[i];
      if section == "columns" {
        var widths := ParseWidths(env, m[keys[i]]);
        if widths.Some? {
          var migrated := MigratePositionalWidths(table, widths.value);
          if migrated != map[] {
            var now := if table in q.widths then q.widths[table] else map[];
            q := q.(widths := q.widths[table := migrated + now]);
          }
        }
      }
    }
    assert keys[..|keys|] == keys;
  }

  /** What the old section offers for one column. */
  function OldWidth(env: Env, m: Keys, keys: seq<(string, string)>, table: string, id: string): Option<real> {
    if ("columns", table) in keys && ("columns", table) in m then Get(Old(env, table, m[("columns", table)]), id) else None
  }

  lemma FillAt(p: Prefs, table: string, migrated: map<string, real>, t: string, id: string)
    ensures Get2(Fill(p, table, migrated).widths, t, id) ==
            Else(Get2(p.widths, t, id), if t == table then Get(migrated, id) else None)
  {
  }

  /** An id-keyed width always wins over a positional one; a missing one is filled in; nothing else changes. */
  lemma {:induction false} ExplicitWidthWins(env: Env, m: Keys, p: Prefs, keys: seq<(string, string)>, t: string, id: string)
    requires Listed(keys, m)
    ensures
      var q := MigrateAll(env, m, p, keys);
      && Get2(q.widths, t, id) == Else(Get2(p.widths, t, id), OldWidth(env, m, keys, t, id))
      && q.visible == p.visible && q.order == p.order && q.sort == p.sort && q.rules == p.rules
    decreases |keys|
  {
    hide Old, Get2;
    if keys != [] {
      var init, k := keys[..|keys| - 1], keys[|keys| - 1];
      ExplicitWidthWins(env, m, p, init, t, id);
      assert keys == init + [k];
      if k.0 == "columns" {
        FillAt(MigrateAll(env, m, p, init), k.1, Old(env, k.1, m[k]), t, id);
      }
    }
  }

  /** A file without the old section is not migrated. */
  lemma {:induction false} NothingToMigrate(env: Env, m: Keys, p: Prefs, keys: seq<(string, string)>)
    requires Listed(keys, m) && forall i :: 0 <= i < |keys| ==> keys[i].0 != "columns"
    ensures MigrateAll(env, m, p, keys) == p
    decreases |keys|
  {
    if keys != [] {
      NothingToMigrate(env, m, p, keys[..|keys| - 1]);
    }
  }
}
