/** The multi-row selection of the process tables, over every sequence of gestures. */
module Selection {
  import opened Common

  /** Pid and creation time; a pid alone is reused by the system. */
  datatype Id = Id(pid: nat, start: Option<int>)

  datatype ClickKind = Replace | Toggle | Range

  datatype Sel = Sel(items: seq<Id>, primary: Option<Id>, anchor: Option<Id>)

  const NOTHING := Sel([], None, None)

  /** First position of `id`, or the length when it does not occur. */
  function IndexOf(order: seq<Id>, id: Id): (i: nat)
    ensures i <= |order|
    ensures i < |order| ==> order[i] == id
    ensures i < |order| <==> id in order
  {
    if order == [] || order[0] == id then 0 else 1 + IndexOf(order[1..], id)
  }

  /** In a duplicate-free list an element's index is its only position. */
  lemma IndexIs(order: seq<Id>, i: nat)
    requires NoDup(order) && i < |order|
    ensures IndexOf(order, order[i]) == i
  {
    assert order[i] in order;
  }

  function LastOf(items: seq<Id>): Option<Id> {
    if items == [] then None else Some(items[|items| - 1])
  }

  function FirstOf(items: seq<Id>): Option<Id> {
    if items == [] then None else Some(items[0])
  }

  function Elems(items: seq<Id>): set<Id> {
    set x | x in items
  }

  function Filter(items: seq<Id>, keep: set<Id>): seq<Id> {
    if items == [] then []
    else Filter(items[..|items| - 1], keep) + if items[|items| - 1] in keep then [items[|items| - 1]] else []
  }

  function LiveOf(items: seq<Id>, live: Id -> bool): set<Id> {
    set x | x in items && live(x)
  }

  /** Insert after everything that ranks no later. */
  function InsertByRank(items: seq<Id>, id: Id, order: seq<Id>): seq<Id> {
    if items == [] then [id]
    else if IndexOf(order, items[|items| - 1]) <= IndexOf(order, id) then items + [id]
    else InsertByRank(items[..|items| - 1], id, order) + [items[|items| - 1]]
  }

  /** The stable sort by display position; rows that are not displayed come last. */
  function SortTo(items: seq<Id>, order: seq<Id>): seq<Id> {
    if items == [] then [] else InsertByRank(SortTo(items[..|items| - 1], order), items[|items| - 1], order)
  }

  function SelectSingle(id: Id): Sel {
    Sel([id], Some(id), Some(id))
  }

  function SelectExact(ids: seq<Id>): Sel {
    Sel(ids, FirstOf(ids), FirstOf(ids))
  }

  function ToggleRow(s: Sel, id: Id, order: seq<Id>): Sel {
    var at := IndexOf(s.items, id);
    if at < |s.items| then
      var items := s.items[..at] + s.items[at + 1..];
      Sel(items, if s.primary == Some(id) then LastOf(items) else s.primary, Some(id))
    else Sel(SortTo(s.items + [id], order), Some(id), Some(id))
  }

  function Slice(order: seq<Id>, from: nat, to: nat): seq<Id>
    requires from < |order| && to < |order|
  {
    if from <= to then order[from..to + 1] else order[to..from + 1]
  }

  function SelectRange(s: Sel, id: Id, order: seq<Id>): Sel {
    if s.anchor.None? then SelectSingle(id)
    else
      var from, to := IndexOf(order, s.anchor.value), IndexOf(order, id);
      if from == |order| || to == |order| then SelectSingle(id)
      else s.(items := Slice(order, from, to), primary := Some(id))
  }

  function SelectAll(order: seq<Id>): Sel {
    Sel(order, LastOf(order), FirstOf(order))
  }

  function Click(s: Sel, kind: ClickKind, id: Id, order: seq<Id>): Sel {
    match kind
    case Replace => SelectSingle(id)
    case Toggle => ToggleRow(s, id, order)
    case Range => SelectRange(s, id, order)
  }

  function RetainLive(s: Sel, live: Id -> bool): Sel {
    var items := Filter(s.items, LiveOf(s.items, live));
    var primary := if s.primary.Some? && !live(s.primary.value) then LastOf(items) else s.primary;
    Sel(items, primary, if s.anchor.Some? && !live(s.anchor.value) then primary else s.anchor)
  }

  // ------------------------------------------------------------ the object

  class Selection {
    var items: seq<Id>
    var primary: Option<Id>
    var anchor: Option<Id>

    function View(): Sel
      reads this
    {
      Sel(items, primary, anchor)
    }

    constructor ()
      ensures View() == NOTHING
    {
      items, primary, anchor := [], None, None;
    }

    method ClearAll()
      modifies this
      ensures View() == NOTHING
    {
      items := [];
      primary := None;
      anchor := None;
    }

    method Single(id: Id)
      modifies this
      ensures View() == SelectSingle(id)
    {
      items := [id];
      primary := Some(id);
      anchor := Some(id);
    }

    method Exact(ids: seq<Id>)
      modifies this
      ensures View() == SelectExact(ids)
    {
      items := ids;
      primary := FirstOf(ids);
      anchor := FirstOf(ids);
    }

    method ToggleOne(id: Id, order: seq<Id>)
      modifies this
      ensures View() == ToggleRow(old(View()), id, order)
    {
      hide SortTo, IndexOf, LastOf;
      var at := IndexOf(items, id);
      if at < |items| {
        items := items[..at] + items[at + 1..];
        if primary == Some(id) {
          primary := LastOf(items);
        }
      } else {
        items := items + [id];
        items := SortTo(items, order);
        primary := Some(id);
      }
      anchor := Some(id);
    }

    method ExtendTo(id: Id, order: seq<Id>)
      modifies this
      ensures View() == SelectRange(old(View()), id, order)
    {
      if anchor.None? {
        Single(id);
        return;
      }
      var from, to := IndexOf(order, anchor.value), IndexOf(order, id);
      if from == |order| || to == |order| {
        Single(id);
        return;
      }
      var low, high := if from <= to then from else to, if from <= to then to else from;
      items := order[low..high + 1];
      primary := Some(id);
    }

    method All(order: seq<Id>)
      modifies this
      ensures View() == SelectAll(order)
    {
      items := order;
      primary := LastOf(order);
      anchor := FirstOf(order);
    }

    method OnClick(kind: ClickKind, id: Id, order: seq<Id>)
      modifies this
      ensures View() == Click(old(View()), kind, id, order)
    {
      match kind
      case Replace => Single(id);
      case Toggle => ToggleOne(id, order);
      case Range => ExtendTo(id, order);
    }

    method Retain(live: Id -> bool)
      modifies this
      ensures View() == RetainLive(old(View()), live)
    {
      var kept: seq<Id> := [];
      for i := 0 to |items|
        invariant kept == Filter(items[..i], LiveOf(items, live))
        invariant items == old(items) && primary == old(primary) && anchor == old(anchor)
      {
        assert items[..i + 1][..i] == items[..i];
        if live(items[i]) {
          kept := kept + [items[i]];
        }
      }
      assert items[..|items|] == items;
      items := kept;
      if primary.Some? && !live(primary.value) {
        primary := LastOf(items);
      }
      if anchor.Some? && !live(anchor.value) {
        anchor := primary;
      }
    }
  }

  // ----------------------------------------------------------- filtering

  lemma {:induction false} FilterKeeps(items: seq<Id>, keep: set<Id>)
    ensures forall x :: x in Filter(items, keep) <==> x in items && x in keep
    ensures NoDup(items) ==> NoDup(Filter(items, keep))
    decreases |items|
  {
    if items != [] {
      FilterKeeps(items[..|items| - 1], keep);
      assert items == items[..|items| - 1] + [items[|items| - 1]];
    }
  }

  lemma {:induction false} FilterAppend(a: seq<Id>, b: seq<Id>, keep: set<Id>)
    ensures Filter(a + b, keep) == Filter(a, keep) + Filter(b, keep)
    decreases |b|
  {
    if b == [] {
      assert a + b == a;
    } else {
      assert (a + b)[..|a + b| - 1] == a + b[..|b| - 1];
      FilterAppend(a, b[..|b| - 1], keep);
    }
  }

  lemma FilterOne(id: Id, keep: set<Id>)
    ensures Filter([id], keep) == if id in keep then [id] else []
  {
    assert [id][..0] == [];
  }

  /** Filtering a list around one of its elements. */
  lemma FilterAround(a: seq<Id>, id: Id, b: seq<Id>, keep: set<Id>)
    ensures Filter(a + [id] + b, keep) == Filter(a, keep) + (if id in keep then [id] else []) + Filter(b, keep)
  {
    FilterAppend(a + [id], b, keep);
    FilterAppend(a, [id], keep);
    FilterOne(id, keep);
  }

  lemma {:induction false} FilterSame(items: seq<Id>, f: set<Id>, g: set<Id>)
    requires forall x :: x in items ==> (x in f <==> x in g)
    ensures Filter(items, f) == Filter(items, g)
    decreases |items|
  {
    if items != [] {
      assert items[|items| - 1] in items;
      FilterSame(items[..|items| - 1], f, g);
    }
  }

  // ------------------------------------------------------------- sorting

  /** Everything of `b` ranks after `id`, everything of `a` no later: `id` goes between. */
  lemma {:induction false} InsertBetween(a: seq<Id>, b: seq<Id>, id: Id, order: seq<Id>)
    requires forall x :: x in a ==> IndexOf(order, x) <= IndexOf(order, id)
    requires forall x :: x in b ==> IndexOf(order, x) > IndexOf(order, id)
    ensures InsertByRank(a + b, id, order) == a + [id] + b
    decreases |b|
  {
    if b == [] {
      assert a + b == a;
      if a != [] { assert a[|a| - 1] in a; }
    } else {
      var init := b[..|b| - 1];
      assert (a + b)[..|a + b| - 1] == a + init;
      InsertBetween(a, init, id, order);
      assert b[|b| - 1] in b;
      assert a + [id] + init + [b[|b| - 1]] == a + [id] + b;
    }
  }

  /** The visible items in display order, then the others in their own order. */
  function Arranged(items: seq<Id>, order: seq<Id>): seq<Id> {
    Filter(order, Elems(items)) + Filter(items, Elems(items) - Elems(order))
  }

  /** A duplicate-free list around one of its elements. */
  lemma SplitAt(order: seq<Id>, id: Id) returns (a: seq<Id>, b: seq<Id>)
    requires NoDup(order) && id in order
    ensures order == a + [id] + b && |a| == IndexOf(order, id)
    ensures id !in a && id !in b
    ensures forall x :: x in a ==> IndexOf(order, x) < IndexOf(order, id)
    ensures forall x :: x in b ==> IndexOf(order, x) > IndexOf(order, id)
  {
    var at := IndexOf(order, id);
    a, b := order[..at], order[at + 1..];
    forall x | x in a
      ensures x != id && IndexOf(order, x) < at
    {
      var i :| 0 <= i < |a| && a[i] == x;
      IndexIs(order, i);
    }
    forall x | x in b
      ensures x != id && IndexOf(order, x) > at
    {
      var i :| 0 <= i < |b| && b[i] == x;
      IndexIs(order, at + 1 + i);
    }
  }

  /** The hidden part ranks behind every displayed row. */
  lemma HiddenPart(items: seq<Id>, id: Id, order: seq<Id>)
    requires id !in items
    ensures var hidden := Filter(items, Elems(items) - Elems(order));
            && (forall x :: x in hidden ==> IndexOf(order, x) == |order|)
            && Filter(items + [id], Elems(items + [id]) - Elems(order)) == hidden + (if id in order then [] else [id])
  {
    FilterKeeps(items, Elems(items) - Elems(order));
    FilterAppend(items, [id], Elems(items + [id]) - Elems(order));
    FilterOne(id, Elems(items + [id]) - Elems(order));
    FilterSame(items, Elems(items) - Elems(order), Elems(items + [id]) - Elems(order));
  }

  /** The visible part, with the new row in its place. */
  lemma VisiblePart(items: seq<Id>, id: Id, order: seq<Id>) returns (a: seq<Id>, b: seq<Id>)
    requires NoDup(order) && id !in items && id in order
    ensures Filter(order, Elems(items)) == a + b
    ensures Filter(order, Elems(items + [id])) == a + [id] + b
    ensures forall x :: x in a ==> IndexOf(order, x) < IndexOf(order, id)
    ensures forall x :: x in b ==> IndexOf(order, x) > IndexOf(order, id)
  {
    var before, after := SplitAt(order, id);
    var was, now := Elems(items), Elems(items + [id]);
    FilterAround(before, id, after, was);
    FilterAround(before, id, after, now);
    FilterSame(before, was, now);
    FilterSame(after, was, now);
    a, b := Filter(before, was), Filter(after, was);
    FilterKeeps(before, was);
    FilterKeeps(after, was);
    assert a + [] + b == a + b;
  }

  /** Adding one displayed row to an arranged list. */
  lemma ArrangeVisible(items: seq<Id>, id: Id, order: seq<Id>)
    requires NoDup(order) && id !in items && id in order
    ensures InsertByRank(Arranged(items, order), id, order) == Arranged(items + [id], order)
  {
    HiddenPart(items, id, order);
    var a, b := VisiblePart(items, id, order);
    var hidden := Filter(items, Elems(items) - Elems(order));
    InsertBeforeHidden(a, b, hidden, id, order);
    assert hidden + [] == hidden;
  }

  lemma InsertBeforeHidden(a: seq<Id>, b: seq<Id>, hidden: seq<Id>, id: Id, order: seq<Id>)
    requires id in order
    requires forall x :: x in a ==> IndexOf(order, x) < IndexOf(order, id)
    requires forall x :: x in b ==> IndexOf(order, x) > IndexOf(order, id)
    requires forall x :: x in hidden ==> IndexOf(order, x) == |order|
    ensures InsertByRank(a + b + hidden, id, order) == a + [id] + b + hidden
  {
    hide InsertByRank, IndexOf;
    forall x | x in b + hidden
      ensures IndexOf(order, x) > IndexOf(order, id)
    {
      assert x in b || x in hidden;
    }
    InsertBetween(a, b + hidden, id, order);
    assert a + b + hidden == a + (b + hidden);
    assert a + [id] + b + hidden == a + [id] + (b + hidden);
  }

  /** Adding one more row to an arranged list. */
  lemma ArrangeOneMore(items: seq<Id>, id: Id, order: seq<Id>)
    requires NoDup(order) && id !in items
    ensures InsertByRank(Arranged(items, order), id, order) == Arranged(items + [id], order)
  {
    if id in order {
      ArrangeVisible(items, id, order);
    } else {
      HiddenPart(items, id, order);
      FilterSame(order, Elems(items), Elems(items + [id]));
      InsertBetween(Arranged(items, order), [], id, order);
      assert Arranged(items, order) + [] == Arranged(items, order);
      assert Arranged(items + [id], order) == Arranged(items, order) + [id] + [];
    }
  }

  lemma {:induction false} NoneKept(items: seq<Id>, keep: set<Id>)
    requires forall x :: x in items ==> x !in keep
    ensures Filter(items, keep) == []
    decreases |items|
  {
    if items != [] {
      assert items[|items| - 1] in items;
      NoneKept(items[..|items| - 1], keep);
    }
  }

  /** On duplicate-free lists the sort is exactly: visible items in display order, then the rest. */
  lemma {:induction false} SortArranges(items: seq<Id>, order: seq<Id>)
    requires NoDup(order) && NoDup(items)
    ensures SortTo(items, order) == Arranged(items, order)
    decreases |items|
  {
    if items == [] {
      NoneKept(order, Elems(items));
    } else {
      var init := items[..|items| - 1];
      SortArranges(init, order);
      assert items == init + [items[|items| - 1]];
      ArrangeOneMore(init, items[|items| - 1], order);
    }
  }

  lemma ArrangedNoDup(items: seq<Id>, order: seq<Id>)
    requires NoDup(order) && NoDup(items)
    ensures NoDup(Arranged(items, order))
    ensures forall x :: x in Arranged(items, order) <==> x in items
  {
    var a, b := Filter(order, Elems(items)), Filter(items, Elems(items) - Elems(order));
    FilterKeeps(order, Elems(items));
    FilterKeeps(items, Elems(items) - Elems(order));
    forall i, j | 0 <= i < j < |a + b|
      ensures (a + b)[i] != (a + b)[j]
    {
      if i < |a| <= j {
        assert a[i] in a && b[j - |a|] in b;
      }
    }
  }

  // ------------------------------------------------------------- gestures

  datatype Gesture =
    | Clicked(kind: ClickKind, id: Id, order: seq<Id>)
    | Jumped(ids: seq<Id>)
    | TookAll(all: seq<Id>)
    | Refreshed(live: Id -> bool)
    | Cleared

  /** Displayed orders and jump targets name no row twice. */
  predicate Proper(g: Gesture) {
    match g
    case Clicked(_, _, order) => NoDup(order)
    case Jumped(ids) => NoDup(ids)
    case TookAll(order) => NoDup(order)
    case Refreshed(_) => true
    case Cleared => true
  }

  function Perform(s: Sel, g: Gesture): Sel {
    match g
    case Clicked(kind, id, order) => Click(s, kind, id, order)
    case Jumped(ids) => SelectExact(ids)
    case TookAll(order) => SelectAll(order)
    case Refreshed(live) => RetainLive(s, live)
    case Cleared => NOTHING
  }

  function PerformAll(s: Sel, gs: seq<Gesture>): Sel {
    if gs == [] then s else Perform(PerformAll(s, gs[..|gs| - 1]), gs[|gs| - 1])
  }

  predicate Sound(s: Sel) {
    && NoDup(s.items)
    && (s.primary.Some? <==> s.items != [])
    && (s.primary.Some? ==> s.primary.value in s.items)
  }

  lemma ToggleSound(s: Sel, id: Id, order: seq<Id>)
    requires Sound(s) && NoDup(order)
    ensures Sound(ToggleRow(s, id, order))
  {
    hide SortTo, Filter, Arranged, IndexOf;
    if id in s.items {
      ToggleOffSound(s, id, order);
    } else {
      ToggleInsertOrder(s, id, order);
      ArrangedNoDup(s.items + [id], order);
      NewRow(s.items, id);
      hide ToggleRow;
    }
  }

  lemma NewRow(items: seq<Id>, id: Id)
    requires NoDup(items) && id !in items
    ensures NoDup(items + [id]) && id in items + [id]
  {
  }

  lemma ToggleOffSound(s: Sel, id: Id, order: seq<Id>)
    requires Sound(s) && id in s.items
    ensures Sound(ToggleRow(s, id, order))
  {
    hide SortTo, Filter, IndexOf;
    var rest := Elems(s.items) - {id};
    RemoveIsFilter(s.items, id);
    FilterKeeps(s.items, rest);
    var items := Filter(s.items, rest);
    assert ToggleRow(s, id, order).items == items;
    if s.primary == Some(id) {
      LastIsIn(items);
    } else {
      assert s.primary.value in items;
    }
  }

  lemma LastIsIn(items: seq<Id>)
    ensures LastOf(items).Some? <==> items != []
    ensures LastOf(items).Some? ==> LastOf(items).value in items
  {
  }

  lemma RangeSound(s: Sel, id: Id, order: seq<Id>)
    requires Sound(s) && NoDup(order)
    ensures Sound(SelectRange(s, id, order))
  {
    hide IndexOf;
    if s.anchor.Some? {
      var from, to := IndexOf(order, s.anchor.value), IndexOf(order, id);
      if from < |order| && to < |order| {
        SliceSound(order, from, to);
      }
    }
  }

  lemma SliceSound(order: seq<Id>, from: nat, to: nat)
    requires NoDup(order) && from < |order| && to < |order|
    ensures NoDup(Slice(order, from, to)) && order[to] in Slice(order, from, to)
  {
    assert Slice(order, from, to)[if from <= to then to - from else 0] == order[to];
  }

  lemma SoundStep(s: Sel, g: Gesture)
    requires Sound(s) && Proper(g)
    ensures Sound(Perform(s, g))
  {
    match g
    case Clicked(kind, id, order) =>
      ToggleSound(s, id, order);
      RangeSound(s, id, order);
    case Refreshed(live) => FilterKeeps(s.items, LiveOf(s.items, live));
    case _ =>
  }

  /** After any sequence of gestures the items are duplicate-free and the primary is one of them, if there are any. */
  lemma {:induction false} SelectionStaysSound(gs: seq<Gesture>)
    requires forall i :: 0 <= i < |gs| ==> Proper(gs[i])
    ensures Sound(PerformAll(NOTHING, gs))
    decreases |gs|
  {
    if gs != [] {
      SelectionStaysSound(gs[..|gs| - 1]);
      SoundStep(PerformAll(NOTHING, gs[..|gs| - 1]), gs[|gs| - 1]);
    }
  }

  /** Ctrl+click on an unselected row leaves the visible items in display order with the others after them. */
  lemma ToggleInsertOrder(s: Sel, id: Id, order: seq<Id>)
    requires NoDup(s.items) && NoDup(order) && id !in s.items
    ensures ToggleRow(s, id, order).items == Arranged(s.items + [id], order)
    ensures ToggleRow(s, id, order).primary == Some(id)
  {
    SortArranges(s.items + [id], order);
  }

  lemma DropMiddle(a: seq<Id>, id: Id, b: seq<Id>, rest: set<Id>)
    requires id !in rest && (forall x :: x in a ==> x in rest) && (forall x :: x in b ==> x in rest)
    ensures Filter(a + [id] + b, rest) == a + b
  {
    FilterAround(a, id, b, rest);
    AllKept(a, rest);
    AllKept(b, rest);
    assert a + [] == a;
  }

  /** Removing one row from a duplicate-free list. */
  lemma RemoveIsFilter(items: seq<Id>, id: Id)
    requires NoDup(items) && id in items
    ensures items[..IndexOf(items, id)] + items[IndexOf(items, id) + 1..] == Filter(items, Elems(items) - {id})
  {
    var a, b := SplitAt(items, id);
    forall x | x in a || x in b
      ensures x in Elems(items) - {id}
    {
      assert x in a + [id] + b;
    }
    DropMiddle(a, id, b, Elems(items) - {id});
    assert items[..|a|] == a && items[|a| + 1..] == b;
  }

  lemma {:induction false} AllKept(items: seq<Id>, keep: set<Id>)
    requires forall x :: x in items ==> x in keep
    ensures Filter(items, keep) == items
    decreases |items|
  {
    if items != [] {
      assert items[|items| - 1] in items;
      AllKept(items[..|items| - 1], keep);
    }
  }

  lemma {:induction false} FilterTwice(items: seq<Id>, f: set<Id>, g: set<Id>)
    ensures Filter(Filter(items, f), g) == Filter(items, f * g)
    decreases |items|
  {
    if items != [] {
      var init, last := items[..|items| - 1], items[|items| - 1];
      FilterTwice(init, f, g);
      FilterAppend(Filter(init, f), if last in f then [last] else [], g);
      FilterOne(last, g);
    }
  }

  /** Removing the row that was just added to an arranged list. */
  lemma RearrangeWithout(items: seq<Id>, id: Id, order: seq<Id>)
    requires NoDup(items) && NoDup(order) && id !in items
    ensures Filter(Arranged(items + [id], order), Elems(items)) == Arranged(items, order)
  {
    var now := Elems(items + [id]);
    var rest := Elems(items);
    FilterAppend(Filter(order, now), Filter(items + [id], now - Elems(order)), rest);
    FilterTwice(order, now, rest);
    FilterTwice(items + [id], now - Elems(order), rest);
    FilterSame(order, now * rest, rest);
    FilterAppend(items, [id], (now - Elems(order)) * rest);
    FilterOne(id, (now - Elems(order)) * rest);
    FilterSame(items, (now - Elems(order)) * rest, rest - Elems(order));
  }

  /** Ctrl+click on a selected row removes it and keeps the order of the rest. */
  lemma ToggleOff(s: Sel, id: Id, order: seq<Id>)
    requires NoDup(s.items) && id in s.items
    ensures ToggleRow(s, id, order).items == Filter(s.items, Elems(s.items) - {id})
  {
    RemoveIsFilter(s.items, id);
  }

  /** Ctrl+clicking the same row twice gives back a selection that was in display order. */
  lemma ToggleTwice(s: Sel, id: Id, order: seq<Id>)
    requires NoDup(s.items) && NoDup(order) && id !in s.items && s.items == Arranged(s.items, order)
    ensures ToggleRow(ToggleRow(s, id, order), id, order).items == s.items
  {
    hide ToggleRow, Arranged, Filter;
    var u := ToggleRow(s, id, order);
    ToggleInsertOrder(s, id, order);
    ArrangedNoDup(s.items + [id], order);
    assert id in s.items + [id];
    ToggleOff(u, id, order);
    forall x
      ensures x in Elems(u.items) - {id} <==> x in Elems(s.items)
    {
      assert x in u.items <==> x in s.items + [id];
    }
    assert Elems(u.items) - {id} == Elems(s.items);
    RearrangeWithout(s.items, id, order);
  }

  function Shifts(s: Sel, rows: seq<Id>, order: seq<Id>): Sel {
    if rows == [] then s else Click(Shifts(s, rows[..|rows| - 1], order), Range, rows[|rows| - 1], order)
  }

  /**
   After a plain click on `a`, any series of Shift clicks on displayed rows leaves
   exactly the slice between `a` and the last of them: walking a range open and closed
   again leaves no trace.
   */
  lemma {:induction false} ShiftWalk(s: Sel, a: Id, rows: seq<Id>, order: seq<Id>)
    requires a in order && rows != [] && forall i :: 0 <= i < |rows| ==> rows[i] in order
    ensures Shifts(Click(s, Replace, a, order), rows, order) ==
            Sel(Slice(order, IndexOf(order, a), IndexOf(order, rows[|rows| - 1])), Some(rows[|rows| - 1]), Some(a))
    decreases |rows|
  {
    if |rows| > 1 {
      ShiftWalk(s, a, rows[..|rows| - 1], order);
    }
  }

  /** A refresh drops exactly the dead rows and never leaves a dead primary or anchor behind. */
  lemma RefreshKeepsExactlyTheLive(s: Sel, live: Id -> bool)
    requires Sound(s)
    ensures forall x :: x in RetainLive(s, live).items <==> x in s.items && live(x)
    ensures RetainLive(s, live).primary.Some? ==> live(RetainLive(s, live).primary.value)
    ensures RetainLive(s, live).anchor.Some? ==> live(RetainLive(s, live).anchor.value)
    ensures s.primary.Some? && live(s.primary.value) ==> RetainLive(s, live).primary == s.primary
  {
    FilterKeeps(s.items, LiveOf(s.items, live));
    var items := Filter(s.items, LiveOf(s.items, live));
    assert items != [] ==> items[|items| - 1] in items;
  }

  /** The last row of `items` that is not excluded, if there is one. */
  ghost predicate IsLastLeft(items: seq<Id>, gone: Id -> bool, row: Option<Id>) {
    match row
    case None => forall i :: 0 <= i < |items| ==> gone(items[i])
    case Some(x) => exists i :: 0 <= i < |items| && items[i] == x && !gone(x) && forall j :: i < j < |items| ==> gone(items[j])
  }

  /** Looking at one row more, at the end. */
  lemma LastLeftStep(items: seq<Id>, gone: Id -> bool, row: Option<Id>)
    requires items != []
    ensures IsLastLeft(items, gone, row) <==>
              if gone(items[|items| - 1]) then IsLastLeft(items[..|items| - 1], gone, row) else row == Some(items[|items| - 1])
  {
    var init, last := items[..|items| - 1], |items| - 1;
    assert forall i :: 0 <= i < |init| ==> init[i] == items[i];
    if row.Some? {
      if gone(items[last]) && IsLastLeft(init, gone, row) {
        var i :| 0 <= i < |init| && init[i] == row.value && !gone(row.value) && forall j :: i < j < |init| ==> gone(init[j]);
        assert items[i] == row.value && forall j :: i < j < |items| ==> gone(items[j]);
      }
      if row == Some(items[last]) && !gone(items[last]) {
        assert items[last] == row.value;
      }
    }
  }

  lemma FilterStep(items: seq<Id>, keep: set<Id>)
    requires items != []
    ensures LastOf(Filter(items, keep)) ==
            if items[|items| - 1] in keep then Some(items[|items| - 1]) else LastOf(Filter(items[..|items| - 1], keep))
  {
  }

  lemma {:induction false} LastOfFilter(items: seq<Id>, keep: set<Id>, gone: Id -> bool)
    requires forall x :: x in items ==> (x in keep <==> !gone(x))
    ensures IsLastLeft(items, gone, LastOf(Filter(items, keep)))
    decreases |items|
  {
    hide IsLastLeft, Filter, LastOf;
    if items == [] {
      NothingLeft(gone, keep);
    } else {
      var init, last := items[..|items| - 1], items[|items| - 1];
      assert last in items;
      FilterStep(items, keep);
      LastLeftStep(items, gone, LastOf(Filter(items, keep)));
      LastOfFilter(init, keep, gone);
    }
  }

  lemma NothingLeft(gone: Id -> bool, keep: set<Id>)
    ensures IsLastLeft([], gone, None) && LastOf(Filter([], keep)) == None
  {
  }

  /** Which row a click acts on: the clicked one, unless the click took it out; then the last one left, if it was the one before. */
  lemma ClickPrimary(s: Sel, kind: ClickKind, id: Id, order: seq<Id>)
    requires Sound(s) && NoDup(order)
    ensures var n := Click(s, kind, id, order);
            if !kind.Toggle? || id !in s.items then n.primary == Some(id)
            else if s.primary != Some(id) then n.primary == s.primary
            else IsLastLeft(s.items, x => x == id, n.primary)
  {
    hide SortTo, Slice, Filter, IsLastLeft;
    if kind.Toggle? && id in s.items {
      RemoveIsFilter(s.items, id);
      LastOfFilter(s.items, Elems(s.items) - {id}, x => x == id);
    }
  }

  /** And where a range starts from: the row of the last plain or Ctrl click, or of the Shift click that had to start anew. */
  lemma ClickAnchor(s: Sel, kind: ClickKind, id: Id, order: seq<Id>)
    ensures Click(s, kind, id, order).anchor ==
            if kind.Range? && s.anchor.Some? && s.anchor.value in order && id in order then s.anchor else Some(id)
  {
    hide SortTo, Slice;
  }

  /** The other gestures: a jump acts on its first row, taking all on the last, and both start ranges at the first. */
  lemma JumpsAndAll(s: Sel, rows: seq<Id>)
    ensures rows == [] ==> Perform(s, Jumped(rows)) == NOTHING && Perform(s, TookAll(rows)) == NOTHING
    ensures rows != [] ==>
              && Perform(s, Jumped(rows)) == Sel(rows, Some(rows[0]), Some(rows[0]))
              && Perform(s, TookAll(rows)) == Sel(rows, Some(rows[|rows| - 1]), Some(rows[0]))
  {
  }

  /** A refresh keeps a live primary, moves to the last live row if it died, and moves a dead anchor there too. */
  lemma RefreshPrimary(s: Sel, live: Id -> bool)
    requires Sound(s)
    ensures var n := RetainLive(s, live);
            && (if s.primary.Some? && live(s.primary.value) then n.primary == s.primary
                else IsLastLeft(s.items, x => !live(x), n.primary))
            && n.anchor == (if s.anchor.Some? && !live(s.anchor.value) then n.primary else s.anchor)
            && n.items == Filter(s.items, LiveOf(s.items, live))
  {
    hide Filter, IsLastLeft;
    LastOfFilter(s.items, LiveOf(s.items, live), x => !live(x));
    if s.primary.None? {
      NothingLeft(x => !live(x), {});
    }
  }
}
