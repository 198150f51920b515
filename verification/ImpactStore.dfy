/** The startup-impact store: the newest boot's measurement per image. */
module ImpactStore {
  import opened Common
  import opened StartupImpact

  function Choose(entries: Totals, totals: Totals, k: string): Sample
    requires k in entries || k in totals
  {
    if k in totals && (k !in entries || entries[k].boot <= totals[k].boot) then totals[k] else entries[k]
  }

  /** Replace what is not newer, then drop what measured nothing. */
  function Merge(entries: Totals, totals: Totals): Totals {
    map k | k in entries.Keys + totals.Keys && Worth(Choose(entries, totals, k)) :: Choose(entries, totals, k)
  }

  function At(m: Totals, k: string): Option<Sample> {
    if k in m then Some(m[k]) else None
  }

  lemma SameMap(a: Totals, b: Totals)
    requires forall k :: At(a, k) == At(b, k)
    ensures a == b
  {
    forall k
      ensures k in a <==> k in b
      ensures k in a ==> a[k] == b[k]
    {
      assert At(a, k) == At(b, k);
    }
  }

  /** One image of a merge. */
  function Merged(a: Option<Sample>, b: Option<Sample>): Option<Sample> {
    var chosen := if b.Some? && (a.None? || a.value.boot <= b.value.boot) then b else a;
    if chosen.Some? && Worth(chosen.value) then chosen else None
  }

  lemma MergeAt(entries: Totals, totals: Totals, k: string)
    ensures At(Merge(entries, totals), k) == Merged(At(entries, k), At(totals, k))
  {
  }

  /** `ImpactStore::merge`, over the measurements in any order. */
  method MergeInto(entries: Totals, totals: Totals) returns (merged: Totals, dirty: bool)
    ensures merged == Merge(entries, totals)
    ensures dirty <==> exists k :: k in totals && (k !in entries || entries[k].boot <= totals[k].boot)
  {
    var all := entries;
    dirty := false;
    var rest := totals.Keys;
    while rest != {}
      invariant rest <= totals.Keys
      invariant forall k :: At(all, k) == Taken(entries, totals, rest, k)
      invariant dirty <==> exists k :: k in totals && k !in rest && (k !in entries || entries[k].boot <= totals[k].boot)
      decreases |rest|
    {
      var k :| k in rest;
      assert At(all, k) == Taken(entries, totals, rest, k);
      ghost var earlier := all;
      if k !in all || all[k].boot <= totals[k].boot {
        all := all[k := totals[k]];
        dirty := true;
      }
      forall o
        ensures At(all, o) == Taken(entries, totals, rest - {k}, o)
      {
        assert At(earlier, o) == Taken(entries, totals, rest, o);
      }
      rest := rest - {k};
    }
    merged := map k | k in all && Worth(all[k]) :: all[k];
    KeptWorth(entries, totals, all, merged);
  }

  /** What is stored under `k` while the measurements in `rest` are still to come. */
  function Taken(entries: Totals, totals: Totals, rest: set<string>, k: string): Option<Sample> {
    if k in totals && k !in rest then Some(Choose(entries, totals, k)) else At(entries, k)
  }

  lemma KeptWorth(entries: Totals, totals: Totals, all: Totals, merged: Totals)
    requires forall k :: At(all, k) == Taken(entries, totals, {}, k)
    requires merged == map k | k in all && Worth(all[k]) :: all[k]
    ensures merged == Merge(entries, totals)
  {
    forall k
      ensures At(merged, k) == At(Merge(entries, totals), k)
    {
      assert At(all, k) == Taken(entries, totals, {}, k);
    }
    SameMap(merged, Merge(entries, totals));
  }

  /** A stored entry of a newer boot that measured nothing stands in front of a real measurement. */
  predicate Shadows(entries: Totals, totals: Totals, k: string) {
    && k in entries && k in totals && entries[k].boot > totals[k].boot
    && !Worth(entries[k]) && Worth(totals[k])
  }

  /** Merging the same measurements again changes nothing, exactly when no empty entry of a newer boot is stored. */
  lemma MergeIdempotentIff(entries: Totals, totals: Totals)
    ensures Merge(Merge(entries, totals), totals) == Merge(entries, totals)
            <==> forall k :: k in entries ==> !Shadows(entries, totals, k)
  {
    var once := Merge(entries, totals);
    var twice := Merge(once, totals);
    forall k
      ensures At(twice, k) == At(once, k) <==> !Shadows(entries, totals, k)
    {
      MergeAt(entries, totals, k);
      MergeAt(once, totals, k);
    }
    if forall k :: k in entries ==> !Shadows(entries, totals, k) {
      SameMap(twice, once);
    }
  }

  /** Every store that has been merged into meets that condition. */
  lemma MergedStoresAreWorth(entries: Totals, totals: Totals)
    ensures AllWorth(Merge(entries, totals))
    ensures forall k, later: Totals :: k in Merge(entries, totals) ==> !Shadows(Merge(entries, totals), later, k)
  {
    assert forall k :: k in Merge(entries, totals) ==> Worth(Merge(entries, totals)[k]);
  }

  /** Measurements of different boots may be merged in either order. */
  lemma MergeOrderIndependent(entries: Totals, a: Totals, b: Totals)
    requires AllWorth(entries) && AllWorth(a) && AllWorth(b)
    requires forall k :: k in a && k in b ==> a[k].boot != b[k].boot
    ensures Merge(Merge(entries, a), b) == Merge(Merge(entries, b), a)
  {
    forall k
      ensures At(Merge(Merge(entries, a), b), k) == At(Merge(Merge(entries, b), a), k)
    {
      MergeAt(entries, a, k);
      MergeAt(Merge(entries, a), b, k);
      MergeAt(entries, b, k);
      MergeAt(Merge(entries, b), a, k);
    }
    SameMap(Merge(Merge(entries, a), b), Merge(Merge(entries, b), a));
  }

  // --------------------------------------------------- one boot after another

  /** Measurements merged one after the other into an empty store. */
  function MergeAll(all: seq<Totals>): Totals {
    if all == [] then map[] else Merge(MergeAll(all[..|all| - 1]), all[|all| - 1])
  }

  /** Each set of measurements comes from one boot, none older than the one before, and measured something. */
  ghost predicate InBootOrder(all: seq<Totals>) {
    && (forall i, k :: 0 <= i < |all| && k in all[i] ==> Worth(all[i][k]))
    && forall i, j, a, b :: 0 <= i <= j < |all| && a in all[i] && b in all[j] ==> all[i][a].boot <= all[j][b].boot
  }

  /** The last measurement of an image. */
  function LastOf(all: seq<Totals>, k: string): Option<Sample> {
    if all == [] then None
    else if k in all[|all| - 1] then Some(all[|all| - 1][k])
    else LastOf(all[..|all| - 1], k)
  }

  lemma {:induction false} LastIsFromSome(all: seq<Totals>, k: string)
    requires LastOf(all, k).Some?
    ensures exists i :: 0 <= i < |all| && k in all[i] && all[i][k] == LastOf(all, k).value
    decreases |all|
  {
    if k !in all[|all| - 1] {
      var init := all[..|all| - 1];
      LastIsFromSome(init, k);
      var i :| 0 <= i < |init| && k in init[i] && init[i][k] == LastOf(init, k).value;
      assert all[i] == init[i];
    }
  }

  /**
   Boot after boot, and for every save within a boot, the store holds each image's latest
   measurement: a newer boot replaces an older one, and the same boot's later total its earlier one.
   */
  lemma {:induction false} StoreHoldsTheLatest(all: seq<Totals>, k: string)
    requires InBootOrder(all)
    ensures At(MergeAll(all), k) == LastOf(all, k)
    decreases |all|
  {
    if all != [] {
      var init, last := all[..|all| - 1], |all| - 1;
      assert forall i :: 0 <= i < |init| ==> init[i] == all[i];
      StoreHoldsTheLatest(init, k);
      MergeAt(MergeAll(init), all[last], k);
      if LastOf(init, k).Some? {
        LastIsFromSome(init, k);
        var i :| 0 <= i < |init| && k in init[i] && init[i][k] == LastOf(init, k).value;
        assert k in all[i] && Worth(all[i][k]);
      }
    }
  }
}
