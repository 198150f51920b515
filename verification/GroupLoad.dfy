/**
 Load of a group of processes on time-sliced resources (`BusiestShare`): shares of
 one resource add up, different resources do not, and the busiest one wins.
 */
module GroupLoad {
  import opened Common

  datatype Share<K> = Share(resource: K, pct: real)

  /** One process: its own load, if measured, and its shares per resource. */
  datatype Member<K> = Member(own: Option<real>, shares: seq<Share<K>>)

  predicate Measured<K>(m: Member<K>) {
    m.own.Some?
  }

  function ShareTotal<K(==)>(shares: seq<Share<K>>, k: K): real {
    if shares == [] then 0.0
    else
      var s := shares[|shares| - 1];
      ShareTotal(shares[..|shares| - 1], k) + if s.resource == k then s.pct else 0.0
  }

  /** What one member adds to resource `k`. */
  function OnResource<K(==)>(m: Member<K>, k: K): real {
    if Measured(m) then ShareTotal(m.shares, k) else 0.0
  }

  /** What one member adds when its backend reports no breakdown. */
  function Plain<K>(m: Member<K>): real {
    if Measured(m) && m.shares == [] then m.own.value else 0.0
  }

  function Total<K(==)>(g: seq<Member<K>>, k: K): real {
    if g == [] then 0.0 else Total(g[..|g| - 1], k) + OnResource(g[|g| - 1], k)
  }

  function PlainTotal<K>(g: seq<Member<K>>): real {
    if g == [] then 0.0 else PlainTotal(g[..|g| - 1]) + Plain(g[|g| - 1])
  }

  predicate Touches<K(==)>(m: Member<K>, k: K) {
    Measured(m) && exists i :: 0 <= i < |m.shares| && m.shares[i].resource == k
  }

  predicate TouchedBy<K(==)>(g: seq<Member<K>>, k: K) {
    exists i :: 0 <= i < |g| && Touches(g[i], k)
  }

  predicate AnyMeasured<K>(g: seq<Member<K>>) {
    exists i :: 0 <= i < |g| && Measured(g[i])
  }

  /** `x` is the largest of the plain sum and the totals of the resources the group touches. */
  ghost predicate IsPeak<K(!new)>(g: seq<Member<K>>, x: real) {
    && PlainTotal(g) <= x
    && (forall k :: TouchedBy(g, k) ==> Total(g, k) <= x)
    && (x == PlainTotal(g) || exists k :: TouchedBy(g, k) && Total(g, k) == x)
  }

  function Clamp(x: real): real {
    if x < 0.0 then 0.0 else if x > 100.0 then 100.0 else x
  }

  /** The resources a group's measured members name. */
  function Resources<K>(g: seq<Member<K>>): seq<K> {
    if g == [] then []
    else Resources(g[..|g| - 1]) + if Measured(g[|g| - 1]) then Named(g[|g| - 1].shares) else []
  }

  function Named<K>(shares: seq<Share<K>>): (r: seq<K>)
    ensures |r| == |shares| && forall i :: 0 <= i < |r| ==> r[i] == shares[i].resource
  {
    if shares == [] then [] else Named(shares[..|shares| - 1]) + [shares[|shares| - 1].resource]
  }

  lemma {:induction false} ResourcesListed<K>(g: seq<Member<K>>, k: K)
    requires TouchedBy(g, k)
    ensures k in Resources(g)
    decreases |g|
  {
    var i :| 0 <= i < |g| && Touches(g[i], k);
    if i < |g| - 1 {
      assert Touches(g[..|g| - 1][i], k);
      ResourcesListed(g[..|g| - 1], k);
    } else {
      var j :| 0 <= j < |g[i].shares| && g[i].shares[j].resource == k;
      assert Named(g[i].shares)[j] == k;
    }
  }

  /** The largest of the plain sum and the totals of some resources. */
  lemma {:induction false} PeakAmong<K(!new)>(g: seq<Member<K>>, ks: seq<K>) returns (x: real)
    ensures PlainTotal(g) <= x
    ensures forall k :: k in ks && TouchedBy(g, k) ==> Total(g, k) <= x
    ensures x == PlainTotal(g) || exists k :: TouchedBy(g, k) && Total(g, k) == x
    decreases |ks|
  {
    if ks == [] {
      x := PlainTotal(g);
    } else {
      var init, k := ks[..|ks| - 1], ks[|ks| - 1];
      x := PeakAmong(g, init);
      assert ks == init + [k];
      if TouchedBy(g, k) && Total(g, k) > x {
        x := Total(g, k);
      }
    }
  }

  lemma PeakExists<K(!new)>(g: seq<Member<K>>)
    ensures exists x :: IsPeak(g, x)
  {
    var x := PeakAmong(g, Resources(g));
    forall k | TouchedBy(g, k)
      ensures Total(g, k) <= x
    {
      ResourcesListed(g, k);
    }
    assert IsPeak(g, x);
  }

  /** The load of a group: unknown without a measured member, else the clamped peak. */
  ghost function Load<K(!new)>(g: seq<Member<K>>): (load: Option<real>)
    ensures load.Some? <==> AnyMeasured(g)
    ensures load.Some? ==> exists x :: IsPeak(g, x) && load.value == Clamp(x)
  {
    if !AnyMeasured(g) then None
    else
      PeakExists(g);
      var x :| IsPeak(g, x);
      Some(Clamp(x))
  }

  /** The peak is a function of the group, so any peak gives the load. */
  lemma PeakUnique<K(!new)>(g: seq<Member<K>>, x: real, y: real)
    requires IsPeak(g, x) && IsPeak(g, y)
    ensures x == y
  {
  }

  lemma LoadIs<K(!new)>(g: seq<Member<K>>, x: real)
    requires AnyMeasured(g) && IsPeak(g, x)
    ensures Load(g) == Some(Clamp(x))
  {
    var y :| IsPeak(g, y) && Load(g).value == Clamp(y);
    PeakUnique(g, x, y);
  }

  /** The load lies in 0 to 100 and is the peak wherever that does. */
  lemma LoadIsPercentage<K(!new)>(g: seq<Member<K>>, x: real)
    requires AnyMeasured(g) && IsPeak(g, x)
    ensures Load(g).Some? && 0.0 <= Load(g).value <= 100.0
    ensures 0.0 <= x <= 100.0 ==> Load(g).value == x
    ensures x > 100.0 ==> Load(g).value == 100.0
    ensures x < 0.0 ==> Load(g).value == 0.0
  {
    LoadIs(g, x);
  }

  // ------------------------------------------------------------- the object

  class BusiestShare<K(==,!new)> {
    var perResource: map<K, real>
    var unattributed: real
    var known: bool
    ghost var members: seq<Member<K>>

    /** The accumulators are the totals of the members added so far. */
    ghost predicate Valid()
      reads this
    {
      && (forall k :: k in perResource <==> TouchedBy(members, k))
      && (forall k :: k in perResource ==> perResource[k] == Total(members, k))
      && unattributed == PlainTotal(members)
      && (known <==> AnyMeasured(members))
    }

    constructor ()
      ensures Valid() && members == []
    {
      perResource, unattributed, known, members := map[], 0.0, false, [];
    }

    method Add(m: Member<K>)
      requires Valid()
      modifies this
      ensures Valid() && members == old(members) + [m]
    {
      hide Total, PlainTotal, TouchedBy, AnyMeasured, Touches, ShareTotal;
      ghost var g := members;
      members := g + [m];
      OneMoreMember(g, m);
      if m.own.None? {
        return;
      }
      known := true;
      if m.shares == [] {
        unattributed := unattributed + m.own.value;
        NothingNamed(m);
        return;
      }
      perResource := AddShares(perResource, m.shares);
      NamedTouches(m);
      forall k | k in perResource
        ensures perResource[k] == Total(members, k)
      {
        OneMoreTotal(g, m, k);
        if k !in old(perResource) { NoTotal(g, k); }
      }
    }

    method Pct() returns (load: Option<real>)
      requires Valid()
      ensures load == Load(members)
    {
      if !known {
        return None;
      }
      var x := unattributed;
      var rest := perResource.Keys;
      while rest != {}
        invariant rest <= perResource.Keys
        invariant unattributed <= x
        invariant forall k :: k in perResource && k !in rest ==> perResource[k] <= x
        invariant x == unattributed || exists k :: k in perResource && perResource[k] == x
        decreases |rest|
      {
        var k :| k in rest;
        x := Max(x, perResource[k]);
        rest := rest - {k};
      }
      assert IsPeak(members, x) by {
        if x != unattributed {
          var k :| k in perResource && perResource[k] == x;
          assert TouchedBy(members, k) && Total(members, k) == x;
        }
      }
      LoadIs(members, x);
      load := Some(Clamp(x));
    }
  }

  lemma OneMoreTotal<K>(g: seq<Member<K>>, m: Member<K>, k: K)
    ensures Total(g + [m], k) == Total(g, k) + OnResource(m, k)
    ensures TouchedBy(g + [m], k) <==> TouchedBy(g, k) || Touches(m, k)
  {
    var h := g + [m];
    assert h[..|g|] == g;
    if Touches(m, k) { assert Touches(h[|g|], k); }
    if i :| 0 <= i < |g| && Touches(g[i], k) { assert Touches(h[i], k); }
    if i :| 0 <= i < |h| && Touches(h[i], k) { assert i < |g| ==> Touches(g[i], k); }
  }

  /** What one more member does to every accumulated quantity. */
  lemma OneMoreMember<K(!new)>(g: seq<Member<K>>, m: Member<K>)
    ensures PlainTotal(g + [m]) == PlainTotal(g) + Plain(m)
    ensures AnyMeasured(g + [m]) <==> AnyMeasured(g) || Measured(m)
    ensures forall k :: TouchedBy(g + [m], k) <==> TouchedBy(g, k) || Touches(m, k)
    ensures m.own.None? || m.shares == [] ==>
              forall k :: Total(g + [m], k) == Total(g, k) && (TouchedBy(g + [m], k) <==> TouchedBy(g, k))
  {
    var h := g + [m];
    assert h[..|g|] == g;
    if Measured(m) { assert Measured(h[|g|]); }
    if i :| 0 <= i < |g| && Measured(g[i]) { assert Measured(h[i]); }
    if i :| 0 <= i < |h| && Measured(h[i]) { assert i < |g| ==> Measured(g[i]); }
    forall k
      ensures TouchedBy(h, k) <==> TouchedBy(g, k) || Touches(m, k)
      ensures m.own.None? || m.shares == [] ==> Total(h, k) == Total(g, k) && (TouchedBy(h, k) <==> TouchedBy(g, k))
    {
      OneMoreTotal(g, m, k);
    }
  }

  lemma NothingNamed<K(!new)>(m: Member<K>)
    ensures m.own.Some? && m.shares == [] ==> Plain(m) == m.own.value && forall k :: !Touches(m, k)
  {
  }

  lemma NamedTouches<K(!new)>(m: Member<K>)
    ensures m.own.Some? ==> forall k :: Touches(m, k) <==> exists i :: 0 <= i < |m.shares| && m.shares[i].resource == k
    ensures m.shares != [] ==> Plain(m) == 0.0
  {
  }

  function At<K(==)>(m: map<K, real>, k: K): real {
    if k in m then m[k] else 0.0
  }

  /** The loop over one member's shares. */
  method AddShares<K(==,!new)>(start: map<K, real>, shares: seq<Share<K>>) returns (per: map<K, real>)
    ensures forall k :: k in per <==> k in start || exists i :: 0 <= i < |shares| && shares[i].resource == k
    ensures forall k :: k in per ==> per[k] == At(start, k) + ShareTotal(shares, k)
  {
    per := start;
    for i := 0 to |shares|
      invariant forall k :: k in per <==> k in start || exists j :: 0 <= j < i && shares[j].resource == k
      invariant forall k :: At(per, k) == At(start, k) + ShareTotal(shares[..i], k)
    {
      assert shares[..i + 1][..i] == shares[..i];
      var s := shares[i];
      per := per[s.resource := At(per, s.resource) + s.pct];
    }
    assert shares[..|shares|] == shares;
  }

  lemma {:induction false} NoShare<K>(shares: seq<Share<K>>, k: K)
    requires forall i :: 0 <= i < |shares| ==> shares[i].resource != k
    ensures ShareTotal(shares, k) == 0.0
    decreases |shares|
  {
    if shares != [] {
      NoShare(shares[..|shares| - 1], k);
    }
  }

  lemma {:induction false} NoTotal<K>(g: seq<Member<K>>, k: K)
    requires !TouchedBy(g, k)
    ensures Total(g, k) == 0.0
    decreases |g|
  {
    if g != [] {
      assert forall i :: 0 <= i < |g| - 1 ==> g[..|g| - 1][i] == g[i];
      NoTotal(g[..|g| - 1], k);
      assert !Touches(g[|g| - 1], k);
      if Measured(g[|g| - 1]) { NoShare(g[|g| - 1].shares, k); }
    }
  }

  // ---------------------------------------------------------------- laws

  predicate NonNegative<K>(g: seq<Member<K>>) {
    forall i :: 0 <= i < |g| && Measured(g[i]) ==>
                  g[i].own.value >= 0.0 && forall j :: 0 <= j < |g[i].shares| ==> g[i].shares[j].pct >= 0.0
  }

  lemma {:induction false} SharesNonNegative<K>(shares: seq<Share<K>>, k: K)
    requires forall j :: 0 <= j < |shares| ==> shares[j].pct >= 0.0
    ensures ShareTotal(shares, k) >= 0.0
    decreases |shares|
  {
    if shares != [] {
      SharesNonNegative(shares[..|shares| - 1], k);
    }
  }

  lemma {:induction false} TotalsNonNegative<K>(g: seq<Member<K>>, k: K)
    requires NonNegative(g)
    ensures Total(g, k) >= 0.0
    decreases |g|
  {
    if g != [] {
      var rest, m := g[..|g| - 1], g[|g| - 1];
      assert NonNegative(rest) by { assert forall i :: 0 <= i < |rest| ==> rest[i] == g[i]; }
      TotalsNonNegative(rest, k);
      if Measured(m) { SharesNonNegative(m.shares, k); }
    }
  }

  lemma {:induction false} PlainNonNegative<K>(g: seq<Member<K>>)
    requires NonNegative(g)
    ensures PlainTotal(g) >= 0.0
    decreases |g|
  {
    if g != [] {
      var rest := g[..|g| - 1];
      assert NonNegative(rest) by { assert forall i :: 0 <= i < |rest| ==> rest[i] == g[i]; }
      PlainNonNegative(rest);
    }
  }

  lemma {:induction false} TotalsAppend<K>(a: seq<Member<K>>, b: seq<Member<K>>, k: K)
    ensures Total(a + b, k) == Total(a, k) + Total(b, k)
    decreases |b|
  {
    if b == [] {
      assert a + b == a;
    } else {
      assert (a + b)[..|a + b| - 1] == a + b[..|b| - 1];
      TotalsAppend(a, b[..|b| - 1], k);
    }
  }

  lemma {:induction false} PlainAppend<K>(a: seq<Member<K>>, b: seq<Member<K>>)
    ensures PlainTotal(a + b) == PlainTotal(a) + PlainTotal(b)
    decreases |b|
  {
    if b == [] {
      assert a + b == a;
    } else {
      assert (a + b)[..|a + b| - 1] == a + b[..|b| - 1];
      PlainAppend(a, b[..|b| - 1]);
    }
  }

  /** The last member of one list, found in a permutation of it. */
  lemma TakeOut<K>(g: seq<Member<K>>, h: seq<Member<K>>) returns (a: seq<Member<K>>, b: seq<Member<K>>)
    requires g != [] && multiset(g) == multiset(h)
    ensures h == a + [g[|g| - 1]] + b
    ensures multiset(g[..|g| - 1]) == multiset(a + b)
  {
    var m := g[|g| - 1];
    assert g == g[..|g| - 1] + [m];
    assert m in multiset(h);
    var i :| 0 <= i < |h| && h[i] == m;
    a, b := h[..i], h[i + 1..];
    assert h == a + [m] + b;
    assert multiset(h) == multiset(a) + multiset{m} + multiset(b);
    assert multiset(a + b) == multiset(a) + multiset(b);
    calc {
      multiset(g[..|g| - 1]);
      multiset(g) - multiset{m};
      multiset(h) - multiset{m};
      multiset(a + b);
    }
  }

  lemma {:induction false} SameTotals<K>(g: seq<Member<K>>, h: seq<Member<K>>, k: K)
    requires multiset(g) == multiset(h)
    ensures Total(g, k) == Total(h, k)
    decreases |g|
  {
    if g == [] {
      assert |multiset(h)| == 0;
    } else {
      var a, b := TakeOut(g, h);
      var m := g[|g| - 1];
      SameTotals(g[..|g| - 1], a + b, k);
      TotalsAppend(a + [m], b, k);
      TotalsAppend(a, [m], k);
      TotalsAppend(a, b, k);
      assert [m][..0] == [];
    }
  }

  lemma {:induction false} SamePlain<K>(g: seq<Member<K>>, h: seq<Member<K>>)
    requires multiset(g) == multiset(h)
    ensures PlainTotal(g) == PlainTotal(h)
    decreases |g|
  {
    if g == [] {
      assert |multiset(h)| == 0;
    } else {
      var a, b := TakeOut(g, h);
      var m := g[|g| - 1];
      SamePlain(g[..|g| - 1], a + b);
      PlainAppend(a + [m], b);
      PlainAppend(a, [m]);
      PlainAppend(a, b);
      assert [m][..0] == [];
    }
  }

  lemma SameTouched<K>(g: seq<Member<K>>, h: seq<Member<K>>, k: K)
    requires multiset(g) == multiset(h) && TouchedBy(g, k)
    ensures TouchedBy(h, k)
  {
    var i :| 0 <= i < |g| && Touches(g[i], k);
    assert g[i] in multiset(h);
    var j :| 0 <= j < |h| && h[j] == g[i];
  }

  lemma SameMeasured<K>(g: seq<Member<K>>, h: seq<Member<K>>)
    requires multiset(g) == multiset(h) && AnyMeasured(g)
    ensures AnyMeasured(h)
  {
    var i :| 0 <= i < |g| && Measured(g[i]);
    assert g[i] in multiset(h);
    var j :| 0 <= j < |h| && h[j] == g[i];
  }

  lemma SamePeak<K(!new)>(g: seq<Member<K>>, h: seq<Member<K>>, x: real)
    requires multiset(g) == multiset(h) && IsPeak(g, x)
    ensures IsPeak(h, x)
  {
    SamePlain(g, h);
    forall k
      ensures Total(g, k) == Total(h, k) && (TouchedBy(g, k) <==> TouchedBy(h, k))
    {
      SameTotals(g, h, k);
      if TouchedBy(g, k) { SameTouched(g, h, k); }
      if TouchedBy(h, k) { SameTouched(h, g, k); }
    }
  }

  /** The order in which members are added does not matter. */
  lemma OrderIndependent<K(!new)>(g: seq<Member<K>>, h: seq<Member<K>>)
    requires multiset(g) == multiset(h)
    ensures Load(g) == Load(h)
  {
    if AnyMeasured(g) {
      SameMeasured(g, h);
      PeakExists(g);
      var x :| IsPeak(g, x);
      SamePeak(g, h, x);
      LoadIs(g, x);
      LoadIs(h, x);
    } else if AnyMeasured(h) {
      SameMeasured(h, g);
      assert false;
    }
  }

  lemma TotalBounded<K(!new)>(g: seq<Member<K>>, x: real, k: K)
    requires NonNegative(g) && IsPeak(g, x)
    ensures Total(g, k) <= x && 0.0 <= x
  {
    PlainNonNegative(g);
    if !TouchedBy(g, k) {
      NoTotal(g, k);
    }
  }

  lemma PeakOfUnion<K(!new)>(a: seq<Member<K>>, b: seq<Member<K>>, x: real, y: real, z: real)
    requires NonNegative(a) && NonNegative(b)
    requires IsPeak(a, x) && IsPeak(b, y) && IsPeak(a + b, z)
    ensures Max(Clamp(x), Clamp(y)) <= Clamp(z) <= Clamp(x) + Clamp(y)
  {
    PlainAppend(a, b);
    PlainNonNegative(a);
    PlainNonNegative(b);
    forall k
      ensures Total(a + b, k) == Total(a, k) + Total(b, k)
      ensures 0.0 <= Total(a, k) <= x && 0.0 <= Total(b, k) <= y
    {
      TotalsAppend(a, b, k);
      TotalBounded(a, x, k);
      TotalBounded(b, y, k);
      TotalsNonNegative(a, k);
      TotalsNonNegative(b, k);
    }
    forall k | TouchedBy(a, k) || TouchedBy(b, k)
      ensures TouchedBy(a + b, k)
    {
      if i :| 0 <= i < |a| && Touches(a[i], k) {
        assert Touches((a + b)[i], k);
      } else {
        var j :| 0 <= j < |b| && Touches(b[j], k);
        assert Touches((a + b)[|a| + j], k);
      }
    }
  }

  function OrIdle(load: Option<real>): real {
    if load.Some? then load.value else 0.0
  }

  lemma UnmeasuredIsIdle<K(!new)>(g: seq<Member<K>>)
    requires !AnyMeasured(g)
    ensures IsPeak(g, 0.0)
  {
    NoPlain(g);
    forall k
      ensures !TouchedBy(g, k)
    {
      if i :| 0 <= i < |g| && Touches(g[i], k) {
        assert Measured(g[i]);
      }
    }
  }

  lemma {:induction false} NoPlain<K>(g: seq<Member<K>>)
    requires forall i :: 0 <= i < |g| ==> !Measured(g[i])
    ensures PlainTotal(g) == 0.0
    decreases |g|
  {
    if g != [] {
      assert forall i :: 0 <= i < |g| - 1 ==> g[..|g| - 1][i] == g[i];
      NoPlain(g[..|g| - 1]);
    }
  }

  /** A peak of any group, which is its load if there is one and idle if not. */
  lemma PeakOf<K(!new)>(g: seq<Member<K>>) returns (x: real)
    ensures IsPeak(g, x) && OrIdle(Load(g)) == Clamp(x)
  {
    if AnyMeasured(g) {
      PeakExists(g);
      x :| IsPeak(g, x);
      LoadIs(g, x);
    } else {
      UnmeasuredIsIdle(g);
      x := 0.0;
    }
  }

  /**
   The load of two groups together: unknown exactly if both are, else at least the load
   of each and at most their sum, an unknown load counting as none.
   */
  lemma LoadOfUnion<K(!new)>(a: seq<Member<K>>, b: seq<Member<K>>)
    requires NonNegative(a) && NonNegative(b)
    ensures Load(a + b).None? <==> Load(a).None? && Load(b).None?
    ensures Load(a + b).Some? ==>
              Max(OrIdle(Load(a)), OrIdle(Load(b))) <= Load(a + b).value <= OrIdle(Load(a)) + OrIdle(Load(b))
  {
    AnyMeasuredUnion(a, b);
    var x := PeakOf(a);
    var y := PeakOf(b);
    var z := PeakOf(a + b);
    PeakOfUnion(a, b, x, y, z);
  }

  lemma AnyMeasuredUnion<K>(a: seq<Member<K>>, b: seq<Member<K>>)
    ensures AnyMeasured(a + b) <==> AnyMeasured(a) || AnyMeasured(b)
  {
    var g := a + b;
    if i :| 0 <= i < |a| && Measured(a[i]) { assert Measured(g[i]); }
    if i :| 0 <= i < |b| && Measured(b[i]) { assert Measured(g[|a| + i]); }
    if i :| 0 <= i < |g| && Measured(g[i]) { assert if i < |a| then Measured(a[i]) else Measured(b[i - |a|]); }
  }

  lemma SinglePeak<K(!new)>(m: Member<K>, x: real)
    requires Measured(m) && 0.0 <= m.own.value <= 100.0
    requires forall i :: 0 <= i < |m.shares| ==> ShareTotal(m.shares, m.shares[i].resource) <= m.own.value
    requires m.shares != [] ==> exists i :: 0 <= i < |m.shares| && ShareTotal(m.shares, m.shares[i].resource) == m.own.value
    requires IsPeak([m], x)
    ensures Clamp(x) == m.own.value
  {
    assert [m][..0] == [];
    assert PlainTotal([m]) == Plain(m);
    assert forall k :: Total([m], k) == ShareTotal(m.shares, k);
    if m.shares != [] {
      var i :| 0 <= i < |m.shares| && ShareTotal(m.shares, m.shares[i].resource) == m.own.value;
      assert Touches([m][0], m.shares[i].resource);
    }
    forall k | TouchedBy([m], k)
      ensures Total([m], k) <= m.own.value
    {
      assert Touches([m][0], k);
    }
  }

  /** A single process whose own value is its busiest share is shown unchanged. */
  lemma SingleMember<K(!new)>(m: Member<K>)
    requires Measured(m) && 0.0 <= m.own.value <= 100.0
    requires forall i :: 0 <= i < |m.shares| ==> ShareTotal(m.shares, m.shares[i].resource) <= m.own.value
    requires m.shares != [] ==> exists i :: 0 <= i < |m.shares| && ShareTotal(m.shares, m.shares[i].resource) == m.own.value
    ensures Load([m]) == m.own
  {
    assert Measured([m][0]);
    var x := PeakOf([m]);
    SinglePeak(m, x);
  }
}
