/** `merge_bars_sorted` (`crates/bar-service/src/service.rs`): merging two bar
    lists by timestamp, the later bar winning. */
module BarMerge {
  import opened Bars

  /** The map that inserting the bars one by one builds. */
  function ToMap(bars: seq<Bar>): map<I64, Bar> {
    if bars == [] then map[]
    else ToMap(bars[..|bars| - 1])[bars[|bars| - 1].timestamp := bars[|bars| - 1]]
  }

  ghost predicate KeyedByTimestamp(m: map<I64, Bar>) {
    forall t :: t in m ==> m[t].timestamp == t
  }

  ghost function MinKey(s: set<I64>): (k: I64)
    requires s != {}
    ensures k in s && forall x :: x in s ==> k <= x
  {
    var x :| x in s;
    if s == {x} then x
    else
      var m := MinKey(s - {x});
      assert s == (s - {x}) + {x};
      if m < x then m else x
  }

  /** The values of an ordered map, in key order. */
  ghost function SortedValues(m: map<I64, Bar>): seq<Bar>
    decreases |m|
  {
    if m.Keys == {} then []
    else
      var k := MinKey(m.Keys);
      assert (m - {k}).Keys == m.Keys - {k};
      [m[k]] + SortedValues(m - {k})
  }

  ghost function Merge(existing: seq<Bar>, newBars: seq<Bar>): seq<Bar> {
    SortedValues(ToMap(existing + newBars))
  }

  method MergeBarsSorted(existing: seq<Bar>, newBars: seq<Bar>) returns (merged: seq<Bar>)
    ensures merged == Merge(existing, newBars)
  {
    var m: map<I64, Bar> := map[];
    for i := 0 to |existing|
      invariant m == ToMap(existing[..i])
    {
      assert existing[..i + 1][..i] == existing[..i];
      m := m[existing[i].timestamp := existing[i]];
    }
    assert existing[..|existing|] == existing + newBars[..0];
    for i := 0 to |newBars|
      invariant m == ToMap(existing + newBars[..i])
    {
      assert (existing + newBars[..i + 1])[..|existing| + i] == existing + newBars[..i];
      m := m[newBars[i].timestamp := newBars[i]];
    }
    assert newBars[..|newBars|] == newBars;
    merged := IntoValues(m);
  }

  /** `BTreeMap::into_values`: in ascending key order. */
  method IntoValues(m: map<I64, Bar>) returns (values: seq<Bar>)
    ensures values == SortedValues(m)
  {
    hide ToMap;
    values := [];
    var rest := m;
    while rest.Keys != {}
      invariant values + SortedValues(rest) == SortedValues(m)
      decreases |rest.Keys|
    {
      ghost var least := MinKey(rest.Keys);
      var k :| k in rest.Keys && forall x :: x in rest.Keys ==> k <= x;
      assert k == least;
      ghost var tail := SortedValues(rest - {k});
      assert SortedValues(rest) == [rest[k]] + tail;
      assert values + ([rest[k]] + tail) == values + [rest[k]] + tail;
      values := values + [rest[k]];
      rest := rest - {k};
    }
  }

  // ---------------------------------------------------------------------------
  // What a bar list denotes
  // ---------------------------------------------------------------------------

  ghost predicate LastAt(bars: seq<Bar>, t: I64, i: nat)
    requires i < |bars|
  {
    bars[i].timestamp == t && forall j :: i < j < |bars| ==> bars[j].timestamp != t
  }

  /** A list denotes, at each timestamp, its last bar with that timestamp. */
  lemma {:induction false} ToMapIsLastBar(bars: seq<Bar>, t: I64)
    ensures t in ToMap(bars) <==> exists i :: 0 <= i < |bars| && bars[i].timestamp == t
    ensures forall i :: 0 <= i < |bars| && LastAt(bars, t, i) ==> ToMap(bars)[t] == bars[i]
  {
    if bars != [] {
      var init, last := bars[..|bars| - 1], bars[|bars| - 1];
      ToMapIsLastBar(init, t);
      if last.timestamp != t {
        assert forall i :: 0 <= i < |init| ==> init[i] == bars[i];
        if i :| 0 <= i < |bars| && bars[i].timestamp == t {
          assert init[i].timestamp == t;
        }
        forall i | 0 <= i < |bars| && LastAt(bars, t, i)
          ensures ToMap(bars)[t] == bars[i]
        {
          assert LastAt(init, t, i);
        }
      }
    }
  }

  lemma {:induction false} ToMapKeyed(bars: seq<Bar>)
    ensures KeyedByTimestamp(ToMap(bars))
  {
    if bars != [] {
      ToMapKeyed(bars[..|bars| - 1]);
    }
  }

  lemma {:induction false} ToMapAppend(a: seq<Bar>, b: seq<Bar>)
    ensures ToMap(a + b) == ToMap(a) + ToMap(b)
  {
    if b == [] {
      assert a + b == a;
    } else {
      ToMapAppend(a, b[..|b| - 1]);
      assert (a + b)[..|a + b| - 1] == a + b[..|b| - 1];
    }
  }

  lemma ToMapNil()
    ensures ToMap([]) == map[]
  {
  }

  lemma ToMapCons(bar: Bar, rest: seq<Bar>)
    ensures ToMap([bar] + rest) == map[bar.timestamp := bar] + ToMap(rest)
  {
    ToMapAppend([bar], rest);
    assert [bar][..0] == [];
    assert ToMap([bar]) == map[bar.timestamp := bar];
  }

  lemma AscendingCons(bar: Bar, tail: seq<Bar>)
    requires Ascending(tail) && forall b :: b in tail ==> bar.timestamp < b.timestamp
    ensures Ascending([bar] + tail)
  {
  }

  lemma TakeOut(m: map<I64, Bar>, k: I64)
    requires k in m
    ensures (m - {k}).Keys == m.Keys - {k} && |(m - {k}).Keys| < |m.Keys|
    ensures map[k := m[k]] + (m - {k}) == m
  {
  }

  /** The values start with that of the least key. */
  lemma SortedValuesFirst(m: map<I64, Bar>) returns (k: I64)
    requires m.Keys != {}
    ensures k in m && SortedValues(m) == [m[k]] + SortedValues(m - {k})
    ensures forall t :: t in m - {k} ==> k < t
  {
    hide MinKey;
    k := MinKey(m.Keys);
  }

  lemma KeyedRest(m: map<I64, Bar>, k: I64)
    requires KeyedByTimestamp(m) && k in m
    ensures m[k].timestamp == k && KeyedByTimestamp(m - {k})
  {
  }

  lemma ValuesOfNothing(m: map<I64, Bar>)
    requires m.Keys == {}
    ensures SortedValues(m) == [] && Ascending([]) && ToMap([]) == m
  {
    assert m == map[];
  }

  /** In-order values ascend and lose nothing. */
  lemma {:induction false} SortedValuesCorrect(m: map<I64, Bar>)
    requires KeyedByTimestamp(m)
    ensures Ascending(SortedValues(m)) && ToMap(SortedValues(m)) == m
    decreases |m.Keys|
  {
    hide ToMap, Ascending, SortedValues, KeyedByTimestamp;
    if m.Keys == {} {
      ValuesOfNothing(m);
    } else {
      var k := SortedValuesFirst(m);
      var tail := SortedValues(m - {k});
      TakeOut(m, k);
      KeyedRest(m, k);
      SortedValuesCorrect(m - {k});
      ToMapCons(m[k], tail);
      AllAbove(tail, k);
      AscendingCons(m[k], tail);
    }
  }

  lemma AllAbove(bars: seq<Bar>, k: I64)
    requires forall t :: t in ToMap(bars) ==> k < t
    ensures forall b :: b in bars ==> k < b.timestamp
  {
    forall b | b in bars
      ensures k < b.timestamp
    {
      ToMapIsLastBar(bars, b.timestamp);
    }
  }

  /** An ascending list is determined by what it denotes. */
  lemma {:induction false} AscendingUnique(a: seq<Bar>, b: seq<Bar>)
    requires Ascending(a) && Ascending(b) && ToMap(a) == ToMap(b)
    ensures a == b
  {
    if a == [] || b == [] {
      if a != [] { ToMapIsLastBar(a, a[0].timestamp); }
      if b != [] { ToMapIsLastBar(b, b[0].timestamp); }
    } else {
      SameFirst(a, b);
      assert a == [a[0]] + a[1..] && b == [b[0]] + b[1..];
      var t := a[0].timestamp;
      ToMapCons(a[0], a[1..]);
      ToMapCons(b[0], b[1..]);
      ToMapIsLastBar(a[1..], t);
      ToMapIsLastBar(b[1..], t);
      assert ToMap(a[1..]) == ToMap(a) - {t} == ToMap(b[1..]);
      AscendingUnique(a[1..], b[1..]);
    }
  }

  lemma SameFirst(a: seq<Bar>, b: seq<Bar>)
    requires Ascending(a) && Ascending(b) && ToMap(a) == ToMap(b) && a != [] && b != []
    ensures a[0] == b[0]
  {
    ToMapIsLastBar(a, a[0].timestamp);
    ToMapIsLastBar(b, a[0].timestamp);
    ToMapIsLastBar(a, b[0].timestamp);
    ToMapIsLastBar(b, b[0].timestamp);
  }

  // ---------------------------------------------------------------------------
  // Merge algebra
  // ---------------------------------------------------------------------------

  /** A merge is strictly ascending and denotes map override: the new batch wins,
      and inside each list the later bar wins. */
  lemma MergeIsOverride(existing: seq<Bar>, newBars: seq<Bar>)
    ensures Ascending(Merge(existing, newBars))
    ensures ToMap(Merge(existing, newBars)) == ToMap(existing) + ToMap(newBars)
  {
    ToMapKeyed(existing + newBars);
    SortedValuesCorrect(ToMap(existing + newBars));
    ToMapAppend(existing, newBars);
  }

  lemma MergeEmpty(bars: seq<Bar>)
    requires Ascending(bars)
    ensures Merge(bars, []) == bars
  {
    hide ToMap, Merge;
    MergeIsOverride(bars, []);
    ToMapNil();
    assert ToMap(bars) + map[] == ToMap(bars);
    AscendingUnique(Merge(bars, []), bars);
  }

  lemma OverrideAssociative(x: map<I64, Bar>, y: map<I64, Bar>, z: map<I64, Bar>)
    ensures (x + y) + z == x + (y + z)
  {
  }

  lemma OverrideCommutes(x: map<I64, Bar>, y: map<I64, Bar>, z: map<I64, Bar>)
    ensures x + y + z == x + z + y <==> forall t :: t in y && t in z ==> y[t] == z[t]
  {
    if t :| t in y && t in z && y[t] != z[t] {
      assert (x + y + z)[t] != (x + z + y)[t];
    }
  }

  lemma MergeAssociative(a: seq<Bar>, b: seq<Bar>, c: seq<Bar>)
    ensures Merge(Merge(a, b), c) == Merge(a, Merge(b, c))
  {
    hide ToMap, Merge;
    MergeIsOverride(a, b);
    MergeIsOverride(b, c);
    MergeIsOverride(Merge(a, b), c);
    MergeIsOverride(a, Merge(b, c));
    OverrideAssociative(ToMap(a), ToMap(b), ToMap(c));
    AscendingUnique(Merge(Merge(a, b), c), Merge(a, Merge(b, c)));
  }

  /** Applying a batch twice is applying it once. */
  lemma MergeIdempotent(a: seq<Bar>, b: seq<Bar>)
    ensures Merge(Merge(a, b), b) == Merge(a, b)
  {
    hide ToMap, Merge;
    MergeIsOverride(a, b);
    MergeIsOverride(Merge(a, b), b);
    assert (ToMap(a) + ToMap(b)) + ToMap(b) == ToMap(a) + ToMap(b);
    AscendingUnique(Merge(Merge(a, b), b), Merge(a, b));
  }

  ghost predicate AgreeOnOverlap(b: seq<Bar>, c: seq<Bar>) {
    forall t :: t in ToMap(b) && t in ToMap(c) ==> ToMap(b)[t] == ToMap(c)[t]
  }

  /** Two batches may be applied in either order exactly when they agree on the
      timestamps they share. */
  lemma MergeOrderIndependent(a: seq<Bar>, b: seq<Bar>, c: seq<Bar>)
    ensures Merge(Merge(a, b), c) == Merge(Merge(a, c), b) <==> AgreeOnOverlap(b, c)
  {
    hide ToMap, Merge;
    MergeIsOverride(a, b);
    MergeIsOverride(a, c);
    MergeIsOverride(Merge(a, b), c);
    MergeIsOverride(Merge(a, c), b);
    OverrideCommutes(ToMap(a), ToMap(b), ToMap(c));
    if AgreeOnOverlap(b, c) {
      AscendingUnique(Merge(Merge(a, b), c), Merge(Merge(a, c), b));
    }
  }
}
