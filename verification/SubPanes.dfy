/** Re-synchronising each window's sub-panes with the indicator instances
    (`sync_sub_panes_from_manager` in `crates/chart-app/src/lib.rs`). */
module SubPanes {
  import opened Bars

  type Id = nat
  type PriceRange = Option<(real, real)>

  datatype SubPane = SubPane(
    instanceId: Id,
    index: nat,
    yOffset: real,
    height: real,
    chartWidth: real,
    priceMin: real,
    priceMax: real,
    autoScale: bool,
    dragStartPriceMin: real,
    dragStartPriceMax: real,
    heightRatio: real,
    hidden: bool,
    aboveMain: bool,
    maximized: bool,
    preMaximizeHeightRatio: real)

  function NewPane(id: Id): SubPane {
    SubPane(id, 0, 0.0, 100.0, 0.0, 0.0, 100.0, true, 0.0, 0.0, 0.15, false, false, false, 0.0)
  }

  /** State restored from a preset, applied once. */
  datatype Pending = Pending(ratios: Option<map<Id, real>>, aboveMain: Option<set<Id>>, order: Option<seq<Id>>)

  const NothingPending := Pending(None, None, None)

  /** The window's instances outside the main pane, with their price ranges. */
  type Instances = seq<(Id, PriceRange)>

  function IdsOf(data: Instances): seq<Id> {
    seq(|data|, i requires 0 <= i < |data| => data[i].0)
  }

  function PaneIds(panes: seq<SubPane>): seq<Id> {
    seq(|panes|, i requires 0 <= i < |panes| => panes[i].instanceId)
  }

  function RangeMap(data: Instances): map<Id, PriceRange> {
    if data == [] then map[] else RangeMap(data[..|data| - 1])[data[|data| - 1].0 := data[|data| - 1].1]
  }

  /** A later pane with the same instance replaces an earlier one. */
  function ExistingMap(panes: seq<SubPane>): map<Id, SubPane> {
    if panes == [] then map[]
    else ExistingMap(panes[..|panes| - 1])[panes[|panes| - 1].instanceId := panes[|panes| - 1]]
  }

  function Lookup(m: map<Id, SubPane>, id: Id): Option<SubPane> {
    if id in m then Some(m[id]) else None
  }

  function WithRatio(p: SubPane, id: Id, pending: Pending): SubPane {
    if pending.ratios.Some? && id in pending.ratios.value then p.(heightRatio := pending.ratios.value[id]) else p
  }

  function WithFlag(p: SubPane, id: Id, pending: Pending): SubPane {
    if pending.aboveMain.Some? then p.(aboveMain := id in pending.aboveMain.value) else p
  }

  /** The saved height ratio and above-main flag, where there are any. */
  function Restored(p: SubPane, id: Id, pending: Pending): SubPane {
    WithFlag(WithRatio(p, id, pending), id, pending)
  }

  function Ranged(p: SubPane, range: PriceRange): SubPane {
    match range
    case Some((lo, hi)) => p.(priceMin := lo, priceMax := hi)
    case None => p
  }

  /** A surviving pane keeps its fields; a new one starts from its price range. */
  function BuildPane(id: Id, existing: Option<SubPane>, pending: Pending, ranges: map<Id, PriceRange>): SubPane {
    match existing
    case Some(p) => Restored(p, id, pending)
    case None => Restored(Ranged(NewPane(id), if id in ranges then ranges[id] else None), id, pending)
  }

  // ---------------------------------------------------------------------------
  // One window
  // ---------------------------------------------------------------------------

  /** The panes of the given ids that are still instances, in that order. */
  function SavedPass(order: seq<Id>, old_: map<Id, SubPane>, pending: Pending, ranges: map<Id, PriceRange>): seq<SubPane> {
    if order == [] then []
    else
      var id := order[|order| - 1];
      SavedPass(order[..|order| - 1], old_, pending, ranges)
      + if id in ranges then [BuildPane(id, Lookup(old_, id), pending, ranges)] else []
  }

  function KeepPass(panes: seq<SubPane>, pending: Pending, ranges: map<Id, PriceRange>): seq<SubPane> {
    if panes == [] then []
    else
      var p := panes[|panes| - 1];
      KeepPass(panes[..|panes| - 1], pending, ranges)
      + if p.instanceId in ranges then [BuildPane(p.instanceId, Some(p), pending, ranges)] else []
  }

  function NewPass(data: Instances, used: set<Id>, old_: map<Id, SubPane>, pending: Pending, ranges: map<Id, PriceRange>): seq<SubPane> {
    if data == [] then []
    else
      var id := data[|data| - 1].0;
      NewPass(data[..|data| - 1], used, old_, pending, ranges)
      + if id in used then [] else [BuildPane(id, Lookup(old_, id), pending, ranges)]
  }

  function Indexed(panes: seq<SubPane>): (r: seq<SubPane>) {
    seq(|panes|, i requires 0 <= i < |panes| => panes[i].(index := i))
  }

  function FirstPass(panes: seq<SubPane>, data: Instances, pending: Pending): seq<SubPane> {
    match pending.order
    case Some(order) => SavedPass(order, ExistingMap(panes), pending, RangeMap(data))
    case None => KeepPass(panes, pending, RangeMap(data))
  }

  function IdSet(panes: seq<SubPane>): set<Id> {
    set i | 0 <= i < |panes| :: panes[i].instanceId
  }

  function Synced(panes: seq<SubPane>, data: Instances, pending: Pending): seq<SubPane> {
    var first := FirstPass(panes, data, pending);
    Indexed(first + NewPass(data, IdSet(first), ExistingMap(panes), pending, RangeMap(data)))
  }

  method SyncWindow(panes: seq<SubPane>, data: Instances, pending: Pending) returns (newPanes: seq<SubPane>)
    ensures newPanes == Synced(panes, data, pending)
  {
    hide BuildPane, IdSet, Indexed, SavedPass, KeepPass, NewPass, RangeMap, ExistingMap;
    var ranges := BuildRanges(data);
    var old_ := BuildExisting(panes);
    var used: set<Id>;
    match pending.order {
      case Some(order) => newPanes, used := TakeSaved(order, old_, pending, ranges);
      case None => newPanes, used := TakePresent(panes, pending, ranges);
    }
    var newcomers := TakeNew(data, used, old_, pending, ranges);
    newPanes := UpdateIndices(newPanes + newcomers);
  }

  /** First pass with a saved order. */
  method TakeSaved(order: seq<Id>, old_: map<Id, SubPane>, pending: Pending, ranges: map<Id, PriceRange>)
    returns (newPanes: seq<SubPane>, used: set<Id>)
    requires forall id :: id in old_ ==> old_[id].instanceId == id
    ensures newPanes == SavedPass(order, old_, pending, ranges) && used == IdSet(newPanes)
  {
    hide BuildPane, IdSet;
    newPanes, used := [], {};
    NoIds();
    for i := 0 to |order|
      invariant newPanes == SavedPass(order[..i], old_, pending, ranges) && used == IdSet(newPanes)
    {
      assert order[..i + 1][..i] == order[..i];
      if order[i] in ranges {
        newPanes, used := AddPane(newPanes, used, order[i], Lookup(old_, order[i]), pending, ranges);
      }
    }
    assert order[..|order|] == order;
  }

  /** First pass without: the present order of the panes that are still there. */
  method TakePresent(panes: seq<SubPane>, pending: Pending, ranges: map<Id, PriceRange>)
    returns (newPanes: seq<SubPane>, used: set<Id>)
    ensures newPanes == KeepPass(panes, pending, ranges) && used == IdSet(newPanes)
  {
    hide BuildPane, IdSet;
    newPanes, used := [], {};
    NoIds();
    for i := 0 to |panes|
      invariant newPanes == KeepPass(panes[..i], pending, ranges) && used == IdSet(newPanes)
    {
      assert panes[..i + 1][..i] == panes[..i];
      if panes[i].instanceId in ranges {
        newPanes, used := AddPane(newPanes, used, panes[i].instanceId, Some(panes[i]), pending, ranges);
      }
    }
    assert panes[..|panes|] == panes;
  }

  /** The panes of the instances not yet used. */
  method TakeNew(data: Instances, used: set<Id>, old_: map<Id, SubPane>, pending: Pending, ranges: map<Id, PriceRange>)
    returns (newcomers: seq<SubPane>)
    ensures newcomers == NewPass(data, used, old_, pending, ranges)
  {
    hide BuildPane;
    newcomers := [];
    for i := 0 to |data|
      invariant newcomers == NewPass(data[..i], used, old_, pending, ranges)
    {
      assert data[..i + 1][..i] == data[..i];
      if data[i].0 !in used {
        newcomers := newcomers + [BuildPane(data[i].0, Lookup(old_, data[i].0), pending, ranges)];
      }
    }
    assert data[..|data|] == data;
  }

  method UpdateIndices(panes: seq<SubPane>) returns (r: seq<SubPane>)
    ensures r == Indexed(panes)
  {
    r := panes;
    for i := 0 to |r|
      invariant |r| == |panes|
      invariant forall j :: 0 <= j < |r| ==> r[j] == if j < i then panes[j].(index := j) else panes[j]
    {
      r := r[i := r[i].(index := i)];
    }
  }

  lemma NoIds()
    ensures IdSet([]) == {}
  {
  }

  method AddPane(panes: seq<SubPane>, used: set<Id>, id: Id, existing: Option<SubPane>, pending: Pending, ranges: map<Id, PriceRange>)
    returns (more: seq<SubPane>, used': set<Id>)
    requires used == IdSet(panes) && (existing.Some? ==> existing.value.instanceId == id)
    ensures more == panes + [BuildPane(id, existing, pending, ranges)]
    ensures used' == IdSet(more)
  {
    var pane := BuildPane(id, existing, pending, ranges);
    assert pane.instanceId == id;
    more := panes + [pane];
    used' := used + {id};
    IdSetAppend(panes, pane);
  }

  lemma IdSetAppend(panes: seq<SubPane>, pane: SubPane)
    ensures IdSet(panes + [pane]) == IdSet(panes) + {pane.instanceId}
  {
    var more := panes + [pane];
    assert more[|panes|] == pane;
    forall id
      ensures id in IdSet(more) <==> id in IdSet(panes) + {pane.instanceId}
    {
      if id in IdSet(panes) {
        var i :| 0 <= i < |panes| && panes[i].instanceId == id;
        assert more[i].instanceId == id;
      }
    }
  }

  method BuildRanges(data: Instances) returns (ranges: map<Id, PriceRange>)
    ensures ranges == RangeMap(data)
  {
    ranges := map[];
    for i := 0 to |data|
      invariant ranges == RangeMap(data[..i])
    {
      assert data[..i + 1][..i] == data[..i];
      ranges := ranges[data[i].0 := data[i].1];
    }
    assert data[..|data|] == data;
  }

  method BuildExisting(panes: seq<SubPane>) returns (m: map<Id, SubPane>)
    ensures m == ExistingMap(panes)
    ensures forall id :: id in m ==> m[id].instanceId == id
  {
    m := map[];
    for i := 0 to |panes|
      invariant m == ExistingMap(panes[..i]) && forall id :: id in m ==> m[id].instanceId == id
    {
      assert panes[..i + 1][..i] == panes[..i];
      m := m[panes[i].instanceId := panes[i]];
    }
    assert panes[..|panes|] == panes;
  }

  // ---------------------------------------------------------------------------
  // What a sync gives
  // ---------------------------------------------------------------------------

  ghost predicate Distinct(s: seq<Id>) {
    forall i, j :: 0 <= i < j < |s| ==> s[i] != s[j]
  }

  function KeepIn(s: seq<Id>, keys: seq<Id>): seq<Id> {
    if s == [] then []
    else KeepIn(s[..|s| - 1], keys) + if s[|s| - 1] in keys then [s[|s| - 1]] else []
  }

  function KeepOut(s: seq<Id>, keys: seq<Id>): seq<Id> {
    if s == [] then []
    else KeepOut(s[..|s| - 1], keys) + if s[|s| - 1] in keys then [] else [s[|s| - 1]]
  }

  /** The order to start from: the saved one, else the present one. */
  function BaseOrder(panes: seq<SubPane>, pending: Pending): seq<Id> {
    match pending.order
    case Some(order) => order
    case None => PaneIds(panes)
  }

  /** The panes' instances after a sync: those of the starting order that are still
      there, then the newcomers. */
  function SyncedIds(panes: seq<SubPane>, data: Instances, pending: Pending): seq<Id> {
    var base := BaseOrder(panes, pending);
    KeepIn(base, IdsOf(data)) + KeepOut(IdsOf(data), KeepIn(base, IdsOf(data)))
  }

  lemma {:induction false} RangeMapKeys(data: Instances)
    ensures forall id :: id in RangeMap(data) <==> id in IdsOf(data)
    ensures Distinct(IdsOf(data)) ==>
              forall i :: 0 <= i < |data| ==> data[i].0 in RangeMap(data) && RangeMap(data)[data[i].0] == data[i].1
  {
    if data != [] {
      var n := |data| - 1;
      RangeMapKeys(data[..n]);
      assert IdsOf(data) == IdsOf(data[..n]) + [data[n].0];
      if Distinct(IdsOf(data)) {
        assert forall i :: 0 <= i < n ==> IdsOf(data)[i] == data[i].0 && IdsOf(data)[i] != IdsOf(data)[n];
        assert Distinct(IdsOf(data[..n]));
      }
    }
  }

  lemma PaneIdsLast(panes: seq<SubPane>)
    requires panes != []
    ensures PaneIds(panes) == PaneIds(panes[..|panes| - 1]) + [panes[|panes| - 1].instanceId]
  {
  }

  lemma {:induction false} ExistingMapKeys(panes: seq<SubPane>)
    ensures forall id :: id in ExistingMap(panes) <==> id in PaneIds(panes)
    ensures forall id :: id in ExistingMap(panes) ==> ExistingMap(panes)[id].instanceId == id
  {
    if panes != [] {
      hide PaneIds;
      ExistingMapKeys(panes[..|panes| - 1]);
      PaneIdsLast(panes);
    } else {
      NoPaneIds();
    }
  }

  lemma {:induction false} ExistingMapMembers(panes: seq<SubPane>)
    ensures forall id :: id in ExistingMap(panes) ==> ExistingMap(panes)[id] in panes
  {
    if panes != [] {
      ExistingMapMembers(panes[..|panes| - 1]);
      assert panes == panes[..|panes| - 1] + [panes[|panes| - 1]];
    }
  }

  lemma DistinctLast(panes: seq<SubPane>)
    requires panes != [] && Distinct(PaneIds(panes))
    ensures var n := |panes| - 1;
      && Distinct(PaneIds(panes[..n]))
      && forall i :: 0 <= i < n ==> panes[i].instanceId != panes[n].instanceId
  {
    var n := |panes| - 1;
    var ids := PaneIds(panes);
    assert forall i :: 0 <= i <= n ==> ids[i] == panes[i].instanceId;
  }

  lemma {:induction false} ExistingMapLookup(panes: seq<SubPane>)
    requires Distinct(PaneIds(panes))
    ensures forall i :: 0 <= i < |panes| ==> Lookup(ExistingMap(panes), panes[i].instanceId) == Some(panes[i])
  {
    if panes != [] {
      hide PaneIds, Distinct;
      DistinctLast(panes);
      ExistingMapLookup(panes[..|panes| - 1]);
    }
  }

  lemma BuildPaneId(id: Id, existing: Option<SubPane>, pending: Pending, ranges: map<Id, PriceRange>)
    requires existing.Some? ==> existing.value.instanceId == id
    ensures BuildPane(id, existing, pending, ranges).instanceId == id
  {
  }

  lemma PaneIdsAppend(a: seq<SubPane>, b: seq<SubPane>)
    ensures PaneIds(a + b) == PaneIds(a) + PaneIds(b)
  {
  }

  lemma {:induction false} SavedPassIds(order: seq<Id>, panes: seq<SubPane>, pending: Pending, data: Instances)
    ensures PaneIds(SavedPass(order, ExistingMap(panes), pending, RangeMap(data))) == KeepIn(order, IdsOf(data))
  {
    hide BuildPane, PaneIds, IdsOf, RangeMap, ExistingMap;
    if order == [] {
      assert PaneIds([]) == [] by { NoPaneIds(); }
    } else {
      var init, id := order[..|order| - 1], order[|order| - 1];
      SavedPassIds(init, panes, pending, data);
      RangeMapKeys(data);
      ExistingMapKeys(panes);
      var pane := BuildPane(id, Lookup(ExistingMap(panes), id), pending, RangeMap(data));
      BuildPaneId(id, Lookup(ExistingMap(panes), id), pending, RangeMap(data));
      var before := SavedPass(init, ExistingMap(panes), pending, RangeMap(data));
      PaneIdsAppend(before, [pane]);
      OnePaneId(pane);
      assert before + [] == before && KeepIn(init, IdsOf(data)) + [] == KeepIn(init, IdsOf(data));
    }
  }

  lemma NoPaneIds()
    ensures PaneIds([]) == []
  {
  }

  lemma OnePaneId(p: SubPane)
    ensures PaneIds([p]) == [p.instanceId]
  {
  }

  lemma {:induction false} KeepPassIds(panes: seq<SubPane>, pending: Pending, data: Instances)
    ensures PaneIds(KeepPass(panes, pending, RangeMap(data))) == KeepIn(PaneIds(panes), IdsOf(data))
  {
    hide BuildPane, PaneIds, IdsOf, RangeMap;
    if panes == [] {
      NoPaneIds();
    } else {
      var init, p := panes[..|panes| - 1], panes[|panes| - 1];
      assert panes == init + [p];
      KeepPassIds(init, pending, data);
      RangeMapKeys(data);
      var pane := BuildPane(p.instanceId, Some(p), pending, RangeMap(data));
      BuildPaneId(p.instanceId, Some(p), pending, RangeMap(data));
      var before := KeepPass(init, pending, RangeMap(data));
      PaneIdsAppend(before, [pane]);
      assert before + [] == before && PaneIds(before) + [] == PaneIds(before);
      PaneIdsAppend(init, [p]);
      OnePaneId(pane);
      OnePaneId(p);
      assert PaneIds(panes)[..|PaneIds(panes)| - 1] == PaneIds(init);
    }
  }

  lemma {:induction false} NewPassIds(data: Instances, used: set<Id>, panes: seq<SubPane>, pending: Pending, ranges: map<Id, PriceRange>, first: seq<Id>)
    requires forall id :: id in used <==> id in first
    ensures PaneIds(NewPass(data, used, ExistingMap(panes), pending, ranges)) == KeepOut(IdsOf(data), first)
  {
    hide BuildPane, PaneIds, ExistingMap;
    if data == [] {
      NoPaneIds();
    } else {
      var init, id := data[..|data| - 1], data[|data| - 1].0;
      NewPassIds(init, used, panes, pending, ranges, first);
      ExistingMapKeys(panes);
      var pane := BuildPane(id, Lookup(ExistingMap(panes), id), pending, ranges);
      BuildPaneId(id, Lookup(ExistingMap(panes), id), pending, ranges);
      var before := NewPass(init, used, ExistingMap(panes), pending, ranges);
      PaneIdsAppend(before, [pane]);
      assert before + [] == before && PaneIds(before) + [] == PaneIds(before);
      OnePaneId(pane);
      assert IdsOf(data)[..|data| - 1] == IdsOf(init);
    }
  }

  lemma IndexedIds(panes: seq<SubPane>)
    ensures PaneIds(Indexed(panes)) == PaneIds(panes)
  {
  }

  /** Which panes there are, and in which order. */
  lemma SyncOrder(panes: seq<SubPane>, data: Instances, pending: Pending)
    ensures PaneIds(Synced(panes, data, pending)) == SyncedIds(panes, data, pending)
    ensures forall i :: 0 <= i < |Synced(panes, data, pending)| ==> Synced(panes, data, pending)[i].index == i
  {
    hide PaneIds, IdsOf, RangeMap, ExistingMap, SavedPass, KeepPass, NewPass, KeepIn, KeepOut;
    var first := FirstPass(panes, data, pending);
    match pending.order {
      case Some(order) => SavedPassIds(order, panes, pending, data);
      case None => KeepPassIds(panes, pending, data);
    }
    IdSetIs(first);
    var second := NewPass(data, IdSet(first), ExistingMap(panes), pending, RangeMap(data));
    NewPassIds(data, IdSet(first), panes, pending, RangeMap(data), PaneIds(first));
    PaneIdsAppend(first, second);
    IndexedIds(first + second);
  }

  lemma IdSetIs(panes: seq<SubPane>)
    ensures forall id :: id in IdSet(panes) <==> id in PaneIds(panes)
  {
    forall id
      ensures id in IdSet(panes) <==> id in PaneIds(panes)
    {
      if id in IdSet(panes) {
        var i :| 0 <= i < |panes| && panes[i].instanceId == id;
        assert PaneIds(panes)[i] == id;
      }
    }
  }

  lemma {:induction false} KeepInMembers(s: seq<Id>, keys: seq<Id>)
    ensures forall id :: id in KeepIn(s, keys) <==> id in s && id in keys
    ensures Distinct(s) ==> Distinct(KeepIn(s, keys))
  {
    if s != [] {
      var n := |s| - 1;
      KeepInMembers(s[..n], keys);
      assert s == s[..n] + [s[n]];
      var kept := KeepIn(s[..n], keys);
      if Distinct(s) {
        assert Distinct(s[..n]);
        assert forall i :: 0 <= i < |kept| ==> kept[i] in s[..n];
      }
    }
  }

  lemma {:induction false} KeepOutMembers(s: seq<Id>, keys: seq<Id>)
    ensures forall id :: id in KeepOut(s, keys) <==> id in s && id !in keys
    ensures Distinct(s) ==> Distinct(KeepOut(s, keys))
  {
    if s != [] {
      var n := |s| - 1;
      KeepOutMembers(s[..n], keys);
      assert s == s[..n] + [s[n]];
      var kept := KeepOut(s[..n], keys);
      if Distinct(s) {
        assert Distinct(s[..n]);
        assert forall i :: 0 <= i < |kept| ==> kept[i] in s[..n];
      }
    }
  }

  /** The panes are exactly the instances; and each occurs once exactly when the
      starting order names no surviving instance twice. */
  lemma SyncExact(panes: seq<SubPane>, data: Instances, pending: Pending)
    requires Distinct(IdsOf(data))
    ensures forall id :: id in PaneIds(Synced(panes, data, pending)) <==> id in IdsOf(data)
    ensures Distinct(PaneIds(Synced(panes, data, pending)))
            <==> Distinct(KeepIn(BaseOrder(panes, pending), IdsOf(data)))
  {
    hide Synced, PaneIds, IdsOf, KeepIn, KeepOut, BaseOrder;
    SyncOrder(panes, data, pending);
    var kept := KeepIn(BaseOrder(panes, pending), IdsOf(data));
    var fresh_ := KeepOut(IdsOf(data), kept);
    KeepInMembers(BaseOrder(panes, pending), IdsOf(data));
    KeepOutMembers(IdsOf(data), kept);
    DistinctConcat(kept, fresh_);
  }

  lemma DistinctConcat(a: seq<Id>, b: seq<Id>)
    requires Distinct(b) && forall id :: id in b ==> id !in a
    ensures Distinct(a + b) <==> Distinct(a)
  {
    if Distinct(a + b) {
      forall i, j | 0 <= i < j < |a|
        ensures a[i] != a[j]
      {
        assert (a + b)[i] == a[i] && (a + b)[j] == a[j];
      }
    }
    if Distinct(a) {
      forall i, j | 0 <= i < j < |a + b|
        ensures (a + b)[i] != (a + b)[j]
      {
        if i < |a| && j >= |a| {
          assert b[j - |a|] in b && a[i] in a;
        }
      }
    }
  }

  // ---------------------------------------------------------------------------
  // Fields, and doing it twice
  // ---------------------------------------------------------------------------

  /** The pane an instance gets: its old pane or a new one, with what is pending. */
  function Expected(id: Id, panes: seq<SubPane>, data: Instances, pending: Pending): SubPane {
    BuildPane(id, Lookup(ExistingMap(panes), id), pending, RangeMap(data))
  }

  ghost predicate AllExpected(made: seq<SubPane>, panes: seq<SubPane>, data: Instances, pending: Pending) {
    forall i :: 0 <= i < |made| ==> made[i] == Expected(made[i].instanceId, panes, data, pending)
  }

  lemma ExpectedId(id: Id, panes: seq<SubPane>, data: Instances, pending: Pending)
    ensures Expected(id, panes, data, pending).instanceId == id
  {
    ExistingMapKeys(panes);
    BuildPaneId(id, Lookup(ExistingMap(panes), id), pending, RangeMap(data));
  }

  lemma {:induction false} SavedPassExpected(order: seq<Id>, panes: seq<SubPane>, data: Instances, pending: Pending)
    ensures AllExpected(SavedPass(order, ExistingMap(panes), pending, RangeMap(data)), panes, data, pending)
  {
    hide BuildPane, RangeMap, ExistingMap;
    if order != [] {
      SavedPassExpected(order[..|order| - 1], panes, data, pending);
      ExpectedId(order[|order| - 1], panes, data, pending);
    }
  }

  lemma {:induction false} KeepPassExpected(some: seq<SubPane>, panes: seq<SubPane>, data: Instances, pending: Pending)
    requires forall i :: 0 <= i < |some| ==> Lookup(ExistingMap(panes), some[i].instanceId) == Some(some[i])
    ensures AllExpected(KeepPass(some, pending, RangeMap(data)), panes, data, pending)
  {
    hide BuildPane, RangeMap, ExistingMap, Lookup;
    if some != [] {
      var n := |some| - 1;
      KeepPassExpected(some[..n], panes, data, pending);
      ExpectedId(some[n].instanceId, panes, data, pending);
    }
  }

  lemma {:induction false} NewPassExpected(some: Instances, used: set<Id>, panes: seq<SubPane>, data: Instances, pending: Pending)
    ensures AllExpected(NewPass(some, used, ExistingMap(panes), pending, RangeMap(data)), panes, data, pending)
  {
    hide BuildPane, RangeMap, ExistingMap;
    if some != [] {
      NewPassExpected(some[..|some| - 1], used, panes, data, pending);
      ExpectedId(some[|some| - 1].0, panes, data, pending);
    }
  }

  lemma UnindexedExpected(panes: seq<SubPane>, data: Instances, pending: Pending)
    requires pending.order.None? ==> Distinct(PaneIds(panes))
    ensures var first := FirstPass(panes, data, pending);
      AllExpected(first + NewPass(data, IdSet(first), ExistingMap(panes), pending, RangeMap(data)), panes, data, pending)
  {
    hide BuildPane, RangeMap, ExistingMap, SavedPass, KeepPass, NewPass, Expected, IdSet;
    match pending.order {
      case Some(order) => SavedPassExpected(order, panes, data, pending);
      case None =>
        ExistingMapLookup(panes);
        KeepPassExpected(panes, panes, data, pending);
    }
    var first := FirstPass(panes, data, pending);
    NewPassExpected(data, IdSet(first), panes, data, pending);
  }

  /** The pane with the given index and the pending height ratio and flag, if any. */
  function Overridden(p: SubPane, index: nat, pending: Pending): SubPane {
    var id := p.instanceId;
    p.(index := index,
       heightRatio := if pending.ratios.Some? && id in pending.ratios.value then pending.ratios.value[id] else p.heightRatio,
       aboveMain := if pending.aboveMain.Some? then id in pending.aboveMain.value else p.aboveMain)
  }

  lemma RangedId(id: Id, range: PriceRange)
    ensures Ranged(NewPane(id), range).instanceId == id
  {
  }

  lemma RestoredIs(p: SubPane, index: nat, pending: Pending)
    ensures Restored(p, p.instanceId, pending).(index := index) == Overridden(p, index, pending)
  {
  }

  /** Every pane of a survivor is its old pane but for its index and what was pending
      for it; every other pane is a fresh one with its instance's price range. */
  lemma SyncFields(panes: seq<SubPane>, data: Instances, pending: Pending, i: nat)
    requires Distinct(PaneIds(panes)) && Distinct(IdsOf(data)) && i < |Synced(panes, data, pending)|
    ensures forall id :: id in IdsOf(data) ==> id in RangeMap(data)
    ensures var p := Synced(panes, data, pending)[i];
      && (forall j :: 0 <= j < |panes| && panes[j].instanceId == p.instanceId ==>
            p == Overridden(panes[j], i, pending))
      && (p.instanceId !in PaneIds(panes) ==>
            p.instanceId in IdsOf(data)
            && p == Overridden(Ranged(NewPane(p.instanceId), RangeMap(data)[p.instanceId]), i, pending))
  {
    hide RangeMap, ExistingMap, FirstPass, NewPass, IdSet, Restored, Ranged, Overridden;
    UnindexedExpected(panes, data, pending);
    var first := FirstPass(panes, data, pending);
    var made := first + NewPass(data, IdSet(first), ExistingMap(panes), pending, RangeMap(data));
    var p := Synced(panes, data, pending)[i];
    assert p == made[i].(index := i) && made[i] == Expected(made[i].instanceId, panes, data, pending);
    ExistingMapKeys(panes);
    ExistingMapLookup(panes);
    RangeMapKeys(data);
    if p.instanceId !in PaneIds(panes) {
      SyncExact(panes, data, pending);
      assert PaneIds(Synced(panes, data, pending))[i] == p.instanceId;
      var range := RangeMap(data)[p.instanceId];
      RangedId(p.instanceId, range);
      RestoredIs(Ranged(NewPane(p.instanceId), range), i, pending);
    }
    forall j | 0 <= j < |panes| && panes[j].instanceId == p.instanceId
      ensures p == Overridden(panes[j], i, pending)
    {
      RestoredIs(panes[j], i, pending);
      assert Lookup(ExistingMap(panes), panes[j].instanceId) == Some(panes[j]);
    }
  }

  /** All fields of a newcomer: those of a new pane, but its instance's price range,
      position, and pending height ratio and flag. */
  lemma NewcomerFields(panes: seq<SubPane>, data: Instances, pending: Pending, i: nat, j: nat)
    requires Distinct(PaneIds(panes)) && Distinct(IdsOf(data)) && i < |Synced(panes, data, pending)| && j < |data|
    requires data[j].0 == Synced(panes, data, pending)[i].instanceId && data[j].0 !in PaneIds(panes)
    ensures var p := Synced(panes, data, pending)[i];
      && p.index == i && p.yOffset == 0.0 && p.height == 100.0 && p.chartWidth == 0.0
      && p.priceMin == (match data[j].1 { case Some((lo, hi)) => lo case None => 0.0 })
      && p.priceMax == (match data[j].1 { case Some((lo, hi)) => hi case None => 100.0 })
      && p.autoScale && p.dragStartPriceMin == 0.0 && p.dragStartPriceMax == 0.0
      && p.heightRatio == (if pending.ratios.Some? && p.instanceId in pending.ratios.value
                           then pending.ratios.value[p.instanceId] else 0.15)
      && p.aboveMain == (pending.aboveMain.Some? && p.instanceId in pending.aboveMain.value)
      && !p.hidden && !p.maximized && p.preMaximizeHeightRatio == 0.0
  {
    hide Synced, PaneIds, RangeMap, Distinct;
    SyncFields(panes, data, pending, i);
    RangeMapKeys(data);
  }

  // ---- restoring twice

  /** What is pending has been applied to the panes. */
  predicate AllRestored(panes: seq<SubPane>, pending: Pending) {
    forall i :: 0 <= i < |panes| ==> Restored(panes[i], panes[i].instanceId, pending) == panes[i]
  }

  lemma BuiltIsRestored(id: Id, existing: Option<SubPane>, pending: Pending, ranges: map<Id, PriceRange>)
    requires existing.Some? ==> existing.value.instanceId == id
    ensures AllRestored([BuildPane(id, existing, pending, ranges)], pending)
  {
    hide Restored;
    var p := match existing { case Some(q) => q case None => Ranged(NewPane(id), if id in ranges then ranges[id] else None) };
    assert p.instanceId == id;
    assert BuildPane(id, existing, pending, ranges) == Restored(p, id, pending);
    RestoredTwice(p, id, pending);
  }

  lemma RestoredTwice(p: SubPane, id: Id, pending: Pending)
    ensures Restored(Restored(p, id, pending), id, pending) == Restored(p, id, pending)
    ensures Restored(p, id, pending).instanceId == p.instanceId
  {
  }

  lemma RestoredAppend(a: seq<SubPane>, b: seq<SubPane>, pending: Pending)
    requires AllRestored(a, pending) && AllRestored(b, pending)
    ensures AllRestored(a + b, pending)
  {
  }

  lemma {:induction false} SavedPassRestored(order: seq<Id>, panes: seq<SubPane>, pending: Pending, ranges: map<Id, PriceRange>)
    ensures AllRestored(SavedPass(order, ExistingMap(panes), pending, ranges), pending)
  {
    if order != [] {
      hide AllRestored, BuildPane, ExistingMap;
      var init, id := order[..|order| - 1], order[|order| - 1];
      SavedPassRestored(init, panes, pending, ranges);
      ExistingMapKeys(panes);
      BuiltIsRestored(id, Lookup(ExistingMap(panes), id), pending, ranges);
      var before := SavedPass(init, ExistingMap(panes), pending, ranges);
      RestoredAppend(before, [BuildPane(id, Lookup(ExistingMap(panes), id), pending, ranges)], pending);
      assert before + [] == before;
    }
  }

  lemma {:induction false} KeepPassRestored(panes: seq<SubPane>, pending: Pending, ranges: map<Id, PriceRange>)
    ensures AllRestored(KeepPass(panes, pending, ranges), pending)
  {
    if panes != [] {
      hide AllRestored, BuildPane;
      var init, p := panes[..|panes| - 1], panes[|panes| - 1];
      KeepPassRestored(init, pending, ranges);
      BuiltIsRestored(p.instanceId, Some(p), pending, ranges);
      var before := KeepPass(init, pending, ranges);
      RestoredAppend(before, [BuildPane(p.instanceId, Some(p), pending, ranges)], pending);
      assert before + [] == before;
    }
  }

  lemma {:induction false} NewPassRestored(data: Instances, used: set<Id>, panes: seq<SubPane>, pending: Pending, ranges: map<Id, PriceRange>)
    ensures AllRestored(NewPass(data, used, ExistingMap(panes), pending, ranges), pending)
  {
    if data != [] {
      hide AllRestored, BuildPane, ExistingMap;
      var init, id := data[..|data| - 1], data[|data| - 1].0;
      NewPassRestored(init, used, panes, pending, ranges);
      ExistingMapKeys(panes);
      BuiltIsRestored(id, Lookup(ExistingMap(panes), id), pending, ranges);
      var before := NewPass(init, used, ExistingMap(panes), pending, ranges);
      RestoredAppend(before, [BuildPane(id, Lookup(ExistingMap(panes), id), pending, ranges)], pending);
      assert before + [] == before;
    }
  }

  lemma IndexedRestored(panes: seq<SubPane>, pending: Pending)
    requires AllRestored(panes, pending)
    ensures AllRestored(Indexed(panes), pending)
  {
    forall i | 0 <= i < |panes|
      ensures Restored(panes[i].(index := i), panes[i].instanceId, pending) == panes[i].(index := i)
    {
      RestoredIndex(panes[i], i, pending);
    }
  }

  lemma RatioIndex(p: SubPane, id: Id, index: nat, pending: Pending)
    ensures WithRatio(p.(index := index), id, pending) == WithRatio(p, id, pending).(index := index)
  {
  }

  lemma FlagIndex(p: SubPane, id: Id, index: nat, pending: Pending)
    ensures WithFlag(p.(index := index), id, pending) == WithFlag(p, id, pending).(index := index)
  {
  }

  lemma RestoredIndex(p: SubPane, index: nat, pending: Pending)
    ensures Restored(p.(index := index), p.instanceId, pending) == Restored(p, p.instanceId, pending).(index := index)
  {
    hide WithRatio, WithFlag;
    RatioIndex(p, p.instanceId, index, pending);
    FlagIndex(WithRatio(p, p.instanceId, pending), p.instanceId, index, pending);
  }

  lemma SyncedRestored(panes: seq<SubPane>, data: Instances, pending: Pending)
    ensures AllRestored(Synced(panes, data, pending), pending)
  {
    hide AllRestored, ExistingMap, SavedPass, KeepPass, NewPass, IdSet, Indexed;
    var first := FirstPass(panes, data, pending);
    match pending.order {
      case Some(order) => SavedPassRestored(order, panes, pending, RangeMap(data));
      case None => KeepPassRestored(panes, pending, RangeMap(data));
    }
    NewPassRestored(data, IdSet(first), panes, pending, RangeMap(data));
    var second := NewPass(data, IdSet(first), ExistingMap(panes), pending, RangeMap(data));
    RestoredAppend(first, second, pending);
    IndexedRestored(first + second, pending);
  }

  // ---- nothing changes twice

  lemma {:induction false} KeepPassAll(panes: seq<SubPane>, pending: Pending, ranges: map<Id, PriceRange>)
    requires AllRestored(panes, pending) && forall i :: 0 <= i < |panes| ==> panes[i].instanceId in ranges
    ensures KeepPass(panes, pending, ranges) == panes
  {
    if panes != [] {
      hide Restored;
      KeepPassAll(panes[..|panes| - 1], pending, ranges);
      assert panes == panes[..|panes| - 1] + [panes[|panes| - 1]];
    }
  }

  lemma {:induction false} NewPassNone(data: Instances, used: set<Id>, old_: map<Id, SubPane>, pending: Pending, ranges: map<Id, PriceRange>)
    requires forall i :: 0 <= i < |data| ==> data[i].0 in used
    ensures NewPass(data, used, old_, pending, ranges) == []
  {
    if data != [] {
      NewPassNone(data[..|data| - 1], used, old_, pending, ranges);
    }
  }

  ghost predicate SameIds(panes: seq<SubPane>, data: Instances) {
    forall id :: id in PaneIds(panes) <==> id in IdsOf(data)
  }

  /** Without a pending order, panes that already are the instances, numbered by
      position and restored, stay as they are, repeated ids or not. */
  lemma SyncFixpoint(panes: seq<SubPane>, data: Instances, pending: Pending)
    requires pending.order.None? && SameIds(panes, data) && AllRestored(panes, pending)
    requires forall i :: 0 <= i < |panes| ==> panes[i].index == i
    ensures Synced(panes, data, pending) == panes
  {
    hide AllRestored, RangeMap, ExistingMap, KeepPass, NewPass, IdSet;
    RangeMapKeys(data);
    forall i | 0 <= i < |panes|
      ensures panes[i].instanceId in RangeMap(data)
    {
      assert PaneIds(panes)[i] == panes[i].instanceId;
    }
    KeepPassAll(panes, pending, RangeMap(data));
    IdSetIs(panes);
    forall i | 0 <= i < |data|
      ensures data[i].0 in IdSet(panes)
    {
      assert IdsOf(data)[i] == data[i].0;
    }
    NewPassNone(data, IdSet(panes), ExistingMap(panes), pending, RangeMap(data));
    assert panes + [] == panes;
  }

  lemma SyncedSameIds(panes: seq<SubPane>, data: Instances, pending: Pending)
    ensures SameIds(Synced(panes, data, pending), data)
  {
    hide Synced, PaneIds, IdsOf, KeepIn, KeepOut, BaseOrder;
    SyncOrder(panes, data, pending);
    KeepInMembers(BaseOrder(panes, pending), IdsOf(data));
    KeepOutMembers(IdsOf(data), KeepIn(BaseOrder(panes, pending), IdsOf(data)));
  }

  /** A second sync changes nothing, for all panes, instances and saved orders. */
  lemma SyncIdempotent(panes: seq<SubPane>, data: Instances, pending: Pending)
    ensures Synced(Synced(panes, data, pending), data, NothingPending) == Synced(panes, data, pending)
  {
    hide Synced, SameIds;
    SyncOrder(panes, data, pending);
    SyncedSameIds(panes, data, pending);
    SyncFixpoint(Synced(panes, data, pending), data, NothingPending);
  }

  // ---- the same restore twice

  /** Equal but for the index. */
  predicate Alike(p: SubPane, q: SubPane) {
    p.(index := 0) == q.(index := 0)
  }

  predicate AllAlike(a: seq<SubPane>, b: seq<SubPane>) {
    |a| == |b| && forall i :: 0 <= i < |a| ==> Alike(a[i], b[i])
  }

  lemma AlikeIndexed(a: seq<SubPane>, b: seq<SubPane>)
    requires AllAlike(a, b)
    ensures Indexed(a) == Indexed(b)
  {
    forall i | 0 <= i < |a|
      ensures a[i].(index := i) == b[i].(index := i)
    {
      assert a[i].(index := 0).(index := i) == b[i].(index := 0).(index := i);
    }
  }

  lemma AlikeAppend(a: seq<SubPane>, b: seq<SubPane>, c: seq<SubPane>, d: seq<SubPane>)
    requires AllAlike(a, b) && AllAlike(c, d)
    ensures AllAlike(a + c, b + d)
  {
  }

  /** Both maps give each instance a like pane. */
  ghost predicate LikeMaps(m: map<Id, SubPane>, n: map<Id, SubPane>, pending: Pending, ranges: map<Id, PriceRange>) {
    forall id :: id in ranges ==>
      AllAlike([BuildPane(id, Lookup(m, id), pending, ranges)], [BuildPane(id, Lookup(n, id), pending, ranges)])
  }

  lemma {:induction false} SavedPassAlike(order: seq<Id>, m: map<Id, SubPane>, n: map<Id, SubPane>, pending: Pending, ranges: map<Id, PriceRange>)
    requires LikeMaps(m, n, pending, ranges)
    ensures AllAlike(SavedPass(order, m, pending, ranges), SavedPass(order, n, pending, ranges))
  {
    if order != [] {
      hide AllAlike, BuildPane;
      var init, id := order[..|order| - 1], order[|order| - 1];
      SavedPassAlike(init, m, n, pending, ranges);
      var a, b := SavedPass(init, m, pending, ranges), SavedPass(init, n, pending, ranges);
      assert a + [] == a && b + [] == b;
      if id in ranges {
        AlikeAppend(a, b, [BuildPane(id, Lookup(m, id), pending, ranges)], [BuildPane(id, Lookup(n, id), pending, ranges)]);
      }
    }
  }

  lemma {:induction false} NewPassAlike(data: Instances, used: set<Id>, m: map<Id, SubPane>, n: map<Id, SubPane>, pending: Pending, ranges: map<Id, PriceRange>)
    requires LikeMaps(m, n, pending, ranges) && forall i :: 0 <= i < |data| ==> data[i].0 in ranges
    ensures AllAlike(NewPass(data, used, m, pending, ranges), NewPass(data, used, n, pending, ranges))
  {
    if data != [] {
      hide AllAlike, BuildPane;
      var init, id := data[..|data| - 1], data[|data| - 1].0;
      NewPassAlike(init, used, m, n, pending, ranges);
      var a, b := NewPass(init, used, m, pending, ranges), NewPass(init, used, n, pending, ranges);
      assert a + [] == a && b + [] == b;
      AlikeAppend(a, b, [BuildPane(id, Lookup(m, id), pending, ranges)], [BuildPane(id, Lookup(n, id), pending, ranges)]);
    }
  }

  lemma AlikeIds(a: seq<SubPane>, b: seq<SubPane>)
    requires AllAlike(a, b)
    ensures IdSet(a) == IdSet(b)
  {
    forall i | 0 <= i < |a|
      ensures a[i].instanceId == b[i].instanceId
    {
      assert a[i].(index := 0).instanceId == b[i].(index := 0).instanceId;
    }
    assert forall id :: id in IdSet(a) ==> id in IdSet(b);
    assert forall id :: id in IdSet(b) ==> id in IdSet(a);
  }

  /** After a sync with a saved order each instance's pane is the one it would get. */
  lemma SyncedLikeMaps(panes: seq<SubPane>, data: Instances, pending: Pending)
    requires pending.order.Some?
    ensures LikeMaps(ExistingMap(Synced(panes, data, pending)), ExistingMap(panes), pending, RangeMap(data))
  {
    hide AllRestored, RangeMap, ExistingMap, FirstPass, NewPass, IdSet, BuildPane, Restored;
    var s := Synced(panes, data, pending);
    var first := FirstPass(panes, data, pending);
    var made := first + NewPass(data, IdSet(first), ExistingMap(panes), pending, RangeMap(data));
    UnindexedExpected(panes, data, pending);
    SyncedSameIds(panes, data, pending);
    SyncedRestored(panes, data, pending);
    RangeMapKeys(data);
    ExistingMapKeys(s);
    ExistingMapMembers(s);
    forall id | id in RangeMap(data)
      ensures AllAlike([BuildPane(id, Lookup(ExistingMap(s), id), pending, RangeMap(data))],
                       [BuildPane(id, Lookup(ExistingMap(panes), id), pending, RangeMap(data))])
    {
      var p := ExistingMap(s)[id];
      var i :| 0 <= i < |s| && s[i] == p;
      assert s[i] == made[i].(index := i) && made[i] == Expected(id, panes, data, pending);
      RestoredAt(s, i, pending);
      BuildExistingPane(p, pending, RangeMap(data));
    }
  }

  lemma RestoredAt(panes: seq<SubPane>, i: nat, pending: Pending)
    requires AllRestored(panes, pending) && i < |panes|
    ensures Restored(panes[i], panes[i].instanceId, pending) == panes[i]
  {
  }

  lemma BuildExistingPane(p: SubPane, pending: Pending, ranges: map<Id, PriceRange>)
    ensures BuildPane(p.instanceId, Some(p), pending, ranges) == Restored(p, p.instanceId, pending)
  {
  }

  /** Syncing again before the pending restore is forgotten changes nothing either. */
  lemma SyncTwice(panes: seq<SubPane>, data: Instances, pending: Pending)
    ensures Synced(Synced(panes, data, pending), data, pending) == Synced(panes, data, pending)
  {
    hide AllRestored, SameIds, RangeMap, ExistingMap, SavedPass, KeepPass, NewPass, IdSet, Indexed, AllAlike, LikeMaps;
    var s, ranges := Synced(panes, data, pending), RangeMap(data);
    match pending.order {
      case None =>
        hide Synced;
        SyncOrder(panes, data, pending);
        SyncedSameIds(panes, data, pending);
        SyncedRestored(panes, data, pending);
        SyncFixpoint(s, data, pending);
      case Some(order) =>
        SyncedLikeMaps(panes, data, pending);
        var m, n := ExistingMap(s), ExistingMap(panes);
        SavedPassAlike(order, m, n, pending, ranges);
        var a, b := SavedPass(order, m, pending, ranges), SavedPass(order, n, pending, ranges);
        AlikeIds(a, b);
        RangeMapHas(data);
        NewPassAlike(data, IdSet(b), m, n, pending, ranges);
        AlikeAppend(a, b, NewPass(data, IdSet(b), m, pending, ranges), NewPass(data, IdSet(b), n, pending, ranges));
        AlikeIndexed(a + NewPass(data, IdSet(b), m, pending, ranges), b + NewPass(data, IdSet(b), n, pending, ranges));
    }
  }

  lemma RangeMapHas(data: Instances)
    ensures forall i :: 0 <= i < |data| ==> data[i].0 in RangeMap(data)
  {
    hide RangeMap;
    RangeMapKeys(data);
    assert forall i :: 0 <= i < |data| ==> IdsOf(data)[i] == data[i].0;
  }

  // ---------------------------------------------------------------------------
  // All windows
  // ---------------------------------------------------------------------------

  /** The indicator manager, as far as the panes go: the pane of each instance, the
      instances of each chart, and the price range of an instance over visible bars. */
  datatype Manager = Manager(paneOf: map<Id, nat>, byWindow: map<nat, seq<Id>>, paneRange: (Id, nat, nat) -> PriceRange)

  datatype ChartWindow = ChartWindow(id: nat, visible: (nat, nat), barCount: nat, panes: seq<SubPane>)

  /** The instances in the list that exist and live outside the main pane. */
  function InSubPanes(m: Manager, ids: seq<Id>, from: nat, to: nat): Instances {
    if ids == [] then []
    else
      var id := ids[|ids| - 1];
      InSubPanes(m, ids[..|ids| - 1], from, to)
      + if id in m.paneOf && m.paneOf[id] > 0 then [(id, m.paneRange(id, from, to))] else []
  }

  function InstancesFor(m: Manager, chart: nat, w: ChartWindow): Instances {
    InSubPanes(m, if chart in m.byWindow then m.byWindow[chart] else [], w.visible.0,
               if w.visible.1 < w.barCount then w.visible.1 else w.barCount)
  }

  method CollectInstances(m: Manager, ids: seq<Id>, from: nat, to: nat) returns (data: Instances)
    ensures data == InSubPanes(m, ids, from, to)
  {
    data := [];
    for i := 0 to |ids|
      invariant data == InSubPanes(m, ids[..i], from, to)
    {
      assert ids[..i + 1][..i] == ids[..i];
      if ids[i] in m.paneOf && m.paneOf[ids[i]] > 0 {
        data := data + [(ids[i], m.paneRange(ids[i], from, to))];
      }
    }
    assert ids[..|ids|] == ids;
  }

  /** Exactly the listed instances with a pane above zero. */
  lemma {:induction false} InSubPanesMembers(m: Manager, ids: seq<Id>, from: nat, to: nat)
    ensures forall x :: x in InSubPanes(m, ids, from, to) <==>
              x.0 in ids && x.0 in m.paneOf && m.paneOf[x.0] > 0 && x.1 == m.paneRange(x.0, from, to)
  {
    if ids != [] {
      InSubPanesMembers(m, ids[..|ids| - 1], from, to);
      assert ids == ids[..|ids| - 1] + [ids[|ids| - 1]];
    }
  }

  type Ratios = map<nat, map<Id, real>>
  type AboveMain = map<nat, set<Id>>
  type Orders = map<nat, seq<Id>>

  function PendingIn(ratios: Ratios, above: AboveMain, order: Orders, window: nat): Pending {
    Pending(if window in ratios then Some(ratios[window]) else None,
            if window in above then Some(above[window]) else None,
            if window in order then Some(order[window]) else None)
  }

  /** The window of a chart after a sync. */
  function ResyncedWindow(m: Manager, chart: nat, w: ChartWindow, pending: Pending): ChartWindow {
    w.(panes := Synced(w.panes, InstancesFor(m, chart, w), pending))
  }

  lemma ResyncedTwice(m: Manager, chart: nat, w: ChartWindow, pending: Pending)
    ensures var v := ResyncedWindow(m, chart, w, pending);
      v.id == w.id && ResyncedWindow(m, chart, v, pending) == v
  {
    hide Synced, InSubPanes;
    SyncTwice(w.panes, InstancesFor(m, chart, w), pending);
  }

  /** In the order of the list. */
  lemma {:induction false} InSubPanesAppend(m: Manager, a: seq<Id>, b: seq<Id>, from: nat, to: nat)
    ensures InSubPanes(m, a + b, from, to) == InSubPanes(m, a, from, to) + InSubPanes(m, b, from, to)
  {
    if b == [] {
      assert a + b == a;
    } else {
      InSubPanesAppend(m, a, b[..|b| - 1], from, to);
      assert (a + b)[..|a + b| - 1] == a + b[..|b| - 1];
    }
  }

  /** The instances of a window are those listed for its chart, with their price ranges
      over the visible bars that exist. */
  lemma WindowInstances(m: Manager, chart: nat, w: ChartWindow, to: nat)
    requires to <= w.visible.1 && to <= w.barCount && (to == w.visible.1 || to == w.barCount)
    ensures forall x :: x in InstancesFor(m, chart, w) <==>
              && chart in m.byWindow && x.0 in m.byWindow[chart] && x.0 in m.paneOf && m.paneOf[x.0] > 0
              && x.1 == m.paneRange(x.0, w.visible.0, to)
  {
    hide InSubPanes;
    InSubPanesMembers(m, if chart in m.byWindow then m.byWindow[chart] else [], w.visible.0, to);
  }

  /** What a window's own pending entries do to its panes. */
  lemma PendingApplied(m: Manager, ratios: Ratios, above: AboveMain, order: Orders, chart: nat, w: ChartWindow, i: nat)
    requires i < |ResyncedWindow(m, chart, w, PendingIn(ratios, above, order, w.id)).panes|
    ensures var v := ResyncedWindow(m, chart, w, PendingIn(ratios, above, order, w.id));
      var p := v.panes[i];
      && v.id == w.id && v.visible == w.visible && v.barCount == w.barCount
      && (w.id in ratios && p.instanceId in ratios[w.id] ==> p.heightRatio == ratios[w.id][p.instanceId])
      && (w.id in above ==> (p.aboveMain <==> p.instanceId in above[w.id]))
    ensures w.id in order ==>
              PaneIds(ResyncedWindow(m, chart, w, PendingIn(ratios, above, order, w.id)).panes)
              == KeepIn(order[w.id], IdsOf(InstancesFor(m, chart, w)))
                 + KeepOut(IdsOf(InstancesFor(m, chart, w)), KeepIn(order[w.id], IdsOf(InstancesFor(m, chart, w))))
  {
    hide Synced, InSubPanes, KeepIn, KeepOut, PaneIds, IdsOf, AllRestored, Restored;
    var pending := PendingIn(ratios, above, order, w.id);
    var data := InstancesFor(m, chart, w);
    SyncOrder(w.panes, data, pending);
    SyncedRestored(w.panes, data, pending);
    RestoredAt(Synced(w.panes, data, pending), i, pending);
    RestoredShows(Synced(w.panes, data, pending)[i], pending);
  }

  lemma RestoredShows(p: SubPane, pending: Pending)
    requires Restored(p, p.instanceId, pending) == p
    ensures pending.ratios.Some? && p.instanceId in pending.ratios.value ==> p.heightRatio == pending.ratios.value[p.instanceId]
    ensures pending.aboveMain.Some? ==> (p.aboveMain <==> p.instanceId in pending.aboveMain.value)
  {
  }

  /** Keeping and leaving out go through a list in order. */
  lemma {:induction false} KeepInAppend(a: seq<Id>, b: seq<Id>, keys: seq<Id>)
    ensures KeepIn(a + b, keys) == KeepIn(a, keys) + KeepIn(b, keys)
  {
    if b == [] {
      assert a + b == a;
    } else {
      var init, last := b[..|b| - 1], b[|b| - 1];
      KeepInAppend(a, init, keys);
      KeepInOne(a + init, last, keys);
      KeepInOne(init, last, keys);
      assert a + b == (a + init) + [last] && b == init + [last];
    }
  }

  lemma KeepInOne(s: seq<Id>, id: Id, keys: seq<Id>)
    ensures KeepIn(s + [id], keys) == KeepIn(s, keys) + if id in keys then [id] else []
  {
    assert (s + [id])[..|s|] == s;
  }

  lemma {:induction false} KeepOutAppend(a: seq<Id>, b: seq<Id>, keys: seq<Id>)
    ensures KeepOut(a + b, keys) == KeepOut(a, keys) + KeepOut(b, keys)
  {
    if b == [] {
      assert a + b == a;
    } else {
      var init, last := b[..|b| - 1], b[|b| - 1];
      KeepOutAppend(a, init, keys);
      KeepOutOne(a + init, last, keys);
      KeepOutOne(init, last, keys);
      assert a + b == (a + init) + [last] && b == init + [last];
    }
  }

  lemma KeepOutOne(s: seq<Id>, id: Id, keys: seq<Id>)
    ensures KeepOut(s + [id], keys) == KeepOut(s, keys) + if id in keys then [] else [id]
  {
    assert (s + [id])[..|s|] == s;
  }

  /** The part of the chart application this concerns: which chart each leaf shows, the
      charts' windows, and what a preset left to be restored, by window. */
  class PaneHost {
    const manager: Manager
    var chartOf: map<nat, nat>
    var windows: map<nat, ChartWindow>
    var pendingRatios: map<nat, map<Id, real>>
    var pendingAboveMain: map<nat, set<Id>>
    var pendingOrder: map<nat, seq<Id>>

    function PendingFor(window: nat): Pending
      reads this
    {
      PendingIn(pendingRatios, pendingAboveMain, pendingOrder, window)
    }

    /** The window of a chart after a sync. */
    function SyncedWindow(chart: nat): ChartWindow
      reads this
      requires chart in windows
    {
      ResyncedWindow(manager, chart, windows[chart], PendingFor(windows[chart].id))
    }

    /** Synchronise the window of one chart, with what is pending for it. */
    method SyncChart(chart: nat)
      requires chart in windows
      modifies this`windows
      ensures windows == old(windows)[chart := old(SyncedWindow(chart))]
    {
      hide Synced, InSubPanes;
      var w := windows[chart];
      var ids := if chart in manager.byWindow then manager.byWindow[chart] else [];
      var to := if w.visible.1 < w.barCount then w.visible.1 else w.barCount;
      var data := CollectInstances(manager, ids, w.visible.0, to);
      var panes := SyncWindow(w.panes, data, PendingFor(w.id));
      windows := windows[chart := w.(panes := panes)];
    }

    /** Synchronise the window of every leaf, in whatever order the leaves come, then
        forget what was pending. Two leaves may show one chart; a leaf whose chart has
        no window is skipped. */
    method SyncSubPanesFromManager()
      modifies this
      ensures chartOf == old(chartOf) && windows.Keys == old(windows).Keys
      ensures forall chart :: chart in windows ==>
                windows[chart] == if chart in chartOf.Values then old(SyncedWindow(chart)) else old(windows)[chart]
      ensures forall w :: PendingFor(w) == NothingPending
    {
      hide ResyncedWindow;
      ghost var ratios, above, order := pendingRatios, pendingAboveMain, pendingOrder;
      var leaves := chartOf.Keys;
      ghost var done: set<nat> := {};
      while leaves != {}
        invariant leaves <= chartOf.Keys && chartOf == old(chartOf)
        invariant pendingRatios == ratios && pendingAboveMain == above && pendingOrder == order
        invariant forall leaf :: leaf in chartOf && leaf !in leaves ==> chartOf[leaf] in done
        invariant done <= chartOf.Values
        invariant SyncedIn(manager, old(windows), windows, done, ratios, above, order)
        decreases |leaves|
      {
        var leaf :| leaf in leaves;
        var chart := chartOf[leaf];
        ghost var before := windows;
        if chart in windows {
          SyncChart(chart);
        }
        SyncedInMore(manager, old(windows), before, done, ratios, above, order, chart);
        leaves := leaves - {leaf};
        done := done + {chart};
      }
      pendingRatios := map[];
      pendingAboveMain := map[];
      pendingOrder := map[];
    }
  }

  /** The windows of the charts in `done` have been synchronised, the others not. */
  ghost predicate SyncedIn(m: Manager, was: map<nat, ChartWindow>, now: map<nat, ChartWindow>, done: set<nat>,
                           ratios: Ratios, above: AboveMain, order: Orders)
  {
    && now.Keys == was.Keys
    && forall chart :: chart in now ==>
         now[chart] == if chart in done then ResyncedWindow(m, chart, was[chart], PendingIn(ratios, above, order, was[chart].id))
                       else was[chart]
  }

  lemma SyncedInMore(m: Manager, was: map<nat, ChartWindow>, now: map<nat, ChartWindow>, done: set<nat>,
                     ratios: Ratios, above: AboveMain, order: Orders, chart: nat)
    requires SyncedIn(m, was, now, done, ratios, above, order)
    ensures var next := if chart in now
                        then now[chart := ResyncedWindow(m, chart, now[chart], PendingIn(ratios, above, order, now[chart].id))]
                        else now;
      SyncedIn(m, was, next, done + {chart}, ratios, above, order)
  {
    hide ResyncedWindow, PendingIn;
    if chart in now {
      ResyncedTwice(m, chart, was[chart], PendingIn(ratios, above, order, was[chart].id));
    }
  }
}
