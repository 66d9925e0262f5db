/** Runs of the alert manager: distinct ids, how often an alert may fire, and that
    one alert's history depends on nothing but the events of its own window. */
module AlertRuns {
  import opened Picking
  import opened Bars
  import opened Alerts
  import Strings

  /** Ids are distinct and below the next id to be given out. */
  ghost predicate IdsOk(s: State) {
    && Distinct(s.items)
    && forall i :: 0 <= i < |s.items| ==> s.items[i].id < s.nextId
  }

  ghost predicate Distinct(items: seq<AlertItem>) {
    forall i, j :: 0 <= i < j < |items| ==> items[i].id != items[j].id
  }

  function Run(s: State, ops: seq<Op>): State {
    if ops == [] then s else Step(Run(s, ops[..|ops| - 1]), ops[|ops| - 1]).0
  }

  /** For each call of a run, whether it reported the alert as fired. */
  function Log(s: State, ops: seq<Op>, id: nat): (log: seq<bool>)
    ensures |log| == |ops|
  {
    if ops == [] then []
    else
      var n := |ops| - 1;
      Log(s, ops[..n], id) + [id in Step(Run(s, ops[..n]), ops[n]).1]
  }

  function Trues(log: seq<bool>): nat {
    if log == [] then 0 else Trues(log[..|log| - 1]) + if log[|log| - 1] then 1 else 0
  }

  // ---------------------------------------------------------------------------
  // What the loops do, item by item
  // ---------------------------------------------------------------------------

  lemma {:induction false} TickItemsAt(items: seq<AlertItem>, tick: Tick, prev: real)
    ensures var (done, ids) := TickItems(items, tick, prev);
      && |done| == |items|
      && (forall i :: 0 <= i < |items| ==> done[i] == TickItem(items[i], tick, prev).0)
      && (forall id :: id in ids <==> exists i :: 0 <= i < |items| && items[i].id == id && TickItem(items[i], tick, prev).1)
  {
    hide TickItem;
    if items != [] {
      var n := |items| - 1;
      TickItemsAt(items[..n], tick, prev);
      var (done, ids) := TickItems(items, tick, prev);
      var (done', ids') := TickItems(items[..n], tick, prev);
      forall id
        ensures id in ids <==> exists i :: 0 <= i < |items| && items[i].id == id && TickItem(items[i], tick, prev).1
      {
        if i :| 0 <= i < |items| && items[i].id == id && TickItem(items[i], tick, prev).1 {
          if i < n {
            assert items[..n][i].id == id && TickItem(items[..n][i], tick, prev).1;
          }
        }
        if id in ids' {
          var i :| 0 <= i < n && items[..n][i].id == id && TickItem(items[..n][i], tick, prev).1;
          assert items[i].id == id && TickItem(items[i], tick, prev).1;
        }
      }
    }
  }

  lemma {:induction false} SignalItemsAt(items: seq<AlertItem>, window: Window, batch: seq<SignalEvent>)
    ensures var (done, ids) := SignalItems(items, window, batch);
      && |done| == |items|
      && (forall i :: 0 <= i < |items| ==> done[i] == SignalItem(items[i], window, batch).0)
      && (forall id :: id in ids <==> exists i :: 0 <= i < |items| && items[i].id == id && SignalItem(items[i], window, batch).1)
  {
    hide SignalItem;
    if items != [] {
      var n := |items| - 1;
      SignalItemsAt(items[..n], window, batch);
      var (done, ids) := SignalItems(items, window, batch);
      var (done', ids') := SignalItems(items[..n], window, batch);
      forall id
        ensures id in ids <==> exists i :: 0 <= i < |items| && items[i].id == id && SignalItem(items[i], window, batch).1
      {
        if i :| 0 <= i < |items| && items[i].id == id && SignalItem(items[i], window, batch).1 {
          if i < n {
            assert items[..n][i].id == id && SignalItem(items[..n][i], window, batch).1;
          }
        }
        if id in ids' {
          var i :| 0 <= i < n && items[..n][i].id == id && SignalItem(items[..n][i], window, batch).1;
          assert items[i].id == id && SignalItem(items[i], window, batch).1;
        }
      }
    }
  }

  lemma {:induction false} KeepMembers(items: seq<AlertItem>, p: AlertItem -> bool)
    ensures forall a :: a in Keep(items, p) <==> a in items && p(a)
    ensures Distinct(items) ==> Distinct(Keep(items, p))
  {
    if items != [] {
      var n := |items| - 1;
      KeepMembers(items[..n], p);
      assert items == items[..n] + [items[n]];
      var kept := Keep(items[..n], p);
      if Distinct(items) {
        assert Distinct(items[..n]);
        forall i | 0 <= i < |kept|
          ensures kept[i].id != items[n].id
        {
          assert kept[i] in items[..n];
        }
      }
    }
  }

  lemma {:induction false} EditMembers(items: seq<AlertItem>, id: nat, f: AlertItem -> AlertItem)
    requires forall a :: f(a).id == a.id
    ensures |Edit(items, id, f)| == |items|
    ensures forall i :: 0 <= i < |items| ==> Edit(items, id, f)[i].id == items[i].id
    ensures forall i :: 0 <= i < |items| && items[i].id != id ==> Edit(items, id, f)[i] == items[i]
    ensures Distinct(items) ==> forall i :: 0 <= i < |items| && items[i].id == id ==> Edit(items, id, f)[i] == f(items[i])
  {
    if items != [] && items[0].id != id {
      EditMembers(items[1..], id, f);
    }
  }

  // ---------------------------------------------------------------------------
  // Ids
  // ---------------------------------------------------------------------------

  lemma TickKeepsIds(a: AlertItem, tick: Tick, prev: real)
    ensures TickItem(a, tick, prev).0.id == a.id
  {
  }

  lemma SignalKeepsIds(a: AlertItem, window: Window, batch: seq<SignalEvent>)
    ensures SignalItem(a, window, batch).0.id == a.id
  {
  }

  /** Ids stay distinct and below `nextId` through every call; a restored list must
      itself be distinct. */
  lemma StepKeepsIds(s: State, op: Op)
    requires IdsOk(s) && (op.RestoreOp? ==> Distinct(op.alerts))
    ensures IdsOk(Step(s, op).0)
  {
    hide TickItem, SignalItem, TickItems, SignalItems, Keep, Edit;
    match op
    case CreateOp(_, _, _, _) =>
    case UpdateOp(id, name, price, condition) => EditMembers(s.items, id, NewCore(name, price, condition));
    case UpdateFullOp(id, source, name, price, price2, percentage, condition, mode, transports) =>
      EditMembers(s.items, id, NewFields(source, name, price, price2, percentage, condition, mode, transports));
    case RemoveOp(id) => KeepIds(s, NotId(id));
    case RemoveForDrawingOp(id) => KeepIds(s, NotOnDrawing(id));
    case RemoveForIndicatorOp(id) => KeepIds(s, NotOnIndicator(id));
    case ClearOp =>
    case RestoreOp(_) =>
    case TickOp(tick) =>
      var prev := LastPrice(s.lastPrices, WindowKey(tick.window));
      TickItemsAt(s.items, tick, prev);
      forall i | 0 <= i < |s.items|
        ensures TickItem(s.items[i], tick, prev).0.id == s.items[i].id
      {
        TickKeepsIds(s.items[i], tick, prev);
      }
    case SignalOp(window, batch) =>
      SignalItemsAt(s.items, window, batch);
      forall i | 0 <= i < |s.items|
        ensures SignalItem(s.items[i], window, batch).0.id == s.items[i].id
      {
        SignalKeepsIds(s.items[i], window, batch);
      }
  }

  lemma KeepIds(s: State, p: AlertItem -> bool)
    requires IdsOk(s)
    ensures IdsOk(s.(items := Keep(s.items, p)))
  {
    KeepMembers(s.items, p);
    var kept := Keep(s.items, p);
    forall i | 0 <= i < |kept|
      ensures kept[i].id < s.nextId
    {
      assert kept[i] in s.items;
    }
  }

  ghost predicate DistinctRestores(ops: seq<Op>) {
    forall i :: 0 <= i < |ops| && ops[i].RestoreOp? ==> Distinct(ops[i].alerts)
  }

  lemma {:induction false} RunKeepsIds(s: State, ops: seq<Op>)
    requires IdsOk(s) && DistinctRestores(ops)
    ensures IdsOk(Run(s, ops))
  {
    if ops != [] {
      RunKeepsIds(s, ops[..|ops| - 1]);
      StepKeepsIds(Run(s, ops[..|ops| - 1]), ops[|ops| - 1]);
    }
  }

  /** Restoring a snapshot taken earlier in any run is always safe. */
  lemma OwnSnapshotRestores(s: State, ops: seq<Op>, now: State)
    requires IdsOk(s) && DistinctRestores(ops)
    ensures IdsOk(Step(now, RestoreOp(Run(s, ops).items)).0)
  {
    RunKeepsIds(s, ops);
  }

  // ---------------------------------------------------------------------------
  // One call, seen by one alert
  // ---------------------------------------------------------------------------

  /** The call may edit or drop this alert. */
  predicate Touches(op: Op, a: AlertItem) {
    match op
    case UpdateOp(id, _, _, _) => id == a.id
    case UpdateFullOp(id, _, _, _, _, _, _, _, _) => id == a.id
    case RemoveOp(id) => id == a.id
    case RemoveForDrawingOp(id) => AttachedToDrawing(a, id)
    case RemoveForIndicatorOp(id) => AttachedToIndicator(a, id)
    case ClearOp => true
    case RestoreOp(_) => true
    case _ => false
  }

  ghost predicate Unedited(ops: seq<Op>, a: AlertItem) {
    forall i :: 0 <= i < |ops| ==> !Touches(ops[i], a)
  }

  function ItemStep(a: AlertItem, lastPrices: map<string, real>, op: Op): (AlertItem, bool) {
    match op
    case TickOp(tick) => TickItem(a, tick, LastPrice(lastPrices, WindowKey(tick.window)))
    case SignalOp(window, batch) => SignalItem(a, window, batch)
    case _ => (a, false)
  }

  /** A call that does not touch an alert acts on it alone: the other alerts in the
      list make no difference. */
  lemma StepOnItem(s: State, op: Op, a: AlertItem)
    requires IdsOk(s) && a in s.items && !Touches(op, a)
    ensures var (b, fired) := ItemStep(a, s.lastPrices, op);
      && b in Step(s, op).0.items && b.id == a.id
      && (a.id in Step(s, op).1 <==> fired)
  {
    hide TickItem, SignalItem, TickItems, SignalItems, Keep, Edit;
    var i :| 0 <= i < |s.items| && s.items[i] == a;
    match op
    case CreateOp(_, _, _, _) =>
    case UpdateOp(id, name, price, condition) => EditMembers(s.items, id, NewCore(name, price, condition));
    case UpdateFullOp(id, source, name, price, price2, percentage, condition, mode, transports) =>
      EditMembers(s.items, id, NewFields(source, name, price, price2, percentage, condition, mode, transports));
    case RemoveOp(id) => KeepMembers(s.items, NotId(id));
    case RemoveForDrawingOp(id) => KeepMembers(s.items, NotOnDrawing(id));
    case RemoveForIndicatorOp(id) => KeepMembers(s.items, NotOnIndicator(id));
    case TickOp(tick) =>
      TickItemsAt(s.items, tick, LastPrice(s.lastPrices, WindowKey(tick.window)));
      TickKeepsIds(a, tick, LastPrice(s.lastPrices, WindowKey(tick.window)));
    case SignalOp(window, batch) =>
      SignalItemsAt(s.items, window, batch);
      SignalKeepsIds(a, window, batch);
  }

  /** What an edit makes of an alert; other calls leave its settings alone. */
  function Edited(a: AlertItem, op: Op): AlertItem {
    match op
    case UpdateOp(id, name, price, condition) =>
      if id == a.id then NewCore(name, price, condition)(a) else a
    case UpdateFullOp(id, source, name, price, price2, percentage, condition, mode, transports) =>
      if id == a.id then NewFields(source, name, price, price2, percentage, condition, mode, transports)(a) else a
    case _ => a
  }

  /** An edit reaches its alert, fires nothing and leaves the last prices alone. */
  lemma EditOnItem(s: State, op: Op, a: AlertItem)
    requires IdsOk(s) && a in s.items && (op.UpdateOp? || op.UpdateFullOp?)
    ensures Edited(a, op) in Step(s, op).0.items && Edited(a, op).id == a.id
    ensures Step(s, op).1 == [] && Step(s, op).0.lastPrices == s.lastPrices
  {
    hide Edit;
    var i :| 0 <= i < |s.items| && s.items[i] == a;
    match op
    case UpdateOp(id, name, price, condition) => EditMembers(s.items, id, NewCore(name, price, condition));
    case UpdateFullOp(id, source, name, price, price2, percentage, condition, mode, transports) =>
      EditMembers(s.items, id, NewFields(source, name, price, price2, percentage, condition, mode, transports));
  }

  lemma UneditedRestores(ops: seq<Op>, a: AlertItem)
    requires Unedited(ops, a)
    ensures DistinctRestores(ops)
  {
  }

  // ---------------------------------------------------------------------------
  // What each call does, in its own terms
  // ---------------------------------------------------------------------------

  /** The event is of the alert's indicator, of the direction and kind it asks for, and
      formed if it asks for that. */
  predicate Wanted(source: AlertSource, e: SignalEvent)
    requires source.Signal?
  {
    && e.indicatorId == source.indicatorId
    && (source.directionFilter == Bullish ==> e.direction > 0)
    && (source.directionFilter == Bearish ==> e.direction < 0)
    && (source.barState == Formed ==> e.confirmation >= 1)
    && (source.kindFilter == None || source.kindFilter == Some(e.kind))
  }

  /** An alert is reported by a signal batch exactly when it is an active signal alert of
      the window and some event of the batch is wanted. */
  lemma SignalReported(s: State, a: AlertItem, window: Window, batch: seq<SignalEvent>)
    requires IdsOk(s) && a in s.items
    ensures a.id in Step(s, SignalOp(window, batch)).1 <==>
              && a.status == Active && a.source.Signal? && a.MatchesWindow(window)
              && exists i :: 0 <= i < |batch| && Wanted(a.source, batch[i])
  {
    hide Step, IdsOk;
    StepOnItem(s, SignalOp(window, batch), a);
    if a.source.Signal? {
      assert forall i :: 0 <= i < |batch| ==> (SignalMatches(a, batch[i]) <==> Wanted(a.source, batch[i]));
    }
  }

  /** What a firing leaves on an alert: its stamp and count; a tick also leaves the level
      whether or not the alert fired; all else stays but the status. */
  lemma FiringLeaves(a: AlertItem, tick: Tick, prev: real, window: Window, batch: seq<SignalEvent>)
    ensures var (b, fired) := TickItem(a, tick, prev);
      && b == a.(triggerCount := b.triggerCount, status := b.status, lastTriggered := b.lastTriggered,
                 prevDynamicPrice := b.prevDynamicPrice)
      && b.lastTriggered == (if fired then Some("just now") else a.lastTriggered)
      && b.triggerCount == (if fired then a.triggerCount + 1 else a.triggerCount)
    ensures var (b, fired) := SignalItem(a, window, batch);
      && b == a.(triggerCount := b.triggerCount, status := b.status, lastTriggered := b.lastTriggered)
      && b.lastTriggered == (if fired then Some("just now") else a.lastTriggered)
      && b.triggerCount == (if fired then a.triggerCount + 1 else a.triggerCount)
  {
    hide Level, Fires, SignalMatches;
  }

  /** Which alerts are not dropped. */
  function Staying(items: seq<AlertItem>, drop: AlertItem -> bool): (r: seq<bool>)
    ensures |r| == |items|
  {
    seq(|items|, i requires 0 <= i < |items| => !drop(items[i]))
  }

  lemma {:induction false} KeepPicks(items: seq<AlertItem>, p: AlertItem -> bool, drop: AlertItem -> bool) returns (idx: seq<nat>)
    requires forall a :: p(a) <==> !drop(a)
    ensures Picks(items, Keep(items, p), idx, Staying(items, drop))
  {
    if items == [] {
      idx := [];
    } else {
      hide Picks;
      var init, last := items[..|items| - 1], items[|items| - 1];
      assert items == init + [last];
      idx := KeepPicks(init, p, drop);
      PickNext(init, Keep(init, p), idx, Staying(init, drop), last, p(last));
      assert Staying(items, drop) == Staying(init, drop) + [p(last)];
      assert Keep(init, p) + [] == Keep(init, p);
      if p(last) {
        idx := idx + [|init|];
      }
    }
  }

  predicate OnDrawing(a: AlertItem, id: nat) {
    match a.source
    case Drawing(primitiveId, _) => primitiveId == id
    case _ => false
  }

  predicate OnIndicator(a: AlertItem, id: nat) {
    match a.source
    case Indicator(indicatorId, _, _) => indicatorId == id
    case Signal(indicatorId, _, _, _, _) => indicatorId == id
    case _ => false
  }

  /** The removals: which alerts go, and that the others stay as they are, in order. */
  lemma Removals(s: State, id: nat) returns (one: seq<nat>, drawn: seq<nat>, indicated: seq<nat>)
    ensures Picks(s.items, Step(s, RemoveOp(id)).0.items, one, Staying(s.items, (a: AlertItem) => a.id == id))
    ensures Picks(s.items, Step(s, RemoveForDrawingOp(id)).0.items, drawn,
                  Staying(s.items, (a: AlertItem) => OnDrawing(a, id)))
    ensures Picks(s.items, Step(s, RemoveForIndicatorOp(id)).0.items, indicated,
                  Staying(s.items, (a: AlertItem) => OnIndicator(a, id)))
    ensures forall op :: op in {RemoveOp(id), RemoveForDrawingOp(id), RemoveForIndicatorOp(id)} ==>
              Step(s, op).0.nextId == s.nextId && Step(s, op).0.lastPrices == s.lastPrices && Step(s, op).1 == []
  {
    hide Keep, Picks, Staying;
    one := KeepPicks(s.items, NotId(id), (a: AlertItem) => a.id == id);
    drawn := KeepPicks(s.items, NotOnDrawing(id), (a: AlertItem) => OnDrawing(a, id));
    indicated := KeepPicks(s.items, NotOnIndicator(id), (a: AlertItem) => OnIndicator(a, id));
  }

  /** A created alert is the last of the list, with the next id: active, for one firing,
      shown as a popup, not fired, with no level remembered. */
  lemma Created(s: State, source: AlertSource, name: string, price: real, condition: AlertCondition)
    ensures var t := Step(s, CreateOp(source, name, price, condition)).0;
      && |t.items| == |s.items| + 1 && t.items[..|s.items|] == s.items && t.nextId == s.nextId + 1 && t.lastPrices == s.lastPrices
      && var a := t.items[|s.items|];
         && a.id == s.nextId && a.source == source && a.name == name && a.price == price && a.condition == condition
         && a.status == Active && a.triggerMode == OneShot && a.transports == [Popup] && a.triggerCount == 0
         && a.lastTriggered == None && a.prevDynamicPrice == 0.0 && a.price2 == 0.0 && a.percentage == 0.0
         && a.legacySymbol == "" && a.exchange == "" && a.accountType == "S"
  {
  }

  /** After a clear or a restore no price is remembered, so no crossing is reported by
      the next tick of any window. */
  lemma ForgottenPrices(s: State, op: Op, tick: Tick, a: AlertItem)
    requires (op.ClearOp? || (op.RestoreOp? && Distinct(op.alerts))) && a in Step(s, op).0.items
    requires a.condition.CrossingUp? || a.condition.CrossingDown? || a.condition.Crossing?
    ensures !a.source.Signal? ==> a.id !in Step(Step(s, op).0, TickOp(tick)).1
  {
    hide Level, WindowKey;
    var t := Step(s, op).0;
    assert IdsOk(t);
    hide Step, IdsOk;
    StepOnItem(t, TickOp(tick), a);
  }

  lemma {:induction false} RunConcat(s: State, a: seq<Op>, b: seq<Op>)
    ensures Run(s, a + b) == Run(Run(s, a), b)
  {
    if b == [] {
      assert a + b == a;
    } else {
      hide Step;
      RunConcat(s, a, b[..|b| - 1]);
      assert (a + b)[..|a + b| - 1] == a + b[..|b| - 1];
    }
  }

  /** A cleared manager goes on like a new one, and its first alert has id 1. */
  lemma ClearedIsNew(s: State, ops: seq<Op>)
    ensures Run(s, [ClearOp] + ops) == Run(State([], 1, map[]), ops)
  {
    RunConcat(s, [ClearOp], ops);
    RunSingle(s, ClearOp);
    hide Run;
  }

  lemma RunSingle(s: State, op: Op)
    ensures Run(s, [op]) == Step(s, op).0
  {
    hide Step;
    assert [op][..0] == [];
  }

  /** A restored manager depends on the list alone, and gives the id after the largest. */
  lemma RestoredIsList(s: State, t: State, alerts: seq<AlertItem>, ops: seq<Op>)
    ensures Run(s, [RestoreOp(alerts)] + ops) == Run(t, [RestoreOp(alerts)] + ops)
    ensures var r := Step(s, RestoreOp(alerts)).0;
      && r.items == alerts && (forall i :: 0 <= i < |alerts| ==> alerts[i].id < r.nextId)
      && (r.nextId == 1 || exists i :: 0 <= i < |alerts| && alerts[i].id + 1 == r.nextId)
  {
    RunConcat(s, [RestoreOp(alerts)], ops);
    RunConcat(t, [RestoreOp(alerts)], ops);
    RunSingle(s, RestoreOp(alerts));
    RunSingle(t, RestoreOp(alerts));
    hide Run;
    MaxIdAttained(alerts);
  }

  lemma {:induction false} MaxIdAttained(items: seq<AlertItem>)
    ensures MaxId(items) == 0 || exists i :: 0 <= i < |items| && items[i].id == MaxId(items)
  {
    if items != [] {
      var n := |items| - 1;
      MaxIdAttained(items[..n]);
      if items[n].id <= MaxId(items[..n]) && MaxId(items[..n]) != 0 {
        var i :| 0 <= i < n && items[..n][i].id == MaxId(items[..n]);
        assert items[i].id == MaxId(items);
      } else {
        assert items[n].id == MaxId(items) || MaxId(items) == 0;
      }
    }
  }

  /** What the two edits set on the first alert with the id, and what they leave. */
  lemma EditSets(s: State, op: Op, i: nat)
    requires IdsOk(s) && i < |s.items| && (op.UpdateOp? || op.UpdateFullOp?)
    ensures var t := Step(s, op).0;
      && |t.items| == |s.items| && t.nextId == s.nextId
      && var a, b := s.items[i], t.items[i];
         && b.id == a.id && b.triggerCount == a.triggerCount && b.status == a.status && b.lastTriggered == a.lastTriggered
         && b.prevDynamicPrice == a.prevDynamicPrice && b.legacySymbol == a.legacySymbol && b.exchange == a.exchange
         && b.accountType == a.accountType
         && (a.id != op.id ==> b == a)
         && (a.id == op.id ==> b.name == op.name && b.price == op.price && b.condition == op.condition)
         && (a.id == op.id && op.UpdateOp? ==>
               b.source == a.source && b.price2 == a.price2 && b.percentage == a.percentage
               && b.triggerMode == a.triggerMode && b.transports == a.transports)
         && (a.id == op.id && op.UpdateFullOp? ==>
               b.source == op.source && b.price2 == op.price2 && b.percentage == op.percentage
               && b.triggerMode == op.triggerMode && b.transports == op.transports)
  {
    hide Edit;
    match op
    case UpdateOp(id, name, price, condition) => EditMembers(s.items, id, NewCore(name, price, condition));
    case UpdateFullOp(id, source, name, price, price2, percentage, condition, mode, transports) =>
      EditMembers(s.items, id, NewFields(source, name, price, price2, percentage, condition, mode, transports));
  }

  // ---------------------------------------------------------------------------
  // Trigger accounting
  // ---------------------------------------------------------------------------

  /** Whether an alert that started with `count` is still active after `n` firings. */
  predicate Live(mode: AlertTriggerMode, count: nat, n: nat) {
    match mode
    case OneShot => n == 0
    case TimesN(limit) => n == 0 || count + n < limit
    case _ => true
  }

  /** `b` is `a` after `n` firings: nothing but the counters and the remembered level
      can differ. */
  predicate AfterFirings(a: AlertItem, b: AlertItem, n: nat) {
    b == a.(triggerCount := a.triggerCount + n,
            status := if Live(a.triggerMode, a.triggerCount, n) then Active else Triggered,
            lastTriggered := b.lastTriggered, prevDynamicPrice := b.prevDynamicPrice)
  }

  lemma FiringStep(a: AlertItem, b: AlertItem, n: nat, lastPrices: map<string, real>, op: Op)
    requires a.status == Active && AfterFirings(a, b, n)
    ensures var (c, fired) := ItemStep(b, lastPrices, op);
      && AfterFirings(a, c, if fired then n + 1 else n)
      && (fired ==> Live(a.triggerMode, a.triggerCount, n))
  {
    hide Level, Fires, SignalMatches;
  }

  /** Over both checkers and any calls that do not edit the alert: its count is the
      number of its firings, and it is active exactly as long as its mode allows. */
  lemma {:induction false} TriggerAccounting(s: State, ops: seq<Op>, a: AlertItem) returns (b: AlertItem)
    requires IdsOk(s) && a in s.items && a.status == Active && Unedited(ops, a)
    ensures IdsOk(Run(s, ops)) && b in Run(s, ops).items && b.id == a.id
    ensures AfterFirings(a, b, Trues(Log(s, ops, a.id)))
    ensures Trues(Log(s, ops, a.id)) > 0 ==> Live(a.triggerMode, a.triggerCount, Trues(Log(s, ops, a.id)) - 1)
  {
    hide AfterFirings, Live, Step, ItemStep, Touches, IdsOk;
    UneditedRestores(ops, a);
    RunKeepsIds(s, ops);
    if ops == [] {
      b := a;
      NoFirings(a);
    } else {
      var n := |ops| - 1;
      var before := Run(s, ops[..n]);
      var c := TriggerAccounting(s, ops[..n], a);
      RunKeepsIds(s, ops[..n]);
      TouchesSame(ops[n], a, c, Trues(Log(s, ops[..n], a.id)));
      StepOnItem(before, ops[n], c);
      FiringStep(a, c, Trues(Log(s, ops[..n], a.id)), before.lastPrices, ops[n]);
      b := ItemStep(c, before.lastPrices, ops[n]).0;
      assert Log(s, ops, a.id)[..n] == Log(s, ops[..n], a.id);
    }
  }

  lemma NoFirings(a: AlertItem)
    requires a.status == Active
    ensures AfterFirings(a, a, 0)
  {
  }

  lemma TouchesSame(op: Op, a: AlertItem, b: AlertItem, n: nat)
    requires AfterFirings(a, b, n)
    ensures Touches(op, b) == Touches(op, a)
  {
  }

  /** `OneShot` fires at most once; `TimesN(n)` at most n times, turning triggered at
      exactly the n-th. */
  lemma FiringLimits(s: State, ops: seq<Op>, a: AlertItem) returns (b: AlertItem)
    requires IdsOk(s) && a in s.items && a.status == Active && a.triggerCount == 0 && Unedited(ops, a)
    ensures b in Run(s, ops).items && b.id == a.id
    ensures b.triggerCount == Trues(Log(s, ops, a.id))
    ensures a.triggerMode.OneShot? ==>
              b.triggerCount <= 1 && (b.status == Triggered <==> b.triggerCount == 1)
    ensures a.triggerMode.TimesN? && a.triggerMode.n >= 1 ==>
              b.triggerCount <= a.triggerMode.n && (b.status == Triggered <==> b.triggerCount == a.triggerMode.n)
    ensures a.triggerMode.EveryTime? ==> b.status == Active
  {
    hide Run, Log, Unedited, IdsOk, Trues;
    b := TriggerAccounting(s, ops, a);
  }

  /** No alert can be fired by both checkers. */
  lemma OneCheckerOnly(a: AlertItem, tick: Tick, prev: real, window: Window, batch: seq<SignalEvent>)
    ensures TickItem(a, tick, prev).1 ==> !a.source.Signal?
    ensures SignalItem(a, window, batch).1 ==> a.source.Signal?
  {
  }

  // ---------------------------------------------------------------------------
  // Non-interference
  // ---------------------------------------------------------------------------

  function WindowOf(a: AlertItem): Window {
    Window(a.Symbol(), a.exchange, a.accountType)
  }

  predicate FullWindow(w: Window) {
    w.symbol != "" && w.exchange != "" && w.accountType != ""
  }

  /** A tick with the window's price key, or a signal batch for the window. */
  predicate Concerns(op: Op, w: Window) {
    || (op.TickOp? && WindowKey(op.tick.window) == WindowKey(w))
    || (op.SignalOp? && op.window == w)
  }

  function OwnOps(ops: seq<Op>, w: Window): seq<Op> {
    if ops == [] then []
    else OwnOps(ops[..|ops| - 1], w) + if Concerns(ops[|ops| - 1], w) then [ops[|ops| - 1]] else []
  }

  /** The log entries of the calls that concern the window. */
  function OwnLog(ops: seq<Op>, log: seq<bool>, w: Window): seq<bool>
    requires |log| == |ops|
  {
    if ops == [] then []
    else
      var n := |ops| - 1;
      OwnLog(ops[..n], log[..n], w) + if Concerns(ops[n], w) then [log[n]] else []
  }

  /** A call for another key changes neither the alert nor its last price. */
  lemma ForeignStep(a: AlertItem, s: State, op: Op)
    requires FullWindow(WindowOf(a)) && !Concerns(op, WindowOf(a)) && !Touches(op, a)
    ensures ItemStep(a, s.lastPrices, op) == (a, false)
    ensures LastPrice(Step(s, op).0.lastPrices, WindowKey(WindowOf(a))) == LastPrice(s.lastPrices, WindowKey(WindowOf(a)))
  {
    hide Level, Fires, SignalMatches, TickItems, SignalItems, WindowKey, Keep, Edit;
  }

  /** A call that concerns the window depends only on the alert and its last price. */
  lemma OwnStep(a: AlertItem, s: State, t: State, op: Op)
    requires Concerns(op, WindowOf(a))
    requires LastPrice(s.lastPrices, WindowKey(WindowOf(a))) == LastPrice(t.lastPrices, WindowKey(WindowOf(a)))
    ensures ItemStep(a, s.lastPrices, op) == ItemStep(a, t.lastPrices, op)
    ensures LastPrice(Step(s, op).0.lastPrices, WindowKey(WindowOf(a)))
         == LastPrice(Step(t, op).0.lastPrices, WindowKey(WindowOf(a)))
  {
    hide TickItem, SignalItem, TickItems, SignalItems, WindowKey;
  }

  lemma ItemStepKeepsWindow(a: AlertItem, lastPrices: map<string, real>, op: Op)
    ensures var b := ItemStep(a, lastPrices, op).0;
      WindowOf(b) == WindowOf(a) && b.id == a.id && forall o :: Touches(o, b) == Touches(o, a)
  {
    hide Level, Fires, SignalMatches;
  }

  lemma OwnOpsUntouched(op: Op, w: Window, a: AlertItem)
    requires Concerns(op, w)
    ensures !Touches(op, a)
  {
  }

  /** `b` is what became of `a`, both in the whole run and in the run of the events
      of its own window, and it fired at the same events. */
  ghost predicate Agree(s: State, ops: seq<Op>, a: AlertItem, b: AlertItem) {
    var w := WindowOf(a);
    var own := OwnOps(ops, w);
    && IdsOk(Run(s, ops)) && IdsOk(Run(s, own))
    && b in Run(s, ops).items && b in Run(s, own).items && b.id == a.id && WindowOf(b) == w
    && (forall o :: Touches(o, b) == Touches(o, a))
    && LastPrice(Run(s, ops).lastPrices, WindowKey(w)) == LastPrice(Run(s, own).lastPrices, WindowKey(w))
    && OwnLog(ops, Log(s, ops, a.id), w) == Log(s, own, a.id)
    && (forall i :: 0 <= i < |ops| && Log(s, ops, a.id)[i] ==> Concerns(ops[i], w))
  }

  lemma RunAppend(s: State, ops: seq<Op>, op: Op, id: nat)
    ensures Run(s, ops + [op]) == Step(Run(s, ops), op).0
    ensures Log(s, ops + [op], id) == Log(s, ops, id) + [id in Step(Run(s, ops), op).1]
  {
    hide Step;
    assert (ops + [op])[..|ops|] == ops;
  }

  lemma OwnAppend(ops: seq<Op>, log: seq<bool>, op: Op, fired: bool, w: Window)
    requires |log| == |ops|
    ensures OwnOps(ops + [op], w) == OwnOps(ops, w) + if Concerns(op, w) then [op] else []
    ensures OwnLog(ops + [op], log + [fired], w) == OwnLog(ops, log, w) + if Concerns(op, w) then [fired] else []
  {
    assert (ops + [op])[..|ops|] == ops && (log + [fired])[..|log|] == log;
  }

  lemma AgreeForeign(s: State, ops: seq<Op>, op: Op, a: AlertItem, b: AlertItem)
    requires Agree(s, ops, a, b) && FullWindow(WindowOf(a))
    requires !Touches(op, a) && !Concerns(op, WindowOf(a))
    ensures Agree(s, ops + [op], a, b)
  {
    hide Step, ItemStep, Touches, IdsOk, WindowKey, LastPrice, WindowOf, Concerns, Run, Log, OwnOps, OwnLog;
    var x := Run(s, ops);
    UntouchedKeepsIds(x, op, b);
    StepOnItem(x, op, b);
    ForeignStep(b, x, op);
    RunAppend(s, ops, op, a.id);
    OwnAppend(ops, Log(s, ops, a.id), op, false, WindowOf(a));
    assert OwnOps(ops + [op], WindowOf(a)) == OwnOps(ops, WindowOf(a));
    assert OwnLog(ops + [op], Log(s, ops + [op], a.id), WindowOf(a)) == OwnLog(ops, Log(s, ops, a.id), WindowOf(a));
  }

  lemma AgreeOwn(s: State, ops: seq<Op>, op: Op, a: AlertItem, b: AlertItem) returns (c: AlertItem)
    requires Agree(s, ops, a, b) && Concerns(op, WindowOf(a))
    ensures Agree(s, ops + [op], a, c)
  {
    hide Step, ItemStep, Touches, IdsOk, WindowKey, LastPrice, WindowOf, Concerns, Run, Log, OwnOps, OwnLog;
    var w := WindowOf(a);
    var x, y := Run(s, ops), Run(s, OwnOps(ops, w));
    c := ItemStep(b, x.lastPrices, op).0;
    OwnOpsUntouched(op, w, b);
    UntouchedKeepsIds(x, op, b);
    UntouchedKeepsIds(y, op, b);
    OwnStep(b, x, y, op);
    StepOnItem(x, op, b);
    StepOnItem(y, op, b);
    ItemStepKeepsWindow(b, x.lastPrices, op);
    RunAppend(s, ops, op, a.id);
    RunAppend(s, OwnOps(ops, w), op, a.id);
    OwnAppend(ops, Log(s, ops, a.id), op, a.id in Step(x, op).1, w);
  }

  /** An alert bound to one symbol, exchange and account goes through any interleaved
      run exactly as through the ticks of its own price key and the signal batches of
      its window alone: same final state, same firings, and it never fires at any
      other call. Nothing is asked of the other windows. */
  lemma {:induction false} NonInterference(s: State, ops: seq<Op>, a: AlertItem) returns (b: AlertItem)
    requires IdsOk(s) && a in s.items && FullWindow(WindowOf(a)) && Unedited(ops, a)
    ensures Agree(s, ops, a, b)
  {
    hide WindowOf;
    if ops == [] {
      b := a;
    } else {
      hide Agree, Touches, Concerns;
      var n := |ops| - 1;
      b := NonInterference(s, ops[..n], a);
      assert ops == ops[..n] + [ops[n]];
      if Concerns(ops[n], WindowOf(a)) {
        b := AgreeOwn(s, ops[..n], ops[n], a, b);
      } else {
        AgreeForeign(s, ops[..n], ops[n], a, b);
      }
    }
  }

  lemma UntouchedKeepsIds(s: State, op: Op, a: AlertItem)
    requires IdsOk(s) && !Touches(op, a)
    ensures IdsOk(Step(s, op).0)
  {
    hide IdsOk, Step;
    StepKeepsIds(s, op);
  }

  /** For a window without colons, another window shares its price key only by
      spelling the whole key as a symbol without exchange. */
  lemma WindowKeyUnique(w: Window, v: Window)
    requires FullWindow(w) && NoColon(w)
    ensures WindowKey(v) == WindowKey(w) <==> v == w || (v.exchange == "" && v.symbol == WindowKey(w))
  {
    if v.exchange != "" && WindowKey(v) == WindowKey(w) {
      Strings.TwoColons(w.exchange, w.symbol, w.accountType, v.exchange, v.symbol, v.accountType);
    }
  }

  /** The calls for the window itself. */
  function WindowOps(ops: seq<Op>, w: Window): seq<Op> {
    if ops == [] then []
    else
      var op := ops[|ops| - 1];
      WindowOps(ops[..|ops| - 1], w)
      + if (op.TickOp? && op.tick.window == w) || (op.SignalOp? && op.window == w) then [op] else []
  }

  predicate NoColon(w: Window) {
    ':' !in w.symbol && ':' !in w.exchange && ':' !in w.accountType
  }

  /** No tick spells the whole key of the window as a symbol without exchange. */
  predicate KeyNotSpelled(ops: seq<Op>, w: Window) {
    forall i :: 0 <= i < |ops| && ops[i].TickOp? && ops[i].tick.window.exchange == "" ==>
      ops[i].tick.window.symbol != WindowKey(w)
  }

  /** For names without colons, the calls that concern a window are those for it. */
  lemma {:induction false} OwnOpsAreWindowOps(ops: seq<Op>, w: Window)
    requires FullWindow(w) && NoColon(w) && KeyNotSpelled(ops, w)
    ensures OwnOps(ops, w) == WindowOps(ops, w)
  {
    if ops != [] {
      hide WindowKey;
      OwnOpsAreWindowOps(ops[..|ops| - 1], w);
      var op := ops[|ops| - 1];
      if op.TickOp? {
        WindowKeyUnique(w, op.tick.window);
      }
    }
  }

  /** So such an alert ends as in the run of the calls for its window alone. */
  lemma WindowRunAlone(s: State, ops: seq<Op>, a: AlertItem) returns (b: AlertItem)
    requires IdsOk(s) && a in s.items && FullWindow(WindowOf(a)) && Unedited(ops, a)
    requires NoColon(WindowOf(a)) && KeyNotSpelled(ops, WindowOf(a))
    ensures var own := WindowOps(ops, WindowOf(a));
      && b in Run(s, ops).items && b in Run(s, own).items && b.id == a.id
      && OwnLog(ops, Log(s, ops, a.id), WindowOf(a)) == Log(s, own, a.id)
      && (forall i :: 0 <= i < |ops| && Log(s, ops, a.id)[i] ==> Concerns(ops[i], WindowOf(a)))
  {
    hide Concerns, Step, Run, Log, OwnOps, OwnLog, WindowOps, WindowOf, KeyNotSpelled, Touches, IdsOk;
    OwnOpsAreWindowOps(ops, WindowOf(a));
    b := NonInterference(s, ops, a);
  }
}
