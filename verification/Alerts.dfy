/** Alerts and their manager (`crates/alerts/src/types.rs`, `manager.rs` and
    `crossing.rs`). Prices, levels and bar positions are reals. */
module Alerts {
  import opened Bars

  // ---------------------------------------------------------------------------
  // Alert data
  // ---------------------------------------------------------------------------

  datatype ExtendMode = NoExtend | ExtendRight | ExtendLeft | ExtendBoth

  datatype AlertStatus = Active | Triggered | Paused | Expired

  datatype AlertCondition =
    | CrossingUp | CrossingDown | Crossing | GreaterThan | LessThan
    | EnteringRange | ExitingRange | InsideRange | OutsideRange
    | MovingUp | MovingDown | MovingUpOrDown

  datatype SignalBarState = Forming | Formed

  datatype SignalDirection = AnyDirection | Bullish | Bearish

  datatype AlertSource =
    | Price(symbol: string)
    | Drawing(primitiveId: nat, caption: string)
    | Indicator(indicatorId: nat, outputIndex: nat, caption: string)
    | CrossingPair(sourceA: AlertSource, sourceB: AlertSource)
    | Signal(indicatorId: nat, caption: string, directionFilter: SignalDirection,
             barState: SignalBarState, kindFilter: Option<string>)

  datatype AlertTriggerMode = OneShot | EveryTime | OncePerBar | TimesN(n: nat)

  datatype AlertTransport = Popup | Sound | Webhook(url: string) | Telegram

  datatype AlertItem = AlertItem(
    id: nat,
    name: string,
    source: AlertSource,
    condition: AlertCondition,
    price: real,
    price2: real,
    percentage: real,
    triggerMode: AlertTriggerMode,
    triggerCount: nat,
    transports: seq<AlertTransport>,
    status: AlertStatus,
    legacySymbol: string,
    lastTriggered: Option<string>,
    prevDynamicPrice: real,
    exchange: string,
    accountType: string)
  {
    function Symbol(): string {
      if source.Price? then source.symbol else legacySymbol
    }

    /** Empty fields match any window. */
    predicate MatchesWindow(w: Window) {
      && (Symbol() == "" || Symbol() == w.symbol)
      && (exchange == "" || exchange == w.exchange)
      && (accountType == "" || accountType == w.accountType)
    }
  }

  function NewAlert(id: nat, source: AlertSource, name: string, price: real, condition: AlertCondition): AlertItem {
    AlertItem(id, name, source, condition, price, 0.0, 0.0, OneShot, 0, [Popup], Active, "", None, 0.0, "", "S")
  }

  /** What a tick or a signal batch is about. */
  datatype Window = Window(symbol: string, exchange: string, accountType: string)

  /** The key of the last-price table. */
  function WindowKey(w: Window): string {
    if w.exchange == "" then w.symbol else w.exchange + ":" + w.symbol + ":" + w.accountType
  }

  type DrawingPoints = seq<(nat, seq<(real, real)>, ExtendMode)>
  type IndicatorValues = seq<(nat, nat, seq<real>)>

  datatype Tick = Tick(price: real, bar: real, window: Window, drawings: DrawingPoints, indicators: IndicatorValues)

  datatype SignalEvent = SignalEvent(indicatorId: nat, barIndex: nat, direction: int, confirmation: nat, kind: string)

  // ---------------------------------------------------------------------------
  // Levels
  // ---------------------------------------------------------------------------

  function FindDrawing(drawings: DrawingPoints, id: nat): Option<(seq<(real, real)>, ExtendMode)> {
    if drawings == [] then None
    else if drawings[0].0 == id then Some((drawings[0].1, drawings[0].2))
    else FindDrawing(drawings[1..], id)
  }

  function FindIndicator(values: IndicatorValues, id: nat, index: nat): Option<seq<real>> {
    if values == [] then None
    else if values[0].0 == id && values[0].1 == index then Some(values[0].2)
    else FindIndicator(values[1..], id, index)
  }

  function Abs(x: real): real {
    if x < 0.0 then -x else x
  }

  /** Whether a line between the two bar positions is drawn at `bar`. */
  predicate InExtent(bar: real, bar1: real, bar2: real, mode: ExtendMode) {
    var minBar := if bar1 < bar2 then bar1 else bar2;
    var maxBar := if bar1 < bar2 then bar2 else bar1;
    match mode
    case NoExtend => minBar <= bar <= maxBar
    case ExtendRight => minBar <= bar
    case ExtendLeft => bar <= maxBar
    case ExtendBoth => true
  }

  function Interpolated(bar1: real, price1: real, bar2: real, price2: real, bar: real): real
    requires bar1 != bar2
  {
    var t := (bar - bar1) / (bar2 - bar1);
    price1 + t * (price2 - price1)
  }

  function LineLevel(points: seq<(real, real)>, mode: ExtendMode, bar: real): Option<real> {
    if points == [] then None
    else if |points| < 2 then Some(points[0].1)
    else
      var (bar1, price1) := points[0];
      var (bar2, price2) := points[1];
      if Abs(bar2 - bar1) < 0.000001 then Some(price1)
      else if !InExtent(bar, bar1, bar2, mode) then None
      else Some(Interpolated(bar1, price1, bar2, price2, bar))
  }

  /** A sloped or flat line goes through both its points, is straight between and
      beyond them, and is cut off by the extend mode alone. */
  lemma LineThroughPoints(points: seq<(real, real)>, mode: ExtendMode, bar: real)
    requires |points| >= 2
    requires points[1].0 - points[0].0 >= 0.000001 || points[0].0 - points[1].0 >= 0.000001
    ensures LineLevel(points, mode, points[0].0) == Some(points[0].1)
    ensures LineLevel(points, mode, points[1].0) == Some(points[1].1)
    ensures LineLevel(points, mode, bar).Some? ==>
              (LineLevel(points, mode, bar).value - points[0].1) * (points[1].0 - points[0].0)
                == (bar - points[0].0) * (points[1].1 - points[0].1)
    ensures LineLevel(points, NoExtend, bar).Some? <==>
              LineLevel(points, ExtendLeft, bar).Some? && LineLevel(points, ExtendRight, bar).Some?
    ensures LineLevel(points, ExtendBoth, bar).Some?
    ensures LineLevel(points, ExtendRight, bar).None? <==> bar < points[0].0 && bar < points[1].0
    ensures LineLevel(points, ExtendLeft, bar).None? <==> bar > points[0].0 && bar > points[1].0
  {
    hide Interpolated;
    var (bar1, price1) := points[0];
    var (bar2, price2) := points[1];
    InterpolatedStraight(bar1, price1, bar2, price2, bar);
  }

  lemma InterpolatedStraight(bar1: real, price1: real, bar2: real, price2: real, bar: real)
    requires bar1 != bar2
    ensures Interpolated(bar1, price1, bar2, price2, bar1) == price1
    ensures Interpolated(bar1, price1, bar2, price2, bar2) == price2
    ensures (Interpolated(bar1, price1, bar2, price2, bar) - price1) * (bar2 - bar1) == (bar - bar1) * (price2 - price1)
  {
    var run, rise := bar2 - bar1, price2 - price1;
    QuotientTimes(bar - bar1, run, rise);
    QuotientOfSelf(run);
    assert 0.0 / run == 0.0;
  }

  lemma QuotientTimes(x: real, y: real, z: real)
    requires y != 0.0
    ensures ((x / y) * z) * y == x * z
  {
    var q := x / y;
    assert q * y == x;
    assert (q * z) * y == (q * y) * z;
  }

  lemma QuotientOfSelf(x: real)
    requires x != 0.0
    ensures x / x == 1.0
  {
    var q := x / x;
    assert q * x == x;
    assert (q - 1.0) * x == 0.0;
  }

  function ResolvePrice(a: AlertItem, bar: real, drawings: DrawingPoints, indicators: IndicatorValues): Option<real> {
    match a.source
    case Price(_) => Some(a.price)
    case Drawing(id, _) =>
      (match FindDrawing(drawings, id)
       case Some((points, mode)) => LineLevel(points, mode, bar)
       case None => None)
    case Indicator(id, index, _) =>
      (match FindIndicator(indicators, id, index)
       case Some(values) => if values == [] then None else Some(values[|values| - 1])
       case None => None)
    case CrossingPair(_, _) => None
    case Signal(_, _, _, _, _) => None
  }

  function Level(a: AlertItem, tick: Tick): Option<real> {
    ResolvePrice(a, tick.bar, tick.drawings, tick.indicators)
  }

  /** No entry has the key. */
  predicate NoIndicator(values: IndicatorValues, id: nat, index: nat) {
    forall i :: 0 <= i < |values| ==> values[i].0 != id || values[i].1 != index
  }

  predicate NoDrawing(drawings: DrawingPoints, id: nat) {
    forall i :: 0 <= i < |drawings| ==> drawings[i].0 != id
  }

  /** The first entry with the key is the one found. */
  lemma {:induction false} FirstIndicator(pre: IndicatorValues, post: IndicatorValues, id: nat, index: nat, vs: seq<real>)
    requires NoIndicator(pre, id, index)
    ensures FindIndicator(pre + [(id, index, vs)] + post, id, index) == Some(vs)
    ensures FindIndicator(pre, id, index) == None
  {
    if pre == [] {
      assert pre + [(id, index, vs)] + post == [(id, index, vs)] + post;
    } else {
      FirstIndicator(pre[1..], post, id, index, vs);
      assert (pre + [(id, index, vs)] + post)[1..] == pre[1..] + [(id, index, vs)] + post;
    }
  }

  lemma {:induction false} FirstDrawing(pre: DrawingPoints, post: DrawingPoints, id: nat, points: seq<(real, real)>, mode: ExtendMode)
    requires NoDrawing(pre, id)
    ensures FindDrawing(pre + [(id, points, mode)] + post, id) == Some((points, mode))
    ensures FindDrawing(pre, id) == None
  {
    if pre == [] {
      assert pre + [(id, points, mode)] + post == [(id, points, mode)] + post;
    } else {
      FirstDrawing(pre[1..], post, id, points, mode);
      assert (pre + [(id, points, mode)] + post)[1..] == pre[1..] + [(id, points, mode)] + post;
    }
  }

  /** The level of an indicator alert: the latest value of the first entry for its output,
      and none when there is no entry or the first has no value. */
  lemma IndicatorLevel(a: AlertItem, tick: Tick, pre: IndicatorValues, vs: seq<real>, v: real, post: IndicatorValues)
    requires a.source.Indicator? && NoIndicator(pre, a.source.indicatorId, a.source.outputIndex)
    ensures var entry := (a.source.indicatorId, a.source.outputIndex, vs + [v]);
      Level(a, tick.(indicators := pre + [entry] + post)) == Some(v)
    ensures Level(a, tick.(indicators := pre + [(a.source.indicatorId, a.source.outputIndex, [])] + post)) == None
    ensures Level(a, tick.(indicators := pre)) == None
  {
    FirstIndicator(pre, post, a.source.indicatorId, a.source.outputIndex, vs + [v]);
    FirstIndicator(pre, post, a.source.indicatorId, a.source.outputIndex, []);
  }

  /** The level of a drawing alert comes from the first entry for its drawing: none
      without an entry or without a point; the price of a single point; the price of the
      first of two points in one bar; else that of the line. */
  lemma DrawingLevel(a: AlertItem, tick: Tick, pre: DrawingPoints, points: seq<(real, real)>, mode: ExtendMode, post: DrawingPoints)
    requires a.source.Drawing? && NoDrawing(pre, a.source.primitiveId)
    ensures Level(a, tick.(drawings := pre)) == None
    ensures var level := Level(a, tick.(drawings := pre + [(a.source.primitiveId, points, mode)] + post));
      && (|points| == 0 ==> level == None)
      && (|points| == 1 ==> level == Some(points[0].1))
      && (|points| >= 2 && -0.000001 < points[1].0 - points[0].0 < 0.000001 ==> level == Some(points[0].1))
      && (|points| >= 2 ==> level == LineLevel(points, mode, tick.bar))
  {
    hide Interpolated;
    FirstDrawing(pre, post, a.source.primitiveId, points, mode);
  }

  /** The level of a price alert is its price; pairs and signals have none. */
  lemma OtherLevels(a: AlertItem, tick: Tick)
    ensures a.source.Price? ==> Level(a, tick) == Some(a.price)
    ensures a.source.CrossingPair? || a.source.Signal? ==> Level(a, tick) == None
  {
  }

  /** The window with the empty names of `w` filled in from `v`. */
  function Filled(w: Window, v: Window): Window {
    Window(if w.symbol == "" then v.symbol else w.symbol,
           if w.exchange == "" then v.exchange else w.exchange,
           if w.accountType == "" then v.accountType else w.accountType)
  }

  /** An alert matches exactly the windows that its own names, the empty ones filled in,
      spell; a price alert goes by the symbol of its source. */
  lemma MatchesFilled(a: AlertItem, v: Window)
    ensures var symbol := match a.source { case Price(symbol) => symbol case _ => a.legacySymbol };
      a.MatchesWindow(v) <==> Filled(Window(symbol, a.exchange, a.accountType), v) == v
  {
  }

  // ---------------------------------------------------------------------------
  // One alert, one tick or signal batch
  // ---------------------------------------------------------------------------

  /** Zero stands for "no previous value". */
  predicate Fires(condition: AlertCondition, prevPrice: real, prevLevel: real, price: real, level: real) {
    match condition
    case CrossingUp => prevPrice != 0.0 && prevLevel != 0.0 && prevPrice < prevLevel && price >= level
    case CrossingDown => prevPrice != 0.0 && prevLevel != 0.0 && prevPrice > prevLevel && price <= level
    case Crossing =>
      && prevPrice != 0.0 && prevLevel != 0.0
      && ((prevPrice < prevLevel && price >= level) || (prevPrice > prevLevel && price <= level))
    case GreaterThan => price > level
    case LessThan => price < level
    case _ => false
  }

  function Bumped(a: AlertItem): AlertItem {
    var b := a.(triggerCount := a.triggerCount + 1, lastTriggered := Some("just now"));
    match b.triggerMode
    case OneShot => b.(status := Triggered)
    case TimesN(n) => if b.triggerCount >= n then b.(status := Triggered) else b
    case _ => b
  }

  /** The alert after a tick, and whether it fired. */
  function TickItem(a: AlertItem, tick: Tick, prevPrice: real): (AlertItem, bool) {
    if a.status != Active || !a.MatchesWindow(tick.window) then (a, false)
    else match Level(a, tick)
      case None => (a, false)
      case Some(level) =>
        var b := a.(prevDynamicPrice := level);
        if Fires(a.condition, prevPrice, a.prevDynamicPrice, tick.price, level) then (Bumped(b), true)
        else (b, false)
  }

  predicate SignalMatches(a: AlertItem, e: SignalEvent)
    requires a.source.Signal?
  {
    && e.indicatorId == a.source.indicatorId
    && (match a.source.directionFilter
        case AnyDirection => true
        case Bullish => e.direction > 0
        case Bearish => e.direction < 0)
    && (a.source.barState == Formed ==> e.confirmation >= 1)
    && (a.source.kindFilter.Some? ==> e.kind == a.source.kindFilter.value)
  }

  function SignalItem(a: AlertItem, window: Window, batch: seq<SignalEvent>): (AlertItem, bool) {
    if a.status != Active || !a.MatchesWindow(window) || !a.source.Signal? then (a, false)
    else if exists i :: 0 <= i < |batch| && SignalMatches(a, batch[i]) then (Bumped(a), true)
    else (a, false)
  }

  // ---------------------------------------------------------------------------
  // The manager
  // ---------------------------------------------------------------------------

  datatype State = State(items: seq<AlertItem>, nextId: nat, lastPrices: map<string, real>)

  datatype Op =
    | CreateOp(source: AlertSource, name: string, price: real, condition: AlertCondition)
    | UpdateOp(id: nat, name: string, price: real, condition: AlertCondition)
    | UpdateFullOp(id: nat, source: AlertSource, name: string, price: real, price2: real, percentage: real,
                   condition: AlertCondition, triggerMode: AlertTriggerMode, transports: seq<AlertTransport>)
    | RemoveOp(id: nat)
    | RemoveForDrawingOp(primitiveId: nat)
    | RemoveForIndicatorOp(indicatorId: nat)
    | ClearOp
    | RestoreOp(alerts: seq<AlertItem>)
    | TickOp(tick: Tick)
    | SignalOp(window: Window, batch: seq<SignalEvent>)

  function LastPrice(lastPrices: map<string, real>, key: string): real {
    if key in lastPrices then lastPrices[key] else 0.0
  }

  function TickItems(items: seq<AlertItem>, tick: Tick, prevPrice: real): (seq<AlertItem>, seq<nat>) {
    if items == [] then ([], [])
    else
      var (done, ids) := TickItems(items[..|items| - 1], tick, prevPrice);
      var a := items[|items| - 1];
      var (b, fired) := TickItem(a, tick, prevPrice);
      (done + [b], if fired then ids + [a.id] else ids)
  }

  function SignalItems(items: seq<AlertItem>, window: Window, batch: seq<SignalEvent>): (seq<AlertItem>, seq<nat>) {
    if items == [] then ([], [])
    else
      var (done, ids) := SignalItems(items[..|items| - 1], window, batch);
      var a := items[|items| - 1];
      var (b, fired) := SignalItem(a, window, batch);
      (done + [b], if fired then ids + [a.id] else ids)
  }

  /** The first alert with the id, edited; `Vec::iter_mut().find`. */
  function Edit(items: seq<AlertItem>, id: nat, f: AlertItem -> AlertItem): seq<AlertItem> {
    if items == [] then []
    else if items[0].id == id then [f(items[0])] + items[1..]
    else [items[0]] + Edit(items[1..], id, f)
  }

  function Keep(items: seq<AlertItem>, p: AlertItem -> bool): seq<AlertItem> {
    if items == [] then []
    else Keep(items[..|items| - 1], p) + if p(items[|items| - 1]) then [items[|items| - 1]] else []
  }

  function Get(items: seq<AlertItem>, id: nat): Option<AlertItem> {
    if items == [] then None
    else if items[0].id == id then Some(items[0])
    else Get(items[1..], id)
  }

  predicate AttachedToDrawing(a: AlertItem, primitiveId: nat) {
    a.source.Drawing? && a.source.primitiveId == primitiveId
  }

  predicate AttachedToIndicator(a: AlertItem, indicatorId: nat) {
    (a.source.Indicator? || a.source.Signal?) && a.source.indicatorId == indicatorId
  }

  function MaxId(items: seq<AlertItem>): (m: nat)
    ensures forall i :: 0 <= i < |items| ==> items[i].id <= m
  {
    if items == [] then 0
    else
      var m := MaxId(items[..|items| - 1]);
      if items[|items| - 1].id > m then items[|items| - 1].id else m
  }

  function NotId(id: nat): AlertItem -> bool {
    (a: AlertItem) => a.id != id
  }

  function NotOnDrawing(primitiveId: nat): AlertItem -> bool {
    (a: AlertItem) => !AttachedToDrawing(a, primitiveId)
  }

  function NotOnIndicator(indicatorId: nat): AlertItem -> bool {
    (a: AlertItem) => !AttachedToIndicator(a, indicatorId)
  }

  /** The edit of `update`: the previous level is left as it was. */
  function NewCore(name: string, price: real, condition: AlertCondition): AlertItem -> AlertItem {
    (a: AlertItem) => a.(name := name, price := price, condition := condition)
  }

  function NewFields(source: AlertSource, name: string, price: real, price2: real, percentage: real,
      condition: AlertCondition, triggerMode: AlertTriggerMode, transports: seq<AlertTransport>): AlertItem -> AlertItem {
    (a: AlertItem) => a.(source := source, name := name, price := price, price2 := price2, percentage := percentage,
                         condition := condition, triggerMode := triggerMode, transports := transports)
  }

  /** The state after a call, and the ids it reports as fired. */
  function Step(s: State, op: Op): (State, seq<nat>) {
    match op
    case CreateOp(source, name, price, condition) =>
      (s.(items := s.items + [NewAlert(s.nextId, source, name, price, condition)], nextId := s.nextId + 1), [])
    case UpdateOp(id, name, price, condition) =>
      (s.(items := Edit(s.items, id, NewCore(name, price, condition))), [])
    case UpdateFullOp(id, source, name, price, price2, percentage, condition, mode, transports) =>
      (s.(items := Edit(s.items, id,
            NewFields(source, name, price, price2, percentage, condition, mode, transports))), [])
    case RemoveOp(id) => (s.(items := Keep(s.items, NotId(id))), [])
    case RemoveForDrawingOp(id) => (s.(items := Keep(s.items, NotOnDrawing(id))), [])
    case RemoveForIndicatorOp(id) => (s.(items := Keep(s.items, NotOnIndicator(id))), [])
    case ClearOp => (State([], 1, map[]), [])
    case RestoreOp(alerts) => (State(alerts, MaxId(alerts) + 1, map[]), [])
    case TickOp(tick) =>
      var key := WindowKey(tick.window);
      var (items, ids) := TickItems(s.items, tick, LastPrice(s.lastPrices, key));
      (State(items, s.nextId, s.lastPrices[key := tick.price]), ids)
    case SignalOp(window, batch) =>
      var (items, ids) := SignalItems(s.items, window, batch);
      (s.(items := items), ids)
  }

  class AlertManager {
    var items: seq<AlertItem>
    var nextId: nat
    var lastPrices: map<string, real>

    ghost function View(): State
      reads this
    {
      State(items, nextId, lastPrices)
    }

    constructor ()
      ensures View() == State([], 1, map[])
    {
      items, nextId, lastPrices := [], 1, map[];
    }

    method Create(source: AlertSource, name: string, price: real, condition: AlertCondition) returns (id: nat)
      modifies this
      ensures (View(), []) == Step(old(View()), CreateOp(source, name, price, condition))
      ensures id == old(nextId)
    {
      id := nextId;
      nextId := nextId + 1;
      items := items + [NewAlert(id, source, name, price, condition)];
    }

    /** The position of the first alert with the id. */
    method Find(id: nat) returns (i: nat)
      ensures i <= |items| && (forall j :: 0 <= j < i ==> items[j].id != id)
      ensures i < |items| ==> items[i].id == id
    {
      i := 0;
      while i < |items| && items[i].id != id
        invariant i <= |items| && forall j :: 0 <= j < i ==> items[j].id != id
      {
        i := i + 1;
      }
    }

    method Update(id: nat, name: string, price: real, condition: AlertCondition) returns (found: bool)
      modifies this`items
      ensures (View(), []) == Step(old(View()), UpdateOp(id, name, price, condition))
      ensures found <==> Get(old(items), id).Some?
    {
      var i := Find(id);
      EditAt(items, id, i, NewCore(name, price, condition));
      if i < |items| {
        items := items[i := items[i].(name := name, price := price, condition := condition)];
        found := true;
      } else {
        found := false;
      }
    }

    method UpdateFull(id: nat, source: AlertSource, name: string, price: real, price2: real, percentage: real,
        condition: AlertCondition, triggerMode: AlertTriggerMode, transports: seq<AlertTransport>)
      returns (found: bool)
      modifies this`items
      ensures (View(), []) == Step(old(View()), UpdateFullOp(id, source, name, price, price2, percentage,
                                                             condition, triggerMode, transports))
      ensures found <==> Get(old(items), id).Some?
    {
      var i := Find(id);
      EditAt(items, id, i, NewFields(source, name, price, price2, percentage, condition, triggerMode, transports));
      if i < |items| {
        items := items[i := items[i].(source := source, name := name, price := price, price2 := price2,
                                      percentage := percentage, condition := condition,
                                      triggerMode := triggerMode, transports := transports)];
        found := true;
      } else {
        found := false;
      }
    }

    /** `Vec::retain`. */
    method Retain(p: AlertItem -> bool)
      modifies this`items
      ensures items == Keep(old(items), p)
    {
      var kept: seq<AlertItem> := [];
      for i := 0 to |items|
        invariant items == old(items) && kept == Keep(items[..i], p)
      {
        assert items[..i + 1][..i] == items[..i];
        if p(items[i]) {
          kept := kept + [items[i]];
        }
      }
      assert items[..|items|] == items;
      items := kept;
    }

    method Remove(id: nat) returns (removed: bool)
      modifies this`items
      ensures (View(), []) == Step(old(View()), RemoveOp(id))
      ensures removed <==> |items| != |old(items)|
    {
      var before := |items|;
      Retain(NotId(id));
      removed := |items| != before;
    }

    method RemoveAlertsForDrawing(primitiveId: nat)
      modifies this`items
      ensures (View(), []) == Step(old(View()), RemoveForDrawingOp(primitiveId))
    {
      Retain(NotOnDrawing(primitiveId));
    }

    method RemoveAlertsForIndicator(indicatorId: nat)
      modifies this`items
      ensures (View(), []) == Step(old(View()), RemoveForIndicatorOp(indicatorId))
    {
      Retain(NotOnIndicator(indicatorId));
    }

    method Clear()
      modifies this
      ensures (View(), []) == Step(old(View()), ClearOp)
    {
      items := [];
      nextId := 1;
      lastPrices := map[];
    }

    method Snapshot() returns (alerts: seq<AlertItem>)
      ensures alerts == items
    {
      alerts := items;
    }

    method Restore(alerts: seq<AlertItem>)
      modifies this
      ensures (View(), []) == Step(old(View()), RestoreOp(alerts))
    {
      var m := 0;
      for i := 0 to |alerts|
        invariant m == MaxId(alerts[..i])
      {
        assert alerts[..i + 1][..i] == alerts[..i];
        if alerts[i].id > m {
          m := alerts[i].id;
        }
      }
      assert alerts[..|alerts|] == alerts;
      nextId := m + 1;
      items := alerts;
      lastPrices := map[];
    }

    method CheckCrossingsDynamic(tick: Tick) returns (ids: seq<nat>)
      modifies this
      ensures (View(), ids) == Step(old(View()), TickOp(tick))
    {
      hide TickItem, LastPrice;
      ids := [];
      var tickKey := WindowKey(tick.window);
      for i := 0 to |items|
        invariant |items| == |old(items)| && items[i..] == old(items)[i..]
        invariant nextId == old(nextId) && lastPrices == old(lastPrices)
        invariant (items[..i], ids) == TickItems(old(items)[..i], tick, LastPrice(lastPrices, tickKey))
      {
        assert old(items)[..i + 1][..i] == old(items)[..i];
        var alert, fired := CheckItem(items[i], tick, LastPrice(lastPrices, tickKey));
        assert items[i] == items[i..][0] == old(items)[i];
        if fired {
          ids := ids + [alert.id];
        }
        label Before:
        items := items[i := alert];
        assert items[..i + 1] == old@Before(items)[..i] + [alert];
        assert items[i + 1..] == old@Before(items)[i..][1..];
      }
      assert items[..|items|] == items && old(items)[..|items|] == old(items);
      lastPrices := lastPrices[tickKey := tick.price];
    }

    method CheckSignalAlerts(window: Window, batch: seq<SignalEvent>) returns (ids: seq<nat>)
      modifies this`items
      ensures (View(), ids) == Step(old(View()), SignalOp(window, batch))
    {
      hide SignalItem;
      ids := [];
      for i := 0 to |items|
        invariant |items| == |old(items)| && items[i..] == old(items)[i..]
        invariant (items[..i], ids) == SignalItems(old(items)[..i], window, batch)
      {
        assert old(items)[..i + 1][..i] == old(items)[..i];
        var alert, fired := CheckSignalItem(items[i], window, batch);
        assert items[i] == items[i..][0] == old(items)[i];
        if fired {
          ids := ids + [alert.id];
        }
        label Before:
        items := items[i := alert];
        assert items[..i + 1] == old@Before(items)[..i] + [alert];
        assert items[i + 1..] == old@Before(items)[i..][1..];
      }
      assert items[..|items|] == items && old(items)[..|items|] == old(items);
    }
  }

  /** The loop body of the crossing check. */
  method CheckItem(a: AlertItem, tick: Tick, prevPrice: real) returns (alert: AlertItem, triggered: bool)
    ensures (alert, triggered) == TickItem(a, tick, prevPrice) && alert.id == a.id
  {
    alert := a;
    if alert.status != Active || !alert.MatchesWindow(tick.window) {
      return alert, false;
    }
    var level := Level(alert, tick);
    if level.None? {
      return alert, false;
    }
    triggered := Fires(alert.condition, prevPrice, alert.prevDynamicPrice, tick.price, level.value);
    // The level is remembered whether or not the alert fired.
    alert := alert.(prevDynamicPrice := level.value);
    if triggered {
      alert := Bumped(alert);
    }
  }

  /** The loop body of the signal check. */
  method CheckSignalItem(a: AlertItem, window: Window, batch: seq<SignalEvent>) returns (alert: AlertItem, triggered: bool)
    ensures (alert, triggered) == SignalItem(a, window, batch) && alert.id == a.id
  {
    alert := a;
    if alert.status != Active || !alert.MatchesWindow(window) || !alert.source.Signal? {
      return alert, false;
    }
    triggered := AnyMatch(alert, batch);
    if triggered {
      alert := Bumped(alert);
    }
  }

  method AnyMatch(a: AlertItem, batch: seq<SignalEvent>) returns (matched: bool)
    requires a.source.Signal?
    ensures matched <==> exists i :: 0 <= i < |batch| && SignalMatches(a, batch[i])
  {
    for i := 0 to |batch|
      invariant forall j :: 0 <= j < i ==> !SignalMatches(a, batch[j])
    {
      if SignalMatches(a, batch[i]) {
        return true;
      }
    }
    matched := false;
  }

  lemma {:induction false} EditAt(items: seq<AlertItem>, id: nat, i: nat, f: AlertItem -> AlertItem)
    requires i <= |items| && (forall j :: 0 <= j < i ==> items[j].id != id)
    requires i < |items| ==> items[i].id == id
    ensures Edit(items, id, f) == if i < |items| then items[i := f(items[i])] else items
    ensures Get(items, id) == if i < |items| then Some(items[i]) else None
  {
    if items != [] && i > 0 {
      EditAt(items[1..], id, i - 1, f);
      assert items == [items[0]] + items[1..];
    }
  }
}
