/** Crossing detection over whole tick histories: the stateful checker of
    `crates/alerts/src/manager.rs` against the plain meaning of a crossing, in runs
    that may also edit the alert. */
module AlertHistory {
  import opened Bars
  import opened Alerts
  import opened AlertRuns

  /** A tick with the alert's price key, and the alert's settings at that time. */
  datatype Moment = Moment(config: AlertItem, tick: Tick)

  /** The level an alert with the settings of the moment is compared with. */
  function LevelAt(m: Moment): Option<real> {
    if m.config.MatchesWindow(m.tick.window) then Level(m.config, m.tick) else None
  }

  /** The settings of `config` with what the checkers have noted in `b`. */
  function Carry(config: AlertItem, b: AlertItem): AlertItem {
    config.(triggerCount := b.triggerCount, status := b.status, lastTriggered := b.lastTriggered,
            prevDynamicPrice := b.prevDynamicPrice)
  }

  /** The price a tick is compared with: that of the tick before, or `p0`. */
  function PrevPrice(p0: real, ms: seq<Moment>): real {
    if ms == [] then p0 else ms[|ms| - 1].tick.price
  }

  /** The alert after a history, starting with last price `p0`. */
  function Solo(a: AlertItem, p0: real, ms: seq<Moment>): AlertItem {
    if ms == [] then a
    else
      var init, m := ms[..|ms| - 1], ms[|ms| - 1];
      TickItem(Carry(m.config, Solo(a, p0, init)), m.tick, PrevPrice(p0, init)).0
  }

  function SoloLog(a: AlertItem, p0: real, ms: seq<Moment>): (log: seq<bool>)
    ensures |log| == |ms|
  {
    if ms == [] then []
    else
      var init, m := ms[..|ms| - 1], ms[|ms| - 1];
      SoloLog(a, p0, init) + [TickItem(Carry(m.config, Solo(a, p0, init)), m.tick, PrevPrice(p0, init)).1]
  }

  // ---------------------------------------------------------------------------
  // The plain meaning of the conditions
  // ---------------------------------------------------------------------------

  predicate IsCrossing(condition: AlertCondition) {
    condition.CrossingUp? || condition.CrossingDown? || condition.Crossing?
  }

  /** Price minus level moved from strictly one side to zero or the other side. */
  predicate Crossed(condition: AlertCondition, p0: real, l0: real, p1: real, l1: real) {
    match condition
    case CrossingUp => p0 < l0 && p1 >= l1
    case CrossingDown => p0 > l0 && p1 <= l1
    case Crossing => (p0 < l0 && p1 >= l1) || (p0 > l0 && p1 <= l1)
    case _ => false
  }

  /** The event an alert stands for, at moment `i`: the price is beyond the level, or
      it crossed the level since the moment before, each level as then set. */
  predicate Event(ms: seq<Moment>, i: nat)
    requires i < |ms|
  {
    match LevelAt(ms[i])
    case None => false
    case Some(level) =>
      match ms[i].config.condition
      case GreaterThan => ms[i].tick.price > level
      case LessThan => ms[i].tick.price < level
      case _ =>
        && i > 0 && LevelAt(ms[i - 1]).Some?
        && Crossed(ms[i].config.condition, ms[i - 1].tick.price, LevelAt(ms[i - 1]).value, ms[i].tick.price, level)
  }

  /** The moment before had a price or a level of zero, the code's "unset" mark. */
  predicate FollowsZero(ms: seq<Moment>, i: nat)
    requires i < |ms|
  {
    i > 0 && (ms[i - 1].tick.price == 0.0 || LevelAt(ms[i - 1]) == Some(0.0))
  }

  /** The events the checker can see. */
  predicate Detected(ms: seq<Moment>, i: nat)
    requires i < |ms|
  {
    Event(ms, i) && (IsCrossing(ms[i].config.condition) ==> !FollowsZero(ms, i))
  }

  function Events(ms: seq<Moment>): (r: seq<bool>)
    ensures |r| == |ms|
  {
    seq(|ms|, i requires 0 <= i < |ms| => Event(ms, i))
  }

  function Detections(ms: seq<Moment>): (r: seq<bool>)
    ensures |r| == |ms|
  {
    seq(|ms|, i requires 0 <= i < |ms| => Detected(ms, i))
  }

  /** `check_crossings`, the stateless form, for a fixed horizontal price. */
  predicate StatelessCheck(a: AlertItem, prevPrice: real, price: real) {
    a.status == Active &&
    match a.condition
    case CrossingUp => prevPrice < a.price && price >= a.price
    case CrossingDown => prevPrice > a.price && price <= a.price
    case Crossing => (prevPrice < a.price && price >= a.price) || (prevPrice > a.price && price <= a.price)
    case GreaterThan => price > a.price
    case LessThan => price < a.price
    case _ => false
  }

  /** For a price alert whose price is not edited between two ticks of its window, the
      event is the stateless check on them. */
  lemma EventIsStatelessCheck(ms: seq<Moment>, i: nat)
    requires 0 < i < |ms| && ms[i].config.source.Price? && ms[i].config.status == Active
    requires ms[i - 1].config.source == ms[i].config.source && ms[i - 1].config.price == ms[i].config.price
    requires ms[i].config.MatchesWindow(ms[i].tick.window) && ms[i - 1].config.MatchesWindow(ms[i - 1].tick.window)
    ensures Event(ms, i) <==> StatelessCheck(ms[i].config, ms[i - 1].tick.price, ms[i].tick.price)
  {
  }

  // ---------------------------------------------------------------------------
  // Until the trigger mode is used up
  // ---------------------------------------------------------------------------

  /** A firing that brings the count to `count` is the last the mode allows. */
  predicate UsedUp(mode: AlertTriggerMode, count: nat) {
    match mode
    case OneShot => true
    case TimesN(n) => count >= n
    case _ => false
  }

  /** None of the first `n` happenings was the last that the mode then set allows. */
  predicate Ready(count: nat, ms: seq<Moment>, happened: seq<bool>, n: nat)
    requires |happened| == |ms| && n <= |ms|
  {
    forall j :: 0 <= j < n && happened[j] ==> !UsedUp(ms[j].config.triggerMode, count + Trues(happened[..j + 1]))
  }

  /** The happenings up to and including the last that the mode allows. */
  function Fired(count: nat, ms: seq<Moment>, happened: seq<bool>): (r: seq<bool>)
    requires |happened| == |ms|
    ensures |r| == |ms|
  {
    seq(|ms|, i requires 0 <= i < |ms| => happened[i] && Ready(count, ms, happened, i))
  }

  // ---------------------------------------------------------------------------
  // What the checker does, without any condition
  // ---------------------------------------------------------------------------

  /** The level at the latest moment that had one, or the one remembered before. */
  function LastLevel(l0: real, ms: seq<Moment>): real {
    if ms == [] then l0
    else match LevelAt(ms[|ms| - 1])
      case Some(level) => level
      case None => LastLevel(l0, ms[..|ms| - 1])
  }

  /** The condition holds at moment `i`, compared with the previous price of the key
      and the latest level. */
  predicate Due(a: AlertItem, p0: real, ms: seq<Moment>, i: nat)
    requires i < |ms|
  {
    match LevelAt(ms[i])
    case None => false
    case Some(level) =>
      Fires(ms[i].config.condition, PrevPrice(p0, ms[..i]), LastLevel(a.prevDynamicPrice, ms[..i]), ms[i].tick.price, level)
  }

  function Dues(a: AlertItem, p0: real, ms: seq<Moment>): (r: seq<bool>)
    ensures |r| == |ms|
  {
    seq(|ms|, i requires 0 <= i < |ms| => Due(a, p0, ms, i))
  }

  lemma TruesAppend(log: seq<bool>, b: bool)
    ensures Trues(log + [b]) == Trues(log) + if b then 1 else 0
  {
    assert (log + [b])[..|log|] == log;
  }

  lemma DuesAppend(a: AlertItem, p0: real, ms: seq<Moment>, m: Moment)
    ensures Dues(a, p0, ms + [m]) == Dues(a, p0, ms) + [Due(a, p0, ms + [m], |ms|)]
  {
    hide LevelAt, Fires, LastLevel;
    forall i | 0 <= i < |ms|
      ensures Due(a, p0, ms + [m], i) == Due(a, p0, ms, i)
    {
      assert (ms + [m])[..i] == ms[..i];
    }
  }

  lemma ReadyPrefix(count: nat, ms: seq<Moment>, m: Moment, happened: seq<bool>, b: bool, n: nat)
    requires |happened| == |ms| && n <= |ms|
    ensures Ready(count, ms + [m], happened + [b], n) <==> Ready(count, ms, happened, n)
  {
    hide UsedUp, Trues;
    var all, happened' := ms + [m], happened + [b];
    forall j: nat | j < n && happened[j]
      ensures UsedUp(all[j].config.triggerMode, count + Trues(happened'[..j + 1]))
          <==> UsedUp(ms[j].config.triggerMode, count + Trues(happened[..j + 1]))
    {
      assert happened'[..j + 1] == happened[..j + 1];
    }
    assert forall j :: 0 <= j < n ==> happened'[j] == happened[j];
  }

  lemma ReadyNext(count: nat, ms: seq<Moment>, happened: seq<bool>, n: nat)
    requires |happened| == |ms| && n < |ms|
    ensures Ready(count, ms, happened, n + 1) <==>
              && Ready(count, ms, happened, n)
              && (happened[n] ==> !UsedUp(ms[n].config.triggerMode, count + Trues(happened[..n + 1])))
  {
    hide UsedUp;
  }

  lemma ReadyAppend(count: nat, ms: seq<Moment>, m: Moment, happened: seq<bool>, b: bool)
    requires |happened| == |ms|
    ensures Ready(count, ms + [m], happened + [b], |ms| + 1) <==>
              Ready(count, ms, happened, |ms|) && (b ==> !UsedUp(m.config.triggerMode, count + Trues(happened) + 1))
  {
    hide UsedUp, Ready;
    ReadyPrefix(count, ms, m, happened, b, |ms|);
    ReadyNext(count, ms + [m], happened + [b], |ms|);
    TruesAppend(happened, b);
    assert (happened + [b])[..|ms| + 1] == happened + [b];
  }

  lemma FiredAppend(count: nat, ms: seq<Moment>, m: Moment, happened: seq<bool>, b: bool)
    requires |happened| == |ms|
    ensures Fired(count, ms + [m], happened + [b])
         == Fired(count, ms, happened) + [b && Ready(count, ms, happened, |ms|)]
  {
    hide Ready;
    forall i: nat | i <= |ms|
      ensures Ready(count, ms + [m], happened + [b], i) == Ready(count, ms, happened, i)
    {
      ReadyPrefix(count, ms, m, happened, b, i);
    }
  }

  /** While its mode is not used up the alert is active, has counted its firings and
      remembers the latest level; afterwards it is not active. */
  predicate Tracks(a: AlertItem, p0: real, ms: seq<Moment>, b: AlertItem) {
    var dues := Dues(a, p0, ms);
    if Ready(a.triggerCount, ms, dues, |ms|)
    then b.status == Active && b.triggerCount == a.triggerCount + Trues(dues)
         && b.prevDynamicPrice == LastLevel(a.prevDynamicPrice, ms)
    else b.status != Active
  }

  /** One moment more, seen by an alert in the settings of that moment. */
  lemma TrackOne(a: AlertItem, p0: real, ms: seq<Moment>, m: Moment, b: AlertItem)
    requires Tracks(a, p0, ms, b)
    ensures var (c, fired) := TickItem(Carry(m.config, b), m.tick, PrevPrice(p0, ms));
      && Tracks(a, p0, ms + [m], c)
      && (fired <==> Due(a, p0, ms + [m], |ms|) && Ready(a.triggerCount, ms, Dues(a, p0, ms), |ms|))
  {
    hide Ready, Dues, LastLevel, Fires, Level, Due;
    var all := ms + [m];
    DueNow(a, p0, ms, m);
    DuesAppend(a, p0, ms, m);
    TruesAppend(Dues(a, p0, ms), Due(a, p0, all, |ms|));
    ReadyAppend(a.triggerCount, ms, m, Dues(a, p0, ms), Due(a, p0, all, |ms|));
    CarryLevel(m, b);
  }

  lemma CarryLevel(m: Moment, b: AlertItem)
    ensures Level(Carry(m.config, b), m.tick) == Level(m.config, m.tick)
  {
  }

  lemma DueNow(a: AlertItem, p0: real, ms: seq<Moment>, m: Moment)
    ensures Due(a, p0, ms + [m], |ms|) ==
              (LevelAt(m).Some?
               && Fires(m.config.condition, PrevPrice(p0, ms), LastLevel(a.prevDynamicPrice, ms), m.tick.price, LevelAt(m).value))
    ensures LastLevel(a.prevDynamicPrice, ms + [m])
         == if LevelAt(m).Some? then LevelAt(m).value else LastLevel(a.prevDynamicPrice, ms)
  {
    hide LevelAt, Fires;
    assert (ms + [m])[..|ms|] == ms;
  }

  lemma SoloAppend(a: AlertItem, p0: real, ms: seq<Moment>, m: Moment)
    ensures var (c, fired) := TickItem(Carry(m.config, Solo(a, p0, ms)), m.tick, PrevPrice(p0, ms));
      Solo(a, p0, ms + [m]) == c && SoloLog(a, p0, ms + [m]) == SoloLog(a, p0, ms) + [fired]
  {
    hide TickItem, Carry;
    assert (ms + [m])[..|ms|] == ms;
  }

  /** For every history, with any edits, prices, levels and foreign ticks on its key:
      the alert fires exactly when its condition holds, until its mode is used up. */
  lemma {:induction false} FiringsExact(a: AlertItem, p0: real, ms: seq<Moment>)
    requires a.status == Active
    ensures SoloLog(a, p0, ms) == Fired(a.triggerCount, ms, Dues(a, p0, ms))
    ensures Tracks(a, p0, ms, Solo(a, p0, ms))
  {
    if ms != [] {
      hide Tracks, Fired, Dues, Due, Ready, TickItem, Carry, Solo, SoloLog;
      var init, m := ms[..|ms| - 1], ms[|ms| - 1];
      assert ms == init + [m];
      FiringsExact(a, p0, init);
      SoloAppend(a, p0, init, m);
      TrackOne(a, p0, init, m, Solo(a, p0, init));
      DuesAppend(a, p0, init, m);
      FiredAppend(a.triggerCount, init, m, Dues(a, p0, init), Due(a, p0, ms, |init|));
    }
  }

  // ---------------------------------------------------------------------------
  // Firings are crossings
  // ---------------------------------------------------------------------------

  /** Between two moments with a level, every moment has one. */
  predicate Contiguous(ms: seq<Moment>) {
    forall i, j, k :: 0 <= i < j < k < |ms| && LevelAt(ms[i]).Some? && LevelAt(ms[k]).Some? ==>
      LevelAt(ms[j]).Some?
  }

  lemma {:induction false} LastLevelNone(l0: real, ms: seq<Moment>)
    requires forall i :: 0 <= i < |ms| ==> LevelAt(ms[i]).None?
    ensures LastLevel(l0, ms) == l0
  {
    hide LevelAt;
    if ms != [] {
      LastLevelNone(l0, ms[..|ms| - 1]);
    }
  }

  /** Where levels are contiguous, the condition of a new alert holds exactly at the
      events that follow no zero. */
  lemma DueIsDetected(a: AlertItem, p0: real, ms: seq<Moment>, i: nat)
    requires i < |ms| && a.prevDynamicPrice == 0.0 && Contiguous(ms)
    ensures Due(a, p0, ms, i) <==> Detected(ms, i)
  {
    hide LevelAt;
    if i > 0 {
      assert ms[..i][..i - 1] == ms[..i - 1];
      if LevelAt(ms[i]).Some? && LevelAt(ms[i - 1]).None? {
        LastLevelNone(0.0, ms[..i]);
      }
    }
  }

  /** Sound and complete: a new alert, edited or not, fires exactly at the events that
      follow no zero, until its mode is used up. */
  lemma FiringsAreDetections(a: AlertItem, p0: real, ms: seq<Moment>)
    requires a.status == Active && a.prevDynamicPrice == 0.0 && Contiguous(ms)
    ensures SoloLog(a, p0, ms) == Fired(a.triggerCount, ms, Detections(ms))
  {
    hide Fired, SoloLog, Tracks, Contiguous, Due, Detected;
    FiringsExact(a, p0, ms);
    forall i | 0 <= i < |ms|
      ensures Due(a, p0, ms, i) == Detected(ms, i)
    {
      DueIsDetected(a, p0, ms, i);
    }
    assert Dues(a, p0, ms) == Detections(ms);
  }

  /** An event that ought to be reported is lost to a zero at the moment before. */
  predicate LostToZero(count: nat, ms: seq<Moment>, i: nat)
    requires i < |ms|
  {
    Fired(count, ms, Events(ms))[i] && IsCrossing(ms[i].config.condition) && FollowsZero(ms, i)
  }

  /** Up to a point with no lost event, events and detections go together. */
  lemma SameSoFar(count: nat, ms: seq<Moment>, n: nat)
    requires n <= |ms| && forall i :: 0 <= i < n ==> !LostToZero(count, ms, i)
    ensures Ready(count, ms, Events(ms), n) <==> Ready(count, ms, Detections(ms), n)
    ensures Ready(count, ms, Events(ms), n) ==> Events(ms)[..n] == Detections(ms)[..n]
    decreases n
  {
    hide LevelAt, UsedUp, Event, FollowsZero;
    if n > 0 {
      var events, detections := Events(ms), Detections(ms);
      SameSoFar(count, ms, n - 1);
      ReadyNext(count, ms, events, n - 1);
      ReadyNext(count, ms, detections, n - 1);
      if Ready(count, ms, events, n - 1) {
        assert !LostToZero(count, ms, n - 1);
        assert events[..n] == events[..n - 1] + [events[n - 1]];
        assert detections[..n] == detections[..n - 1] + [detections[n - 1]];
      }
    }
  }

  /** The alert reports its events, all of them and nothing else until its mode is
      used up, exactly when none of those directly follows a zero price or level. */
  lemma ZeroesLoseEvents(count: nat, ms: seq<Moment>)
    ensures Fired(count, ms, Detections(ms)) == Fired(count, ms, Events(ms))
            <==> forall i :: 0 <= i < |ms| ==> !LostToZero(count, ms, i)
  {
    hide Event, FollowsZero, Ready;
    if forall i :: 0 <= i < |ms| ==> !LostToZero(count, ms, i) {
      forall i | 0 <= i < |ms|
        ensures Fired(count, ms, Detections(ms))[i] == Fired(count, ms, Events(ms))[i]
      {
        SameSoFar(count, ms, i);
        assert !LostToZero(count, ms, i);
      }
    }
    if i :| 0 <= i < |ms| && LostToZero(count, ms, i) {
      assert !Fired(count, ms, Detections(ms))[i];
    }
  }

  /** No price and no level is zero. */
  predicate NonZero(ms: seq<Moment>) {
    forall i :: 0 <= i < |ms| ==> ms[i].tick.price != 0.0 && LevelAt(ms[i]) != Some(0.0)
  }

  lemma FiringsAreEvents(a: AlertItem, p0: real, ms: seq<Moment>)
    requires a.status == Active && a.prevDynamicPrice == 0.0 && Contiguous(ms) && NonZero(ms)
    ensures SoloLog(a, p0, ms) == Fired(a.triggerCount, ms, Events(ms))
  {
    hide Fired, SoloLog, Event, Contiguous, LevelAt;
    FiringsAreDetections(a, p0, ms);
    assert Detections(ms) == Events(ms);
  }

  // ---------------------------------------------------------------------------
  // Levels stay resolved
  // ---------------------------------------------------------------------------

  /** In every extend mode a line is drawn over one interval of bars. */
  lemma LineLevelConvex(points: seq<(real, real)>, mode: ExtendMode, b0: real, b1: real, b2: real)
    requires b0 <= b1 <= b2 && LineLevel(points, mode, b0).Some? && LineLevel(points, mode, b2).Some?
    ensures LineLevel(points, mode, b1).Some?
  {
  }

  /** Every tick is of the alert's window, and the alert stays at a price, or on one
      drawing of fixed geometry with bars that never go back. */
  ghost predicate Steady(ms: seq<Moment>) {
    && (forall i :: 0 <= i < |ms| ==> ms[i].config.MatchesWindow(ms[i].tick.window))
    && ((forall i :: 0 <= i < |ms| ==> ms[i].config.source.Price?)
        || (&& (forall i :: 0 <= i < |ms| ==> ms[i].config.source.Drawing?)
            && forall i, j :: 0 <= i < j < |ms| ==>
                 && ms[i].config.source.primitiveId == ms[j].config.source.primitiveId
                 && ms[i].tick.drawings == ms[j].tick.drawings && ms[i].tick.bar <= ms[j].tick.bar))
  }

  lemma SteadyContiguous(ms: seq<Moment>)
    requires Steady(ms)
    ensures Contiguous(ms)
  {
    forall i, j, k | 0 <= i < j < k < |ms| && LevelAt(ms[i]).Some? && LevelAt(ms[k]).Some?
      ensures LevelAt(ms[j]).Some?
    {
      if ms[j].config.source.Drawing? {
        hide LineLevel;
        assert ms[i].config.source.Drawing? && ms[k].config.source.Drawing?;
        var (points, mode) := FindDrawing(ms[j].tick.drawings, ms[j].config.source.primitiveId).value;
        LineLevelConvex(points, mode, ms[i].tick.bar, ms[j].tick.bar, ms[k].tick.bar);
      }
    }
  }

  // ---------------------------------------------------------------------------
  // Consequences
  // ---------------------------------------------------------------------------

  /** The price is strictly on one side of the level at moment `i`, and on it or on
      the other side at moment `j`; the condition watches that direction. */
  predicate ChangesSide(condition: AlertCondition, ms: seq<Moment>, i: nat, j: nat)
    requires i < |ms| && j < |ms| && LevelAt(ms[i]).Some? && LevelAt(ms[j]).Some?
  {
    Crossed(condition, ms[i].tick.price, LevelAt(ms[i]).value, ms[j].tick.price, LevelAt(ms[j]).value)
  }

  /** No strict sign change goes by without the event in between. */
  lemma {:induction false} SignChangeHappens(condition: AlertCondition, ms: seq<Moment>, i: nat, j: nat) returns (k: nat)
    requires i < j < |ms| && Contiguous(ms) && LevelAt(ms[i]).Some? && LevelAt(ms[j]).Some?
    requires forall m :: i < m <= j ==> ms[m].config.condition == condition
    requires ChangesSide(condition, ms, i, j)
    ensures i < k <= j && Event(ms, k)
    decreases j - i
  {
    hide LevelAt;
    if i + 1 == j {
      k := j;
    } else {
      assert LevelAt(ms[i + 1]).Some?;
      if ChangesSide(condition, ms, i, i + 1) {
        k := i + 1;
      } else {
        k := SignChangeHappens(condition, ms, i + 1, j);
      }
    }
  }

  // ---------------------------------------------------------------------------
  // Inside the manager
  // ---------------------------------------------------------------------------

  /** The alert with the settings that the edits of a run give it. */
  function Configured(a: AlertItem, ops: seq<Op>): AlertItem {
    if ops == [] then a else Edited(Configured(a, ops[..|ops| - 1]), ops[|ops| - 1])
  }

  /** The call does not remove the alert, nor edit it into a signal alert or into
      another window. */
  predicate Keeps(op: Op, c: AlertItem) {
    if op.UpdateOp? || op.UpdateFullOp?
    then WindowOf(Edited(c, op)) == WindowOf(c) && !Edited(c, op).source.Signal?
    else !Touches(op, c)
  }

  predicate KeptThrough(ops: seq<Op>, a: AlertItem) {
    ops != [] ==>
      var init := ops[..|ops| - 1];
      KeptThrough(init, a) && Keeps(ops[|ops| - 1], Configured(a, init))
  }

  predicate OwnTick(op: Op, w: Window) {
    op.TickOp? && WindowKey(op.tick.window) == WindowKey(w)
  }

  /** The ticks of the alert's price key, each with the settings of its time. */
  function Moments(ops: seq<Op>, a: AlertItem): seq<Moment> {
    if ops == [] then []
    else
      var init, op := ops[..|ops| - 1], ops[|ops| - 1];
      Moments(init, a) + if OwnTick(op, WindowOf(a)) then [Moment(Configured(a, init), op.tick)] else []
  }

  /** The log entries of those ticks. */
  function TickLog(ops: seq<Op>, log: seq<bool>, w: Window): seq<bool>
    requires |log| == |ops|
  {
    if ops == [] then []
    else
      var n := |ops| - 1;
      TickLog(ops[..n], log[..n], w) + if OwnTick(ops[n], w) then [log[n]] else []
  }

  function FirstPrice(s: State, a: AlertItem): real {
    LastPrice(s.lastPrices, WindowKey(WindowOf(a)))
  }

  /** The alert is as edited and as its own ticks left it, it fired at them as it
      would alone, and at no other call. */
  ghost predicate AsAlone(s: State, ops: seq<Op>, a: AlertItem) {
    var w := WindowOf(a);
    var c, ms := Configured(a, ops), Moments(ops, a);
    && IdsOk(Run(s, ops)) && Carry(c, Solo(a, FirstPrice(s, a), ms)) in Run(s, ops).items
    && c.id == a.id && WindowOf(c) == w && !c.source.Signal?
    && LastPrice(Run(s, ops).lastPrices, WindowKey(w)) == PrevPrice(FirstPrice(s, a), ms)
    && TickLog(ops, Log(s, ops, a.id), w) == SoloLog(a, FirstPrice(s, a), ms)
    && forall i :: 0 <= i < |ops| && Log(s, ops, a.id)[i] ==> OwnTick(ops[i], w)
  }

  lemma HistoryAppend(ops: seq<Op>, op: Op, a: AlertItem, log: seq<bool>, fired: bool)
    requires |log| == |ops|
    ensures Configured(a, ops + [op]) == Edited(Configured(a, ops), op)
    ensures Moments(ops + [op], a)
         == Moments(ops, a) + if OwnTick(op, WindowOf(a)) then [Moment(Configured(a, ops), op.tick)] else []
    ensures TickLog(ops + [op], log + [fired], WindowOf(a))
         == TickLog(ops, log, WindowOf(a)) + if OwnTick(op, WindowOf(a)) then [fired] else []
  {
    hide Edited, OwnTick, WindowOf;
    assert (ops + [op])[..|ops|] == ops && (log + [fired])[..|log|] == log;
  }

  lemma CarryTick(c: AlertItem, b: AlertItem, t: Tick, prev: real)
    ensures var r := TickItem(Carry(c, b), t, prev).0;
      Carry(c, r) == r
  {
    hide Level, Fires;
  }

  lemma CarryEdit(c: AlertItem, b: AlertItem, op: Op)
    ensures Edited(Carry(c, b), op) == Carry(Edited(c, op), b)
  {
  }

  lemma CarryKeeps(c: AlertItem, b: AlertItem, op: Op)
    ensures Touches(op, Carry(c, b)) == Touches(op, c) && WindowOf(Carry(c, b)) == WindowOf(c)
    ensures Carry(c, b).id == c.id && Carry(c, b).source == c.source
  {
  }

  /** A call that is neither an edit nor an own tick passes a non-signal alert by. */
  lemma OtherCall(b: AlertItem, s: State, op: Op)
    requires !b.source.Signal? && FullWindow(WindowOf(b)) && !Touches(op, b) && !OwnTick(op, WindowOf(b))
    ensures ItemStep(b, s.lastPrices, op) == (b, false)
    ensures LastPrice(Step(s, op).0.lastPrices, WindowKey(WindowOf(b))) == LastPrice(s.lastPrices, WindowKey(WindowOf(b)))
  {
    hide TickItems, SignalItems, WindowKey, WindowOf, Level, Fires, SignalMatches;
    if !Concerns(op, WindowOf(b)) {
      hide Step;
      ForeignStep(b, s, op);
    }
  }

  lemma TickSetsPrice(s: State, tick: Tick)
    ensures LastPrice(Step(s, TickOp(tick)).0.lastPrices, WindowKey(tick.window)) == tick.price
  {
    hide TickItems, WindowKey;
  }

  lemma KeepsIds(s: State, op: Op, c: AlertItem)
    requires IdsOk(s) && Keeps(op, c)
    ensures IdsOk(Step(s, op).0)
  {
    hide IdsOk, Step;
    StepKeepsIds(s, op);
  }

  /** One call more. */
  lemma AsAloneStep(s: State, ops: seq<Op>, op: Op, a: AlertItem)
    requires AsAlone(s, ops, a) && FullWindow(WindowOf(a)) && Keeps(op, Configured(a, ops))
    ensures AsAlone(s, ops + [op], a)
  {
    hide Step, Run, Log, TickLog, Moments, Configured, Solo, SoloLog, WindowKey, WindowOf, IdsOk, LastPrice,
      TickItem, Carry, Touches, Edited, FirstPrice, FullWindow;
    var c, ms, p0 := Configured(a, ops), Moments(ops, a), FirstPrice(s, a);
    var x, b := Run(s, ops), Carry(c, Solo(a, p0, ms));
    CarryKeeps(c, Solo(a, p0, ms), op);
    RunAppend(s, ops, op, a.id);
    HistoryAppend(ops, op, a, Log(s, ops, a.id), a.id in Step(x, op).1);
    KeepsIds(x, op, c);
    if op.UpdateOp? || op.UpdateFullOp? {
      EditOnItem(x, op, b);
      CarryEdit(c, Solo(a, p0, ms), op);
      EditedId(c, op);
      assert Moments(ops + [op], a) == Moments(ops, a);
    } else if OwnTick(op, WindowOf(a)) {
      UneditedConfig(c, op);
      StepOnItem(x, op, b);
      SoloAppend(a, p0, ms, Moment(c, op.tick));
      CarryTick(c, Solo(a, p0, ms), op.tick, PrevPrice(p0, ms));
      TickSetsPrice(x, op.tick);
    } else {
      UneditedConfig(c, op);
      StepOnItem(x, op, b);
      OtherCall(b, x, op);
      assert Moments(ops + [op], a) == Moments(ops, a);
    }
  }

  lemma EditedId(c: AlertItem, op: Op)
    ensures Edited(c, op).id == c.id
  {
  }

  lemma UneditedConfig(c: AlertItem, op: Op)
    requires !op.UpdateOp? && !op.UpdateFullOp?
    ensures Edited(c, op) == c
  {
  }

  /** In any run that keeps the alert in its window, edits of it included, it behaves
      as it would if only the ticks of its price key and its own edits existed. */
  lemma {:induction false} RunsAsAlone(s: State, ops: seq<Op>, a: AlertItem)
    requires IdsOk(s) && a in s.items && FullWindow(WindowOf(a)) && !a.source.Signal? && KeptThrough(ops, a)
    ensures AsAlone(s, ops, a)
  {
    if ops == [] {
      assert Carry(a, a) == a;
    } else {
      hide AsAlone, Keeps, WindowOf;
      var init, op := ops[..|ops| - 1], ops[|ops| - 1];
      assert ops == init + [op];
      RunsAsAlone(s, init, a);
      AsAloneStep(s, init, op, a);
    }
  }

  /** Exactly what is reported, whatever is edited and whatever the prices: the alert
      fires at the ticks of its key at which its condition holds against the previous
      price of the key and its latest level, until its mode is used up. */
  lemma ManagerFiringsExact(s: State, ops: seq<Op>, a: AlertItem)
    requires IdsOk(s) && a in s.items && FullWindow(WindowOf(a)) && !a.source.Signal? && KeptThrough(ops, a)
    requires a.status == Active
    ensures var ms := Moments(ops, a);
      TickLog(ops, Log(s, ops, a.id), WindowOf(a)) == Fired(a.triggerCount, ms, Dues(a, FirstPrice(s, a), ms))
  {
    hide Run, Log, TickLog, Moments, Configured, Solo, SoloLog, Fired, Dues, WindowOf, IdsOk, KeptThrough, Tracks;
    RunsAsAlone(s, ops, a);
    FiringsExact(a, FirstPrice(s, a), Moments(ops, a));
  }

  /** The whole claim: in any interleaved run of ticks, signal batches and edits, of
      the alert itself too, a new price alert, or drawing alert of fixed geometry, is
      reported at a tick exactly when its event happens there unhidden by a zero, until
      its mode is used up. It is reported at exactly its events if and only if none
      that is due directly follows a zero price or level. */
  lemma ManagerFiringsAreEvents(s: State, ops: seq<Op>, a: AlertItem)
    requires IdsOk(s) && a in s.items && FullWindow(WindowOf(a)) && !a.source.Signal? && KeptThrough(ops, a)
    requires a.status == Active && a.prevDynamicPrice == 0.0 && Steady(Moments(ops, a))
    ensures var ms := Moments(ops, a);
      var log := TickLog(ops, Log(s, ops, a.id), WindowOf(a));
      && log == Fired(a.triggerCount, ms, Detections(ms))
      && (log == Fired(a.triggerCount, ms, Events(ms))
          <==> forall i :: 0 <= i < |ms| ==> !LostToZero(a.triggerCount, ms, i))
  {
    hide Run, Log, TickLog, Moments, Configured, Solo, SoloLog, Fired, Events, Detections, LostToZero, WindowOf, IdsOk,
      KeptThrough, Steady, Contiguous;
    var ms := Moments(ops, a);
    RunsAsAlone(s, ops, a);
    SteadyContiguous(ms);
    FiringsAreDetections(a, FirstPrice(s, a), ms);
    ZeroesLoseEvents(a.triggerCount, ms);
  }

  /** So an alert that repeats reports something between any two ticks on different
      sides of its level, however far apart, unless a zero hides it. */
  lemma SignChangeFires(s: State, ops: seq<Op>, a: AlertItem, i: nat, j: nat) returns (k: nat)
    requires IdsOk(s) && a in s.items && FullWindow(WindowOf(a)) && !a.source.Signal? && KeptThrough(ops, a)
    requires a.status == Active && a.prevDynamicPrice == 0.0 && Steady(Moments(ops, a))
    requires var ms := Moments(ops, a);
      && (forall m :: 0 <= m < |ms| ==> ms[m].config.triggerMode == EveryTime)
      && i < j < |ms| && LevelAt(ms[i]).Some? && LevelAt(ms[j]).Some?
      && (forall m :: i < m <= j ==> ms[m].config.condition == ms[j].config.condition)
      && ChangesSide(ms[j].config.condition, ms, i, j)
    ensures i < k <= j < |TickLog(ops, Log(s, ops, a.id), WindowOf(a))|
    ensures TickLog(ops, Log(s, ops, a.id), WindowOf(a))[k] || FollowsZero(Moments(ops, a), k)
  {
    hide Run, Log, TickLog, Moments, Configured, WindowOf, IdsOk, KeptThrough, Steady, Contiguous, LevelAt, Event,
      FollowsZero, ChangesSide, LostToZero;
    var ms := Moments(ops, a);
    ManagerFiringsAreEvents(s, ops, a);
    SteadyContiguous(ms);
    k := SignChangeHappens(ms[j].config.condition, ms, i, j);
    assert !FollowsZero(ms, k) ==> Detections(ms)[k];
  }

  /** Between two upward reports the price was strictly below the level. */
  lemma UpFiringsSeparated(s: State, ops: seq<Op>, a: AlertItem, i: nat, j: nat) returns (k: nat)
    requires IdsOk(s) && a in s.items && FullWindow(WindowOf(a)) && !a.source.Signal? && KeptThrough(ops, a)
    requires a.status == Active && a.prevDynamicPrice == 0.0 && Steady(Moments(ops, a))
    requires var ms, log := Moments(ops, a), TickLog(ops, Log(s, ops, a.id), WindowOf(a));
      && i < j < |ms| && ms[i].config.condition == ms[j].config.condition == CrossingUp
      && |log| == |ms| && log[i] && log[j]
    ensures var ms := Moments(ops, a);
      i < k < j && LevelAt(ms[k]).Some? && ms[k].tick.price < LevelAt(ms[k]).value
  {
    hide Run, Log, TickLog, Moments, Configured, WindowOf, IdsOk, KeptThrough, Steady, LevelAt, FollowsZero, LostToZero, Ready;
    var ms := Moments(ops, a);
    ManagerFiringsAreEvents(s, ops, a);
    k := j - 1;
    assert Detected(ms, i) && Detected(ms, j);
  }

  // ---------------------------------------------------------------------------
  // What an edit can do to a crossing
  // ---------------------------------------------------------------------------

  /** The previous price lies on the same side of the old and the new price, as far
      as the condition looks. */
  predicate SameSide(condition: AlertCondition, prev: real, old_: real, new_: real) {
    match condition
    case CrossingUp => prev < old_ <==> prev < new_
    case CrossingDown => prev > old_ <==> prev > new_
    case Crossing => (prev < old_ <==> prev < new_) && (prev > old_ <==> prev > new_)
    case _ => true
  }

  /** The next tick at `price` is judged as against the new price alone. */
  predicate JudgedAnew(condition: AlertCondition, prev: real, old_: real, new_: real, price: real) {
    match condition
    case CrossingUp => price < new_ || (prev < old_ <==> prev < new_)
    case CrossingDown => price > new_ || (prev > old_ <==> prev > new_)
    case Crossing =>
      && (price > new_ ==> (prev < old_ <==> prev < new_))
      && (price < new_ ==> (prev > old_ <==> prev > new_))
      && (price == new_ ==> (prev == old_ <==> prev == new_))
    case _ => true
  }

  /** The call edits the alert and leaves it on its source. */
  predicate EditsPrice(op: Op, a: AlertItem) {
    (op.UpdateOp? && op.id == a.id) || (op.UpdateFullOp? && op.id == a.id && op.source == a.source)
  }

  /** After an edit of its price, by either call, a crossing alert reports the next tick
      as the stateless check at the new price would, exactly when this holds ... */
  lemma EditJudgesNextTick(s: State, a: AlertItem, op: Op, tick: Tick)
    requires IdsOk(s) && a in s.items && a.status == Active && a.source.Price? && a.MatchesWindow(tick.window)
    requires EditsPrice(op, a) && IsCrossing(op.condition) && a.prevDynamicPrice == a.price && a.price != 0.0
    requires LastPrice(s.lastPrices, WindowKey(tick.window)) != 0.0
    ensures var prev := LastPrice(s.lastPrices, WindowKey(tick.window));
      var t := Step(s, op).0;
      (a.id in Step(t, TickOp(tick)).1 <==> StatelessCheck(Edited(a, op), prev, tick.price))
      <==> JudgedAnew(op.condition, prev, a.price, op.price, tick.price)
  {
    hide Step, IdsOk, WindowKey, LastPrice;
    var t, b := Step(s, op).0, Edited(a, op);
    StepKeepsIds(s, op);
    EditOnItem(s, op, a);
    StepOnItem(t, TickOp(tick), b);
    EditedPrice(a, op);
  }

  lemma EditedPrice(a: AlertItem, op: Op)
    requires EditsPrice(op, a)
    ensures var b := Edited(a, op);
      && b.price == op.price && b.condition == op.condition && b.source == a.source && b.status == a.status
      && b.prevDynamicPrice == a.prevDynamicPrice && b.id == a.id
      && forall w :: b.MatchesWindow(w) == a.MatchesWindow(w)
  {
  }

  /** ... which holds for every next tick exactly when the last price lies on the same
      side of both: the condition to check before an edit. */
  lemma EditHarmless(condition: AlertCondition, prev: real, old_: real, new_: real)
    ensures (forall price :: JudgedAnew(condition, prev, old_, new_, price)) <==> SameSide(condition, prev, old_, new_)
  {
    if forall price :: JudgedAnew(condition, prev, old_, new_, price) {
      assert JudgedAnew(condition, prev, old_, new_, new_);
      assert JudgedAnew(condition, prev, old_, new_, new_ + 1.0);
      assert JudgedAnew(condition, prev, old_, new_, new_ - 1.0);
    }
  }

  /** A run in which an edit fakes a crossing while the market stands still at 90: an
      alert above 100 is created, sees a tick, is moved to 80 and reports the next. */
  lemma EditFakesCrossing(tick: Tick)
    requires tick.price == 90.0 && tick.window == Window("BTC", "", "S")
    ensures var ops := [CreateOp(Price("BTC"), "level", 100.0, CrossingUp), TickOp(tick),
                        UpdateOp(1, "level", 80.0, CrossingUp), TickOp(tick)];
      Log(State([], 1, map[]), ops, 1) == [false, false, false, true]
  {
    var ops := [CreateOp(Price("BTC"), "level", 100.0, CrossingUp), TickOp(tick),
                UpdateOp(1, "level", 80.0, CrossingUp), TickOp(tick)];
    var s0, a := State([], 1, map[]), NewAlert(1, Price("BTC"), "level", 100.0, CrossingUp);
    var b := a.(prevDynamicPrice := 100.0);
    var c := b.(price := 80.0);
    var s1, s2, s3 := State([a], 2, map[]), State([b], 2, map["BTC" := 90.0]), State([c], 2, map["BTC" := 90.0]);
    CreateFirst(ops[0]);
    OneItemTick(a, 2, map[], tick);
    OneItemEdit(b, 2, map["BTC" := 90.0], "level", 80.0, CrossingUp);
    OneItemTick(c, 2, map["BTC" := 90.0], tick);
    assert Step(s1, ops[1]) == (s2, []);
    assert Step(s2, ops[2]) == (s3, []);
    assert 1 in Step(s3, ops[3]).1;
    hide Step;
    ThreeCalls(s0, ops[0], ops[1], ops[2], 1);
    RunAppend(s0, [ops[0], ops[1], ops[2]], ops[3], 1);
    assert [ops[0], ops[1], ops[2]] + [ops[3]] == ops;
  }

  lemma CreateFirst(op: Op)
    requires op.CreateOp?
    ensures Step(State([], 1, map[]), op) == (State([NewAlert(1, op.source, op.name, op.price, op.condition)], 2, map[]), [])
  {
    var none: seq<AlertItem> := [];
    var a := NewAlert(1, op.source, op.name, op.price, op.condition);
    assert none + [a] == [a];
  }

  lemma OneItemTick(a: AlertItem, nextId: nat, lastPrices: map<string, real>, tick: Tick)
    ensures var key := WindowKey(tick.window);
      var (b, fired) := TickItem(a, tick, LastPrice(lastPrices, key));
      Step(State([a], nextId, lastPrices), TickOp(tick))
        == (State([b], nextId, lastPrices[key := tick.price]), if fired then [a.id] else [])
  {
    hide TickItem, WindowKey;
    var prev := LastPrice(lastPrices, WindowKey(tick.window));
    var none: seq<AlertItem>, noIds: seq<nat> := [], [];
    assert [a][..0] == none && TickItems(none, tick, prev) == (none, noIds);
    assert none + [TickItem(a, tick, prev).0] == [TickItem(a, tick, prev).0] && noIds + [a.id] == [a.id];
  }

  lemma OneItemEdit(a: AlertItem, nextId: nat, lastPrices: map<string, real>, name: string, price: real, condition: AlertCondition)
    ensures Step(State([a], nextId, lastPrices), UpdateOp(a.id, name, price, condition))
         == (State([NewCore(name, price, condition)(a)], nextId, lastPrices), [])
  {
    var f := NewCore(name, price, condition);
    assert [f(a)] + [a][1..] == [f(a)];
    assert Edit([a], a.id, f) == [f(a)];
  }

  /** A zero hides a crossing: an alert above 100 is created, sees a tick at zero and
      misses the one at 105, which is its event. */
  lemma ZeroHidesCrossing(zero: Tick, up: Tick)
    requires zero.price == 0.0 && up.price == 105.0 && zero.window == up.window == Window("BTC", "", "S")
    ensures var a := NewAlert(1, Price("BTC"), "level", 100.0, CrossingUp);
      && Log(State([], 1, map[]), [CreateOp(Price("BTC"), "level", 100.0, CrossingUp), TickOp(zero), TickOp(up)], 1)
         == [false, false, false]
      && Event([Moment(a, zero), Moment(a, up)], 1)
  {
    var ops := [CreateOp(Price("BTC"), "level", 100.0, CrossingUp), TickOp(zero), TickOp(up)];
    var s0, a := State([], 1, map[]), NewAlert(1, Price("BTC"), "level", 100.0, CrossingUp);
    var b := a.(prevDynamicPrice := 100.0);
    var s1, s2 := State([a], 2, map[]), State([b], 2, map["BTC" := 0.0]);
    CreateFirst(ops[0]);
    OneItemTick(a, 2, map[], zero);
    OneItemTick(b, 2, map["BTC" := 0.0], up);
    assert Step(s1, ops[1]) == (s2, []);
    assert Step(s2, ops[2]).1 == [];
    hide Step;
    ThreeCalls(s0, ops[0], ops[1], ops[2], 1);
  }

  // ---------------------------------------------------------------------------
  // What a tick of another window with the same key can do
  // ---------------------------------------------------------------------------

  /** A crossing alert that remembers `level` takes the last price `shown` for `prev`
      without a difference to any later tick. Zero stands for "no previous value". */
  predicate SameView(condition: AlertCondition, prev: real, shown: real, level: real) {
    var below := (prev != 0.0 && prev < level) <==> (shown != 0.0 && shown < level);
    var above := (prev != 0.0 && prev > level) <==> (shown != 0.0 && shown > level);
    match condition
    case CrossingUp => level != 0.0 ==> below
    case CrossingDown => level != 0.0 ==> above
    case Crossing => level != 0.0 ==> below && above
    case _ => true
  }

  /** The alert's own tick is reported after the intruder as it would be without. */
  predicate JudgedAlike(s: State, a: AlertItem, intruder: Tick, own: Tick) {
    a.id in Step(Step(s, TickOp(intruder)).0, TickOp(own)).1 <==> a.id in Step(s, TickOp(own)).1
  }

  /** The alert resolves a level where there is one: on a price, a drawing or an
      indicator. */
  predicate HasLevel(a: AlertItem) {
    a.source.Price? || a.source.Drawing? || a.source.Indicator?
  }

  /** A tick of the window with the given distance from the alert's level. */
  function TickNear(a: AlertItem, distance: real): Tick {
    var drawings := if a.source.Drawing? then [(a.source.primitiveId, [(0.0, 1.0)], NoExtend)] else [];
    var indicators := if a.source.Indicator? then [(a.source.indicatorId, a.source.outputIndex, [1.0])] else [];
    Tick((if a.source.Price? then a.price else 1.0) + distance, 0.0, WindowOf(a), drawings, indicators)
  }

  lemma NearLevel(a: AlertItem, distance: real)
    requires HasLevel(a)
    ensures Level(a, TickNear(a, distance)) == Some(TickNear(a, distance).price - distance)
  {
  }

  /** What the two runs compare the own tick with. */
  lemma IntrudedTick(s: State, a: AlertItem, intruder: Tick, own: Tick)
    requires IdsOk(s) && a in s.items && a.status == Active && FullWindow(WindowOf(a)) && own.window == WindowOf(a)
    requires WindowKey(intruder.window) == WindowKey(WindowOf(a)) && intruder.window != WindowOf(a)
    ensures JudgedAlike(s, a, intruder, own) <==>
              (Level(a, own).Some? ==>
                 var prev := LastPrice(s.lastPrices, WindowKey(WindowOf(a)));
                 (Fires(a.condition, intruder.price, a.prevDynamicPrice, own.price, Level(a, own).value)
                  <==> Fires(a.condition, prev, a.prevDynamicPrice, own.price, Level(a, own).value)))
  {
    hide Step, IdsOk, WindowKey, LastPrice, Level, Fires;
    var t := Step(s, TickOp(intruder)).0;
    StepKeepsIds(s, TickOp(intruder));
    StepOnItem(s, TickOp(intruder), a);
    assert !a.MatchesWindow(intruder.window);
    TickSetsPrice(s, intruder);
    StepOnItem(s, TickOp(own), a);
    StepOnItem(t, TickOp(own), a);
  }

  /** A tick of another window with the alert's price key makes no difference to any
      next tick of the alert if and only if the alert has the same view of both prices:
      it can be checked before the tick. */
  lemma IntruderHarmless(s: State, a: AlertItem, intruder: Tick)
    requires IdsOk(s) && a in s.items && a.status == Active && FullWindow(WindowOf(a)) && HasLevel(a)
    requires WindowKey(intruder.window) == WindowKey(WindowOf(a)) && intruder.window != WindowOf(a)
    ensures (forall own: Tick :: own.window == WindowOf(a) ==> JudgedAlike(s, a, intruder, own))
            <==> SameView(a.condition, LastPrice(s.lastPrices, WindowKey(WindowOf(a))), intruder.price, a.prevDynamicPrice)
  {
    hide Step, IdsOk, WindowKey, LastPrice, Level, WindowOf, FullWindow, JudgedAlike;
    var prev := LastPrice(s.lastPrices, WindowKey(WindowOf(a)));
    if SameView(a.condition, prev, intruder.price, a.prevDynamicPrice) {
      forall own: Tick | own.window == WindowOf(a)
        ensures JudgedAlike(s, a, intruder, own)
      {
        IntrudedTick(s, a, intruder, own);
      }
    } else {
      var above, below := TickNear(a, 1.0), TickNear(a, -1.0);
      NearLevel(a, 1.0);
      NearLevel(a, -1.0);
      IntrudedTick(s, a, intruder, above);
      IntrudedTick(s, a, intruder, below);
      assert !JudgedAlike(s, a, intruder, above) || !JudgedAlike(s, a, intruder, below);
    }
  }

  /** A run in which such a tick hides a crossing: the market goes from 90 to 105, past
      the level 100, but the key of the window, spelt as a symbol, shows 110 between. */
  lemma SharedKeyHidesCrossing(low: Tick, intruder: Tick, high: Tick)
    requires low.window == high.window == Window("BTC", "binance", "S") && low.price == 90.0 && high.price == 105.0
    requires intruder.window == Window("binance:BTC:S", "", "") && intruder.price == 110.0
    ensures var a := NewAlert(1, Price("BTC"), "level", 100.0, CrossingUp).(exchange := "binance");
      var s := State([], 1, map[]);
      && Log(s, [RestoreOp([a]), TickOp(low), TickOp(high)], 1) == [false, false, true]
      && Log(s, [RestoreOp([a]), TickOp(low), TickOp(intruder), TickOp(high)], 1) == [false, false, false, false]
  {
    var a := NewAlert(1, Price("BTC"), "level", 100.0, CrossingUp).(exchange := "binance");
    var b := a.(prevDynamicPrice := 100.0);
    var key := "binance:BTC:S";
    var s0, s1 := State([], 1, map[]), State([a], 2, map[]);
    var s2, s3 := State([b], 2, map[key := 90.0]), State([b], 2, map[key := 110.0]);
    assert WindowKey(low.window) == key by { assert "binance" + ":" + "BTC" + ":" + "S" == key; }
    RestoreOne(a);
    OneItemTick(a, 2, map[], low);
    OneItemTick(b, 2, map[key := 90.0], high);
    OneItemTick(b, 2, map[key := 90.0], intruder);
    OneItemTick(b, 2, map[key := 110.0], high);
    assert Step(s1, TickOp(low)) == (s2, []);
    assert Step(s2, TickOp(high)).1 == [1];
    assert WindowKey(intruder.window) == key;
    assert s2.lastPrices[key := 110.0] == s3.lastPrices;
    assert Step(s2, TickOp(intruder)) == (s3, []);
    assert Step(s3, TickOp(high)).1 == [];
    hide Step;
    ThreeCalls(s0, RestoreOp([a]), TickOp(low), TickOp(high), 1);
    ThreeCalls(s0, RestoreOp([a]), TickOp(low), TickOp(intruder), 1);
    RunAppend(s0, [RestoreOp([a]), TickOp(low), TickOp(intruder)], TickOp(high), 1);
    assert [RestoreOp([a]), TickOp(low), TickOp(intruder)] + [TickOp(high)]
        == [RestoreOp([a]), TickOp(low), TickOp(intruder), TickOp(high)];
  }

  lemma RestoreOne(a: AlertItem)
    requires a.id == 1
    ensures Step(State([], 1, map[]), RestoreOp([a])) == (State([a], 2, map[]), [])
  {
    assert [a][..0] == [] && MaxId([]) == 0;
    assert MaxId([a]) == 1;
  }

  lemma ThreeCalls(s: State, x: Op, y: Op, z: Op, id: nat)
    ensures var s1 := Step(s, x).0;
      var s2 := Step(s1, y).0;
      && Run(s, [x, y, z]) == Step(s2, z).0
      && Log(s, [x, y, z], id) == [id in Step(s, x).1, id in Step(s1, y).1, id in Step(s2, z).1]
  {
    hide Step;
    RunAppend(s, [], x, id);
    RunAppend(s, [x], y, id);
    RunAppend(s, [x, y], z, id);
    assert [] + [x] == [x] && [x] + [y] == [x, y] && [x, y] + [z] == [x, y, z];
    assert Run(s, []) == s && Log(s, [], id) == [];
  }
}
