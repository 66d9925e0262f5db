/** The hand-off between the main thread and the GPU render thread
    (`crates/chart-app-vello/src/main.rs` and `render/gpu_thread.rs`), as a step
    relation. Scenes are numbers; the histories `built` and `drawn` are recorded. */
module GpuPipeline {

  type WinId = nat
  type Scene = nat

  /** Double-buffered scenes of a window. */
  datatype Win = Win(scene: Scene, gpuScene: Scene, initial: Scene, built: seq<Scene>, drawn: seq<Scene>)

  datatype Cmd = Submit(windows: seq<WinId>) | Shutdown

  datatype RenderThread = Idle | Busy(todo: seq<WinId>) | Exited

  /** Where the main thread is: handling events, past the wait of a frame, past the
      swap, building scenes, dropping windows, or shutting down. */
  datatype MainThread =
    | Events
    | Ready
    | Swapped(active: seq<WinId>)
    | Building(todo: seq<WinId>)
    | Dropping
    | Closing
    | Joining
    | Stopped

  datatype State = State(
    main: MainThread,
    pending: bool,
    cmds: seq<Cmd>,
    dones: nat,
    render: RenderThread,
    windows: map<WinId, Win>,
    timeouts: nat)

  datatype Step =
    // main thread
    | CreateWindow(id: WinId, initial: Scene, blank: Scene)
    | BeginFrame
    | Swap(active: seq<WinId>)
    | Send
    | Build(id: WinId, scene: Scene)
    | EndFrame
    | BeginDrop
    | DropWindow(id: WinId)
    | EndDrop
    | TimedWait
    | TimeOut
    | BeginClose
    | SendShutdown
    | Join
    // render thread
    | Take
    | Draw
    | Finish

  const Start := State(Events, false, [], 0, Idle, map[], 0)

  predicate Distinct(s: seq<WinId>) {
    forall i, j :: 0 <= i < j < |s| ==> s[i] != s[j]
  }

  /** A blocking wait returns at once without a pending frame, else when an
      acknowledgement is there. */
  predicate CanWait(g: State) {
    g.pending ==> g.dones > 0
  }

  function Waited(g: State): State
    requires CanWait(g)
  {
    if g.pending then g.(dones := g.dones - 1, pending := false) else g
  }

  /** The capacity-1 command channel has room. */
  predicate CanSend(g: State) {
    g.cmds == []
  }

  predicate Enabled(g: State, step: Step) {
    match step
    case CreateWindow(id, _, _) => (g.main == Events || g.main == Dropping) && id !in g.windows
    case BeginFrame => g.main == Events && CanWait(g)
    case Swap(active) => g.main == Ready && Distinct(active) && forall w :: w in active ==> w in g.windows
    case Send => g.main.Swapped? && (g.main.active != [] ==> CanSend(g))
    case Build(id, _) => g.main.Building? && id in g.main.todo && id in g.windows
    case EndFrame => g.main == Building([])
    case BeginDrop => g.main == Events && CanWait(g)
    case DropWindow(id) => g.main == Dropping && id in g.windows
    case EndDrop => g.main == Dropping
    case TimedWait => g.main == Events && CanWait(g)
    case TimeOut => g.main == Events && g.pending && g.dones == 0
    case BeginClose => g.main == Events && CanWait(g)
    case SendShutdown => g.main == Closing && CanSend(g)
    case Join => g.main == Joining && g.render == Exited
    case Take => g.render == Idle && g.cmds != []
    case Draw => g.render.Busy? && g.render.todo != [] && g.render.todo[0] in g.windows
    case Finish => g.render == Busy([])
  }

  function SwappedWin(w: Win): Win {
    w.(scene := w.gpuScene, gpuScene := w.scene)
  }

  function Without(s: seq<WinId>, id: WinId): seq<WinId> {
    if s == [] then [] else if s[0] == id then s[1..] else [s[0]] + Without(s[1..], id)
  }

  function Next(g: State, step: Step): State
    requires Enabled(g, step)
  {
    match step
    case CreateWindow(id, initial, blank) => g.(windows := g.windows[id := Win(initial, blank, initial, [], [])])
    case BeginFrame => Waited(g).(main := Ready)
    case Swap(active) =>
      g.(main := Swapped(active),
         windows := map w | w in g.windows :: if w in active then SwappedWin(g.windows[w]) else g.windows[w])
    case Send =>
      var active := g.main.active;
      if active == [] then g.(main := Building([]))
      else g.(main := Building(active), cmds := g.cmds + [Submit(active)], pending := true)
    case Build(id, scene) =>
      var w := g.windows[id];
      g.(main := Building(Without(g.main.todo, id)),
         windows := g.windows[id := w.(scene := scene, built := w.built + [scene])])
    case EndFrame => g.(main := Events)
    case BeginDrop => Waited(g).(main := Dropping)
    case DropWindow(id) => g.(windows := g.windows - {id})
    case EndDrop => g.(main := Events)
    case TimedWait => Waited(g)
    case TimeOut => g.(pending := false, timeouts := g.timeouts + 1)
    case BeginClose => Waited(g).(main := Closing)
    case SendShutdown => g.(main := Joining, cmds := g.cmds + [Shutdown])
    case Join => g.(main := Stopped)
    case Take =>
      (match g.cmds[0]
       case Submit(windows) => g.(cmds := g.cmds[1..], render := Busy(windows))
       case Shutdown => g.(cmds := g.cmds[1..], render := Exited))
    case Draw =>
      var id := g.render.todo[0];
      var w := g.windows[id];
      g.(render := Busy(g.render.todo[1..]), windows := g.windows[id := w.(drawn := w.drawn + [w.gpuScene])])
    case Finish => g.(render := Idle, dones := g.dones + 1)
  }

  /** A run: every step is enabled where it is taken. */
  predicate IsRun(steps: seq<Step>)
    decreases |steps|, 0
  {
    steps != [] ==> IsRun(steps[..|steps| - 1]) && Enabled(After(steps[..|steps| - 1]), steps[|steps| - 1])
  }

  function After(steps: seq<Step>): State
    requires IsRun(steps)
    decreases |steps|, 1
  {
    if steps == [] then Start else Next(After(steps[..|steps| - 1]), steps[|steps| - 1])
  }

  // ---------------------------------------------------------------------------
  // Counting
  // ---------------------------------------------------------------------------

  /** Submits that the main thread has not seen acknowledged. */
  function Outstanding(g: State): nat {
    (if g.cmds != [] && g.cmds[0].Submit? then 1 else 0) + (if g.render.Busy? then 1 else 0) + g.dones
  }

  function Flag(b: bool): nat {
    if b then 1 else 0
  }

  predicate Counted(g: State) {
    && |g.cmds| <= 1
    && Outstanding(g) == Flag(g.pending) + g.timeouts
    && (!g.main.Events? && !g.main.Building? ==> !g.pending)
    && (g.render == Exited ==> g.cmds == [] && (g.main == Joining || g.main == Stopped))
    && (g.cmds != [] && g.cmds[0].Shutdown? ==> g.main == Joining)
    && (g.main == Joining ==> g.cmds == [Shutdown] || g.render == Exited)
    && (g.main == Stopped ==> g.render == Exited)
  }

  lemma CountedStep(g: State, step: Step)
    requires Counted(g) && Enabled(g, step)
    ensures Counted(Next(g, step))
  {
    hide Without;
  }

  /** In every run the unacknowledged submits are one for a pending frame and one
      for each timed-out wait so far. */
  lemma {:induction false} OutstandingIsPendingPlusTimeouts(steps: seq<Step>)
    requires IsRun(steps)
    ensures Counted(After(steps))
  {
    if steps != [] {
      hide Next, Enabled, Counted;
      var init := steps[..|steps| - 1];
      OutstandingIsPendingPlusTimeouts(init);
      CountedStep(After(init), steps[|steps| - 1]);
    }
  }

  /** The render thread holds nothing of the main thread's windows. */
  predicate Quiet(g: State) {
    !g.render.Busy? && g.cmds == [] && g.dones == 0
  }

  /** At every scene swap, send and window drop, and before shutdown, both channels
      are empty and the render thread is not working, exactly when no wait has ever
      timed out. */
  lemma HandOffSafe(steps: seq<Step>)
    requires IsRun(steps)
    requires After(steps).main in {Ready, Dropping, Closing} || After(steps).main.Swapped?
    ensures Quiet(After(steps)) <==> After(steps).timeouts == 0
    ensures After(steps).timeouts == 0 ==> CanSend(After(steps))
  {
    hide IsRun, After;
    OutstandingIsPendingPlusTimeouts(steps);
  }

  // ---------------------------------------------------------------------------
  // What is drawn
  // ---------------------------------------------------------------------------

  /** Windows whose GPU scene is still to be drawn. */
  function Undrawn(g: State): seq<WinId> {
    if g.main.Swapped? then g.main.active
    else if g.cmds != [] && g.cmds[0].Submit? then g.cmds[0].windows
    else if g.render.Busy? then g.render.todo
    else []
  }

  /** Windows whose CPU scene is the stale buffer of the last swap. */
  function Stale(g: State): seq<WinId> {
    match g.main
    case Swapped(active) => active
    case Building(todo) => todo
    case _ => []
  }

  /** All scenes of a window, in the order they were made. */
  function Made(w: Win): seq<Scene> {
    [w.initial] + w.built
  }

  function OneIf(b: bool, s: Scene): seq<Scene> {
    if b then [s] else []
  }

  /** Drawn, then in flight, then on the CPU side: nothing skipped or repeated. */
  predicate InOrder(w: Win, undrawn: bool, stale: bool) {
    Made(w) == w.drawn + OneIf(undrawn, w.gpuScene) + OneIf(!stale, w.scene)
  }

  predicate Pipelined(g: State) {
    && Distinct(Undrawn(g)) && (forall w :: w in Undrawn(g) ==> w in g.windows)
    && Distinct(Stale(g)) && (forall w :: w in Stale(g) ==> w in g.windows)
    && forall w :: w in g.windows ==> InOrder(g.windows[w], w in Undrawn(g), w in Stale(g))
  }

  lemma {:induction false} WithoutMembers(s: seq<WinId>, id: WinId)
    requires Distinct(s) && id in s
    ensures Distinct(Without(s, id)) && forall w :: w in Without(s, id) <==> w in s && w != id
  {
    assert s == [s[0]] + s[1..];
    if s[0] != id {
      WithoutMembers(s[1..], id);
      assert s[0] !in s[1..];
      var rest := Without(s[1..], id);
      assert forall i :: 0 <= i < |rest| ==> rest[i] in rest && rest[i] != s[0];
    }
  }

  lemma InOrderDraw(w: Win, stale: bool)
    requires InOrder(w, true, stale)
    ensures InOrder(w.(drawn := w.drawn + [w.gpuScene]), false, stale)
  {
  }

  lemma InOrderBuild(w: Win, undrawn: bool, scene: Scene)
    requires InOrder(w, undrawn, true)
    ensures InOrder(w.(scene := scene, built := w.built + [scene]), undrawn, false)
  {
    assert Made(w.(scene := scene, built := w.built + [scene])) == Made(w) + [scene];
  }

  lemma InOrderSwap(w: Win)
    requires InOrder(w, false, false)
    ensures InOrder(SwappedWin(w), true, true)
  {
  }

  lemma NewWindowInOrder(w: Win)
    requires w.scene == w.initial && w.built == [] && w.drawn == []
    ensures InOrder(w, false, false)
  {
  }

  lemma CreatePipelined(g: State, id: WinId, initial: Scene, blank: Scene)
    requires Pipelined(g) && Enabled(g, CreateWindow(id, initial, blank))
    ensures Pipelined(Next(g, CreateWindow(id, initial, blank)))
  {
    hide InOrder;
    NewWindowInOrder(Win(initial, blank, initial, [], []));
  }

  lemma SwapPipelined(g: State, active: seq<WinId>)
    requires Pipelined(g) && Quiet(g) && Enabled(g, Swap(active))
    ensures Pipelined(Next(g, Swap(active)))
  {
    hide InOrder;
    forall w | w in active
      ensures InOrder(SwappedWin(g.windows[w]), true, true)
    {
      InOrderSwap(g.windows[w]);
    }
  }

  lemma SendPipelined(g: State)
    requires Pipelined(g) && Quiet(g) && Enabled(g, Send)
    ensures Pipelined(Next(g, Send))
  {
    hide InOrder;
  }

  lemma BuildPipelined(g: State, id: WinId, scene: Scene)
    requires Pipelined(g) && Enabled(g, Build(id, scene))
    ensures Pipelined(Next(g, Build(id, scene)))
  {
    hide InOrder, Without, Undrawn;
    var h := Next(g, Build(id, scene));
    assert Undrawn(h) == Undrawn(g) by { UndrawnSame(g, h); }
    WithoutMembers(g.main.todo, id);
    InOrderBuild(g.windows[id], id in Undrawn(g), scene);
  }

  lemma UndrawnSame(g: State, h: State)
    requires g.cmds == h.cmds && g.render == h.render && !g.main.Swapped? && !h.main.Swapped?
    ensures Undrawn(g) == Undrawn(h)
  {
  }

  lemma DrawPipelined(g: State)
    requires Pipelined(g) && Counted(g) && g.timeouts == 0 && Enabled(g, Draw)
    ensures Pipelined(Next(g, Draw))
  {
    hide InOrder;
    var id := g.render.todo[0];
    var rest := g.render.todo[1..];
    assert g.render.todo == [id] + rest && Undrawn(g) == g.render.todo && Undrawn(Next(g, Draw)) == rest;
    InOrderDraw(g.windows[id], id in Stale(g));
  }

  lemma RenderPipelined(g: State, step: Step)
    requires Pipelined(g) && Counted(g) && g.timeouts == 0 && Enabled(g, step) && (step == Take || step == Finish)
    ensures Pipelined(Next(g, step))
  {
    hide InOrder;
    assert Undrawn(Next(g, step)) == Undrawn(g);
  }

  lemma DropPipelined(g: State, id: WinId)
    requires Pipelined(g) && Quiet(g) && Enabled(g, DropWindow(id))
    ensures Pipelined(Next(g, DropWindow(id)))
  {
    hide InOrder;
  }

  /** The steps that only move the main thread along. */
  lemma MovePipelined(g: State, step: Step)
    requires Pipelined(g) && Counted(g) && g.timeouts == 0 && Enabled(g, step)
    requires step in {BeginFrame, EndFrame, BeginDrop, EndDrop, TimedWait, BeginClose, SendShutdown, Join}
    ensures Pipelined(Next(g, step))
  {
    hide InOrder;
    assert Undrawn(Next(g, step)) == Undrawn(g) && Stale(Next(g, step)) == Stale(g);
  }

  lemma PipelinedStep(g: State, step: Step)
    requires Counted(g) && Pipelined(g) && Enabled(g, step) && Next(g, step).timeouts == 0
    ensures g.timeouts == 0 && Pipelined(Next(g, step))
  {
    hide Pipelined;
    match step
    case CreateWindow(id, initial, blank) => CreatePipelined(g, id, initial, blank);
    case Swap(active) => SwapPipelined(g, active);
    case Send => SendPipelined(g);
    case Build(id, scene) => BuildPipelined(g, id, scene);
    case DropWindow(id) => DropPipelined(g, id);
    case Draw => DrawPipelined(g);
    case Take => RenderPipelined(g, Take);
    case Finish => RenderPipelined(g, Finish);
    case TimeOut =>
    case _ => MovePipelined(g, step);
  }

  lemma {:induction false} PipelinedRun(steps: seq<Step>)
    requires IsRun(steps) && After(steps).timeouts == 0
    ensures Pipelined(After(steps))
  {
    if steps != [] {
      hide Next, Enabled, Pipelined, Counted;
      var init := steps[..|steps| - 1];
      OutstandingIsPendingPlusTimeouts(init);
      TimeoutsGrow(After(init), steps[|steps| - 1]);
      PipelinedRun(init);
      PipelinedStep(After(init), steps[|steps| - 1]);
    }
  }

  lemma TimeoutsGrow(g: State, step: Step)
    requires Enabled(g, step)
    ensures g.timeouts <= Next(g, step).timeouts
  {
  }

  /** Without timeouts, whatever windows are minimised in which frames, the render
      thread draws each window's initial scene and then the built ones in order, one
      frame late: at the start of a frame all but the newest have been drawn. And
      every window it is given still exists. */
  lemma RenderingRefinesBuilding(steps: seq<Step>)
    requires IsRun(steps) && After(steps).timeouts == 0
    ensures var end := After(steps);
      && (forall w :: w in end.windows ==> DrawnInOrder(end.windows[w]))
      && (end.main == Ready ==> forall w :: w in end.windows ==>
            end.windows[w].drawn + [end.windows[w].scene] == Made(end.windows[w]))
      && (end.render.Busy? ==> forall w :: w in end.render.todo ==> w in end.windows)
  {
    hide IsRun, After, Next, Enabled;
    PipelinedRun(steps);
    OutstandingIsPendingPlusTimeouts(steps);
  }

  predicate Blocked(g: State) {
    || (g.main == Events && !CanWait(g))
    || (g.main.Swapped? && !CanSend(g))
    || (g.main == Closing && !CanSend(g))
    || (g.main == Joining && g.render != Exited)
  }

  predicate RenderCanStep(g: State) {
    Enabled(g, Take) || Enabled(g, Draw) || Enabled(g, Finish)
  }

  /** A main thread that waits for an acknowledgement, or for room in the channel,
      waits for a render thread that still has something to do; without timeouts that
      thread can always take its next step, so there is no deadlock. */
  lemma WaitsEnd(steps: seq<Step>)
    requires IsRun(steps) && Blocked(After(steps))
    ensures After(steps).render.Busy? || Enabled(After(steps), Take)
    ensures After(steps).timeouts == 0 ==> RenderCanStep(After(steps))
  {
    hide IsRun, After, InOrder;
    OutstandingIsPendingPlusTimeouts(steps);
    if After(steps).timeouts == 0 {
      PipelinedRun(steps);
      assert After(steps).render.Busy? ==> Undrawn(After(steps)) == After(steps).render.todo;
    }
  }

  /** The steps the render thread can take before it is idle with an empty channel. */
  function RenderWork(g: State): nat {
    CmdWork(g.cmds) + if g.render.Busy? then |g.render.todo| + 1 else 0
  }

  function CmdWork(cmds: seq<Cmd>): nat {
    if cmds == [] then 0
    else CmdWork(cmds[1..]) + match cmds[0] { case Submit(windows) => |windows| + 2 case Shutdown => 1 }
  }

  /** Each of its steps uses one up, so every wait ends. */
  lemma RenderStepsEnd(g: State, step: Step)
    requires step in {Take, Draw, Finish} && Enabled(g, step)
    ensures RenderWork(Next(g, step)) == RenderWork(g) - 1
  {
  }

  /** The drawn scenes are the first ones made, at most two behind. */
  predicate DrawnInOrder(w: Win) {
    |Made(w)| - 2 <= |w.drawn| <= |Made(w)| && w.drawn == Made(w)[..|w.drawn|]
  }

  // ---------------------------------------------------------------------------
  // After a timeout
  // ---------------------------------------------------------------------------

  const BeforeTimeOut := [CreateWindow(0, 1, 2), BeginFrame, Swap([0]), Send, Build(0, 3), EndFrame, Take]

  lemma RunOne(steps: seq<Step>, step: Step)
    requires IsRun(steps) && Enabled(After(steps), step)
    ensures IsRun(steps + [step]) && After(steps + [step]) == Next(After(steps), step)
  {
    assert (steps + [step])[..|steps|] == steps;
  }

  lemma Prefixes(s: seq<Step>, n: nat)
    requires n < |s|
    ensures s[..n + 1] == s[..n] + [s[n]]
  {
  }

  /** The first frame up to its send. */
  lemma FirstSend()
    ensures IsRun(BeforeTimeOut[..4])
    ensures After(BeforeTimeOut[..4]) == State(Building([0]), true, [Submit([0])], 0, Idle, map[0 := Win(2, 1, 1, [], [])], 0)
  {
    hide IsRun, After;
    var s := BeforeTimeOut;
    EmptyRun();
    assert s[..0] == [];
    Prefixes(s, 0);
    RunOne(s[..0], s[0]);
    assert After(s[..1]) == State(Events, false, [], 0, Idle, map[0 := Win(1, 2, 1, [], [])], 0);
    Prefixes(s, 1);
    RunOne(s[..1], s[1]);
    assert After(s[..2]) == State(Ready, false, [], 0, Idle, map[0 := Win(1, 2, 1, [], [])], 0);
    Prefixes(s, 2);
    RunOne(s[..2], s[2]);
    assert After(s[..3]) == State(Swapped([0]), false, [], 0, Idle, map[0 := Win(2, 1, 1, [], [])], 0);
    Prefixes(s, 3);
    RunOne(s[..3], s[3]);
  }

  /** The render thread has just taken the first frame. */
  lemma FirstFrame()
    ensures IsRun(BeforeTimeOut)
    ensures After(BeforeTimeOut) == State(Events, true, [], 0, Busy([0]), map[0 := Win(3, 1, 1, [3], [])], 0)
  {
    hide IsRun, After;
    var s := BeforeTimeOut;
    FirstSend();
    Prefixes(s, 4);
    RunOne(s[..4], s[4]);
    var none: seq<Scene> := [];
    assert Without([0], 0) == [] && none + [3] == [3];
    assert map[0 := Win(2, 1, 1, [], [])][0 := Win(3, 1, 1, [3], [])] == map[0 := Win(3, 1, 1, [3], [])];
    assert After(s[..5]) == State(Building([]), true, [Submit([0])], 0, Idle, map[0 := Win(3, 1, 1, [3], [])], 0);
    Prefixes(s, 5);
    RunOne(s[..5], s[5]);
    Prefixes(s, 6);
    RunOne(s[..6], s[6]);
    assert s[..7] == s;
  }

  lemma EmptyRun()
    ensures IsRun([]) && After([]) == Start
  {
  }

  /** After timeouts a hand-off is still harmless exactly when the acknowledgement of
      every timed-out frame has come in. */
  lemma HarmlessAfterTimeout(steps: seq<Step>)
    requires IsRun(steps)
    requires After(steps).main in {Ready, Dropping, Closing} || After(steps).main.Swapped?
    ensures !After(steps).render.Busy? && After(steps).cmds == [] <==> After(steps).dones == After(steps).timeouts
  {
    hide IsRun, After;
    OutstandingIsPendingPlusTimeouts(steps);
  }

  /** A timed-out wait lets the next frame begin, and swap scenes, while the render
      thread is still reading them. */
  lemma SwapWhileBusy()
    ensures var steps := BeforeTimeOut + [TimeOut] + [BeginFrame];
      && IsRun(steps) && After(steps).main == Ready && After(steps).render == Busy([0])
      && Enabled(After(steps), Swap([0]))
  {
    hide IsRun, After, BeforeTimeOut;
    FirstFrame();
    RunOne(BeforeTimeOut, TimeOut);
    RunOne(BeforeTimeOut + [TimeOut], BeginFrame);
  }

  // ---------------------------------------------------------------------------
  // To the end
  // ---------------------------------------------------------------------------

  /** When the main thread has stopped, the render thread is gone, nothing is queued, and
      only the acknowledgements of timed-out waits were never taken. */
  lemma StoppedIsQuiet(steps: seq<Step>)
    requires IsRun(steps) && After(steps).main == Stopped
    ensures After(steps).render == Exited && After(steps).cmds == [] && After(steps).dones == After(steps).timeouts
  {
    hide IsRun, After;
    OutstandingIsPendingPlusTimeouts(steps);
  }

  const ToTheEnd := [Draw, Finish, TimedWait, BeginDrop, DropWindow(0), EndDrop, BeginClose, SendShutdown, Take, Join]

  /** The states that follow the first frame. */
  function Later(n: nat): State
    requires n <= 10
  {
    var drawn := map[0 := Win(3, 1, 1, [3], [1])];
    if n == 0 then State(Events, true, [], 0, Busy([0]), map[0 := Win(3, 1, 1, [3], [])], 0)
    else if n == 1 then State(Events, true, [], 0, Busy([]), drawn, 0)
    else if n == 2 then State(Events, true, [], 1, Idle, drawn, 0)
    else if n == 3 then State(Events, false, [], 0, Idle, drawn, 0)
    else if n == 4 then State(Dropping, false, [], 0, Idle, drawn, 0)
    else if n == 5 then State(Dropping, false, [], 0, Idle, map[], 0)
    else if n == 6 then State(Events, false, [], 0, Idle, map[], 0)
    else if n == 7 then State(Closing, false, [], 0, Idle, map[], 0)
    else if n == 8 then State(Joining, false, [Shutdown], 0, Idle, map[], 0)
    else if n == 9 then State(Joining, false, [], 0, Exited, map[], 0)
    else State(Stopped, false, [], 0, Exited, map[], 0)
  }

  lemma LaterDraw()
    ensures Enabled(Later(0), Draw) && Next(Later(0), Draw) == Later(1)
  {
    var none: seq<Scene>, todo: seq<WinId> := [], [0];
    assert none + [1] == [1] && todo[1..] == [];
  }

  lemma LaterDrop()
    ensures Enabled(Later(4), DropWindow(0)) && Next(Later(4), DropWindow(0)) == Later(5)
  {
    assert map[0 := Win(3, 1, 1, [3], [1])] - {0} == map[];
  }

  lemma LaterMove(n: nat)
    requires n < 10 && n != 0 && n != 4
    ensures Enabled(Later(n), ToTheEnd[n]) && Next(Later(n), ToTheEnd[n]) == Later(n + 1)
  {
  }

  lemma LaterSteps(n: nat)
    requires n < 10
    ensures Enabled(Later(n), ToTheEnd[n]) && Next(Later(n), ToTheEnd[n]) == Later(n + 1)
  {
    hide Next, Later, Enabled;
    if n == 0 {
      LaterDraw();
    } else if n == 4 {
      LaterDrop();
    } else {
      LaterMove(n);
    }
  }

  lemma {:induction false} LaterRun(n: nat)
    requires n <= 10
    ensures IsRun(BeforeTimeOut + ToTheEnd[..n]) && After(BeforeTimeOut + ToTheEnd[..n]) == Later(n)
  {
    hide IsRun, After, BeforeTimeOut, Next, Enabled, Later, ToTheEnd;
    if n == 0 {
      FirstFrame();
      assert BeforeTimeOut + ToTheEnd[..0] == BeforeTimeOut;
      FirstLater();
    } else {
      LaterRun(n - 1);
      LaterSteps(n - 1);
      EndLength();
      RunOne(BeforeTimeOut + ToTheEnd[..n - 1], ToTheEnd[n - 1]);
      assert BeforeTimeOut + ToTheEnd[..n - 1] + [ToTheEnd[n - 1]] == BeforeTimeOut + ToTheEnd[..n];
    }
  }

  lemma FirstLater()
    ensures Later(0) == State(Events, true, [], 0, Busy([0]), map[0 := Win(3, 1, 1, [3], [])], 0)
  {
  }

  lemma EndLength()
    ensures |ToTheEnd| == 10
  {
  }

  /** A whole life: a frame is drawn and acknowledged, its window dropped, and both
      threads come to their end. */
  lemma WholeLife()
    ensures IsRun(BeforeTimeOut + ToTheEnd) && After(BeforeTimeOut + ToTheEnd).main == Stopped
    ensures var s := BeforeTimeOut + ToTheEnd[..1];
      IsRun(s) && 0 in After(s).windows && After(s).windows[0].drawn == [1]
  {
    hide IsRun, After, BeforeTimeOut, Next, Enabled, ToTheEnd;
    LaterRun(1);
    LaterRun(10);
    EndLength();
    assert ToTheEnd[..10] == ToTheEnd;
  }
}
