/** Window presentation in the desktop app: several asynchronous flows place the window, either as a dock
    or as a regular window, and guard themselves with a generation counter and the current mode.

    Each stretch of a flow between two awaits is one step; steps of different flows, mode changes,
    renders and visibility changes interleave freely.
 */
module Presentation {
  import opened Options

  datatype Mode = Overlay | Windowed

  /** What does not change while a window lives. `waylandDock`: this is the dedicated layer-shell window. */
  datatype Host = Host(waylandDock: bool, secondary: bool, linux: bool, tauri: bool)

  datatype Refs = Refs(generation: nat, mode: Mode)

  predicate IsApplyCurrent(host: Host, refs: Refs, generation: nat, expected: Mode) {
    generation == refs.generation && ((expected == Overlay && host.waylandDock) || refs.mode == expected)
  }

  /** The two refs of the source, updated in place. */
  class PresentationRefs {
    const host: Host
    var generation: nat
    var mode: Mode

    ghost function View(): Refs
      reads this
    {
      Refs(generation, mode)
    }

    constructor (host: Host)
      ensures this.host == host && View() == Refs(0, Overlay)
    {
      this.host := host;
      generation, mode := 0, Overlay;
    }

    method BeginApply() returns (applyGeneration: nat)
      modifies this
      ensures applyGeneration == old(generation) + 1 && View() == Refs(applyGeneration, old(mode))
    {
      generation := generation + 1;
      applyGeneration := generation;
    }

    method RequestMode(next: Mode)
      modifies this
      ensures View() == Refs(old(generation) + 1, next)
    {
      generation := generation + 1;
      mode := next;
    }

    method ApplyIsCurrent(applyGeneration: nat, expected: Mode) returns (current: bool)
      ensures current == IsApplyCurrent(host, View(), applyGeneration, expected)
    {
      if applyGeneration != generation {
        return false;
      }
      if expected == Overlay && host.waylandDock {
        return true;
      }
      current := mode == expected;
    }
  }

  // ---------------------------------------------------------------- the flows

  datatype Kind =
    | ShowDock            // positionAndShow
    | ShowWindowed        // showWindowedPanel
    | Sync(mode: Mode)    // syncWindowPresentation
    | Reanchor            // the re-anchoring effect
    | ResizeTimer         // the timer set by the resize listener
    | Moving              // the move listener

  datatype Stage = Measuring | QueryingMaximized | Applying | Showing | Deferred | Scaling | Finished

  /** `generation` is the one a guarded flow holds; `session` is the Wayland overlay session its closure saw. */
  datatype Flow = Flow(kind: Kind, generation: nat, session: bool, stage: Stage, cancelled: bool)

  datatype Command = DockGeometry | WindowGeometry | Maximize

  datatype Item =
    | Bumped(generation: nat)                                     // a new apply began or the mode was changed
    | Issued(command: Command, guard: Option<nat>, mode: Mode)    // with the generation held and the mode then

  datatype State = State(refs: Refs, visible: bool, presenting: bool, session: bool, flows: seq<Flow>, log: seq<Item>)

  /** How an await ends: whether a monitor was found, whether it threw, whether the window was maximized,
      whether the dock floats. */
  datatype Answer = Answer(monitor: bool, threw: bool, maximized: bool, floating: bool)

  predicate Guarded(kind: Kind) {
    !kind.ResizeTimer? && !kind.Moving?
  }

  /** The dock layout call, once its own check has passed. */
  function DockCommand(host: Host, f: Flow, current: bool): Option<Command> {
    if current && (host.waylandDock || !f.session) then Some(DockGeometry) else None
  }

  /** One stretch of a flow: where it waits next and the geometry command it issued, if any. */
  function Advance(host: Host, s: State, f: Flow, a: Answer): (Stage, Option<Command>) {
    var dock := IsApplyCurrent(host, s.refs, f.generation, Overlay);
    var windowed := IsApplyCurrent(host, s.refs, f.generation, Windowed);
    var listening := s.visible && s.refs.mode == Overlay;
    match (f.kind, f.stage)
    case (_, Finished) => (Finished, None)
    case (ShowDock, Measuring) =>
      if a.threw || !a.monitor || !dock then (Finished, None) else (Applying, DockCommand(host, f, dock))
    case (ShowDock, Applying) => if a.threw || !dock then (Finished, None) else (Showing, None)
    case (ShowDock, Showing) => if !a.threw && host.linux && !f.session then (Deferred, None) else (Finished, None)
    case (ShowDock, Deferred) => (Finished, DockCommand(host, f, dock))
    case (ShowWindowed, Measuring) =>
      if a.threw || !a.monitor || !windowed then (Finished, None) else (QueryingMaximized, None)
    case (ShowWindowed, QueryingMaximized) =>
      if !windowed then (Finished, None) else (Applying, if host.tauri then Some(WindowGeometry) else None)
    case (ShowWindowed, Applying) => if a.threw || !windowed then (Finished, None) else (Showing, None)
    case (ShowWindowed, Showing) =>
      (Finished, if !a.threw && windowed && a.maximized then Some(Maximize) else None)
    case (Sync(Windowed), Measuring) =>
      if a.threw || !a.monitor || !windowed then (Finished, None) else (QueryingMaximized, None)
    case (Sync(Windowed), QueryingMaximized) =>
      if !windowed then (Finished, None) else (Applying, Some(WindowGeometry))
    case (Sync(Windowed), Applying) =>
      (Finished, if !a.threw && windowed && a.maximized then Some(Maximize) else None)
    case (Sync(Overlay), Measuring) =>
      (Finished, if a.threw || !a.monitor then None else DockCommand(host, f, dock))
    case (Reanchor, Measuring) =>
      (Finished, if a.threw || !a.monitor || f.cancelled then None else DockCommand(host, f, dock))
    case (ResizeTimer, Measuring) => if !a.monitor || !listening then (Finished, None) else (Scaling, None)
    case (ResizeTimer, Scaling) => (Finished, DockCommand(host, f, listening))
    case (Moving, Measuring) => if a.floating then (Finished, None) else (Scaling, None)
    case (Moving, Scaling) => (Finished, if a.threw || !a.monitor then None else DockCommand(host, f, listening))
    case _ => (Finished, None)
  }

  // ---------------------------------------------------------------- interleavings

  datatype Event =
    | Begin(kind: Kind)
    | Resume(flow: nat, answer: Answer)
    | Cancel(flow: nat)                 // the re-anchoring effect is cleaned up
    | ChangeMode(mode: Mode)            // the mode request's stretch after its awaits
    | Render(mode: Mode, presenting: bool, session: bool)
    | SetVisible(visible: bool)

  const START := State(Refs(0, Overlay), false, true, false, [], [])

  /** The early returns at the head of each flow. */
  predicate MayBegin(host: Host, s: State, kind: Kind) {
    match kind
    case ShowDock => true
    case ShowWindowed => !host.secondary
    case Sync(_) => host.tauri && !host.secondary && s.visible && s.presenting
    case Reanchor => s.visible && s.presenting
    case ResizeTimer => !host.waylandDock
    case Moving => !host.waylandDock && s.presenting && s.visible && s.refs.mode == Overlay
  }

  predicate Bumps(kind: Kind) {
    kind.ShowDock? || kind.ShowWindowed? || kind.Sync?
  }

  function Starting(s: State, kind: Kind): State {
    var generation := s.refs.generation + if Bumps(kind) then 1 else 0;
    s.(refs := s.refs.(generation := generation),
       flows := s.flows + [Flow(kind, generation, s.session, Measuring, false)],
       log := s.log + if Bumps(kind) then [Bumped(generation)] else [])
  }

  function Record(f: Flow, command: Option<Command>, mode: Mode): seq<Item> {
    if command.None? then []
    else [Issued(command.value, if Guarded(f.kind) then Some(f.generation) else None, mode)]
  }

  function Resuming(host: Host, s: State, i: nat, a: Answer): State
    requires i < |s.flows|
  {
    var (stage, command) := Advance(host, s, s.flows[i], a);
    s.(flows := s.flows[i := s.flows[i].(stage := stage)],
       log := s.log + Record(s.flows[i], command, s.refs.mode))
  }

  function Step(host: Host, s: State, e: Event): State {
    match e
    case Begin(kind) => if MayBegin(host, s, kind) then Starting(s, kind) else s
    case Resume(i, a) => if i < |s.flows| then Resuming(host, s, i, a) else s
    case Cancel(i) => if i < |s.flows| then s.(flows := s.flows[i := s.flows[i].(cancelled := true)]) else s
    case ChangeMode(mode) =>
      s.(refs := Refs(s.refs.generation + 1, mode), log := s.log + [Bumped(s.refs.generation + 1)])
    case Render(mode, presenting, session) =>
      s.(refs := s.refs.(mode := mode), presenting := presenting, session := session)
    case SetVisible(visible) => s.(visible := visible)
  }

  function Run(host: Host, events: seq<Event>): State {
    if events == [] then START
    else Step(host, Run(host, events[..|events| - 1]), events[|events| - 1])
  }

  // ---------------------------------------------------------------- generations

  /** An overtaken flow issues nothing more, whatever its awaits bring. */
  lemma OvertakenIsSilent(host: Host, s: State, f: Flow, a: Answer)
    requires Guarded(f.kind) && f.generation != s.refs.generation
    ensures Advance(host, s, f, a).1.None?
  {
  }

  /** A flow that finds itself not current after measuring, asking or applying, because of the generation or of the
      mode, ends there and shows nothing. */
  lemma NotCurrentEnds(host: Host, s: State, f: Flow, a: Answer)
    requires f.kind.ShowDock? || f.kind.ShowWindowed? || f.kind.Sync?
    requires f.stage == Measuring || f.stage == QueryingMaximized || f.stage == Applying
    requires var mode := if f.kind.ShowDock? then Overlay else if f.kind.ShowWindowed? then Windowed else f.kind.mode;
             f.generation != s.refs.generation || (s.refs.mode != mode && !(mode == Overlay && host.waylandDock))
    ensures Advance(host, s, f, a) == (Finished, None)
  {
  }

  lemma AdvanceFitsMode(host: Host, s: State, f: Flow, a: Answer)
    ensures var command := Advance(host, s, f, a).1;
            command.Some? ==>
              if command.value.DockGeometry? then s.refs.mode == Overlay || host.waylandDock
              else s.refs.mode == Windowed
  {
  }

  predicate FitsMode(item: Item) {
    item.Issued? ==> item.mode == if item.command.DockGeometry? then Overlay else Windowed
  }

  /** Dock geometry of the Wayland dock may miss the mode. */
  predicate FitsModeOn(host: Host, item: Item) {
    FitsMode(item) || (host.waylandDock && item.Issued? && item.command.DockGeometry?)
  }

  /** A step appends either one bump to the next generation, or a command whose guard is current. */
  lemma StepAppends(host: Host, s: State, e: Event) returns (added: seq<Item>)
    ensures var s' := Step(host, s, e);
            && s'.log == s.log + added
            && ((s'.refs.generation == s.refs.generation + 1 && added == [Bumped(s'.refs.generation)])
                || (s'.refs.generation == s.refs.generation && forall i :: 0 <= i < |added| ==> added[i].Issued?))
    ensures forall i :: 0 <= i < |added| && added[i].Issued? && added[i].guard.Some? ==>
              added[i].guard.value == s.refs.generation
    ensures forall item :: item in added ==> FitsModeOn(host, item)
  {
    if e.Resume? && e.flow < |s.flows| {
      var f := s.flows[e.flow];
      added := Record(f, Advance(host, s, f, e.answer).1, s.refs.mode);
      AdvanceFitsMode(host, s, f, e.answer);
      if Guarded(f.kind) && f.generation != s.refs.generation {
        OvertakenIsSilent(host, s, f, e.answer);
      }
      hide Advance;
    } else {
      hide Resuming;
      var next := Bumped(s.refs.generation + 1);
      added := if e.ChangeMode? || (e.Begin? && MayBegin(host, s, e.kind) && Bumps(e.kind)) then [next] else [];
    }
  }

  /** The commands a flow issues in `steps` stretches when nothing else happens in between. */
  function Undisturbed(host: Host, s: State, f: Flow, a: Answer, steps: nat): seq<Command>
    decreases steps
  {
    if steps == 0 then []
    else
      var (stage, command) := Advance(host, s, f, a);
      (if command.Some? then [command.value] else []) + Undisturbed(host, s, f.(stage := stage), a, steps - 1)
  }

  /** A flow that is current from its first await to its last places the window: the dock once (twice on a
      Linux desktop outside a Wayland session), the regular window once, maximized again if it was. */
  lemma UndisturbedPlacesWindow(host: Host, s: State, f: Flow, a: Answer)
    requires f.stage == Measuring && !f.cancelled && a.monitor && !a.threw && !a.floating && s.visible
    requires Guarded(f.kind) ==> f.generation == s.refs.generation
    requires s.refs.mode == if f.kind.ShowWindowed? || f.kind == Sync(Windowed) then Windowed else Overlay
    ensures var dock := if host.waylandDock || !f.session then [DockGeometry] else [];
            var maximize := if a.maximized then [Maximize] else [];
            Undisturbed(host, s, f, a, 4) ==
              if f.kind.ShowDock? then dock + (if host.linux && !f.session then [DockGeometry] else [])
              else if f.kind.ShowWindowed? then (if host.tauri then [WindowGeometry] else []) + maximize
              else if f.kind == Sync(Windowed) then [WindowGeometry] + maximize
              else dock
  {
    var f1 := f.(stage := Advance(host, s, f, a).0);
    var f2 := f1.(stage := Advance(host, s, f1, a).0);
    var f3 := f2.(stage := Advance(host, s, f2, a).0);
    assert Undisturbed(host, s, f3, a, 1) == (var c := Advance(host, s, f3, a).1; if c.Some? then [c.value] else []);
    assert Undisturbed(host, s, f2, a, 2) ==
      (var c := Advance(host, s, f2, a).1; if c.Some? then [c.value] else []) + Undisturbed(host, s, f3, a, 1);
  }

  /** No guarded command comes after a bump that is newer than the generation it was issued under. */
  ghost predicate NewestOnly(log: seq<Item>) {
    forall i, j :: 0 <= i < j < |log| && log[i].Bumped? && log[j].Issued? && log[j].guard.Some? ==>
      log[i].generation <= log[j].guard.value
  }

  ghost predicate BumpsBelow(log: seq<Item>, generation: nat) {
    forall i :: 0 <= i < |log| && log[i].Bumped? ==> log[i].generation <= generation
  }

  ghost predicate BumpsGrow(log: seq<Item>) {
    forall i, j :: 0 <= i < j < |log| && log[i].Bumped? && log[j].Bumped? ==> log[i].generation < log[j].generation
  }

  /** Each bump is newer than all before it, and from then on only its own flow issues guarded commands. */
  lemma {:induction false} OlderFlowsStaySilent(host: Host, events: seq<Event>)
    ensures var s := Run(host, events);
            NewestOnly(s.log) && BumpsGrow(s.log) && BumpsBelow(s.log, s.refs.generation)
  {
    if events != [] {
      hide Step;
      OlderFlowsStaySilent(host, events[..|events| - 1]);
      var _ := StepAppends(host, Run(host, events[..|events| - 1]), events[|events| - 1]);
    }
  }

  /** Which flows begin, and what that does: showing the dock, showing the window and synchronising begin a new
      apply and hold its generation; the others hold the current one. */
  lemma BeginEffects(host: Host, s: State, kind: Kind)
    ensures var s' := Step(host, s, Begin(kind));
            var begins := match kind
                          case ShowDock => true
                          case ShowWindowed => !host.secondary
                          case Sync(_) => host.tauri && !host.secondary && s.visible && s.presenting
                          case Reanchor => s.visible && s.presenting
                          case ResizeTimer => !host.waylandDock
                          case Moving => !host.waylandDock && s.presenting && s.visible && s.refs.mode == Overlay;
            if !begins then s' == s
            else && s'.refs.mode == s.refs.mode
                 && s'.refs.generation ==
                      s.refs.generation + (if kind.ShowDock? || kind.ShowWindowed? || kind.Sync? then 1 else 0)
                 && s'.flows == s.flows + [Flow(kind, s'.refs.generation, s.session, Measuring, false)]
                 && s'.visible == s.visible && s'.presenting == s.presenting && s'.session == s.session
  {
  }

  /** The other events: a mode request begins a new generation, a render does not; nothing but a resumption
      touches a flow's stage, and only a cleanup cancels one. */
  lemma OtherEffects(host: Host, s: State, mode: Mode, presenting: bool, session: bool, visible: bool, i: nat)
    ensures var changed := Step(host, s, ChangeMode(mode));
            && changed.refs.generation == s.refs.generation + 1 && changed.refs.mode == mode && changed.flows == s.flows
    ensures var rendered := Step(host, s, Render(mode, presenting, session));
            && rendered.refs.generation == s.refs.generation && rendered.refs.mode == mode
            && rendered.presenting == presenting && rendered.session == session && rendered.visible == s.visible
            && rendered.flows == s.flows && rendered.log == s.log
    ensures Step(host, s, SetVisible(visible)).visible == visible
    ensures Step(host, s, SetVisible(visible)).(visible := s.visible) == s
    ensures var cut := Step(host, s, Cancel(i));
            && cut.refs == s.refs && cut.log == s.log && |cut.flows| == |s.flows|
            && forall k :: 0 <= k < |s.flows| ==>
                 cut.flows[k] == s.flows[k].(cancelled := s.flows[k].cancelled || k == i)
  {
  }

  /** A resumption issues at most one command, logged with the mode of the moment and, unless it is a listener's,
      with the flow's generation; no other flow moves. */
  lemma ResumeEffects(host: Host, s: State, i: nat, a: Answer)
    requires i < |s.flows|
    ensures var s', f := Step(host, s, Resume(i, a)), s.flows[i];
            var command := Advance(host, s, f, a).1;
            var guard := if f.kind.ResizeTimer? || f.kind.Moving? then None else Some(f.generation);
            && s'.log == s.log + (if command.Some? then [Issued(command.value, guard, s.refs.mode)] else [])
            && s'.refs == s.refs && s'.visible == s.visible && |s'.flows| == |s.flows|
            && s'.flows[i] == f.(stage := Advance(host, s, f, a).0)
            && forall k :: 0 <= k < |s.flows| && k != i ==> s'.flows[k] == s.flows[k]
  {
  }

  /** A flow that finds no monitor, or whose await throws, ends without a command (asking whether the window is
      maximized never throws); so does a cancelled re-anchoring, and a listener when nothing is visible or the dock
      floats. A finished flow does nothing. */
  lemma FailureEndsFlow(host: Host, s: State, f: Flow, a: Answer)
    ensures f.stage == Finished || (f.stage == Measuring && !f.kind.Moving? && !a.monitor) ==>
              Advance(host, s, f, a) == (Finished, None)
    ensures a.threw && (f.stage == Applying || f.stage == Showing || (f.stage == Measuring && Guarded(f.kind))) ==>
              Advance(host, s, f, a) == (Finished, None)
    ensures f.kind.Moving? && f.stage == Scaling && (a.threw || !a.monitor) ==>
              Advance(host, s, f, a) == (Finished, None)
    ensures f.kind.Reanchor? && f.cancelled ==> Advance(host, s, f, a).1.None?
    ensures !Guarded(f.kind) && !s.visible ==> Advance(host, s, f, a).1.None?
    ensures f.kind.ResizeTimer? && f.stage == Measuring && (!s.visible || s.refs.mode != Overlay) ==>
              Advance(host, s, f, a) == (Finished, None)
    ensures f.kind.Moving? && f.stage == Measuring && a.floating ==> Advance(host, s, f, a) == (Finished, None)
  {
  }

  lemma StepKeepsFlow(host: Host, s: State, e: Event, i: nat)
    requires i < |s.flows|
    ensures var s' := Step(host, s, e);
            && i < |s'.flows| && s'.flows[i].kind == s.flows[i].kind && s'.flows[i].generation == s.flows[i].generation
            && s'.refs.generation >= s.refs.generation
  {
    hide Advance;
  }

  /** Flows stay, with the generation they hold, and the current generation never falls. */
  lemma {:induction false} FlowsStay(host: Host, events: seq<Event>, p: nat, i: nat)
    requires p <= |events| && i < |Run(host, events[..p]).flows|
    ensures var before, now := Run(host, events[..p]), Run(host, events);
            && i < |now.flows| && now.flows[i].kind == before.flows[i].kind
            && now.flows[i].generation == before.flows[i].generation && now.refs.generation >= before.refs.generation
  {
    if p < |events| {
      hide Step;
      var n := |events| - 1;
      assert events[..n][..p] == events[..p];
      FlowsStay(host, events[..n], p, i);
      StepKeepsFlow(host, Run(host, events[..n]), events[n], i);
    } else {
      assert events[..p] == events;
    }
  }

  /** No flow holds a generation that is still to come. */
  predicate HeldBelow(s: State) {
    forall i :: 0 <= i < |s.flows| ==> s.flows[i].generation <= s.refs.generation
  }

  lemma StepKeepsBelow(host: Host, s: State, e: Event)
    requires HeldBelow(s)
    ensures HeldBelow(Step(host, s, e))
  {
    var s' := Step(host, s, e);
    forall i | 0 <= i < |s'.flows| ensures s'.flows[i].generation <= s'.refs.generation {
      if i < |s.flows| {
        StepKeepsFlow(host, s, e, i);
      } else {
        BeginEffects(host, s, e.kind);
      }
    }
  }

  lemma {:induction false} AlwaysBelow(host: Host, events: seq<Event>)
    ensures HeldBelow(Run(host, events))
  {
    if events != [] {
      hide Step, HeldBelow;
      AlwaysBelow(host, events[..|events| - 1]);
      StepKeepsBelow(host, Run(host, events[..|events| - 1]), events[|events| - 1]);
    }
  }

  /** The event begins a new apply, or changes the mode. */
  predicate Supersedes(host: Host, s: State, e: Event) {
    || e.ChangeMode?
    || (e.Begin? && (e.kind.ShowDock? || e.kind.ShowWindowed? || e.kind.Sync?)
        && |Step(host, s, e).flows| > |s.flows|)
  }

  /** Over every run: once showing the dock, showing the window or synchronising has begun, or the mode was changed,
      no flow that began earlier issues a command again, listeners excepted. */
  lemma SupersededIsSilent(host: Host, events: seq<Event>, p: nat, q: nat, i: nat)
    requires p < q < |events| && Supersedes(host, Run(host, events[..p]), events[p])
    requires i < |Run(host, events[..p]).flows| && events[q].Resume? && events[q].flow == i
    requires var kind := Run(host, events[..p]).flows[i].kind; !kind.ResizeTimer? && !kind.Moving?
    ensures Run(host, events[..q + 1]).log == Run(host, events[..q]).log
  {
    var older, overtaken := Run(host, events[..p]), Run(host, events[..p]).flows[i];
    AlwaysBelow(host, events[..p]);
    assert events[..p + 1][..p] == events[..p] && events[..q][..p + 1] == events[..p + 1];
    assert events[..q + 1][..q] == events[..q];
    if events[p].Begin? {
      BeginEffects(host, older, events[p].kind);
    }
    StepKeepsFlow(host, older, events[p], i);
    assert Run(host, events[..p + 1]).refs.generation > overtaken.generation;
    hide Step;
    FlowsStay(host, events[..q], p + 1, i);
    var s := Run(host, events[..q]);
    OvertakenIsSilent(host, s, s.flows[i], events[q].answer);
    ResumeEffects(host, s, i, events[q].answer);
    hide Advance;
  }

  // ---------------------------------------------------------------- modes

  ghost predicate ModeSafe(log: seq<Item>) {
    forall item :: item in log ==> FitsMode(item)
  }

  /** On every host, only dock geometry of the Wayland dock can miss the mode. */
  lemma {:induction false} CommandsFitMode(host: Host, events: seq<Event>)
    ensures forall item :: item in Run(host, events).log ==> FitsModeOn(host, item)
  {
    if events != [] {
      hide Step, FitsModeOn;
      CommandsFitMode(host, events[..|events| - 1]);
      var _ := StepAppends(host, Run(host, events[..|events| - 1]), events[|events| - 1]);
    }
  }

  /** On the Wayland dock, dock geometry can come after the mode has changed. */
  lemma DockMissesMode(host: Host) returns (events: seq<Event>)
    requires host.waylandDock
    ensures !ModeSafe(Run(host, events).log)
  {
    var answer, flow := Answer(true, false, false, false), Flow(ShowDock, 1, false, Measuring, false);
    events := [Begin(ShowDock), Render(Windowed, true, false), Resume(0, answer)];
    var shown := Starting(START, ShowDock);
    var rendered := shown.(refs := Refs(1, Windowed));
    assert Advance(host, rendered, flow, answer) == (Applying, Some(DockGeometry));
    hide Advance;
    assert Run(host, events[..1]) == shown && events[..2][..1] == events[..1];
    assert Run(host, events[..2]) == rendered && rendered.flows == [flow];
    var issued := Issued(DockGeometry, Some(1), Windowed);
    assert Run(host, events).log == rendered.log + [issued];
    assert issued in Run(host, events).log && !FitsMode(issued);
  }

  /** Dock geometry is issued only in overlay mode and window geometry only in windowed mode, in every
      run, exactly on the hosts that are not the dedicated Wayland dock. */
  lemma ModeSafeExactly(host: Host)
    ensures (forall events :: ModeSafe(Run(host, events).log)) <==> !host.waylandDock
  {
    if host.waylandDock {
      hide *;
      var events := DockMissesMode(host);
      assert !ModeSafe(Run(host, events).log);
    } else {
      forall events ensures ModeSafe(Run(host, events).log) {
        CommandsFitMode(host, events);
      }
    }
  }
}
