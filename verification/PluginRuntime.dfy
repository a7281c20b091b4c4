/** Mounting and disposing plugin renderers in the mobile app.

    An effect loads the renderer's module, calls its mount function, and keeps the instance it returns.
    The effect may be torn down while the module loads or while mounting is under way; a new effect may
    begin before the old one's promises settle.
 */
module PluginRuntime {
  import opened Options

  // ---------------------------------------------------------------- what a module exports and returns

  datatype Export = Missing | Callable(id: nat) | Record(mount: Option<nat>)

  /** A loaded module: its `mount` export, if that is a function, and its default export. */
  datatype RendererModule = RendererModule(mount: Option<nat>, defaultExport: Export)

  function ResolveMount(m: RendererModule): (r: Option<nat>)
    ensures r.None? <==> m.mount.None? && !m.defaultExport.Callable?
                         && (m.defaultExport.Record? ==> m.defaultExport.mount.None?)
    ensures m.mount.Some? ==> r == m.mount
    ensures m.mount.None? && m.defaultExport.Callable? ==> r == Some(m.defaultExport.id)
    ensures m.mount.None? && m.defaultExport.Record? ==> r == m.defaultExport.mount
  {
    if m.mount.Some? then m.mount
    else match m.defaultExport
      case Callable(id) => Some(id)
      case Record(mount) => mount
      case Missing => None
  }

  /** What mount returns: nothing, a dispose function, or an object. */
  datatype Cleanup = Nothing | Callback | Object(hasUpdate: bool, hasDispose: bool)

  datatype Instance = Instance(hasUpdate: bool, hasDispose: bool)

  function NormalizeCleanup(c: Cleanup): Instance {
    match c
    case Nothing => Instance(false, false)
    case Callback => Instance(false, true)
    case Object(hasUpdate, hasDispose) => Instance(hasUpdate, hasDispose)
  }

  // ---------------------------------------------------------------- the effect's stretches

  datatype Stage = Loading | Mounting | Settled

  datatype Effect = Effect(disposed: bool, stage: Stage)

  datatype Phase = LoadingPhase | ReadyPhase | ErrorPhase

  datatype Item =
    | SetUp(effect: nat)
    | TornDown(effect: nat)
    | MountCalled(effect: nat)
    | Returned(instance: nat, effect: nat)
    | Updated(instance: nat)
    | Disposed(instance: nat)

  /** An instance and the effect whose mount call returned it. */
  datatype Owned = Owned(instance: Instance, effect: nat)

  /** `live` is the effect whose cleanup has not run; `current` is the instance ref; `owner` is the effect
      that wrote the status last. */
  datatype State = State(
    effects: seq<Effect>,
    live: Option<nat>,
    current: Option<nat>,
    phase: Phase,
    owner: Option<nat>,
    instances: seq<Owned>,
    log: seq<Item>)

  const START := State([], None, None, LoadingPhase, None, [], [])

  datatype Event =
    | Setup(throws: bool)                            // the effect runs; throws: a dispose call it makes throws
    | Teardown(throws: bool)                         // its cleanup runs; throws: the dispose call throws
    | Loaded(effect: nat, renderer: RendererModule)
    | LoadFailed(effect: nat)
    | Mounted(effect: nat, cleanup: Cleanup)
    | MountFailed(effect: nat)
    | ContextChanged                                 // the other effect: update the instance, if any

  predicate Disposable(s: State, i: nat) {
    i < |s.instances| && s.instances[i].instance.hasDispose
  }

  /** Calls the current instance's dispose, if there is one; the ref is cleared unless the call threw. */
  function DisposeCurrent(s: State, throws: bool): State {
    if s.current.None? then s
    else if !Disposable(s, s.current.value) then s.(current := None)
    else s.(log := s.log + [Disposed(s.current.value)], current := if throws then s.current else None)
  }

  function SettingUp(s: State, throws: bool): State {
    var e := |s.effects|;
    var begun := s.(live := Some(e), phase := LoadingPhase, owner := Some(e), log := s.log + [SetUp(e)]);
    var cleared := DisposeCurrent(begun, throws);
    cleared.(effects := s.effects + [Effect(false, if cleared.current.Some? then Settled else Loading)])
  }

  function TearingDown(s: State, e: nat, throws: bool): State
    requires e < |s.effects|
  {
    DisposeCurrent(s.(live := None, effects := s.effects[e := s.effects[e].(disposed := true)],
                      log := s.log + [TornDown(e)]), throws)
  }

  function Moved(s: State, e: nat, stage: Stage): State
    requires e < |s.effects|
  {
    s.(effects := s.effects[e := s.effects[e].(stage := stage)])
  }

  /** The catch block. */
  function Catching(s: State, e: nat): State
    requires e < |s.effects|
  {
    if s.effects[e].disposed then Moved(s, e, Settled)
    else Moved(s, e, Settled).(phase := ErrorPhase, owner := Some(e))
  }

  function CallingMount(s: State, e: nat, m: RendererModule): State
    requires e < |s.effects|
  {
    if s.effects[e].disposed then Moved(s, e, Settled)
    else if ResolveMount(m).None? then Catching(s, e)
    else Moved(s, e, Mounting).(log := s.log + [MountCalled(e)])
  }

  function Keeping(s: State, e: nat, c: Cleanup): State
    requires e < |s.effects|
  {
    var i, instance := |s.instances|, NormalizeCleanup(c);
    var returned := Moved(s, e, Settled).(instances := s.instances + [Owned(instance, e)],
                                          log := s.log + [Returned(i, e)]);
    if !s.effects[e].disposed then returned.(current := Some(i), phase := ReadyPhase, owner := Some(e))
    else if instance.hasDispose then returned.(log := returned.log + [Disposed(i)])
    else returned
  }

  /** The current instance, if there is one, has `update`. */
  predicate Updatable(s: State) {
    s.current.Some? && s.current.value < |s.instances| && s.instances[s.current.value].instance.hasUpdate
  }

  function Updating(s: State): State {
    if Updatable(s) then s.(log := s.log + [Updated(s.current.value)]) else s
  }

  predicate Waits(s: State, e: nat, stage: Stage) {
    e < |s.effects| && s.effects[e].stage == stage
  }

  function Step(s: State, event: Event): State {
    match event
    case Setup(throws) => if s.live.None? then SettingUp(s, throws) else s
    case Teardown(throws) =>
      if s.live.Some? && s.live.value < |s.effects| then TearingDown(s, s.live.value, throws) else s
    case Loaded(e, m) => if Waits(s, e, Loading) then CallingMount(s, e, m) else s
    case LoadFailed(e) => if Waits(s, e, Loading) then Catching(s, e) else s
    case Mounted(e, c) => if Waits(s, e, Mounting) then Keeping(s, e, c) else s
    case MountFailed(e) => if Waits(s, e, Mounting) then Catching(s, e) else s
    case ContextChanged => Updating(s)
  }

  function Run(events: seq<Event>): State {
    if events == [] then START else Step(Run(events[..|events| - 1]), events[|events| - 1])
  }

  /** The component's refs, its effects' `disposed` flags and its status, updated in place. The ghost
      fields record what was called. */
  class RuntimeSurface {
    var effects: seq<Effect>
    var live: Option<nat>
    var current: Option<nat>
    var phase: Phase
    var owner: Option<nat>
    var instances: seq<Owned>
    ghost var log: seq<Item>

    ghost function View(): State
      reads this
    {
      State(effects, live, current, phase, owner, instances, log)
    }

    constructor ()
      ensures View() == START
    {
      effects, live, current, phase, owner, instances, log := [], None, None, LoadingPhase, None, [], [];
    }

    /** `runtimeInstanceRef.current` is disposed and cleared; a throwing dispose leaves the ref set. */
    method DisposeAndClear(throws: bool)
      modifies this
      ensures View() == DisposeCurrent(old(View()), throws)
    {
      if current.Some? && current.value < |instances| && instances[current.value].instance.hasDispose {
        log := log + [Disposed(current.value)];
        if throws {
          return;
        }
      }
      current := None;
    }

    /** The effect's body, up to the await of the module. */
    method RunEffect(throws: bool)
      modifies this
      ensures View() == SettingUp(old(View()), throws)
    {
      var e := |effects|;
      live := Some(e);
      phase, owner := LoadingPhase, Some(e);
      log := log + [SetUp(e)];
      DisposeAndClear(throws);
      effects := effects + [Effect(false, if current.Some? then Settled else Loading)];
    }

    method CleanUp(e: nat, throws: bool)
      requires e < |effects|
      modifies this
      ensures View() == TearingDown(old(View()), e, throws)
    {
      effects := effects[e := effects[e].(disposed := true)];
      live := None;
      log := log + [TornDown(e)];
      DisposeAndClear(throws);
    }

    method Fail(e: nat)
      requires e < |effects|
      modifies this
      ensures View() == Catching(old(View()), e)
    {
      effects := effects[e := effects[e].(stage := Settled)];
      if effects[e].disposed {
        return;
      }
      phase, owner := ErrorPhase, Some(e);
    }

    method ModuleLoaded(e: nat, m: RendererModule)
      requires e < |effects|
      modifies this
      ensures View() == CallingMount(old(View()), e, m)
    {
      if effects[e].disposed {
        effects := effects[e := effects[e].(stage := Settled)];
        return;
      }
      var mount := ResolveMount(m);
      if mount.None? {
        Fail(e);
        return;
      }
      effects := effects[e := effects[e].(stage := Mounting)];
      log := log + [MountCalled(e)];
    }

    method MountReturned(e: nat, c: Cleanup)
      requires e < |effects|
      modifies this
      ensures View() == Keeping(old(View()), e, c)
    {
      var i, instance := |instances|, NormalizeCleanup(c);
      effects := effects[e := effects[e].(stage := Settled)];
      instances := instances + [Owned(instance, e)];
      log := log + [Returned(i, e)];
      if effects[e].disposed {
        if instance.hasDispose {
          log := log + [Disposed(i)];
        }
        return;
      }
      current := Some(i);
      phase, owner := ReadyPhase, Some(e);
    }

    method ContextUpdated()
      modifies this
      ensures View() == Updating(old(View()))
    {
      if current.Some? && current.value < |instances| && instances[current.value].instance.hasUpdate {
        log := log + [Updated(current.value)];
      }
    }
  }

  // ---------------------------------------------------------------- order

  /** What must and must not have happened before an item. */
  predicate Proper(item: Item, before: seq<Item>, instances: seq<Owned>) {
    match item
    case MountCalled(e) => TornDown(e) !in before
    case Returned(_, e) => MountCalled(e) in before
    case Updated(i) => Disposed(i) !in before
    case Disposed(i) => i < |instances| && TornDown(instances[i].effect) in before && Disposed(i) !in before
    case _ => true
  }

  ghost predicate InOrder(log: seq<Item>, instances: seq<Owned>) {
    forall q :: 0 <= q < |log| ==> Proper(log[q], log[..q], instances)
  }

  lemma AppendInOrder(log: seq<Item>, item: Item, instances: seq<Owned>, more: seq<Owned>)
    requires InOrder(log, instances) && instances <= more && Proper(item, log, more)
    ensures InOrder(log + [item], more)
  {
    forall q | 0 <= q <= |log| ensures Proper((log + [item])[q], (log + [item])[..q], more) {
      assert (log + [item])[..q] == log[..q];
      if q == |log| {
        assert log[..q] == log;
      }
    }
  }

  // ---------------------------------------------------------------- exactly once

  /** Effects, refs and log fit together. */
  ghost predicate Coherent(s: State) {
    && (s.live.Some? ==> s.live.value < |s.effects| && s.owner == s.live)
    && (forall e :: 0 <= e < |s.effects| ==> (s.effects[e].disposed <==> s.live != Some(e)))
    && (forall e: nat :: TornDown(e) in s.log <==> e < |s.effects| && s.effects[e].disposed)
    && (forall e :: 0 <= e < |s.effects| && s.effects[e].stage == Mounting ==> MountCalled(e) in s.log)
    && (forall i :: 0 <= i < |s.instances| ==> Waits(s, s.instances[i].effect, Settled))
  }

  /** No effect lives, and the ref still holds an instance: its dispose call threw. */
  predicate LeftOver(s: State) {
    s.live.None? && s.current.Some?
  }

  /** The ref holds the instance of the live effect or a left-over one that can be disposed, and the instances
      that were disposed are those whose effect is torn down. */
  ghost predicate DisposedWithEffect(s: State) {
    && (s.current.Some? ==>
          && s.current.value < |s.instances|
          && if LeftOver(s) then Disposable(s, s.current.value)
             else s.live == Some(s.instances[s.current.value].effect))
    && (forall i :: 0 <= i < |s.instances| && s.live == Some(s.instances[i].effect) ==> s.current == Some(i))
    && (forall i: nat :: Disposed(i) in s.log <==>
          Disposable(s, i) && s.instances[i].effect < |s.effects| && s.effects[s.instances[i].effect].disposed)
  }

  /** While an effect lives, the status says whether it is at work, has an instance, or failed. */
  predicate StatusTellsTruth(s: State) {
    s.live.Some? && s.live.value < |s.effects| ==>
      s.phase == if s.effects[s.live.value].stage != Settled then LoadingPhase
                 else if s.current.Some? then ReadyPhase else ErrorPhase
  }

  ghost predicate Sound(s: State) {
    Coherent(s) && DisposedWithEffect(s) && StatusTellsTruth(s) && InOrder(s.log, s.instances)
  }

  lemma SetupKeepsSound(s: State, throws: bool)
    requires Sound(s) && s.live.None? && s.current.None?
    ensures Sound(SettingUp(s, throws))
  {
    AppendInOrder(s.log, SetUp(|s.effects|), s.instances, s.instances);
    hide InOrder;
  }

  lemma TeardownKeepsCoherent(s: State, throws: bool)
    requires Coherent(s) && s.live.Some?
    ensures var s' := TearingDown(s, s.live.value, throws); Coherent(s') && StatusTellsTruth(s')
  {
  }

  lemma TeardownKeepsDisposal(s: State, throws: bool)
    requires Coherent(s) && DisposedWithEffect(s) && s.live.Some?
    ensures DisposedWithEffect(TearingDown(s, s.live.value, throws))
  {
  }

  lemma TeardownKeepsSound(s: State, throws: bool)
    requires Sound(s) && s.live.Some?
    ensures Sound(TearingDown(s, s.live.value, throws))
  {
    var e, torn := s.live.value, s.log + [TornDown(s.live.value)];
    TeardownKeepsCoherent(s, throws);
    TeardownKeepsDisposal(s, throws);
    AppendInOrder(s.log, TornDown(e), s.instances, s.instances);
    if s.current.Some? {
      AppendInOrder(torn, Disposed(s.current.value), s.instances, s.instances);
    }
    hide InOrder, Coherent, DisposedWithEffect, StatusTellsTruth;
  }

  lemma CatchKeepsSound(s: State, e: nat)
    requires Sound(s) && (Waits(s, e, Loading) || Waits(s, e, Mounting))
    ensures Sound(Catching(s, e))
  {
    hide InOrder;
  }

  lemma MountKeepsSound(s: State, e: nat, m: RendererModule)
    requires Sound(s) && Waits(s, e, Loading)
    ensures Sound(CallingMount(s, e, m))
  {
    CatchKeepsSound(s, e);
    if !s.effects[e].disposed {
      AppendInOrder(s.log, MountCalled(e), s.instances, s.instances);
    }
    hide InOrder;
  }

  lemma ReturnKeepsCoherent(s: State, e: nat, c: Cleanup)
    requires Coherent(s) && Waits(s, e, Mounting)
    ensures Coherent(Keeping(s, e, c))
  {
  }

  lemma ReturnKeepsDisposal(s: State, e: nat, c: Cleanup)
    requires Coherent(s) && DisposedWithEffect(s) && Waits(s, e, Mounting)
    ensures DisposedWithEffect(Keeping(s, e, c))
  {
    var i, s' := |s.instances|, Keeping(s, e, c);
    assert forall k :: 0 <= k < i ==> s.instances[k].effect != e && s'.instances[k] == s.instances[k];
    assert forall k: nat :: k != i ==> (Disposed(k) in s'.log <==> Disposed(k) in s.log);
    assert !Disposable(s, i) && Disposed(i) !in s.log;
    assert s.effects[e].disposed <==> s.live != Some(e);
    hide Coherent;
  }

  lemma ReturnKeepsSound(s: State, e: nat, c: Cleanup)
    requires Sound(s) && Waits(s, e, Mounting)
    ensures Sound(Keeping(s, e, c))
  {
    var i, more := |s.instances|, s.instances + [Owned(NormalizeCleanup(c), e)];
    var returned := s.log + [Returned(i, e)];
    ReturnKeepsCoherent(s, e, c);
    ReturnKeepsDisposal(s, e, c);
    AppendInOrder(s.log, Returned(i, e), s.instances, more);
    if s.effects[e].disposed {
      AppendInOrder(returned, Disposed(i), more, more);
    }
    hide InOrder, Coherent, DisposedWithEffect;
  }

  /** The step does not touch a left-over instance: no setup, and no update that reaches it. */
  predicate Steady(s: State, event: Event) {
    match event
    case Setup(_) => !LeftOver(s)
    case ContextChanged => !(LeftOver(s) && Updatable(s))
    case _ => true
  }

  lemma UpdateKeepsSound(s: State)
    requires Sound(s) && Steady(s, ContextChanged)
    ensures Sound(Updating(s))
  {
    if Updatable(s) {
      AppendInOrder(s.log, Updated(s.current.value), s.instances, s.instances);
    }
    hide InOrder;
  }

  /** A left-over instance has been disposed already. */
  lemma LeftOverIsDisposed(s: State)
    requires Coherent(s) && DisposedWithEffect(s) && LeftOver(s)
    ensures Disposable(s, s.current.value) && Disposed(s.current.value) in s.log
  {
    assert Waits(s, s.instances[s.current.value].effect, Settled);
  }

  lemma OutOfOrder(before: seq<Item>, item: Item, instances: seq<Owned>)
    requires (item.Disposed? || item.Updated?) && Disposed(item.instance) in before
    ensures !InOrder(before + [item], instances)
  {
    var log := before + [item];
    assert log[..|before|] == before && !Proper(log[|before|], log[..|before|], instances);
  }

  lemma SetupDisposesAgain(s: State, throws: bool)
    requires Sound(s) && LeftOver(s)
    ensures !InOrder(SettingUp(s, throws).log, SettingUp(s, throws).instances)
  {
    LeftOverIsDisposed(s);
    OutOfOrder(s.log + [SetUp(|s.effects|)], Disposed(s.current.value), s.instances);
    hide InOrder, Coherent, DisposedWithEffect;
  }

  lemma UpdateAfterDispose(s: State)
    requires Sound(s) && LeftOver(s) && Updatable(s)
    ensures !InOrder(Updating(s).log, Updating(s).instances)
  {
    LeftOverIsDisposed(s);
    OutOfOrder(s.log, Updated(s.current.value), s.instances);
    hide InOrder, Coherent, DisposedWithEffect;
  }

  /** A step keeps the order of calls exactly when it does not touch a left-over instance, and then it keeps
      everything else too. */
  lemma StepKeepsSoundExactly(s: State, event: Event)
    requires Sound(s)
    ensures InOrder(Step(s, event).log, Step(s, event).instances) <==> Steady(s, event)
    ensures Sound(Step(s, event)) <==> Steady(s, event)
  {
    assert s.live.Some? ==> s.live.value < |s.effects|;
    assert InOrder(s.log, s.instances);
    assert Sound(Step(s, event)) ==> InOrder(Step(s, event).log, Step(s, event).instances);
    hide Sound, SettingUp, TearingDown, CallingMount, Catching, Keeping, Updating, InOrder, Updatable;
    match event
    case Setup(throws) =>
      if LeftOver(s) { SetupDisposesAgain(s, throws); } else if s.live.None? { SetupKeepsSound(s, throws); }
    case Teardown(throws) => if s.live.Some? { TeardownKeepsSound(s, throws); }
    case Loaded(e, m) => if Waits(s, e, Loading) { MountKeepsSound(s, e, m); }
    case LoadFailed(e) => if Waits(s, e, Loading) { CatchKeepsSound(s, e); }
    case Mounted(e, c) => if Waits(s, e, Mounting) { ReturnKeepsSound(s, e, c); }
    case MountFailed(e) => if Waits(s, e, Mounting) { CatchKeepsSound(s, e); }
    case ContextChanged => if Steady(s, event) { UpdateKeepsSound(s); } else { UpdateAfterDispose(s); }
  }

  /** The calls are in order after every step of the run. */
  ghost predicate OrderedThroughout(events: seq<Event>) {
    && InOrder(Run(events).log, Run(events).instances)
    && (events == [] || OrderedThroughout(events[..|events| - 1]))
  }

  ghost predicate SteadyRun(events: seq<Event>) {
    || events == []
    || (SteadyRun(events[..|events| - 1]) && Steady(Run(events[..|events| - 1]), events[|events| - 1]))
  }

  lemma {:induction false} AlwaysSound(events: seq<Event>)
    requires SteadyRun(events)
    ensures Sound(Run(events))
  {
    if events != [] {
      hide Sound, Step, Steady;
      AlwaysSound(events[..|events| - 1]);
      StepKeepsSoundExactly(Run(events[..|events| - 1]), events[|events| - 1]);
    }
  }

  /** In every run, mount, update and dispose are called in their order (no mount after teardown, no update
      after disposal, disposal after teardown and only once) exactly when no step touches an instance whose
      dispose call threw during its teardown. */
  lemma {:induction false} OrderedExactly(events: seq<Event>)
    ensures OrderedThroughout(events) <==> SteadyRun(events)
  {
    if events != [] {
      hide Sound, Step, Steady, InOrder;
      var before := events[..|events| - 1];
      OrderedExactly(before);
      if SteadyRun(before) {
        AlwaysSound(before);
        StepKeepsSoundExactly(Run(before), events[|events| - 1]);
      }
    } else {
      AlwaysSound(events);
    }
  }

  /** No dispose call throws during a teardown. */
  predicate QuietTeardowns(events: seq<Event>) {
    forall k :: 0 <= k < |events| && events[k].Teardown? ==> !events[k].throws
  }

  lemma StepLeavesNothing(s: State, event: Event)
    requires Sound(s) && !LeftOver(s) && (event.Teardown? ==> !event.throws)
    ensures !LeftOver(Step(s, event))
  {
    hide InOrder, StatusTellsTruth;
  }

  /** Without such throws nothing is ever left over: the ref holds the instance of the live effect, or nothing. */
  lemma {:induction false} QuietRunsAreSteady(events: seq<Event>)
    requires QuietTeardowns(events)
    ensures SteadyRun(events) && !LeftOver(Run(events))
  {
    if events != [] {
      hide Sound, Step;
      var before := events[..|events| - 1];
      QuietRunsAreSteady(before);
      AlwaysSound(before);
      StepLeavesNothing(Run(before), events[|events| - 1]);
    }
  }

  /** Left alone, an effect whose module exports mount ends with the instance mount returned. */
  lemma UndisturbedMounts(s: State, m: RendererModule, c: Cleanup)
    requires Sound(s) && s.live.None? && s.current.None? && ResolveMount(m).Some?
    ensures var e, i := |s.effects|, |s.instances|;
            var done := Step(Step(Step(s, Setup(false)), Loaded(e, m)), Mounted(e, c));
            && done.current == Some(i) && done.instances == s.instances + [Owned(NormalizeCleanup(c), e)]
            && done.phase == ReadyPhase && done.owner == done.live == Some(e)
            && done.log == s.log + [SetUp(e), MountCalled(e), Returned(i, e)]
  {
  }

  /** An instance that can be disposed is disposed at exactly one moment, after its effect's teardown, if
      its effect is torn down, and never otherwise. */
  lemma EachInstanceDisposedOnce(events: seq<Event>, i: nat)
    requires SteadyRun(events) && Disposable(Run(events), i)
    ensures var s := Run(events);
            var e := s.instances[i].effect;
            if s.live == Some(e) then Disposed(i) !in s.log
            else exists p :: 0 <= p < |s.log| && s.log[p] == Disposed(i) && TornDown(e) in s.log[..p]
                             && forall q :: 0 <= q < |s.log| && s.log[q] == Disposed(i) ==> q == p
  {
    hide Run, SteadyRun;
    AlwaysSound(events);
    var s := Run(events);
    if s.live != Some(s.instances[i].effect) {
      assert Waits(s, s.instances[i].effect, Settled);
      var p :| 0 <= p < |s.log| && s.log[p] == Disposed(i);
      forall q | 0 <= q < |s.log| && s.log[q] == Disposed(i) ensures q == p {
        assert Proper(s.log[q], s.log[..q], s.instances) && Proper(s.log[p], s.log[..p], s.instances);
      }
    }
  }

  lemma StepKeepsInstances(s: State, event: Event)
    ensures s.instances <= Step(s, event).instances
  {
  }

  lemma {:induction false} InstancesStay(events: seq<Event>, p: nat)
    requires p <= |events|
    ensures Run(events[..p]).instances <= Run(events).instances
  {
    if p < |events| {
      hide Step;
      var n := |events| - 1;
      assert events[..n][..p] == events[..p];
      InstancesStay(events[..n], p);
      StepKeepsInstances(Run(events[..n]), events[n]);
    } else {
      assert events[..p] == events;
    }
  }

  /** The mount call of effect e returns at position p of the run; the instance it returns gets number i. */
  ghost predicate MountReturns(events: seq<Event>, p: nat, i: nat) {
    && p < |events| && events[p].Mounted? && Waits(Run(events[..p]), events[p].effect, Mounting)
    && i == |Run(events[..p]).instances|
  }

  /** What the renderer's mount call returned can be disposed or updated. */
  predicate CanDispose(c: Cleanup) {
    c.Callback? || (c.Object? && c.hasDispose)
  }

  predicate CanUpdate(c: Cleanup) {
    c.Object? && c.hasUpdate
  }

  lemma ReturnedStays(events: seq<Event>, p: nat, i: nat)
    requires MountReturns(events, p, i)
    ensures var s := Run(events);
            && i < |s.instances| && s.instances[i].effect == events[p].effect
            && s.instances[i].instance == Instance(CanUpdate(events[p].cleanup), CanDispose(events[p].cleanup))
  {
    assert events[..p + 1][..p] == events[..p];
    InstancesStay(events, p + 1);
    assert Run(events[..p + 1]).instances[i] == Run(events).instances[i];
  }

  /** From what mount returned: if it is a function, or an object with `dispose`, it is disposed once its effect is
      torn down, and then at exactly one moment; otherwise never. */
  lemma ReturnedIsDisposedExactly(events: seq<Event>, p: nat, i: nat)
    requires SteadyRun(events) && MountReturns(events, p, i)
    ensures var s, e := Run(events), events[p].effect;
            && (Disposed(i) in s.log <==> CanDispose(events[p].cleanup) && TornDown(e) in s.log)
            && (forall q, r :: 0 <= q < |s.log| && 0 <= r < |s.log| && s.log[q] == s.log[r] == Disposed(i) ==> q == r)
            && (forall q :: 0 <= q < |s.log| && s.log[q] == Disposed(i) ==> TornDown(e) in s.log[..q])
  {
    ReturnedStays(events, p, i);
    AlwaysSound(events);
    hide Run, SteadyRun, MountReturns;
    var s := Run(events);
    assert Waits(s, s.instances[i].effect, Settled);
    forall q | 0 <= q < |s.log| && s.log[q] == Disposed(i) ensures Proper(s.log[q], s.log[..q], s.instances) {
    }
    hide Coherent, DisposedWithEffect;
    forall q, r | 0 <= q < r < |s.log| && s.log[q] == Disposed(i) ensures s.log[r] != Disposed(i) {
      assert s.log[q] in s.log[..r];
    }
  }

  /** While its effect lives, it is the instance in the ref with status ready, and a change of the context calls its
      `update` exactly when mount returned an object that has one. */
  lemma ReturnedIsUpdatedExactly(events: seq<Event>, p: nat, i: nat)
    requires SteadyRun(events) && MountReturns(events, p, i) && Run(events).live == Some(events[p].effect)
    ensures var s := Run(events);
            && s.current == Some(i) && s.phase == ReadyPhase
            && Step(s, ContextChanged).log == s.log + (if CanUpdate(events[p].cleanup) then [Updated(i)] else [])
            && Step(s, ContextChanged).(log := s.log) == s
  {
    ReturnedStays(events, p, i);
    AlwaysSound(events);
    hide Run, SteadyRun, MountReturns, InOrder;
    assert Waits(Run(events), events[p].effect, Settled);
  }

  /** A module without a mount export, one that does not load, and a mount call that throws: the live effect ends with
      an error and no instance, and mount is called only in the last case. */
  lemma FailuresShow(s: State, m: RendererModule)
    requires Sound(s) && s.live.None? && s.current.None?
    ensures var e, loading := |s.effects|, Step(s, Setup(false));
            && loading.phase == LoadingPhase && loading.live == Some(e) && loading.log == s.log + [SetUp(e)]
            && (ResolveMount(m).None? ==>
                  var failed := Step(loading, Loaded(e, m));
                  && failed.phase == ErrorPhase && failed.owner == Some(e) && failed.current.None?
                  && failed.log == loading.log)
            && (var failed := Step(loading, LoadFailed(e));
                && failed.phase == ErrorPhase && failed.owner == Some(e) && failed.current.None?
                && failed.log == loading.log)
            && (ResolveMount(m).Some? ==>
                  var failed := Step(Step(loading, Loaded(e, m)), MountFailed(e));
                  && failed.phase == ErrorPhase && failed.owner == Some(e) && failed.current.None?
                  && failed.log == loading.log + [MountCalled(e)])
  {
  }

  /** A teardown ends the live effect and disposes its instance; after that none of the effect's promises shows
      anything, and only an instance it still returns is disposed. */
  lemma TeardownEnds(s: State, m: RendererModule, c: Cleanup)
    requires Sound(s) && s.live.Some?
    ensures var e, torn := s.live.value, Step(s, Teardown(false));
            && torn.live.None? && torn.current.None? && torn.effects[e].disposed
            && torn.log == s.log + [TornDown(e)] +
                 (if s.current.Some? && Disposable(s, s.current.value) then [Disposed(s.current.value)] else [])
            && (forall event :: event in [Loaded(e, m), LoadFailed(e), MountFailed(e), Mounted(e, c)] ==>
                  var late := Step(torn, event);
                  && late.live.None? && late.current.None? && late.phase == torn.phase && late.owner == torn.owner
                  && forall i: nat :: MountCalled(i) in late.log ==> MountCalled(i) in torn.log)
  {
  }

  /** No module is mounted after its effect's teardown, and no instance is updated after its disposal. */
  lemma NothingAfterTheEnd(events: seq<Event>, p: nat, q: nat)
    requires SteadyRun(events) && p < q < |Run(events).log|
    ensures var log := Run(events).log;
            && (log[p].TornDown? ==> log[q] != MountCalled(log[p].effect))
            && (log[p].Disposed? ==> log[q] != Updated(log[p].instance))
  {
    hide Run, SteadyRun;
    AlwaysSound(events);
    var s := Run(events);
    assert Proper(s.log[q], s.log[..q], s.instances);
    assert s.log[p] in s.log[..q];
  }

  /** After a teardown of an effect with a disposable instance, a setup keeps the order exactly when the dispose
      call did not throw, and so does a change of the context if the instance has `update`. */
  lemma TeardownMustNotThrow(s: State, throws: bool, again: bool)
    requires Sound(s) && s.live.Some? && s.current.Some? && Disposable(s, s.current.value)
    ensures var torn := TearingDown(s, s.live.value, throws);
            && (InOrder(SettingUp(torn, again).log, SettingUp(torn, again).instances) <==> !throws)
            && (InOrder(Updating(torn).log, Updating(torn).instances) <==> !(throws && Updatable(s)))
  {
    TeardownKeepsSound(s, throws);
    var torn := TearingDown(s, s.live.value, throws);
    assert LeftOver(torn) == throws && torn.live.None? && (throws ==> Updatable(torn) == Updatable(s));
    hide Sound, InOrder, TearingDown;
    StepKeepsSoundExactly(torn, Setup(again));
    StepKeepsSoundExactly(torn, ContextChanged);
  }
}
