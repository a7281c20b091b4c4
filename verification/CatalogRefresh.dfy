/** The coalesced refresh of the icon-theme catalog in the desktop app.

    Callers ask for a refresh at any time. One runner at a time lists the theme directory, compares the
    listing's signature with the last one and, when it differs, discovers the packages again. Requests
    that arrive while it runs are folded into one further iteration. Each stretch of code between two
    awaits is one step; any caller may run between two steps.
 */
module CatalogRefresh {
  import opened Options

  type Directory = int          // one state of the theme directory on disk
  type Catalog = seq<string>    // the packages shown

  /** The disk: the signature of a directory state (paths and times of its top-level entries), what discovering
      it returns (which depends on files inside the packages too), and what discovery returns when it can not
      list the directory itself. */
  datatype Disk = Disk(signature: Directory -> string, discover: Directory -> Catalog, builtIn: Catalog)

  datatype Refs = Refs(inFlight: bool, queued: bool, signature: string, catalog: Catalog)

  // ---------------------------------------------------------------- one stretch at a time

  function NextForced(r: Refs, force: bool): bool {
    force || r.queued
  }

  /** The head of the loop body, up to the first await. */
  function BeginIteration(r: Refs, force: bool): Refs {
    r.(queued := false, signature := if NextForced(r, force) then "" else r.signature)
  }

  function Starts(r: Refs): bool {
    !r.inFlight
  }

  /** A caller's stretch: it either starts the loop or leaves a note for the runner. */
  function Call(r: Refs, force: bool): Refs {
    if r.inFlight then r.(queued := true)
    else BeginIteration(r.(inFlight := true, queued := r.queued || force), force)
  }

  function Skips(r: Refs, forced: bool, signature: string): bool {
    !forced && signature == r.signature
  }

  /** The loop condition: go round again or clear the in-flight flag. */
  function EndIteration(r: Refs): Refs {
    if r.queued then BeginIteration(r, false) else r.(inFlight := false)
  }

  /** The refs and state of the source, updated in place. */
  class RefreshRefs {
    var inFlight: bool
    var queued: bool
    var signature: string
    var catalog: Catalog

    ghost function View(): Refs
      reads this
    {
      Refs(inFlight, queued, signature, catalog)
    }

    constructor ()
      ensures View() == Refs(false, false, "", [])
    {
      inFlight, queued, signature, catalog := false, false, "", [];
    }

    method Refresh(force: bool) returns (started: bool, forced: bool)
      modifies this
      ensures View() == Call(old(View()), force)
      ensures started == Starts(old(View()))
      ensures started ==> forced == NextForced(old(View()), force)
    {
      started, forced := false, false;
      if force {
        queued := true;
      }
      if inFlight {
        queued := true;
        return;
      }
      inFlight := true;
      started := true;
      forced := IterationHead(force);
    }

    method IterationHead(force: bool) returns (forced: bool)
      modifies this
      ensures View() == BeginIteration(old(View()), force) && forced == NextForced(old(View()), force)
    {
      forced := force || queued;
      queued := false;
      if forced {
        signature := "";
      }
    }

    method ListingArrived(forced: bool, nextSignature: string) returns (discover: bool)
      modifies this
      ensures discover == !Skips(old(View()), forced, nextSignature)
      ensures View() == if discover then old(View()).(signature := nextSignature) else old(View())
    {
      if !forced && nextSignature == signature {
        return false;
      }
      signature := nextSignature;
      discover := true;
    }

    method ShowPackages(packages: Catalog)
      modifies this
      ensures View() == old(View()).(catalog := packages)
    {
      catalog := packages;
    }

    method LoopAgain() returns (again: bool)
      modifies this
      ensures View() == EndIteration(old(View())) && again == old(queued)
    {
      again := queued;
      if again {
        var _ := IterationHead(false);
      } else {
        inFlight := false;
      }
    }
  }

  // ---------------------------------------------------------------- interleavings

  datatype Runner = Listing(forced: bool) | Discovering(dir: Directory)

  datatype Item =
    | Asked(force: bool, busy: bool)   // a caller asked; busy: the loop was running
    | Began(forced: bool)              // an iteration began; forced: it ignores the signature
    | Ended                            // the loop ended

  /** What the catalog shows: nothing (at first, and after an error), the built-in packages of a discovery that
      could not list the directory, or the discovery of a directory state. */
  datatype Shown = Nothing | BuiltIn | Found(dir: Directory)

  function Showing(disk: Disk, shown: Shown): Catalog {
    match shown
    case Nothing => []
    case BuiltIn => disk.builtIn
    case Found(dir) => disk.discover(dir)
  }

  /** `runners` has one element per call that is inside the loop. */
  datatype State = State(refs: Refs, runners: seq<Runner>, log: seq<Item>, shown: Shown)

  datatype Event =
    | Ask(force: bool)
    | Listed(runner: nat, dir: Directory)
    | ListingThrew(runner: nat)
    | Discovered(runner: nat, dir: Directory)
    | SourceFailed(runner: nat)        // the discovery returns, but could not list the directory
    | DiscoveryThrew(runner: nat)

  const START := State(Refs(false, false, "", []), [], [], Nothing)

  function Asking(s: State, force: bool): State {
    var asked := s.log + [Asked(force, s.refs.inFlight)];
    if !Starts(s.refs) then s.(refs := Call(s.refs, force), log := asked)
    else
      var forced := NextForced(s.refs, force);
      s.(refs := Call(s.refs, force), runners := s.runners + [Listing(forced)], log := asked + [Began(forced)])
  }

  function Without(runners: seq<Runner>, i: nat): seq<Runner>
    requires i < |runners|
  {
    runners[..i] + runners[i + 1..]
  }

  function Continue(s: State, i: nat): State
    requires i < |s.runners|
  {
    if s.refs.queued then
      s.(refs := EndIteration(s.refs), runners := s.runners[i := Listing(true)], log := s.log + [Began(true)])
    else
      s.(refs := EndIteration(s.refs), runners := Without(s.runners, i), log := s.log + [Ended])
  }

  /** The catalog is set, and the iteration ends. */
  function Present(disk: Disk, s: State, i: nat, shown: Shown): State
    requires i < |s.runners|
  {
    Continue(s.(refs := s.refs.(catalog := Showing(disk, shown)), shown := shown), i)
  }

  /** What a discovery leaves to show. */
  function Outcome(e: Event): Shown {
    match e
    case Discovered(_, dir) => Found(dir)
    case SourceFailed(_) => BuiltIn
    case _ => Nothing
  }

  function Step(disk: Disk, s: State, e: Event): State {
    match e
    case Ask(force) => Asking(s, force)
    case Listed(i, dir) =>
      if !(i < |s.runners| && s.runners[i].Listing?) then s
      else if Skips(s.refs, s.runners[i].forced, disk.signature(dir)) then Continue(s, i)
      else s.(refs := s.refs.(signature := disk.signature(dir)), runners := s.runners[i := Discovering(dir)])
    case ListingThrew(i) => if i < |s.runners| && s.runners[i].Listing? then Present(disk, s, i, Nothing) else s
    case _ =>
      if !(e.runner < |s.runners| && s.runners[e.runner].Discovering?) then s
      else Present(disk, s, e.runner, Outcome(e))
  }

  function Run(disk: Disk, events: seq<Event>): State {
    if events == [] then START
    else Step(disk, Run(disk, events[..|events| - 1]), events[|events| - 1])
  }

  // ---------------------------------------------------------------- no lost request, one runner

  predicate Demanding(item: Item) {
    item.Asked? && (item.force || item.busy)
  }

  /** After the request at i an iteration began; if the request was forced or came while the loop ran,
      one that ignores the signature. */
  ghost predicate Served(log: seq<Item>, i: nat)
    requires i < |log|
  {
    exists j :: i < j < |log| && log[j].Began? && (Demanding(log[i]) ==> log[j].forced)
  }

  ghost predicate AllServed(log: seq<Item>) {
    forall i :: 0 <= i < |log| && log[i].Asked? ==> Served(log, i)
  }

  /** Iterations of the current run of the loop. */
  function Iterations(log: seq<Item>): nat {
    if log == [] || log[|log| - 1].Ended? then 0
    else Iterations(log[..|log| - 1]) + if log[|log| - 1].Began? then 1 else 0
  }

  /** Requests that arrived during the current run of the loop. */
  function Joined(log: seq<Item>): nat {
    if log == [] || log[|log| - 1].Ended? then 0
    else Joined(log[..|log| - 1]) + if log[|log| - 1].Asked? && log[|log| - 1].busy then 1 else 0
  }

  /** The protocol's invariant. */
  ghost predicate Coalesced(s: State) {
    && |s.runners| == (if s.refs.inFlight then 1 else 0)
    && (!s.refs.inFlight ==> !s.refs.queued)
    && (!s.refs.queued ==> AllServed(s.log))
    && (if s.refs.inFlight then Iterations(s.log) + (if s.refs.queued then 1 else 0) <= 1 + Joined(s.log)
        else Iterations(s.log) == Joined(s.log) == 0)
  }

  lemma ServedStays(log: seq<Item>, item: Item, i: nat)
    requires i < |log| && Served(log, i)
    ensures Served(log + [item], i)
  {
    var j :| i < j < |log| && log[j].Began? && (Demanding(log[i]) ==> log[j].forced);
    assert (log + [item])[j] == log[j];
  }

  /** A new iteration serves everything, except demanding requests if it is not forced. */
  lemma BeganServes(log: seq<Item>, forced: bool, i: nat)
    requires i < |log| && (Demanding(log[i]) ==> forced)
    ensures Served(log + [Began(forced)], i)
  {
    assert (log + [Began(forced)])[|log|].Began?;
  }

  lemma CountsAppended(log: seq<Item>, item: Item)
    ensures Iterations(log + [item]) == if item.Ended? then 0 else Iterations(log) + if item.Began? then 1 else 0
    ensures Joined(log + [item]) == if item.Ended? then 0 else Joined(log) + if item.Asked? && item.busy then 1 else 0
  {
    assert (log + [item])[..|log|] == log;
  }

  lemma AllStillServed(log: seq<Item>, item: Item)
    requires AllServed(log) && !item.Asked?
    ensures AllServed(log + [item])
  {
    hide Served;
    forall i | 0 <= i < |log| && log[i].Asked? ensures Served(log + [item], i) {
      ServedStays(log, item, i);
    }
  }

  lemma ForcedServesAll(log: seq<Item>)
    ensures AllServed(log + [Began(true)])
  {
    hide Served;
    forall i | 0 <= i < |log| ensures Served(log + [Began(true)], i) {
      BeganServes(log, true, i);
    }
  }

  lemma BeganServesLast(log: seq<Item>, last: Item, forced: bool)
    requires AllServed(log) && !Demanding(last)
    ensures AllServed(log + [last] + [Began(forced)])
  {
    hide Served, Demanding;
    var more := log + [last];
    forall i | 0 <= i < |more| && more[i].Asked? ensures Served(more + [Began(forced)], i) {
      if i < |log| {
        assert log[i].Asked?;
        ServedStays(log, last, i);
        ServedStays(more, Began(forced), i);
      } else {
        BeganServes(more, forced, i);
      }
    }
  }

  lemma AskKeepsCoalesced(s: State, force: bool)
    requires Coalesced(s)
    ensures Coalesced(Asking(s, force))
  {
    var asked := s.log + [Asked(force, s.refs.inFlight)];
    CountsAppended(s.log, Asked(force, s.refs.inFlight));
    CountsAppended(asked, Began(force));
    hide AllServed, Iterations, Joined;
    if force {
      ForcedServesAll(asked);
    } else if !s.refs.inFlight {
      BeganServesLast(s.log, Asked(force, false), false);
    }
  }

  lemma ContinueKeepsCoalesced(s: State, i: nat)
    requires Coalesced(s) && i < |s.runners|
    ensures Coalesced(Continue(s, i))
  {
    CountsAppended(s.log, Began(true));
    CountsAppended(s.log, Ended);
    ForcedServesAll(s.log);
    hide AllServed, Iterations, Joined;
    if !s.refs.queued {
      AllStillServed(s.log, Ended);
    }
  }

  lemma StepKeepsCoalesced(disk: Disk, s: State, e: Event)
    requires Coalesced(s)
    ensures Coalesced(Step(disk, s, e))
  {
    hide Continue, Asking, AllServed, Iterations, Joined;
    match e
    case Ask(force) => AskKeepsCoalesced(s, force);
    case Listed(i, _) =>
      if i < |s.runners| {
        ContinueKeepsCoalesced(s, i);
      }
    case _ =>
      if e.runner < |s.runners| {
        var shown := Outcome(e);
        ContinueKeepsCoalesced(s.(refs := s.refs.(catalog := Showing(disk, shown)), shown := shown), e.runner);
      }
  }

  /** In every run: at most one runner; when the loop is idle every request was served; and a run of the
      loop makes at most one iteration more than requests arrived during it. */
  lemma {:induction false} AlwaysCoalesced(disk: Disk, events: seq<Event>)
    ensures Coalesced(Run(disk, events))
  {
    if events != [] {
      hide Step, Coalesced;
      AlwaysCoalesced(disk, events[..|events| - 1]);
      StepKeepsCoalesced(disk, Run(disk, events[..|events| - 1]), events[|events| - 1]);
    } else {
      assert Coalesced(START);
    }
  }

  lemma NoLostRequest(disk: Disk, events: seq<Event>)
    ensures var s := Run(disk, events);
            && |s.runners| <= 1
            && (s.runners == [] ==> AllServed(s.log))
            && Iterations(s.log) <= 1 + Joined(s.log)
  {
    hide Run, AllServed, Iterations, Joined;
    AlwaysCoalesced(disk, events);
  }

  /** What the log says is what happened: a request is logged with whether the loop was running; an iteration is
      logged when a runner begins to list, with whether it is forced; the end, when no runner is left. */
  lemma LogTells(disk: Disk, s: State, e: Event) returns (added: seq<Item>)
    requires Coalesced(s)
    ensures var s' := Step(disk, s, e);
            && s'.log == s.log + added
            && (e.Ask? ==>
                  && added == [Asked(e.force, s.runners != [])] + (if s.runners == [] then [Began(e.force)] else [])
                  && s'.runners == if s.runners == [] then [Listing(e.force)] else s.runners)
            && (!e.Ask? && added != [] ==>
                  if s.refs.queued then added == [Began(true)] && s'.runners == [Listing(true)]
                  else added == [Ended] && s'.runners == [])
            && (!e.Ask? && added == [] ==> s' == s || (s'.runners != [] && s'.runners[0].Discovering?))
  {
    added := Step(disk, s, e).log[|s.log|..];
    hide AllServed, Iterations, Joined;
  }

  // ---------------------------------------------------------------- catalog and signature, in every run

  predicate ListsAt(s: State, i: nat) {
    i < |s.runners| && s.runners[i].Listing?
  }

  predicate DiscoversAt(s: State, i: nat) {
    i < |s.runners| && s.runners[i].Discovering?
  }

  /** What the events call for: of the errors in listings and discoveries and the discoveries that returned, the last
      one decides. */
  ghost function LastShown(disk: Disk, events: seq<Event>): Shown {
    if events == [] then Nothing
    else
      var before, e := events[..|events| - 1], events[|events| - 1];
      if e.Ask? || e.Listed? then LastShown(disk, before)
      else if e.ListingThrew? && ListsAt(Run(disk, before), e.runner) then Nothing
      else if !e.ListingThrew? && DiscoversAt(Run(disk, before), e.runner) then
        match e
        case Discovered(_, dir) => Found(dir)
        case SourceFailed(_) => BuiltIn
        case _ => Nothing
      else LastShown(disk, before)
  }

  lemma StepShows(disk: Disk, s: State, e: Event)
    ensures e.Ask? || e.Listed? ==> Step(disk, s, e).shown == s.shown && Step(disk, s, e).refs.catalog == s.refs.catalog
    ensures e.ListingThrew? && ListsAt(s, e.runner) ==>
              Step(disk, s, e).shown == Nothing && Step(disk, s, e).refs.catalog == []
    ensures e.DiscoveryThrew? && DiscoversAt(s, e.runner) ==>
              Step(disk, s, e).shown == Nothing && Step(disk, s, e).refs.catalog == []
    ensures e.SourceFailed? && DiscoversAt(s, e.runner) ==>
              Step(disk, s, e).shown == BuiltIn && Step(disk, s, e).refs.catalog == disk.builtIn
    ensures e.Discovered? && DiscoversAt(s, e.runner) ==>
              Step(disk, s, e).shown == Found(e.dir) && Step(disk, s, e).refs.catalog == disk.discover(e.dir)
    ensures !e.Ask? && !e.Listed? && !(if e.ListingThrew? then ListsAt(s, e.runner) else DiscoversAt(s, e.runner)) ==>
              Step(disk, s, e) == s
  {
  }

  /** In every run the catalog is empty, the built-in packages, or a discovery, exactly as they call for. */
  lemma {:induction false} CatalogIsLastShown(disk: Disk, events: seq<Event>)
    ensures Run(disk, events).shown == LastShown(disk, events)
    ensures Run(disk, events).refs.catalog ==
              match LastShown(disk, events)
              case Nothing => []
              case BuiltIn => disk.builtIn
              case Found(dir) => disk.discover(dir)
  {
    if events != [] {
      hide Step, ListsAt, DiscoversAt;
      CatalogIsLastShown(disk, events[..|events| - 1]);
      StepShows(disk, Run(disk, events[..|events| - 1]), events[|events| - 1]);
    }
  }

  /** A step forgets the signature exactly when a forced iteration begins, and else changes it only by a listing
      that is not skipped. */
  lemma SignatureChanges(disk: Disk, s: State, e: Event)
    requires Coalesced(s)
    ensures var s' := Step(disk, s, e);
            s'.refs.signature ==
              if s'.log != s.log && s'.log[|s'.log| - 1] == Began(true) then ""
              else if e.Listed? && ListsAt(s, e.runner)
                      && (s.runners[e.runner].forced || disk.signature(e.dir) != s.refs.signature)
              then disk.signature(e.dir)
              else s.refs.signature
  {
    hide AllServed, Iterations, Joined;
  }

  // ---------------------------------------------------------------- the signature cache

  /** The directory does not change between an iteration's listing and its discovery. */
  predicate StableStep(s: State, e: Event) {
    e.Discovered? && e.runner < |s.runners| && s.runners[e.runner].Discovering? ==> s.runners[e.runner].dir == e.dir
  }

  ghost predicate StableRun(disk: Disk, events: seq<Event>) {
    events == [] || (StableRun(disk, events[..|events| - 1])
                     && StableStep(Run(disk, events[..|events| - 1]), events[|events| - 1]))
  }

  /** Nothing throws, and every discovery can list the directory. */
  predicate NoFailure(events: seq<Event>) {
    forall i :: 0 <= i < |events| ==>
      !events[i].ListingThrew? && !events[i].SourceFailed? && !events[i].DiscoveryThrew?
  }

  /** How signature and catalog belong together. */
  ghost predicate Cached(disk: Disk, s: State) {
    && |s.runners| <= 1
    && s.refs.catalog == Showing(disk, s.shown)
    && (s.runners != [] && s.runners[0].Discovering? ==> s.refs.signature == disk.signature(s.runners[0].dir))
    && (s.runners == [Listing(true)] ==> s.refs.signature == "")
    && (s.shown.Found? && (s.runners == [] || s.runners == [Listing(false)]) ==>
          s.refs.signature == disk.signature(s.shown.dir))
  }

  lemma StepKeepsCached(disk: Disk, s: State, e: Event)
    requires Coalesced(s) && Cached(disk, s) && StableStep(s, e)
    ensures Cached(disk, Step(disk, s, e))
  {
    hide AllServed, Iterations, Joined;
  }

  lemma {:induction false} AlwaysCached(disk: Disk, events: seq<Event>)
    requires StableRun(disk, events)
    ensures Cached(disk, Run(disk, events))
  {
    if events != [] {
      hide Step, Cached, Coalesced;
      var s := Run(disk, events[..|events| - 1]);
      AlwaysCached(disk, events[..|events| - 1]);
      AlwaysCoalesced(disk, events[..|events| - 1]);
      StepKeepsCached(disk, s, events[|events| - 1]);
    } else {
      assert Cached(disk, START);
    }
  }

  /** Runner 0 is waiting for a listing. */
  predicate Lists(s: State) {
    s.runners != [] && s.runners[0].Listing?
  }

  /** It skips the discovery when the listing shows the directory state `dir`. */
  predicate SkipsAt(disk: Disk, s: State, dir: Directory) {
    Lists(s) && Skips(s.refs, s.runners[0].forced, disk.signature(dir))
  }

  /** On every disk, the catalog is right after every discovery. When a discovery is skipped, what is shown was
      discovered under the same signature, or is what a failure left; and the skip is invisible exactly when the
      directory would show that. */
  lemma SkipInvisibleExactly(disk: Disk, events: seq<Event>, dir: Directory)
    requires StableRun(disk, events)
    ensures var s := Run(disk, events);
            && (s.runners == [Discovering(dir)] ==>
                  Step(disk, s, Discovered(0, dir)).refs.catalog == disk.discover(dir))
            && (SkipsAt(disk, s, dir) ==>
                  && (s.shown.Found? ==> disk.signature(s.shown.dir) == disk.signature(dir))
                  && (Step(disk, s, Listed(0, dir)).refs.catalog == disk.discover(dir) <==>
                        match s.shown
                        case Nothing => disk.discover(dir) == []
                        case BuiltIn => disk.discover(dir) == disk.builtIn
                        case Found(d) => disk.discover(dir) == disk.discover(d)))
  {
    hide Run, StableRun;
    AlwaysCached(disk, events);
    var s := Run(disk, events);
    assert SkipsAt(disk, s, dir) ==> s.runners == [Listing(false)];
  }

  /** No failure has left its mark, and before the first discovery there is no signature. */
  predicate Unharmed(s: State) {
    !s.shown.BuiltIn? && (s.shown.Nothing? && (s.runners == [] || Lists(s)) ==> s.refs.signature == "")
  }

  lemma StepKeepsUnharmed(disk: Disk, s: State, e: Event)
    requires Coalesced(s) && Unharmed(s) && NoFailure([e])
    ensures Unharmed(Step(disk, s, e))
  {
    assert [e][0] == e;
    hide AllServed, Iterations, Joined, Served;
  }

  lemma {:induction false} AlwaysUnharmed(disk: Disk, events: seq<Event>)
    requires NoFailure(events)
    ensures Unharmed(Run(disk, events))
  {
    if events != [] {
      hide Unharmed, Step, Coalesced;
      var before, e := events[..|events| - 1], events[|events| - 1];
      AlwaysUnharmed(disk, before);
      AlwaysCoalesced(disk, before);
      StepKeepsUnharmed(disk, Run(disk, before), e);
    }
  }

  /** The iteration of runner 0 with a directory that does not change: it ends after the listing, or after
      the discovery the listing led to. */
  function Iterate(disk: Disk, s: State, dir: Directory): State {
    var listed := Step(disk, s, Listed(0, dir));
    if listed.runners == [Discovering(dir)] then Step(disk, listed, Discovered(0, dir)) else listed
  }

  /** Directory states with the same signature, one that is not empty, discover alike. */
  ghost predicate SignatureTells(disk: Disk) {
    forall d1, d2 :: disk.signature(d1) == disk.signature(d2) != "" ==> disk.discover(d1) == disk.discover(d2)
  }

  /** A directory state with the empty signature discovers nothing. */
  ghost predicate EmptyShowsNothing(disk: Disk) {
    forall d :: disk.signature(d) == "" ==> disk.discover(d) == []
  }

  /** After a run without failures and changes within iterations, an iteration begins. */
  ghost predicate Iterates(disk: Disk, events: seq<Event>) {
    StableRun(disk, events) && NoFailure(events) && Lists(Run(disk, events))
  }

  /** Such an iteration is forced, or sees a directory with a signature. */
  ghost predicate Informed(disk: Disk, events: seq<Event>, dir: Directory) {
    Iterates(disk, events) && (Run(disk, events).runners[0].forced || disk.signature(dir) != "")
  }

  /** An iteration that does not skip shows the directory, whatever failed before; a forced one never skips. */
  lemma DiscoveryShowsDirectory(disk: Disk, events: seq<Event>, dir: Directory)
    requires Lists(Run(disk, events))
    ensures var s := Run(disk, events);
            && (s.runners[0].forced ==> !SkipsAt(disk, s, dir))
            && (!SkipsAt(disk, s, dir) ==> Iterate(disk, s, dir).refs.catalog == disk.discover(dir))
  {
    hide Run, AllServed, Iterations, Joined;
    AlwaysCoalesced(disk, events);
    var s := Run(disk, events);
    assert !SkipsAt(disk, s, dir) ==> Step(disk, s, Listed(0, dir)).runners == [Discovering(dir)];
  }

  /** A skipping iteration ends with the catalog as it was. */
  lemma SkipKeepsCatalog(disk: Disk, events: seq<Event>, dir: Directory)
    requires SkipsAt(disk, Run(disk, events), dir)
    ensures var s := Run(disk, events); Iterate(disk, s, dir).refs.catalog == s.refs.catalog
  {
    hide Run, AllServed, Iterations, Joined;
    AlwaysCoalesced(disk, events);
    var s := Run(disk, events);
    var listed := Step(disk, s, Listed(0, dir));
    assert listed.runners == [] || listed.runners == [Listing(true)];
  }

  /** When nothing fails and list signatures tell discoveries apart, every iteration that is forced or sees a
      non-empty signature leaves the catalog at the discovery of the directory it listed, whether or not it
      skipped the discovery; and every iteration does if, besides, what lists empty shows nothing. */
  lemma IterationShowsDirectory(disk: Disk, events: seq<Event>, dir: Directory)
    requires Iterates(disk, events) && SignatureTells(disk)
    requires Informed(disk, events, dir) || EmptyShowsNothing(disk)
    ensures Iterate(disk, Run(disk, events), dir).refs.catalog == disk.discover(dir)
  {
    var s := Run(disk, events);
    DiscoveryShowsDirectory(disk, events, dir);
    if SkipsAt(disk, s, dir) {
      SkipKeepsCatalog(disk, events, dir);
      SkipInvisibleExactly(disk, events, dir);
      AlwaysUnharmed(disk, events);
      AlwaysCached(disk, events);
      hide Run, StableRun, Step, Iterate;
    }
  }

  lemma AfterDiscovery(disk: Disk, dir: Directory)
    ensures var events := [Ask(true), Listed(0, dir), Discovered(0, dir), Ask(false)];
            && Iterates(disk, events) && Run(disk, events).runners == [Listing(false)]
            && Run(disk, events).refs == Refs(true, false, disk.signature(dir), disk.discover(dir))
  {
    var events := [Ask(true), Listed(0, dir), Discovered(0, dir), Ask(false)];
    var listed := [Ask(true), Listed(0, dir)];
    assert events[..3][..2] == listed && listed[..1] == [Ask(true)] && [Ask(true)][..0] == [];
    assert Run(disk, []) == START && StableRun(disk, []);
    assert Run(disk, [Ask(true)]).runners == [Listing(true)] && StableRun(disk, [Ask(true)]);
    assert Run(disk, listed).runners == [Discovering(dir)] && StableRun(disk, listed);
    assert Run(disk, events[..3]).runners == [] && StableRun(disk, events[..3]);
  }

  /** An edit inside a package that keeps the signature is not seen: the catalog stays at the old discovery, and
      at each further unforced iteration. */
  lemma EditInPlaceIsNotSeen(disk: Disk, before: Directory, after: Directory)
    requires disk.signature(before) == disk.signature(after)
    ensures var events := [Ask(true), Listed(0, before), Discovered(0, before), Ask(false)];
            && Iterates(disk, events) && SkipsAt(disk, Run(disk, events), after)
            && Iterate(disk, Run(disk, events), after).refs ==
               Refs(false, false, disk.signature(after), disk.discover(before))
  {
    hide Run, StableRun;
    AfterDiscovery(disk, before);
  }

  /** The signature cache can not be observed exactly when directory states with the same non-empty signature
      discover alike. */
  lemma CacheInvisibleExactly(disk: Disk)
    ensures (forall events, dir :: Informed(disk, events, dir) ==>
               Iterate(disk, Run(disk, events), dir).refs.catalog == disk.discover(dir)) <==>
            SignatureTells(disk)
  {
    hide Run, Iterates, Iterate, EmptyShowsNothing;
    if SignatureTells(disk) {
      forall events, dir | Informed(disk, events, dir)
        ensures Iterate(disk, Run(disk, events), dir).refs.catalog == disk.discover(dir)
      {
        IterationShowsDirectory(disk, events, dir);
      }
    } else {
      var d1, d2 :| disk.signature(d1) == disk.signature(d2) != "" && disk.discover(d1) != disk.discover(d2);
      var events := [Ask(true), Listed(0, d1), Discovered(0, d1), Ask(false)];
      EditInPlaceIsNotSeen(disk, d1, d2);
      assert Informed(disk, events, d2);
      assert Iterate(disk, Run(disk, events), d2).refs.catalog != disk.discover(d2);
    }
  }

  lemma FirstUnforcedIteration(disk: Disk)
    ensures Iterates(disk, [Ask(false)])
    ensures forall d :: disk.signature(d) == "" ==> Iterate(disk, Run(disk, [Ask(false)]), d).refs.catalog == []
  {
    assert [Ask(false)][..0] == [] && StableRun(disk, []);
    assert Run(disk, [Ask(false)]) == Asking(START, false);
  }

  /** Every iteration, also one that is not forced and sees an empty directory, shows its directory exactly when,
      besides, a directory with the empty signature discovers nothing. */
  lemma EveryIterationShowsExactly(disk: Disk)
    ensures (forall events, dir :: Iterates(disk, events) ==>
               Iterate(disk, Run(disk, events), dir).refs.catalog == disk.discover(dir)) <==>
            SignatureTells(disk) && EmptyShowsNothing(disk)
  {
    FirstUnforcedIteration(disk);
    CacheInvisibleExactly(disk);
    hide Run, Iterates, Iterate;
    if SignatureTells(disk) && EmptyShowsNothing(disk) {
      forall events, dir | Iterates(disk, events)
        ensures Iterate(disk, Run(disk, events), dir).refs.catalog == disk.discover(dir)
      {
        IterationShowsDirectory(disk, events, dir);
      }
    } else if !EmptyShowsNothing(disk) {
      var d :| disk.signature(d) == "" && disk.discover(d) != [];
      assert Iterate(disk, Run(disk, [Ask(false)]), d).refs.catalog != disk.discover(d);
    }
  }

  /** An empty directory asked for without force is never discovered; and what an error in a discovery or a listing,
      or a failed listing inside a discovery, leaves in the catalog outlives the directory's recovery. */
  lemma SkipVisible(disk: Disk, empty: Directory, dir: Directory)
    requires disk.signature(empty) == ""
    ensures Step(disk, Asking(START, false), Listed(0, empty)).refs == START.refs
    ensures var discovering := Step(disk, Asking(START, true), Listed(0, dir));
            && Step(disk, Asking(Step(disk, discovering, DiscoveryThrew(0)), false), Listed(0, dir)).refs.catalog == []
            && Step(disk, Asking(Step(disk, discovering, SourceFailed(0)), false), Listed(0, dir)).refs.catalog ==
               disk.builtIn
            && var asked := Asking(Step(disk, discovering, Discovered(0, dir)), false);
               Step(disk, Asking(Step(disk, asked, ListingThrew(0)), false), Listed(0, dir)).refs.catalog == []
  {
  }
}
