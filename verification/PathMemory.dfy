/** Pinned and recent folders of the mobile app: two bounded, duplicate-free lists of normalised paths,
    written to local storage on every change. */
module PathMemory {
  import opened Options
  import opened Text
  import opened DistinctLists

  const PINNED_LIMIT: nat := 12
  const RECENT_LIMIT: nat := 10

  function ForwardSlashes(s: string): string {
    seq(|s|, i requires 0 <= i < |s| => if s[i] == '\\' then '/' else s[i])
  }

  function Normalize(path: string): string {
    Strip(ForwardSlashes(Strip(path, IsSpace)), IsSlash)
  }

  predicate Stable(path: string) {
    Normalize(Normalize(path)) == Normalize(path)
  }

  lemma NormalizeFixes(m: string)
    requires '\\' !in m && EdgesKept(m, IsSlash)
    ensures Normalize(m) == m <==> EdgesKept(m, IsSpace)
  {
    var t := Strip(m, IsSpace);
    StripSlices(m, IsSpace);
    StripSlices(ForwardSlashes(t), IsSlash);
    if t == m {
      assert ForwardSlashes(t) == t;
      StripSlices(t, IsSlash);
    }
  }

  /** Normalising twice differs from normalising once exactly when the first leaves space at an edge. */
  lemma StableExactly(path: string)
    ensures Stable(path) <==> EdgesKept(Normalize(path), IsSpace)
  {
    var slashed := ForwardSlashes(Strip(path, IsSpace));
    StripSlices(slashed, IsSlash);
    NormalizeFixes(Normalize(path));
  }

  predicate IsAnySlash(c: char) {
    c == '/' || c == '\\'
  }

  lemma SlashesJoined(a: string, b: string)
    ensures ForwardSlashes(a + b) == ForwardSlashes(a) + ForwardSlashes(b)
  {
  }

  lemma SlashEdges(s: string)
    ensures AllDropped(s, IsAnySlash) ==> AllDropped(ForwardSlashes(s), IsSlash)
    ensures EdgesKept(s, IsAnySlash) ==> EdgesKept(ForwardSlashes(s), IsSlash)
    ensures |ForwardSlashes(s)| == |s|
    ensures forall i :: 0 <= i < |s| ==> ForwardSlashes(s)[i] == if s[i] == '\\' then '/' else s[i]
  {
  }

  /** The normal form: white space goes from both ends, then slashes of either kind; the backslashes that are left
      become slashes, and nothing else changes. */
  lemma NormalizeExactly(lead: string, open: string, core: string, close: string, trail: string)
    requires AllDropped(lead, IsSpace) && AllDropped(trail, IsSpace) && EdgesKept(open + (core + close), IsSpace)
    requires AllDropped(open, IsAnySlash) && AllDropped(close, IsAnySlash) && EdgesKept(core, IsAnySlash)
    ensures var n := Normalize(lead + (open + (core + close) + trail));
            |n| == |core| && forall i :: 0 <= i < |n| ==> n[i] == if core[i] == '\\' then '/' else core[i]
  {
    SlashEdges(open);
    SlashEdges(core);
    SlashEdges(close);
    hide ForwardSlashes, Strip, EdgesKept, AllDropped;
    StripExactly(lead, open + (core + close), trail, IsSpace);
    SlashesJoined(open, core + close);
    SlashesJoined(core, close);
    StripExactly(ForwardSlashes(open), ForwardSlashes(core), ForwardSlashes(close), IsSlash);
  }

  // ---------------------------------------------------------------- lists of distinct paths

  function Normalized(paths: seq<string>): seq<string> {
    seq(|paths|, i requires 0 <= i < |paths| => Normalize(paths[i]))
  }

  function Take(paths: seq<string>, limit: nat): seq<string> {
    if |paths| <= limit then paths else paths[..limit]
  }

  function Deduped(paths: seq<string>, limit: nat): seq<string> {
    Take(Firsts(Normalized(paths)), limit)
  }

  /** The normal forms of the first `i` paths. */
  function NormalizedTo(paths: seq<string>, i: nat): seq<string>
    requires i <= |paths|
  {
    Normalized(paths)[..i]
  }

  lemma NormalizedNext(paths: seq<string>, i: nat)
    requires i < |paths|
    ensures Firsts(NormalizedTo(paths, i + 1)) == Grown(Firsts(NormalizedTo(paths, i)), Normalize(paths[i]))
  {
    FirstsOfMore(NormalizedTo(paths, i), Normalize(paths[i]));
    assert NormalizedTo(paths, i + 1) == NormalizedTo(paths, i) + [Normalize(paths[i])];
  }

  lemma CutAtLimit(all: seq<string>, i: nat, limit: nat)
    requires i <= |all|
    ensures |Firsts(all[..i])| == limit || (i == |all| && |Firsts(all[..i])| < limit) ==>
              Firsts(all[..i]) == Take(Firsts(all), limit)
  {
    hide Firsts;
    FirstsGrow(all[..i], all[i..]);
    assert all == all[..i] + all[i..];
    assert i == |all| ==> all[..i] == all;
  }

  /** Once `limit` paths are found, or all are read, the result is there. */
  lemma DedupedUpTo(paths: seq<string>, i: nat, limit: nat)
    requires i <= |paths|
    ensures i == 0 ==> Firsts(NormalizedTo(paths, i)) == []
    ensures |Firsts(NormalizedTo(paths, i))| == limit || (i == |paths| && |Firsts(NormalizedTo(paths, i))| < limit)
      ==> Firsts(NormalizedTo(paths, i)) == Deduped(paths, limit)
  {
    assert Firsts([]) == [] && |Normalized(paths)| == |paths|;
    assert i == 0 ==> NormalizedTo(paths, i) == [];
    hide Firsts, Normalized, Take;
    CutAtLimit(Normalized(paths), i, limit);
  }

  /** The loop of the source, which stops as soon as the list is full. */
  method Dedupe(paths: seq<string>, limit: nat) returns (out: seq<string>)
    requires limit > 0
    ensures out == Deduped(paths, limit)
  {
    DedupedUpTo(paths, 0, limit);
    hide Firsts, Normalized, Normalize, Deduped;
    var seen: set<string> := {};
    out := [];
    var i := 0;
    while i < |paths|
      invariant 0 <= i <= |paths| && |out| < limit
      invariant out == Firsts(NormalizedTo(paths, i))
      invariant forall p :: p in seen <==> p in out
    {
      var normalized := Normalize(paths[i]);
      NormalizedNext(paths, i);
      DedupedUpTo(paths, i + 1, limit);
      i := i + 1;
      if normalized == "" || normalized in seen {
        continue;
      }
      seen := seen + {normalized};
      out := out + [normalized];
      if |out| >= limit {
        return;
      }
    }
    DedupedUpTo(paths, i, limit);
  }

  /** Cutting a list before it is put behind others loses nothing of the first `limit` paths. */
  lemma CutEarly(front: seq<string>, paths: seq<string>, limit: nat)
    requires AllDistinct(paths) && "" !in paths
    ensures Take(Firsts(front + Take(paths, limit)), limit) == Take(Firsts(front + paths), limit)
  {
    hide Firsts;
    if limit < |paths| {
      var cut := Firsts(front + paths[..limit]);
      FirstsGrow(front + paths[..limit], paths[limit..]);
      assert front + paths[..limit] + paths[limit..] == front + paths;
      FirstsMembers(front + paths[..limit]);
      assert forall p :: p in paths[..limit] ==> p in paths;
      DistinctFit(paths[..limit], cut);
    }
  }

  // ---------------------------------------------------------------- recent paths

  /** `recordRecentPath` on the list. */
  function Recorded(recent: seq<string>, path: string): seq<string> {
    if Normalize(path) == "" then recent else Deduped([Normalize(path)] + recent, RECENT_LIMIT)
  }

  function RecentAfter(initial: seq<string>, history: seq<string>): seq<string> {
    if history == [] then initial
    else Recorded(RecentAfter(initial, history[..|history| - 1]), history[|history| - 1])
  }

  function Reversed(paths: seq<string>): seq<string> {
    seq(|paths|, i requires 0 <= i < |paths| => paths[|paths| - 1 - i])
  }

  /** What the list should be: the most recent distinct paths, then what was there, cut once. */
  function MostRecent(initial: seq<string>, history: seq<string>): seq<string> {
    Take(Firsts(Seen(initial, history)), 10)
  }

  ghost predicate Canonical(paths: seq<string>, limit: nat) {
    && |paths| <= limit
    && AllDistinct(paths)
    && forall p :: p in paths ==> p != "" && Normalize(p) == p
  }

  /** Every path that recording ever saw, newest first, with the initial list behind. */
  function Seen(initial: seq<string>, history: seq<string>): seq<string> {
    Normalized(Reversed(history)) + initial
  }

  lemma SeenIsStable(initial: seq<string>, history: seq<string>, p: string)
    requires Canonical(initial, RECENT_LIMIT) && (forall h :: h in history ==> Stable(h)) && p in Seen(initial, history)
    ensures Normalize(p) == p
  {
    hide Normalize;
    if p !in initial {
      var i :| 0 <= i < |history| && Normalized(Reversed(history))[i] == p;
      hide Canonical, Seen;
      var h := history[|history| - 1 - i];
      assert h in history && p == Normalize(h);
    }
  }

  lemma SeenMore(initial: seq<string>, history: seq<string>, path: string)
    ensures Seen(initial, history + [path]) == [Normalize(path)] + Seen(initial, history)
  {
    hide Normalize;
  }

  lemma RecentIsStable(initial: seq<string>, history: seq<string>)
    requires Canonical(initial, RECENT_LIMIT) && (forall h :: h in history ==> Stable(h))
    ensures forall p :: p in MostRecent(initial, history) ==> Normalize(p) == p
  {
    hide Firsts, Normalize, Stable, Canonical;
    FirstsMembers(Seen(initial, history));
    forall p | p in MostRecent(initial, history) ensures Normalize(p) == p {
      assert p in Firsts(Seen(initial, history));
      SeenIsStable(initial, history, p);
    }
  }

  lemma RecordStable(initial: seq<string>, history: seq<string>, path: string)
    requires Canonical(initial, RECENT_LIMIT) && (forall h :: h in history ==> Stable(h)) && Stable(path)
    ensures Recorded(MostRecent(initial, history), path) == MostRecent(initial, history + [path])
  {
    var n, recent, older := Normalize(path), MostRecent(initial, history), Seen(initial, history);
    SeenMore(initial, history, path);
    RecentIsStable(initial, history);
    assert Normalize(n) == n;
    hide Normalize, Firsts, Canonical, Seen, Stable;
    if n == "" {
      EmptyItemIsSkipped(older);
    } else {
      assert forall i :: 0 <= i < |recent| ==> recent[i] in recent;
      assert Normalized([n] + recent) == [n] + recent;
      FirstsMembers(older);
      FirstsAreDistinct(older);
      CutEarly([n], Firsts(older), RECENT_LIMIT);
      FirstsOfFirsts([n], older);
    }
  }

  lemma FirstIsFirst(n: string, older: seq<string>)
    requires n != ""
    ensures |Firsts([n] + older)| > 0 && Firsts([n] + older)[0] == n
  {
    assert [n][..0] == [] && Firsts([n]) == [n];
    hide Firsts;
    FirstsGrow([n], older);
  }

  lemma NotRecorded(recent: seq<string>, n: string)
    requires Normalize(n) != n && forall p :: p in recent ==> Normalize(p) == p
    ensures n !in Deduped([n] + recent, RECENT_LIMIT)
  {
    hide Normalize, Firsts;
    FirstsMembers(Normalized([n] + recent));
    assert forall p :: p in Deduped([n] + recent, RECENT_LIMIT) ==> p in Firsts(Normalized([n] + recent));
    forall i | 0 <= i < 1 + |recent| ensures Normalized([n] + recent)[i] != n {
      assert i > 0 ==> recent[i - 1] in recent;
    }
  }

  lemma UnstableIsNotEmpty(path: string)
    requires !Stable(path)
    ensures Normalize(path) != "" && Normalize(Normalize(path)) != Normalize(path)
  {
    StripSlices("", IsSpace);
    StripSlices("", IsSlash);
  }

  lemma RecordUnstable(initial: seq<string>, history: seq<string>, path: string)
    requires Canonical(initial, RECENT_LIMIT) && (forall h :: h in history ==> Stable(h)) && !Stable(path)
    ensures Recorded(MostRecent(initial, history), path) != MostRecent(initial, history + [path])
  {
    hide Normalize, Firsts, Canonical, Seen, Stable;
    var n, recent, older := Normalize(path), MostRecent(initial, history), Seen(initial, history);
    UnstableIsNotEmpty(path);
    SeenMore(initial, history, path);
    RecentIsStable(initial, history);
    NotRecorded(recent, n);
    FirstIsFirst(n, older);
    assert MostRecent(initial, history + [path])[0] == n;
    hide Deduped, MostRecent;
  }

  /** The list is the specified one after every step of the run. */
  ghost predicate AgreesThroughout(initial: seq<string>, history: seq<string>) {
    && RecentAfter(initial, history) == MostRecent(initial, history)
    && (history == [] || AgreesThroughout(initial, history[..|history| - 1]))
  }

  /** Cutting on every step gives the list cut once, throughout a run, exactly when every recorded path is
      one whose normal form is stable. */
  lemma {:induction false} CutEachStepExactly(initial: seq<string>, history: seq<string>)
    requires Canonical(initial, RECENT_LIMIT)
    ensures AgreesThroughout(initial, history) <==> forall p :: p in history ==> Stable(p)
  {
    if history == [] {
      assert Seen(initial, []) == initial;
      FirstsAreDistinct(initial);
    } else {
      hide Recorded, MostRecent, Stable, Canonical;
      var before, path := history[..|history| - 1], history[|history| - 1];
      assert history == before + [path];
      CutEachStepExactly(initial, before);
      if forall p :: p in before ==> Stable(p) {
        if Stable(path) {
          RecordStable(initial, before, path);
        } else {
          RecordUnstable(initial, before, path);
        }
      }
    }
  }

  lemma NormalFormsOfA()
    ensures Normalize("/ / a") == " / a" && Normalize(" / a") == " a" && Normalize("/ a") == " a"
    ensures Normalize(" a") == "a" && Normalize("a") == "a"
  {
    assert StripLeft("/ / a", IsSpace) == "/ / a" && StripRight("/ / a", IsSpace) == "/ / a";
    assert ForwardSlashes("/ / a") == "/ / a" && ForwardSlashes("/ a") == "/ a" && ForwardSlashes("a") == "a";
    assert StripLeft("/ / a", IsSlash) == " / a" && StripRight(" / a", IsSlash) == " / a";
    assert StripLeft("/ a", IsSpace) == "/ a" && StripRight("/ a", IsSpace) == "/ a";
    assert StripLeft(" / a", IsSpace) == "/ a";
    assert StripLeft("/ a", IsSlash) == " a" && StripRight(" a", IsSlash) == " a";
    assert StripLeft(" a", IsSpace) == "a" && StripRight("a", IsSpace) == "a" && StripLeft("a", IsSpace) == "a";
    assert StripLeft("a", IsSlash) == "a" && StripRight("a", IsSlash) == "a";
  }

  lemma LongerNormalFormsOfA()
    ensures Normalize("/ / / / a") == " / / / a" && Normalize(" / / / a") == " / / a" && Normalize(" / / a") == " / a"
  {
    assert StripLeft("/ / / / a", IsSpace) == "/ / / / a" && StripRight("/ / / / a", IsSpace) == "/ / / / a";
    assert StripLeft(" / / / a", IsSpace) == "/ / / a" && StripRight("/ / / a", IsSpace) == "/ / / a";
    assert StripLeft(" / / a", IsSpace) == "/ / a" && StripRight("/ / a", IsSpace) == "/ / a";
    assert ForwardSlashes("/ / / / a") == "/ / / / a" && ForwardSlashes("/ / / a") == "/ / / a";
    assert ForwardSlashes("/ / a") == "/ / a";
    assert StripLeft("/ / / / a", IsSlash) == " / / / a" && StripRight(" / / / a", IsSlash) == " / / / a";
    assert StripLeft("/ / / a", IsSlash) == " / / a" && StripRight(" / / a", IsSlash) == " / / a";
    assert StripLeft("/ / a", IsSlash) == " / a" && StripRight(" / a", IsSlash) == " / a";
  }

  lemma OneIsDeduped(path: string)
    requires Normalize(path) != ""
    ensures Deduped([path], PINNED_LIMIT) == [Normalize(path)] == Deduped([path], RECENT_LIMIT)
  {
    hide Normalize;
    var n := [Normalize(path)];
    assert Normalized([path]) == n && n[..0] == [] && Firsts([]) == [] && Firsts(n) == n;
  }

  /** A path with space behind its leading slash is such a path: recording it stores another one. */
  lemma UnstablePath()
    ensures !Stable("/ a") && RecentAfter([], ["/ a"]) == ["a"] && MostRecent([], ["/ a"]) == [" a"]
  {
    NormalFormsOfA();
    hide Normalize;
    OneIsDeduped(" a");
    assert [" a"] + [] == [" a"] && ["/ a"][..0] == [] && [" a"][..0] == [];
    assert Normalized(Reversed(["/ a"])) + [] == [" a"];
  }

  // ---------------------------------------------------------------- storage

  datatype Snapshot = Snapshot(pinned: seq<string>, recent: seq<string>)

  /** Reading and writing pass both lists through the same filter. */
  function Filtered(s: Snapshot): Snapshot {
    Snapshot(Deduped(s.pinned, PINNED_LIMIT), Deduped(s.recent, RECENT_LIMIT))
  }

  function ReadBack(stored: Option<Snapshot>): Snapshot {
    if stored.None? then Snapshot([], []) else Filtered(stored.value)
  }

  lemma NormalizedFixes(paths: seq<string>)
    ensures Normalized(paths) == paths <==> forall p :: p in paths ==> Normalize(p) == p
  {
    hide Normalize;
    assert forall i :: 0 <= i < |paths| ==> Normalized(paths)[i] == Normalize(paths[i]) && paths[i] in paths;
  }

  lemma FilterFixesExactly(paths: seq<string>, limit: nat)
    ensures Deduped(paths, limit) == paths <==> Canonical(paths, limit)
  {
    FirstsAreDistinct(Normalized(paths));
    FirstsMembers(Normalized(paths));
    NormalizedFixes(paths);
    assert |Normalized(paths)| == |paths|;
    hide Firsts, Normalize, Normalized;
  }

  lemma NormalizeShrinks(path: string)
    ensures |Normalize(path)| <= |path|
    ensures |Normalize(path)| == |path| ==> Normalize(path) == ForwardSlashes(path)
    ensures '\\' !in Normalize(path)
  {
    StripSlices(path, IsSpace);
    StripSlices(ForwardSlashes(Strip(path, IsSpace)), IsSlash);
  }

  lemma FilterKeeps(paths: seq<string>, limit: nat)
    requires Deduped(Deduped(paths, limit), limit) == paths
    ensures Deduped(paths, limit) == paths
  {
    hide Firsts, Normalize;
    var once := Deduped(paths, limit);
    FirstsAreDistinct(Normalized(paths));
    FirstsAreDistinct(Normalized(once));
    assert |paths| <= |once| <= |paths|;
    assert once == Normalized(paths) && paths == Normalized(once);
    forall i | 0 <= i < |paths| ensures paths[i] == once[i] {
      assert once[i] == Normalize(paths[i]) && paths[i] == Normalize(once[i]);
      NormalizeShrinks(paths[i]);
      NormalizeShrinks(once[i]);
    }
  }

  /** A written snapshot reads back as it is in memory exactly when both lists are canonical. */
  lemma RoundTripExactly(s: Snapshot)
    ensures ReadBack(Some(Filtered(s))) == s <==> Canonical(s.pinned, PINNED_LIMIT) && Canonical(s.recent, RECENT_LIMIT)
  {
    FilterFixesExactly(s.pinned, PINNED_LIMIT);
    FilterFixesExactly(s.recent, RECENT_LIMIT);
    if Filtered(Filtered(s)) == s {
      FilterKeeps(s.pinned, PINNED_LIMIT);
      FilterKeeps(s.recent, RECENT_LIMIT);
    }
  }

  // ---------------------------------------------------------------- the store

  datatype Action = Pin(path: string) | Unpin(path: string) | Record(path: string) | ClearRecent

  datatype Memory = Memory(lists: Snapshot, stored: Option<Snapshot>)

  function Next(s: Snapshot, a: Action): Snapshot {
    match a
    case Pin(p) => if Normalize(p) == "" then s else s.(pinned := Deduped([Normalize(p)] + s.pinned, PINNED_LIMIT))
    case Unpin(p) => s.(pinned := Without(s.pinned, Normalize(p)))
    case Record(p) => s.(recent := Recorded(s.recent, p))
    case ClearRecent => s.(recent := [])
  }

  predicate Ignored(a: Action) {
    (a.Pin? || a.Record?) && Normalize(a.path) == ""
  }

  /** One action; `saved` tells whether local storage took the write. */
  function Apply(m: Memory, a: Action, saved: bool): Memory {
    if Ignored(a) then m
    else Memory(Next(m.lists, a), if saved then Some(Filtered(Next(m.lists, a))) else m.stored)
  }

  class PathStore {
    var pinned: seq<string>
    var recent: seq<string>
    var stored: Option<Snapshot>

    ghost function View(): Memory
      reads this
    {
      Memory(Snapshot(pinned, recent), stored)
    }

    constructor (stored: Option<Snapshot>)
      ensures View() == Memory(ReadBack(stored), stored)
    {
      var p, r := [], [];
      if stored.Some? {
        p := Dedupe(stored.value.pinned, PINNED_LIMIT);
        r := Dedupe(stored.value.recent, RECENT_LIMIT);
      }
      pinned, recent := p, r;
      this.stored := stored;
    }

    method Write(saved: bool)
      modifies this
      ensures View() == old(View()).(stored := if saved then Some(Filtered(old(View()).lists)) else old(stored))
    {
      var p := Dedupe(pinned, PINNED_LIMIT);
      var r := Dedupe(recent, RECENT_LIMIT);
      if saved {
        stored := Some(Snapshot(p, r));
      }
    }

    method PinPath(path: string, saved: bool)
      modifies this
      ensures View() == Apply(old(View()), Pin(path), saved)
    {
      var normalized := Normalize(path);
      if normalized == "" {
        return;
      }
      pinned := Dedupe([normalized] + pinned, PINNED_LIMIT);
      Write(saved);
    }

    method UnpinPath(path: string, saved: bool)
      modifies this
      ensures View() == Apply(old(View()), Unpin(path), saved)
    {
      pinned := Without(pinned, Normalize(path));
      Write(saved);
    }

    method RecordRecentPath(path: string, saved: bool)
      modifies this
      ensures View() == Apply(old(View()), Record(path), saved)
    {
      var normalized := Normalize(path);
      if normalized == "" {
        return;
      }
      recent := Dedupe([normalized] + recent, RECENT_LIMIT);
      Write(saved);
    }

    method ClearRecentPaths(saved: bool)
      modifies this
      ensures View() == Apply(old(View()), ClearRecent, saved)
    {
      recent := [];
      Write(saved);
    }
  }

  function RunStore(m: Memory, actions: seq<Action>, saved: seq<bool>): Memory
    requires |saved| == |actions|
  {
    if actions == [] then m
    else
      var n := |actions| - 1;
      Apply(RunStore(m, actions[..n], saved[..n]), actions[n], saved[n])
  }

  ghost predicate Bounded(paths: seq<string>, limit: nat) {
    |paths| <= limit && AllDistinct(paths) && "" !in paths
  }

  lemma DedupedIsBounded(paths: seq<string>, limit: nat)
    ensures Bounded(Deduped(paths, limit), limit)
    ensures (forall p :: p in paths ==> Stable(p)) ==> Canonical(Deduped(paths, limit), limit)
  {
    FirstsAreDistinct(Normalized(paths));
    FirstsMembers(Normalized(paths));
    hide Firsts;
    assert forall p :: p in Deduped(paths, limit) ==> p in Firsts(Normalized(paths));
    forall p | p in Deduped(paths, limit) && forall q :: q in paths ==> Stable(q) ensures Normalize(p) == p {
      var i :| 0 <= i < |paths| && Normalized(paths)[i] == p;
      assert paths[i] in paths;
    }
  }

  lemma NextIsBounded(s: Snapshot, a: Action)
    requires Bounded(s.pinned, PINNED_LIMIT) && Bounded(s.recent, RECENT_LIMIT)
    ensures Bounded(Next(s, a).pinned, PINNED_LIMIT) && Bounded(Next(s, a).recent, RECENT_LIMIT)
  {
    if a.Pin? || a.Record? {
      DedupedIsBounded([Normalize(a.path)] + s.pinned, PINNED_LIMIT);
      DedupedIsBounded([Normalize(a.path)] + s.recent, RECENT_LIMIT);
    } else if a.Unpin? {
      WithoutRemoves(s.pinned, Normalize(a.path));
    }
  }

  /** For all paths and whatever storage holds: within 12 and 10, without duplicates or empty paths. */
  lemma {:induction false} AlwaysBounded(stored: Option<Snapshot>, actions: seq<Action>, saved: seq<bool>)
    requires |saved| == |actions|
    ensures var s := RunStore(Memory(ReadBack(stored), stored), actions, saved).lists;
            Bounded(s.pinned, 12) && Bounded(s.recent, 10)
  {
    var start := Memory(ReadBack(stored), stored);
    if actions == [] {
      if stored.Some? {
        DedupedIsBounded(stored.value.pinned, PINNED_LIMIT);
        DedupedIsBounded(stored.value.recent, RECENT_LIMIT);
      }
    } else {
      var n := |actions| - 1;
      AlwaysBounded(stored, actions[..n], saved[..n]);
      NextIsBounded(RunStore(start, actions[..n], saved[..n]).lists, actions[n]);
    }
  }

  lemma RemovedAgainExactly(items: seq<string>, n: string, limit: nat)
    requires Bounded(items, limit) && n != "" && limit > 0
    ensures Without(Take(Firsts([n] + items), limit), n) == items <==> n !in items && |items| < limit
  {
    var all := [n] + items;
    FirstIsFirst(n, items);
    FirstsAreDistinct(all);
    FirstsMembers(all);
    hide Firsts;
    var kept := Take(Firsts(all), limit);
    HeadRemoved(kept);
    assert all[1..] == items;
    assert n !in items ==> kept == Take(all, limit);
  }

  /** Unpinning undoes pinning exactly when the path was not pinned before and the list had room. */
  lemma UnpinUndoesPinExactly(s: Snapshot, path: string)
    requires Canonical(s.pinned, PINNED_LIMIT) && Stable(path) && Normalize(path) != ""
    ensures Next(Next(s, Pin(path)), Unpin(path)) == s <==>
            Normalize(path) !in s.pinned && |s.pinned| < 12
  {
    var n, pins := Normalize(path), [Normalize(path)] + s.pinned;
    assert forall i :: 0 <= i < |s.pinned| ==> s.pinned[i] in s.pinned && Normalize(s.pinned[i]) == s.pinned[i];
    RemovedAgainExactly(s.pinned, n, PINNED_LIMIT);
    assert Normalize(n) == n;
    hide Normalize, Firsts, Without, Take, Canonical;
    assert Normalized(pins) == pins;
  }

  lemma WithoutOne(last: string, n: string)
    ensures Without([last], n) == if last == n then [] else [last]
  {
  }

  lemma OneMoreInFront(n: string, before: seq<string>, last: string)
    requires Firsts([n] + before) == [n] + Without(before, n) && last !in before && last != ""
    ensures Firsts([n] + before + [last]) == [n] + Without(before + [last], n)
  {
    hide Firsts, Without;
    FirstsOfMore([n] + before, last);
    WithoutJoined(before, [last], n);
    WithoutOne(last, n);
    WithoutRemoves(before, n);
    if last == n {
      assert Without(before, n) + [] == Without(before, n);
    } else {
      assert last !in [n] + Without(before, n);
      assert [n] + Without(before, n) + [last] == [n] + (Without(before, n) + [last]);
    }
  }

  lemma {:induction false} FirstInFront(n: string, items: seq<string>)
    requires n != "" && AllDistinct(items) && "" !in items
    ensures Firsts([n] + items) == [n] + Without(items, n)
  {
    if items == [] {
      assert [n] + items == [n] && [n][..0] == [] && Firsts([]) == [];
    } else {
      hide Firsts, Without;
      var before, last := items[..|items| - 1], items[|items| - 1];
      assert last in items && last !in before;
      FirstInFront(n, before);
      OneMoreInFront(n, before, last);
      assert before + [last] == items && [n] + before + [last] == [n] + items;
    }
  }

  lemma PinShows(pins: seq<string>, n: string)
    requires Canonical(pins, PINNED_LIMIT) && n != "" && Normalize(n) == n
    ensures Deduped([n] + pins, PINNED_LIMIT) == Take([n] + Without(pins, n), 12)
  {
    hide Normalize, Firsts, Without;
    NormalizedFixes([n] + pins);
    FirstInFront(n, pins);
  }

  lemma RecentAfterOne(recent: seq<string>, path: string)
    ensures RecentAfter(recent, [path]) == Recorded(recent, path)
  {
    assert [path][..0] == [];
    hide Recorded;
  }

  /** What each action changes: pins or recent paths, never both; a path that is pinned comes first, the others stay
      in their order behind it and are cut at 12; unpinning takes out the path's normal form only; recording is as
      specified for recent paths; and a write that is not saved leaves storage as it was. */
  lemma ActionShows(m: Memory, path: string, saved: bool)
    requires Canonical(m.lists.pinned, PINNED_LIMIT) && Stable(path) && Normalize(path) != ""
    ensures var n, s := Normalize(path), m.lists;
            && Apply(m, Pin(path), saved).lists == s.(pinned := Take([n] + Without(s.pinned, n), 12))
            && Apply(m, Unpin(path), saved).lists == s.(pinned := Without(s.pinned, n))
            && Apply(m, Record(path), saved).lists == s.(recent := RecentAfter(s.recent, [path]))
            && Apply(m, ClearRecent, saved).lists == s.(recent := [])
    ensures forall a: Action :: Apply(m, a, false).stored == m.stored
    ensures forall a: Action :: (a.Pin? || a.Record?) && Normalize(a.path) == "" ==> Apply(m, a, saved) == m
  {
    assert Normalize(Normalize(path)) == Normalize(path);
    hide Normalize, Deduped, Without, Stable, Canonical, Recorded, Take, Filtered, RecentAfter;
    PinShows(m.lists.pinned, Normalize(path));
    RecentAfterOne(m.lists.recent, path);
  }

  /** What is stored of a path that is pinned or recorded, its normal form taken twice, is stable. */
  predicate StableAction(a: Action) {
    a.Pin? || a.Record? ==> Stable(Normalize(a.path))
  }

  ghost predicate CanonicalLists(s: Snapshot) {
    Canonical(s.pinned, PINNED_LIMIT) && Canonical(s.recent, RECENT_LIMIT)
  }

  lemma PutFirstExactly(items: seq<string>, path: string, limit: nat)
    requires Canonical(items, limit) && limit > 0
    ensures Canonical(Deduped([path] + items, limit), limit) <==> Stable(path)
  {
    var all := [path] + items;
    if Stable(path) {
      assert forall p :: p in all ==> p == path || p in items;
      hide Firsts;
      DedupedIsBounded(all, limit);
    } else {
      UnstableIsNotEmpty(path);
      hide Normalize, Firsts;
      assert Normalized(all) == [Normalize(path)] + Normalized(items);
      FirstIsFirst(Normalize(path), Normalized(items));
      assert Deduped(all, limit)[0] == Normalize(path);
    }
  }

  lemma NextIsCanonicalExactly(s: Snapshot, a: Action)
    requires CanonicalLists(s)
    ensures CanonicalLists(Next(s, a)) <==> Ignored(a) || StableAction(a)
  {
    hide Normalize, Firsts, Without, Deduped, Stable;
    if a.Pin? {
      PutFirstExactly(s.pinned, Normalize(a.path), PINNED_LIMIT);
    } else if a.Record? {
      PutFirstExactly(s.recent, Normalize(a.path), RECENT_LIMIT);
    } else if a.Unpin? {
      WithoutRemoves(s.pinned, Normalize(a.path));
    }
  }

  /** Reading storage restores what is in memory. */
  predicate Restored(m: Memory) {
    ReadBack(m.stored) == m.lists
  }

  /** Whatever was in memory and in storage: a saved action is restored exactly when it leaves canonical lists. */
  lemma SavedIsRestoredExactly(m: Memory, a: Action)
    requires !Ignored(a)
    ensures Restored(Apply(m, a, true)) <==> CanonicalLists(Next(m.lists, a))
  {
    hide Next, Ignored, Canonical, ReadBack;
    RoundTripExactly(Next(m.lists, a));
  }

  /** The last action of the run that writes was saved, if there is one. */
  predicate LastWriteSaved(actions: seq<Action>, saved: seq<bool>)
    requires |saved| == |actions|
  {
    var n := |actions| - 1;
    actions == [] || (if Ignored(actions[n]) then LastWriteSaved(actions[..n], saved[..n]) else saved[n])
  }

  ghost predicate StableActions(actions: seq<Action>) {
    forall i :: 0 <= i < |actions| ==> Ignored(actions[i]) || StableAction(actions[i])
  }

  lemma {:induction false} StaysCanonical(stored: Option<Snapshot>, actions: seq<Action>, saved: seq<bool>)
    requires |saved| == |actions| && CanonicalLists(ReadBack(stored)) && StableActions(actions)
    ensures CanonicalLists(RunStore(Memory(ReadBack(stored), stored), actions, saved).lists)
  {
    if actions != [] {
      var n := |actions| - 1;
      StaysCanonical(stored, actions[..n], saved[..n]);
      hide CanonicalLists, ReadBack, StableAction, Next;
      NextIsCanonicalExactly(RunStore(Memory(ReadBack(stored), stored), actions[..n], saved[..n]).lists, actions[n]);
    }
  }

  /** Reloading the page restores the lists, after any run of such actions whose last write was saved, whatever
      became of the writes before. */
  lemma {:induction false} ReloadRestores(stored: Option<Snapshot>, actions: seq<Action>, saved: seq<bool>)
    requires |saved| == |actions| && LastWriteSaved(actions, saved)
    requires CanonicalLists(ReadBack(stored)) && StableActions(actions)
    ensures Restored(RunStore(Memory(ReadBack(stored), stored), actions, saved))
  {
    if actions != [] {
      var n := |actions| - 1;
      var before := RunStore(Memory(ReadBack(stored), stored), actions[..n], saved[..n]);
      hide CanonicalLists, StableAction, Next, ReadBack;
      if Ignored(actions[n]) {
        ReloadRestores(stored, actions[..n], saved[..n]);
      } else {
        StaysCanonical(stored, actions[..n], saved[..n]);
        NextIsCanonicalExactly(before.lists, actions[n]);
        SavedIsRestoredExactly(before, actions[n]);
      }
    }
  }

  /** Every action that writes leaves canonical lists. */
  ghost predicate CanonicalWrites(stored: Option<Snapshot>, actions: seq<Action>, saved: seq<bool>)
    requires |saved| == |actions|
  {
    var n := |actions| - 1;
    || actions == []
    || (&& CanonicalWrites(stored, actions[..n], saved[..n])
        && (Ignored(actions[n]) || CanonicalLists(RunStore(Memory(ReadBack(stored), stored), actions, saved).lists)))
  }

  /** Reloading would restore the lists after every step of the run. */
  ghost predicate RestoredThroughout(stored: Option<Snapshot>, actions: seq<Action>, saved: seq<bool>)
    requires |saved| == |actions|
  {
    && Restored(RunStore(Memory(ReadBack(stored), stored), actions, saved))
    && (actions == [] || RestoredThroughout(stored, actions[..|actions| - 1], saved[..|actions| - 1]))
  }

  /** Whatever storage holds at the start: when every write is saved, reloading at any moment restores the lists
      exactly when every action that writes leaves canonical lists. */
  lemma {:induction false} ReloadFromAnyExactly(stored: Option<Snapshot>, actions: seq<Action>, saved: seq<bool>)
    requires |saved| == |actions| && forall i :: 0 <= i < |saved| ==> saved[i]
    ensures RestoredThroughout(stored, actions, saved) <==> CanonicalWrites(stored, actions, saved)
  {
    if actions != [] {
      var n := |actions| - 1;
      var before := RunStore(Memory(ReadBack(stored), stored), actions[..n], saved[..n]);
      ReloadFromAnyExactly(stored, actions[..n], saved[..n]);
      hide CanonicalLists, Next, ReadBack, Restored;
      if !Ignored(actions[n]) {
        SavedIsRestoredExactly(before, actions[n]);
      }
    }
  }

  lemma StableActionsBefore(actions: seq<Action>)
    requires actions != []
    ensures var n := |actions| - 1;
            StableActions(actions) <==> StableActions(actions[..n]) && (Ignored(actions[n]) || StableAction(actions[n]))
  {
    hide Ignored, StableAction;
  }

  /** When every write is saved, reloading at any moment of a run restores the lists exactly when every path that
      was pinned or recorded has a normal form that is stable. */
  lemma {:induction false} ReloadRestoresExactly(stored: Option<Snapshot>, actions: seq<Action>, saved: seq<bool>)
    requires |saved| == |actions| && forall i :: 0 <= i < |saved| ==> saved[i]
    requires CanonicalLists(ReadBack(stored))
    ensures RestoredThroughout(stored, actions, saved) <==> StableActions(actions)
  {
    if actions != [] {
      var n := |actions| - 1;
      var before := RunStore(Memory(ReadBack(stored), stored), actions[..n], saved[..n]);
      ReloadRestoresExactly(stored, actions[..n], saved[..n]);
      StableActionsBefore(actions);
      hide CanonicalLists, StableAction, StableActions, Next, ReadBack, Restored;
      if StableActions(actions[..n]) && !Ignored(actions[n]) {
        StaysCanonical(stored, actions[..n], saved[..n]);
        NextIsCanonicalExactly(before.lists, actions[n]);
        SavedIsRestoredExactly(before, actions[n]);
      }
    }
  }

  /** A path with two slashes and spaces between them is not restored: pinned as one path, it is read back as
      another. `/ a`, whose first normal form is not stable, is restored. */
  lemma NotRestored()
    ensures !StableAction(Pin("/ / a")) && StableAction(Pin("/ a")) && !Stable("/ a")
    ensures var m := Apply(Memory(ReadBack(None), None), Pin("/ / a"), true);
            m.lists.pinned == [" a"] && ReadBack(m.stored).pinned == ["a"]
  {
    NormalFormsOfA();
    hide Normalize, Deduped;
    OneIsDeduped(" / a");
    OneIsDeduped(" a");
    OneIsDeduped("a");
    assert [" / a"] + [] == [" / a"];
  }

  /** Storage the app wrote can read back as a list that is not canonical. */
  lemma StartNotCanonical()
    ensures var m := Apply(Memory(ReadBack(None), None), Pin("/ / / / a"), true);
            && m.stored.Some? && m.stored.value.pinned == [" / a"]
            && ReadBack(m.stored).pinned == [" a"] && !CanonicalLists(ReadBack(m.stored))
  {
    LongerNormalFormsOfA();
    NormalFormsOfA();
    hide Normalize, Deduped;
    OneIsDeduped(" / / / a");
    OneIsDeduped(" / / a");
    OneIsDeduped(" / a");
    assert [" / / / a"] + [] == [" / / / a"];
    assert [" a"][0] == " a";
  }
}
