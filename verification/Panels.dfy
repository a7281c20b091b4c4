/** Which panels of a layout are open, active or dismissed in the desktop app. */
module Panels {
  import opened Options
  import opened DistinctLists

  datatype PanelState = PanelState(open: seq<string>, active: Option<string>, dismissed: seq<string>)

  const EMPTY := PanelState([], None, [])

  /** The panels a layout offers and those it pins. */
  datatype Layout = Layout(available: seq<string>, pinned: seq<string>)

  predicate Usable(layout: Layout, id: string) {
    id in layout.available && id !in layout.pinned
  }

  function KeepUsable(layout: Layout, ids: seq<string>): seq<string> {
    if ids == [] then []
    else (if Usable(layout, ids[0]) then [ids[0]] else []) + KeepUsable(layout, ids[1..])
  }

  function SanitizedIds(layout: Layout, ids: seq<string>): seq<string> {
    Firsts(KeepUsable(layout, ids))
  }

  function Sanitized(layout: Layout, stored: Option<PanelState>): PanelState {
    var source := stored.GetOr(EMPTY);
    PanelState(
      SanitizedIds(layout, source.open),
      if source.active.Some? && source.active.value != "" && Usable(layout, source.active.value) then source.active
      else None,
      SanitizedIds(layout, source.dismissed))
  }

  lemma {:induction false} KeepUsableKeeps(layout: Layout, ids: seq<string>)
    ensures forall id :: id in KeepUsable(layout, ids) <==> id in ids && Usable(layout, id)
    ensures (forall id :: id in ids ==> Usable(layout, id)) ==> KeepUsable(layout, ids) == ids
  {
    if ids != [] {
      KeepUsableKeeps(layout, ids[1..]);
      assert ids[0] in ids && forall id :: id in ids <==> id == ids[0] || id in ids[1..];
    }
  }

  lemma SanitizedMembers(layout: Layout, ids: seq<string>)
    ensures forall id :: id in SanitizedIds(layout, ids) <==> id in ids && id != "" && Usable(layout, id)
    ensures SanitizedIds(layout, SanitizedIds(layout, ids)) == SanitizedIds(layout, ids)
    ensures AllDistinct(SanitizedIds(layout, ids))
  {
    KeepUsableKeeps(layout, ids);
    FirstsMembers(KeepUsable(layout, ids));
    FirstsAreDistinct(KeepUsable(layout, ids));
    KeepUsableKeeps(layout, SanitizedIds(layout, ids));
    FirstsAreDistinct(SanitizedIds(layout, ids));
  }

  /** Sanitising a second time changes nothing. */
  lemma SanitizeIsIdempotent(layout: Layout, stored: Option<PanelState>)
    ensures Sanitized(layout, Some(Sanitized(layout, stored))) == Sanitized(layout, stored)
  {
    var source := stored.GetOr(EMPTY);
    SanitizedMembers(layout, source.open);
    SanitizedMembers(layout, source.dismissed);
  }

  // ---------------------------------------------------------------- the store

  function Lookup(store: map<string, PanelState>, profile: string): Option<PanelState> {
    if profile in store then Some(store[profile]) else None
  }

  function OpenedDirectly(store: map<string, PanelState>, profile: string, layout: Layout, id: string):
      map<string, PanelState> {
    var current := Lookup(store, profile).GetOr(EMPTY);
    var active := if id in layout.pinned then current.active else Some(id);
    store[profile := PanelState(Firsts(current.open + [id]), active, Without(current.dismissed, id))]
  }

  function Updated(store: map<string, PanelState>, profile: string, layout: Layout, updater: PanelState -> PanelState):
      map<string, PanelState> {
    var current := Sanitized(layout, Lookup(store, profile));
    var next := Sanitized(layout, Some(updater(current)));
    if current == next then store else store[profile := next]
  }

  /** The settings store's panel states, one per layout profile. */
  class PanelStore {
    var byProfile: map<string, PanelState>

    constructor ()
      ensures byProfile == map[]
    {
      byProfile := map[];
    }

    /** Sanitises, updates, sanitises again, and skips the write when nothing changed. The skip cannot be
        observed: what is read afterwards is the sanitised result of the update either way. */
    method Update(profile: string, layout: Layout, updater: PanelState -> PanelState)
      modifies this
      ensures Sanitized(layout, Lookup(byProfile, profile)) ==
              Sanitized(layout, Some(updater(Sanitized(layout, Lookup(old(byProfile), profile)))))
      ensures byProfile == Updated(old(byProfile), profile, layout, updater)
    {
      var current := Sanitized(layout, Lookup(byProfile, profile));
      var next := Sanitized(layout, Some(updater(current)));
      SanitizeIsIdempotent(layout, Some(updater(current)));
      if current == next {
        return;
      }
      byProfile := byProfile[profile := next];
    }

    /** Opens a panel from outside the panel handlers: nothing is sanitised and the write is never skipped. */
    method OpenDirectly(profile: string, layout: Layout, id: string)
      modifies this
      ensures byProfile == OpenedDirectly(old(byProfile), profile, layout, id)
    {
      var current := Lookup(byProfile, profile).GetOr(EMPTY);
      byProfile := byProfile[profile := PanelState(
        Firsts(current.open + [id]),
        if id in layout.pinned then current.active else Some(id),
        Without(current.dismissed, id))];
    }
  }

  // ---------------------------------------------------------------- the handlers

  /** A panel id that is set and has a tab. */
  predicate HasTab(tabs: seq<string>, id: Option<string>) {
    id.Some? && id.value != "" && id.value in tabs
  }

  /** The tab shown: the active one, else the default, else the first. `tabs` are the open tabs. */
  function ResolveActive(active: Option<string>, tabs: seq<string>, default: string): (r: Option<string>)
    ensures r.None? <==> tabs == []
    ensures r.Some? ==> r.value in tabs
    ensures HasTab(tabs, active) ==> r == active
    ensures !HasTab(tabs, active) && HasTab(tabs, Some(default)) ==> r == Some(default)
    ensures tabs != [] && !HasTab(tabs, active) && !HasTab(tabs, Some(default)) ==> r == Some(tabs[0])
  {
    if tabs == [] then None
    else if active.Some? && active.value != "" && active.value in tabs then active
    else if default != "" && default in tabs then Some(default)
    else Some(tabs[0])
  }

  /** Opening a panel: toggling one that is closed, activating, opening the settings, entering or leaving
      zen focus. */
  function Opened(s: PanelState, id: string): PanelState {
    PanelState(Firsts(s.open + [id]), Some(id), Without(s.dismissed, id))
  }

  /** Closing a panel; `tabs` are the tabs that remain, computed by the dock layout. */
  function Closed(s: PanelState, id: string, tabs: seq<string>, default: string): PanelState {
    PanelState(Without(s.open, id),
               ResolveActive(if s.active == Some(id) then None else s.active, tabs, default),
               Firsts(s.dismissed + [id]))
  }

  datatype Action =
    | Toggle(id: string, isOpen: bool, tabs: seq<string>, default: string)
    | Close(id: string, tabs: seq<string>, default: string)
    | Activate(id: string)
    | Select(id: string)
    | OpenSettings
    | Zen(id: string)

  /** The early returns of the handlers. */
  predicate Ignored(layout: Layout, a: Action) {
    match a
    case Toggle(id, _, _, _) => id in layout.pinned || id !in layout.available
    case Close(id, _, _) => id in layout.pinned || id !in layout.available
    case Select(id) => id == "" || id in layout.pinned || id !in layout.available
    case Activate(id) => id in layout.pinned || id !in layout.available
    case Zen(id) => id !in layout.available
    case OpenSettings => false
  }

  function Apply(s: PanelState, a: Action): PanelState {
    match a
    case Toggle(id, isOpen, tabs, default) => if isOpen then Closed(s, id, tabs, default) else Opened(s, id)
    case Close(id, tabs, default) => Closed(s, id, tabs, default)
    case Activate(id) => Opened(s, id)
    case Select(id) => s.(active := Some(id))
    case OpenSettings => Opened(s, "settings")
    case Zen(id) => Opened(s, id)
  }

  /** One click or direct opening, on one profile, under the layout of the moment. */
  datatype Click =
    | Click(profile: string, layout: Layout, action: Action)
    | Direct(profile: string, layout: Layout, id: string)

  function Step(store: map<string, PanelState>, c: Click): map<string, PanelState> {
    if c.Direct? then OpenedDirectly(store, c.profile, c.layout, c.id)
    else if Ignored(c.layout, c.action) then store
    else Updated(store, c.profile, c.layout, s => Apply(s, c.action))
  }

  function Run(store: map<string, PanelState>, clicks: seq<Click>): map<string, PanelState> {
    if clicks == [] then store else Step(Run(store, clicks[..|clicks| - 1]), clicks[|clicks| - 1])
  }

  ghost predicate Disjoint(s: PanelState) {
    forall id :: id in s.open ==> id !in s.dismissed
  }

  ghost predicate AllDisjoint(store: map<string, PanelState>) {
    forall p :: p in store ==> Disjoint(store[p])
  }

  lemma ApplyKeepsDisjoint(s: PanelState, a: Action)
    requires Disjoint(s)
    ensures Disjoint(Apply(s, a))
  {
    var id := if a.OpenSettings? then "settings" else a.id;
    WithoutRemoves(s.open, id);
    WithoutRemoves(s.dismissed, id);
    FirstsMembers(s.open + [id]);
    FirstsMembers(s.dismissed + [id]);
  }

  lemma DirectKeepsDisjoint(store: map<string, PanelState>, profile: string, layout: Layout, id: string)
    requires AllDisjoint(store)
    ensures AllDisjoint(OpenedDirectly(store, profile, layout, id))
  {
    var current := Lookup(store, profile).GetOr(EMPTY);
    WithoutRemoves(current.dismissed, id);
    FirstsMembers(current.open + [id]);
  }

  lemma SanitizeKeepsDisjoint(layout: Layout, stored: Option<PanelState>)
    requires stored.Some? ==> Disjoint(stored.value)
    ensures Disjoint(Sanitized(layout, stored))
  {
    var source := stored.GetOr(EMPTY);
    SanitizedMembers(layout, source.open);
    SanitizedMembers(layout, source.dismissed);
  }

  /** No panel is ever both open and dismissed, in any profile, however layouts change between clicks. */
  lemma {:induction false} AlwaysDisjoint(store: map<string, PanelState>, clicks: seq<Click>)
    requires AllDisjoint(store)
    ensures AllDisjoint(Run(store, clicks))
  {
    if clicks != [] {
      var before, c := Run(store, clicks[..|clicks| - 1]), clicks[|clicks| - 1];
      AlwaysDisjoint(store, clicks[..|clicks| - 1]);
      if c.Direct? {
        DirectKeepsDisjoint(before, c.profile, c.layout, c.id);
      } else {
        var current := Sanitized(c.layout, Lookup(before, c.profile));
        SanitizeKeepsDisjoint(c.layout, Lookup(before, c.profile));
        ApplyKeepsDisjoint(current, c.action);
        SanitizeKeepsDisjoint(c.layout, Some(Apply(current, c.action)));
        hide Sanitized, Apply, Disjoint;
      }
    }
  }

  /** What the user sees of a panel after clicking: opened panels are open and active, closed ones are
      dismissed and gone, and no other panel changes. */
  lemma ClickShows(s: PanelState, layout: Layout, id: string, other: string, tabs: seq<string>, default: string)
    requires Usable(layout, id) && id != "" && other != id && s == Sanitized(layout, Some(s))
    ensures var shown := Sanitized(layout, Some(Opened(s, id)));
            && id in shown.open && id !in shown.dismissed && shown.active == Some(id)
            && (other in shown.open <==> other in s.open) && (other in shown.dismissed <==> other in s.dismissed)
    ensures var closed := Sanitized(layout, Some(Closed(s, id, tabs, default)));
            && id !in closed.open && id in closed.dismissed
            && (other in closed.open <==> other in s.open) && (other in closed.dismissed <==> other in s.dismissed)
  {
    WithoutRemoves(s.open, id);
    WithoutRemoves(s.dismissed, id);
    FirstsMembers(s.open + [id]);
    FirstsMembers(s.dismissed + [id]);
    SanitizedMembers(layout, s.open);
    SanitizedMembers(layout, s.dismissed);
    SanitizedMembers(layout, Opened(s, id).open);
    SanitizedMembers(layout, Opened(s, id).dismissed);
    SanitizedMembers(layout, Closed(s, id, tabs, default).open);
    SanitizedMembers(layout, Closed(s, id, tabs, default).dismissed);
    hide SanitizedIds, Firsts, Without;
  }

  // ---------------------------------------------------------------- what each click shows

  function Shown(store: map<string, PanelState>, layout: Layout, profile: string): PanelState {
    Sanitized(layout, Lookup(store, profile))
  }

  lemma ShownAfter(store: map<string, PanelState>, profile: string, layout: Layout, a: Action)
    requires !Ignored(layout, a)
    ensures Shown(Step(store, Click(profile, layout, a)), layout, profile) ==
            Sanitized(layout, Some(Apply(Shown(store, layout, profile), a)))
  {
    SanitizeIsIdempotent(layout, Some(Apply(Shown(store, layout, profile), a)));
    hide Sanitized, Apply, Ignored;
  }

  /** Clicks on pinned panels and on panels the layout does not offer do nothing; no click touches another profile. */
  lemma ClicksIgnored(store: map<string, PanelState>, profile: string, layout: Layout, a: Action, other: string)
    ensures (a.Toggle? || a.Close? || a.Select? || a.Activate?)
            && (a.id in layout.pinned || a.id !in layout.available) ==>
              Step(store, Click(profile, layout, a)) == store
    ensures a.Zen? && a.id !in layout.available ==> Step(store, Click(profile, layout, a)) == store
    ensures a == Select("") ==> Step(store, Click(profile, layout, a)) == store
    ensures other != profile ==> Lookup(Step(store, Click(profile, layout, a)), other) == Lookup(store, other)
  {
    hide Sanitized, Apply;
  }

  /** Toggling a closed panel, activating it, entering or leaving zen focus, and opening the settings. */
  predicate OpensPanel(a: Action, id: string) {
    match a
    case Toggle(panel, isOpen, _, _) => panel == id && !isOpen
    case Activate(panel) => panel == id
    case Zen(panel) => panel == id
    case OpenSettings => id == "settings"
    case _ => false
  }

  /** Toggling an open panel, and closing it; `tabs` are the tabs that remain. */
  predicate ClosesPanel(a: Action, id: string, tabs: seq<string>, default: string) {
    match a
    case Toggle(panel, isOpen, rest, first) => panel == id && isOpen && rest == tabs && first == default
    case Close(panel, rest, first) => panel == id && rest == tabs && first == default
    case _ => false
  }

  /** A list that sanitising leaves alone: adding a panel puts it last, if it is not there, and removing one keeps the
      order of the others. */
  lemma ListKeepsOrder(layout: Layout, ids: seq<string>, id: string)
    requires ids == SanitizedIds(layout, ids) && Usable(layout, id) && id != ""
    ensures SanitizedIds(layout, Firsts(ids + [id])) == if id in ids then ids else ids + [id]
    ensures SanitizedIds(layout, Without(ids, id)) == Without(ids, id)
  {
    SanitizedMembers(layout, ids);
    FirstsAreDistinct(ids);
    FirstsOfMore(ids, id);
    WithoutRemoves(ids, id);
    var added := Firsts(ids + [id]);
    KeepUsableKeeps(layout, added);
    KeepUsableKeeps(layout, Without(ids, id));
    FirstsAreDistinct(added);
    FirstsAreDistinct(Without(ids, id));
    hide Firsts, Without, KeepUsable, Usable;
  }

  /** In every store: a click that opens a panel leaves it open (behind the others, if it was not), active and not
      dismissed, and no other panel changes. */
  lemma OpeningShows(
    store: map<string, PanelState>, profile: string, layout: Layout, a: Action, id: string, other: string)
    requires OpensPanel(a, id) && Usable(layout, id) && id != "" && other != id
    ensures var s := Shown(store, layout, profile);
            var after := Shown(Step(store, Click(profile, layout, a)), layout, profile);
            && id in after.open && id !in after.dismissed && after.active == Some(id)
            && (other in after.open <==> other in s.open) && (other in after.dismissed <==> other in s.dismissed)
            && after.open == (if id in s.open then s.open else s.open + [id])
            && after.dismissed == Without(s.dismissed, id)
  {
    var s := Shown(store, layout, profile);
    SanitizeIsIdempotent(layout, Lookup(store, profile));
    ListKeepsOrder(layout, s.open, id);
    ListKeepsOrder(layout, s.dismissed, id);
    assert Sanitized(layout, Some(Opened(s, id))).open == if id in s.open then s.open else s.open + [id];
    assert Sanitized(layout, Some(Opened(s, id))).dismissed == Without(s.dismissed, id);
    ShownAfter(store, profile, layout, a);
    SanitizeIsIdempotent(layout, Lookup(store, profile));
    ClickShows(s, layout, id, other, [], "");
    hide Sanitized, Opened, Step;
  }

  lemma ClosedActive(s: PanelState, layout: Layout, id: string, tabs: seq<string>, default: string)
    requires s == Sanitized(layout, Some(s))
    ensures var active := Sanitized(layout, Some(Closed(s, id, tabs, default))).active;
            var stays := s.active.Some? && s.active.value != id && s.active.value in tabs;
            && (stays ==> active == s.active)
            && (!stays && default != "" && default in tabs && Usable(layout, default) ==> active == Some(default))
            && (tabs == [] ==> active.None?)
            && (active.Some? ==> active.value in tabs)
  {
    hide SanitizedIds;
  }

  lemma ShownIsSanitized(store: map<string, PanelState>, layout: Layout, profile: string)
    ensures var s := Shown(store, layout, profile); s == Sanitized(layout, Some(s))
  {
    SanitizeIsIdempotent(layout, Lookup(store, profile));
  }

  lemma CloseApplies(
    s: PanelState, layout: Layout, a: Action, id: string, tabs: seq<string>, default: string)
    requires ClosesPanel(a, id, tabs, default) && Usable(layout, id)
    ensures !Ignored(layout, a) && Apply(s, a) == Closed(s, id, tabs, default)
  {
    hide Closed, Opened;
  }

  lemma ClosedLists(s: PanelState, layout: Layout, id: string, tabs: seq<string>, default: string)
    requires s == Sanitized(layout, Some(s)) && Usable(layout, id) && id != ""
    ensures var after := Sanitized(layout, Some(Closed(s, id, tabs, default)));
            && after.open == Without(s.open, id)
            && after.dismissed == (if id in s.dismissed then s.dismissed else s.dismissed + [id])
  {
    ListKeepsOrder(layout, s.open, id);
    ListKeepsOrder(layout, s.dismissed, id);
    hide SanitizedIds, Firsts, Without, ResolveActive;
  }

  /** In every store: a click that closes a panel leaves it dismissed and not open, and no other panel changes. The
      active panel stays if it is another one that still has a tab; else the default one takes over if it has, and
      none if there are no tabs. */
  lemma ClosingShows(
    store: map<string, PanelState>, profile: string, layout: Layout, a: Action, id: string, tabs: seq<string>,
    default: string, other: string)
    requires ClosesPanel(a, id, tabs, default) && Usable(layout, id) && id != "" && other != id
    ensures var s := Shown(store, layout, profile);
            var after := Shown(Step(store, Click(profile, layout, a)), layout, profile);
            var stays := s.active.Some? && s.active.value != id && s.active.value in tabs;
            && id !in after.open && id in after.dismissed
            && (other in after.open <==> other in s.open) && (other in after.dismissed <==> other in s.dismissed)
            && after.open == Without(s.open, id)
            && after.dismissed == (if id in s.dismissed then s.dismissed else s.dismissed + [id])
            && (stays ==> after.active == s.active)
            && (!stays && default != "" && default in tabs && Usable(layout, default) ==> after.active == Some(default))
            && (tabs == [] ==> after.active.None?)
            && (after.active.Some? ==> after.active.value in tabs)
  {
    var s := Shown(store, layout, profile);
    hide *;
    ShownIsSanitized(store, layout, profile);
    CloseApplies(s, layout, a, id, tabs, default);
    ShownAfter(store, profile, layout, a);
    ClickShows(s, layout, id, other, tabs, default);
    ClosedLists(s, layout, id, tabs, default);
    ClosedActive(s, layout, id, tabs, default);
  }

  /** Selecting an offered panel makes it the active one and changes nothing else that shows. */
  lemma SelectingShows(store: map<string, PanelState>, profile: string, layout: Layout, id: string)
    requires Usable(layout, id) && id != ""
    ensures Shown(Step(store, Click(profile, layout, Select(id))), layout, profile) ==
            Shown(store, layout, profile).(active := Some(id))
  {
    ShownAfter(store, profile, layout, Select(id));
    SanitizeIsIdempotent(layout, Lookup(store, profile));
    hide SanitizedIds;
  }

  lemma {:induction false} KeepUsableJoined(layout: Layout, a: seq<string>, b: seq<string>)
    ensures KeepUsable(layout, a + b) == KeepUsable(layout, a) + KeepUsable(layout, b)
  {
    if a == [] {
      assert a + b == b;
    } else {
      assert (a + b)[1..] == a[1..] + b;
      KeepUsableJoined(layout, a[1..], b);
    }
  }

  lemma UnusableAdded(layout: Layout, ids: seq<string>, id: string)
    requires ids == SanitizedIds(layout, ids) && !Usable(layout, id)
    ensures SanitizedIds(layout, Firsts(ids + [id])) == ids
    ensures Without(ids, id) == ids
  {
    SanitizedMembers(layout, ids);
    WithoutKeeps(ids, id);
    FirstsAreDistinct(ids);
    FirstsOfMore(ids, id);
    KeepUsableJoined(layout, ids, [id]);
    KeepUsableKeeps(layout, ids);
    assert KeepUsable(layout, [id]) == [];
    hide Firsts, Without, Usable, KeepUsable;
    assert ids + [] == ids;
  }

  /** Zen focus on a pinned panel, and settings that can not be shown, open nothing, but no panel is active after
      that. */
  lemma UnusableShows(store: map<string, PanelState>, profile: string, layout: Layout, a: Action, id: string)
    requires !Usable(layout, id) && (a == OpenSettings ==> id == "settings")
    requires a == OpenSettings || (a == Zen(id) && id in layout.available)
    ensures Shown(Step(store, Click(profile, layout, a)), layout, profile) ==
            Shown(store, layout, profile).(active := None)
  {
    var s := Shown(store, layout, profile);
    ShownAfter(store, profile, layout, a);
    SanitizeIsIdempotent(layout, Lookup(store, profile));
    UnusableAdded(layout, s.open, id);
    UnusableAdded(layout, s.dismissed, id);
    hide SanitizedIds, Firsts, Without;
  }

  /** A direct opening: the panel is open and not dismissed, and active unless it is pinned; other panels keep their
      places, even ones that sanitising would drop. */
  lemma DirectShows(store: map<string, PanelState>, profile: string, layout: Layout, id: string, other: string)
    requires id != "" && other != id && other != ""
    ensures var before := Lookup(store, profile).GetOr(EMPTY);
            var after := Lookup(Step(store, Direct(profile, layout, id)), profile);
            && after.Some? && id in after.value.open && id !in after.value.dismissed
            && after.value.active == (if id in layout.pinned then before.active else Some(id))
            && (other in after.value.open <==> other in before.open)
            && (other in after.value.dismissed <==> other in before.dismissed)
  {
    var before := Lookup(store, profile).GetOr(EMPTY);
    FirstsMembers(before.open + [id]);
    WithoutRemoves(before.dismissed, id);
  }
}
