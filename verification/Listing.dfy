/** The paged directory listing of the mobile explorer.

    The client asks the desktop host for a folder page by page. Each page request is one asynchronous
    call, so between its start and its settlement anything else may happen: the folder may be left,
    refreshed, or scrolled. Every stretch of code between two awaits is one step here.
 */
module Listing {
  import opened Options

  const PAGE_SIZE: nat := 160
  const MAX_PAGE_SIZE: nat := 320

  datatype Entry = Entry(name: string, relativePath: string)

  /** One answer of the host. */
  datatype RawPage = Page(totalCount: nat, offset: nat, nextOffset: Option<nat>, entries: seq<Entry>)

  /** The host never sends entries beyond the count it announces; see `ServerPage`. */
  type Page = p: RawPage | p.offset + |p.entries| <= p.totalCount witness Page(0, 0, None, [])

  // ---------------------------------------------------------------- page keys

  function DigitChar(d: nat): char
    requires d < 10
  {
    ('0' as int + d) as char
  }

  /** A number as JavaScript prints it. */
  function Decimal(n: nat): string {
    if n < 10 then [DigitChar(n)] else Decimal(n / 10) + [DigitChar(n % 10)]
  }

  /** The key under which a page request is remembered. */
  function PageKey(listingKey: string, offset: nat): string {
    listingKey + "::" + Decimal(offset)
  }

  function ReadDecimal(s: string): int {
    if s == [] then 0 else 10 * ReadDecimal(s[..|s| - 1]) + (s[|s| - 1] as int - '0' as int)
  }

  lemma {:induction false} DecimalReadsBack(n: nat)
    ensures ReadDecimal(Decimal(n)) == n
    ensures forall i :: 0 <= i < |Decimal(n)| ==> '0' <= Decimal(n)[i] <= '9'
  {
    var s := Decimal(n);
    if n >= 10 {
      DecimalReadsBack(n / 10);
      assert s[..|s| - 1] == Decimal(n / 10);
    } else {
      assert s[..|s| - 1] == [];
    }
  }

  /** Different pages, even of different folders, never share a key. */
  lemma PageKeyInjective(k1: string, o1: nat, k2: string, o2: nat)
    requires PageKey(k1, o1) == PageKey(k2, o2)
    ensures k1 == k2 && o1 == o2
  {
    var s, t := PageKey(k1, o1), PageKey(k2, o2);
    var d1, d2 := Decimal(o1), Decimal(o2);
    DecimalReadsBack(o1);
    DecimalReadsBack(o2);
    assert s[|s| - |d1| - 1] == ':' && t[|t| - |d2| - 1] == ':';
    if |d1| != |d2| {
      assert false;
    }
    assert k1 == s[..|k1|] && k2 == t[..|k2|];
    assert d1 == s[|s| - |d1|..] && d2 == t[|t| - |d2|..];
  }

  // ---------------------------------------------------------------- the host

  function Clamp(limit: nat): nat {
    if limit < 1 then 1 else if limit > MAX_PAGE_SIZE then MAX_PAGE_SIZE else limit
  }

  /** The page the host cuts out of a folder's listing. */
  function ServerPage(list: seq<Entry>, offset: nat, limit: nat): (page: Page)
    ensures page.totalCount == |list| && page.offset <= |list| && (offset <= |list| ==> page.offset == offset)
    ensures page.entries == list[page.offset..page.offset + |page.entries|]
    ensures page.nextOffset.None? ==> page.offset + |page.entries| == |list|
    ensures page.nextOffset.Some? ==>
      && page.nextOffset.value == page.offset + |page.entries| < |list|
      && |page.entries| == (if limit == 0 then 1 else if limit <= 320 then limit else 320)
    ensures |page.entries| <= 320 && (0 < limit ==> |page.entries| <= limit)
    ensures offset < |list| ==> |page.entries| > 0
  {
    var safeOffset := if offset < |list| then offset else |list|;
    var end := if safeOffset + Clamp(limit) < |list| then safeOffset + Clamp(limit) else |list|;
    Page(|list|, safeOffset, if end < |list| then Some(end) else None, list[safeOffset..end])
  }

  // ---------------------------------------------------------------- the client

  /** What the explorer remembers: two refs and the listing's state variables. */
  datatype Client = Client(
    activeKey: string,
    loaded: set<string>,
    entries: seq<Option<Entry>>,
    totalCount: nat,
    nextOffset: Option<nat>,
    listingLoading: bool,
    loadingMore: bool,
    failed: bool)

  const NEW_CLIENT := Client("", {}, [], 0, None, false, false, false)

  function ResetListing(c: Client, key: string): Client {
    c.(activeKey := key, loaded := {}, entries := [], totalCount := 0, nextOffset := None, failed := false)
  }

  predicate Requestable(c: Client, key: string, offset: nat) {
    PageKey(key, offset) !in c.loaded
  }

  function BeginPage(c: Client, key: string, offset: nat): Client {
    if !Requestable(c, key, offset) then c
    else
      var marked := c.(loaded := c.loaded + {PageKey(key, offset)});
      if offset == 0 then marked.(listingLoading := true) else marked.(loadingMore := true)
  }

  /** The sparse array after a page: the page's slots are overwritten, the others keep what they had. */
  function Merged(current: seq<Option<Entry>>, page: Page): seq<Option<Entry>> {
    seq(page.totalCount, i requires 0 <= i < page.totalCount =>
      if page.offset <= i < page.offset + |page.entries| then Some(page.entries[i - page.offset])
      else if i < |current| then current[i]
      else None)
  }

  predicate MayLoadMore(c: Client) {
    c.nextOffset.Some? && !c.loadingMore
  }

  /** Copies or resizes the sparse array, then writes the page's entries one by one. */
  method MergePage(current: seq<Option<Entry>>, page: Page) returns (next: seq<Option<Entry>>)
    ensures next == Merged(current, page)
  {
    if |current| == page.totalCount {
      next := current;
    } else {
      next := seq(page.totalCount, i => if 0 <= i < |current| then current[i] else None);
    }
    var index := 0;
    while index < |page.entries|
      invariant 0 <= index <= |page.entries| && |next| == page.totalCount
      invariant forall i :: 0 <= i < |next| ==>
        next[i] == if page.offset <= i < page.offset + index then Some(page.entries[i - page.offset])
                   else if i < |current| then current[i] else None
    {
      next := next[page.offset + index := Some(page.entries[index])];
      index := index + 1;
    }
  }

  function AcceptPage(c: Client, key: string, page: Page): Client {
    if c.activeKey != key then c
    else c.(entries := Merged(c.entries, page), totalCount := page.totalCount, nextOffset := page.nextOffset,
            listingLoading := false, loadingMore := false, failed := false)
  }

  function RejectPage(c: Client, key: string, offset: nat): Client {
    var unmarked := c.(loaded := c.loaded - {PageKey(key, offset)});
    if c.activeKey != key then unmarked
    else unmarked.(listingLoading := false, loadingMore := false, failed := true)
  }

  /** The explorer's refs and state variables, updated step by step as the source does. */
  class ListingClient {
    var activeKey: string
    var loaded: set<string>
    var entries: seq<Option<Entry>>
    var totalCount: nat
    var nextOffset: Option<nat>
    var listingLoading: bool
    var loadingMore: bool
    var failed: bool

    ghost function View(): Client
      reads this
    {
      Client(activeKey, loaded, entries, totalCount, nextOffset, listingLoading, loadingMore, failed)
    }

    constructor ()
      ensures View() == NEW_CLIENT
    {
      activeKey, loaded, entries, totalCount, nextOffset := "", {}, [], 0, None;
      listingLoading, loadingMore, failed := false, false, false;
    }

    method ResetListingState(key: string)
      modifies this
      ensures View() == ResetListing(old(View()), key)
    {
      loaded := {};
      activeKey := key;
      entries := [];
      totalCount := 0;
      nextOffset := None;
      failed := false;
    }

    /** `loadDirectoryPage` up to its await; `issued` says whether a request leaves. */
    method StartPage(key: string, offset: nat) returns (issued: bool)
      modifies this
      ensures View() == BeginPage(old(View()), key, offset)
      ensures issued == Requestable(old(View()), key, offset)
    {
      if PageKey(key, offset) in loaded {
        return false;
      }
      loaded := loaded + {PageKey(key, offset)};
      if offset == 0 {
        listingLoading := true;
      } else {
        loadingMore := true;
      }
      issued := true;
    }

    /** `loadDirectoryPage` after a successful answer. */
    method PageArrived(key: string, page: Page)
      modifies this
      ensures View() == AcceptPage(old(View()), key, page)
    {
      if activeKey != key {
        return;
      }
      totalCount := page.totalCount;
      nextOffset := page.nextOffset;
      entries := MergePage(entries, page);
      failed := false;
      listingLoading := false;
      loadingMore := false;
    }

    /** `loadDirectoryPage` after an error. */
    method PageFailed(key: string, offset: nat)
      modifies this
      ensures View() == RejectPage(old(View()), key, offset)
    {
      loaded := loaded - {PageKey(key, offset)};
      if activeKey == key {
        failed := true;
        listingLoading := false;
        loadingMore := false;
      }
    }

    method HandleScroll(key: string, nearBottom: bool) returns (issued: bool)
      modifies this
      ensures issued == (nearBottom && old(nextOffset).Some? && !old(loadingMore) &&
                         PageKey(key, old(nextOffset).value) !in old(loaded))
      ensures View() == if issued then BeginPage(old(View()), key, old(nextOffset).value) else old(View())
    {
      issued := false;
      if nextOffset.Some? && !loadingMore && nearBottom {
        issued := StartPage(key, nextOffset.value);
      }
    }
  }

  // ---------------------------------------------------------------- interleavings

  datatype Request = Request(key: string, offset: nat)

  /** The client together with the page requests that have not settled. */
  datatype World = World(client: Client, inFlight: multiset<Request>)

  datatype Event =
    | Open(key: string)                        // navigation or refresh: reset, then ask for page 0
    | Scroll(key: string)                      // near the bottom, with the committed state
    | StaleLoad(key: string, offset: nat)      // a call with arguments of any earlier render
    | Arrive(key: string, offset: nat)         // a request in flight is answered
    | Break(key: string, offset: nat)          // a request in flight fails

  const NEW_WORLD := World(NEW_CLIENT, multiset{})

  function Ask(w: World, key: string, offset: nat): World {
    World(BeginPage(w.client, key, offset),
          if Requestable(w.client, key, offset) then w.inFlight + multiset{Request(key, offset)} else w.inFlight)
  }

  function Opened(w: World, key: string): World {
    Ask(w.(client := ResetListing(w.client, key)), key, 0)
  }

  function Scrolled(w: World, key: string): World {
    if MayLoadMore(w.client) then Ask(w, key, w.client.nextOffset.value) else w
  }

  /** An answer arrives, from a host whose listing of each folder does not change. */
  function Arrived(server: string -> seq<Entry>, w: World, key: string, offset: nat): World {
    if Request(key, offset) !in w.inFlight then w
    else World(AcceptPage(w.client, key, ServerPage(server(key), offset, PAGE_SIZE)),
               w.inFlight - multiset{Request(key, offset)})
  }

  function Broken(w: World, key: string, offset: nat): World {
    if Request(key, offset) !in w.inFlight then w
    else World(RejectPage(w.client, key, offset), w.inFlight - multiset{Request(key, offset)})
  }

  function Step(server: string -> seq<Entry>, w: World, e: Event): World {
    match e
    case Open(key) => Opened(w, key)
    case Scroll(key) => Scrolled(w, key)
    case StaleLoad(key, offset) => Ask(w, key, offset)
    case Arrive(key, offset) => Arrived(server, w, key, offset)
    case Break(key, offset) => Broken(w, key, offset)
  }

  function Run(server: string -> seq<Entry>, events: seq<Event>): World {
    if events == [] then NEW_WORLD
    else Step(server, Run(server, events[..|events| - 1]), events[|events| - 1])
  }

  // ---------------------------------------------------------------- agreement, in every run

  /** The sparse array is empty or as long as the active folder, and every slot it shows is right. */
  ghost predicate Agrees(server: string -> seq<Entry>, c: Client) {
    var list := server(c.activeKey);
    && (c.entries == [] || |c.entries| == |list|)
    && forall i :: 0 <= i < |c.entries| && c.entries[i].Some? ==> c.entries[i].value == list[i]
  }

  lemma ArriveAgrees(server: string -> seq<Entry>, w: World, key: string, offset: nat)
    requires Agrees(server, w.client)
    ensures Agrees(server, Arrived(server, w, key, offset).client)
  {
    var list, merged := server(key), Merged(w.client.entries, ServerPage(server(key), offset, PAGE_SIZE));
    if key == w.client.activeKey {
      assert forall i :: 0 <= i < |merged| && merged[i].Some? ==> merged[i].value == list[i];
    }
  }

  lemma StepAgrees(server: string -> seq<Entry>, w: World, e: Event)
    requires Agrees(server, w.client)
    ensures Agrees(server, Step(server, w, e).client)
  {
    match e
    case Arrive(key, offset) => ArriveAgrees(server, w, key, offset);
    case _ =>
  }

  lemma {:induction false} AlwaysAgrees(server: string -> seq<Entry>, events: seq<Event>)
    ensures Agrees(server, Run(server, events).client)
  {
    if events != [] {
      hide Step, Agrees;
      AlwaysAgrees(server, events[..|events| - 1]);
      StepAgrees(server, Run(server, events[..|events| - 1]), events[|events| - 1]);
    }
  }

  /** Everything of the client a user can see. */
  function Visible(c: Client): Client {
    c.(loaded := {})
  }

  /** The settlement of a request for a folder that is not active shows nowhere, and an answered one
      changes nothing at all. */
  lemma OtherFolderIsInvisible(server: string -> seq<Entry>, w: World, key: string, offset: nat)
    requires key != w.client.activeKey
    ensures Arrived(server, w, key, offset).client == w.client
    ensures Visible(Broken(w, key, offset).client) == Visible(w.client)
    ensures Request(key, offset) in w.inFlight ==> PageKey(key, offset) !in Broken(w, key, offset).client.loaded
    ensures forall o: nat :: PageKey(w.client.activeKey, o) in w.client.loaded ==>
              PageKey(w.client.activeKey, o) in Broken(w, key, offset).client.loaded
  {
    forall o: nat | PageKey(w.client.activeKey, o) in w.client.loaded
      ensures PageKey(w.client.activeKey, o) in Broken(w, key, offset).client.loaded
    {
      if PageKey(w.client.activeKey, o) == PageKey(key, offset) {
        PageKeyInjective(w.client.activeKey, o, key, offset);
      }
    }
  }

  // ---------------------------------------------------------------- counts and errors, in every run

  lemma StepKeepsCount(server: string -> seq<Entry>, w: World, e: Event)
    requires w.client.totalCount == |w.client.entries|
    ensures Step(server, w, e).client.totalCount == |Step(server, w, e).client.entries|
  {
    hide ServerPage, PageKey;
    match e
    case Open(_) =>
    case Scroll(key) => hide Arrived, Broken, Opened;
    case StaleLoad(_, _) => hide Arrived, Broken, Opened;
    case Arrive(_, _) => hide Ask, Broken, Opened;
    case Break(_, _) => hide Ask, Arrived, Opened;
  }

  /** The announced count is the length of the sparse array; with `AlwaysAgrees` it is 0 or the listing's. */
  lemma {:induction false} CountIsLength(server: string -> seq<Entry>, events: seq<Event>)
    ensures Run(server, events).client.totalCount == |Run(server, events).client.entries|
  {
    if events != [] {
      hide Step;
      CountIsLength(server, events[..|events| - 1]);
      StepKeepsCount(server, Run(server, events[..|events| - 1]), events[|events| - 1]);
    }
  }

  /** The settlement of a request for the active folder: an answer shows the page, the listing's true count and
      no error; an error shows itself, keeps what was shown and lets the page be asked for again. Both clear
      the loading flags and take the request off. */
  lemma ActiveSettlementShows(server: string -> seq<Entry>, w: World, offset: nat)
    requires Request(w.client.activeKey, offset) in w.inFlight
    ensures var key, c := w.client.activeKey, w.client;
            var answered, broken := Arrived(server, w, key, offset), Broken(w, key, offset);
            var page := ServerPage(server(key), offset, PAGE_SIZE);
            && !answered.client.failed && answered.client.totalCount == |server(key)| == |answered.client.entries|
            && answered.client.nextOffset == page.nextOffset
            && (forall i :: 0 <= i < |page.entries| ==>
                  answered.client.entries[page.offset + i] == Some(page.entries[i]))
            && (forall i :: 0 <= i < |server(key)| && !(page.offset <= i < page.offset + |page.entries|) ==>
                  answered.client.entries[i] == if i < |c.entries| then c.entries[i] else None)
            && broken.client.failed && broken.client.entries == c.entries && broken.client.totalCount == c.totalCount
            && broken.client.nextOffset == c.nextOffset
            && answered.client.loaded == c.loaded && PageKey(key, offset) !in broken.client.loaded
            && !answered.client.listingLoading && !answered.client.loadingMore
            && !broken.client.listingLoading && !broken.client.loadingMore
            && answered.client.activeKey == broken.client.activeKey == key
            && answered.inFlight == broken.inFlight == w.inFlight - multiset{Request(key, offset)}
  {
  }

  /** Opening a folder clears everything the last one left, the error too, and sends one request. */
  lemma OpeningClears(w: World, key: string)
    ensures var w' := Opened(w, key);
            && w'.client.activeKey == key && w'.client.entries == [] && w'.client.totalCount == 0
            && w'.client.nextOffset.None? && !w'.client.failed && w'.client.listingLoading
            && w'.client.loadingMore == w.client.loadingMore && w'.client.loaded == {PageKey(key, 0)}
            && w'.inFlight == w.inFlight + multiset{Request(key, 0)}
  {
  }

  /** A scroll near the bottom sends a request exactly while there is a next page, none is loading and it was not
      asked for; the load-more flag then is up, and nothing else shows. */
  lemma ScrollSendsExactly(w: World, key: string)
    ensures var c, scrolled := w.client, Scrolled(w, key);
            if c.nextOffset.Some? && !c.loadingMore && PageKey(key, c.nextOffset.value) !in c.loaded
            then && scrolled.inFlight == w.inFlight + multiset{Request(key, c.nextOffset.value)}
                 && scrolled.client.loaded == c.loaded + {PageKey(key, c.nextOffset.value)}
                 && Visible(scrolled.client) ==
                    Visible(c).(listingLoading := c.listingLoading || c.nextOffset == Some(0),
                                loadingMore := c.nextOffset != Some(0))
            else scrolled == w
  {
  }

  /** The event is the settlement of a request for the active folder. */
  predicate SettlesActive(w: World, e: Event) {
    (e.Arrive? || e.Break?) && e.key == w.client.activeKey && Request(e.key, e.offset) in w.inFlight
  }

  /** What the events say about the error: of openings and of settlements for the active folder, the last one was
      an error. */
  ghost predicate EndsInError(server: string -> seq<Entry>, events: seq<Event>) {
    events != [] &&
    var before, e := events[..|events| - 1], events[|events| - 1];
    if e.Open? || SettlesActive(Run(server, before), e) then e.Break? else EndsInError(server, before)
  }

  lemma StepShowsError(server: string -> seq<Entry>, w: World, e: Event)
    ensures Step(server, w, e).client.failed == if e.Open? || SettlesActive(w, e) then e.Break? else w.client.failed
  {
    hide ServerPage, PageKey, Merged;
  }

  /** The error is shown exactly then, in every run. */
  lemma {:induction false} ErrorShownExactly(server: string -> seq<Entry>, events: seq<Event>)
    ensures Run(server, events).client.failed <==> EndsInError(server, events)
  {
    if events != [] {
      hide Step, SettlesActive;
      ErrorShownExactly(server, events[..|events| - 1]);
      StepShowsError(server, Run(server, events[..|events| - 1]), events[|events| - 1]);
    }
  }

  lemma PageKeyText()
    ensures PageKey("folder", 0) == "folder::0" && PageKey("folder", 160) == "folder::160"
  {
    assert Decimal(160) == Decimal(16) + "0" && Decimal(16) == Decimal(1) + "6" && Decimal(1) == "1";
  }

  // ---------------------------------------------------------------- order, flags and progress

  predicate NoneInFlight(w: World, key: string) {
    forall r :: r in w.inFlight ==> r.key != key
  }

  ghost predicate FilledTo(entries: seq<Option<Entry>>, n: nat) {
    n <= |entries| && forall i :: 0 <= i < n ==> entries[i].Some?
  }

  /** The first offset not yet received. */
  function Frontier(c: Client): nat {
    c.nextOffset.GetOr(0)
  }

  /** The first page of the active folder has been received. */
  predicate Answered(w: World) {
    && PageKey(w.client.activeKey, 0) in w.client.loaded
    && Request(w.client.activeKey, 0) !in w.inFlight
  }

  /** Pages come in order: only the frontier page of the active folder can be in flight, only once, and with
      the load-more flag up; everything before the frontier is filled; no frontier after the first answer
      means no hole; and a frontier page that is not in flight can still be asked for. */
  ghost predicate Orderly(server: string -> seq<Entry>, w: World) {
    var c, k := w.client, w.client.activeKey;
    && (forall r :: r in w.inFlight && r.key == k ==>
          && r.offset == Frontier(c) && w.inFlight[r] == 1 && PageKey(k, r.offset) in c.loaded
          && (r.offset > 0 ==> c.loadingMore))
    && (c.nextOffset.Some? ==>
          && Answered(w) && 0 < Frontier(c) < |server(k)| == |c.entries| && FilledTo(c.entries, Frontier(c))
          && (PageKey(k, Frontier(c)) in c.loaded ==> Request(k, Frontier(c)) in w.inFlight))
    && (c.nextOffset.None? && Answered(w) ==> |c.entries| == |server(k)| && FilledTo(c.entries, |server(k)|))
    && (c.nextOffset.Some? || !Answered(w) ==> forall o: nat :: PageKey(k, o) in c.loaded ==> o <= Frontier(c))
  }

  /** The loading flags tell what is in flight for the active folder, so a set flag will be cleared. */
  ghost predicate FlagsTellTruth(w: World) {
    && (w.client.listingLoading <==> Request(w.client.activeKey, 0) in w.inFlight)
    && (w.client.loadingMore ==> !NoneInFlight(w, w.client.activeKey))
  }

  /** Before the first answer and while there is a next offset, the frontier page is in flight or a scroll
      puts it in flight. */
  predicate Moves(w: World) {
    var k := w.client.activeKey;
    w.client.nextOffset.Some? || !Answered(w) ==> Request(k, Frontier(w.client)) in Scrolled(w, k).inFlight
  }

  /** What the client can keep: pages in order, and with it truthful flags, or progress. */
  datatype Law = InOrder | TruthfulFlags | Progress

  ghost predicate Lawful(law: Law, server: string -> seq<Entry>, w: World) {
    && Orderly(server, w)
    && (law.TruthfulFlags? ==> FlagsTellTruth(w))
    && (law.Progress? ==> Moves(w))
  }

  /** A call with arguments of an earlier render does no harm to the order: it is for another folder, or
      returns at once, or asks for the frontier page of a listing that is not complete. */
  predicate HarmlessLoad(w: World, key: string, offset: nat) {
    || key != w.client.activeKey
    || !Requestable(w.client, key, offset)
    || (offset == Frontier(w.client) && (w.client.nextOffset.Some? || !Answered(w)))
  }

  /** A folder is opened only when none of its requests is in flight, and other calls are harmless. */
  predicate CleanStep(w: World, e: Event) {
    match e
    case Open(key) => NoneInFlight(w, key)
    case StaleLoad(key, offset) => HarmlessLoad(w, key, offset)
    case _ => true
  }

  /** A request leaves for a folder that is not active. */
  predicate Foreign(w: World, key: string, offset: nat) {
    key != w.client.activeKey && Requestable(w.client, key, offset)
  }

  /** The step raises no flag that the active folder has no request for. */
  predicate RaisesNoFlag(w: World, e: Event) {
    match e
    case Scroll(key) => MayLoadMore(w.client) ==> !Foreign(w, key, Frontier(w.client))
    case StaleLoad(key, offset) =>
      Foreign(w, key, offset) ==> w.client.listingLoading || (offset > 0 && w.client.loadingMore)
    case _ => true
  }

  /** The step does not raise the load-more flag of a listing that waits for a scroll, and is not the failure
      of the active folder's page 0. */
  predicate StallsNothing(w: World, e: Event) {
    match e
    case Scroll(key) => MayLoadMore(w.client) ==> !Foreign(w, key, Frontier(w.client))
    case StaleLoad(key, offset) => MayLoadMore(w.client) && offset > 0 ==> !Foreign(w, key, offset)
    case Break(key, offset) => !(key == w.client.activeKey && offset == 0 && Request(key, 0) in w.inFlight)
    case _ => true
  }

  predicate Allowed(law: Law, w: World, e: Event) {
    && CleanStep(w, e)
    && (law.TruthfulFlags? ==> RaisesNoFlag(w, e))
    && (law.Progress? ==> StallsNothing(w, e))
  }

  lemma OpenKeepsOrderExactly(server: string -> seq<Entry>, w: World, key: string)
    ensures Orderly(server, Opened(w, key)) <==> NoneInFlight(w, key)
  {
    var c := Opened(w, key).client;
    forall o: nat | PageKey(key, o) in c.loaded ensures o == 0 {
      PageKeyInjective(key, o, key, 0);
    }
    if r :| r in w.inFlight && r.key == key {
      assert r in Opened(w, key).inFlight;
    }
  }

  /** What does not touch the active folder keeps the order. */
  lemma UnseenKeepsOrder(server: string -> seq<Entry>, w: World, w': World)
    requires Orderly(server, w)
    requires w'.client.activeKey == w.client.activeKey && w'.client.entries == w.client.entries
    requires w'.client.nextOffset == w.client.nextOffset && (w.client.loadingMore ==> w'.client.loadingMore)
    requires forall o: nat ::
      PageKey(w.client.activeKey, o) in w'.client.loaded <==> PageKey(w.client.activeKey, o) in w.client.loaded
    requires forall r: Request :: r.key == w.client.activeKey ==> w'.inFlight[r] == w.inFlight[r]
    ensures Orderly(server, w')
  {
    assert Answered(w') == Answered(w);
    hide PageKey;
  }

  lemma ForeignLoadKeepsOrder(server: string -> seq<Entry>, w: World, key: string, offset: nat)
    requires Orderly(server, w) && key != w.client.activeKey
    ensures Orderly(server, Ask(w, key, offset))
  {
    var k, w' := w.client.activeKey, Ask(w, key, offset);
    forall o: nat ensures PageKey(k, o) in w'.client.loaded <==> PageKey(k, o) in w.client.loaded {
      if PageKey(k, o) == PageKey(key, offset) {
        PageKeyInjective(k, o, key, offset);
      }
    }
    hide Orderly;
    UnseenKeepsOrder(server, w, w');
  }

  lemma StaleLoadKeepsOrderExactly(server: string -> seq<Entry>, w: World, key: string, offset: nat)
    requires Orderly(server, w)
    ensures Orderly(server, Ask(w, key, offset)) <==> HarmlessLoad(w, key, offset)
  {
    var k, w' := w.client.activeKey, Ask(w, key, offset);
    if key != k {
      ForeignLoadKeepsOrder(server, w, key, offset);
    } else if Requestable(w.client, key, offset) {
      forall o: nat | o != offset ensures PageKey(k, o) in w'.client.loaded <==> PageKey(k, o) in w.client.loaded {
        if PageKey(k, o) == PageKey(key, offset) {
          PageKeyInjective(k, o, key, offset);
        }
      }
      assert Request(key, offset) in w'.inFlight;
      assert PageKey(k, offset) in w'.client.loaded;
      hide PageKey;
    }
  }

  lemma ForeignSettlingKeepsOrder(server: string -> seq<Entry>, w: World, key: string, offset: nat)
    requires Orderly(server, w) && key != w.client.activeKey
    ensures Orderly(server, Arrived(server, w, key, offset)) && Orderly(server, Broken(w, key, offset))
  {
    hide Orderly, PageKey;
    OtherFolderIsInvisible(server, w, key, offset);
    UnseenKeepsOrder(server, w, Arrived(server, w, key, offset));
    UnseenKeepsOrder(server, w, Broken(w, key, offset));
  }

  lemma ArriveKeepsOrder(server: string -> seq<Entry>, w: World, key: string, offset: nat)
    requires Orderly(server, w)
    ensures Orderly(server, Arrived(server, w, key, offset))
  {
    var c, k, w' := w.client, w.client.activeKey, Arrived(server, w, key, offset);
    if key != k {
      ForeignSettlingKeepsOrder(server, w, key, offset);
    } else if Request(key, offset) in w.inFlight {
      assert offset == Frontier(c) && PageKey(k, offset) in c.loaded && w'.inFlight[Request(k, offset)] == 0;
      assert forall r: Request :: r.key == k ==> r !in w'.inFlight;
      assert c.nextOffset.None? ==> !Answered(w);
      assert forall o: nat :: PageKey(k, o) in c.loaded ==> o <= Frontier(c);
      var end := ServerPage(server(k), offset, PAGE_SIZE).nextOffset.GetOr(|server(k)|);
      assert FilledTo(w'.client.entries, end);
      hide PageKey, Merged;
    }
  }

  lemma BreakKeepsOrder(server: string -> seq<Entry>, w: World, key: string, offset: nat)
    requires Orderly(server, w)
    ensures Orderly(server, Broken(w, key, offset))
  {
    var c, k, w' := w.client, w.client.activeKey, Broken(w, key, offset);
    if key != k {
      ForeignSettlingKeepsOrder(server, w, key, offset);
    } else if Request(key, offset) in w.inFlight {
      forall o: nat | PageKey(k, o) in c.loaded && PageKey(k, o) !in w'.client.loaded ensures o == offset {
        PageKeyInjective(k, o, key, offset);
      }
      assert w'.inFlight[Request(k, offset)] == 0 && PageKey(k, offset) !in w'.client.loaded;
      hide PageKey;
    }
  }

  lemma StepKeepsOrderExactly(server: string -> seq<Entry>, w: World, e: Event)
    requires Orderly(server, w)
    ensures Orderly(server, Step(server, w, e)) <==> CleanStep(w, e)
  {
    assert w.client.nextOffset.Some? ==> HarmlessLoad(w, w.client.activeKey, Frontier(w.client));
    hide Orderly, Ask, Arrived, Broken, Opened;
    match e
    case Open(key) => OpenKeepsOrderExactly(server, w, key);
    case Scroll(key) => StaleLoadKeepsOrderExactly(server, w, key, Frontier(w.client));
    case StaleLoad(key, offset) => StaleLoadKeepsOrderExactly(server, w, key, offset);
    case Arrive(key, offset) => ArriveKeepsOrder(server, w, key, offset);
    case Break(key, offset) => BreakKeepsOrder(server, w, key, offset);
  }

  lemma LoadKeepsFlagsExactly(server: string -> seq<Entry>, w: World, key: string, offset: nat)
    requires Orderly(server, w) && FlagsTellTruth(w)
    ensures FlagsTellTruth(Ask(w, key, offset)) <==> RaisesNoFlag(w, StaleLoad(key, offset))
    ensures MayLoadMore(w.client) ==> !w.client.listingLoading
  {
    var k, w' := w.client.activeKey, Ask(w, key, offset);
    if Requestable(w.client, key, offset) {
      assert forall r :: r in w'.inFlight <==> r in w.inFlight || r == Request(key, offset);
      assert !NoneInFlight(w, k) ==> w.client.listingLoading || w.client.loadingMore;
      if key == k {
        assert Request(key, offset) in w'.inFlight;
      } else {
        assert NoneInFlight(w', k) <==> NoneInFlight(w, k);
      }
    }
  }

  lemma SettlingKeepsFlags(server: string -> seq<Entry>, w: World, key: string, offset: nat)
    requires Orderly(server, w) && FlagsTellTruth(w)
    ensures FlagsTellTruth(Arrived(server, w, key, offset)) && FlagsTellTruth(Broken(w, key, offset))
  {
    var r0 := Request(key, offset);
    if r0 in w.inFlight {
      assert forall r :: r != r0 ==> (r in w.inFlight - multiset{r0} <==> r in w.inFlight);
      if key == w.client.activeKey {
        assert (w.inFlight - multiset{r0})[r0] == 0;
      }
    }
  }

  lemma StepKeepsFlagsExactly(server: string -> seq<Entry>, w: World, e: Event)
    requires Orderly(server, w) && FlagsTellTruth(w) && CleanStep(w, e)
    ensures FlagsTellTruth(Step(server, w, e)) <==> RaisesNoFlag(w, e)
  {
    match e
    case Open(key) => assert Request(key, 0) in Opened(w, key).inFlight;
    case Scroll(key) => LoadKeepsFlagsExactly(server, w, key, Frontier(w.client));
    case StaleLoad(key, offset) => LoadKeepsFlagsExactly(server, w, key, offset);
    case Arrive(key, offset) => SettlingKeepsFlags(server, w, key, offset);
    case Break(key, offset) => SettlingKeepsFlags(server, w, key, offset);
  }

  /** In an orderly world the load-more flag decides about progress, and before the first answer page 0. */
  lemma MovesExactly(server: string -> seq<Entry>, w: World)
    requires Orderly(server, w)
    ensures Moves(w) <==>
      (w.client.loadingMore && w.client.nextOffset.Some?) || (w.client.nextOffset.None? && !Answered(w)) ==>
        Request(w.client.activeKey, Frontier(w.client)) in w.inFlight
  {
  }

  lemma LoadKeepsMovingExactly(server: string -> seq<Entry>, w: World, key: string, offset: nat)
    requires Orderly(server, w) && Moves(w) && HarmlessLoad(w, key, offset)
    ensures Moves(Ask(w, key, offset)) <==> StallsNothing(w, StaleLoad(key, offset))
  {
    StaleLoadKeepsOrderExactly(server, w, key, offset);
    MovesExactly(server, w);
    MovesExactly(server, Ask(w, key, offset));
    hide Orderly, Moves, PageKey;
  }

  lemma ArriveKeepsMoving(server: string -> seq<Entry>, w: World, key: string, offset: nat)
    requires Orderly(server, w) && Moves(w)
    ensures Moves(Arrived(server, w, key, offset))
  {
    ArriveKeepsOrder(server, w, key, offset);
    MovesExactly(server, w);
    MovesExactly(server, Arrived(server, w, key, offset));
    assert Request(key, offset) in w.inFlight && key == w.client.activeKey ==>
      offset == Frontier(w.client) && PageKey(key, offset) in w.client.loaded && w.inFlight[Request(key, offset)] == 1;
    hide Orderly, Moves, PageKey;
  }

  lemma BreakKeepsMovingExactly(server: string -> seq<Entry>, w: World, key: string, offset: nat)
    requires Orderly(server, w) && Moves(w)
    ensures Moves(Broken(w, key, offset)) <==> StallsNothing(w, Break(key, offset))
  {
    var w' := Broken(w, key, offset);
    BreakKeepsOrder(server, w, key, offset);
    MovesExactly(server, w);
    MovesExactly(server, w');
    if Request(key, offset) in w.inFlight {
      if key == w.client.activeKey {
        assert offset == Frontier(w.client) && w'.inFlight[Request(key, offset)] == 0;
      } else {
        OtherFolderIsInvisible(server, w, key, offset);
      }
    }
    hide Orderly, Moves, PageKey;
  }

  lemma OpenMoves(w: World, key: string)
    ensures Moves(Opened(w, key))
  {
    assert Request(key, 0) in Opened(w, key).inFlight;
  }

  lemma StepKeepsMovingExactly(server: string -> seq<Entry>, w: World, e: Event)
    requires Orderly(server, w) && Moves(w) && CleanStep(w, e)
    ensures Moves(Step(server, w, e)) <==> StallsNothing(w, e)
  {
    assert w.client.nextOffset.Some? ==> Frontier(w.client) > 0;
    hide Orderly, Ask, Arrived, Broken, Moves;
    match e
    case Open(key) => OpenMoves(w, key);
    case Scroll(key) => LoadKeepsMovingExactly(server, w, key, Frontier(w.client));
    case StaleLoad(key, offset) => LoadKeepsMovingExactly(server, w, key, offset);
    case Arrive(key, offset) => ArriveKeepsMoving(server, w, key, offset);
    case Break(key, offset) => BreakKeepsMovingExactly(server, w, key, offset);
  }

  /** The law holds after every step. */
  ghost predicate LawfulThroughout(law: Law, server: string -> seq<Entry>, events: seq<Event>) {
    events == [] || (LawfulThroughout(law, server, events[..|events| - 1]) && Lawful(law, server, Run(server, events)))
  }

  ghost predicate AllowedRun(law: Law, server: string -> seq<Entry>, events: seq<Event>) {
    events == [] || (AllowedRun(law, server, events[..|events| - 1])
                     && Allowed(law, Run(server, events[..|events| - 1]), events[|events| - 1]))
  }

  lemma StepKeepsLawExactly(law: Law, server: string -> seq<Entry>, w: World, e: Event)
    requires Lawful(law, server, w)
    ensures Lawful(law, server, Step(server, w, e)) <==> Allowed(law, w, e)
  {
    hide Orderly, FlagsTellTruth, Moves, CleanStep, Step, RaisesNoFlag, StallsNothing;
    StepKeepsOrderExactly(server, w, e);
    if CleanStep(w, e) {
      match law
      case InOrder =>
      case TruthfulFlags => StepKeepsFlagsExactly(server, w, e);
      case Progress => StepKeepsMovingExactly(server, w, e);
    }
  }

  lemma NewWorldIsLawful(server: string -> seq<Entry>)
    ensures Lawful(InOrder, server, NEW_WORLD) && Lawful(TruthfulFlags, server, NEW_WORLD)
  {
  }

  lemma FirstOpeningMoves(server: string -> seq<Entry>, key: string)
    ensures Lawful(Progress, server, Step(server, NEW_WORLD, Open(key))) && Allowed(Progress, NEW_WORLD, Open(key))
  {
    OpenKeepsOrderExactly(server, NEW_WORLD, key);
    OpenMoves(NEW_WORLD, key);
    hide Orderly, Moves;
  }

  /** For every run: pages come in order throughout, flags are truthful throughout, and (once the app has
      opened a folder, which it does first) paging never stalls, each exactly when every step is one that the
      law allows. */
  lemma {:induction false} LawsHoldExactly(law: Law, server: string -> seq<Entry>, events: seq<Event>)
    requires law.Progress? ==> events == [] || events[0].Open?
    ensures LawfulThroughout(law, server, events) <==> AllowedRun(law, server, events)
  {
    if events != [] {
      hide Lawful, Step, Allowed;
      var before := events[..|events| - 1];
      LawsHoldExactly(law, server, before);
      if law.Progress? && before == [] {
        FirstOpeningMoves(server, events[0].key);
      } else if LawfulThroughout(law, server, before) {
        assert before == [] ==> Lawful(law, server, NEW_WORLD) by { NewWorldIsLawful(server); }
        StepKeepsLawExactly(law, server, Run(server, before), events[|events| - 1]);
      }
    }
  }

  lemma AlwaysLawful(law: Law, server: string -> seq<Entry>, events: seq<Event>)
    requires AllowedRun(law, server, events) && (law.Progress? ==> events != [] && events[0].Open?)
    ensures Lawful(law, server, Run(server, events))
  {
    LawsHoldExactly(law, server, events);
    NewWorldIsLawful(server);
    hide Lawful;
  }

  /** Every entry of the active folder is there. */
  ghost predicate Complete(server: string -> seq<Entry>, c: Client) {
    |c.entries| == |server(c.activeKey)| && FilledTo(c.entries, |server(c.activeKey)|)
  }

  /** In such runs paging goes on until the listing is complete. */
  lemma NeverStalls(server: string -> seq<Entry>, events: seq<Event>)
    requires events != [] && events[0].Open? && AllowedRun(Progress, server, events)
    ensures var w := Run(server, events);
            || Complete(server, w.client)
            || Request(w.client.activeKey, Frontier(w.client)) in Scrolled(w, w.client.activeKey).inFlight
  {
    AlwaysLawful(Progress, server, events);
    hide Run, AllowedRun;
  }

  // ---------------------------------------------------------------- completion

  /** Opening a folder and receiving its page 0. */
  function OpenAndReceive(server: string -> seq<Entry>, w: World, key: string): World {
    Arrived(server, Opened(w, key), key, 0)
  }

  /** Scrolling to the bottom and receiving the page this asks for. */
  function ScrollAndReceive(server: string -> seq<Entry>, w: World, key: string): World {
    Arrived(server, Scrolled(w, key), key, Frontier(w.client))
  }

  function Visit(server: string -> seq<Entry>, w: World, key: string, rounds: nat): World {
    if rounds == 0 then OpenAndReceive(server, w, key)
    else ScrollAndReceive(server, Visit(server, w, key, rounds - 1), key)
  }

  /** Exactly the first `seen` entries of the folder `key` are there, and the next page can be asked for. */
  ghost predicate Holds(server: string -> seq<Entry>, w: World, key: string, seen: nat) {
    var list := server(key);
    && w.client.activeKey == key && NoneInFlight(w, key) && Orderly(server, w)
    && !w.client.listingLoading && !w.client.loadingMore && !w.client.failed && w.client.totalCount == |list|
    && w.client.nextOffset == (if seen < |list| then Some(seen) else None)
    && |w.client.entries| == |list|
    && forall i :: 0 <= i < |list| ==> w.client.entries[i] == if i < seen then Some(list[i]) else None
  }

  lemma OpenLoads(server: string -> seq<Entry>, w: World, key: string)
    requires NoneInFlight(w, key)
    ensures Holds(server, OpenAndReceive(server, w, key), key, PAGE_SIZE)
  {
    var asked := Opened(w, key);
    OpenKeepsOrderExactly(server, w, key);
    ArriveKeepsOrder(server, asked, key, 0);
    assert asked.inFlight[Request(key, 0)] == 1;
    assert NoneInFlight(Arrived(server, asked, key, 0), key);
  }

  lemma RoundLoads(server: string -> seq<Entry>, w: World, key: string, seen: nat)
    requires Holds(server, w, key, seen) && 0 < seen
    ensures Holds(server, ScrollAndReceive(server, w, key), key, seen + PAGE_SIZE)
  {
    var asked := Scrolled(w, key);
    StepKeepsOrderExactly(server, w, Scroll(key));
    ArriveKeepsOrder(server, asked, key, Frontier(w.client));
    if w.client.nextOffset.Some? {
      assert Requestable(w.client, key, seen);
      assert asked.inFlight[Request(key, seen)] == 1;
      assert NoneInFlight(Arrived(server, asked, key, seen), key);
    }
    hide Orderly, PageKey, Ask, NoneInFlight;
  }

  /** After r rounds exactly the first (r + 1) pages are there: the listing is complete, slot for slot,
      after ceil(n / 160) answers, and not one answer earlier. */
  lemma {:induction false} VisitLoads(server: string -> seq<Entry>, w: World, key: string, rounds: nat)
    requires NoneInFlight(w, key)
    ensures Holds(server, Visit(server, w, key, rounds), key, 160 * (rounds + 1))
  {
    hide Holds, OpenAndReceive, ScrollAndReceive;
    if rounds == 0 {
      OpenLoads(server, w, key);
    } else {
      VisitLoads(server, w, key, rounds - 1);
      RoundLoads(server, Visit(server, w, key, rounds - 1), key, PAGE_SIZE * rounds);
    }
  }

  // ---------------------------------------------------------------- what other steps lead to

  lemma RunOfFive(server: string -> seq<Entry>, a: Event, b: Event, c: Event, d: Event, e: Event)
    ensures Run(server, [a, b, c, d, e]) ==
            Step(server, Step(server, Step(server, Step(server, Step(server, NEW_WORLD, a), b), c), d), e)
  {
    hide Step;
    assert [a, b, c, d, e][..4] == [a, b, c, d] && [a, b, c, d][..3] == [a, b, c] && [a, b, c][..2] == [a, b];
    assert [a, b][..1] == [a] && [a][..0] == [];
    assert Run(server, [a, b]) == Step(server, Run(server, [a]), b);
    assert Run(server, [a, b, c]) == Step(server, Run(server, [a, b]), c);
    assert Run(server, [a, b, c, d]) == Step(server, Run(server, [a, b, c]), d);
  }

  /** Page 1 answered before page 0. */
  lemma SecondPageFirst(server: string -> seq<Entry>, w: World, key: string)
    requires |server(key)| > PAGE_SIZE && w.client.activeKey == key && w.client.entries == []
    requires w.inFlight == multiset{Request(key, 0), Request(key, PAGE_SIZE)}
    ensures var w' := Arrived(server, w, key, PAGE_SIZE);
            var late := Arrived(server, w', key, 0);
            && |w'.client.entries| == |server(key)| && w'.client.entries[0].None?
            && w'.client.nextOffset == (if 2 * PAGE_SIZE < |server(key)| then Some(2 * PAGE_SIZE) else None)
            && late.client.nextOffset == Some(PAGE_SIZE) && late.inFlight == multiset{}
            && late.client.loaded == w.client.loaded && late.client.activeKey == key
  {
    assert Arrived(server, w, key, PAGE_SIZE).inFlight == multiset{Request(key, 0)};
  }

  lemma FirstPageOf(server: string -> seq<Entry>, key: string)
    requires |server(key)| > PAGE_SIZE
    ensures var w := OpenAndReceive(server, NEW_WORLD, key);
            && w.inFlight == multiset{} && w.client.activeKey == key && w.client.loaded == {PageKey(key, 0)}
            && MayLoadMore(w.client) && Frontier(w.client) == PAGE_SIZE
    ensures PageKey(key, PAGE_SIZE) != PageKey(key, 0)
  {
    if PageKey(key, PAGE_SIZE) == PageKey(key, 0) {
      PageKeyInjective(key, PAGE_SIZE, key, 0);
    }
    assert Opened(NEW_WORLD, key).inFlight == multiset{Request(key, 0)};
  }

  /** What an unclean opening leads to, on every folder of more than one page: refreshing it while its
      second page is in flight leaves page 0 empty behind a frontier that has moved on (or is gone). */
  lemma StaleAnswerLeavesHole(server: string -> seq<Entry>, key: string)
    requires |server(key)| > PAGE_SIZE
    ensures var c := Run(server, [Open(key), Arrive(key, 0), Scroll(key), Open(key), Arrive(key, PAGE_SIZE)]).client;
            && |c.entries| == |server(key)| && c.entries[0].None?
            && c.nextOffset == if 2 * PAGE_SIZE < |server(key)| then Some(2 * PAGE_SIZE) else None
  {
    hide Run, Arrived;
    RunOfFive(server, Open(key), Arrive(key, 0), Scroll(key), Open(key), Arrive(key, PAGE_SIZE));
    FirstPageOf(server, key);
    var w := Opened(Scrolled(OpenAndReceive(server, NEW_WORLD, key), key), key);
    assert w.inFlight == multiset{Request(key, PAGE_SIZE), Request(key, 0)};
    SecondPageFirst(server, w, key);
  }

  /** What a harmful call with old arguments leads to, on every such folder: a scroll handled between a
      refresh and its render has the same effect, and once page 0 has come too, paging stalls for good. */
  lemma StaleLoadLeavesHole(server: string -> seq<Entry>, key: string)
    requires |server(key)| > PAGE_SIZE
    ensures var w := Run(server, [Open(key), Arrive(key, 0), Open(key), StaleLoad(key, PAGE_SIZE),
                                  Arrive(key, PAGE_SIZE)]);
            var late := Arrived(server, w, key, 0);
            && |w.client.entries| == |server(key)| && w.client.entries[0].None?
            && late.client.nextOffset == Some(PAGE_SIZE) && late.inFlight == multiset{} && Scrolled(late, key) == late
  {
    hide Run, Arrived;
    RunOfFive(server, Open(key), Arrive(key, 0), Open(key), StaleLoad(key, PAGE_SIZE), Arrive(key, PAGE_SIZE));
    FirstPageOf(server, key);
    var w := Ask(Opened(OpenAndReceive(server, NEW_WORLD, key), key), key, PAGE_SIZE);
    assert w.inFlight == multiset{Request(key, PAGE_SIZE), Request(key, 0)};
    SecondPageFirst(server, w, key);
  }

  /** What the failure of page 0 leads to, on every folder: nothing is shown or in flight, and no scroll asks
      for anything; only opening the folder again does. */
  lemma FailedFirstPageStalls(server: string -> seq<Entry>, key: string)
    ensures var w := Run(server, [Open(key), Break(key, 0)]);
            && w.client.failed && w.client.entries == [] && w.inFlight == multiset{} && !Answered(w) && !Moves(w)
            && (forall k :: Scrolled(w, k) == w)
            && Moves(Opened(w, key))
  {
    var asked := Opened(NEW_WORLD, key);
    assert [Open(key), Break(key, 0)][..1] == [Open(key)] && [Open(key)][..0] == [];
    assert Run(server, [Open(key)]) == asked;
    assert asked.inFlight == multiset{Request(key, 0)};
    OpenMoves(Broken(asked, key, 0), key);
  }

  /** The load-more flag is up although nothing that would clear it is in flight. */
  predicate FlagSticks(w: World) {
    w.client.loadingMore && NoneInFlight(w, w.client.activeKey)
  }

  /** A scroll for a folder that is not active (handled between rendering a new folder and resetting for
      it) leaves a flag that its own settlement, answer or error, does not clear, exactly when it leads to
      a request. */
  lemma ForeignScrollSticksExactly(server: string -> seq<Entry>, w: World, key: string)
    requires Orderly(server, w) && FlagsTellTruth(w) && key != w.client.activeKey
    ensures var asked, offset := Scrolled(w, key), Frontier(w.client);
            var sends := MayLoadMore(w.client) && Requestable(w.client, key, offset);
            && (FlagSticks(Arrived(server, asked, key, offset)) <==> sends)
            && (FlagSticks(Broken(asked, key, offset)) <==> sends)
  {
    var k, asked, r0 := w.client.activeKey, Scrolled(w, key), Request(key, Frontier(w.client));
    assert forall r: Request :: r.key == k ==> (r in asked.inFlight <==> r in w.inFlight);
    assert forall r: Request :: r.key == k ==> (r in asked.inFlight - multiset{r0} <==> r in w.inFlight);
    assert MayLoadMore(w.client) ==> NoneInFlight(w, k);
  }

  // ---------------------------------------------------------------- the folder on the screen

  /** The displayed folder; `pending` while the effect that opens it has not run since it was committed. */
  datatype Screen = Screen(world: World, shown: string, pending: bool)

  datatype ScreenEvent =
    | Commit(key: string)      // a render displays the folder
    | Effect                   // its effect opens what is displayed
    | Refresh(key: string)     // `refreshCurrentDirectory` as a render that displayed the folder made it
    | Load(key: string, offset: nat)
    | Settle(key: string, offset: nat, answered: bool)

  /** The app mounts with a folder displayed and its effect to run. */
  function Mounted(shown: string): Screen {
    Screen(NEW_WORLD, shown, true)
  }

  function ScreenStep(server: string -> seq<Entry>, s: Screen, e: ScreenEvent): Screen {
    match e
    case Commit(key) => s.(shown := key, pending := s.pending || key != s.shown)
    case Effect => if s.pending then s.(world := Step(server, s.world, Open(s.shown)), pending := false) else s
    case Refresh(key) => s.(world := Step(server, s.world, Open(key)))
    case Load(key, offset) => s.(world := Step(server, s.world, StaleLoad(key, offset)))
    case Settle(key, offset, answered) =>
      s.(world := Step(server, s.world, if answered then Arrive(key, offset) else Break(key, offset)))
  }

  function ScreenRun(server: string -> seq<Entry>, shown: string, events: seq<ScreenEvent>): Screen {
    if events == [] then Mounted(shown)
    else ScreenStep(server, ScreenRun(server, shown, events[..|events| - 1]), events[|events| - 1])
  }

  /** Once its effect has run, the displayed folder is the one that is listed. */
  predicate ListsWhatItShows(s: Screen) {
    s.pending || s.world.client.activeKey == s.shown
  }

  /** The other events reach the client as they are. */
  lemma EventsReachClient(server: string -> seq<Entry>, s: Screen, key: string, offset: nat)
    ensures ScreenStep(server, s, Refresh(key)) == s.(world := Opened(s.world, key))
    ensures ScreenStep(server, s, Load(key, offset)) == s.(world := Ask(s.world, key, offset))
    ensures ScreenStep(server, s, Settle(key, offset, true)) == s.(world := Arrived(server, s.world, key, offset))
    ensures ScreenStep(server, s, Settle(key, offset, false)) == s.(world := Broken(s.world, key, offset))
  {
    hide Opened, Ask, Arrived, Broken;
  }

  /** A render of the displayed folder changes nothing; of another one, it displays that and its effect opens it. */
  lemma CommitAndEffect(server: string -> seq<Entry>, s: Screen, key: string)
    ensures ScreenStep(server, s, Commit(s.shown)) == s
    ensures key != s.shown ==>
      && ScreenStep(server, s, Commit(key)) == s.(shown := key, pending := true)
      && ScreenStep(server, ScreenStep(server, s, Commit(key)), Effect) == Screen(Opened(s.world, key), key, false)
  {
    hide Opened;
  }

  ghost predicate ListsThroughout(server: string -> seq<Entry>, shown: string, events: seq<ScreenEvent>) {
    && ListsWhatItShows(ScreenRun(server, shown, events))
    && (events == [] || ListsThroughout(server, shown, events[..|events| - 1]))
  }

  /** A refresh is for the displayed folder, or comes before the effect that opens it. */
  ghost predicate RefreshesCurrent(server: string -> seq<Entry>, shown: string, events: seq<ScreenEvent>) {
    || events == []
    || (var e, before := events[|events| - 1], ScreenRun(server, shown, events[..|events| - 1]);
        && RefreshesCurrent(server, shown, events[..|events| - 1])
        && (e.Refresh? ==> before.pending || e.key == before.shown))
  }

  lemma StepKeepsFolder(server: string -> seq<Entry>, w: World, e: ScreenEvent)
    ensures e.Load? ==> Step(server, w, StaleLoad(e.key, e.offset)).client.activeKey == w.client.activeKey
    ensures e.Settle? ==> Step(server, w, Arrive(e.key, e.offset)).client.activeKey == w.client.activeKey
    ensures e.Settle? ==> Step(server, w, Break(e.key, e.offset)).client.activeKey == w.client.activeKey
    ensures forall key :: Step(server, w, Open(key)).client.activeKey == key
  {
  }

  /** The screen lists the folder it displays, throughout a run, exactly when no refresh comes from a folder
      that has been left. */
  lemma {:induction false} ListsWhatItShowsExactly(
    server: string -> seq<Entry>, shown: string, events: seq<ScreenEvent>)
    ensures ListsThroughout(server, shown, events) <==> RefreshesCurrent(server, shown, events)
  {
    if events != [] {
      hide Ask, Arrived, Broken;
      ListsWhatItShowsExactly(server, shown, events[..|events| - 1]);
      StepKeepsFolder(server, ScreenRun(server, shown, events[..|events| - 1]).world, events[|events| - 1]);
    }
  }

  /** With such refreshes, whatever is displayed once the effect has run is the displayed folder's. */
  lemma {:induction false} ScreenAgrees(server: string -> seq<Entry>, shown: string, events: seq<ScreenEvent>)
    ensures var s := ScreenRun(server, shown, events);
            && Agrees(server, s.world.client)
            && (RefreshesCurrent(server, shown, events) && !s.pending ==>
                  Agrees(server, s.world.client.(activeKey := s.shown)))
  {
    ListsWhatItShowsExactly(server, shown, events);
    if events != [] {
      hide Agrees, Step, RefreshesCurrent;
      ScreenAgrees(server, shown, events[..|events| - 1]);
      var w, e := ScreenRun(server, shown, events[..|events| - 1]).world, events[|events| - 1];
      match e
      case Commit(_) =>
      case Effect => StepAgrees(server, w, Open(ScreenRun(server, shown, events[..|events| - 1]).shown));
      case Refresh(key) => StepAgrees(server, w, Open(key));
      case Load(key, offset) => StepAgrees(server, w, StaleLoad(key, offset));
      case Settle(key, offset, answered) =>
        StepAgrees(server, w, Arrive(key, offset));
        StepAgrees(server, w, Break(key, offset));
    }
  }

  /** An upload that settles after the user has left its folder refreshes that folder: whatever happened
      before, the screen then lists the left folder while it displays another one. */
  lemma LateRefreshListsLeftFolder(server: string -> seq<Entry>, s: Screen, left: string)
    requires !s.pending && left != s.shown && NoneInFlight(s.world, left)
    ensures var s' := ScreenStep(server, ScreenStep(server, s, Refresh(left)), Settle(left, 0, true));
            && !ListsWhatItShows(s') && s'.shown == s.shown
            && Holds(server, s'.world, left, PAGE_SIZE)
            && ScreenStep(server, s', Effect) == s'
  {
    OpenLoads(server, s.world, left);
  }
}
