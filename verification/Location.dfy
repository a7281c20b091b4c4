/** The mobile app's location in the address bar: a tab and a folder, written to and read from the query. */
module Location {
  import opened Options
  import opened Text
  import opened Encoding

  // ---------------------------------------------------------------- the query

  datatype Pair = Pair(name: string, value: string)

  function FormPiece(p: Pair): string {
    FormEncode(p.name) + "=" + FormEncode(p.value)
  }

  function FormPieces(pairs: seq<Pair>): seq<string> {
    seq(|pairs|, i requires 0 <= i < |pairs| => FormPiece(pairs[i]))
  }

  function FormSerialize(pairs: seq<Pair>): string {
    Join(FormPieces(pairs), '&')
  }

  /** The part before the first `=` and the part after it. */
  function Cut(piece: string): (string, string) {
    if piece == [] then ([], [])
    else if piece[0] == '=' then ([], piece[1..])
    else
      var (name, value) := Cut(piece[1..]);
      ([piece[0]] + name, value)
  }

  function ParsePieces(pieces: seq<string>): seq<Pair> {
    if pieces == [] then []
    else
      var (name, value) := Cut(pieces[0]);
      (if pieces[0] == [] then [] else [Pair(FormDecode(name), FormDecode(value))]) + ParsePieces(pieces[1..])
  }

  function FormParse(query: string): seq<Pair> {
    ParsePieces(Split(query, '&'))
  }

  lemma {:induction false} CutPiece(name: string, value: string)
    requires '=' !in name
    ensures Cut(name + "=" + value) == (name, value)
  {
    var piece := name + "=" + value;
    if name == [] {
      assert piece[1..] == value;
    } else {
      assert name[0] in name && piece[1..] == name[1..] + "=" + value;
      CutPiece(name[1..], value);
      assert [name[0]] + name[1..] == name;
    }
  }

  lemma PieceRoundTrip(p: Pair)
    ensures FormPiece(p) != [] && '&' !in FormPiece(p) && '#' !in FormPiece(p)
    ensures var (name, value) := Cut(FormPiece(p)); Pair(FormDecode(name), FormDecode(value)) == p
  {
    FormBytes(p.name);
    FormBytes(p.value);
    FormRoundTrip(p.name);
    FormRoundTrip(p.value);
    CutPiece(FormEncode(p.name), FormEncode(p.value));
    hide FormEncode, FormDecode, Cut;
  }

  lemma {:induction false} PiecesRoundTrip(pairs: seq<Pair>)
    ensures ParsePieces(FormPieces(pairs)) == pairs
  {
    if pairs != [] {
      PieceRoundTrip(pairs[0]);
      PiecesRoundTrip(pairs[1..]);
      assert FormPieces(pairs)[1..] == FormPieces(pairs[1..]);
    }
  }

  /** Parsing inverts serialising, for every list of pairs. */
  lemma FormListRoundTrip(pairs: seq<Pair>)
    ensures FormParse(FormSerialize(pairs)) == pairs
  {
    var pieces := FormPieces(pairs);
    if pairs == [] {
      assert Split("", '&') == [""] && ParsePieces([""]) == [];
    } else {
      forall i | 0 <= i < |pieces| ensures '&' !in pieces[i] {
        PieceRoundTrip(pairs[i]);
      }
      SplitJoined(pieces, '&');
      PiecesRoundTrip(pairs);
    }
  }

  // ---------------------------------------------------------------- tabs

  const BUILT_IN_TABS: seq<string> := ["explorer", "search", "transfers", "settings"]
  const PLUGIN_PREFIX: string := "plugin:"

  function BuildPluginTabId(paneId: string): string {
    PLUGIN_PREFIX + paneId
  }

  predicate IsPluginTabId(tab: string) {
    PLUGIN_PREFIX <= tab
  }

  function PaneIdFromTab(tab: string): Option<string> {
    if IsPluginTabId(tab) then Some(tab[|PLUGIN_PREFIX|..]) else None
  }

  lemma PluginTabIds(tab: string, paneId: string)
    ensures PaneIdFromTab(tab) == Some(paneId) <==> tab == BuildPluginTabId(paneId)
  {
    if IsPluginTabId(tab) {
      assert tab == PLUGIN_PREFIX + tab[|PLUGIN_PREFIX|..];
    }
  }

  // ---------------------------------------------------------------- the location

  datatype State = State(tab: string, path: string)

  predicate KnownTab(tab: string) {
    tab in BUILT_IN_TABS || IsPluginTabId(tab)
  }

  function Params(s: State): seq<Pair> {
    (if s.tab != "explorer" then [Pair("tab", s.tab)] else [])
    + (if |s.path| > 0 then [Pair("path", s.path)] else [])
  }

  function BuildUrl(pathname: string, s: State): string {
    var search := FormSerialize(Params(s));
    if |search| > 0 then pathname + "?" + search else pathname
  }

  function Get(pairs: seq<Pair>, name: string): Option<string> {
    if pairs == [] then None
    else if pairs[0].name == name then Some(pairs[0].value)
    else Get(pairs[1..], name)
  }

  function ReadState(search: string): State {
    var query := if search != [] && search[0] == '?' then search[1..] else search;
    var tab, path := Get(FormParse(query), "tab"), Get(FormParse(query), "path");
    State(if tab.Some? && KnownTab(tab.value) then tab.value else "explorer", Strip(path.GetOr(""), IsSpace))
  }

  /** The query part of a URL, with its question mark, without the fragment; empty when there is no query. */
  function SearchOf(url: string): string {
    if url == [] || url[0] == '#' then []
    else if url[0] == '?' then (var q := BeforeFragment(url); if |q| == 1 then [] else q)
    else SearchOf(url[1..])
  }

  function BeforeFragment(s: string): string {
    if s == [] || s[0] == '#' then [] else [s[0]] + BeforeFragment(s[1..])
  }

  lemma {:induction false} NoFragment(s: string)
    requires '#' !in s
    ensures BeforeFragment(s) == s
  {
    if s != [] {
      assert s[0] in s;
      NoFragment(s[1..]);
    }
  }

  lemma {:induction false} SearchBehind(pathname: string, tail: string)
    requires '?' !in pathname && '#' !in pathname
    ensures SearchOf(pathname + tail) == SearchOf(tail)
  {
    if pathname == [] {
      assert pathname + tail == tail;
    } else {
      assert pathname[0] in pathname && (pathname + tail)[1..] == pathname[1..] + tail;
      SearchBehind(pathname[1..], tail);
    }
  }

  lemma {:induction false} CutAtFragment(query: string, fragment: string)
    requires '#' !in query
    ensures BeforeFragment(query + ("#" + fragment)) == query
  {
    if query == [] {
      assert query + ("#" + fragment) == "#" + fragment;
    } else {
      assert query[0] in query && (query + ("#" + fragment))[1..] == query[1..] + ("#" + fragment);
      CutAtFragment(query[1..], fragment);
    }
  }

  /** A fragment is no part of the query, nor does it hold one; and a lone question mark is no query. */
  lemma FragmentIgnored(pathname: string, query: string, fragment: string)
    requires '?' !in pathname && '#' !in pathname && '#' !in query
    ensures SearchOf(pathname + ("#" + fragment)) == ""
    ensures SearchOf(pathname + ("?" + query + ("#" + fragment))) == if query == "" then "" else "?" + query
  {
    SearchBehind(pathname, "#" + fragment);
    SearchBehind(pathname, "?" + query + ("#" + fragment));
    assert '#' !in "?" + query;
    CutAtFragment("?" + query, fragment);
  }

  lemma {:induction false} JoinLacks(pieces: seq<string>, sep: char, c: char)
    requires c != sep && forall i :: 0 <= i < |pieces| ==> c !in pieces[i]
    ensures c !in Join(pieces, sep)
  {
    if |pieces| > 1 {
      JoinLacks(pieces[1..], sep, c);
    }
  }

  lemma SerializedHasNoHash(pairs: seq<Pair>)
    ensures '#' !in FormSerialize(pairs)
  {
    forall i | 0 <= i < |pairs| ensures '#' !in FormPieces(pairs)[i] {
      PieceRoundTrip(pairs[i]);
    }
    hide FormPiece;
    JoinLacks(FormPieces(pairs), '&', '#');
  }

  /** The browser finds the query that was built. */
  lemma SearchOfBuilt(pathname: string, s: State)
    requires '?' !in pathname && '#' !in pathname
    ensures var query := FormSerialize(Params(s));
            SearchOf(BuildUrl(pathname, s)) == if query == "" then "" else "?" + query
  {
    var query := FormSerialize(Params(s));
    SerializedHasNoHash(Params(s));
    hide FormSerialize, Params;
    if query == "" {
      assert pathname + "" == pathname;
      SearchBehind(pathname, "");
    } else {
      assert pathname + "?" + query == pathname + ("?" + query);
      SearchBehind(pathname, "?" + query);
      NoFragment("?" + query);
    }
  }

  lemma GetParams(s: State)
    ensures Get(Params(s), "tab") == if s.tab != "explorer" then Some(s.tab) else None
    ensures Get(Params(s), "path") == if |s.path| > 0 then Some(s.path) else None
  {
    var params := Params(s);
    if s.tab != "explorer" {
      assert params[0] == Pair("tab", s.tab);
      assert params[1..] == if |s.path| > 0 then [Pair("path", s.path)] else [];
    }
  }

  lemma ReadBuilt(pathname: string, s: State)
    requires '?' !in pathname && '#' !in pathname
    ensures ReadState(SearchOf(BuildUrl(pathname, s))) ==
            State(if KnownTab(s.tab) then s.tab else "explorer", Strip(s.path, IsSpace))
  {
    var query := FormSerialize(Params(s));
    SearchOfBuilt(pathname, s);
    FormListRoundTrip(Params(s));
    GetParams(s);
    assert ("?" + query)[1..] == query;
    assert KnownTab("explorer") by { assert "explorer" in BUILT_IN_TABS; }
    hide FormParse, FormSerialize, Params, Get, KnownTab, BuildUrl, SearchOf;
    if s.path == "" {
      StripSlices("", IsSpace);
    }
  }

  /** The four built-in tabs, and any plugin's. */
  lemma KnownTabExactly(tab: string)
    ensures KnownTab(tab) <==>
              || tab == "explorer" || tab == "search" || tab == "transfers" || tab == "settings"
              || exists paneId :: tab == "plugin:" + paneId
  {
    if "plugin:" <= tab {
      assert tab == "plugin:" + tab[7..];
    }
    assert BUILT_IN_TABS == ["explorer", "search", "transfers", "settings"];
  }

  /** Reading the built URL gives the same state exactly for a built-in or plugin tab and a path without edge
      space. */
  lemma RoundTripExactly(pathname: string, s: State)
    requires '?' !in pathname && '#' !in pathname
    ensures ReadState(SearchOf(BuildUrl(pathname, s))) == s <==>
              && (|| s.tab in ["explorer", "search", "transfers", "settings"]
                  || exists paneId :: s.tab == "plugin:" + paneId)
              && EdgesKept(s.path, IsSpace)
  {
    ReadBuilt(pathname, s);
    StripSlices(s.path, IsSpace);
    KnownTabExactly(s.tab);
    hide KnownTab;
  }

  lemma NamesStay()
    ensures FormEncode("tab") == "tab" && FormEncode("path") == "path"
  {
    assert "tab"[1..] == "ab" && "ab"[1..] == "b" && "b"[1..] == "";
    assert "path"[1..] == "ath" && "ath"[1..] == "th" && "th"[1..] == "h" && "h"[1..] == "";
  }

  /** The URL that is built: `tab` unless it is the explorer, then `path` unless it is empty, form-encoded. */
  lemma UrlText(pathname: string, s: State)
    ensures BuildUrl(pathname, s) ==
              if s.tab == "explorer" && s.path == "" then pathname
              else if s.tab == "explorer" then pathname + "?" + ("path=" + FormEncode(s.path))
              else if s.path == "" then pathname + "?" + ("tab=" + FormEncode(s.tab))
              else pathname + "?" + ("tab=" + FormEncode(s.tab) + "&" + ("path=" + FormEncode(s.path)))
  {
    NamesStay();
    hide FormEncode;
    var tab, path := Pair("tab", s.tab), Pair("path", s.path);
    assert FormPieces([]) == [] && FormPieces([tab]) == [FormPiece(tab)] && FormPieces([path]) == [FormPiece(path)];
    assert FormPieces([tab, path]) == [FormPiece(tab), FormPiece(path)];
    assert [FormPiece(tab), FormPiece(path)][1..] == [FormPiece(path)];
    assert FormPiece(tab) == "tab=" + FormEncode(s.tab) && FormPiece(path) == "path=" + FormEncode(s.path);
    hide FormPieces, FormPiece;
    assert [] + [path] == [path] && [tab] + [] == [tab] && [tab] + [path] == [tab, path];
    assert Join([FormPiece(tab), FormPiece(path)], '&') == FormPiece(tab) + "&" + FormPiece(path);
  }

  /** What is read: the path trimmed, and the explorer for a tab that is missing or unknown. */
  lemma ReadsOtherTabs(pathname: string, s: State)
    requires '?' !in pathname && '#' !in pathname
    ensures ReadState("") == State("explorer", "")
    ensures !KnownTab(s.tab) ==>
              ReadState(SearchOf(BuildUrl(pathname, s))) == State("explorer", Strip(s.path, IsSpace))
  {
    ReadBuilt(pathname, s);
    assert FormParse("") == [] by { FormListRoundTrip([]); }
    StripSlices("", IsSpace);
  }

  /** Whatever is in the address bar, what is read from it survives being written back. */
  lemma RewritingIsFaithful(pathname: string, search: string)
    requires '?' !in pathname && '#' !in pathname
    ensures ReadState(SearchOf(BuildUrl(pathname, ReadState(search)))) == ReadState(search)
  {
    var s := ReadState(search);
    var query := if search != [] && search[0] == '?' then search[1..] else search;
    StripSlices(Get(FormParse(query), "path").GetOr(""), IsSpace);
    assert "explorer" in BUILT_IN_TABS;
    KnownTabExactly(s.tab);
    RoundTripExactly(pathname, s);
  }
}
