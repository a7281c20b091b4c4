/** Relative paths in URLs, and the parent of a path. */
module RelativePath {
  import opened Options
  import opened Text
  import opened Encoding

  function Segments(path: string): seq<string> {
    NonEmpty(Split(path, '/'))
  }

  function EncodeAll(segments: seq<string>): seq<string> {
    seq(|segments|, i requires 0 <= i < |segments| => EncodeComponent(segments[i]))
  }

  function EncodeRelativePath(path: string): string {
    Join(EncodeAll(Segments(path)), '/')
  }

  function BuildFileUrl(path: string): string {
    if EncodeRelativePath(path) == "" then "/files" else "/files/" + EncodeRelativePath(path)
  }

  lemma SegmentsAreClean(path: string)
    ensures forall i :: 0 <= i < |Segments(path)| ==> Segments(path)[i] != [] && '/' !in Segments(path)[i]
  {
    SplitHasNoSep(path, '/');
    forall i | 0 <= i < |Segments(path)| ensures Segments(path)[i] != [] && '/' !in Segments(path)[i] {
      assert Segments(path)[i] in Split(path, '/');
    }
  }

  /** Joining clean segments and taking them apart again. */
  lemma SegmentsOfJoined(segments: seq<string>)
    requires forall i :: 0 <= i < |segments| ==> segments[i] != [] && '/' !in segments[i]
    ensures Segments(Join(segments, '/')) == segments
    ensures segments != [] ==> Split(Join(segments, '/'), '/') == segments
  {
    if segments == [] {
      assert Split("", '/') == [""] && NonEmpty([""]) == [];
    } else {
      SplitJoined(segments, '/');
      NonEmptyKeepsAll(segments);
    }
  }

  /** The encoded path taken apart on `/` and percent-decoded gives exactly the path's segments. */
  lemma EncodedPathDecodes(path: string)
    ensures var segments, encoded := Segments(path), EncodeRelativePath(path);
            && |Segments(encoded)| == |segments|
            && (forall i :: 0 <= i < |segments| ==> DecodeComponent(Segments(encoded)[i]) == Some(segments[i]))
            && (segments != [] ==> Split(encoded, '/') == Segments(encoded))
            && (encoded == "" <==> segments == [])
  {
    var segments, pieces := Segments(path), EncodeAll(Segments(path));
    SegmentsAreClean(path);
    forall i | 0 <= i < |segments|
      ensures pieces[i] != [] && '/' !in pieces[i] && DecodeComponent(pieces[i]) == Some(segments[i])
    {
      ComponentBytes(segments[i]);
      ComponentRoundTrip(segments[i]);
    }
    SegmentsOfJoined(pieces);
    if segments != [] {
      assert Split("", '/') == [[]] + [];
      assert Join(pieces, '/') == "" ==> pieces == [[]];
    }
  }

  /** Two paths share a file URL exactly when they have the same segments. */
  lemma FileUrlIdentifiesSegments(p: string, q: string)
    ensures BuildFileUrl(p) == BuildFileUrl(q) <==> Segments(p) == Segments(q)
  {
    EncodedPathDecodes(p);
    EncodedPathDecodes(q);
    var a, b := EncodeRelativePath(p), EncodeRelativePath(q);
    if BuildFileUrl(p) == BuildFileUrl(q) {
      if a != "" && b != "" {
        assert ("/files/" + a)[7..] == a && ("/files/" + b)[7..] == b;
      }
      assert a == b;
      forall i | 0 <= i < |Segments(p)| ensures Segments(p)[i] == Segments(q)[i] {
        assert DecodeComponent(Segments(a)[i]) == Some(Segments(p)[i]);
      }
    }
  }

  /** File URLs, as text: the escaped segments behind `/files`, with single slashes between them. */
  lemma FileUrlText(path: string)
    ensures var segments := Segments(path);
            && (segments == [] ==> BuildFileUrl(path) == "/files")
            && (segments != [] ==> BuildFileUrl(path) == "/files/" + Join(EncodeAll(segments), '/'))
            && |EncodeAll(segments)| == |segments|
            && forall i :: 0 <= i < |segments| ==> EncodeAll(segments)[i] == EncodeComponent(segments[i])
  {
    EncodedPathDecodes(path);
  }

  // ---------------------------------------------------------------- going up

  function BuildParentPath(path: string): string {
    var segments := Segments(path);
    if |segments| <= 1 then "" else Join(segments[..|segments| - 1], '/')
  }

  lemma ParentDropsLastSegment(path: string)
    ensures var segments := Segments(path);
            Segments(BuildParentPath(path)) == if segments == [] then [] else segments[..|segments| - 1]
  {
    var segments := Segments(path);
    SegmentsAreClean(path);
    SegmentsOfJoined(if segments == [] then [] else segments[..|segments| - 1]);
    SegmentsOfJoined([]);
  }

  function Ancestor(path: string, steps: nat): string {
    if steps == 0 then path else BuildParentPath(Ancestor(path, steps - 1))
  }

  lemma ParentOfRootSegments(path: string)
    ensures Segments(BuildParentPath(path)) == [] ==> BuildParentPath(path) == ""
  {
    ParentDropsLastSegment(path);
  }

  /** The segments without the last `steps`, or none. */
  function Upper(segments: seq<string>, steps: nat): seq<string> {
    segments[..if steps <= |segments| then |segments| - steps else 0]
  }

  lemma OneMoreUp(segments: seq<string>, steps: nat)
    ensures var upper := Upper(segments, steps);
            Upper(segments, steps + 1) == if upper == [] then [] else upper[..|upper| - 1]
  {
  }

  lemma {:induction false} AncestorSegments(path: string, steps: nat)
    ensures Segments(Ancestor(path, steps)) == Upper(Segments(path), steps)
    ensures steps > 0 && Segments(Ancestor(path, steps)) == [] ==> Ancestor(path, steps) == ""
  {
    if steps > 0 {
      hide Segments, BuildParentPath, Upper;
      AncestorSegments(path, steps - 1);
      ParentDropsLastSegment(Ancestor(path, steps - 1));
      ParentOfRootSegments(Ancestor(path, steps - 1));
      OneMoreUp(Segments(path), steps - 1);
    } else {
      hide Segments;
    }
  }

  /** From a non-empty path the root is reached after exactly max(1, number of segments) steps. */
  lemma RootReachedExactly(path: string, steps: nat)
    requires path != ""
    ensures Ancestor(path, steps) == "" <==> steps >= 1 && steps >= |Segments(path)|
  {
    AncestorSegments(path, steps);
    SegmentsOfJoined([]);
  }
}
