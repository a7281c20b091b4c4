/** Lists without duplicates, as both apps make them: the first occurrence of each non-empty string. */
module DistinctLists {

  function Grown(items: seq<string>, item: string): seq<string> {
    if item == "" || item in items then items else items + [item]
  }

  /** The first occurrence of each non-empty item, in order. */
  function Firsts(items: seq<string>): seq<string> {
    if items == [] then [] else Grown(Firsts(items[..|items| - 1]), items[|items| - 1])
  }

  ghost predicate AllDistinct(items: seq<string>) {
    forall i, j :: 0 <= i < j < |items| ==> items[i] != items[j]
  }

  lemma {:induction false} FirstsMembers(items: seq<string>)
    ensures forall p :: p in Firsts(items) <==> p in items && p != ""
  {
    if items != [] {
      FirstsMembers(items[..|items| - 1]);
      assert items == items[..|items| - 1] + [items[|items| - 1]];
    }
  }

  lemma {:induction false} FirstsAreDistinct(items: seq<string>)
    ensures AllDistinct(Firsts(items)) && |Firsts(items)| <= |items|
    ensures |Firsts(items)| == |items| ==> Firsts(items) == items
    ensures AllDistinct(items) && "" !in items ==> Firsts(items) == items
  {
    if items != [] {
      var before, last := items[..|items| - 1], items[|items| - 1];
      FirstsAreDistinct(before);
      assert Firsts(items) == Grown(Firsts(before), last);
      hide Firsts;
      assert items == before + [last] && last in items;
    }
  }

  lemma FirstsOfMore(items: seq<string>, item: string)
    ensures Firsts(items + [item]) == Grown(Firsts(items), item)
  {
    assert (items + [item])[..|items|] == items;
  }

  lemma {:induction false} FirstsGrow(items: seq<string>, more: seq<string>)
    ensures Firsts(items) <= Firsts(items + more)
  {
    if more != [] {
      FirstsGrow(items, more[..|more| - 1]);
      assert (items + more)[..|items + more| - 1] == items + more[..|more| - 1];
    } else {
      assert items + more == items;
    }
  }

  lemma FirstsOfKnown(front: seq<string>, items: seq<string>, item: string)
    requires item == "" || item in Firsts(items)
    ensures Firsts(front + items + [item]) == Firsts(front + items)
  {
    FirstsMembers(items);
    FirstsMembers(front + items);
    FirstsOfMore(front + items, item);
  }

  lemma {:induction false} FirstsOfFirsts(front: seq<string>, items: seq<string>)
    ensures Firsts(front + Firsts(items)) == Firsts(front + items)
  {
    if items == [] {
      assert Firsts(items) == items;
    } else {
      var before, last := items[..|items| - 1], items[|items| - 1];
      FirstsOfFirsts(front, before);
      FirstsOfMore(before, last);
      assert items == before + [last];
      assert front + items == front + before + [last];
      hide Firsts;
      if last == "" || last in Firsts(before) {
        FirstsOfKnown(front, before, last);
      } else {
        FirstsOfMore(front + before, last);
        FirstsOfMore(front + Firsts(before), last);
        assert front + Firsts(items) == front + Firsts(before) + [last];
      }
    }
  }

  lemma {:induction false} EmptyItemIsSkipped(items: seq<string>)
    ensures Firsts([""] + items) == Firsts(items)
  {
    if items != [] {
      EmptyItemIsSkipped(items[..|items| - 1]);
      assert ([""] + items)[..|items|] == [""] + items[..|items| - 1];
    }
  }

  lemma {:induction false} DistinctFit(items: seq<string>, others: seq<string>)
    requires AllDistinct(items) && forall p :: p in items ==> p in others
    ensures |items| <= |others|
  {
    if items != [] {
      var last := items[|items| - 1];
      assert last in items;
      var k :| 0 <= k < |others| && others[k] == last;
      var rest := others[..k] + others[k + 1..];
      forall p | p in items[..|items| - 1] ensures p in rest {
        assert p in items;
        var j :| 0 <= j < |others| && others[j] == p;
        assert rest[if j < k then j else j - 1] == p;
      }
      DistinctFit(items[..|items| - 1], rest);
    }
  }

  /** `filter` with an inequality. */
  function Without(items: seq<string>, item: string): seq<string> {
    if items == [] then [] else (if items[0] != item then [items[0]] else []) + Without(items[1..], item)
  }

  lemma {:induction false} WithoutRemoves(items: seq<string>, item: string)
    ensures |Without(items, item)| <= |items|
    ensures forall k :: k in Without(items, item) <==> k in items && k != item
    ensures AllDistinct(items) ==> AllDistinct(Without(items, item))
  {
    if items != [] {
      WithoutRemoves(items[1..], item);
      var rest := Without(items[1..], item);
      assert forall k :: k in items <==> k == items[0] || k in items[1..];
      assert forall j :: 0 <= j < |rest| ==> rest[j] in rest && rest[j] in items[1..];
    }
  }

  lemma {:induction false} WithoutKeeps(items: seq<string>, item: string)
    requires item !in items
    ensures Without(items, item) == items
  {
    if items != [] {
      assert items[0] in items && forall k :: k in items[1..] ==> k in items;
      WithoutKeeps(items[1..], item);
    }
  }

  /** The other items keep their order. */
  lemma {:induction false} WithoutJoined(a: seq<string>, b: seq<string>, item: string)
    ensures Without(a + b, item) == Without(a, item) + Without(b, item)
    ensures Without([item], item) == []
  {
    if a == [] {
      assert a + b == b;
    } else {
      assert (a + b)[1..] == a[1..] + b;
      WithoutJoined(a[1..], b, item);
    }
  }

  lemma HeadRemoved(items: seq<string>)
    requires AllDistinct(items) && items != []
    ensures Without(items, items[0]) == items[1..] && items[0] !in items[1..]
  {
    WithoutKeeps(items[1..], items[0]);
  }
}
