/**
 * `getBestSinglePlayerTab`: the one tab that stands for "the" player when a
 * command must go to a single tab.
 */
module Selector {
  import opened Common
  import opened Tabs

  /** Reports less than this many milliseconds older than the newest count as equally current. */
  const WINDOW_MS := 200

  /**
   * The order `_.sortBy(tabs, ["active", getTabUpdateTime])` sorts by:
   * inactive before active, then earlier report before later report.
   */
  predicate KeyLe(states: TabStates, a: Tab, b: Tab) {
    (!a.active && b.active)
    || (a.active == b.active && GetTabUpdateTime(states, a) <= GetTabUpdateTime(states, b))
  }

  /** `_.max` of the tabs' update times. */
  function MaxUpdateTime(states: TabStates, tabs: seq<Tab>): (m: int)
    requires |tabs| > 0
    ensures forall t :: t in tabs ==> GetTabUpdateTime(states, t) <= m
    ensures exists t :: t in tabs && GetTabUpdateTime(states, t) == m
  {
    if |tabs| == 1 then GetTabUpdateTime(states, tabs[0])
    else
      var rest := MaxUpdateTime(states, tabs[1..]);
      assert forall t :: t in tabs[1..] ==> t in tabs;
      if GetTabUpdateTime(states, tabs[0]) >= rest then GetTabUpdateTime(states, tabs[0]) else rest
  }

  /** True of a tab whose report is within the window of the newest report among `tabs`. */
  predicate InWindow(states: TabStates, tabs: seq<Tab>, t: Tab)
    requires |tabs| > 0
  {
    MaxUpdateTime(states, tabs) - GetTabUpdateTime(states, t) < WINDOW_MS
  }

  /** The tabs kept by the first step of the selector, in their original order. */
  function Window(states: TabStates, tabs: seq<Tab>): (w: seq<Tab>)
    ensures |tabs| > 0 ==> |w| > 0
    ensures |tabs| > 0 ==> forall t :: t in w <==> t in tabs && InWindow(states, tabs, t)
    ensures tabs == [] ==> w == []
  {
    if tabs == [] then []
    else
      var max := MaxUpdateTime(states, tabs);
      var w := Filter(tabs, t => max - GetTabUpdateTime(states, t) < WINDOW_MS);
      assert exists t :: t in tabs && GetTabUpdateTime(states, t) == max;
      w
  }

  ghost predicate Sorted(states: TabStates, s: seq<Tab>) {
    forall i, j :: 0 <= i < j < |s| ==> KeyLe(states, s[i], s[j])
  }

  /** Places `x` after every element of the sorted `s` whose key is not above its own. */
  function Insert(states: TabStates, x: Tab, s: seq<Tab>): (r: seq<Tab>)
    ensures multiset(r) == multiset(s) + multiset{x}
    ensures |r| == |s| + 1
  {
    if s == [] then [x]
    else if !KeyLe(states, s[0], x) then [x] + s
    else
      assert s == [s[0]] + s[1..];
      [s[0]] + Insert(states, x, s[1..])
  }

  /** A stable ascending sort by `KeyLe`, built by inserting the elements left to right. */
  function SortByKey(states: TabStates, s: seq<Tab>): (r: seq<Tab>)
    ensures multiset(r) == multiset(s)
    ensures |r| == |s|
    ensures Sorted(states, r)
  {
    if s == [] then []
    else
      var prefix := s[..|s| - 1];
      assert s == prefix + [s[|s| - 1]];
      InsertSorted(states, s[|s| - 1], SortByKey(states, prefix));
      Insert(states, s[|s| - 1], SortByKey(states, prefix))
  }

  lemma {:induction false} InsertSorted(states: TabStates, x: Tab, s: seq<Tab>)
    requires Sorted(states, s)
    ensures Sorted(states, Insert(states, x, s))
  {
    if s != [] && KeyLe(states, s[0], x) {
      var tail := Insert(states, x, s[1..]);
      InsertSorted(states, x, s[1..]);
      forall y | y in tail ensures KeyLe(states, s[0], y) {
        assert y in multiset(tail);
        assert y == x || y in multiset(s[1..]);
        if y != x {
          var j :| 0 <= j < |s[1..]| && s[1..][j] == y;
          assert s[j + 1] == y;
        }
      }
      var r := [s[0]] + tail;
      forall i, j | 0 <= i < j < |r| ensures KeyLe(states, r[i], r[j]) {
        if i == 0 {
          assert r[j] == tail[j - 1];
          assert r[j] in tail;
        } else {
          assert r[i] == tail[i - 1] && r[j] == tail[j - 1];
        }
      }
    }
  }

  /** Inserting into a sorted sequence changes its last element only if `x` ranks at least as high. */
  lemma {:induction false} LastOfInsert(states: TabStates, x: Tab, s: seq<Tab>)
    requires Sorted(states, s)
    ensures var r := Insert(states, x, s);
            r[|r| - 1] == if s == [] || KeyLe(states, s[|s| - 1], x) then x else s[|s| - 1]
  {
    if s != [] {
      if !KeyLe(states, s[0], x) {
        if |s| > 1 {
          assert KeyLe(states, s[0], s[|s| - 1]);
        }
      } else if |s| > 1 {
        assert Sorted(states, s[1..]) by {
          forall i, j | 0 <= i < j < |s[1..]| ensures KeyLe(states, s[1..][i], s[1..][j]) {
            assert s[1..][i] == s[i + 1] && s[1..][j] == s[j + 1];
          }
        }
        LastOfInsert(states, x, s[1..]);
      }
    }
  }

  /** The top of a key order with ties resolved in favour of the later position. */
  ghost predicate IsLastMaximal(states: TabStates, w: seq<Tab>, i: int) {
    && 0 <= i < |w|
    && (forall j :: 0 <= j < |w| ==> KeyLe(states, w[j], w[i]))
    && (forall j :: i < j < |w| ==> !KeyLe(states, w[i], w[j]))
  }

  /**
   * The last element of the stable sort is the element of highest key,
   * and among those of highest key the one that comes last in the input.
   */
  lemma {:induction false} LastOfSort(states: TabStates, w: seq<Tab>) returns (i: int)
    requires |w| > 0
    ensures IsLastMaximal(states, w, i)
    ensures SortByKey(states, w)[|w| - 1] == w[i]
  {
    var n := |w| - 1;
    var prefix, x := w[..n], w[n];
    assert w == prefix + [x];
    if prefix == [] {
      SortByKeyLast(states, w);
      i := 0;
    } else {
      var k := LastOfSort(states, prefix);
      i := SortStep(states, prefix, x, k);
    }
  }

  /** One more element at the end: its sort's last element is the new top. */
  lemma SortStep(states: TabStates, prefix: seq<Tab>, x: Tab, k: int) returns (i: int)
    requires IsLastMaximal(states, prefix, k)
    requires SortByKey(states, prefix)[|prefix| - 1] == prefix[k]
    ensures IsLastMaximal(states, prefix + [x], i)
    ensures SortByKey(states, prefix + [x])[|prefix|] == (prefix + [x])[i]
  {
    var w := prefix + [x];
    assert w[..|prefix|] == prefix && w[|prefix|] == x;
    SortByKeyLast(states, w);
    LastOfInsert(states, x, SortByKey(states, prefix));
    i := ExtendMaximal(states, prefix, x, k);
  }

  /** The sort of a non-empty sequence inserts its last element into the sort of the rest. */
  lemma SortByKeyLast(states: TabStates, w: seq<Tab>)
    requires |w| > 0
    ensures SortByKey(states, w) == Insert(states, w[|w| - 1], SortByKey(states, w[..|w| - 1]))
  {
  }

  /** Appending one element to a sequence whose top is at `k` moves the top to the new element iff it ranks at least as high. */
  lemma ExtendMaximal(states: TabStates, prefix: seq<Tab>, x: Tab, k: int) returns (i: int)
    requires IsLastMaximal(states, prefix, k)
    ensures IsLastMaximal(states, prefix + [x], i)
    ensures i == if KeyLe(states, prefix[k], x) then |prefix| else k
  {
    var w := prefix + [x];
    var n := |prefix|;
    if KeyLe(states, prefix[k], x) {
      i := n;
      forall j | 0 <= j < |w| ensures KeyLe(states, w[j], w[i]) {
        if j < n {
          assert w[j] == prefix[j];
          assert KeyLe(states, prefix[j], prefix[k]);
        }
      }
    } else {
      i := k;
      forall j | 0 <= j < |w| ensures KeyLe(states, w[j], w[i]) {
        if j < n {
          assert w[j] == prefix[j];
        }
      }
      forall j | i < j < |w| ensures !KeyLe(states, w[i], w[j]) {
        if j < n {
          assert w[j] == prefix[j];
        }
      }
    }
  }

  /**
   * `getBestSinglePlayerTab`: keep the tabs within 200 ms of the newest report,
   * sort them stably by (active, update time) and take the last one. `None` is
   * lodash's `undefined` for an empty list.
   */
  function GetBestSinglePlayerTab(states: TabStates, tabs: seq<Tab>): (r: Option<Tab>)
    ensures r.Some? <==> |tabs| > 0
    ensures r.Some? ==> r.value in tabs && InWindow(states, tabs, r.value)
    ensures r.Some? ==> forall t :: t in tabs && InWindow(states, tabs, t) ==> KeyLe(states, t, r.value)
  {
    var w := Window(states, tabs);
    if w == [] then None
    else
      SortLastIsMaximal(states, w);
      Some(SortByKey(states, w)[|w| - 1])
  }

  lemma SortLastIsMaximal(states: TabStates, w: seq<Tab>)
    requires |w| > 0
    ensures SortByKey(states, w)[|w| - 1] in w
    ensures forall t :: t in w ==> KeyLe(states, t, SortByKey(states, w)[|w| - 1])
  {
    var sorted := SortByKey(states, w);
    SortedLastIsMaximal(states, sorted);
    assert sorted[|w| - 1] in multiset(w);
    forall t | t in w ensures t in sorted {
      assert t in multiset(sorted);
    }
  }

  lemma SortedLastIsMaximal(states: TabStates, s: seq<Tab>)
    requires |s| > 0 && Sorted(states, s)
    ensures forall t :: t in s ==> KeyLe(states, t, s[|s| - 1])
  {
    forall t | t in s ensures KeyLe(states, t, s[|s| - 1]) {
      var j :| 0 <= j < |s| && s[j] == t;
    }
  }
}

/** Properties of the best-tab selector. */
module SelectorProperties {
  import opened Common
  import opened Tabs
  import opened Selector

  /**
   * The selected tab is the top of the window's key order, and every tab that
   * comes after it in the window ranks strictly lower: among equally ranked
   * tabs the last one in the list wins, as a stable sort leaves it.
   */
  lemma BestTabTieBreak(states: TabStates, tabs: seq<Tab>) returns (i: int)
    requires |tabs| > 0
    ensures IsLastMaximal(states, Window(states, tabs), i)
    ensures GetBestSinglePlayerTab(states, tabs) == Some(Window(states, tabs)[i])
  {
    i := LastOfSort(states, Window(states, tabs));
  }

  /** Two tabs reporting within 200 ms of each other: the one active in its window is chosen, in either order. */
  lemma ActiveTabWinsWithinWindow(states: TabStates, a: Tab, b: Tab)
    requires a.active && !b.active
    requires GetTabUpdateTime(states, a) - GetTabUpdateTime(states, b) < WINDOW_MS
    requires GetTabUpdateTime(states, b) - GetTabUpdateTime(states, a) < WINDOW_MS
    ensures GetBestSinglePlayerTab(states, [a, b]) == Some(a)
    ensures GetBestSinglePlayerTab(states, [b, a]) == Some(a)
  {
    var r1 := GetBestSinglePlayerTab(states, [a, b]).value;
    assert InWindow(states, [a, b], a);
    assert KeyLe(states, a, r1);
    var r2 := GetBestSinglePlayerTab(states, [b, a]).value;
    assert InWindow(states, [b, a], a);
    assert KeyLe(states, a, r2);
  }

  /** A tab whose report is 200 ms or more older than another's is never chosen, whatever the focus. */
  lemma StaleTabNeverChosen(states: TabStates, a: Tab, b: Tab)
    requires GetTabUpdateTime(states, a) - GetTabUpdateTime(states, b) >= WINDOW_MS
    ensures GetBestSinglePlayerTab(states, [a, b]) == Some(a)
    ensures GetBestSinglePlayerTab(states, [b, a]) == Some(a)
  {
    assert MaxUpdateTime(states, [a, b]) == GetTabUpdateTime(states, a);
    assert MaxUpdateTime(states, [b, a]) == GetTabUpdateTime(states, a);
  }

  /**
   * A tab that has never reported reads as time 0, so once any candidate has
   * reported at a real clock time (200 ms or later) such a tab is never chosen.
   */
  lemma UnreportedTabNeverChosen(states: TabStates, tabs: seq<Tab>, reported: Tab)
    requires reported in tabs && GetTabUpdateTime(states, reported) >= WINDOW_MS
    ensures GetBestSinglePlayerTab(states, tabs).Some?
    ensures GetBestSinglePlayerTab(states, tabs).value.id in states
  {
    assert MaxUpdateTime(states, tabs) >= GetTabUpdateTime(states, reported);
  }
}
