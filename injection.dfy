/**
 * Script injection on page loads. A music tab is injected on every second
 * `loading` update: the first one records the tab in `ignoreTabIds`, the next
 * one takes it out again and injects the media interceptor and the site's patch.
 */
module Injection {
  import opened Common
  import opened Tabs

  const MEDIA_INTERCEPTOR := "js/modules/MediaInterceptor.js"
  const PATCH_DIR := "js/patches/"

  /** `s.indexOf(x)`: the first position of `x`, or -1. */
  function IndexOf(s: seq<TabId>, x: TabId): (i: int)
    ensures i == -1 <==> x !in s
    ensures i != -1 ==> 0 <= i < |s| && s[i] == x && x !in s[..i]
  {
    if s == [] then -1
    else if s[0] == x then 0
    else
      var j := IndexOf(s[1..], x);
      if j == -1 then -1
      else
        assert s[1..][..j] == s[1..j + 1];
        assert s[..j + 1] == [s[0]] + s[1..j + 1];
        j + 1
  }

  /** The files injected into a tab: the media interceptor, then the site's patch if it has one. */
  function InjectedFiles(patch: Option<string>): (files: seq<string>)
    ensures |files| >= 1 && files[0] == MEDIA_INTERCEPTOR
    ensures |files| == 2 <==> Truthy(patch)
    ensures Truthy(patch) ==> files[1] == PATCH_DIR + patch.value
  {
    [MEDIA_INTERCEPTOR] + (if Truthy(patch) then [PATCH_DIR + patch.value] else [])
  }

  /**
   * One `chrome.tabs.onUpdated` event: the new `ignoreTabIds` and the files
   * injected. Only a `loading` update of a music site does anything.
   */
  function LoadStep(ignore: seq<TabId>, tabId: TabId, status: Option<string>, isMusicSite: bool,
                    patch: Option<string>): (seq<TabId>, seq<string>)
  {
    if status == Some("loading") && isMusicSite then
      var i := IndexOf(ignore, tabId);
      if i != -1 then (ignore[..i] + ignore[i + 1..], InjectedFiles(patch))
      else (ignore + [tabId], [])
    else (ignore, [])
  }

  /** No tab id occurs twice. */
  predicate Distinct(s: seq<TabId>) {
    forall i, j :: 0 <= i < j < |s| ==> s[i] != s[j]
  }

  /** The list of tabs whose next load gets the injection, changed in place. */
  class InjectionToggle {
    var ignoreTabIds: seq<TabId>

    constructor ()
      ensures ignoreTabIds == []
    {
      ignoreTabIds := [];
    }

    method OnUpdated(tabId: TabId, status: Option<string>, isMusicSite: bool, patch: Option<string>)
      returns (injected: seq<string>)
      modifies this
      ensures (ignoreTabIds, injected) == LoadStep(old(ignoreTabIds), tabId, status, isMusicSite, patch)
    {
      injected := [];
      if status == Some("loading") && isMusicSite {
        var index := IndexOf(ignoreTabIds, tabId);
        if index != -1 {
          ignoreTabIds := ignoreTabIds[..index] + ignoreTabIds[index + 1..];
          injected := InjectedFiles(patch);
          return;
        }
        ignoreTabIds := ignoreTabIds + [tabId];
      }
    }
  }
}

module InjectionProperties {
  import opened Common
  import opened Tabs
  import opened Injection

  /**
   * A loading update of a music tab flips whether the tab is recorded, injects
   * exactly when it was recorded, and leaves every other tab as it was.
   */
  lemma {:induction false} LoadToggles(ignore: seq<TabId>, tabId: TabId, patch: Option<string>)
    requires Distinct(ignore)
    ensures var r := LoadStep(ignore, tabId, Some("loading"), true, patch);
            && (tabId in r.0 <==> tabId !in ignore)
            && (r.1 == if tabId in ignore then InjectedFiles(patch) else [])
            && (forall other :: other != tabId ==> (other in r.0 <==> other in ignore))
            && Distinct(r.0)
  {
    var i := IndexOf(ignore, tabId);
    if i != -1 {
      var r := ignore[..i] + ignore[i + 1..];
      forall k | 0 <= k < |r|
        ensures r[k] != tabId && r[k] == (if k < i then ignore[k] else ignore[k + 1])
      {
      }
      forall other | other != tabId
        ensures other in r <==> other in ignore
      {
        if other in ignore {
          var k :| 0 <= k < |ignore| && ignore[k] == other;
          assert k != i;
          if k < i {
            assert r[k] == other;
          } else {
            assert r[k - 1] == other;
          }
        }
      }
    } else {
      var r := ignore + [tabId];
      assert r[|ignore|] == tabId;
      forall a, b | 0 <= a < b < |r|
        ensures r[a] != r[b]
      {
        if b == |ignore| {
          assert r[a] == ignore[a];
        }
      }
    }
  }

  /** Irrelevant updates change nothing. */
  lemma OtherUpdatesAreIgnored(ignore: seq<TabId>, tabId: TabId, status: Option<string>, isMusicSite: bool,
                               patch: Option<string>)
    requires status != Some("loading") || !isMusicSite
    ensures LoadStep(ignore, tabId, status, isMusicSite, patch) == (ignore, [])
  {
  }

  /**
   * Two loads of a tab that is not recorded: nothing is injected on the first,
   * the injection happens on the second, and the list is back as it was.
   */
  lemma LoadTwiceInjectsOnce(ignore: seq<TabId>, tabId: TabId, patch: Option<string>)
    requires tabId !in ignore
    ensures var first := LoadStep(ignore, tabId, Some("loading"), true, patch);
            var second := LoadStep(first.0, tabId, Some("loading"), true, patch);
            first.1 == [] && second.1 == InjectedFiles(patch) && second.0 == ignore
  {
    var l := ignore + [tabId];
    assert l[|ignore|] == tabId && l[..|ignore|] == ignore;
    assert IndexOf(l, tabId) == |ignore|;
    assert l[..|ignore|] + l[|ignore| + 1..] == ignore;
  }
}
