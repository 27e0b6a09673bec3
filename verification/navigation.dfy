/** The navigation bar (src/custom-components/Navbar.tsx) and the tab strip
    (src/custom-components/AnimatedTabs.tsx): both classify the current path
    into a tab id with the same rules and highlight the entry whose id is that
    tab. */
module Navigation {

  /** A prefix fixes the characters it covers. */
  lemma PrefixCharacter(prefix: string, s: string, k: int)
    requires prefix <= s && 0 <= k < |prefix|
    ensures s[k] == prefix[k]
  {
    assert s[..|prefix|] == prefix;
    assert s[..|prefix|][k] == s[k];
  }

  /** No path starts with both "/dashboard" and "/settings", nor with either
      and is the root or "/home". */
  lemma PrefixesExclusive(path: string)
    ensures !("/dashboard" <= path && "/settings" <= path)
    ensures "/dashboard" <= path || "/settings" <= path ==> path != "/" && path != "/home"
  {
    if "/dashboard" <= path {
      PrefixCharacter("/dashboard", path, 1);
    }
    if "/settings" <= path {
      PrefixCharacter("/settings", path, 1);
    }
  }

  /** `getActiveTab`, written out identically in both components: the root
      and "/home" exactly are home, anything starting "/dashboard" or
      "/settings" is that tab, anything else no tab. */
  function ActiveTab(path: string): (tab: string)
    ensures tab in {"home", "dashboard", "settings", ""}
    ensures tab == "home" <==> path == "/" || path == "/home"
    ensures tab == "dashboard" <==> "/dashboard" <= path
    ensures tab == "settings" <==> "/settings" <= path
  {
    PrefixesExclusive(path);
    if path == "/" || path == "/home" then "home"
    else if "/dashboard" <= path then "dashboard"
    else if "/settings" <= path then "settings"
    else ""
  }

  /** A tab of the strip: its id, its label and its target. The icon is left out. */
  datatype Tab = Tab(id: string, name: string, to: string)

  /** The tabs the strip shows when it is given none. */
  const DefaultTabs: seq<Tab> := [
    Tab("home", "Home", "/"),
    Tab("dashboard", "Dashboard", "/dashboard"),
    Tab("settings", "Settings", "/settings")
  ]

  /** A navigation link, or the strip's bubble, is shown on the entry whose id
      is the active tab. */
  predicate IsHighlighted(id: string, path: string) {
    id == ActiveTab(path)
  }

  /** The default tabs have distinct ids, and each one's target path is
      classified as that tab, so following a tab highlights it. */
  lemma DefaultTabsLeadToThemselves()
    ensures forall i, j :: 0 <= i < j < |DefaultTabs| ==> DefaultTabs[i].id != DefaultTabs[j].id
    ensures forall i :: 0 <= i < |DefaultTabs| ==> IsHighlighted(DefaultTabs[i].id, DefaultTabs[i].to)
  {
    assert ActiveTab("/dashboard") == "dashboard";
    assert ActiveTab("/settings") == "settings";
  }

  /** On any path at most one default tab carries the bubble, and one does
      exactly when the path is classified; that tab is the one whose target
      the path is classified like. */
  lemma AtMostOneTabHighlighted(path: string)
    ensures forall i, j ::
              (0 <= i < |DefaultTabs| && 0 <= j < |DefaultTabs| &&
               IsHighlighted(DefaultTabs[i].id, path) && IsHighlighted(DefaultTabs[j].id, path)) ==> i == j
    ensures (exists i :: 0 <= i < |DefaultTabs| && IsHighlighted(DefaultTabs[i].id, path)) <==> ActiveTab(path) != ""
    ensures forall i :: 0 <= i < |DefaultTabs| && IsHighlighted(DefaultTabs[i].id, path) ==>
              ActiveTab(DefaultTabs[i].to) == ActiveTab(path)
  {
    DefaultTabsLeadToThemselves();
    var tab := ActiveTab(path);
    if tab == "home" {
      assert IsHighlighted(DefaultTabs[0].id, path);
    } else if tab == "dashboard" {
      assert IsHighlighted(DefaultTabs[1].id, path);
    } else if tab == "settings" {
      assert IsHighlighted(DefaultTabs[2].id, path);
    }
  }

  /** The classification on the edges of its rules: "/home" matches only
      exactly, the other two tabs by prefix alone, and a student's profile
      page highlights nothing. */
  lemma ClassificationExamples()
    ensures ActiveTab("/homepage") == ""
    ensures ActiveTab("/dashboardX") == "dashboard"
    ensures ActiveTab("/settings/cron") == "settings"
    ensures ActiveTab("/student/1") == ""
    ensures forall i :: 0 <= i < |DefaultTabs| ==> !IsHighlighted(DefaultTabs[i].id, "/student/1")
  {
    PrefixesExclusive("/homepage");
    PrefixesExclusive("/student/1");
    if "/dashboard" <= "/homepage" { PrefixCharacter("/dashboard", "/homepage", 1); }
    if "/settings" <= "/homepage" { PrefixCharacter("/settings", "/homepage", 1); }
    if "/dashboard" <= "/student/1" { PrefixCharacter("/dashboard", "/student/1", 2); }
    if "/settings" <= "/student/1" { PrefixCharacter("/settings", "/student/1", 2); }
    assert "/dashboard" <= "/dashboardX";
    assert "/settings" <= "/settings/cron";
  }
}
