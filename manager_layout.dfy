/** The manager layout's navigation: the table from sidebar tab to URL segment, the tab a path
    selects, and the path a tab change navigates to. */
module ManagerLayout {
  import opened Strings

  const PREFIX: string := "/manager/"

  /** `tabToPath`. */
  const TAB_TO_PATH: map<string, string> := map[
    "dashboard" := "inicio", "tasks" := "tareas", "projects" := "proyectos", "teams" := "equipos",
    "comments" := "comentarios", "history" := "historial", "reports" := "reportes"]

  /** `pathToTab`: an empty path and any path outside the seven sections select the dashboard;
      otherwise the first section whose path the path starts with. */
  function PathToTab(p: string): (r: string)
    ensures r in TAB_TO_PATH
    ensures p == "" ==> r == "dashboard"
  {
    if p == "" then "dashboard"
    else if StartsWith(p, "/manager/inicio") then "dashboard"
    else if StartsWith(p, "/manager/tareas") then "tasks"
    else if StartsWith(p, "/manager/proyectos") then "projects"
    else if StartsWith(p, "/manager/equipos") then "teams"
    else if StartsWith(p, "/manager/comentarios") then "comments"
    else if StartsWith(p, "/manager/historial") then "history"
    else if StartsWith(p, "/manager/reportes") then "reports"
    else "dashboard"
  }

  /** A path that starts with `a` does not start with a `b` that differs from `a` at `k`. */
  lemma DiffersAt(p: string, a: string, b: string, k: nat)
    requires StartsWith(p, a) && k < |a| && k < |b| && a[k] != b[k]
    ensures !StartsWith(p, b)
  {
    assert p[k] == a[k];
    if |b| <= |p| {
      assert p[..|b|][k] != b[k];
    }
  }

  /** The section paths, in the order `pathToTab` tries them. */
  const SECTIONS: seq<string> := [
    "/manager/inicio", "/manager/tareas", "/manager/proyectos", "/manager/equipos",
    "/manager/comentarios", "/manager/historial", "/manager/reportes"]

  /** Each section path is `PREFIX` followed by the segment of its tab. */
  lemma SectionsAreTablePaths()
    ensures SECTIONS[0] == PREFIX + TAB_TO_PATH["dashboard"]
    ensures SECTIONS[1] == PREFIX + TAB_TO_PATH["tasks"]
    ensures SECTIONS[2] == PREFIX + TAB_TO_PATH["projects"]
    ensures SECTIONS[3] == PREFIX + TAB_TO_PATH["teams"]
    ensures SECTIONS[4] == PREFIX + TAB_TO_PATH["comments"]
    ensures SECTIONS[5] == PREFIX + TAB_TO_PATH["history"]
    ensures SECTIONS[6] == PREFIX + TAB_TO_PATH["reports"]
  {
  }

  /** A path below section `i` starts with no earlier section, since the segments begin with
      different letters. */
  lemma OnlyThatSection(p: string, i: nat)
    requires i < |SECTIONS| && StartsWith(p, SECTIONS[i])
    ensures forall j :: 0 <= j < |SECTIONS| && j != i ==> !StartsWith(p, SECTIONS[j])
  {
    forall j | 0 <= j < |SECTIONS| && j != i ensures !StartsWith(p, SECTIONS[j]) {
      assert SECTIONS[i][9] != SECTIONS[j][9];
      DiffersAt(p, SECTIONS[i], SECTIONS[j], 9);
    }
  }

  /** A path below a section's path selects that section's tab. */
  lemma PrefixSelectsTab(p: string, tab: string)
    requires tab in TAB_TO_PATH
    requires StartsWith(p, PREFIX + TAB_TO_PATH[tab])
    ensures PathToTab(p) == tab
  {
    SectionsAreTablePaths();
    var i :=
      if tab == "dashboard" then 0 else if tab == "tasks" then 1 else if tab == "projects" then 2
      else if tab == "teams" then 3 else if tab == "comments" then 4 else if tab == "history" then 5
      else 6;
    assert PREFIX + TAB_TO_PATH[tab] == SECTIONS[i];
    OnlyThatSection(p, i);
    assert p != "";
  }

  /** A section's own path selects its tab, for each of the seven tabs. */
  lemma TabRoundTrip(tab: string)
    requires tab in TAB_TO_PATH
    ensures PathToTab(PREFIX + TAB_TO_PATH[tab]) == tab
  {
    PrefixSelectsTab(PREFIX + TAB_TO_PATH[tab], tab);
  }

  /** A path that starts with none of the section paths selects the dashboard. */
  lemma OtherPathsSelectDashboard(p: string)
    requires forall j :: 0 <= j < |SECTIONS| ==> !StartsWith(p, SECTIONS[j])
    ensures PathToTab(p) == "dashboard"
  {
    assert !StartsWith(p, SECTIONS[1]) && !StartsWith(p, SECTIONS[2]) && !StartsWith(p, SECTIONS[3]);
    assert !StartsWith(p, SECTIONS[4]) && !StartsWith(p, SECTIONS[5]) && !StartsWith(p, SECTIONS[6]);
  }

  /** The outcome of a tab change: the selected tab and the path navigated to. */
  datatype TabChange = TabChange(selected: string, path: string)

  /** `handleTabChange`: the tab is selected and the browser goes to its section, or to the
      dashboard section for a tab outside the table. */
  function HandleTabChange(tab: string): (r: TabChange)
    ensures r.selected == tab
    ensures tab in TAB_TO_PATH ==> r.path == PREFIX + TAB_TO_PATH[tab]
    ensures tab !in TAB_TO_PATH ==> r.path == "/manager/inicio"
  {
    TabChange(tab, PREFIX + (if tab in TAB_TO_PATH then TAB_TO_PATH[tab] else "inicio"))
  }

  /** After a tab change, the new path selects the tab again; an unknown tab comes back as
      the dashboard. */
  lemma TabChangeSelectsTab(tab: string)
    ensures PathToTab(HandleTabChange(tab).path) == if tab in TAB_TO_PATH then tab else "dashboard"
  {
    if tab in TAB_TO_PATH {
      TabRoundTrip(tab);
    } else {
      TabRoundTrip("dashboard");
    }
  }
}
