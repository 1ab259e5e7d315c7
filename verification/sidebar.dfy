/**
  The main navigation (`src/components/Sidebar.jsx`): six fixed entries,
  each highlighted by a test on the current pathname. The dashboard entry
  wants the exact path "/", the others any path that starts with theirs.
*/
module Sidebar {
  import opened Text

  datatype NavItem = NavItem(name: string, path: string)

  const NavItems: seq<NavItem> := [
    NavItem("Dashboard", "/"),
    NavItem("Projects", "/projects"),
    NavItem("My Tasks", "/my-tasks"),
    NavItem("Team", "/team"),
    NavItem("Profile", "/profile"),
    NavItem("Settings", "/settings")
  ]

  /** `isActive(path)`. */
  predicate IsActive(pathname: string, path: string) {
    if path == "/" then pathname == "/" else StartsWith(pathname, path)
  }

  /** The highlight of every entry, in menu order. */
  function Highlights(pathname: string): (r: seq<bool>)
    ensures |r| == |NavItems|
    ensures r[0] <==> pathname == "/"
    ensures forall i :: 1 <= i < |r| ==> (r[i] <==> StartsWith(pathname, NavItems[i].path))
  {
    seq(|NavItems|, i requires 0 <= i < |NavItems| => IsActive(pathname, NavItems[i].path))
  }

  /** Two paths that differ at a position both have cannot both begin the same pathname. */
  lemma PrefixClash(s: string, a: string, b: string, k: int)
    requires 0 <= k < |a| && k < |b| && a[k] != b[k]
    ensures !(StartsWith(s, a) && StartsWith(s, b))
  {
    if |a| <= |s| && |b| <= |s| {
      assert s[..|a|][k] == s[k] == s[..|b|][k];
    }
  }

  /** No pathname highlights two entries. */
  lemma AtMostOneActive(pathname: string)
    ensures forall i, j :: 0 <= i < j < |Highlights(pathname)| ==> !(Highlights(pathname)[i] && Highlights(pathname)[j])
  {
    var h := Highlights(pathname);
    forall i, j | 0 <= i < j < |h|
      ensures !(h[i] && h[j])
    {
      if i > 0 {
        // "/projects" and "/profile" share "/pro"; every other pair differs right after the slash
        var k := if i == 1 && j == 4 then 4 else 1;
        PrefixClash(pathname, NavItems[i].path, NavItems[j].path, k);
      }
    }
  }

  /** The six paths are pairwise distinct. */
  lemma PathsDistinct()
    ensures forall i, j :: 0 <= i < j < |NavItems| ==> NavItems[i].path != NavItems[j].path
  {
    forall i, j | 0 <= i < j < |NavItems|
      ensures NavItems[i].path != NavItems[j].path
    {
      var k := if i == 1 && j == 4 then 4 else if i == 0 then 0 else 1;
      if i == 0 {
        assert |NavItems[i].path| != |NavItems[j].path|;
      } else {
        assert NavItems[i].path[k] != NavItems[j].path[k];
      }
    }
  }

  /** A project's nested pages keep "Projects" highlighted, and only it. */
  lemma NestedProjectRoute(rest: string)
    ensures Highlights("/projects/" + rest)[1]
    ensures forall i :: 0 <= i < |NavItems| && i != 1 ==> !Highlights("/projects/" + rest)[i]
  {
    var s := "/projects/" + rest;
    assert s[..|"/projects"|] == "/projects";
    AtMostOneActive(s);
  }
}
