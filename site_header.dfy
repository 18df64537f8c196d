/**
 * The page title and breadcrumbs of components/site-header.tsx: `getPageTitle`
 * derives them from the pathname, and the `title` and `breadcrumbs` props
 * override the derived values.
 */
module SiteHeader {
  import opened Common

  datatype Crumb = Crumb(text: string, href: Option<string>)

  /** What `getPageTitle` returns; `breadcrumbs` is absent for the single-title pages. */
  datatype PageInfo = PageInfo(title: string, breadcrumbs: Option<seq<Crumb>>)

  /** `pathname.replace(/\/$/, '')`: one trailing slash, if any, is removed. */
  function StripTrailingSlash(pathname: string): (r: string)
    ensures pathname == r || pathname == r + "/"
  {
    if |pathname| > 0 && pathname[|pathname| - 1] == '/' then pathname[..|pathname| - 1] else pathname
  }

  /** `s.split('/')`: the pieces between slashes; one more piece than there are slashes. */
  function Split(s: string): (r: seq<string>)
    ensures |r| >= 1
    ensures forall i :: 0 <= i < |r| ==> '/' !in r[i]
  {
    if |s| == 0 then [""]
    else
      var rest := Split(s[1..]);
      if s[0] == '/' then [""] + rest else [[s[0]] + rest[0]] + rest[1..]
  }

  /** `cleanPath.split('/').filter(Boolean)`. */
  function Segments(cleanPath: string): (r: seq<string>)
    ensures forall i :: 0 <= i < |r| ==> r[i] != "" && '/' !in r[i]
  {
    var r := NonEmpty(Split(cleanPath));
    NonEmptyOfSlashFree(Split(cleanPath));
    r
  }

  lemma {:induction false} NonEmptyOfSlashFree(ps: seq<string>)
    requires forall i :: 0 <= i < |ps| ==> '/' !in ps[i]
    ensures forall i :: 0 <= i < |NonEmpty(ps)| ==> '/' !in NonEmpty(ps)[i]
  {
    if |ps| > 0 {
      NonEmptyOfSlashFree(ps[1..]);
    }
  }

  const Home: Crumb := Crumb("Oversikt", Some("/dashboard"))

  /** A page one level below the dashboard: its title and the two crumbs leading to it. */
  function Section(title: string): PageInfo {
    PageInfo(title, Some([Home, Crumb(title, None)]))
  }

  /** The dispatch of `getPageTitle` once the path is reduced to its segments. */
  function TitleForSegments(segments: seq<string>): (r: PageInfo)
    ensures CrumbsLeadToTitle(r)
    ensures r.title in {"Oversikt", "Rediger nytt bilde", "Rediger eiendom", "Eiendommer", "Historikk", "Innstillinger", "Få hjelp", "Dashboard"}
    ensures r.breadcrumbs.None? <==> r.title == "Oversikt" || r.title == "Dashboard"
  {
    var second := if |segments| >= 2 then Some(segments[1]) else None;
    if |segments| == 1 then PageInfo("Oversikt", None)
    else if second == Some("editor") && |segments| == 2 then Section("Rediger nytt bilde")
    else if second == Some("editor") && |segments| == 3 then
      PageInfo("Rediger eiendom", Some([Home, Crumb("Eiendommer", Some("/dashboard/projects")), Crumb("Rediger eiendom", None)]))
    else if second == Some("projects") then Section("Eiendommer")
    else if second == Some("history") then Section("Historikk")
    else if second == Some("settings") then Section("Innstillinger")
    else if second == Some("help") then Section("Få hjelp")
    else PageInfo("Dashboard", None)
  }

  /** Every breadcrumb list starts at the dashboard, and its last crumb is the title, without a link. */
  predicate CrumbsLeadToTitle(info: PageInfo) {
    info.breadcrumbs.Some? ==>
      var crumbs := info.breadcrumbs.value;
      && 2 <= |crumbs| <= 3
      && crumbs[0] == Crumb("Oversikt", Some("/dashboard"))
      && crumbs[|crumbs| - 1] == Crumb(info.title, None)
  }

  function GetPageTitle(pathname: string): (r: PageInfo)
    ensures CrumbsLeadToTitle(r)
    ensures r.title in {"Oversikt", "Rediger nytt bilde", "Rediger eiendom", "Eiendommer", "Historikk", "Innstillinger", "Få hjelp", "Dashboard"}
  {
    var cleanPath := StripTrailingSlash(pathname);
    var segments := Segments(cleanPath);
    if cleanPath == "/dashboard" then PageInfo("Oversikt", None)
    else TitleForSegments(segments)
  }

  /**
   * Only the segments decide: `"/dashboard"` has one segment, so its explicit
   * comparison changes nothing, and the trailing slash that is removed would
   * only have added an empty piece, which the filter drops.
   */
  lemma OnlySegmentsDecide(pathname: string)
    ensures GetPageTitle(pathname) == TitleForSegments(Segments(pathname))
  {
    TrailingSlashIrrelevant(pathname);
    if StripTrailingSlash(pathname) == "/dashboard" {
      DashboardSegments();
    }
  }

  lemma DashboardSegments()
    ensures |Segments("/dashboard")| == 1
  {
    assert Join(["dashboard"], "/") == "dashboard";
    assert PathOf(["dashboard"]) == "/dashboard";
    SegmentsOfPath(["dashboard"]);
  }

  /** Removing a trailing slash leaves the segments as they were. */
  lemma TrailingSlashIrrelevant(pathname: string)
    ensures Segments(StripTrailingSlash(pathname)) == Segments(pathname)
  {
    var clean := StripTrailingSlash(pathname);
    if clean != pathname {
      SplitAppendSlash(clean);
      NonEmptyAppendEmpty(Split(clean));
    }
  }

  lemma {:induction false} SplitAppendSlash(s: string)
    ensures Split(s + "/") == Split(s) + [""]
  {
    if |s| > 0 {
      assert (s + "/")[1..] == s[1..] + "/";
      SplitAppendSlash(s[1..]);
    } else {
      assert s + "/" == "/";
      assert "/"[1..] == "";
    }
  }

  lemma {:induction false} NonEmptyAppendEmpty(ps: seq<string>)
    ensures NonEmpty(ps + [""]) == NonEmpty(ps)
  {
    if |ps| > 0 {
      assert (ps + [""])[1..] == ps[1..] + [""];
      NonEmptyAppendEmpty(ps[1..]);
    } else {
      assert ps + [""] == [""];
    }
  }

  /** A string without slashes splits into itself. */
  lemma {:induction false} SplitSlashFree(s: string)
    requires '/' !in s
    ensures Split(s) == [s]
  {
    if |s| > 0 {
      SplitSlashFree(s[1..]);
      assert [s[0]] + s[1..] == s;
    }
  }

  /** Splitting a slash-joined list of slash-free pieces gives the pieces back. */
  lemma {:induction false} SplitJoin(pieces: seq<string>)
    requires |pieces| >= 1
    requires forall i :: 0 <= i < |pieces| ==> '/' !in pieces[i]
    ensures Split(Join(pieces, "/")) == pieces
  {
    if |pieces| == 1 {
      SplitSlashFree(pieces[0]);
    } else {
      SplitJoin(pieces[1..]);
      SplitAfterPiece(pieces[0], Join(pieces[1..], "/"));
    }
  }

  /** A slash-free piece followed by a slash adds that piece in front of the split of the rest. */
  lemma {:induction false} SplitAfterPiece(piece: string, rest: string)
    requires '/' !in piece
    ensures Split(piece + "/" + rest) == [piece] + Split(rest)
  {
    if |piece| == 0 {
      assert piece + "/" + rest == "/" + rest;
      assert ("/" + rest)[1..] == rest;
    } else {
      var s := piece + "/" + rest;
      assert s[1..] == piece[1..] + "/" + rest;
      SplitAfterPiece(piece[1..], rest);
      assert [piece[0]] + piece[1..] == piece;
    }
  }

  /** The path of a list of non-empty, slash-free segments. */
  function PathOf(segments: seq<string>): string {
    "/" + Join(segments, "/")
  }

  /** A path built from segments has exactly those segments. */
  lemma SegmentsOfPath(segments: seq<string>)
    requires forall i :: 0 <= i < |segments| ==> segments[i] != "" && '/' !in segments[i]
    ensures Segments(PathOf(segments)) == segments
  {
    var p := PathOf(segments);
    if |segments| == 0 {
      assert p == "/";
      assert Split("/"[1..]) == [""];
      assert Split(p) == ["", ""];
    } else {
      SplitJoin(segments);
      assert p == "" + "/" + Join(segments, "/");
      SplitAfterPiece("", Join(segments, "/"));
      assert Split(p) == [""] + segments;
      assert ([""] + segments)[1..] == segments;
      NonEmptyKeepsNonEmpty(segments);
    }
  }

  lemma {:induction false} NonEmptyKeepsNonEmpty(ps: seq<string>)
    requires forall i :: 0 <= i < |ps| ==> ps[i] != ""
    ensures NonEmpty(ps) == ps
  {
    if |ps| > 0 {
      NonEmptyKeepsNonEmpty(ps[1..]);
    }
  }

  /**
   * The page of a path of segments: the first segment is never looked at, a
   * trailing slash changes nothing, and the title depends on the count and on
   * the second segment only.
   */
  lemma TitleOfPath(segments: seq<string>, trailing: bool)
    requires forall i :: 0 <= i < |segments| ==> segments[i] != "" && '/' !in segments[i]
    ensures GetPageTitle(if trailing then PathOf(segments) + "/" else PathOf(segments)) == TitleForSegments(segments)
  {
    var p := PathOf(segments);
    OnlySegmentsDecide(if trailing then p + "/" else p);
    SegmentsOfPath(segments);
    if trailing {
      assert StripTrailingSlash(p + "/") == p;
      TrailingSlashIrrelevant(p + "/");
    }
  }

  /** "/foo/projects" is titled like "/dashboard/projects": any first segment gives the same page. */
  lemma FirstSegmentIgnored(first: string, first': string, rest: seq<string>)
    requires |rest| >= 1
    ensures TitleForSegments([first] + rest) == TitleForSegments([first'] + rest)
  {
  }

  /** The root path and the empty path have no segments and fall through to "Dashboard". */
  lemma RootIsDashboard()
    ensures GetPageTitle("/") == PageInfo("Dashboard", None)
    ensures GetPageTitle("") == PageInfo("Dashboard", None)
  {
    assert StripTrailingSlash("/") == "";
    assert Segments("") == [];
  }

  /** A single segment, "/dashboard" among them, is the overview page without breadcrumbs. */
  lemma SingleSegment(segment: string)
    requires segment != "" && '/' !in segment
    ensures GetPageTitle("/" + segment) == PageInfo("Oversikt", None)
  {
    assert Join([segment], "/") == segment;
    TitleOfPath([segment], false);
  }

  /** Editor pages: two segments give the new-photo page, three the property page, more the fallback. */
  lemma EditorPages(segments: seq<string>)
    requires |segments| >= 2 && segments[1] == "editor"
    ensures |segments| == 2 ==> TitleForSegments(segments) == Section("Rediger nytt bilde")
    ensures |segments| == 3 ==>
      && TitleForSegments(segments).title == "Rediger eiendom"
      && TitleForSegments(segments).breadcrumbs.Some?
      && |TitleForSegments(segments).breadcrumbs.value| == 3
    ensures |segments| >= 4 ==> TitleForSegments(segments) == PageInfo("Dashboard", None)
  {
  }

  /** The four sections have a fixed title and two crumbs, whatever follows the second segment. */
  lemma SectionPages(segments: seq<string>)
    requires |segments| >= 2
    ensures segments[1] == "projects" ==> TitleForSegments(segments) == Section("Eiendommer")
    ensures segments[1] == "history" ==> TitleForSegments(segments) == Section("Historikk")
    ensures segments[1] == "settings" ==> TitleForSegments(segments) == Section("Innstillinger")
    ensures segments[1] == "help" ==> TitleForSegments(segments) == Section("Få hjelp")
  {
  }

  /** `title || pageInfo.title`: a non-empty title prop wins. */
  function DisplayTitle(titleProp: Option<string>, info: PageInfo): (r: string)
    ensures Truthy(titleProp) ==> r == titleProp.value
    ensures !Truthy(titleProp) ==> r == info.title
  {
    if Truthy(titleProp) then titleProp.value else info.title
  }

  /** `breadcrumbs || pageInfo.breadcrumbs`: an array is truthy even when empty, so any given list wins. */
  function DisplayBreadcrumbs(breadcrumbsProp: Option<seq<Crumb>>, info: PageInfo): (r: Option<seq<Crumb>>)
    ensures breadcrumbsProp.Some? ==> r == breadcrumbsProp
    ensures breadcrumbsProp.None? ==> r == info.breadcrumbs
  {
    if breadcrumbsProp.Some? then breadcrumbsProp else info.breadcrumbs
  }
}
