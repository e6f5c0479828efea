/**
 * `getPageTitle` of the site header: the pathname loses its first `/(pages)` and one
 * trailing slash, and the result is looked up in a fixed table of titles.
 */
module Header {
  import opened Wrappers
  import opened Strings

  /** The route-group segment that the router keeps in pathnames. */
  const PagesGroup: string := "/(pages)"

  /** The title shown for every path the table does not list. */
  const DefaultTitle: string := "ODYSSEY"

  /** `.replace(/\/$/, '')`: one `/` at the very end is removed. */
  function StripTrailingSlash(s: string): (r: string)
    ensures |s| > 0 && s[|s| - 1] == '/' ==> r + "/" == s
    ensures (|s| == 0 || s[|s| - 1] != '/') ==> r == s
  {
    if |s| > 0 && s[|s| - 1] == '/' then s[..|s| - 1] else s
  }

  /** The path the switch compares. */
  function Normalize(pathname: string): string {
    StripTrailingSlash(ReplaceFirst(pathname, PagesGroup, ""))
  }

  /** The `switch` of `getPageTitle` over the normalised path. */
  function TitleOf(path: string): string {
    if path == "/coaching" then "COACHING"
    else if path == "/coaching/personal" then "PERSONAL TRAINING"
    else if path == "/coaching/programming" then "PROGRAMMING"
    else if path == "/coaching/technique" then "TECHNIQUE ANALYSIS"
    else if path == "/about" then "ABOUT"
    else if path == "/about/team" then "OUR TEAM"
    else if path == "/about/philosophy" then "PHILOSOPHY"
    else if path == "/contact/page" then "CONTACT"
    else if path == "/" then DefaultTitle
    else DefaultTitle
  }

  function PageTitle(pathname: string): string {
    TitleOf(Normalize(pathname))
  }

  /** The listed paths and their titles, in the order of the switch. */
  function Titles(): seq<(string, string)> {
    [ ("/coaching", "COACHING"),
      ("/coaching/personal", "PERSONAL TRAINING"),
      ("/coaching/programming", "PROGRAMMING"),
      ("/coaching/technique", "TECHNIQUE ANALYSIS"),
      ("/about", "ABOUT"),
      ("/about/team", "OUR TEAM"),
      ("/about/philosophy", "PHILOSOPHY"),
      ("/contact/page", "CONTACT") ]
  }

  /** Each listed path gets its title, and every other path the default title. */
  lemma TitleOfTable(path: string)
    ensures forall i :: 0 <= i < |Titles()| ==> TitleOf(Titles()[i].0) == Titles()[i].1
    ensures (forall i :: 0 <= i < |Titles()| ==> Titles()[i].0 != path) ==> TitleOf(path) == DefaultTitle
    ensures TitleOf(path) != DefaultTitle <==> exists i :: 0 <= i < |Titles()| && Titles()[i].0 == path
  {
    var t := Titles();
    if path == t[0].0 { assert t[0].0 == path; }
    else if path == t[1].0 { assert t[1].0 == path; }
    else if path == t[2].0 { assert t[2].0 == path; }
    else if path == t[3].0 { assert t[3].0 == path; }
    else if path == t[4].0 { assert t[4].0 == path; }
    else if path == t[5].0 { assert t[5].0 == path; }
    else if path == t[6].0 { assert t[6].0 == path; }
    else if path == t[7].0 { assert t[7].0 == path; }
  }

  /** A leading `/(pages)` is the first occurrence, so it is what the replace removes. */
  lemma ReplaceLeadingGroup(s: string)
    ensures ReplaceFirst(PagesGroup + s, PagesGroup, "") == s
  {
    assert OccursAt(PagesGroup + s, PagesGroup, 0) by {
      assert (PagesGroup + s)[..|PagesGroup|] == PagesGroup;
    }
    assert (PagesGroup + s)[|PagesGroup|..] == s;
  }

  /** A path without the group segment is compared as it is, but for a trailing slash. */
  lemma NormalizeWithoutGroup(s: string)
    requires IndexOf(s, PagesGroup).None?
    ensures Normalize(s) == StripTrailingSlash(s)
  {
  }

  /** The route group does not change the title. */
  lemma TitleIgnoresGroup(s: string)
    requires IndexOf(s, PagesGroup).None?
    ensures PageTitle(PagesGroup + s) == PageTitle(s)
  {
    ReplaceLeadingGroup(s);
  }

  /** A slash appended to a path without the group segment creates no occurrence of it. */
  lemma NoGroupWithSlash(s: string)
    requires IndexOf(s, PagesGroup).None?
    ensures IndexOf(s + "/", PagesGroup).None?
  {
    forall j | 0 <= j <= |s + "/"| ensures !OccursAt(s + "/", PagesGroup, j) {
      if OccursAt(s + "/", PagesGroup, j) {
        assert (s + "/")[j + |PagesGroup| - 1] == PagesGroup[|PagesGroup| - 1];
        assert (s + "/")[j..j + |PagesGroup|] == s[j..j + |PagesGroup|];
        assert OccursAt(s, PagesGroup, j);
        assert false;
      }
    }
  }

  /** One trailing slash does not change the title. */
  lemma TitleIgnoresTrailingSlash(s: string)
    requires IndexOf(s, PagesGroup).None? && (|s| == 0 || s[|s| - 1] != '/')
    ensures PageTitle(s + "/") == PageTitle(s)
  {
    NoGroupWithSlash(s);
    assert (s + "/")[..|s|] == s;
  }

  /** A path shorter than the group segment does not contain it. */
  lemma ShortHasNoGroup(s: string)
    requires |s| < |PagesGroup|
    ensures IndexOf(s, PagesGroup).None? && Normalize(s) == StripTrailingSlash(s)
  {
  }

  /**
   * The home page `/` normalises to the empty path and so gets the default title through
   * the default branch; only a path such as `//` reaches the `/` case.
   */
  lemma HomeTitle()
    ensures Normalize("/") == "" && PageTitle("/") == DefaultTitle
    ensures Normalize("//") == "/"
  {
    ShortHasNoGroup("/");
    ShortHasNoGroup("//");
  }

  /** A path without a parenthesis cannot contain the group segment. */
  lemma NoParenHasNoGroup(s: string)
    requires '(' !in s
    ensures IndexOf(s, PagesGroup).None?
  {
    forall j | 0 <= j <= |s| ensures !OccursAt(s, PagesGroup, j) {
      if j + |PagesGroup| <= |s| {
        assert s[j..j + |PagesGroup|][1] == s[j + 1];
      }
    }
  }

  /**
   * A plain path (no parenthesis, no trailing slash) is titled by the switch whether the
   * router reports it as it is, with a trailing slash, or inside the route group.
   */
  lemma PlainPathTitle(s: string)
    requires '(' !in s && (|s| == 0 || s[|s| - 1] != '/')
    ensures PageTitle(s) == TitleOf(s)
    ensures PageTitle(s + "/") == TitleOf(s)
    ensures PageTitle(PagesGroup + s + "/") == TitleOf(s)
  {
    NoParenHasNoGroup(s);
    NoGroupWithSlash(s);
    NormalizeWithoutGroup(s);
    NormalizeWithoutGroup(s + "/");
    assert (s + "/")[..|s|] == s;
    assert Normalize(s + "/") == s;
    ReplaceLeadingGroup(s + "/");
    assert PagesGroup + s + "/" == PagesGroup + (s + "/");
    assert Normalize(PagesGroup + s + "/") == s;
  }

  /** The coaching page gets its title with or without the route group and trailing slash. */
  lemma CoachingTitle(s: string)
    requires s == "/coaching"
    ensures PageTitle(s) == "COACHING"
    ensures PageTitle(PagesGroup + s + "/") == "COACHING"
  {
    PlainPathTitle(s);
  }

  /** The contact page is listed as `/contact/page` and titled CONTACT. */
  lemma ContactPageTitle(page: string)
    requires page == "/contact/page"
    ensures PageTitle(page) == "CONTACT"
  {
    assert |page| == 13;
    assert forall i :: 0 <= i < |page| ==> page[i] != '(';
    PlainPathTitle(page);
    assert TitleOf(page) == "CONTACT";
  }

  /** The menu links to `/contact`, which is not listed, so it gets the default title. */
  lemma ContactMenuTitle(menu: string)
    requires menu == "/contact"
    ensures PageTitle(menu) == DefaultTitle
  {
    assert |menu| == 8;
    assert forall i :: 0 <= i < |menu| ==> menu[i] != '(';
    PlainPathTitle(menu);
    assert TitleOf(menu) == DefaultTitle;
  }
}
