/** The shell around every page: the page title derived from the path and
    the sidebar entries, which depend on the role. */
module Layout {
  import opened Wrappers
  import opened Domain

  /** `String.prototype.split('/')`, built from the right: a slash closes the
      current part and opens an empty one. */
  function Split(s: string): (parts: seq<string>)
    ensures |parts| >= 1
    decreases |s|
  {
    if |s| == 0 then [""]
    else
      var p := Split(s[..|s| - 1]);
      var c := s[|s| - 1];
      if c == '/' then p + [""] else p[..|p| - 1] + [p[|p| - 1] + [c]]
  }

  /** The characters before the first slash. */
  function UpToSlash(s: string): (r: string)
    ensures '/' !in r && |r| <= |s| && r == s[..|r|]
    ensures |r| < |s| ==> s[|r|] == '/'
  {
    if |s| == 0 || s[0] == '/' then "" else [s[0]] + UpToSlash(s[1..])
  }

  /** The second part of the path split at slashes: what follows the first
      slash, up to the next one; nothing when the path has no slash. */
  function SecondPart(path: string): (r: Option<string>)
    ensures r.None? <==> '/' !in path
  {
    var head := UpToSlash(path);
    if |head| == |path| then None else Some(UpToSlash(path[|head| + 1..]))
  }

  /** Splitting a slash-free string gives the string itself. */
  lemma {:induction false} SplitNoSlash(s: string)
    requires '/' !in s
    ensures Split(s) == [s]
    decreases |s|
  {
    if |s| > 0 {
      SplitNoSlash(s[..|s| - 1]);
      assert s[..|s| - 1] + [s[|s| - 1]] == s;
    }
  }

  /** Adding one character to the end of a string, in terms of its parts. */
  lemma SplitSnoc(s: string, c: char)
    ensures var p := Split(s);
            Split(s + [c]) == if c == '/' then p + [""] else p[..|p| - 1] + [p[|p| - 1] + [c]]
  {
    assert (s + [c])[..|s|] == s;
  }

  /** Extending the last of a list of parts, when the list has a prefix. */
  lemma ExtendLastPart(x: seq<string>, q: seq<string>, c: char)
    requires |q| >= 1
    ensures var p := x + q;
            p[..|p| - 1] + [p[|p| - 1] + [c]] == x + (q[..|q| - 1] + [q[|q| - 1] + [c]])
  {
    var p := x + q;
    assert p[..|p| - 1] == x + q[..|q| - 1];
  }

  /** Opening an empty last part, when the list has a prefix. */
  lemma AppendEmptyPart(x: seq<string>, q: seq<string>)
    ensures (x + q) + [""] == x + (q + [""])
  {
  }

  /** A slash separates the parts of what comes before it from those after it. */
  lemma {:induction false} SplitAtSlash(a: string, b: string)
    ensures Split(a + ['/'] + b) == Split(a) + Split(b)
    decreases |b|
  {
    if |b| == 0 {
      assert a + ['/'] + b == a + ['/'];
      SplitSnoc(a, '/');
    } else {
      var b', c := b[..|b| - 1], b[|b| - 1];
      var s' := a + ['/'] + b';
      assert b == b' + [c];
      assert a + ['/'] + b == s' + [c];
      var x, q := Split(a), Split(b');
      if c == '/' {
        calc {
          Split(s' + [c]);
        == { SplitSnoc(s', c); }
          Split(s') + [""];
        == { SplitAtSlash(a, b'); }
          (x + q) + [""];
        == { AppendEmptyPart(x, q); }
          x + (q + [""]);
        == { SplitSnoc(b', c); }
          x + Split(b' + [c]);
        }
      } else {
        calc {
          Split(s' + [c]);
        == { SplitSnoc(s', c); SplitAtSlash(a, b'); }
          (x + q)[..|x + q| - 1] + [(x + q)[|x + q| - 1] + [c]];
        == { ExtendLastPart(x, q, c); }
          x + (q[..|q| - 1] + [q[|q| - 1] + [c]]);
        == { SplitSnoc(b', c); }
          x + Split(b' + [c]);
        }
      }
    }
  }

  /** The first part of a split is everything before the first slash. */
  lemma SplitHead(s: string)
    ensures Split(s)[0] == UpToSlash(s)
  {
    var h := UpToSlash(s);
    if |h| == |s| {
      assert h == s;
      SplitNoSlash(s);
    } else {
      assert s == h + ['/'] + s[|h| + 1..];
      SplitAtSlash(h, s[|h| + 1..]);
      SplitNoSlash(h);
    }
  }

  /** `SecondPart` is `pathname.split('/')[1]`, undefined when there is no
      second part. */
  lemma SecondPartIsSplitIndexOne(path: string)
    ensures SecondPart(path) == (if |Split(path)| > 1 then Some(Split(path)[1]) else None)
  {
    var h := UpToSlash(path);
    if |h| == |path| {
      assert h == path;
      SplitNoSlash(path);
    } else {
      var rest := path[|h| + 1..];
      assert path == h + ['/'] + rest;
      SplitAtSlash(h, rest);
      SplitNoSlash(h);
      SplitHead(rest);
    }
  }

  /** `toUpperCase` on one character, for ASCII letters. */
  function Upper(c: char): (u: char)
    ensures 'a' <= c <= 'z' ==> u as int == c as int - 32
    ensures !('a' <= c <= 'z') ==> u == c
  {
    if 'a' <= c <= 'z' then (c as int - 32) as char else c
  }

  /** `getPageTitle`: "Dashboard" when the second part is missing or empty;
      otherwise that part with its first character upper-cased. */
  function PageTitle(path: string): (title: string)
    ensures SecondPart(path).None? || SecondPart(path) == Some("") ==> title == "Dashboard"
    ensures SecondPart(path).Some? && SecondPart(path) != Some("") ==>
      var seg := SecondPart(path).value;
      |title| == |seg| && title[0] == Upper(seg[0]) && title[1..] == seg[1..]
  {
    match SecondPart(path)
    case None => "Dashboard"
    case Some(seg) => if seg == "" then "Dashboard" else [Upper(seg[0])] + seg[1..]
  }

  /** For a path "/" + seg + rest, where seg has no slash and rest is empty or
      starts a new part, the title is seg capitalised. */
  lemma PageTitleOfFirstSegment(seg: string, rest: string)
    requires seg != "" && '/' !in seg
    requires rest == "" || rest[0] == '/'
    ensures PageTitle("/" + seg + rest) == [Upper(seg[0])] + seg[1..]
  {
    var path := "/" + seg + rest;
    assert UpToSlash(path) == "";
    assert path[1..] == seg + rest;
    UpToSlashPrefix(seg, rest);
  }

  /** A slash-free prefix is read up to where `rest` begins a new part. */
  lemma {:induction false} UpToSlashPrefix(seg: string, rest: string)
    requires '/' !in seg
    requires rest == "" || rest[0] == '/'
    ensures UpToSlash(seg + rest) == seg
    decreases |seg|
  {
    if |seg| > 0 {
      assert (seg + rest)[1..] == seg[1..] + rest;
      UpToSlashPrefix(seg[1..], rest);
      assert [seg[0]] + seg[1..] == seg;
    } else {
      assert seg + rest == rest;
    }
  }

  /** The title of the new-order page. */
  lemma NewOrderTitle()
    ensures PageTitle("/orders/new") == "Orders"
  {
    PageTitleOfFirstSegment("orders", "/new");
    assert "/orders/new" == "/" + "orders" + "/new";
  }

  /** The root path, and a path without any slash, are titled "Dashboard". */
  lemma RootTitle()
    ensures PageTitle("/") == "Dashboard"
    ensures PageTitle("") == "Dashboard"
  {
    assert UpToSlash("/") == "";
    assert UpToSlash(""[0..]) == "";
  }

  datatype SidebarItem = SidebarItem(title: string, path: string)

  function BaseItems(): seq<SidebarItem>
  {
    [SidebarItem("Dashboard", "/"), SidebarItem("Tables", "/tables"), SidebarItem("Menu", "/menu"),
     SidebarItem("Orders", "/orders"), SidebarItem("Customers", "/customers"), SidebarItem("Billing", "/billing")]
  }

  /** The six base entries always, then "Settings" for admins only. */
  function SidebarItems(user: Option<User>): (r: seq<SidebarItem>)
    ensures |r| >= 6 && r[..6] == BaseItems()
    ensures SidebarItem("Settings", "/settings") in r <==> user.Some? && user.value.role == Admin
  {
    if user.Some? && user.value.role == Admin then BaseItems() + [SidebarItem("Settings", "/settings")]
    else BaseItems()
  }

  /** A one-part path "/seg" is titled seg capitalised. */
  lemma TopLevelTitle(path: string, title: string)
    requires |path| >= 2 && path[0] == '/' && '/' !in path[1..]
    requires title == [Upper(path[1])] + path[2..]
    ensures PageTitle(path) == title
  {
    PageTitleOfFirstSegment(path[1..], "");
    assert "/" + path[1..] + "" == path;
  }

  /** The title of each page the sidebar links to, one page at a time. */
  lemma TablesTitle()
    ensures PageTitle("/tables") == "Tables"
  {
    TopLevelTitle("/tables", "Tables");
  }

  lemma MenuTitle()
    ensures PageTitle("/menu") == "Menu"
  {
    TopLevelTitle("/menu", "Menu");
  }

  lemma OrdersTitle()
    ensures PageTitle("/orders") == "Orders"
  {
    TopLevelTitle("/orders", "Orders");
  }

  lemma CustomersTitle()
    ensures PageTitle("/customers") == "Customers"
  {
    TopLevelTitle("/customers", "Customers");
  }

  lemma BillingTitle()
    ensures PageTitle("/billing") == "Billing"
  {
    TopLevelTitle("/billing", "Billing");
  }

  lemma SettingsTitle()
    ensures PageTitle("/settings") == "Settings"
  {
    TopLevelTitle("/settings", "Settings");
  }

  /** The titles of the pages the sidebar links to. */
  lemma LinkedPageTitles()
    ensures PageTitle("/") == "Dashboard" && PageTitle("/tables") == "Tables"
    ensures PageTitle("/menu") == "Menu" && PageTitle("/orders") == "Orders"
    ensures PageTitle("/customers") == "Customers" && PageTitle("/billing") == "Billing"
    ensures PageTitle("/settings") == "Settings"
  {
    RootTitle();
    TablesTitle();
    MenuTitle();
    OrdersTitle();
    CustomersTitle();
    BillingTitle();
    SettingsTitle();
  }

  /** Each base entry's path is titled with the entry's own title. */
  lemma BaseEntryTitle(i: nat)
    requires i < |BaseItems()|
    ensures PageTitle(BaseItems()[i].path) == BaseItems()[i].title
  {
    var b := BaseItems();
    if i == 0 { RootTitle(); assert b[0].path == "/"; }
    else if i == 1 { TablesTitle(); assert b[1].path == "/tables"; }
    else if i == 2 { MenuTitle(); assert b[2].path == "/menu"; }
    else if i == 3 { OrdersTitle(); assert b[3].path == "/orders"; }
    else if i == 4 { CustomersTitle(); assert b[4].path == "/customers"; }
    else { BillingTitle(); assert b[5].path == "/billing"; }
  }

  /** Every sidebar entry leads to a page whose title is the entry's own title. */
  lemma SidebarTitlesMatchPages(user: Option<User>)
    ensures forall i :: 0 <= i < |SidebarItems(user)| ==> PageTitle(SidebarItems(user)[i].path) == SidebarItems(user)[i].title
  {
    var r, b := SidebarItems(user), BaseItems();
    forall i | 0 <= i < |r|
      ensures PageTitle(r[i].path) == r[i].title
    {
      if i < |b| {
        assert r[i] == b[i];
        BaseEntryTitle(i);
      } else {
        assert r == b + [SidebarItem("Settings", "/settings")];
        SettingsTitle();
      }
    }
  }
}
