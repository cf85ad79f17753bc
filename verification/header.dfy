/** The site header: logo, navigation links, search box and the mobile menu. */
module Header {
  import opened Posts
  import opened Intents

  /** A navigation link; `caption` is the component's `label` field, renamed
      because `label` is a Dafny keyword. */
  datatype NavItem = NavItem(caption: string, page: string)

  const NavItems: seq<NavItem> := [
    NavItem("Home", "home"),
    NavItem("Categories", "categories"),
    NavItem("About", "about")
  ]

  /** A link is highlighted when it points at the current page. */
  predicate IsActive(currentPage: string, item: NavItem)
    ensures IsActive(currentPage, item) <==> item.page == currentPage
  {
    currentPage == item.page
  }

  predicate DistinctPages(items: seq<NavItem>)
  {
    forall i, j :: 0 <= i < j < |items| ==> items[i].page != items[j].page
  }

  /** How many of `items` are highlighted. */
  function CountActive(currentPage: string, items: seq<NavItem>): (n: nat)
    ensures n <= |items|
    ensures n == 0 <==> forall i :: 0 <= i < |items| ==> !IsActive(currentPage, items[i])
  {
    if items == [] then 0
    else
      assert forall i :: 1 <= i < |items| ==> items[1..][i - 1] == items[i];
      (if IsActive(currentPage, items[0]) then 1 else 0) + CountActive(currentPage, items[1..])
  }

  /** With distinct pages, at most one link is highlighted. */
  lemma {:induction false} AtMostOneActive(currentPage: string, items: seq<NavItem>)
    requires DistinctPages(items)
    ensures CountActive(currentPage, items) <= 1
  {
    if items != [] {
      var rest := items[1..];
      if IsActive(currentPage, items[0]) {
        assert forall i :: 0 <= i < |rest| ==> !IsActive(currentPage, rest[i]) by {
          forall i | 0 <= i < |rest|
            ensures !IsActive(currentPage, rest[i])
          {
            assert rest[i] == items[i + 1];
          }
        }
      } else {
        AtMostOneActive(currentPage, rest);
      }
    }
  }

  /** The header's own links have distinct pages, so at most one is highlighted. */
  lemma NavItemsHighlightOne(currentPage: string)
    ensures CountActive(currentPage, NavItems) <= 1
  {
    AtMostOneActive(currentPage, NavItems);
  }

  datatype State = State(isMenuOpen: bool, searchQuery: string, intents: seq<Intent>)

  class HeaderBar {
    const currentPage: string
    var isMenuOpen: bool
    var searchQuery: string
    /** The calls made to `onNavigate`, oldest first. */
    var intents: seq<Intent>

    function Snapshot(): State
      reads this
    {
      State(isMenuOpen, searchQuery, intents)
    }

    constructor (currentPage: string)
      ensures this.currentPage == currentPage
      ensures Snapshot() == State(false, "", [])
    {
      this.currentPage := currentPage;
      isMenuOpen := false;
      searchQuery := "";
      intents := [];
    }

    /** The mobile menu, with its search box and links, is shown while open. */
    predicate MobileMenuShown()
      reads this
      ensures MobileMenuShown() <==> isMenuOpen
    {
      isMenuOpen
    }

    /** The logo goes home. */
    method LogoClick()
      modifies this
      ensures Snapshot() == old(Snapshot()).(intents := old(intents) + [GoTo("home")])
    {
      intents := intents + [GoTo("home")];
    }

    /** A desktop link navigates and leaves the menu flag alone. */
    method DesktopNavClick(i: nat)
      requires i < |NavItems|
      modifies this
      ensures Snapshot() == old(Snapshot()).(intents := old(intents) + [GoTo(NavItems[i].page)])
    {
      intents := intents + [GoTo(NavItems[i].page)];
    }

    /** A link in the mobile menu navigates and closes the menu. */
    method MobileNavClick(i: nat)
      requires i < |NavItems|
      modifies this
      ensures Snapshot() == old(Snapshot()).(intents := old(intents) + [GoTo(NavItems[i].page)], isMenuOpen := false)
      ensures !MobileMenuShown()
    {
      intents := intents + [GoTo(NavItems[i].page)];
      isMenuOpen := false;
    }

    /** The menu button flips the menu. */
    method ToggleMenu()
      modifies this
      ensures Snapshot() == old(Snapshot()).(isMenuOpen := !old(isMenuOpen))
      ensures MobileMenuShown() <==> !old(MobileMenuShown())
    {
      isMenuOpen := !isMenuOpen;
    }

    /** Typing in either search box changes only the query. */
    method EditSearch(query: string)
      modifies this
      ensures Snapshot() == old(Snapshot()).(searchQuery := query)
    {
      searchQuery := query;
    }
  }

  /** Two clicks on the menu button restore the header. */
  method ToggleMenuTwice(h: HeaderBar)
    modifies h
    ensures h.Snapshot() == old(h.Snapshot())
  {
    h.ToggleMenu();
    h.ToggleMenu();
  }
}
