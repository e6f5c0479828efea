/**
 * One entry of the site menu: whether it has sub-items, whether it is highlighted for the
 * current pathname, and its small state machine (`isOpen`, toggled by a press on mobile
 * and by hovering on desktop, and the measured `contentHeight` of its sub-item list).
 */
module NavDropdown {
  import opened Wrappers

  datatype SubItem = SubItem(name: string, href: string)

  /** The `subItems` property of a menu entry: missing, present but not an array, or an array. */
  datatype SubItemsField = NoField | NotArray | ArrayOf(items: seq<SubItem>)

  datatype NavItem = NavItem(name: string, href: Option<string>, subItems: SubItemsField)

  /** `hasSubItems(item)`: a `subItems` property that is an array. */
  predicate HasSubItems(item: NavItem) {
    item.subItems.ArrayOf?
  }

  /** `items.some(subItem => subItem.href === pathname)`. */
  function AnyHref(items: seq<SubItem>, pathname: string): (r: bool)
    ensures r <==> exists i :: 0 <= i < |items| && items[i].href == pathname
  {
    if items == [] then false
    else if items[0].href == pathname then true
    else
      var r := AnyHref(items[1..], pathname);
      assert forall i :: 1 <= i < |items| ==> items[i] == items[1..][i - 1];
      r
  }

  /** `isActive(href)`: an entry's own link is the current page. */
  predicate IsActive(href: Option<string>, pathname: string) {
    href == Some(pathname)
  }

  /** `isParentActive`: one of the entry's sub-items is the current page. */
  predicate IsParentActive(item: NavItem, pathname: string) {
    HasSubItems(item) && AnyHref(item.subItems.items, pathname)
  }

  /** The entry is drawn in the active colour. */
  predicate Highlighted(item: NavItem, pathname: string) {
    IsActive(item.href, pathname) || IsParentActive(item, pathname)
  }

  /** The initial `isOpen`: the entry starts open when one of its sub-items is the current page. */
  function InitiallyOpen(item: NavItem, pathname: string): (r: bool)
    ensures !HasSubItems(item) ==> !r
    ensures HasSubItems(item) ==>
      (r <==> exists i :: 0 <= i < |item.subItems.items| && item.subItems.items[i].href == pathname)
  {
    if HasSubItems(item) then AnyHref(item.subItems.items, pathname) else false
  }

  /**
   * An entry is highlighted exactly when it is its own page or it starts open; an entry
   * that starts open is highlighted.
   */
  lemma HighlightedIffActiveOrOpen(item: NavItem, pathname: string)
    ensures Highlighted(item, pathname) <==> IsActive(item.href, pathname) || InitiallyOpen(item, pathname)
    ensures InitiallyOpen(item, pathname) ==> Highlighted(item, pathname)
  {
  }

  class Dropdown {
    const item: NavItem
    const pathname: string
    const isMobile: bool
    var isOpen: bool
    /** The last positive height reported for the sub-item list. */
    var contentHeight: real

    predicate Valid()
      reads this
    {
      contentHeight >= 0.0
    }

    /** The desktop list of sub-items is drawn. */
    predicate DesktopDropdownShown()
      reads this
    {
      !isMobile && isOpen && HasSubItems(item)
    }

    constructor (item: NavItem, pathname: string, isMobile: bool)
      ensures Valid()
      ensures this.item == item && this.pathname == pathname && this.isMobile == isMobile
      ensures isOpen == InitiallyOpen(item, pathname) && contentHeight == 0.0
    {
      this.item := item;
      this.pathname := pathname;
      this.isMobile := isMobile;
      isOpen := InitiallyOpen(item, pathname);
      contentHeight := 0.0;
    }

    /** A press on a mobile entry with sub-items flips it open or closed. */
    method Press()
      requires isMobile && HasSubItems(item)
      modifies this
      ensures isOpen == !old(isOpen) && contentHeight == old(contentHeight)
    {
      isOpen := !isOpen;
    }

    /** Hovering in on desktop opens the entry; on mobile it does nothing. */
    method HoverIn()
      modifies this
      ensures isOpen == (old(isOpen) || !isMobile) && contentHeight == old(contentHeight)
      ensures HasSubItems(item) && !isMobile ==> DesktopDropdownShown()
    {
      if !isMobile {
        isOpen := true;
      }
    }

    /** Hovering out on desktop closes the entry; on mobile it does nothing. */
    method HoverOut()
      modifies this
      ensures isOpen == (old(isOpen) && isMobile) && contentHeight == old(contentHeight)
      ensures !DesktopDropdownShown()
    {
      if !isMobile {
        isOpen := false;
      }
    }

    /**
     * `onLayout`: the stored height follows every positive measured height and ignores
     * the others; it thus never becomes negative.
     */
    method OnLayout(height: real)
      requires Valid()
      modifies this
      ensures Valid()
      ensures height > 0.0 ==> contentHeight == height
      ensures height <= 0.0 ==> contentHeight == old(contentHeight)
      ensures isOpen == old(isOpen)
    {
      if height > 0.0 && height != contentHeight {
        contentHeight := height;
      }
    }
  }

  /** The menu of the site, in its source order. */
  function NavItems(): seq<NavItem> {
    [ NavItem("Home", Some("/"), NoField),
      NavItem("Coaching", Some("/coaching"), ArrayOf([
        SubItem("Personal Training", "/coaching/personal"),
        SubItem("Programming", "/coaching/programming"),
        SubItem("Technique Analysis", "/coaching/technique")])),
      NavItem("About", Some("/about"), ArrayOf([
        SubItem("Our Team", "/about/team"),
        SubItem("Philosophy", "/about/philosophy")])),
      NavItem("Contact", Some("/contact"), NoField) ]
  }

  /**
   * On a coaching sub-page the Coaching entry starts open and is highlighted, while Home,
   * which has no sub-items, starts closed whatever the page.
   */
  lemma MenuOnSubPage(pathname: string)
    requires pathname == "/coaching/technique"
    ensures InitiallyOpen(NavItems()[1], pathname) && Highlighted(NavItems()[1], pathname)
    ensures !InitiallyOpen(NavItems()[0], pathname) && !Highlighted(NavItems()[0], pathname)
  {
    assert NavItems()[1].subItems.items[2].href == pathname;
  }
}
