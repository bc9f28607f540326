/**
 * `TTDBottomPager`: a horizontally paged scroll view of child view controllers
 * with a row of tab menu items. `currentPage` indexes the controllers; a page
 * change highlights exactly one menu item and tells the delegate which
 * controller is now shown. The screen width is a positive parameter.
 */
module Paging {
  import opened Counting

  /** Identity of a child view controller. */
  datatype ViewController = ViewController(id: nat)

  /** A tab menu item: its button's tag and whether it is highlighted. */
  datatype MenuItem = MenuItem(tag: int, selected: bool)

  /** A layout constraint set for one child: its leading offset and its width. */
  datatype Placement = Placement(controller: ViewController, leadingX: real, width: real)

  /** Calls received by the (weak, optional) delegate. */
  datatype DelegateCall = DidScroll | DidSelectController(controller: ViewController)

  function IsHighlighted(mi: MenuItem): bool {
    mi.selected
  }

  /** The items `reload` appends: one per controller, tagged with its index, not highlighted. */
  function TabItems(n: nat): (items: seq<MenuItem>)
    ensures |items| == n
    ensures forall i :: 0 <= i < n ==> items[i] == MenuItem(i, false)
  {
    seq(n, i => MenuItem(i, false))
  }

  /** Child `k` sits at `k * width` and is one screen wide. */
  function Placements(controllers: seq<ViewController>, width: real): (ps: seq<Placement>)
    ensures |ps| == |controllers|
    ensures forall k :: 0 <= k < |ps| ==> ps[k] == Placement(controllers[k], k as real * width, width)
  {
    seq(|controllers|, k requires 0 <= k < |controllers| => Placement(controllers[k], k as real * width, width))
  }

  /** Highlight item `k`, leaving the others as they are. */
  function Highlight(items: seq<MenuItem>, k: nat): (r: seq<MenuItem>)
    requires k < |items|
    ensures |r| == |items| && r[k].selected && r[k].tag == items[k].tag
    ensures forall i :: 0 <= i < |items| && i != k ==> r[i] == items[i]
  {
    items[k := items[k].(selected := true)]
  }

  /** Every item keeps its tag; item `i` ends up highlighted exactly when `i == page`. */
  function HighlightOnly(items: seq<MenuItem>, page: int): (r: seq<MenuItem>)
    ensures |r| == |items|
    ensures forall i :: 0 <= i < |r| ==> r[i].tag == items[i].tag && (r[i].selected <==> i == page)
  {
    seq(|items|, i requires 0 <= i < |items| => items[i].(selected := i == page))
  }

  /** The guard of `selectPage`. */
  predicate Accepts(page: int, currentPage: int, count: nat) {
    page != currentPage && 0 <= page < count
  }

  /** Exactly one menu item is highlighted after a page is chosen within the items,
      and it is the one at that page. */
  lemma HighlightOnlyExactlyOne(items: seq<MenuItem>, page: int)
    requires 0 <= page < |items|
    ensures CountWhere(HighlightOnly(items, page), IsHighlighted) == 1
    ensures HighlightOnly(items, page)[page].selected
  {
    CountWhereOnlyAt(HighlightOnly(items, page), IsHighlighted, page);
  }

  /** The first `reload` of a pager without menu items leaves one tab per
      controller, tab `i` tagged `i`, and only the first highlighted. */
  lemma FirstReloadTabs(n: nat)
    requires n > 0
    ensures var items := Highlight([] + TabItems(n), 0);
      |items| == n &&
      (forall i :: 0 <= i < n ==> items[i].tag == i) &&
      CountWhere(items, IsHighlighted) == 1 && items[0].selected
  {
    var items := Highlight([] + TabItems(n), 0);
    CountWhereOnlyAt(items, IsHighlighted, 0);
  }

  class BottomPager {
    /** `UIScreen.main.bounds.width` */
    const screenWidth: real
    var controllers: seq<ViewController>
    var menuItems: seq<MenuItem>
    var currentPage: int
    /** Whether the weak `delegate` is set. */
    var hasDelegate: bool
    var delegateCalls: seq<DelegateCall>
    /** The leading/width constraints activated for the children, in order. */
    var constraints: seq<Placement>
    var contentWidth: real
    var contentOffsetX: real

    ghost predicate Valid()
      reads this
    {
      screenWidth > 0.0 && 0 <= currentPage && |controllers| <= |menuItems|
    }

    /** `currentPage` names a controller, so `currentController` is defined. */
    predicate PageInRange()
      reads this
    {
      0 <= currentPage < |controllers|
    }

    /** `currentController` */
    function CurrentController(): (vc: ViewController)
      reads this
      requires PageInRange()
      ensures vc in controllers
    {
      controllers[currentPage]
    }

    constructor (screenWidth: real)
      requires screenWidth > 0.0
      ensures Valid() && this.screenWidth == screenWidth
      ensures controllers == [] && menuItems == [] && currentPage == 0
      ensures !hasDelegate && delegateCalls == [] && constraints == []
      ensures contentWidth == 0.0 && contentOffsetX == 0.0
    {
      this.screenWidth := screenWidth;
      controllers := [];
      menuItems := [];
      currentPage := 0;
      hasDelegate := false;
      delegateCalls := [];
      constraints := [];
      contentWidth := 0.0;
      contentOffsetX := 0.0;
    }

    method SetDelegate(present: bool)
      modifies this`hasDelegate
      ensures hasDelegate == present
      ensures controllers == old(controllers) && menuItems == old(menuItems) && currentPage == old(currentPage)
      ensures delegateCalls == old(delegateCalls)
    {
      hasDelegate := present;
    }

    /** Assigning `controllers`, whose `didSet` runs `reload`. The menu must end
        up non-empty, since `reload` reads `menuItems[0]`. */
    method SetControllers(cs: seq<ViewController>)
      requires Valid()
      requires |menuItems| + |cs| > 0
      modifies this
      ensures Valid() && controllers == cs
      ensures menuItems == Highlight(old(menuItems) + TabItems(|cs|), 0)
      ensures constraints == old(constraints) + Placements(cs, screenWidth)
      ensures contentWidth == |cs| as real * screenWidth
      ensures currentPage == old(currentPage) && contentOffsetX == old(contentOffsetX)
      ensures hasDelegate == old(hasDelegate) && delegateCalls == old(delegateCalls)
    {
      controllers := cs;
      Reload();
    }

    /** `reload`: lays every controller out one screen apart, sets the content
        width, appends a tagged menu item per controller (existing items stay)
        and highlights the first menu item. */
    method Reload()
      requires |menuItems| + |controllers| > 0
      modifies this`constraints, this`contentWidth, this`menuItems
      ensures controllers == old(controllers) && currentPage == old(currentPage)
      ensures menuItems == Highlight(old(menuItems) + TabItems(|controllers|), 0)
      ensures constraints == old(constraints) + Placements(controllers, screenWidth)
      ensures contentWidth == |controllers| as real * screenWidth
      ensures contentOffsetX == old(contentOffsetX)
      ensures hasDelegate == old(hasDelegate) && delegateCalls == old(delegateCalls)
    {
      LayOutChildren();
      contentWidth := |controllers| as real * screenWidth;
      AppendTabs();
      menuItems := menuItems[0 := menuItems[0].(selected := true)];
    }

    /** The first loop of `reload`: child `index` is constrained at `index * width`. */
    method LayOutChildren()
      modifies this`constraints
      ensures constraints == old(constraints) + Placements(controllers, screenWidth)
    {
      ghost var placements := Placements(controllers, screenWidth);
      var index := 0;
      while index < |controllers|
        invariant 0 <= index <= |controllers|
        invariant constraints == old(constraints) + placements[..index]
      {
        var x := index as real * screenWidth;
        assert placements[index] == Placement(controllers[index], x, screenWidth);
        constraints := constraints + [Placement(controllers[index], x, screenWidth)];
        assert placements[..index + 1] == placements[..index] + [placements[index]];
        index := index + 1;
      }
      assert placements[..index] == placements;
    }

    /** The second loop of `reload`: a menu item tagged with each controller's index. */
    method AppendTabs()
      modifies this`menuItems
      ensures menuItems == old(menuItems) + TabItems(|controllers|)
    {
      ghost var tabs := TabItems(|controllers|);
      var index := 0;
      while index < |controllers|
        invariant 0 <= index <= |controllers|
        invariant menuItems == old(menuItems) + tabs[..index]
      {
        menuItems := menuItems + [MenuItem(index, false)];
        assert tabs[..index + 1] == tabs[..index] + [tabs[index]];
        index := index + 1;
      }
      assert tabs[..index] == tabs;
    }

    /** `scrollViewDidScroll`: forwarded to the delegate. */
    method ScrollViewDidScroll()
      modifies this`delegateCalls
      ensures delegateCalls == old(delegateCalls) + (if hasDelegate then [DidScroll] else [])
      ensures controllers == old(controllers) && menuItems == old(menuItems) && currentPage == old(currentPage)
      ensures hasDelegate == old(hasDelegate)
    {
      if hasDelegate {
        delegateCalls := delegateCalls + [DidScroll];
      }
    }

    /** `selectPage`: an unchanged or out-of-range page is ignored; otherwise the
        page becomes current, only its menu item is highlighted and the delegate
        (when set) is told the controller once. */
    method SelectPage(page: int) returns (accepted: bool)
      requires Valid()
      modifies this`currentPage, this`menuItems, this`delegateCalls
      ensures Valid()
      ensures accepted == Accepts(page, old(currentPage), |controllers|)
      ensures !accepted ==>
        currentPage == old(currentPage) && menuItems == old(menuItems) && delegateCalls == old(delegateCalls)
      ensures accepted ==> currentPage == page && PageInRange()
      ensures accepted ==> menuItems == HighlightOnly(old(menuItems), page)
      ensures accepted ==>
        delegateCalls == old(delegateCalls) + (if hasDelegate then [DidSelectController(controllers[page])] else [])
      ensures old(PageInRange()) ==> PageInRange()
    {
      if !(page != currentPage && page >= 0 && page < |controllers|) {
        return false;
      }
      currentPage := page;
      var i := 0;
      while i < |menuItems|
        invariant 0 <= i <= |menuItems| == |old(menuItems)|
        invariant forall j :: 0 <= j < i ==> menuItems[j] == old(menuItems)[j].(selected := j == page)
        invariant forall j :: i <= j < |menuItems| ==> menuItems[j] == old(menuItems)[j]
        invariant currentPage == page && delegateCalls == old(delegateCalls)
      {
        if i == page {
          menuItems := menuItems[i := menuItems[i].(selected := true)];
        } else {
          menuItems := menuItems[i := menuItems[i].(selected := false)];
        }
        i := i + 1;
      }
      if hasDelegate {
        delegateCalls := delegateCalls + [DidSelectController(controllers[page])];
      }
      return true;
    }

    /** `showPage`: scrolls to the page's offset, even when it is already
        current, then runs `selectPage`. */
    method ShowPage(page: int) returns (accepted: bool)
      requires Valid()
      modifies this`contentOffsetX, this`currentPage, this`menuItems, this`delegateCalls
      ensures Valid()
      ensures contentOffsetX == page as real * screenWidth
      ensures accepted == Accepts(page, old(currentPage), |controllers|)
      ensures !accepted ==>
        currentPage == old(currentPage) && menuItems == old(menuItems) && delegateCalls == old(delegateCalls)
      ensures accepted ==> currentPage == page && menuItems == HighlightOnly(old(menuItems), page)
      ensures accepted ==>
        delegateCalls == old(delegateCalls) + (if hasDelegate then [DidSelectController(controllers[page])] else [])
    {
      contentOffsetX := page as real * screenWidth;
      accepted := SelectPage(page);
    }

    /** `tabTapped`: the tapped button's tag is the page to show. */
    method TabTapped(tag: int) returns (accepted: bool)
      requires Valid()
      modifies this`contentOffsetX, this`currentPage, this`menuItems, this`delegateCalls
      ensures Valid()
      ensures contentOffsetX == tag as real * screenWidth
      ensures accepted == Accepts(tag, old(currentPage), |controllers|)
      ensures !accepted ==>
        currentPage == old(currentPage) && menuItems == old(menuItems) && delegateCalls == old(delegateCalls)
      ensures accepted ==> currentPage == tag && menuItems == HighlightOnly(old(menuItems), tag)
      ensures accepted ==>
        delegateCalls == old(delegateCalls) + (if hasDelegate then [DidSelectController(controllers[tag])] else [])
    {
      accepted := ShowPage(tag);
    }

    /** `scrollViewWillEndDragging`: `targetIndex` is the page the drag settles on,
        computed from the target offset; it is selected when the menu is not
        empty and the page differs from the current one. */
    method ScrollViewWillEndDragging(targetIndex: int) returns (accepted: bool)
      requires Valid()
      modifies this`currentPage, this`menuItems, this`delegateCalls
      ensures Valid()
      ensures accepted == (|menuItems| > 0 && Accepts(targetIndex, old(currentPage), |controllers|))
      ensures !accepted ==>
        currentPage == old(currentPage) && menuItems == old(menuItems) && delegateCalls == old(delegateCalls)
      ensures accepted ==> currentPage == targetIndex && menuItems == HighlightOnly(old(menuItems), targetIndex)
      ensures accepted ==>
        delegateCalls == old(delegateCalls) + (if hasDelegate then [DidSelectController(controllers[targetIndex])] else [])
    {
      accepted := false;
      if |menuItems| > 0 && targetIndex != currentPage {
        accepted := SelectPage(targetIndex);
      }
    }

    /** `startOnPage`: sets the page without the range guard of `selectPage`,
        scrolls there without animation (which forwards one scroll to the
        delegate when the offset moves), clears every highlight and highlights
        the page's item; a page outside the menu items traps at `menuItems[page]`. */
    method StartOnPage(page: int)
      requires Valid()
      requires 0 <= page < |menuItems|
      modifies this`currentPage, this`contentOffsetX, this`menuItems, this`delegateCalls
      ensures Valid()
      ensures currentPage == page && contentOffsetX == page as real * screenWidth
      ensures menuItems == HighlightOnly(old(menuItems), page)
      ensures delegateCalls == old(delegateCalls) +
        (if hasDelegate && contentOffsetX != old(contentOffsetX) then [DidScroll] else [])
    {
      currentPage := page;
      var x := page as real * screenWidth;
      if x != contentOffsetX {
        // an unanimated offset change calls `scrollViewDidScroll` at once
        contentOffsetX := x;
        ScrollViewDidScroll();
      }
      var i := 0;
      while i < |menuItems|
        invariant 0 <= i <= |menuItems| == |old(menuItems)|
        invariant forall j :: 0 <= j < i ==> menuItems[j] == old(menuItems)[j].(selected := false)
        invariant forall j :: i <= j < |menuItems| ==> menuItems[j] == old(menuItems)[j]
        invariant currentPage == page && contentOffsetX == page as real * screenWidth
        invariant delegateCalls ==
          old(delegateCalls) + (if hasDelegate && contentOffsetX != old(contentOffsetX) then [DidScroll] else [])
      {
        menuItems := menuItems[i := menuItems[i].(selected := false)];
        i := i + 1;
      }
      menuItems := menuItems[page := menuItems[page].(selected := true)];
    }
  }
}
