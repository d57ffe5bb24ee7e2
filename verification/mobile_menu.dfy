/** The mobile menu of the main page script (`initMobileMenu`): the menu is
    open while it carries the `active` class, and the icon of its button shows
    a bars glyph (`fa-bars`) or a cross (`fa-times`). Three click handlers
    change that state: the button toggles the menu, a link inside the menu
    closes it, and a click anywhere outside both menu and button closes it. */
module MobileMenu {

  /** The classes the handlers touch: `active` on the menu, `fa-bars` and
      `fa-times` on the button's icon. */
  datatype MenuView = MenuView(active: bool, bars: bool, times: bool)

  /** The icon carries exactly one of the two glyph classes, the cross iff the
      menu is open. */
  predicate IconMatches(v: MenuView) {
    v.times == v.active && v.bars == !v.active
  }

  /** The button handler: toggle `active`, then set the icon from the new state. */
  function Toggled(v: MenuView): (r: MenuView)
    ensures r.active == !v.active
    ensures IconMatches(r)
  {
    var active := !v.active;
    if active then MenuView(active, false, true) else MenuView(active, true, false)
  }

  /** The link handler, and the document handler when it fires: remove
      `active`, show the bars. */
  function Closed(v: MenuView): (r: MenuView)
    ensures !r.active && IconMatches(r)
  {
    MenuView(false, true, false)
  }

  /** The document click handler: it closes the menu only when the click
      target lies neither inside the menu nor inside the button. */
  function AfterDocumentClick(v: MenuView, inMenu: bool, inButton: bool): (r: MenuView)
    ensures inMenu || inButton ==> r == v
    ensures !inMenu && !inButton ==> !r.active && IconMatches(r)
  {
    if !inMenu && !inButton then Closed(v) else v
  }

  /** Closing is idempotent and forgets the state it started from. */
  lemma CloseIdempotent(v: MenuView, w: MenuView)
    ensures Closed(Closed(v)) == Closed(v)
    ensures Closed(v) == Closed(w)
    ensures AfterDocumentClick(AfterDocumentClick(v, false, false), false, false) == AfterDocumentClick(v, false, false)
  {
  }

  /** Toggling twice from a state whose icon matches gives that state back. */
  lemma ToggleTwice(v: MenuView)
    requires IconMatches(v)
    ensures Toggled(Toggled(v)) == v
  {
  }

  /** A click on the button also reaches the document handler, which leaves
      the toggled state alone because the target is inside the button. */
  lemma ButtonClickIsNotUndone(v: MenuView)
    ensures AfterDocumentClick(Toggled(v), false, true) == Toggled(v)
  {
  }

  /** The menu and its button icon. */
  class Menu {
    var active: bool
    var bars: bool
    var times: bool

    function View(): (v: MenuView)
      reads this
    {
      MenuView(active, bars, times)
    }

    constructor (initial: MenuView)
      ensures View() == initial
    {
      active, bars, times := initial.active, initial.bars, initial.times;
    }

    /** Click on the menu button. */
    method OnButtonClick()
      modifies this
      ensures View() == Toggled(old(View()))
      ensures IconMatches(View())
    {
      active := !active;
      if active {
        bars := false;
        times := true;
      } else {
        times := false;
        bars := true;
      }
    }

    /** Click on a link inside the menu. */
    method OnLinkClick()
      modifies this
      ensures View() == Closed(old(View()))
      ensures !active && IconMatches(View())
    {
      active := false;
      times := false;
      bars := true;
    }

    /** Click anywhere in the document; `inMenu` and `inButton` say whether the
      target lies inside the menu or inside the button. */
    method OnDocumentClick(inMenu: bool, inButton: bool)
      modifies this
      ensures View() == AfterDocumentClick(old(View()), inMenu, inButton)
    {
      if !inMenu && !inButton {
        active := false;
        times := false;
        bars := true;
      }
    }
  }
}
