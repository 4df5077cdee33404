/** The navigation bar's two flags: `isScrolled`, recomputed from the scroll
    offset on every scroll event, and `isMobileMenuOpen`, flipped by the menu
    button and cleared by a click on any mobile link. */
module Navigation {

  /** The offset, in pixels, beyond which the bar counts as scrolled. */
  const ScrollThreshold: real := 50.0

  /** `window.scrollY > 50`: strictly beyond the threshold. */
  function IsScrolledAt(scrollY: real): (scrolled: bool)
    ensures scrollY == ScrollThreshold ==> !scrolled
  {
    scrollY > ScrollThreshold
  }

  datatype NavState = NavState(isScrolled: bool, isMobileMenuOpen: bool)

  /** A scroll event carrying the new offset, a press of the menu button, or a
      click on one of the mobile menu's links. */
  datatype NavEvent = Scroll(scrollY: real) | MenuButton | LinkClick

  /** Both flags start false. */
  function Initial(): (s: NavState)
    ensures !s.isScrolled && !s.isMobileMenuOpen
  {
    NavState(false, false)
  }

  /** Each handler writes only its own flag. */
  function Apply(s: NavState, e: NavEvent): (s': NavState)
    ensures e.Scroll? ==> s'.isMobileMenuOpen == s.isMobileMenuOpen
    ensures !e.Scroll? ==> s'.isScrolled == s.isScrolled
  {
    match e
    case Scroll(y) => s.(isScrolled := IsScrolledAt(y))
    case MenuButton => s.(isMobileMenuOpen := !s.isMobileMenuOpen)
    case LinkClick => s.(isMobileMenuOpen := false)
  }

  function Run(s: NavState, es: seq<NavEvent>): NavState
    decreases |es|
  {
    if es == [] then s else Run(Apply(s, es[0]), es[1..])
  }

  /** The menu button flips the menu flag; two presses restore it. */
  lemma MenuButtonTwiceRestores(s: NavState)
    ensures Apply(s, MenuButton).isMobileMenuOpen == !s.isMobileMenuOpen
    ensures Apply(Apply(s, MenuButton), MenuButton) == s
  {
  }

  /** A link click closes the menu whatever it was; a second click changes nothing. */
  lemma LinkClickCloses(s: NavState)
    ensures !Apply(s, LinkClick).isMobileMenuOpen
    ensures Apply(Apply(s, LinkClick), LinkClick) == Apply(s, LinkClick)
  {
  }

  /** The events of a run that the scroll listener handles. */
  function ScrollEvents(es: seq<NavEvent>): (r: seq<NavEvent>)
    ensures |r| <= |es|
    ensures forall j :: 0 <= j < |r| ==> r[j].Scroll?
    decreases |es|
  {
    if es == [] then []
    else if es[0].Scroll? then [es[0]] + ScrollEvents(es[1..])
    else ScrollEvents(es[1..])
  }

  /** The events of a run that the click handlers handle. */
  function ClickEvents(es: seq<NavEvent>): (r: seq<NavEvent>)
    ensures |r| <= |es|
    ensures forall j :: 0 <= j < |r| ==> !r[j].Scroll?
    decreases |es|
  {
    if es == [] then []
    else if es[0].Scroll? then ClickEvents(es[1..])
    else [es[0]] + ClickEvents(es[1..])
  }

  /** Scroll events never change the menu flag, and clicks never change
      `isScrolled`: each flag is determined by its own events alone. */
  lemma {:induction false} FlagsAreIndependent(s: NavState, es: seq<NavEvent>)
    ensures Run(s, es).isScrolled == Run(s, ScrollEvents(es)).isScrolled
    ensures Run(s, es).isMobileMenuOpen == Run(s, ClickEvents(es)).isMobileMenuOpen
    decreases |es|
  {
    if es != [] {
      var t := Apply(s, es[0]);
      FlagsAreIndependent(t, es[1..]);
      if es[0].Scroll? {
        assert ScrollEvents(es) == [es[0]] + ScrollEvents(es[1..]);
        assert ([es[0]] + ScrollEvents(es[1..]))[1..] == ScrollEvents(es[1..]);
        ClicksIgnoreScrolled(s, t, ClickEvents(es[1..]));
      } else {
        assert ClickEvents(es) == [es[0]] + ClickEvents(es[1..]);
        assert ([es[0]] + ClickEvents(es[1..]))[1..] == ClickEvents(es[1..]);
        ScrollsIgnoreMenu(s, t, ScrollEvents(es[1..]));
      }
    }
  }

  /** Running only clicks, the menu flag does not depend on `isScrolled`. */
  lemma {:induction false} ClicksIgnoreScrolled(s: NavState, t: NavState, es: seq<NavEvent>)
    requires s.isMobileMenuOpen == t.isMobileMenuOpen
    ensures Run(s, es).isMobileMenuOpen == Run(t, es).isMobileMenuOpen
    decreases |es|
  {
    if es != [] {
      ClicksIgnoreScrolled(Apply(s, es[0]), Apply(t, es[0]), es[1..]);
    }
  }

  /** Running only scrolls, `isScrolled` does not depend on the menu flag. */
  lemma {:induction false} ScrollsIgnoreMenu(s: NavState, t: NavState, es: seq<NavEvent>)
    requires s.isScrolled == t.isScrolled
    ensures Run(s, es).isScrolled == Run(t, es).isScrolled
    decreases |es|
  {
    if es != [] {
      ScrollsIgnoreMenu(Apply(s, es[0]), Apply(t, es[0]), es[1..]);
    }
  }

  /** `isScrolled` reflects the latest scroll offset only: after a run that
      ends with a scroll to `y`, followed by clicks alone, it is `y > 50`. */
  lemma {:induction false} LatestScrollDecides(s: NavState, es: seq<NavEvent>, y: real, clicks: seq<NavEvent>)
    requires forall j :: 0 <= j < |clicks| ==> !clicks[j].Scroll?
    ensures Run(s, es + [Scroll(y)] + clicks).isScrolled == IsScrolledAt(y)
    decreases |es|
  {
    if es == [] {
      assert ([Scroll(y)] + clicks)[1..] == clicks;
      ClicksKeepScrolled(Apply(s, Scroll(y)), clicks);
    } else {
      assert (es + [Scroll(y)] + clicks)[1..] == es[1..] + [Scroll(y)] + clicks;
      LatestScrollDecides(Apply(s, es[0]), es[1..], y, clicks);
    }
  }

  lemma {:induction false} ClicksKeepScrolled(s: NavState, clicks: seq<NavEvent>)
    requires forall j :: 0 <= j < |clicks| ==> !clicks[j].Scroll?
    ensures Run(s, clicks).isScrolled == s.isScrolled
    decreases |clicks|
  {
    if clicks != [] {
      ClicksKeepScrolled(Apply(s, clicks[0]), clicks[1..]);
    }
  }

  /** The icon on the menu button. */
  datatype Icon = CloseIcon | MenuIcon

  /** The close icon exactly when the menu is open, the hamburger otherwise. */
  function ButtonIcon(isMobileMenuOpen: bool): (icon: Icon)
    ensures icon == CloseIcon <==> isMobileMenuOpen
  {
    if isMobileMenuOpen then CloseIcon else MenuIcon
  }

  /** The icon follows the menu flag: the button swaps it, a link click
      brings back the hamburger, and a scroll leaves it. */
  lemma IconFollowsMenu(s: NavState, e: NavEvent)
    ensures e.MenuButton? ==>
      ButtonIcon(Apply(s, e).isMobileMenuOpen) != ButtonIcon(s.isMobileMenuOpen)
    ensures e.LinkClick? ==> ButtonIcon(Apply(s, e).isMobileMenuOpen) == MenuIcon
    ensures e.Scroll? ==> ButtonIcon(Apply(s, e).isMobileMenuOpen) == ButtonIcon(s.isMobileMenuOpen)
  {
  }

  /** The component's state. */
  class Navbar {
    var isScrolled: bool
    var isMobileMenuOpen: bool

    function State(): NavState
      reads this
    {
      NavState(isScrolled, isMobileMenuOpen)
    }

    constructor ()
      ensures State() == Initial()
    {
      isScrolled := false;
      isMobileMenuOpen := false;
    }

    /** `handleScroll`, given the current `window.scrollY`. */
    method HandleScroll(scrollY: real)
      modifies this
      ensures State() == Apply(old(State()), Scroll(scrollY))
    {
      isScrolled := scrollY > 50.0;
    }

    /** The mobile menu button's `onClick`. */
    method ToggleMenu()
      modifies this
      ensures State() == Apply(old(State()), MenuButton)
    {
      isMobileMenuOpen := !isMobileMenuOpen;
    }

    /** The `onClick` of a mobile menu link. */
    method CloseMenu()
      modifies this
      ensures State() == Apply(old(State()), LinkClick)
    {
      isMobileMenuOpen := false;
    }

    /** The icon the menu button currently shows. */
    function CurrentIcon(): (icon: Icon)
      reads this
      ensures icon == ButtonIcon(isMobileMenuOpen)
    {
      ButtonIcon(isMobileMenuOpen)
    }
  }
}
