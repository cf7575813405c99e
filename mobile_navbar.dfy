/** Model of the mobile navigation drawer (`MobileNavbar` in mobile-navbar.js).

    The drawer is a binary open/closed toggle. What one toggle does is given
    by the function Toggle on the value Drawer; the class MobileNavbar holds
    the same state in fields and an array (one animation flag per nav link)
    and its methods are proved to act as Toggle and the handler functions
    say. Document-level listeners are a set, since the DOM ignores a second
    registration of the same listener and the removal of an absent one. */
module MobileNav {

  /** The two listeners the drawer registers on the document while open. */
  datatype Listener = OutsideClick | EscapeKey

  const Hidden: string := "hidden"
  const Auto: string := "auto"

  /** The listeners registered while the drawer is open. */
  const OpenListeners: set<Listener> := {OutsideClick, EscapeKey}

  /** The text `setAttribute` stores for a boolean value. */
  function AriaValue(b: bool): (s: string)
    ensures s == "true" <==> b
  {
    if b then "true" else "false"
  }

  /** The drawer's observable state: the open flag, the `active` class on the
      menu button, the link list and the overlay, the menu button's
      `aria-expanded`, the document listeners, the body's overflow and, per
      nav link, whether its reveal animation is set. */
  datatype Drawer = Drawer(
    isOpen: bool,
    menuActive: bool,
    listActive: bool,
    overlayActive: bool,
    ariaExpanded: string,
    listeners: set<Listener>,
    overflow: string,
    animated: seq<bool>)

  /** Every link's animation switched: set where it was clear, cleared where it was set. */
  function FlipAll(links: seq<bool>): (r: seq<bool>)
    ensures |r| == |links|
    ensures forall i :: 0 <= i < |links| ==> r[i] == !links[i]
  {
    if links == [] then [] else [!links[0]] + FlipAll(links[1..])
  }

  /** Switching every link twice restores every link. */
  lemma FlipAllTwice(links: seq<bool>)
    ensures FlipAll(FlipAll(links)) == links
  {
  }

  /** One `handleClick`: the open flag flips, the links keep their number,
      and a drawer that agreed with its open flag still agrees with the new one. */
  function Toggle(d: Drawer): (r: Drawer)
    ensures r.isOpen == !d.isOpen
    ensures |r.animated| == |d.animated|
    ensures Synced(d) ==> Synced(r)
  {
    var open := !d.isOpen;
    Drawer(
      open,
      !d.menuActive,
      !d.listActive,
      !d.overlayActive,
      AriaValue(open),
      if open then d.listeners + OpenListeners else d.listeners - OpenListeners,
      if open then Hidden else Auto,
      FlipAll(d.animated))
  }

  /** The drawer as the page starts it, closed, with `linkCount` nav links. */
  function Initial(linkCount: nat): (d: Drawer)
    ensures Synced(d) && !d.isOpen && |d.animated| == linkCount
  {
    Drawer(false, false, false, false, AriaValue(false), {}, Auto, seq(linkCount, _ => false))
  }

  /** Everything the drawer shows agrees with its open flag. */
  ghost predicate Synced(d: Drawer)
  {
    && d.menuActive == d.isOpen
    && d.listActive == d.isOpen
    && d.overlayActive == d.isOpen
    && d.ariaExpanded == AriaValue(d.isOpen)
    && d.listeners == (if d.isOpen then OpenListeners else {})
    && d.overflow == (if d.isOpen then Hidden else Auto)
    && (forall i :: 0 <= i < |d.animated| ==> d.animated[i] == d.isOpen)
  }

  /** A toggle flips the open flag; `aria-expanded`, the listeners and the
      overflow follow the new flag whatever they were before. */
  lemma ToggleFlipsAndRecords(d: Drawer)
    ensures Toggle(d).isOpen == !d.isOpen
    ensures Toggle(d).ariaExpanded == AriaValue(!d.isOpen)
    ensures Toggle(d).overflow == (if d.isOpen then Auto else Hidden)
    ensures OutsideClick in Toggle(d).listeners <==> !d.isOpen
    ensures EscapeKey in Toggle(d).listeners <==> !d.isOpen
  {
  }

  /** From a synced drawer every toggle leads to a synced drawer: the three
      elements are active, the listeners registered, the body locked and the
      links animated exactly while the drawer is open. */
  lemma ToggleKeepsSynced(d: Drawer)
    requires Synced(d)
    ensures Synced(Toggle(d))
  {
  }

  /** The drawer's state after any number of toggles from the initial one. */
  function AfterToggles(linkCount: nat, k: nat): (d: Drawer)
  {
    if k == 0 then Initial(linkCount) else Toggle(AfterToggles(linkCount, k - 1))
  }

  /** Every state reached by toggling the initial drawer is synced, open
      exactly after an odd number of toggles. */
  lemma {:induction false} TogglesStaySynced(linkCount: nat, k: nat)
    ensures Synced(AfterToggles(linkCount, k))
    ensures AfterToggles(linkCount, k).isOpen <==> k % 2 == 1
    ensures |AfterToggles(linkCount, k).animated| == linkCount
  {
    if k > 0 {
      TogglesStaySynced(linkCount, k - 1);
      ToggleKeepsSynced(AfterToggles(linkCount, k - 1));
    }
  }

  /** Two toggles in a row restore every part of a synced drawer. */
  lemma ToggleTwiceRestores(d: Drawer)
    requires Synced(d)
    ensures Toggle(Toggle(d)) == d
  {
  }

  /** `handleKeyPress`: Enter or space on the menu button toggles. */
  function KeyPress(d: Drawer, key: string): (r: Drawer)
    ensures key == "Enter" || key == " " ==> r.isOpen == !d.isOpen
    ensures key != "Enter" && key != " " ==> r == d
  {
    if key == "Enter" || key == " " then Toggle(d) else d
  }

  /** `handleEscapeKey`: Escape closes an open drawer; it never opens one. */
  function EscapeKeyDown(d: Drawer, key: string): (r: Drawer)
    ensures r.isOpen ==> d.isOpen && r == d
    ensures d.isOpen && key == "Escape" ==> !r.isOpen
    ensures key != "Escape" ==> r == d
    ensures !d.isOpen ==> r == d
  {
    if key == "Escape" && d.isOpen then Toggle(d) else d
  }

  /** `handleOutsideClick`: a click whose target lies outside the menu button,
      the link list and the overlay closes an open drawer; it never opens one. */
  function OutsideClickAt(d: Drawer, inMenu: bool, inList: bool, inOverlay: bool): (r: Drawer)
    ensures r.isOpen ==> d.isOpen && r == d
    ensures d.isOpen && !inMenu && !inList && !inOverlay ==> !r.isOpen
    ensures inMenu || inList || inOverlay ==> r == d
    ensures !d.isOpen ==> r == d
  {
    if d.isOpen && !inMenu && !inList && !inOverlay then Toggle(d) else d
  }

  /** The click handler on each nav link: the drawer is always closed after it. */
  function LinkClick(d: Drawer): (r: Drawer)
    ensures !r.isOpen
    ensures !d.isOpen ==> r == d
  {
    if d.isOpen then Toggle(d) else d
  }

  /** After a link click, a synced drawer is closed and fully cleared. */
  lemma LinkClickClears(d: Drawer)
    requires Synced(d)
    ensures Synced(LinkClick(d))
    ensures LinkClick(d).listeners == {} && LinkClick(d).overflow == Auto
    ensures forall i :: 0 <= i < |d.animated| ==> !LinkClick(d).animated[i]
  {
  }

  class MobileNavbar {
    /** Per nav link: whether its reveal animation is set. */
    const links: array<bool>
    var isOpen: bool
    var menuActive: bool
    var listActive: bool
    var overlayActive: bool
    var ariaExpanded: string
    var listeners: set<Listener>
    var overflow: string

    ghost function State(): Drawer
      reads this, links
    {
      Drawer(isOpen, menuActive, listActive, overlayActive, ariaExpanded, listeners, overflow, links[..])
    }

    ghost predicate Valid()
      reads this, links
    {
      Synced(State())
    }

    /** The drawer after construction and `init`, on a page whose body
        overflow was set to `auto` beforehand. */
    constructor (linkCount: nat)
      ensures Valid() && fresh(links)
      ensures State() == Initial(linkCount)
    {
      links := new bool[linkCount](_ => false);
      isOpen := false;
      menuActive := false;
      listActive := false;
      overlayActive := false;
      ariaExpanded := AriaValue(false);
      listeners := {};
      overflow := Auto;
    }

    /** `animateLinks`: switches each link's animation on or off. */
    method AnimateLinks()
      modifies links
      ensures links[..] == FlipAll(old(links[..]))
    {
      var i := 0;
      while i < links.Length
        invariant i <= links.Length
        invariant forall j :: 0 <= j < i ==> links[j] == !old(links[j])
        invariant forall j :: i <= j < links.Length ==> links[j] == old(links[j])
      {
        links[i] := !links[i];
        i := i + 1;
      }
    }

    /** `handleClick`: one toggle of the drawer. */
    method HandleClick()
      requires Valid()
      modifies this, links
      ensures Valid()
      ensures State() == Toggle(old(State()))
    {
      ghost var before := State();
      isOpen := !isOpen;
      listActive := !listActive;
      menuActive := !menuActive;
      overlayActive := !overlayActive;
      AnimateLinks();
      ariaExpanded := AriaValue(isOpen);
      if isOpen {
        listeners := listeners + OpenListeners;
        overflow := Hidden;
      } else {
        listeners := listeners - OpenListeners;
        overflow := Auto;
      }
      ToggleKeepsSynced(before);
    }

    method HandleKeyPress(key: string)
      requires Valid()
      modifies this, links
      ensures Valid()
      ensures State() == KeyPress(old(State()), key)
    {
      if key == "Enter" || key == " " {
        HandleClick();
      }
    }

    method HandleEscapeKey(key: string)
      requires Valid()
      modifies this, links
      ensures Valid()
      ensures State() == EscapeKeyDown(old(State()), key)
    {
      if key == "Escape" && isOpen {
        HandleClick();
      }
    }

    /** A document click; the flags say whether its target lies inside the
        menu button, the link list or the overlay. */
    method HandleOutsideClick(inMenu: bool, inList: bool, inOverlay: bool)
      requires Valid()
      modifies this, links
      ensures Valid()
      ensures State() == OutsideClickAt(old(State()), inMenu, inList, inOverlay)
    {
      if isOpen && !inMenu && !inList && !inOverlay {
        HandleClick();
      }
    }

    method HandleLinkClick()
      requires Valid()
      modifies this, links
      ensures Valid()
      ensures State() == LinkClick(old(State()))
    {
      if isOpen {
        HandleClick();
      }
    }
  }
}
