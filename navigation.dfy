/**
 * The two navigation buttons and the two page sections they switch between.
 * The page reads and writes two class names: `active` on the buttons and
 * `active-section` on the sections. Each element's flag records the one class
 * name the page tracks on it. `classList.add`/`remove` with that name set or
 * clear the flag, and `classList.contains` with that name reads it.
 */
module Navigation {

  /** The four elements the handlers touch. */
  datatype Element = HomeButton | StatusButton | DashboardSection | StatusSection

  /** The two class names the page uses. */
  datatype ClassName = Active | ActiveSection

  /** The four class flags, as a value. */
  datatype Flags = Flags(homeActive: bool, statusActive: bool, dashboardShown: bool, statusShown: bool)

  predicate IsButton(e: Element) {
    e == HomeButton || e == StatusButton
  }

  /** The class name an element's flag records: `active` on a button, `active-section` on a section. */
  predicate Tracks(e: Element, cls: ClassName) {
    if IsButton(e) then cls == Active else cls == ActiveSection
  }

  function Get(f: Flags, e: Element): bool {
    match e
    case HomeButton => f.homeActive
    case StatusButton => f.statusActive
    case DashboardSection => f.dashboardShown
    case StatusSection => f.statusShown
  }

  /**
   * `e.classList.add(cls)` (on = true) or `e.classList.remove(cls)`
   * (on = false): only the element's own class name moves its flag.
   */
  function Put(f: Flags, e: Element, cls: ClassName, on: bool): (r: Flags)
    ensures Tracks(e, cls) ==> Get(r, e) == on
    ensures !Tracks(e, cls) ==> r == f
    ensures forall x :: x != e ==> Get(r, x) == Get(f, x)
  {
    if !Tracks(e, cls) then f
    else match e
      case HomeButton => f.(homeActive := on)
      case StatusButton => f.(statusActive := on)
      case DashboardSection => f.(dashboardShown := on)
      case StatusSection => f.(statusShown := on)
  }

  /** Home button and dashboard shown, nothing else. */
  const HomeView := Flags(true, false, true, false)
  /** Status button and status section shown, nothing else. */
  const StatusView := Flags(false, true, false, true)

  /** Exactly one button is active, and its section is the only one shown. */
  predicate OneActive(f: Flags) {
    f == HomeView || f == StatusView
  }

  /** The effect of a click on the Home button. */
  function HomeClick(f: Flags): (r: Flags)
    ensures f.homeActive ==> r == f
    ensures !f.homeActive ==> r == HomeView
  {
    if Get(f, HomeButton) then f
    else
      var f1 := Put(f, StatusSection, ActiveSection, false);
      var f2 := Put(f1, DashboardSection, ActiveSection, true);
      var f3 := Put(f2, StatusButton, Active, false);
      Put(f3, HomeButton, Active, true)
  }

  /** The effect of a click on the Status button. */
  function StatusClick(f: Flags): (r: Flags)
    ensures f.statusActive ==> r == f
    ensures !f.statusActive ==> r == StatusView
  {
    if Get(f, StatusButton) then f
    else
      var f1 := Put(f, DashboardSection, ActiveSection, false);
      var f2 := Put(f1, StatusSection, ActiveSection, true);
      var f3 := Put(f2, HomeButton, Active, false);
      Put(f3, StatusButton, Active, true)
  }

  /**
   * The effect of `switchSection(activeStartBtn, activeEndBtn, showSection,
   * hideSection)`: `active` is removed from the first and added to the second
   * argument, `active-section` is removed from the fourth and added to the
   * third. An element passed in a role of the other kind keeps its flag.
   */
  function Switch(f: Flags, startBtn: Element, endBtn: Element, showSection: Element, hideSection: Element): (r: Flags)
    ensures IsButton(endBtn) ==> Get(r, endBtn)
    ensures IsButton(startBtn) && startBtn != endBtn ==> !Get(r, startBtn)
    ensures !IsButton(showSection) ==> Get(r, showSection)
    ensures !IsButton(hideSection) && hideSection != showSection ==> !Get(r, hideSection)
    ensures forall x ::
      (if IsButton(x) then x != startBtn && x != endBtn else x != showSection && x != hideSection)
      ==> Get(r, x) == Get(f, x)
  {
    var f1 := Put(f, startBtn, Active, false);
    var f2 := Put(f1, endBtn, Active, true);
    var f3 := Put(f2, hideSection, ActiveSection, false);
    Put(f3, showSection, ActiveSection, true)
  }

  /** Clicking the button that is already active changes none of the four flags. */
  lemma ActiveButtonClickIsNoOp(f: Flags)
    ensures f.homeActive ==> HomeClick(f) == f
    ensures f.statusActive ==> StatusClick(f) == f
  {
  }

  /**
   * Both clicks keep "exactly one button active and its section alone shown",
   * and from such a state each click lands in its own view. Without the
   * invariant a Home click from a state whose Home flag is set but whose
   * sections disagree leaves that state as it is.
   */
  lemma ClicksKeepOneActive(f: Flags)
    requires OneActive(f)
    ensures HomeClick(f) == HomeView && StatusClick(f) == StatusView
    ensures OneActive(HomeClick(f)) && OneActive(StatusClick(f))
  {
  }

  /** A second click on the same button changes nothing. */
  lemma ClicksIdempotent(f: Flags)
    ensures HomeClick(HomeClick(f)) == HomeClick(f)
    ensures StatusClick(StatusClick(f)) == StatusClick(f)
  {
  }

  /**
   * The unused `switchSection` helper, called with the Status button as the
   * one to deactivate, does what the Home handler does when Home is not yet
   * active, and symmetrically for Status.
   */
  lemma SwitchMatchesHandlers(f: Flags)
    ensures !f.homeActive ==>
      Switch(f, StatusButton, HomeButton, DashboardSection, StatusSection) == HomeClick(f)
    ensures !f.statusActive ==>
      Switch(f, HomeButton, StatusButton, StatusSection, DashboardSection) == StatusClick(f)
  {
  }

  /**
   * A button passed as a section, or a section as a button, is untouched by
   * that role: removing `active-section` from the Home button does not undo
   * the `active` just added to it, and a section passed as the button to
   * deactivate keeps its `active-section`.
   */
  lemma SwitchKeepsClassesApart()
    ensures Switch(Flags(false, false, false, false),
      StatusButton, HomeButton, DashboardSection, HomeButton).homeActive
    ensures Switch(Flags(false, true, true, false),
      DashboardSection, HomeButton, StatusSection, StatusButton) == Flags(true, true, true, true)
  {
  }

  /** The four flags of the page, updated in place by the click handlers. */
  class NavBar {
    var homeActive: bool
    var statusActive: bool
    var dashboardShown: bool
    var statusShown: bool

    function View(): Flags
      reads this
    {
      Flags(homeActive, statusActive, dashboardShown, statusShown)
    }

    predicate Valid()
      reads this
    {
      OneActive(View())
    }

    /** The flags as the page markup sets them before any click. */
    constructor (initial: Flags)
      ensures View() == initial
    {
      homeActive := initial.homeActive;
      statusActive := initial.statusActive;
      dashboardShown := initial.dashboardShown;
      statusShown := initial.statusShown;
    }

    /**
     * `e.classList.contains(cls)`: the element's flag for its own class name;
     * a class name the page never puts on that kind of element reads as absent.
     */
    function Has(e: Element, cls: ClassName): bool
      reads this
    {
      Tracks(e, cls) && Get(View(), e)
    }

    /** `e.classList.add(cls)` (on = true) or `e.classList.remove(cls)` (on = false). */
    method Set(e: Element, cls: ClassName, on: bool)
      modifies this
      ensures View() == Put(old(View()), e, cls, on)
      ensures Tracks(e, cls) ==> Has(e, cls) == on
    {
      if Tracks(e, cls) {
        match e
        case HomeButton => homeActive := on;
        case StatusButton => statusActive := on;
        case DashboardSection => dashboardShown := on;
        case StatusSection => statusShown := on;
      }
    }

    /** The click handler of the Home button. */
    method ClickHome()
      modifies this
      ensures View() == HomeClick(old(View()))
      ensures old(Valid()) ==> Valid() && View() == HomeView
    {
      if !Has(HomeButton, Active) {
        Set(StatusSection, ActiveSection, false);
        Set(DashboardSection, ActiveSection, true);
        Set(StatusButton, Active, false);
        Set(HomeButton, Active, true);
      }
    }

    /** The click handler of the Status button. */
    method ClickStatus()
      modifies this
      ensures View() == StatusClick(old(View()))
      ensures old(Valid()) ==> Valid() && View() == StatusView
    {
      if !Has(StatusButton, Active) {
        Set(DashboardSection, ActiveSection, false);
        Set(StatusSection, ActiveSection, true);
        Set(HomeButton, Active, false);
        Set(StatusButton, Active, true);
      }
    }

    /** The page's `switchSection` helper, which no handler calls. */
    method SwitchSection(startBtn: Element, endBtn: Element, showSection: Element, hideSection: Element)
      modifies this
      ensures View() == Switch(old(View()), startBtn, endBtn, showSection, hideSection)
    {
      Set(startBtn, Active, false);
      Set(endBtn, Active, true);
      Set(hideSection, ActiveSection, false);
      Set(showSection, ActiveSection, true);
    }
  }
}
