/** Every menu screen behind one interface: its navigation records, the
    element it focuses on spawn, and what selecting an element sends (the
    `spawn_*` and `handle_ui_selection` systems of src/ui/). */
module Screens {

  import opened Wrappers
  import opened UiElements
  import opened UiManager
  import opened Selection
  import TitleScreen
  import LoadSaveScreen
  import CreditsScreen
  import GameoverScreen
  import OptionsMenuScreen
  import OptionsPages

  datatype Screen = Title | LoadSave | Credits | Gameover | OptionsMenu | Page(page: OptionsPages.Page)

  function Layout(s: Screen): seq<UiNavigation>
  {
    match s
    case Title => TitleScreen.Layout
    case LoadSave => LoadSaveScreen.Layout
    case Credits => CreditsScreen.Layout
    case Gameover => GameoverScreen.Layout
    case OptionsMenu => OptionsMenuScreen.Layout
    case Page(p) => OptionsPages.Layout(p)
  }

  /** The element a screen focuses when spawned, read from the remembered focus. */
  function InitialElement(s: Screen, focus: InitialUiFocus): UiElement
  {
    match s
    case Title => UiElement.Title(focus.title)
    case LoadSave => UiElement.LoadSave(focus.loadsave)
    case Credits => UiElement.Credits(focus.credits)
    case Gameover => UiElement.Gameover(focus.gameover)
    case OptionsMenu => UiElement.OptionsMenu(focus.optionsMenu)
    case Page(p) => OptionsPages.BackOf(p)
  }

  /** The elements a screen's selection handler recognises as its own. */
  predicate Belongs(s: Screen, e: UiElement)
  {
    match s
    case Title => e.Title?
    case LoadSave => e.LoadSave?
    case Credits => e.Credits?
    case Gameover => e.Gameover?
    case OptionsMenu => e.OptionsMenu?
    case Page(p) => e == OptionsPages.BackOf(p)
  }

  function React(s: Screen, e: UiElement, focus: InitialUiFocus): Outcome
    requires Belongs(s, e)
  {
    match s
    case Title => TitleScreen.React(e.title, focus)
    case LoadSave => LoadSaveScreen.React(e.loadsave, focus)
    case Credits => CreditsScreen.React(e.credits, focus)
    case Gameover => GameoverScreen.React(e.gameover, focus)
    case OptionsMenu => OptionsMenuScreen.React(e.optionsMenu, focus)
    case Page(p) => OptionsPages.React(p, focus)
  }

  /** `handle_ui_selection`: on a just-pressed Select, the first focused
      element acts if it belongs to the screen; a foreign element only logs
      an error. Without a press or a focused element nothing happens. */
  function HandleSelection(s: Screen, selectPressed: bool, nodes: seq<Node>, focus: InitialUiFocus): (r: Outcome)
    ensures !selectPressed || FocusedElement(nodes).None? ==> r == Nothing(focus)
    ensures selectPressed && FocusedElement(nodes).Some? && !Belongs(s, FocusedElement(nodes).value) ==>
              r == Outcome(focus, [], true)
    ensures r.requests != [] ==> selectPressed && FocusedElement(nodes).Some? &&
                                 Belongs(s, FocusedElement(nodes).value) && !r.error
  {
    if !selectPressed then Nothing(focus)
    else
      match FocusedElement(nodes)
      case None => Nothing(focus)
      case Some(e) => if Belongs(s, e) then React(s, e, focus) else Outcome(focus, [], true)
  }

  /** A screen's records have distinct, named ids that belong to the
      screen; the multi-button screens are vertical rings and the
      single-button ones have no edges; every element of the screen, and in
      particular the remembered one, is spawned. */
  ghost predicate WellFormed(s: Screen)
  {
    && DistinctIds(Layout(s)) && NamedIds(Layout(s))
    && (s.Credits? || s.Page? ==> Isolated(Layout(s)))
    && (!(s.Credits? || s.Page?) ==> VerticalRing(Layout(s)))
    && (forall k :: 0 <= k < |Layout(s)| ==> Belongs(s, Layout(s)[k].selfId))
    && (forall e :: Belongs(s, e) ==> InLayout(Layout(s), e))
    && (forall focus :: Belongs(s, InitialElement(s, focus)))
  }

  lemma LayoutWellFormed(s: Screen)
    ensures WellFormed(s)
  {
    match s
    case Title => TitleWellFormed();
    case LoadSave => LoadSaveWellFormed();
    case Gameover => GameoverWellFormed();
    case OptionsMenu => OptionsMenuWellFormed();
    case Credits => CreditsScreen.LayoutShape();
    case Page(p) => OptionsPages.LayoutShape();
  }

  lemma TitleWellFormed()
    ensures WellFormed(Screen.Title)
  {
    assert Layout(Screen.Title) == TitleScreen.Layout;
    TitleScreen.LayoutRing();
    TitleIdsBelong();
    TitleAllSpawned();
  }

  lemma TitleIdsBelong()
    ensures forall k :: 0 <= k < |Layout(Screen.Title)| ==> Layout(Screen.Title)[k].selfId.Title?
  {
    TitleScreen.LayoutIds();
  }

  lemma TitleAllSpawned()
    ensures forall e :: Belongs(Screen.Title, e) ==> InLayout(Layout(Screen.Title), e)
  {
    TitleScreen.LayoutIds();
    forall e | Belongs(Screen.Title, e) ensures InLayout(Layout(Screen.Title), e) {
      assert e.title in TitleScreen.Buttons;
      var k :| 0 <= k < |TitleScreen.Buttons| && TitleScreen.Buttons[k] == e.title;
      assert Layout(Screen.Title)[k].selfId == e;
    }
  }

  lemma LoadSaveWellFormed()
    ensures WellFormed(Screen.LoadSave)
  {
    assert Layout(Screen.LoadSave) == LoadSaveScreen.Layout;
    LoadSaveScreen.LayoutRing();
    LoadSaveIdsBelong();
    LoadSaveAllSpawned();
  }

  lemma LoadSaveIdsBelong()
    ensures forall k :: 0 <= k < |Layout(Screen.LoadSave)| ==> Layout(Screen.LoadSave)[k].selfId.LoadSave?
  {
    LoadSaveScreen.LayoutIds();
  }

  lemma LoadSaveAllSpawned()
    ensures forall e :: Belongs(Screen.LoadSave, e) ==> InLayout(Layout(Screen.LoadSave), e)
  {
    LoadSaveScreen.LayoutIds();
    forall e | Belongs(Screen.LoadSave, e) ensures InLayout(Layout(Screen.LoadSave), e) {
      assert e.loadsave in LoadSaveScreen.Buttons;
      var k :| 0 <= k < |LoadSaveScreen.Buttons| && LoadSaveScreen.Buttons[k] == e.loadsave;
      assert Layout(Screen.LoadSave)[k].selfId == e;
    }
  }

  lemma GameoverWellFormed()
    ensures WellFormed(Screen.Gameover)
  {
    assert Layout(Screen.Gameover) == GameoverScreen.Layout;
    GameoverScreen.LayoutRing();
    GameoverIdsBelong();
    GameoverAllSpawned();
  }

  lemma GameoverIdsBelong()
    ensures forall k :: 0 <= k < |Layout(Screen.Gameover)| ==> Layout(Screen.Gameover)[k].selfId.Gameover?
  {
    GameoverScreen.LayoutIds();
  }

  lemma GameoverAllSpawned()
    ensures forall e :: Belongs(Screen.Gameover, e) ==> InLayout(Layout(Screen.Gameover), e)
  {
    GameoverScreen.LayoutIds();
    forall e | Belongs(Screen.Gameover, e) ensures InLayout(Layout(Screen.Gameover), e) {
      assert e.gameover in GameoverScreen.Buttons;
      var k :| 0 <= k < |GameoverScreen.Buttons| && GameoverScreen.Buttons[k] == e.gameover;
      assert Layout(Screen.Gameover)[k].selfId == e;
    }
  }

  lemma OptionsMenuWellFormed()
    ensures WellFormed(Screen.OptionsMenu)
  {
    assert Layout(Screen.OptionsMenu) == OptionsMenuScreen.Layout;
    OptionsMenuScreen.LayoutRing();
    OptionsMenuIdsBelong();
    OptionsMenuAllSpawned();
  }

  lemma OptionsMenuIdsBelong()
    ensures forall k :: 0 <= k < |Layout(Screen.OptionsMenu)| ==> Layout(Screen.OptionsMenu)[k].selfId.OptionsMenu?
  {
    OptionsMenuScreen.LayoutIds();
  }

  lemma OptionsMenuAllSpawned()
    ensures forall e :: Belongs(Screen.OptionsMenu, e) ==> InLayout(Layout(Screen.OptionsMenu), e)
  {
    OptionsMenuScreen.LayoutIds();
    forall e | Belongs(Screen.OptionsMenu, e) ensures InLayout(Layout(Screen.OptionsMenu), e) {
      assert e.optionsMenu in OptionsMenuScreen.Buttons;
      var k :| 0 <= k < |OptionsMenuScreen.Buttons| && OptionsMenuScreen.Buttons[k] == e.optionsMenu;
      assert Layout(Screen.OptionsMenu)[k].selfId == e;
    }
  }

  /** `spawn_*`: the screen's buttons with the remembered element focused. */
  function SpawnScreen(s: Screen, focus: InitialUiFocus): (nodes: seq<Node>)
    ensures UniqueFocus(nodes) && FocusedElement(nodes) == Some(InitialElement(s, focus))
    ensures Closed(nodes)
  {
    LayoutWellFormed(s);
    SpawnFocusesOne(Layout(s), InitialElement(s, focus));
    SpawnClosed(Layout(s), InitialElement(s, focus));
    Spawn(Layout(s), InitialElement(s, focus))
  }

  /** With the default remembered focus every screen spawns focused on its
      first button. */
  lemma DefaultFocusIsFirstButton(s: Screen)
    ensures InitialElement(s, DefaultFocus) == Layout(s)[0].selfId
  {
  }

  /** Navigating a spawned screen keeps exactly one of its own elements
      focused: the neighbour in the pressed direction, or the same element
      when there is no edge that way. */
  lemma NavigationStaysOnScreen(s: Screen, e: UiElement, d: Direction)
    requires Belongs(s, e)
    ensures var t := Target(Spawn(Layout(s), e), d);
            && Navigate(true, d, Spawn(Layout(s), e)) == Spawn(Layout(s), if t == UiElement.None then e else t)
            && Belongs(s, if t == UiElement.None then e else t)
  {
    LayoutWellFormed(s);
    var layout := Layout(s);
    StaysOnLayout(layout, e, d);
    var t := Target(Spawn(layout, e), d);
    if t != UiElement.None {
      var k :| 0 <= k < |layout| && layout[k].selfId == t;
      assert Belongs(s, layout[k].selfId);
    }
  }

  /** The layout-level half of the above: a press on a spawned ring or
      isolated layout leads to one of its own records. */
  lemma StaysOnLayout(layout: seq<UiNavigation>, e: UiElement, d: Direction)
    requires DistinctIds(layout) && (VerticalRing(layout) || Isolated(layout)) && InLayout(layout, e)
    ensures var t := Target(Spawn(layout, e), d);
            && Navigate(true, d, Spawn(layout, e)) == Spawn(layout, if t == UiElement.None then e else t)
            && (t != UiElement.None ==> InLayout(layout, t))
  {
    NavigateSpawned(layout, e, d);
    TargetOnLayout(layout, e, d);
  }

  lemma TargetOnLayout(layout: seq<UiNavigation>, e: UiElement, d: Direction)
    requires DistinctIds(layout) && (VerticalRing(layout) || Isolated(layout)) && InLayout(layout, e)
    ensures var t := Target(Spawn(layout, e), d);
            t != UiElement.None ==> InLayout(layout, t)
  {
    var nodes := Spawn(layout, e);
    var t := Target(nodes, d);
    if t != UiElement.None {
      assert FirstFocused(nodes).Some?;
      var i := FirstFocused(nodes).value;
      assert t == Neighbour(nodes[i].nav, d);
      SpawnClosed(layout, e);
      assert HasId(nodes, t);
      var k :| 0 <= k < |nodes| && nodes[k].nav.selfId == t;
      assert layout[k].selfId == t;
    }
  }

  /** On the multi-button screens up undoes down; on the single-button
      screens no press ever moves the focus. */
  lemma UpUndoesDown(s: Screen, e: UiElement, movePressed: bool, d: Direction)
    requires Belongs(s, e)
    ensures !(s.Credits? || s.Page?) ==>
              Navigate(true, Up, Navigate(true, Down, Spawn(Layout(s), e))) == Spawn(Layout(s), e)
    ensures s.Credits? || s.Page? ==> Navigate(movePressed, d, Spawn(Layout(s), e)) == Spawn(Layout(s), e)
  {
    LayoutWellFormed(s);
    var k :| 0 <= k < |Layout(s)| && Layout(s)[k].selfId == e;
    if s.Credits? || s.Page? {
      IsolatedNeverMoves(Layout(s), movePressed, d);
    } else {
      RingUpUndoesDown(Layout(s), k);
    }
  }

  /** Selecting on a spawned screen never logs an error: the focused element
      always belongs to the screen. */
  lemma SelectionOnSpawnedScreen(s: Screen, e: UiElement, focus: InitialUiFocus)
    requires Belongs(s, e)
    ensures HandleSelection(s, true, Spawn(Layout(s), e), focus) == React(s, e, focus)
    ensures !HandleSelection(s, true, Spawn(Layout(s), e), focus).error
  {
    LayoutWellFormed(s);
    SpawnFocusesOne(Layout(s), e);
  }
}
