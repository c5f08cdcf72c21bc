/** The title screen (src/ui/title.rs): Play, Options, Credits and Quit. */
module TitleScreen {

  import opened UiElements
  import opened UiManager
  import opened Selection
  import AppStates

  /** The buttons in spawn order. */
  const Buttons: seq<TitleElement> := [TitleElement.Play, TitleElement.Options, TitleElement.Credits, TitleElement.Quit]

  /** The navigation records of `spawn_title`, in spawn order. */
  const Layout: seq<UiNavigation> := [
    UiNavigation(UiElement.Title(TitleElement.Play), UiElement.Title(TitleElement.Quit),
                 UiElement.Title(TitleElement.Options), UiElement.None, UiElement.None),
    UiNavigation(UiElement.Title(TitleElement.Options), UiElement.Title(TitleElement.Play),
                 UiElement.Title(TitleElement.Credits), UiElement.None, UiElement.None),
    UiNavigation(UiElement.Title(TitleElement.Credits), UiElement.Title(TitleElement.Options),
                 UiElement.Title(TitleElement.Quit), UiElement.None, UiElement.None),
    UiNavigation(UiElement.Title(TitleElement.Quit), UiElement.Title(TitleElement.Credits),
                 UiElement.Title(TitleElement.Play), UiElement.None, UiElement.None)
  ]

  /** The records are the buttons in spawn order, and every button appears. */
  lemma LayoutIds()
    ensures |Layout| == |Buttons|
    ensures forall k :: 0 <= k < |Layout| ==> Layout[k].selfId == UiElement.Title(Buttons[k])
    ensures forall e: TitleElement :: e in Buttons
  {
    forall e: TitleElement ensures e in Buttons {
      match e
      case Play => assert Buttons[0] == e;
      case Options => assert Buttons[1] == e;
      case Credits => assert Buttons[2] == e;
      case Quit => assert Buttons[3] == e;
    }
  }

  /** Every button appears once, and down walks them as one ring Play, Options, Credits, Quit,
      Play with up as its inverse and no horizontal edges. */
  lemma LayoutRing()
    ensures DistinctIds(Layout) && VerticalRing(Layout)
  {
    LayoutDistinct();
    LayoutVertical();
  }

  lemma LayoutDistinct()
    ensures DistinctIds(Layout)
  {
  }

  lemma LayoutVertical()
    ensures VerticalRing(Layout)
  {
    forall k | 0 <= k < |Layout|
      ensures && Layout[k].down == Layout[Rings.Next(k, |Layout|)].selfId
              && Layout[Rings.Next(k, |Layout|)].up == Layout[k].selfId
              && Layout[k].left == UiElement.None
              && Layout[k].right == UiElement.None
    {
      assert k == 0 || k == 1 || k == 2 || k == 3;
    }
  }

  /** `handle_ui_selection` for a title element: Play, Options and Credits
      remember themselves and request one application state allowed from
      Title; Quit asks the application to exit and changes nothing else. */
  function React(e: TitleElement, focus: InitialUiFocus): (r: Outcome)
    ensures !r.error
    ensures r.focus == focus.(title := r.focus.title)
    ensures e == TitleElement.Quit ==> r == Outcome(focus, [Exit], false)
    ensures e != TitleElement.Quit ==>
              r.focus.title == e && |r.requests| == 1 && r.requests[0].SetApp? &&
              AppStates.Allowed(AppStates.Title, r.requests[0].app)
  {
    match e
    case Play => Outcome(focus.(title := TitleElement.Play), [SetApp(AppStates.LoadSave)], false)
    case Options => Outcome(focus.(title := TitleElement.Options), [SetApp(AppStates.Options)], false)
    case Credits => Outcome(focus.(title := TitleElement.Credits), [SetApp(AppStates.Credits)], false)
    case Quit => Outcome(focus, [Exit], false)
  }

  /** Each button leads to its own state, and together the buttons offer
      exactly the changes the title state allows. */
  lemma TargetsAreAllowList(focus: InitialUiFocus)
    ensures React(TitleElement.Play, focus).requests == [SetApp(AppStates.LoadSave)]
    ensures React(TitleElement.Options, focus).requests == [SetApp(AppStates.Options)]
    ensures React(TitleElement.Credits, focus).requests == [SetApp(AppStates.Credits)]
    ensures forall a :: a in AppStates.AllowList(AppStates.Title) <==>
              exists e :: SetApp(a) in React(e, focus).requests
  {
    forall a | a in AppStates.AllowList(AppStates.Title)
      ensures exists e :: SetApp(a) in React(e, focus).requests
    {
      if a == AppStates.LoadSave { assert SetApp(a) in React(TitleElement.Play, focus).requests; }
      else if a == AppStates.Options { assert SetApp(a) in React(TitleElement.Options, focus).requests; }
      else { assert SetApp(a) in React(TitleElement.Credits, focus).requests; }
    }
  }
}
