/** The game-over screen (src/ui/gameover.rs): retry the game or go back to
    the title. */
module GameoverScreen {

  import opened UiElements
  import opened UiManager
  import opened Selection
  import AppStates

  /** The buttons in spawn order. */
  const Buttons: seq<GameoverElement> := [GameoverElement.Game, GameoverElement.Title]

  /** The navigation records of `spawn_gameover`, in spawn order: up and down
      of each button both lead to the other one. */
  const Layout: seq<UiNavigation> := [
    UiNavigation(UiElement.Gameover(GameoverElement.Game), UiElement.Gameover(GameoverElement.Title),
                 UiElement.Gameover(GameoverElement.Title), UiElement.None, UiElement.None),
    UiNavigation(UiElement.Gameover(GameoverElement.Title), UiElement.Gameover(GameoverElement.Game),
                 UiElement.Gameover(GameoverElement.Game), UiElement.None, UiElement.None)
  ]

  /** The records are the buttons in spawn order, and every button appears. */
  lemma LayoutIds()
    ensures |Layout| == |Buttons|
    ensures forall k :: 0 <= k < |Layout| ==> Layout[k].selfId == UiElement.Gameover(Buttons[k])
    ensures forall e: GameoverElement :: e in Buttons
  {
    forall e: GameoverElement ensures e in Buttons {
      match e
      case Game => assert Buttons[0] == e;
      case Title => assert Buttons[1] == e;
    }
  }

  /** The two buttons form a ring of two: up and down both switch to the
      other button, and there are no horizontal edges. */
  lemma LayoutRing()
    ensures DistinctIds(Layout) && VerticalRing(Layout)
    ensures forall k :: 0 <= k < |Layout| ==> Layout[k].up == Layout[k].down != Layout[k].selfId
  {
  }

  /** `handle_ui_selection` for a game-over element: both buttons reset the
      remembered button to Game; Game restarts the game and Title returns to
      the title, both allowed from the failed state. */
  function React(e: GameoverElement, focus: InitialUiFocus): (r: Outcome)
    ensures !r.error
    ensures r.focus == focus.(gameover := GameoverElement.Game)
    ensures e == GameoverElement.Game ==> r.requests == [SetApp(AppStates.Game)]
    ensures e == GameoverElement.Title ==> r.requests == [SetApp(AppStates.Title)]
    ensures forall a :: SetApp(a) in r.requests ==> AppStates.Allowed(AppStates.Fail, a)
  {
    match e
    case Game => Outcome(focus.(gameover := GameoverElement.Game), [SetApp(AppStates.Game)], false)
    case Title => Outcome(focus.(gameover := GameoverElement.Game), [SetApp(AppStates.Title)], false)
  }

  /** Together the buttons offer exactly the changes the failed state allows. */
  lemma TargetsAreAllowList(focus: InitialUiFocus)
    ensures forall a :: a in AppStates.AllowList(AppStates.Fail) <==>
              exists e :: SetApp(a) in React(e, focus).requests
  {
    assert SetApp(AppStates.Game) in React(GameoverElement.Game, focus).requests;
    assert SetApp(AppStates.Title) in React(GameoverElement.Title, focus).requests;
  }
}
