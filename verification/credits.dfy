/** The credits screen (src/ui/credits.rs): a single Back button. */
module CreditsScreen {

  import opened UiElements
  import opened UiManager
  import opened Selection
  import AppStates

  /** The navigation record of `spawn_credits`: no edges at all. */
  const Layout: seq<UiNavigation> := [
    UiNavigation(UiElement.Credits(CreditsElement.Back), UiElement.None, UiElement.None,
                 UiElement.None, UiElement.None)
  ]

  lemma LayoutShape()
    ensures Isolated(Layout) && DistinctIds(Layout)
    ensures forall e: CreditsElement :: Layout[0].selfId == UiElement.Credits(e)
  {
  }

  /** `handle_ui_selection` for the credits screen: Back sends one change of
      the application state, to a target the credits state allows (hence the
      title). Remembering Back changes no remembered focus, since it is the
      screen's only element. */
  function React(e: CreditsElement, focus: InitialUiFocus): (r: Outcome)
    ensures !r.error
    ensures r.focus == focus
    ensures |r.requests| == 1 && r.requests[0].SetApp?
    ensures forall a :: SetApp(a) in r.requests ==> AppStates.Allowed(AppStates.Credits, a)
  {
    match e
    case Back => Outcome(focus.(credits := CreditsElement.Back), [SetApp(AppStates.Title)], false)
  }

  /** The single button offers exactly the change the credits state allows. */
  lemma TargetsAreAllowList(focus: InitialUiFocus)
    ensures forall a :: a in AppStates.AllowList(AppStates.Credits) <==>
              exists e :: SetApp(a) in React(e, focus).requests
  {
    assert SetApp(AppStates.Title) in React(CreditsElement.Back, focus).requests;
  }
}
