/** The load/save screen (src/ui/loadsave.rs): four profile slots and Back. */
module LoadSaveScreen {

  import opened UiElements
  import opened UiManager
  import opened Selection
  import AppStates
  import ProfileStates

  /** The buttons in spawn order. */
  const Buttons: seq<LoadSaveElement> := [LoadSaveElement.Profile1, LoadSaveElement.Profile2,
                                          LoadSaveElement.Profile3, LoadSaveElement.Profile4,
                                          LoadSaveElement.Back]

  /** The navigation records of `spawn_loadsave`, in spawn order. */
  const Layout: seq<UiNavigation> := [
    UiNavigation(UiElement.LoadSave(LoadSaveElement.Profile1), UiElement.LoadSave(LoadSaveElement.Back),
                 UiElement.LoadSave(LoadSaveElement.Profile2), UiElement.None, UiElement.None),
    UiNavigation(UiElement.LoadSave(LoadSaveElement.Profile2), UiElement.LoadSave(LoadSaveElement.Profile1),
                 UiElement.LoadSave(LoadSaveElement.Profile3), UiElement.None, UiElement.None),
    UiNavigation(UiElement.LoadSave(LoadSaveElement.Profile3), UiElement.LoadSave(LoadSaveElement.Profile2),
                 UiElement.LoadSave(LoadSaveElement.Profile4), UiElement.None, UiElement.None),
    UiNavigation(UiElement.LoadSave(LoadSaveElement.Profile4), UiElement.LoadSave(LoadSaveElement.Profile3),
                 UiElement.LoadSave(LoadSaveElement.Back), UiElement.None, UiElement.None),
    UiNavigation(UiElement.LoadSave(LoadSaveElement.Back), UiElement.LoadSave(LoadSaveElement.Profile4),
                 UiElement.LoadSave(LoadSaveElement.Profile1), UiElement.None, UiElement.None)
  ]

  /** The records are the buttons in spawn order, and every button appears. */
  lemma LayoutIds()
    ensures |Layout| == |Buttons|
    ensures forall k :: 0 <= k < |Layout| ==> Layout[k].selfId == UiElement.LoadSave(Buttons[k])
    ensures forall e: LoadSaveElement :: e in Buttons
  {
    forall e: LoadSaveElement ensures e in Buttons {
      match e
      case Profile1 => assert Buttons[0] == e;
      case Profile2 => assert Buttons[1] == e;
      case Profile3 => assert Buttons[2] == e;
      case Profile4 => assert Buttons[3] == e;
      case Back => assert Buttons[4] == e;
    }
  }

  /** Every button appears once, and down walks them as one ring Profile1 ..
      Profile4, Back, Profile1 with up as its inverse and no horizontal edges. */
  lemma LayoutRing()
    ensures DistinctIds(Layout) && VerticalRing(Layout)
  {
    LayoutDistinct();
    LayoutVertical();
  }

  lemma LayoutDistinct()
    ensures DistinctIds(Layout)
  {
  }

  lemma LayoutVertical()
    ensures VerticalRing(Layout)
  {
    forall k | 0 <= k < |Layout|
      ensures && Layout[k].down == Layout[Rings.Next(k, |Layout|)].selfId
              && Layout[Rings.Next(k, |Layout|)].up == Layout[k].selfId
              && Layout[k].left == UiElement.None
              && Layout[k].right == UiElement.None
    {
      assert k == 0 || k == 1 || k == 2 || k == 3 || k == 4;
    }
  }

  /** The profile a slot button loads; Back loads none. */
  function ProfileOf(e: LoadSaveElement): ProfileStates.ProfileState
    requires e != LoadSaveElement.Back
  {
    match e
    case Profile1 => ProfileStates.Profile1
    case Profile2 => ProfileStates.Profile2
    case Profile3 => ProfileStates.Profile3
    case Profile4 => ProfileStates.Profile4
  }

  /** The slot that loads profile `p`. */
  function SlotOf(p: ProfileStates.ProfileState): (e: LoadSaveElement)
    ensures e != LoadSaveElement.Back
  {
    match p
    case Profile1 => LoadSaveElement.Profile1
    case Profile2 => LoadSaveElement.Profile2
    case Profile3 => LoadSaveElement.Profile3
    case Profile4 => LoadSaveElement.Profile4
  }

  /** Slots and profiles correspond one to one. */
  lemma SlotsMatchProfiles()
    ensures forall p :: ProfileOf(SlotOf(p)) == p
    ensures forall e :: e != LoadSaveElement.Back ==> SlotOf(ProfileOf(e)) == e
  {
  }

  /** `handle_ui_selection` for a load/save element: a slot remembers itself,
      selects its profile and starts the game; Back resets the remembered slot
      to the first one and returns to the title without touching the profile. */
  function React(e: LoadSaveElement, focus: InitialUiFocus): (r: Outcome)
    ensures !r.error
    ensures r.focus == focus.(loadsave := r.focus.loadsave)
    ensures e == LoadSaveElement.Back ==>
              r.focus.loadsave == LoadSaveElement.Profile1 && r.requests == [SetApp(AppStates.Title)]
    ensures e != LoadSaveElement.Back ==>
              r.focus.loadsave == e && r.requests == [SetProfile(ProfileOf(e)), SetApp(AppStates.Game)]
    ensures forall a :: SetApp(a) in r.requests ==> AppStates.Allowed(AppStates.LoadSave, a)
  {
    match e
    case Profile1 =>
      Outcome(focus.(loadsave := LoadSaveElement.Profile1),
              [SetProfile(ProfileStates.Profile1), SetApp(AppStates.Game)], false)
    case Profile2 =>
      Outcome(focus.(loadsave := LoadSaveElement.Profile2),
              [SetProfile(ProfileStates.Profile2), SetApp(AppStates.Game)], false)
    case Profile3 =>
      Outcome(focus.(loadsave := LoadSaveElement.Profile3),
              [SetProfile(ProfileStates.Profile3), SetApp(AppStates.Game)], false)
    case Profile4 =>
      Outcome(focus.(loadsave := LoadSaveElement.Profile4),
              [SetProfile(ProfileStates.Profile4), SetApp(AppStates.Game)], false)
    case Back =>
      Outcome(focus.(loadsave := LoadSaveElement.Profile1), [SetApp(AppStates.Title)], false)
  }

  /** Together the buttons offer exactly the changes the load/save state allows. */
  lemma TargetsAreAllowList(focus: InitialUiFocus)
    ensures forall a :: a in AppStates.AllowList(AppStates.LoadSave) <==>
              exists e :: SetApp(a) in React(e, focus).requests
  {
    assert SetApp(AppStates.Game) in React(LoadSaveElement.Profile1, focus).requests;
    assert SetApp(AppStates.Title) in React(LoadSaveElement.Back, focus).requests;
  }
}
