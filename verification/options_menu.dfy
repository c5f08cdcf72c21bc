/** The options menu (src/ui/options/menu.rs): one button per options page
    and Back. */
module OptionsMenuScreen {

  import opened UiElements
  import opened UiManager
  import opened Selection
  import AppStates
  import OptionsStates

  /** The buttons in spawn order. */
  const Buttons: seq<OptionsMenuElement> := [OptionsMenuElement.General, OptionsMenuElement.Controls,
                                             OptionsMenuElement.Audio, OptionsMenuElement.Video,
                                             OptionsMenuElement.Back]

  /** The navigation records of `spawn_options_menu`, in spawn order. */
  const Layout: seq<UiNavigation> := [
    UiNavigation(UiElement.OptionsMenu(OptionsMenuElement.General), UiElement.OptionsMenu(OptionsMenuElement.Back),
                 UiElement.OptionsMenu(OptionsMenuElement.Controls), UiElement.None, UiElement.None),
    UiNavigation(UiElement.OptionsMenu(OptionsMenuElement.Controls), UiElement.OptionsMenu(OptionsMenuElement.General),
                 UiElement.OptionsMenu(OptionsMenuElement.Audio), UiElement.None, UiElement.None),
    UiNavigation(UiElement.OptionsMenu(OptionsMenuElement.Audio), UiElement.OptionsMenu(OptionsMenuElement.Controls),
                 UiElement.OptionsMenu(OptionsMenuElement.Video), UiElement.None, UiElement.None),
    UiNavigation(UiElement.OptionsMenu(OptionsMenuElement.Video), UiElement.OptionsMenu(OptionsMenuElement.Audio),
                 UiElement.OptionsMenu(OptionsMenuElement.Back), UiElement.None, UiElement.None),
    UiNavigation(UiElement.OptionsMenu(OptionsMenuElement.Back), UiElement.OptionsMenu(OptionsMenuElement.Video),
                 UiElement.OptionsMenu(OptionsMenuElement.General), UiElement.None, UiElement.None)
  ]

  /** The records are the buttons in spawn order, and every button appears. */
  lemma LayoutIds()
    ensures |Layout| == |Buttons|
    ensures forall k :: 0 <= k < |Layout| ==> Layout[k].selfId == UiElement.OptionsMenu(Buttons[k])
    ensures forall e: OptionsMenuElement :: e in Buttons
  {
    forall e: OptionsMenuElement ensures e in Buttons {
      match e
      case General => assert Buttons[0] == e;
      case Controls => assert Buttons[1] == e;
      case Audio => assert Buttons[2] == e;
      case Video => assert Buttons[3] == e;
      case Back => assert Buttons[4] == e;
    }
  }

  /** Every button appears once, and down walks them as one ring General, Controls, Audio, Video, Back,
      General
      with up as its inverse and no horizontal edges. */
  lemma LayoutRing()
    ensures DistinctIds(Layout) && VerticalRing(Layout)
  {
    LayoutDistinct();
    LayoutVertical();
  }

  lemma LayoutDistinct()
    ensures DistinctIds(Layout)
  {
  }

  lemma LayoutVertical()
    ensures VerticalRing(Layout)
  {
    forall k | 0 <= k < |Layout|
      ensures && Layout[k].down == Layout[Rings.Next(k, |Layout|)].selfId
              && Layout[Rings.Next(k, |Layout|)].up == Layout[k].selfId
              && Layout[k].left == UiElement.None
              && Layout[k].right == UiElement.None
    {
      assert k == 0 || k == 1 || k == 2 || k == 3 || k == 4;
    }
  }

  /** The options page a page button opens. */
  function PageOf(e: OptionsMenuElement): (p: OptionsStates.OptionsState)
    requires e != OptionsMenuElement.Back
    ensures OptionsStates.IsPage(p)
  {
    match e
    case General => OptionsStates.General
    case Controls => OptionsStates.Controls
    case Audio => OptionsStates.Audio
    case Video => OptionsStates.Video
  }

  /** `handle_ui_selection` for an options-menu element: a page button
      remembers itself and opens its page; Back resets the remembered button
      to General, closes the options state and returns to the title. */
  function React(e: OptionsMenuElement, focus: InitialUiFocus): (r: Outcome)
    ensures !r.error
    ensures r.focus == focus.(optionsMenu := r.focus.optionsMenu)
    ensures e == OptionsMenuElement.Back ==>
              r.focus.optionsMenu == OptionsMenuElement.General &&
              r.requests == [SetOptions(OptionsStates.None), SetApp(AppStates.Title)]
    ensures e != OptionsMenuElement.Back ==>
              r.focus.optionsMenu == e && r.requests == [SetOptions(PageOf(e))]
    ensures forall o :: SetOptions(o) in r.requests ==> OptionsStates.Allowed(OptionsStates.Menu, o)
    ensures forall a :: SetApp(a) in r.requests ==> AppStates.Allowed(AppStates.Options, a)
  {
    match e
    case General => Outcome(focus.(optionsMenu := OptionsMenuElement.General), [SetOptions(OptionsStates.General)], false)
    case Controls => Outcome(focus.(optionsMenu := OptionsMenuElement.Controls), [SetOptions(OptionsStates.Controls)], false)
    case Audio => Outcome(focus.(optionsMenu := OptionsMenuElement.Audio), [SetOptions(OptionsStates.Audio)], false)
    case Video => Outcome(focus.(optionsMenu := OptionsMenuElement.Video), [SetOptions(OptionsStates.Video)], false)
    case Back =>
      Outcome(focus.(optionsMenu := OptionsMenuElement.General),
              [SetOptions(OptionsStates.None), SetApp(AppStates.Title)], false)
  }

  /** Together the buttons offer exactly the changes the menu state allows,
      each page from its own button. */
  lemma TargetsAreAllowList(focus: InitialUiFocus)
    ensures forall o :: o in OptionsStates.AllowList(OptionsStates.Menu) <==>
              exists e :: SetOptions(o) in React(e, focus).requests
    ensures forall a, b :: a != OptionsMenuElement.Back && b != OptionsMenuElement.Back && a != b ==>
              PageOf(a) != PageOf(b)
  {
    forall o | o in OptionsStates.AllowList(OptionsStates.Menu)
      ensures exists e :: SetOptions(o) in React(e, focus).requests
    {
      match o
      case None => assert SetOptions(o) in React(OptionsMenuElement.Back, focus).requests;
      case General => assert SetOptions(o) in React(OptionsMenuElement.General, focus).requests;
      case Controls => assert SetOptions(o) in React(OptionsMenuElement.Controls, focus).requests;
      case Audio => assert SetOptions(o) in React(OptionsMenuElement.Audio, focus).requests;
      case Video => assert SetOptions(o) in React(OptionsMenuElement.Video, focus).requests;
    }
  }
}
