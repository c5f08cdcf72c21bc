/** The three single-button options pages (src/ui/options/general.rs,
    src/ui/options/audio.rs, src/ui/options/video.rs): each shows only a Back
    button that returns to the options menu. */
module OptionsPages {

  import opened UiElements
  import opened UiManager
  import opened Selection
  import OptionsStates

  /** One of the three pages. */
  datatype Page = General | Audio | Video

  /** The options state in which the page is shown. */
  function StateOf(p: Page): (s: OptionsStates.OptionsState)
    ensures OptionsStates.IsPage(s)
  {
    match p
    case General => OptionsStates.General
    case Audio => OptionsStates.Audio
    case Video => OptionsStates.Video
  }

  /** The page's only element, its Back button. */
  function BackOf(p: Page): UiElement
  {
    match p
    case General => UiElement.GeneralOptions(GeneralOptionsElement.Back)
    case Audio => UiElement.AudioOptions(AudioOptionsElement.Back)
    case Video => UiElement.VideoOptions(VideoOptionsElement.Back)
  }

  /** The navigation record each page spawns: no edges at all. */
  function Layout(p: Page): seq<UiNavigation>
  {
    [UiNavigation(BackOf(p), UiElement.None, UiElement.None, UiElement.None, UiElement.None)]
  }

  /** Every page is a single isolated button, and the pages' buttons are
      different elements. */
  lemma LayoutShape()
    ensures forall p :: Isolated(Layout(p)) && DistinctIds(Layout(p)) && Layout(p)[0].selfId == BackOf(p)
    ensures forall p, q :: p != q ==> BackOf(p) != BackOf(q) && StateOf(p) != StateOf(q)
  {
  }

  /** `handle_ui_selection` for a page's Back button: it remembers itself and
      returns to the options menu, which every page allows. */
  function React(p: Page, focus: InitialUiFocus): (r: Outcome)
    ensures !r.error
    ensures p == Page.General ==> r.focus == focus.(generalOptions := GeneralOptionsElement.Back)
    ensures p == Page.Audio ==> r.focus == focus.(audioOptions := AudioOptionsElement.Back)
    ensures p == Page.Video ==> r.focus == focus.(videoOptions := VideoOptionsElement.Back)
    ensures r.requests == [SetOptions(OptionsStates.Menu)]
    ensures forall o :: SetOptions(o) in r.requests ==> OptionsStates.Allowed(StateOf(p), o)
  {
    var remembered :=
      match p
      case General => focus.(generalOptions := GeneralOptionsElement.Back)
      case Audio => focus.(audioOptions := AudioOptionsElement.Back)
      case Video => focus.(videoOptions := VideoOptionsElement.Back);
    Outcome(remembered, [SetOptions(OptionsStates.Menu)], false)
  }

  /** The single button offers exactly the change each page's state allows. */
  lemma TargetsAreAllowList(p: Page, focus: InitialUiFocus)
    ensures forall o :: o in OptionsStates.AllowList(StateOf(p)) <==> SetOptions(o) in React(p, focus).requests
  {
  }
}
