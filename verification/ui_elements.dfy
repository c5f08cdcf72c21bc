/** The focusable elements of every screen, and the element each screen
    focuses when it is spawned (src/ui/ui_manager.rs and the per-screen
    element enums of src/ui/). */
module UiElements {

  datatype TitleElement = Play | Options | Credits | Quit
  datatype LoadSaveElement = Profile1 | Profile2 | Profile3 | Profile4 | Back
  datatype GameoverElement = Game | Title
  datatype CreditsElement = Back
  datatype OptionsMenuElement = General | Controls | Audio | Video | Back
  datatype GeneralOptionsElement = Back
  /** Only the variant the UI manager names; the controls page itself is not
      part of this model. */
  datatype ControlsOptionsElement = Back
  datatype AudioOptionsElement = Back
  datatype VideoOptionsElement = Back

  /** `UiElement`: an element of some screen, or no element at all. */
  datatype UiElement =
    | None
    | Title(title: TitleElement)
    | LoadSave(loadsave: LoadSaveElement)
    | Gameover(gameover: GameoverElement)
    | Credits(credits: CreditsElement)
    | OptionsMenu(optionsMenu: OptionsMenuElement)
    | GeneralOptions(generalOptions: GeneralOptionsElement)
    | ControlsOptions(controlsOptions: ControlsOptionsElement)
    | AudioOptions(audioOptions: AudioOptionsElement)
    | VideoOptions(videoOptions: VideoOptionsElement)

  /** `InitialUiFocus`: per screen, the element focused when it is spawned. */
  datatype InitialUiFocus = InitialUiFocus(
    title: TitleElement,
    loadsave: LoadSaveElement,
    credits: CreditsElement,
    gameover: GameoverElement,
    optionsMenu: OptionsMenuElement,
    generalOptions: GeneralOptionsElement,
    controlsOptions: ControlsOptionsElement,
    audioOptions: AudioOptionsElement,
    videoOptions: VideoOptionsElement)

  /** `InitialUiFocus::default`. */
  const DefaultFocus: InitialUiFocus := InitialUiFocus(
    TitleElement.Play,
    LoadSaveElement.Profile1,
    CreditsElement.Back,
    GameoverElement.Game,
    OptionsMenuElement.General,
    GeneralOptionsElement.Back,
    ControlsOptionsElement.Back,
    AudioOptionsElement.Back,
    VideoOptionsElement.Back)
}
