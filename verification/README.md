# bevy_core_lab menu shell — a Dafny model

This project models the table-driven core of the bevy_core_lab game-menu shell.

- **State machines.** The application state (Splash, Title, Options, Credits, LoadSave, Game, Fail) and the options sub-state (None, Menu, Controls, General, Audio, Video). Each has an allow-list guard: a change request is applied only if the current state's table lists its target. There is also the Playing/Paused toggle of the game state.
- **Menu screens.** The title, load/save, options menu, game-over and credits screens, plus the General, Audio and Video options pages. For each screen the model gives:
  - the navigation records it spawns;
  - the element it focuses on spawn, taken from the remembered `InitialUiFocus`;
  - what selecting the focused element sends: state-change requests, the updated remembered focus, or a logged error.
- **Focus navigation.** The shared `handle_ui_navigation` system moves the single focus flag along an edge of the focused element's record.
- **Frame flow.** The state handlers read a selection's requests in the selection's frame or in the next one, depending on where the schedule places them. The `run_if` conditions decide which screen's selection handler runs and whether the profile handler reads.
- **Display settings.** The Digit0 resolution cycle through the 17 presets, the vsync and fullscreen toggles, the MSAA cycle, the framerate limiter, and the window defaults.
- **Cameras.** The three spawned cameras, the aspect table applied on a resolution change, translation, and the clamped zoom scale.
- **Input device.** The active-input switch between mouse/keyboard and gamepad.

## How the engine is modelled

- Every Bevy `NextState` slot is an `Option`. A handler takes the pending value it finds and returns the pending value it leaves. The state transition that follows commits the value.
- The events of one frame are a sequence, or a count when the event carries no data.
- Handlers that read a `Res<State<..>>` or `Res<Msaa>` check every event of the frame against the same committed value. These are the app, options and game state handlers and the MSAA handler.
- Handlers that mutate state in place see their own earlier writes within the frame. These are vsync, fullscreen and the window resolution (the `Window` component), the framerate limiter (the `FramepaceSettings` resource) and the cameras (their components).
- Each handler runs only where its `run_if` condition holds. The display handlers run only in `AppState::Options` (src/config/windows.rs:32-37). Camera translation and zoom run only in `AppState::Game`, and camera resolution updates only in Options (src/game/cameras.rs:52-54). Focus navigation is off in Game (src/ui/ui_manager.rs:43). `handle_edit_framerate` (src/config/windows.rs:256-258) and `activate_gamepad` (src/config/controls.rs:80) `return` early and leave the rest of their events unread. So a frame's queue is always "the events one handler reads".
- Floating-point positions, sizes and scales are exact `real`s. Every constant involved is exact in binary or written to three decimals.
- Window sizes are natural numbers of physical pixels.

Modules follow the source files:

| module | source |
|---|---|
| `AppStates` | `src/states/app_state.rs` |
| `OptionsStates` | `src/states/options_state.rs` |
| `GameStates` | `src/states/game_state.rs` |
| `ProfileStates` | `src/states/profile_state.rs` |
| `Guard` | the allow-list loop shared by the two state handlers |
| `UiElements` | the element enums, `UiElement` and `InitialUiFocus` |
| `UiManager` | the navigation part of `src/ui/ui_manager.rs` |
| `Selection` | requests and selection outcomes |
| `TitleScreen`, `LoadSaveScreen`, `OptionsMenuScreen`, `GameoverScreen`, `CreditsScreen`, `OptionsPages` | one module per screen |
| `Screens` | all screens behind one interface |
| `Flow` | the frame-level composition |
| `Rings` | ring positions shared by the menus and the resolution cycle |
| `Windows` | `src/config/windows.rs` |
| `Cameras` | `src/game/cameras.rs` |
| `Controls` | `src/config/controls.rs` |

## Model

| member | source | states |
|---|---|---|
| `Guard.Apply` | src/states/app_state.rs:62-79 | Reading a frame's request queue leaves the pending next state untouched when no request is in the allow-list. Otherwise the pending state becomes an allowed request after which no request is allowed, so the last accepted request wins. |
| `AppStates.AllowList` | src/states/app_state.rs:20-28 | Every state lists at least one target, never itself and never Splash. Title is listed by exactly the states other than Title. |
| `AppStates.NoSelfLoopsNoSplash` | src/states/app_state.rs:20-28 | No state lists itself, and no state lists Splash. |
| `AppStates.RouteTo` | src/states/app_state.rs:20-37 | Every application state is reachable from the initial state Splash along a path of allowed changes. |
| `AppStates.SplashOnlyFirst` | src/states/app_state.rs:20-28 | Along any walk through the table, Splash can only be the first state, so it is never re-entered once left. |
| `AppStates.HandleEdits` | src/states/app_state.rs:55-87 | A changed pending state is an allowed target of some request. With no allowed request nothing changes. The pending state follows the last accepted request. An accepted request for Options also sets the pending options state to Menu, and the options slot is untouched otherwise. |
| `AppStates.RequestsDoNotChain` | src/states/app_state.rs:62-79 | Requests of one frame do not chain. Take a committed state c and targets a, b such that c allows a, a allows b, and c does not allow b. Then the queue [a, b] leaves a pending, because b is checked against c and not against a. The options slot is set to Menu exactly when a is Options. From Title, [Options, Title] is one such queue. |
| `OptionsStates.AllowList` | src/states/options_state.rs:18-29 | Every state lists at least one target and never itself. Menu is listed by exactly the states other than Menu. |
| `OptionsStates.MenuIsHub` | src/states/options_state.rs:18-29 | Every allowed change has Menu at one end. There are no self-loops and no page-to-page edges. Menu reaches every other state, and every other state can only go back to Menu. |
| `OptionsStates.HandleEdits` | src/states/options_state.rs:56-83 | With no request allowed by the committed state, the pending slot is unchanged. Otherwise it holds the target of the last allowed request, the one after which every request is refused. Consequently a changed pending state is an allowed target of some request, and an allowed last request is the one pending. |
| `OptionsStates.LastAllowedWins` | src/states/options_state.rs:62-83 | An allowed request followed only by refused ones decides the pending state, whatever earlier allowed requests asked for. From Menu, [General, Audio, Menu] leaves Audio pending. |
| `GameStates.ToggleInvolution` | src/states/game_state.rs:35-44 | Toggling Playing/Paused twice gives back the state. |
| `GameStates.HandleEdits` | src/states/game_state.rs:29-46 | Any number k ≥ 1 of toggle events in one frame leave exactly one toggle of the committed state pending. Zero events leave the slot as it was. |
| `GameStates.EventsToggleOnce` | src/states/game_state.rs:34-44 | For every state, every pending value and every n ≥ 1, n toggle events in one frame leave exactly one toggle of the committed state pending. Toggling after each event would agree with this exactly when n is odd. |
| `GameStates.EmitEdit` | src/states/game_state.rs:19-27 | A just-pressed Space emits exactly one event and no press emits none. The key reads as not pressed afterwards. |
| `GameStates.EmitOncePerPress` | src/states/game_state.rs:23-26 | Because the key is reset, one press is never emitted twice. |
| `UiManager.DirectionOf` | src/ui/ui_manager.rs:181-189 | The axis pair maps to a direction, with vertical checked before horizontal, only past the 0.85 threshold. The direction is neutral exactly when both components are within ±0.85. |
| `UiManager.FirstFocused` | src/ui/ui_manager.rs:179-197 | Gives the first focused node in query order, or none when no node is focused. |
| `UiManager.FirstWithId` | src/ui/ui_manager.rs:201-208 | Finds a node with the given id exactly when one exists, and it is the first such node. |
| `UiManager.Navigate` | src/ui/ui_manager.rs:167-211 | Navigation records never change. Without a Move press, or with no edge in that direction, no flag changes. Otherwise the first focused node is cleared, the first node named by its neighbour is set, and no other flag changes. |
| `UiManager.NavigateKeepsUniqueFocus` | src/ui/ui_manager.rs:179-209 | Suppose exactly one node is focused and every edge leads to `None` or to an element on the screen. Then exactly one node stays focused: the neighbour in the pressed direction, or the old one when there is no edge. |
| `UiManager.NavigateSpawned` | src/ui/ui_manager.rs:192-209 | On a spawned ring or single-button screen, navigating gives the same screen spawned on the target: focus moves along exactly one edge. |
| `UiManager.RingDownMovesToNext` | src/ui/ui_manager.rs:179-209 | On a vertical ring, Down moves the focus to the next record in spawn order, wrapping from the last record to the first. |
| `UiManager.RingUpMovesToPrevious` | src/ui/ui_manager.rs:179-209 | On a vertical ring, Up moves the focus to the previous record, wrapping from the first record to the last. |
| `UiManager.RingUpUndoesDown` | src/ui/ui_manager.rs:179-209 | On a vertical ring, Up undoes Down. |
| `UiManager.IsolatedNeverMoves` | src/ui/credits.rs:78-84 | A single button with no edges keeps the focus whatever is pressed. |
| `TitleScreen.LayoutIds` | src/ui/title.rs:80-107 | The records are Play, Options, Credits and Quit in spawn order, and every title element appears. |
| `TitleScreen.LayoutRing` | src/ui/title.rs:80-107 | Ids are distinct. Down cycles Play → Options → Credits → Quit → Play, Up is its inverse, and there are no left/right edges. |
| `TitleScreen.React` | src/ui/title.rs:144-167 | Play, Options and Credits remember themselves, leave the rest of the focus memory alone, and send one request that Title allows. Quit sends only an exit and changes nothing else. No case logs an error. |
| `TitleScreen.TargetsAreAllowList` | src/ui/title.rs:146-163 | Play, Options and Credits request LoadSave, Options and Credits. Together the buttons request exactly Title's allow-list. |
| `LoadSaveScreen.LayoutIds` | src/ui/loadsave.rs:89-123 | The records are Profile1–4 and Back in spawn order, and every load/save element appears. |
| `LoadSaveScreen.LayoutRing` | src/ui/loadsave.rs:89-123 | Ids are distinct. Down cycles Profile1 → … → Profile4 → Back → Profile1, Up is its inverse, and there are no left/right edges. |
| `LoadSaveScreen.SlotsMatchProfiles` | src/ui/loadsave.rs:164-199 | The four slot buttons and the four profiles correspond one to one. |
| `LoadSaveScreen.React` | src/ui/loadsave.rs:152-219 | A slot remembers itself and requests its own profile, then Game. Back remembers Profile1 and requests only Title, with no profile request. Every app request is allowed from LoadSave. |
| `LoadSaveScreen.TargetsAreAllowList` | src/ui/loadsave.rs:164-205 | Together the buttons request exactly LoadSave's allow-list. |
| `OptionsMenuScreen.LayoutIds` | src/ui/options/menu.rs:90-124 | The records are General, Controls, Audio, Video and Back in spawn order, and every menu element appears. |
| `OptionsMenuScreen.LayoutRing` | src/ui/options/menu.rs:90-124 | Ids are distinct. Down cycles General → Controls → Audio → Video → Back → General, Up is its inverse, and there are no left/right edges. |
| `OptionsMenuScreen.PageOf` | src/ui/options/menu.rs:169-192 | Each page button opens one of the four options pages. |
| `OptionsMenuScreen.React` | src/ui/options/menu.rs:156-217 | A page button remembers itself and requests its page. Back remembers General and requests options None, then Title. Every options request is allowed from Menu, and every app request is allowed from Options. |
| `OptionsMenuScreen.TargetsAreAllowList` | src/ui/options/menu.rs:169-202 | Together the buttons request exactly Menu's allow-list, and no two page buttons open the same page. |
| `GameoverScreen.LayoutIds` | src/ui/gameover.rs:77-90 | The records are Game and Title in spawn order, and both appear. |
| `GameoverScreen.LayoutRing` | src/ui/gameover.rs:77-90 | Up and Down of each button both lead to the other button, and there are no left/right edges. |
| `GameoverScreen.React` | src/ui/gameover.rs:113-149 | Both buttons reset the remembered button to Game. Game requests Game and Title requests Title, and both are allowed from Fail. |
| `GameoverScreen.TargetsAreAllowList` | src/ui/gameover.rs:124-135 | Together the buttons request exactly Fail's allow-list. |
| `CreditsScreen.LayoutShape` | src/ui/credits.rs:78-84 | The credits screen is one Back button with no edges. |
| `CreditsScreen.React` | src/ui/credits.rs:105-135 | Back sends exactly one app-state request, to a target Credits allows (so Title), logs no error, and changes no remembered focus. |
| `CreditsScreen.TargetsAreAllowList` | src/ui/credits.rs:116-121 | The single button requests exactly Credits' allow-list. |
| `OptionsPages.LayoutShape` | src/ui/options/general.rs:78-84 | Each of the General, Audio and Video pages is one Back button with no edges. The three buttons and the three page states are pairwise distinct. |
| `OptionsPages.React` | src/ui/options/general.rs:108-138 | A page's Back remembers itself and requests Menu, which the page's state allows. |
| `OptionsPages.TargetsAreAllowList` | src/ui/options/general.rs:118-124 | Each page's Back requests exactly its state's allow-list. |
| `Screens.HandleSelection` | src/ui/title.rs:134-180 | No Select press, or no focused element, gives nothing. A focused element foreign to the screen only logs an error. Any request implies a press on a focused element of the screen, with no error. |
| `Screens.LayoutWellFormed` | src/ui/title.rs:80-119 | Every screen's ids are distinct, named and its own. Multi-button screens are vertical rings and single-button screens have no edges. Every element of the screen, including the remembered one, is spawned. |
| `Screens.SpawnScreen` | src/ui/title.rs:110-119 | A spawned screen has exactly one focused element, and it is the remembered one. Every edge stays on the screen. |
| `Screens.DefaultFocusIsFirstButton` | src/ui/ui_manager.rs:64-78 | With the default remembered focus, every screen spawns focused on its first button. |
| `Screens.NavigationStaysOnScreen` | src/ui/ui_manager.rs:179-209 | Navigating a spawned screen gives that screen spawned on the neighbour, or on the same element when there is no edge. The newly focused element belongs to the screen. |
| `Screens.UpUndoesDown` | src/ui/ui_manager.rs:179-209 | On multi-button screens Up undoes Down. On single-button screens no press moves the focus. |
| `Screens.SelectionOnSpawnedScreen` | src/ui/title.rs:141-176 | Selecting on a spawned screen acts on the focused element and never logs an error. |
| `Flow.ActiveScreenIsUnique` | src/ui/options/menu.rs:26 | The run conditions are: title.rs:22, loadsave.rs:25, credits.rs:22, gameover.rs:20, and line 22 of each options page. In a frame where the options state is open exactly while the app is in Options, a screen's selection handler runs exactly when that screen is the one shown. |
| `Flow.InconsistentFrameRunsTwo` | src/ui/options/menu.rs:26 | Because the options menu is keyed on the options state alone, a frame in Title with the options state at Menu would run two selection handlers. |
| `Flow.StartShowsNoScreen` | src/states/app_state.rs:36-37 | The start frame is consistent and shows no menu screen. |
| `Flow.Handlers` | src/states/state_manager.rs:23-37 | In one frame the app state changes only if the app handler reads and the frame holds an allowed request for the new state. The options state changes only if the app or options handler reads. The profile changes only if the profile handler reads in LoadSave and the frame requests the new profile. A frame with no allowed app or options request and no profile request changes nothing. |
| `Flow.Step` | src/states/state_manager.rs:23-37 | Follows one selection over its own frame and the next. A changed app state was requested and is allowed from the state before the selection, and it changes at most once. A changed profile was requested, and LoadSave was committed in one of the two frames. If the app and options handlers both run after the selection, their states are settled after the first frame. With nothing acceptable, both frames keep the states. |
| `Flow.ScreenRequestsAccepted` | src/states/app_state.rs:20-28 | Every app or options request that the shown screen sends passes the guard of the state in which that screen runs. |
| `Flow.SelectionKeepsConsistent` | src/states/state_manager.rs:26-35 | Holds for every order the schedule admits. A selection settles into a consistent frame whose app and options states match the same-frame order. That order settles after one transition, and its result does not depend on which options writer runs first. Under the intended order the settled frame is exactly the same-frame one. The frame in between is consistent whenever the app and options handlers read in the same frame. |
| `Flow.BackToTitle` | src/ui/loadsave.rs:200-205 | Back on the load/save screen returns to Title and keeps the profile. The change comes one frame later if the app handler runs before the selection. |
| `Flow.SlotStartsGame` | src/states/state_manager.rs:26-35 | Under the intended order, a slot settles into Game with that slot's profile committed. In the intended order the app handler never reads a selection earlier than the profile handler. |
| `Flow.SlotStep` | src/ui/loadsave.rs:160-199 | Holds for every order the schedule admits. A slot enters Game, one frame late if the app handler runs before the selection. The slot's profile is committed unless the profile handler runs before the selection and the app handler after it. In that case the previous profile stays. |
| `Flow.SlotLosesProfile` | src/states/state_manager.rs:26-35 | Takes the admitted order profile handler, then selection, then app handler. The game is entered in the next frame with the previous profile, and a different chosen profile is never committed. |
| `Flow.TitleOpensOptions` | src/states/app_state.rs:76-79 | The title's Options button opens Options on its Menu page. This happens after the selection's frame, or after the next one if the app handler runs before the selection. |
| `Flow.TitleStep` | src/ui/title.rs:134-180 | Play, Options and Credits each make their one app change, delayed a frame exactly when the app handler runs before the selection. Quit changes no state. |
| `Flow.MenuOpensPage` | src/ui/options/menu.rs:156-192 | A page button opens its page, delayed a frame exactly when the options handler runs before the selection. |
| `Flow.CreditsStep` | src/ui/credits.rs:105-135 | Back returns to Title, delayed a frame exactly when the app handler runs before the selection. |
| `Flow.GameoverStep` | src/ui/gameover.rs:113-149 | Game and Title each make their app change, delayed a frame exactly when the app handler runs before the selection. |
| `Flow.PageStep` | src/ui/options/general.rs:108-138 | A page's Back returns to the options menu, delayed a frame exactly when the options handler runs before the selection. |
| `Flow.MenuBackClosesOptions` | src/ui/options/menu.rs:193-202 | For every order, the options menu's Back settles at Title with the options state closed. The frame in between shows exactly the changes read by the handlers that run after the selection. |
| `Flow.MenuBackInconsistentFrame` | src/states/state_manager.rs:26-30 | Suppose exactly one of the app and options handlers runs before the selection. Then the frame in between is inconsistent. When that handler is the options handler, Title is committed while the options menu is open, and both screens' selection handlers run. |
| `Flow.SplashToTitle` | src/states/app_state.rs:21 | The splash's request for Title is accepted, a frame late if the app handler runs before the sender. The result is a consistent frame. |
| `Windows.NextResolution` | src/config/windows.rs:294-399 | The size it asks for always differs from the current size and is at least 1024 wide and 720 high. `Windows.NextFollowsPresets` states the full table. |
| `Windows.NextFollowsPresets` | src/config/windows.rs:294-399 | Each of the 17 presets leads to the next preset in declaration order, with 3840×2160 leading back to 1024×768, tagged with that preset's annotated ratio. Exactly the presets lead anywhere. |
| `Windows.PresetsDistinct` | src/config/windows.rs:78-94 | No preset size is listed twice. |
| `Windows.AspectTagsAgree` | src/config/windows.rs:56-72 | Each preset's tag is the nearest of the five ratios. It is exact except for 1360×768, 1366×768 (about 16:9), 2560×1080 and 3440×1440 (21:9). |
| `Windows.EmitEditResolution` | src/config/windows.rs:285-403 | Without a Digit0 press nothing happens. With a press, a preset window sends one event naming a preset, any other size only warns, and the key is reset either way. |
| `Windows.HandleEditResolution` | src/config/windows.rs:165-179 | The window takes the last event's size, and keeps its own size when there is no event. |
| `Windows.PressesWalkThePresets` | src/config/windows.rs:294-396 | From a preset, n presses land n places further along the preset ring. |
| `Windows.SingleCycle` | src/config/windows.rs:294-396 | A preset comes back after n presses exactly when n is a multiple of 17, so the presets form a single 17-cycle. |
| `Windows.UnlistedSizeIsStuck` | src/config/windows.rs:397-399 | A window size not in the presets never changes, however often Digit0 is pressed. |
| `Windows.HandleEditVsync` | src/config/windows.rs:181-196 | After k ≥ 1 events the mode is AutoVsync or AutoNoVsync. It is AutoVsync exactly when the parity of k says so: an even count keeps AutoVsync, and any other start counts as off. |
| `Windows.VsyncInvolution` | src/config/windows.rs:188-194 | On AutoVsync and AutoNoVsync, one event swaps the two and two events restore the mode. |
| `Windows.HandleEditFullscreen` | src/config/windows.rs:198-212 | After k ≥ 1 events the mode is BorderlessFullscreen or Windowed. It is borderless exactly when the parity of k says so, starting from whether it was borderless. |
| `Windows.NextMsaa` | src/config/windows.rs:220-243 | A sample count of 1, 2 or 4 goes to its double and 8 goes back to Off. Any other count inserts nothing (the warning branch). |
| `Windows.HandleEditMsaa` | src/config/windows.rs:214-246 | Any number k ≥ 1 of events in one frame advance the setting by exactly one step of 1 → 2 → 4 → 8 → 1, because the setting is read once. |
| `Windows.MsaaCycle` | src/config/windows.rs:220-240 | The MSAA steps form one cycle of length exactly 4. |
| `Windows.HandleEditFramerate` | src/config/windows.rs:248-279 | Under AutoVsync the limiter never changes. Otherwise k events move it k places along Auto → Manual(60) → Off → Auto. |
| `Windows.LimiterCycle` | src/config/windows.rs:261-277 | With vsync off, the steps are Auto → Manual(60) → Off → Auto. Three events restore exactly the limiters on that cycle, and any limiter joins the cycle after one event. |
| `Windows.DefaultsAreUsable` | src/config/windows.rs:141-150 | The defaults are AutoVsync, 2560×1440 (a preset), MSAA Off and limiter Auto. The limiter stays locked until vsync is turned off, after which one event gives Manual(60). |
| `Cameras.ApplyAspect` | src/game/cameras.rs:174-250 | One resolution event gives each camera, position by position, the update `Cameras.AspectOne` states for the event's ratio. |
| `Cameras.HandleEditResolution` | src/game/cameras.rs:174-250 | Over a frame of resolution events, every camera keeps its role, order, layer, x, y and projection kind. 2D cameras also keep their scale and depth. |
| `Cameras.AspectTable` | src/game/cameras.rs:183-247 | Each 2D viewport satisfies width·den = height·num for its ratio. Each depth is h(1+√2)/2 to the nearest thousandth, which is the 45° field-of-view distance for its viewport height. Two ratios share a depth exactly when they share a height. |
| `Cameras.AspectOne` | src/game/cameras.rs:182-247 | A resolution event gives a 2D camera its ratio's viewport and keeps its scale. It gives a 3D camera its ratio's depth and keeps x and y. Role, order and layer never change. |
| `Cameras.AspectOverwrites` | src/game/cameras.rs:179-249 | A later ratio entirely overwrites an earlier one, and applying the same ratio twice equals applying it once. |
| `Cameras.LastAspectWins` | src/game/cameras.rs:179-249 | Over a non-empty frame of resolution events, only the last event's ratio matters. |
| `Cameras.Translate` | src/game/cameras.rs:252-265 | Every camera moves to the event's x and y. It keeps its depth, role, order, layer and projection. |
| `Cameras.TranslateOverwrites` | src/game/cameras.rs:256-264 | A translation never changes any camera's depth, and a later translation entirely overwrites an earlier one. |
| `Cameras.ZoomScale` | src/game/cameras.rs:278-283 | The new scale is the old one plus 0.25 for "in" or minus 0.25 for "out" when that lies in [0.25, 5.0], and otherwise the bound it crossed. So the result is always in range, "in" never lowers an in-range scale and "out" never raises one. |
| `Cameras.ZoomSteps` | src/game/cameras.rs:278-283 | From an in-range scale s, n zoom-ins give min(s + 0.25·n, 5.0) and n zoom-outs give max(s − 0.25·n, 0.25). |
| `Cameras.ZoomRoundTrip` | src/game/cameras.rs:278-283 | Away from the bounds, a zoom in followed by a zoom out gives back the scale, and the other way round. |
| `Cameras.Zoom` | src/game/cameras.rs:267-306 | One zoom event gives each non-UI 2D camera its `Cameras.ZoomScale` and changes nothing else about it. The UI camera and the 3D camera are left exactly as they were. |
| `Cameras.HandleZoom` | src/game/cameras.rs:267-306 | Over a frame of zoom events, no camera changes role, position or projection kind. The UI and 3D cameras are untouched, and every 2D viewport keeps its width and height. The scale it leaves is stated by `Cameras.HandleZoomScale` and `Cameras.HandleZoomIsZoomTimes`. |
| `Cameras.HandleZoomScale` | src/game/cameras.rs:272-290 | A frame of zoom events steps each zoomed camera's scale once per event, in order, each step being `Cameras.ZoomScale` in that event's direction. |
| `Cameras.HandleZoomIsZoomTimes` | src/game/cameras.rs:272-290 | A frame of n zoom events in one direction gives each zoomed camera n repeated zooms. From an in-range scale s that is min(s + 0.25·n, 5.0) for "in" and max(s − 0.25·n, 0.25) for "out". |
| `Cameras.ZoomStaysInRange` | src/game/cameras.rs:267-290 | After any non-empty run of zoom events, every non-UI 2D camera's scale is in range, whatever it was before. The UI camera is never touched. |
| `Cameras.SpawnDepthAsWritten` | src/game/cameras.rs:90-104 | The 3D camera spawned at z = 173.82 is not in the 16:9 configuration. A 16:9 resolution event moves it by 0.003, and 173.82 does not frame the 144-high viewport to the nearest thousandth. |
| `Cameras.SpawnIsSixteenNine` | src/game/cameras.rs:86-172 | The spawned cameras have render orders 0, 1, 2 on layers 1, 0, 2, one per role. Both 2D cameras are 256×144 at scale 1. With the corrected depth, the set is a fixed point of a 16:9 event, which is the ratio of the default 2560×1440 window. |
| `Controls.ActivateGamepad` | src/config/controls.rs:71-85 | Any Button or Axis event among the frame's gamepad events selects the gamepad. With only connection events, the pending state is untouched. |
| `Controls.ActivateMkb` | src/config/controls.rs:87-95 | Any keyboard event selects mouse and keyboard, and none leaves the pending state untouched. |
| `Controls.Step` | src/config/controls.rs:23-29 | From mouse/keyboard the device switches exactly when a gamepad button or axis event arrives. From gamepad it switches exactly when a keyboard event arrives. |
| `Controls.OnlyTheOtherDeviceSwitches` | src/config/controls.rs:26-27 | Within the events one frame's detector reads, only the detector for the other device runs, so events of the active device change nothing in that frame. The device either stays or switches to the other one. |
| `Controls.Tick` | src/config/controls.rs:23-29 | One frame over the events the running detector can still read: the unread events of the previous frame, then the current frame's. From mouse/keyboard it switches exactly when those contain a gamepad button or axis event, and from gamepad exactly when they contain a keyboard event. After a switch, the switching frame's events stay unread for the newly running detector. Otherwise nothing is carried. |
| `Controls.TickWithoutCarry` | src/config/controls.rs:23-29 | With nothing carried over, a frame is exactly one `Controls.Step` over its own events. |
| `Controls.CarriedKeysSwitchBack` | src/config/controls.rs:71-95 | On mouse/keyboard, a frame with a gamepad button or axis event and a keyboard event switches to the gamepad. In the next frame the keyboard detector reads that frame's keyboard events and switches back, whatever the next frame holds. |
| `Controls.CarriedUseSwitchBack` | src/config/controls.rs:71-95 | On the gamepad, a frame with a keyboard event and a gamepad button or axis event switches to mouse/keyboard. In the next frame the gamepad detector reads that frame's gamepad event and switches back. |
| `Controls.QuietSwitchHolds` | src/config/controls.rs:71-95 | A switch to the gamepad with no keyboard event in the switching frame or the next holds through the next frame. |
| `Controls.ConnectionsDoNotSwitch` | src/config/controls.rs:75-84 | From the initial mouse/keyboard state, gamepad connection events alone never switch to the gamepad. |

## Left out

- **Rendering glue.** Materials, shaders, text styling, focus animation (`style_ui_element`, `animate_focused_material`), node trees and entity despawning carry no menu logic.
- **Splash and transitions.** The splash screen and fade-transition timers depend on engine time and floating-point seconds. The model starts from the state table's initial Splash and its single request for Title.
- **Field of view.** The 3D camera's field of view, computed with `atan` in `handle_zoom_camera`, is trigonometry on floats. Only the 2D scale is modelled, and the depths are checked against h(1+√2)/2 instead.
- **Axis values.** The clamped axis pair is read as two `real`s and only its direction is used.
- **Float arithmetic.** `f32` arithmetic in camera positions and scales is modelled as exact reals. Every constant is a multiple of 0.25 or a three-decimal literal, so no rounding is modelled.
- **Scheduling.** Plugin wiring and system sets belong to the engine. `Flow.Order` is where the schedule places each state handler. It records whether each handler runs before or after the selection handler, and which of the app and options handlers runs first in each frame. Whether a handler runs before or after the selection is the same in both frames a selection is followed, but the two writers of the options state may swap between them. `Flow.Valid` keeps the one declared constraint, the app handler after the profile handler.
- **Data state.** `handle_edit_data_state` would need the app state to be Game and Options at once (src/states/state_manager.rs:31-33), so it can never run. It is not modelled.
- **Controls options page.** src/ui/options/controls.rs is not part of this model. `ControlsOptionsElement` has only the Back variant that src/ui/ui_manager.rs names, and the Controls options state shows no screen in `Flow.ActiveScreen`.
- **Input bindings.** The input map (src/config/controls.rs:52-66) is library configuration.
- **Window side effects.** `setup_window`, the frame-count visibility hack and the clear colour are window I/O. Only the default values are kept in `Windows.Defaults`.
- **AppExit.** The event is modelled as a request. The exit itself is outside the model.
- **Event lifetime.** Bevy keeps an event for the frame it is sent in and the next one. `Flow.Step` follows a selection through exactly those two frames. A handler that does not run in either frame never reads the event. `Controls.Tick` carries the switching frame's events over to the detector that starts running in the next frame. Elsewhere, a queue is "the events one handler reads in one frame". Other selections pressed during the following frame are not modelled.
- `Windows.HandleEditFramerate`: a manual limiter records the frame rate it was built from, not the `Duration` that `Limiter::from_framerate` computes. `Limiter::from_framerate(60.0)` is modelled as `Manual(60)`.
- **Zoom direction.** Zoom "in" raises the scale, as written (src/game/cameras.rs:279). With a fixed viewport, a larger scale shows more of the world.
- **2D camera depth.** The depth 999.9 of the two 2D cameras is the default of the engine's 2D camera bundle. It is not written in the source.
- **Limiter naming.** The variant for `Limiter::Off` is named `Unlimited`, so that it does not clash with `Msaa.Off`.

## Findings

| source | as written | input that shows it | evidently intended | confidence | as-written member | corrected member |
|---|---|---|---|---|---|---|
| src/states/state_manager.rs:26-35 | Only the app handler is ordered, after the profile handler. The load/save selection handler (src/ui/loadsave.rs:25) is ordered against neither. | A slot selection, with the schedule running the profile handler before the selection handler and the app handler after it. The app handler reads Game in the selection's frame. The next frame is committed in Game, where the profile handler's `run_if` fails, so the profile request expires unread. | The `.after` ordering guarantees the profile is committed no later than the game starts. For example, schedule the state handlers after the selection handlers. | medium, not executed: whether the executor picks this order is up to the engine | `Flow.SlotLosesProfile` | `Flow.SlotStartsGame` |
| src/game/cameras.rs:101 | The 3D camera spawns at z = 173.82. The 16:9 row of the aspect table (line 232) and the header (line 15) give 173.823. | The default start: the window is 2560×1440 (16:9) and both 2D cameras carry the 16:9 viewport 256×144, whose table depth is 173.823, but the 3D camera sits at 173.82. A 16:9 `EditResolution` (Digit0 at 1920×1080, say) moves it by 0.003, and 173.82 does not frame the 144-high viewport to the nearest thousandth. | Spawn at 173.823, the table's 16:9 depth, so that the spawned cameras are already in the 16:9 configuration the comment at line 87 says they assume. | medium, not executed | `Cameras.SpawnDepthAsWritten` | `Cameras.SpawnIsSixteenNine` |
