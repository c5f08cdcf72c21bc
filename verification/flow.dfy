/** How the screens and the state handlers fit together across one frame
    (src/states/state_manager.rs and the `run_if` conditions of src/ui/):
    which screen's selection handler runs in which states, and what one
    frame of state handlers makes of the requests a selection sends. */
module Flow {

  import opened Wrappers
  import Guard
  import opened Selection
  import opened UiElements
  import AppStates
  import OptionsStates
  import ProfileStates
  import Screens
  import LoadSaveScreen
  import OptionsMenuScreen
  import OptionsPages

  /** The committed states the menu logic reads. */
  datatype Frame = Frame(app: AppStates.AppState, options: OptionsStates.OptionsState,
                         profile: ProfileStates.ProfileState)

  const Start: Frame := Frame(AppStates.Initial, OptionsStates.Initial, ProfileStates.Initial)

  /** The options sub-state is open exactly while the application is in its
      Options state. */
  predicate Consistent(f: Frame)
  {
    f.options != OptionsStates.None <==> f.app == AppStates.Options
  }

  /** The `run_if(in_state(..))` condition of each screen's selection
      handler: the title, load/save, credits and game-over screens are keyed
      on the application state, the options menu and pages on the options
      state alone. */
  predicate RunsIn(s: Screens.Screen, f: Frame)
  {
    match s
    case Title => f.app == AppStates.Title
    case LoadSave => f.app == AppStates.LoadSave
    case Credits => f.app == AppStates.Credits
    case Gameover => f.app == AppStates.Fail
    case OptionsMenu => f.options == OptionsStates.Menu
    case Page(p) => f.options == OptionsPages.StateOf(p)
  }

  /** The one screen a consistent frame shows, if any. */
  function ActiveScreen(f: Frame): Option<Screens.Screen>
  {
    match f.app
    case Title => Some(Screens.Title)
    case LoadSave => Some(Screens.LoadSave)
    case Credits => Some(Screens.Credits)
    case Fail => Some(Screens.Gameover)
    case Options =>
      (match f.options
       case Menu => Some(Screens.OptionsMenu)
       case General => Some(Screens.Page(OptionsPages.General))
       case Audio => Some(Screens.Page(OptionsPages.Audio))
       case Video => Some(Screens.Page(OptionsPages.Video))
       case _ => Option.None)
    case _ => Option.None
  }

  /** In a consistent frame at most one selection handler runs: a screen runs
      exactly when it is the active screen. */
  lemma ActiveScreenIsUnique(f: Frame, s: Screens.Screen)
    requires Consistent(f)
    ensures RunsIn(s, f) <==> ActiveScreen(f) == Some(s)
  {
  }

  /** Without consistency two handlers can run in the same frame. */
  lemma InconsistentFrameRunsTwo()
    ensures var f := Frame(AppStates.Title, OptionsStates.Menu, ProfileStates.Profile1);
            !Consistent(f) && RunsIn(Screens.Title, f) && RunsIn(Screens.OptionsMenu, f)
  {
  }

  /** The start frame is consistent and shows no menu screen (the splash). */
  lemma StartShowsNoScreen()
    ensures Consistent(Start) && ActiveScreen(Start).None?
  {
  }

  /** Every profile, in declaration order: the profile handler accepts any. */
  const AllProfiles: seq<ProfileStates.ProfileState> :=
    [ProfileStates.Profile1, ProfileStates.Profile2, ProfileStates.Profile3, ProfileStates.Profile4]

  function OrElse<T>(o: Option<T>, d: T): T
  {
    if o.Some? then o.value else d
  }

  /** Where the schedule happens to place each state handler against the
      selection handler that sends the requests. The only declared ordering
      is that the application handler runs after the profile handler; no
      selection handler is ordered against any state handler. A handler
      placed before the selection (`late`) finds its events only in the next
      frame. `appFirst` and `appFirstNext` order the application and options
      handlers, which both write the pending options state, in the
      selection's frame and in the next one. */
  datatype Order = Order(appLate: bool, optionsLate: bool, profileLate: bool,
                         appFirst: bool, appFirstNext: bool)

  /** The orders the schedule admits: since the application handler runs
      after the profile handler, if it runs before the selection so does the
      profile handler. */
  predicate Valid(o: Order)
  {
    o.appLate ==> o.profileLate
  }

  /** What ordering the application handler after the profile handler is
      for: the application handler never reads a selection in an earlier
      frame than the profile handler. Scheduling the state handlers after
      the selection handlers gives it. */
  predicate Intended(o: Order)
  {
    o.profileLate ==> o.appLate
  }

  /** Every state handler placed after the selection handler. */
  function SameFrame(appFirst: bool): Order
  {
    Order(false, false, false, appFirst, appFirst)
  }

  /** One frame of state handlers, then the state transition. Only the
      handlers flagged read `requests` in this frame; the profile handler
      reads only when it runs, in the load/save state. */
  function Handlers(f: Frame, requests: seq<Request>, app: bool, options: bool, profile: bool, appFirst: bool)
    : (g: Frame)
    ensures g.app != f.app ==> app && AppStates.Allowed(f.app, g.app) && SetApp(g.app) in requests
    ensures g.options != f.options ==> app || options
    ensures g.profile != f.profile ==> profile && f.app == AppStates.LoadSave && SetProfile(g.profile) in requests
    ensures && (forall a :: SetApp(a) in requests ==> !AppStates.Allowed(f.app, a))
            && (forall o :: SetOptions(o) in requests ==> !OptionsStates.Allowed(f.options, o))
            && (forall p :: SetProfile(p) !in requests)
            ==> g == f
  {
    var apps := if app then AppRequests(requests) else [];
    var opts := if options then OptionsRequests(requests) else [];
    var pending :=
      if appFirst then
        var p := AppStates.HandleEdits(f.app, apps, AppStates.Pending(Option.None, Option.None));
        p.(options := OptionsStates.HandleEdits(f.options, opts, p.options))
      else
        var o := OptionsStates.HandleEdits(f.options, opts, Option.None);
        AppStates.HandleEdits(f.app, apps, AppStates.Pending(Option.None, o));
    var chosen :=
      if profile && f.app == AppStates.LoadSave then Guard.Apply(AllProfiles, ProfileRequests(requests), Option.None)
      else Option.None;
    Frame(OrElse(pending.app, f.app), OrElse(pending.options, f.options), OrElse(chosen, f.profile))
  }

  /** The states committed by the transitions after the selection's frame
      and after the next one. */
  datatype Settling = Settling(middle: Frame, final: Frame)

  /** A selection's requests through the two frames in which they can be
      read (events are dropped after that). Handlers placed after the
      selection read them in its frame; handlers placed before it read them
      in the next frame, against the states committed then, and so does the
      profile handler if it did not run in the selection's frame. */
  function Step(f: Frame, requests: seq<Request>, o: Order): (s: Settling)
    ensures s.final.app != f.app ==> AppStates.Allowed(f.app, s.final.app) && SetApp(s.final.app) in requests
    ensures s.middle.app == f.app || s.final.app == s.middle.app
    ensures !o.appLate && !o.optionsLate ==> s.final.app == s.middle.app && s.final.options == s.middle.options
    ensures s.final.profile != f.profile ==>
              SetProfile(s.final.profile) in requests &&
              (f.app == AppStates.LoadSave || s.middle.app == AppStates.LoadSave)
    ensures && (forall a :: SetApp(a) in requests ==> !AppStates.Allowed(f.app, a))
            && (forall o :: SetOptions(o) in requests ==> !OptionsStates.Allowed(f.options, o))
            && (forall p :: SetProfile(p) !in requests)
            ==> s == Settling(f, f)
  {
    var now := !o.profileLate && f.app == AppStates.LoadSave;
    var middle := Handlers(f, requests, !o.appLate, !o.optionsLate, now, o.appFirst);
    var final := Handlers(middle, requests, o.appLate, o.optionsLate, !now, o.appFirstNext);
    Settling(middle, final)
  }

  /** A single change `g` read by a handler that is placed before the
      selection (`late`) or after it. */
  function Delayed(late: bool, f: Frame, g: Frame): Settling
  {
    Settling(if late then f else g, g)
  }

  /** One frame of handlers on a single application request. */
  lemma HandlersApp(f: Frame, rs: seq<Request>, a: AppStates.AppState,
                    app: bool, options: bool, profile: bool, appFirst: bool)
    requires AppRequests(rs) == [a] && OptionsRequests(rs) == [] && ProfileRequests(rs) == []
    requires app ==> AppStates.Allowed(f.app, a)
    ensures Handlers(f, rs, app, options, profile, appFirst) ==
            if app then f.(app := a, options := if a == AppStates.Options then OptionsStates.Menu else f.options)
            else f
  {
    if app {
      assert [a][1..] == [];
    }
  }

  /** One frame of handlers on a single options request. */
  lemma HandlersOptions(f: Frame, rs: seq<Request>, t: OptionsStates.OptionsState,
                        app: bool, options: bool, profile: bool, appFirst: bool)
    requires AppRequests(rs) == [] && OptionsRequests(rs) == [t] && ProfileRequests(rs) == []
    requires options ==> OptionsStates.Allowed(f.options, t)
    ensures Handlers(f, rs, app, options, profile, appFirst) == if options then f.(options := t) else f
  {
    if options {
      assert [t][1..] == [];
    }
  }

  /** One frame of handlers on one application request that leaves the
      options state alone and one options request. */
  lemma HandlersBoth(f: Frame, rs: seq<Request>, a: AppStates.AppState, t: OptionsStates.OptionsState,
                     app: bool, options: bool, profile: bool, appFirst: bool)
    requires AppRequests(rs) == [a] && OptionsRequests(rs) == [t] && ProfileRequests(rs) == []
    requires a != AppStates.Options
    requires app ==> AppStates.Allowed(f.app, a)
    requires options ==> OptionsStates.Allowed(f.options, t)
    ensures Handlers(f, rs, app, options, profile, appFirst) ==
            Frame(if app then a else f.app, if options then t else f.options, f.profile)
  {
    assert [a][1..] == [];
    assert [t][1..] == [];
  }

  /** One frame of handlers on a slot's requests: a profile and Game. */
  lemma HandlersSlot(f: Frame, rs: seq<Request>, p: ProfileStates.ProfileState,
                     app: bool, options: bool, profile: bool, appFirst: bool)
    requires AppRequests(rs) == [AppStates.Game] && OptionsRequests(rs) == [] && ProfileRequests(rs) == [p]
    requires app ==> AppStates.Allowed(f.app, AppStates.Game)
    ensures Handlers(f, rs, app, options, profile, appFirst) ==
            Frame(if app then AppStates.Game else f.app, f.options,
                  if profile && f.app == AppStates.LoadSave then p else f.profile)
  {
    assert [AppStates.Game][1..] == [];
    assert [p][1..] == [];
  }

  /** Every request a selection sends passes the guard of the state in which
      its screen runs: no button asks for a change the tables refuse. */
  lemma ScreenRequestsAccepted(f: Frame, s: Screens.Screen, e: UiElement, focus: InitialUiFocus)
    requires Consistent(f) && ActiveScreen(f) == Some(s) && Screens.Belongs(s, e)
    ensures forall a :: SetApp(a) in Screens.React(s, e, focus).requests ==> AppStates.Allowed(f.app, a)
    ensures forall o :: SetOptions(o) in Screens.React(s, e, focus).requests ==>
              OptionsStates.Allowed(f.options, o)
  {
  }

  /** Whatever the schedule's order, a selection settles into a consistent
      frame with the same application and options states; it settles into
      exactly the frame of the same-frame order, which does not depend on
      the order of the two writers of the options state, whenever the order
      is the intended one. The frame in between is consistent unless exactly
      one of the application and options handlers reads late. */
  lemma SelectionKeepsConsistent(f: Frame, s: Screens.Screen, e: UiElement, focus: InitialUiFocus, o: Order)
    requires Consistent(f) && ActiveScreen(f) == Some(s) && Screens.Belongs(s, e) && Valid(o)
    ensures var rs := Screens.React(s, e, focus).requests;
            var st := Step(f, rs, o);
            var now := Step(f, rs, SameFrame(true));
            && now.middle == now.final
            && Consistent(st.final)
            && st.final.app == now.final.app && st.final.options == now.final.options
            && (Intended(o) ==> st.final == now.final)
            && (o.appLate == o.optionsLate ==> Consistent(st.middle))
  {
    match s
    case Title => TitleSettles(f, e, focus, o);
    case LoadSave => LoadSaveSettles(f, e, focus, o);
    case OptionsMenu => OptionsMenuSettles(f, e, focus, o);
    case Credits => CreditsSettles(f, e, focus, o);
    case Gameover => GameoverSettles(f, e, focus, o);
    case Page(p) => PageSettles(f, p, e, focus, o);
  }

  /** The conclusion of `SelectionKeepsConsistent` for one list of requests. */
  ghost predicate Settles(f: Frame, rs: seq<Request>, o: Order)
  {
    var st := Step(f, rs, o);
    var now := Step(f, rs, SameFrame(true));
    && now.middle == now.final
    && Consistent(st.final)
    && st.final.app == now.final.app && st.final.options == now.final.options
    && (Intended(o) ==> st.final == now.final)
    && (o.appLate == o.optionsLate ==> Consistent(st.middle))
  }

  lemma TitleSettles(f: Frame, e: UiElement, focus: InitialUiFocus, o: Order)
    requires Consistent(f) && ActiveScreen(f) == Some(Screens.Title) && e.Title? && Valid(o)
    ensures Settles(f, Screens.React(Screens.Title, e, focus).requests, o)
  {
    TitleStep(f, e.title, focus, o);
    TitleStep(f, e.title, focus, SameFrame(true));
  }

  lemma LoadSaveSettles(f: Frame, e: UiElement, focus: InitialUiFocus, o: Order)
    requires Consistent(f) && ActiveScreen(f) == Some(Screens.LoadSave) && e.LoadSave? && Valid(o)
    ensures Settles(f, Screens.React(Screens.LoadSave, e, focus).requests, o)
  {
    if e.loadsave == LoadSaveElement.Back {
      LoadSaveBackSettles(f, focus, o);
    } else {
      SlotSettles(f, e.loadsave, focus, o);
    }
  }

  lemma LoadSaveBackSettles(f: Frame, focus: InitialUiFocus, o: Order)
    requires Consistent(f) && ActiveScreen(f) == Some(Screens.LoadSave) && Valid(o)
    ensures Settles(f, Screens.React(Screens.LoadSave, UiElement.LoadSave(LoadSaveElement.Back), focus).requests, o)
  {
    var rs := Screens.React(Screens.LoadSave, UiElement.LoadSave(LoadSaveElement.Back), focus).requests;
    BackToTitle(f, focus, o);
    BackToTitle(f, focus, SameFrame(true));
    DelayedSettles(f, rs, o, o.appLate, f.(app := AppStates.Title));
  }

  /** A request list that settles, under every order, into the same
      consistent frame, either at once or one frame late, settles well. */
  lemma DelayedSettles(f: Frame, rs: seq<Request>, o: Order, late: bool, g: Frame)
    requires Consistent(f) && Consistent(g)
    requires Step(f, rs, o) == Delayed(late, f, g)
    requires Step(f, rs, SameFrame(true)) == Delayed(false, f, g)
    ensures Settles(f, rs, o)
  {
  }

  lemma SlotSettles(f: Frame, e: LoadSaveElement, focus: InitialUiFocus, o: Order)
    requires Consistent(f) && ActiveScreen(f) == Some(Screens.LoadSave) && e != LoadSaveElement.Back && Valid(o)
    ensures Settles(f, Screens.React(Screens.LoadSave, UiElement.LoadSave(e), focus).requests, o)
  {
    assert Screens.React(Screens.LoadSave, UiElement.LoadSave(e), focus).requests
        == LoadSaveScreen.React(e, focus).requests;
    SlotStep(f, e, focus, o);
    SlotStep(f, e, focus, SameFrame(true));
  }

  lemma OptionsMenuSettles(f: Frame, e: UiElement, focus: InitialUiFocus, o: Order)
    requires Consistent(f) && ActiveScreen(f) == Some(Screens.OptionsMenu) && e.OptionsMenu? && Valid(o)
    ensures Settles(f, Screens.React(Screens.OptionsMenu, e, focus).requests, o)
  {
    if e.optionsMenu == OptionsMenuElement.Back {
      MenuBackSettles(f, focus, o);
    } else {
      MenuPageSettles(f, e.optionsMenu, focus, o);
    }
  }

  lemma MenuBackSettles(f: Frame, focus: InitialUiFocus, o: Order)
    requires Consistent(f) && ActiveScreen(f) == Some(Screens.OptionsMenu) && Valid(o)
    ensures Settles(f, Screens.React(Screens.OptionsMenu, UiElement.OptionsMenu(OptionsMenuElement.Back), focus).requests, o)
  {
    MenuBackClosesOptions(f, focus, o);
    MenuBackClosesOptions(f, focus, SameFrame(true));
  }

  lemma MenuPageSettles(f: Frame, e: OptionsMenuElement, focus: InitialUiFocus, o: Order)
    requires Consistent(f) && ActiveScreen(f) == Some(Screens.OptionsMenu) && e != OptionsMenuElement.Back && Valid(o)
    ensures Settles(f, Screens.React(Screens.OptionsMenu, UiElement.OptionsMenu(e), focus).requests, o)
  {
    assert Screens.React(Screens.OptionsMenu, UiElement.OptionsMenu(e), focus).requests
        == OptionsMenuScreen.React(e, focus).requests;
    MenuOpensPage(f, e, focus, o);
    MenuOpensPage(f, e, focus, SameFrame(true));
  }

  lemma CreditsSettles(f: Frame, e: UiElement, focus: InitialUiFocus, o: Order)
    requires Consistent(f) && ActiveScreen(f) == Some(Screens.Credits) && e.Credits? && Valid(o)
    ensures Settles(f, Screens.React(Screens.Credits, e, focus).requests, o)
  {
    var rs := Screens.React(Screens.Credits, e, focus).requests;
    CreditsStep(f, focus, o);
    CreditsStep(f, focus, SameFrame(true));
    DelayedSettles(f, rs, o, o.appLate, f.(app := AppStates.Title));
  }

  lemma GameoverSettles(f: Frame, e: UiElement, focus: InitialUiFocus, o: Order)
    requires Consistent(f) && ActiveScreen(f) == Some(Screens.Gameover) && e.Gameover? && Valid(o)
    ensures Settles(f, Screens.React(Screens.Gameover, e, focus).requests, o)
  {
    var rs := Screens.React(Screens.Gameover, e, focus).requests;
    GameoverStep(f, e.gameover, focus, o);
    GameoverStep(f, e.gameover, focus, SameFrame(true));
    DelayedSettles(f, rs, o, o.appLate,
                   f.(app := if e.gameover == GameoverElement.Game then AppStates.Game else AppStates.Title));
  }

  lemma PageSettles(f: Frame, p: OptionsPages.Page, e: UiElement, focus: InitialUiFocus, o: Order)
    requires Consistent(f) && ActiveScreen(f) == Some(Screens.Page(p)) && e == OptionsPages.BackOf(p) && Valid(o)
    ensures Settles(f, Screens.React(Screens.Page(p), e, focus).requests, o)
  {
    var rs := Screens.React(Screens.Page(p), e, focus).requests;
    PageStep(f, p, focus, o);
    PageStep(f, p, focus, SameFrame(true));
    DelayedSettles(f, rs, o, o.optionsLate, f.(options := OptionsStates.Menu));
  }

  /** The title's buttons: one application change, read in the selection's
      frame or the next; Options also opens the options menu. */
  lemma TitleStep(f: Frame, e: TitleElement, focus: InitialUiFocus, o: Order)
    requires f.app == AppStates.Title && f.options == OptionsStates.None
    ensures var rs := Screens.React(Screens.Title, UiElement.Title(e), focus).requests;
            && (e == TitleElement.Play ==> Step(f, rs, o) == Delayed(o.appLate, f, f.(app := AppStates.LoadSave)))
            && (e == TitleElement.Options ==>
                  Step(f, rs, o) == Delayed(o.appLate, f, f.(app := AppStates.Options, options := OptionsStates.Menu)))
            && (e == TitleElement.Credits ==> Step(f, rs, o) == Delayed(o.appLate, f, f.(app := AppStates.Credits)))
            && (e == TitleElement.Quit ==> Step(f, rs, o) == Settling(f, f))
  {
    var rs := Screens.React(Screens.Title, UiElement.Title(e), focus).requests;
    if e == TitleElement.Options {
      TitleOpensOptions(f, focus, o);
    } else if e != TitleElement.Quit {
      var a := if e == TitleElement.Play then AppStates.LoadSave else AppStates.Credits;
      assert rs == [SetApp(a)];
      AppChange(f, rs, a, o);
    }
  }

  /** A single application change read in the selection's frame or the next. */
  lemma AppChange(f: Frame, rs: seq<Request>, a: AppStates.AppState, o: Order)
    requires rs == [SetApp(a)] && AppStates.Allowed(f.app, a)
    ensures Step(f, rs, o) ==
            Delayed(o.appLate, f, f.(app := a, options := if a == AppStates.Options then OptionsStates.Menu else f.options))
  {
    assert AppRequests(rs) == [a] && OptionsRequests(rs) == [] && ProfileRequests(rs) == [];
    var now := !o.profileLate && f.app == AppStates.LoadSave;
    HandlersApp(f, rs, a, !o.appLate, !o.optionsLate, now, o.appFirst);
    var m := Handlers(f, rs, !o.appLate, !o.optionsLate, now, o.appFirst);
    HandlersApp(m, rs, a, o.appLate, o.optionsLate, !now, o.appFirstNext);
  }

  /** An application change that leaves the options state alone and an
      options change, each read in the selection's frame or the next. */
  lemma BothChange(f: Frame, rs: seq<Request>, a: AppStates.AppState, t: OptionsStates.OptionsState, o: Order)
    requires rs == [SetOptions(t), SetApp(a)] && a != AppStates.Options
    requires AppStates.Allowed(f.app, a) && OptionsStates.Allowed(f.options, t)
    ensures Step(f, rs, o) ==
            Settling(Frame(if o.appLate then f.app else a, if o.optionsLate then f.options else t, f.profile),
                     f.(app := a, options := t))
  {
    var tail := rs[1..];
    assert tail == [SetApp(a)] && tail[1..] == [];
    assert AppRequests(tail[1..]) == [] && OptionsRequests(tail[1..]) == [] && ProfileRequests(tail[1..]) == [];
    assert AppRequests(tail) == [a] && OptionsRequests(tail) == [] && ProfileRequests(tail) == [];
    assert AppRequests(rs) == [a] && OptionsRequests(rs) == [t] && ProfileRequests(rs) == [];
    var now := !o.profileLate && f.app == AppStates.LoadSave;
    HandlersBoth(f, rs, a, t, !o.appLate, !o.optionsLate, now, o.appFirst);
    var m := Handlers(f, rs, !o.appLate, !o.optionsLate, now, o.appFirst);
    HandlersBoth(m, rs, a, t, o.appLate, o.optionsLate, !now, o.appFirstNext);
  }

  /** A single options change read in the selection's frame or the next. */
  lemma OptionsChange(f: Frame, rs: seq<Request>, t: OptionsStates.OptionsState, o: Order)
    requires rs == [SetOptions(t)] && OptionsStates.Allowed(f.options, t)
    ensures Step(f, rs, o) == Delayed(o.optionsLate, f, f.(options := t))
  {
    assert AppRequests(rs) == [] && OptionsRequests(rs) == [t] && ProfileRequests(rs) == [];
    var now := !o.profileLate && f.app == AppStates.LoadSave;
    HandlersOptions(f, rs, t, !o.appLate, !o.optionsLate, now, o.appFirst);
    var m := Handlers(f, rs, !o.appLate, !o.optionsLate, now, o.appFirst);
    HandlersOptions(m, rs, t, o.appLate, o.optionsLate, !now, o.appFirstNext);
  }

  /** Back on the load/save screen returns to the title and keeps the profile. */
  lemma BackToTitle(f: Frame, focus: InitialUiFocus, o: Order)
    requires f.app == AppStates.LoadSave && f.options == OptionsStates.None
    ensures Step(f, LoadSaveScreen.React(LoadSaveElement.Back, focus).requests, o) ==
            Delayed(o.appLate, f, f.(app := AppStates.Title))
  {
    var rs := LoadSaveScreen.React(LoadSaveElement.Back, focus).requests;
    assert rs == [SetApp(AppStates.Title)];
    AppChange(f, rs, AppStates.Title, o);
  }

  /** A slot on the load/save screen starts the game. The slot's profile is
      committed with it unless the profile handler runs before the selection
      and the application handler after it: then the application handler
      leaves the load/save state in the selection's frame, the profile
      handler no longer runs in the next, and the request is dropped. */
  lemma SlotStep(f: Frame, e: LoadSaveElement, focus: InitialUiFocus, o: Order)
    requires f.app == AppStates.LoadSave && f.options == OptionsStates.None
    requires e != LoadSaveElement.Back && Valid(o)
    ensures var lost := o.profileLate && !o.appLate;
            Step(f, LoadSaveScreen.React(e, focus).requests, o) ==
            Delayed(o.appLate, f, Frame(AppStates.Game, OptionsStates.None,
                                        if lost then f.profile else LoadSaveScreen.ProfileOf(e)))
  {
    var rs := LoadSaveScreen.React(e, focus).requests;
    var p := LoadSaveScreen.ProfileOf(e);
    assert AppRequests(rs) == [AppStates.Game];
    assert OptionsRequests(rs) == [];
    assert ProfileRequests(rs) == [p];
    var now := !o.profileLate && f.app == AppStates.LoadSave;
    HandlersSlot(f, rs, p, !o.appLate, !o.optionsLate, now, o.appFirst);
    var m := Handlers(f, rs, !o.appLate, !o.optionsLate, now, o.appFirst);
    HandlersSlot(m, rs, p, o.appLate, o.optionsLate, !now, o.appFirstNext);
  }

  /** Under the intended order a slot starts the game with that slot's
      profile committed. */
  lemma SlotStartsGame(f: Frame, e: LoadSaveElement, focus: InitialUiFocus, o: Order)
    requires f.app == AppStates.LoadSave && f.options == OptionsStates.None
    requires e != LoadSaveElement.Back && Valid(o) && Intended(o)
    ensures Step(f, LoadSaveScreen.React(e, focus).requests, o).final ==
            Frame(AppStates.Game, OptionsStates.None, LoadSaveScreen.ProfileOf(e))
  {
    SlotStep(f, e, focus, o);
  }

  /** Under an order the schedule admits but does not intend, a slot starts
      the game at once with the profile committed before the selection: the
      chosen profile is lost whenever it differs from that one. */
  lemma SlotLosesProfile(f: Frame, e: LoadSaveElement, focus: InitialUiFocus, o: Order)
    requires f.app == AppStates.LoadSave && f.options == OptionsStates.None
    requires e != LoadSaveElement.Back && Valid(o) && !Intended(o)
    ensures var g := Frame(AppStates.Game, OptionsStates.None, f.profile);
            Step(f, LoadSaveScreen.React(e, focus).requests, o) == Settling(g, g)
    ensures f.profile != LoadSaveScreen.ProfileOf(e) ==>
            Step(f, LoadSaveScreen.React(e, focus).requests, o).final.profile != LoadSaveScreen.ProfileOf(e)
  {
    SlotStep(f, e, focus, o);
  }

  /** A page button of the options menu opens that page. */
  lemma MenuOpensPage(f: Frame, e: OptionsMenuElement, focus: InitialUiFocus, o: Order)
    requires f.app == AppStates.Options && f.options == OptionsStates.Menu
    requires e != OptionsMenuElement.Back
    ensures Step(f, OptionsMenuScreen.React(e, focus).requests, o) ==
            Delayed(o.optionsLate, f, f.(options := OptionsMenuScreen.PageOf(e)))
  {
    var rs := OptionsMenuScreen.React(e, focus).requests;
    assert rs == [SetOptions(OptionsMenuScreen.PageOf(e))];
    OptionsChange(f, rs, OptionsMenuScreen.PageOf(e), o);
  }

  lemma CreditsStep(f: Frame, focus: InitialUiFocus, o: Order)
    requires f.app == AppStates.Credits && f.options == OptionsStates.None
    ensures Step(f, Screens.React(Screens.Credits, UiElement.Credits(CreditsElement.Back), focus).requests, o) ==
            Delayed(o.appLate, f, f.(app := AppStates.Title))
  {
    AppChange(f, Screens.React(Screens.Credits, UiElement.Credits(CreditsElement.Back), focus).requests, AppStates.Title, o);
  }

  lemma GameoverStep(f: Frame, e: GameoverElement, focus: InitialUiFocus, o: Order)
    requires f.app == AppStates.Fail && f.options == OptionsStates.None
    ensures Step(f, Screens.React(Screens.Gameover, UiElement.Gameover(e), focus).requests, o) ==
            Delayed(o.appLate, f, f.(app := if e == GameoverElement.Game then AppStates.Game else AppStates.Title))
  {
    var a := if e == GameoverElement.Game then AppStates.Game else AppStates.Title;
    AppChange(f, Screens.React(Screens.Gameover, UiElement.Gameover(e), focus).requests, a, o);
  }

  lemma PageStep(f: Frame, p: OptionsPages.Page, focus: InitialUiFocus, o: Order)
    requires f.app == AppStates.Options && f.options == OptionsPages.StateOf(p)
    ensures Step(f, Screens.React(Screens.Page(p), OptionsPages.BackOf(p), focus).requests, o) ==
            Delayed(o.optionsLate, f, f.(options := OptionsStates.Menu))
  {
    OptionsChange(f, Screens.React(Screens.Page(p), OptionsPages.BackOf(p), focus).requests, OptionsStates.Menu, o);
  }

  /** The title's Options button opens the options state on its menu page:
      the application handler sets both pending states. */
  lemma TitleOpensOptions(f: Frame, focus: InitialUiFocus, o: Order)
    requires f.app == AppStates.Title && f.options == OptionsStates.None
    ensures Step(f, Screens.React(Screens.Title, UiElement.Title(TitleElement.Options), focus).requests, o) ==
            Delayed(o.appLate, f, f.(app := AppStates.Options, options := OptionsStates.Menu))
  {
    AppChange(f, Screens.React(Screens.Title, UiElement.Title(TitleElement.Options), focus).requests, AppStates.Options, o);
  }

  /** The options menu's Back button closes the options state and returns to
      the title. The frame in between shows whichever of the two changes was
      read in the selection's frame. */
  lemma MenuBackClosesOptions(f: Frame, focus: InitialUiFocus, o: Order)
    requires f.app == AppStates.Options && f.options == OptionsStates.Menu
    ensures Step(f, Screens.React(Screens.OptionsMenu, UiElement.OptionsMenu(OptionsMenuElement.Back), focus).requests, o) ==
            Settling(Frame(if o.appLate then f.app else AppStates.Title,
                           if o.optionsLate then f.options else OptionsStates.None, f.profile),
                     f.(app := AppStates.Title, options := OptionsStates.None))
  {
    var rs := Screens.React(Screens.OptionsMenu, UiElement.OptionsMenu(OptionsMenuElement.Back), focus).requests;
    BothChange(f, rs, AppStates.Title, OptionsStates.None, o);
  }

  /** When only one of the two handlers reads the Back button's requests in
      the selection's frame, the next frame is inconsistent; with the title
      committed and the options menu still open, both screens' selection
      handlers run in it. */
  lemma MenuBackInconsistentFrame(f: Frame, focus: InitialUiFocus, o: Order)
    requires f.app == AppStates.Options && f.options == OptionsStates.Menu
    requires o.appLate != o.optionsLate
    ensures var m := Step(f, Screens.React(Screens.OptionsMenu, UiElement.OptionsMenu(OptionsMenuElement.Back), focus).requests, o).middle;
            && !Consistent(m)
            && (!o.appLate ==> RunsIn(Screens.Title, m) && RunsIn(Screens.OptionsMenu, m))
  {
    MenuBackClosesOptions(f, focus, o);
  }

  /** Leaving the splash: its single request for Title is accepted. */
  lemma SplashToTitle(o: Order)
    ensures Step(Start, [SetApp(AppStates.Title)], o) == Delayed(o.appLate, Start, Start.(app := AppStates.Title))
    ensures Consistent(Start.(app := AppStates.Title))
  {
    AppChange(Start, [SetApp(AppStates.Title)], AppStates.Title, o);
  }
}
