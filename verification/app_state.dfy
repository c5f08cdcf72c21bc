/** The application state (src/states/app_state.rs): which top-level screen
    the game is in, guarded by a fixed table of permitted changes. */
module AppStates {

  import opened Wrappers
  import Guard
  import OptionsStates

  datatype AppState = Splash | Title | Options | Credits | LoadSave | Game | Fail

  /** The state the engine starts in (the `#[default]` variant). */
  const Initial: AppState := Splash

  /** `AppStateAllowedChanges::default`: the targets each state may request. */
  function AllowList(s: AppState): (r: seq<AppState>)
    ensures |r| > 0 && s !in r && Splash !in r
    ensures s != Title <==> Title in r
  {
    match s
    case Splash => [Title]
    case Title => [Options, Credits, LoadSave]
    case Options => [Title]
    case Credits => [Title]
    case LoadSave => [Title, Game]
    case Game => [Fail, Title]
    case Fail => [Game, Title]
  }

  predicate Allowed(from: AppState, to: AppState)
  {
    to in AllowList(from)
  }

  /** No state lists itself, and no state lists Splash. */
  lemma NoSelfLoopsNoSplash()
    ensures forall s :: !Allowed(s, s)
    ensures forall s :: !Allowed(s, Splash)
  {
  }

  /** A walk through the table. */
  ghost predicate IsPath(p: seq<AppState>)
  {
    forall i :: 0 < i < |p| ==> Allowed(p[i - 1], p[i])
  }

  /** A shortest route from the initial state to `s` through the table. */
  function RouteTo(s: AppState): (p: seq<AppState>)
    ensures |p| > 0 && p[0] == Initial && p[|p| - 1] == s
    ensures IsPath(p)
  {
    match s
    case Splash => [Splash]
    case Title => [Splash, Title]
    case Options => [Splash, Title, Options]
    case Credits => [Splash, Title, Credits]
    case LoadSave => [Splash, Title, LoadSave]
    case Game => [Splash, Title, LoadSave, Game]
    case Fail => [Splash, Title, LoadSave, Game, Fail]
  }

  /** Once left, Splash is never entered again: along any walk through the
      table Splash can only be the first state. */
  lemma {:induction false} SplashOnlyFirst(p: seq<AppState>)
    requires IsPath(p)
    ensures forall i :: 0 < i < |p| ==> p[i] != Splash
  {
    forall i | 0 < i < |p| ensures p[i] != Splash {
      assert Allowed(p[i - 1], p[i]);
      NoSelfLoopsNoSplash();
    }
  }

  /** The two pending slots `handle_edit_app_state` writes. */
  datatype Pending = Pending(app: Option<AppState>, options: Option<OptionsStates.OptionsState>)

  /** `handle_edit_app_state`: every request of the step is checked against
      the committed state `current`; the last accepted one becomes the pending
      next state, and an accepted request for Options also sets the pending
      options state to Menu. */
  function HandleEdits(current: AppState, requests: seq<AppState>, pending: Pending): (r: Pending)
    ensures Guard.Reads(AllowList(current), requests, pending.app, r.app)
    ensures (forall i :: 0 <= i < |requests| ==> !Allowed(current, requests[i])) ==> r == pending
    ensures r.app != pending.app ==> r.app.Some? && Allowed(current, r.app.value) && r.app.value in requests
    ensures (exists i :: 0 <= i < |requests| && requests[i] == Options && Allowed(current, Options))
              ==> r.options == Some(OptionsStates.Menu)
    ensures (forall i :: 0 <= i < |requests| && requests[i] == Options ==> !Allowed(current, Options))
              ==> r.options == pending.options
  {
    var app := Guard.Apply(AllowList(current), requests, pending.app);
    var options := if Options in requests && Allowed(current, Options) then Some(OptionsStates.Menu)
                   else pending.options;
    Pending(app, options)
  }

  /** Requests of one step do not chain: a request `b` that only the first
      request's target `a` allows is refused, because it is checked against
      the committed state, not against `a`. From Title, [Options, Title]
      leaves Options pending, since Title does not list itself. */
  lemma RequestsDoNotChain(current: AppState, a: AppState, b: AppState, pending: Pending)
    requires Allowed(current, a) && Allowed(a, b) && !Allowed(current, b)
    ensures HandleEdits(current, [a, b], pending).app == Some(a)
    ensures HandleEdits(current, [a, b], pending).options ==
            if a == Options then Some(OptionsStates.Menu) else pending.options
  {
    var r := HandleEdits(current, [a, b], pending);
    assert !Guard.NoneAccepted(AllowList(current), [a, b]) by {
      assert [a, b][0] in AllowList(current);
    }
    var i :| 0 <= i < 2 && [a, b][i] == r.app.value && r.app.value in AllowList(current) &&
      forall j :: i < j < 2 ==> [a, b][j] !in AllowList(current);
    NoSelfLoopsNoSplash();
  }
}
