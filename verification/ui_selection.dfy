/** What selecting a focused element sends: state-change requests on the
    engine's event queues (EditAppState, EditOptionsState, EditProfileState,
    AppExit), the updated initial-focus memory, and whether an error was
    logged. */
module Selection {

  import opened UiElements
  import opened AppStates
  import opened OptionsStates
  import opened ProfileStates

  datatype Request =
    | SetApp(app: AppState)
    | SetOptions(options: OptionsState)
    | SetProfile(profile: ProfileState)
    | Exit

  datatype Outcome = Outcome(focus: InitialUiFocus, requests: seq<Request>, error: bool)

  /** Nothing sent, nothing remembered, nothing logged. */
  function Nothing(focus: InitialUiFocus): Outcome
  {
    Outcome(focus, [], false)
  }

  /** The EditAppState queue carried by a list of requests, in send order. */
  function AppRequests(requests: seq<Request>): (r: seq<AppState>)
    ensures forall a :: a in r <==> SetApp(a) in requests
  {
    if |requests| == 0 then []
    else
      var rest := AppRequests(requests[1..]);
      assert forall q :: q in requests <==> q == requests[0] || q in requests[1..];
      if requests[0].SetApp? then [requests[0].app] + rest else rest
  }

  /** The EditOptionsState queue carried by a list of requests, in send order. */
  function OptionsRequests(requests: seq<Request>): (r: seq<OptionsState>)
    ensures forall o :: o in r <==> SetOptions(o) in requests
  {
    if |requests| == 0 then []
    else
      var rest := OptionsRequests(requests[1..]);
      assert forall q :: q in requests <==> q == requests[0] || q in requests[1..];
      if requests[0].SetOptions? then [requests[0].options] + rest else rest
  }

  /** The EditProfileState queue carried by a list of requests, in send order. */
  function ProfileRequests(requests: seq<Request>): (r: seq<ProfileState>)
    ensures forall p :: p in r <==> SetProfile(p) in requests
  {
    if |requests| == 0 then []
    else
      var rest := ProfileRequests(requests[1..]);
      assert forall q :: q in requests <==> q == requests[0] || q in requests[1..];
      if requests[0].SetProfile? then [requests[0].profile] + rest else rest
  }
}
