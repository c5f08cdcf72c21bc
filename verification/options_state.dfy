/** The options sub-state (src/states/options_state.rs): which options page
    is shown while the application is in its Options state. */
module OptionsStates {

  import opened Wrappers
  import Guard

  datatype OptionsState = None | Menu | Controls | General | Audio | Video

  /** The state the engine starts in (the `#[default]` variant). */
  const Initial: OptionsState := OptionsState.None

  /** `OptionsStateAllowedChanges::default`: the targets each state may request. */
  function AllowList(s: OptionsState): (r: seq<OptionsState>)
    ensures |r| > 0 && s !in r
    ensures s != Menu <==> Menu in r
  {
    match s
    case None => [Menu]
    case Menu => [OptionsState.None, General, Controls, Audio, Video]
    case Controls => [Menu]
    case General => [Menu]
    case Audio => [Menu]
    case Video => [Menu]
  }

  predicate Allowed(from: OptionsState, to: OptionsState)
  {
    to in AllowList(from)
  }

  /** One of the four pages reached from the menu. */
  predicate IsPage(s: OptionsState)
  {
    s in {Controls, General, Audio, Video}
  }

  /** The menu is a hub: every edge of the table has the menu at one end,
      there is no self-loop, the menu reaches every other state, and every
      state other than the menu can only go back to it. */
  lemma MenuIsHub()
    ensures forall a, b :: Allowed(a, b) ==> a == Menu || b == Menu
    ensures forall a :: !Allowed(a, a)
    ensures forall b :: b != Menu ==> Allowed(Menu, b)
    ensures forall a :: a != Menu ==> (Allowed(a, Menu) && forall b :: Allowed(a, b) ==> b == Menu)
    ensures forall a, b :: IsPage(a) && IsPage(b) ==> !Allowed(a, b)
  {
  }

  /** `handle_edit_options_state`: the pending next state after one step's
      requests, all checked against the committed state `current`. */
  function HandleEdits(current: OptionsState, requests: seq<OptionsState>, pending: Option<OptionsState>)
    : (r: Option<OptionsState>)
    ensures Guard.Reads(AllowList(current), requests, pending, r)
    ensures (forall i :: 0 <= i < |requests| ==> !Allowed(current, requests[i])) ==> r == pending
    ensures r != pending ==> r.Some? && Allowed(current, r.value) && r.value in requests
    ensures forall i :: 0 <= i < |requests| && Allowed(current, requests[i]) ==>
              r.Some? && Allowed(current, r.value)
    ensures |requests| > 0 && Allowed(current, requests[|requests| - 1]) ==> r == Some(requests[|requests| - 1])
  {
    var r := Guard.Apply(AllowList(current), requests, pending);
    assert |requests| > 0 && Allowed(current, requests[|requests| - 1]) ==> r == Some(requests[|requests| - 1]) by {
      if |requests| > 0 && Allowed(current, requests[|requests| - 1]) {
        var i :| 0 <= i < |requests| && requests[i] == r.value && r.value in AllowList(current) &&
          forall j :: i < j < |requests| ==> requests[j] !in AllowList(current);
      }
    }
    r
  }

  /** The pending state is decided by the last allowed request alone: an
      allowed request followed only by refused ones wins over every earlier
      allowed request, e.g. from the menu the queue [General, Audio, Menu]
      leaves Audio pending. */
  lemma LastAllowedWins(current: OptionsState, requests: seq<OptionsState>, pending: Option<OptionsState>, i: int)
    requires 0 <= i < |requests| && Allowed(current, requests[i])
    requires forall j :: i < j < |requests| ==> !Allowed(current, requests[j])
    ensures HandleEdits(current, requests, pending) == Some(requests[i])
  {
    var r := HandleEdits(current, requests, pending);
    assert !Guard.NoneAccepted(AllowList(current), requests);
    var k :| 0 <= k < |requests| && requests[k] == r.value && r.value in AllowList(current) &&
      forall j :: k < j < |requests| ==> requests[j] !in AllowList(current);
  }
}
