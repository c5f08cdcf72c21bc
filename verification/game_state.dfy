/** The pause state (src/states/game_state.rs): Playing or Paused, flipped by
    the Space key while the application is in its Game state. */
module GameStates {

  import opened Wrappers

  datatype GameState = Playing | Paused

  /** The state the engine starts in (the `#[default]` variant). */
  const Initial: GameState := Playing

  function Toggle(s: GameState): (r: GameState)
    ensures r != s
  {
    match s
    case Playing => Paused
    case Paused => Playing
  }

  /** Toggling is an involution. */
  lemma ToggleInvolution(s: GameState)
    ensures Toggle(Toggle(s)) == s
  {
  }

  /** `handle_edit_game_state` over a step in which `events` toggle events are
      read: each one inserts the toggle of the state read at the start of the
      step, so the pending slot after the step is the same for one event as
      for any number of them. */
  function HandleEdits(current: GameState, events: nat, pending: Option<GameState>): (r: Option<GameState>)
    ensures events == 0 ==> r == pending
    ensures events > 0 ==> r == Some(Toggle(current))
  {
    if events == 0 then pending
    else HandleEdits(current, events - 1, Some(Toggle(current)))
  }

  /** Toggling the state `n` times in a row, as a handler that re-read the
      state after each event would. */
  function ToggleTimes(s: GameState, n: nat): GameState
  {
    if n == 0 then s else Toggle(ToggleTimes(s, n - 1))
  }

  /** Toggling `n` times depends only on the parity of `n`. */
  lemma {:induction false} ToggleTimesParity(s: GameState, n: nat)
    ensures ToggleTimes(s, n) == if n % 2 == 0 then s else Toggle(s)
  {
    if n > 0 {
      ToggleTimesParity(s, n - 1);
    }
  }

  /** Any positive number of toggle events in one step toggles the state
      once, whatever was pending; a handler toggling after each event would
      agree exactly when the count is odd. */
  lemma EventsToggleOnce(s: GameState, n: nat, pending: Option<GameState>)
    requires n > 0
    ensures HandleEdits(s, n, pending) == Some(Toggle(s))
    ensures HandleEdits(s, n, pending) == Some(ToggleTimes(s, n)) <==> n % 2 == 1
  {
    ToggleTimesParity(s, n);
  }

  /** The key state and event count after `emit_edit_game_state`. */
  datatype Emission = Emission(events: nat, spaceJustPressed: bool)

  /** `emit_edit_game_state`: a just-pressed Space sends one event and resets
      the key; otherwise nothing is sent. */
  function EmitEdit(spaceJustPressed: bool): (e: Emission)
    ensures e.events <= 1
    ensures e.events == 1 <==> spaceJustPressed
    ensures !e.spaceJustPressed
  {
    if spaceJustPressed then Emission(1, false) else Emission(0, spaceJustPressed)
  }

  /** Because the key is reset, running the emitter again on its own output
      sends nothing: one press is never read as two. */
  lemma EmitOncePerPress(spaceJustPressed: bool)
    ensures EmitEdit(EmitEdit(spaceJustPressed).spaceJustPressed).events == 0
    ensures EmitEdit(spaceJustPressed).events + EmitEdit(EmitEdit(spaceJustPressed).spaceJustPressed).events
            == (if spaceJustPressed then 1 else 0)
  {
  }
}
