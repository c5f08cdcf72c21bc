/** The save-profile state (src/states/profile_state.rs): which of the four
    profiles the game loads. */
module ProfileStates {

  datatype ProfileState = Profile1 | Profile2 | Profile3 | Profile4

  /** The state the engine starts in (the `#[default]` variant). */
  const Initial: ProfileState := Profile1
}
