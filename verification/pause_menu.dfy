/**
 The pause menu: the shared paused flag and the engine's time scale, with one
 transition per public method. Menu widgets, cursor state, sounds and scene
 loads do not touch these two values.
 */
module PauseMenu {

  /** The paused flag and the engine's time scale. */
  datatype PauseState = PauseState(isPaused: bool, timeScale: real)

  /** Game time is stopped. */
  predicate Frozen(s: PauseState) {
    s.timeScale == 0.0
  }

  /** Game time runs at normal speed. */
  predicate Running(s: PauseState) {
    s.timeScale == 1.0
  }

  /** The flag tells the truth about the clock. */
  predicate Coherent(s: PauseState) {
    s.isPaused <==> Frozen(s)
  }

  /** One of the two states the menu itself produces. */
  predicate Settled(s: PauseState) {
    (s.isPaused && Frozen(s)) || (!s.isPaused && Running(s))
  }

  /** Start-up clears the flag and leaves the clock as it found it. */
  function Awake(s: PauseState): (r: PauseState)
    ensures !r.isPaused
    ensures r.timeScale == s.timeScale
  {
    s.(isPaused := false)
  }

  function Pause(s: PauseState): (r: PauseState)
    ensures r.isPaused && Frozen(r)
    ensures Settled(r)
  {
    PauseState(true, 0.0)
  }

  function Resume(s: PauseState): (r: PauseState)
    ensures !r.isPaused && Running(r)
    ensures Settled(r)
  {
    PauseState(false, 1.0)
  }

  function RestartLevel(s: PauseState): (r: PauseState)
    ensures !r.isPaused && Running(r)
    ensures Settled(r)
  {
    PauseState(false, 1.0)
  }

  function LoadMainMenu(s: PauseState): (r: PauseState)
    ensures !r.isPaused && Running(r)
    ensures Settled(r)
  {
    PauseState(false, 1.0)
  }

  function OnDestroy(s: PauseState): (r: PauseState)
    ensures !r.isPaused && Running(r)
    ensures Settled(r)
  {
    PauseState(false, 1.0)
  }

  /** One frame: the Escape key, when pressed, switches between paused and resumed. */
  function Update(s: PauseState, escapePressed: bool): (r: PauseState)
    ensures !escapePressed ==> r == s
    ensures escapePressed ==> r.isPaused == !s.isPaused && Settled(r)
  {
    if !escapePressed then s
    else if s.isPaused then Resume(s)
    else Pause(s)
  }

  /** Pressing Escape twice restores the flag, and restores the whole state when it was settled. */
  lemma EscapeTwiceRestores(s: PauseState)
    ensures Update(Update(s, true), true).isPaused == s.isPaused
    ensures Settled(s) ==> Update(Update(s, true), true) == s
  {
  }

  /** The inputs the menu reacts to. */
  datatype Input = Frame(escapePressed: bool) | ResumeButton | RestartButton | MainMenuButton | Destroyed

  function Apply(s: PauseState, input: Input): PauseState {
    match input
    case Frame(escape) => Update(s, escape)
    case ResumeButton => Resume(s)
    case RestartButton => RestartLevel(s)
    case MainMenuButton => LoadMainMenu(s)
    case Destroyed => OnDestroy(s)
  }

  function Session(s: PauseState, inputs: seq<Input>): PauseState
    decreases |inputs|
  {
    if |inputs| == 0 then s else Session(Apply(s, inputs[0]), inputs[1..])
  }

  /** Every input keeps a settled state settled. */
  lemma ApplyKeepsSettled(s: PauseState, input: Input)
    requires Settled(s)
    ensures Settled(Apply(s, input))
  {
  }

  /**
   Started with the clock running, the menu keeps the flag and the clock in step
   through any sequence of inputs: paused exactly when time is stopped, and
   otherwise at normal speed.
   */
  lemma {:induction false} SessionKeepsSettled(s: PauseState, inputs: seq<Input>)
    requires Running(s)
    ensures Settled(Awake(s))
    ensures Settled(Session(Awake(s), inputs))
    ensures Coherent(Session(Awake(s), inputs))
  {
    SettledSessionStaysSettled(Awake(s), inputs);
  }

  lemma {:induction false} SettledSessionStaysSettled(s: PauseState, inputs: seq<Input>)
    requires Settled(s)
    ensures Settled(Session(s, inputs))
    decreases |inputs|
  {
    if |inputs| > 0 {
      ApplyKeepsSettled(s, inputs[0]);
      SettledSessionStaysSettled(Apply(s, inputs[0]), inputs[1..]);
    }
  }

  /**
   The running clock at start-up is needed: start-up does not set the time
   scale, so a stopped clock left over from before comes back unpaused yet
   frozen, and the first Escape press then pauses rather than resumes.
   */
  lemma AwakeKeepsStaleClock()
    ensures !Coherent(Awake(PauseState(true, 0.0)))
    ensures Frozen(Update(Awake(PauseState(true, 0.0)), true))
    ensures Update(Awake(PauseState(true, 0.0)), true).isPaused
  {
  }
}
