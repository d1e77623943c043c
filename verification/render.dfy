/** The per-turn "still streaming" flag handed to the message renderer (app/page.tsx). */
module Render {

  import opened Wrappers
  import opened Messages
  import opened Session

  /** Whether the renderer shows a spinner on turn `idx`: while loading, on the last
      turn when it belongs to the assistant. In every reachable state that is exactly
      the pending turn, and no turn at all once loading is off. */
  function Spinning(s: State, idx: nat): (spins: bool)
    requires idx < |s.messages|
    ensures Valid(s) ==> (spins <==> s.loading && s.pendingIdx == Some(idx))
  {
    s.loading && idx == |s.messages| - 1 && s.messages[idx].sender == Assistant
  }

  /** At most one turn shows the spinner at a time. */
  lemma SpinnerUnique(s: State, i: nat, j: nat)
    requires i < |s.messages| && j < |s.messages|
    requires Spinning(s, i) && Spinning(s, j)
    ensures i == j
  {
  }

  /** After finalisation no turn shows a spinner. */
  lemma NoSpinnerAfterFinalise(env: Env, s: State, e: Event, idx: nat)
    requires PendingInRange(s) && (e.Close? || e.Error? || (e.TimerFire? && s.timerPending))
    requires idx < |s.messages|
    ensures !Spinning(Step(env, s, e).state, idx)
  {
  }

}
