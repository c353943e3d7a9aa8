/** The lifecycle of one admitted sequence (cpp/src/execution_state.cpp). */
module Execution {

  datatype ExecutionState = WaitingAdmission | Prefill | Decode | Preempted | Completed | Failed

  predicate IsTerminal(s: ExecutionState) {
    s == Completed || s == Failed
  }

  predicate CanTransition(from: ExecutionState, to: ExecutionState) {
    if IsTerminal(from) then false
    else if to == Failed then true
    else match from
      case WaitingAdmission => to == Prefill
      case Prefill => to == Decode || to == Preempted
      case Decode => to == Completed || to == Preempted
      case Preempted => to == WaitingAdmission
  }

  /** The lifecycle, edge by edge. */
  const Edges: set<(ExecutionState, ExecutionState)> := {
    (WaitingAdmission, Prefill), (WaitingAdmission, Failed),
    (Prefill, Decode), (Prefill, Preempted), (Prefill, Failed),
    (Decode, Completed), (Decode, Preempted), (Decode, Failed),
    (Preempted, WaitingAdmission), (Preempted, Failed)}

  lemma TransitionsAreEdges(from: ExecutionState, to: ExecutionState)
    ensures CanTransition(from, to) <==> (from, to) in Edges
    ensures IsTerminal(from) <==> forall s :: !CanTransition(from, s)
    ensures TransitionTo(from, to) == if (from, to) in Edges then to else from
  {
    assert !IsTerminal(from) ==> CanTransition(from, Failed);
  }

  /** ExecutionStateMachine::TransitionTo: refused requests leave the state alone. */
  function TransitionTo(s: ExecutionState, next: ExecutionState): ExecutionState {
    if CanTransition(s, next) then next else s
  }
}
