/** The older copy of the job state machine (python/backend/state.py). It
    keeps its own state list and whitelist and raises `InvalidState`; its
    `get_valid_states` is broken in the source and is not modelled. */
module LegacyJobStates {
  import opened Base
  import JobStates

  const ValidStates: seq<string> :=
    ["INCOMING", "PREPROCESSING", "RUNNING", "POSTPROCESSING",
     "COMPLETED", "FAILED", "EXPIRED", "ARCHIVED"]

  const ValidTransitions: seq<(string, string)> :=
    [("INCOMING", "PREPROCESSING"),
     ("PREPROCESSING", "RUNNING"),
     ("RUNNING", "POSTPROCESSING"),
     ("POSTPROCESSING", "COMPLETED"),
     ("COMPLETED", "ARCHIVED"),
     ("ARCHIVED", "EXPIRED"),
     ("FAILED", "INCOMING")]

  predicate IsValidState(s: string) { s in ValidStates }

  predicate TransitionAllowed(current: string, next: string) {
    next == "FAILED" || (current, next) in ValidTransitions
  }

  /** `InvalidState` with its message. */
  datatype InvalidState = InvalidState(message: string)

  /** The older copy accepts the same states and the same moves as the
      current `JobState`. */
  lemma SameMachineAsCurrent(current: string, next: string)
    ensures IsValidState(current) <==> JobStates.IsValidState(current)
    ensures TransitionAllowed(current, next) <==> JobStates.TransitionAllowed(current, next)
  {
  }

  /** The position of a state on the forward path; FAILED is off the path. */
  function Rank(s: string): (k: int)
    ensures IsValidState(s) ==> (s == "FAILED" <==> k == -1)
    ensures k <= 6
  {
    if s == "INCOMING" then 0
    else if s == "PREPROCESSING" then 1
    else if s == "RUNNING" then 2
    else if s == "POSTPROCESSING" then 3
    else if s == "COMPLETED" then 4
    else if s == "ARCHIVED" then 5
    else if s == "EXPIRED" then 6
    else -1
  }

  /** INCOMING, PREPROCESSING, RUNNING, POSTPROCESSING, COMPLETED, ARCHIVED,
      EXPIRED is the only forward path: every whitelisted move either goes
      exactly one step forward on it, or is FAILED to INCOMING, the only way
      back. */
  lemma OnlyForwardPath(current: string, next: string)
    requires next != "FAILED" && TransitionAllowed(current, next)
    ensures Rank(next) == Rank(current) + 1 || (current == "FAILED" && next == "INCOMING")
    ensures Rank(next) <= Rank(current) ==> current == "FAILED" && next == "INCOMING"
  {
    var k :| 0 <= k < |ValidTransitions| && ValidTransitions[k] == (current, next);
  }

  /** EXPIRED is the end of the path: nothing but FAILED follows it. */
  lemma ExpiredIsTerminal(next: string)
    requires TransitionAllowed("EXPIRED", next)
    ensures next == "FAILED"
  {
    assert forall k :: 0 <= k < |ValidTransitions| ==> ValidTransitions[k].0 != "EXPIRED";
  }

  /** The state object of the older copy. */
  class JobState {
    var state: string

    ghost predicate Valid()
      reads this
    {
      IsValidState(state)
    }

    constructor (s: string)
      requires IsValidState(s)
      ensures Valid() && state == s
    {
      state := s;
    }

    /** `JobState(state)`: accepts exactly the eight listed names and raises
        `InvalidState` for any other. */
    static method Create(s: string) returns (r: Result<JobState, InvalidState>)
      ensures r.Ok? <==> IsValidState(s)
      ensures r.Ok? ==> fresh(r.value) && r.value.Valid() && r.value.state == s
      ensures r.Err? ==> r.error == InvalidState(s + " is not in " + JobStates.ValidStatesText)
    {
      if s in ValidStates {
        var j := new JobState(s);
        r := Ok(j);
      } else {
        r := Err(InvalidState(s + " is not in " + JobStates.ValidStatesText));
      }
    }

    /** `get()`: the current state. */
    function Get(): (s: string)
      reads this
      requires Valid()
      ensures IsValidState(s) && s == state
    {
      state
    }

    /** `transition(newstate)`: FAILED is always permitted, anything else
        only along the whitelist; a refused move raises `InvalidState` and
        does not modify the state. */
    method Transition(newstate: string) returns (r: Result<(), InvalidState>)
      requires Valid()
      modifies this
      ensures Valid()
      ensures r.Ok? <==> TransitionAllowed(old(state), newstate)
      ensures r.Ok? ==> state == newstate
      ensures r.Err? ==> state == old(state)
      ensures r.Err? ==> r.error == InvalidState("Cannot transition from " + old(state) + " to " + newstate)
    {
      if newstate == "FAILED" || (state, newstate) in ValidTransitions {
        state := newstate;
        r := Ok(());
      } else {
        r := Err(InvalidState("Cannot transition from " + state + " to " + newstate));
      }
    }
  }
}
