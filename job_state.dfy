/** The job state machine of the saliweb backend (`JobState` and
    `InvalidStateError` in python/saliweb/backend/__init__.py). A job is in
    one of eight named states; it may move along a whitelist of seven
    forward transitions, and it may always move to FAILED. */
module JobStates {
  import opened Base

  /** The eight state names, in the order the source lists them. */
  const ValidStates: seq<string> :=
    ["INCOMING", "PREPROCESSING", "RUNNING", "POSTPROCESSING",
     "COMPLETED", "FAILED", "EXPIRED", "ARCHIVED"]

  /** How `str()` renders the state list inside the constructor's error. */
  const ValidStatesText: string :=
    "['INCOMING', 'PREPROCESSING', 'RUNNING', 'POSTPROCESSING', 'COMPLETED', 'FAILED', 'EXPIRED', 'ARCHIVED']"

  /** The whitelist of `[current, new]` pairs. */
  const ValidTransitions: seq<(string, string)> :=
    [("INCOMING", "PREPROCESSING"),
     ("PREPROCESSING", "RUNNING"),
     ("RUNNING", "POSTPROCESSING"),
     ("POSTPROCESSING", "COMPLETED"),
     ("COMPLETED", "ARCHIVED"),
     ("ARCHIVED", "EXPIRED"),
     ("FAILED", "INCOMING")]

  predicate IsValidState(s: string) { s in ValidStates }

  /** The test `transition` applies: FAILED is always reachable, anything
      else only along the whitelist. */
  predicate TransitionAllowed(current: string, next: string) {
    next == "FAILED" || (current, next) in ValidTransitions
  }

  /** `InvalidStateError` with its message. */
  datatype InvalidStateError = InvalidStateError(message: string)

  /** `JobState.get_valid_states()`: a copy of the state list. */
  function GetValidStates(): (states: seq<string>)
    ensures |states| == 8 && states[0] == "INCOMING"
    ensures forall s :: s in states <==> IsValidState(s)
    ensures forall i, j :: 0 <= i < j < |states| ==> states[i] != states[j]
  {
    ValidStates[..]
  }

  /** The pipeline a successful job walks through, in order. */
  const Pipeline: seq<string> :=
    ["INCOMING", "PREPROCESSING", "RUNNING", "POSTPROCESSING",
     "COMPLETED", "ARCHIVED", "EXPIRED"]

  /** Every state a transition can reach is one of the eight valid states. */
  lemma TransitionTargetsValid(current: string, next: string)
    requires TransitionAllowed(current, next)
    ensures IsValidState(next)
  {
  }

  /** A move to FAILED is allowed from every state, FAILED included. */
  lemma FailedAlwaysAllowed(current: string)
    ensures TransitionAllowed(current, "FAILED")
  {
  }

  /** Apart from FAILED, a transition is allowed exactly when it moves one
      step along the pipeline, or restarts a failed job as INCOMING. */
  lemma AllowedIffPipelineStep(current: string, next: string)
    requires next != "FAILED"
    ensures TransitionAllowed(current, next) <==>
            ((exists i :: 0 <= i < |Pipeline| - 1 && current == Pipeline[i] && next == Pipeline[i + 1])
             || (current == "FAILED" && next == "INCOMING"))
  {
    if TransitionAllowed(current, next) {
      var k :| 0 <= k < |ValidTransitions| && ValidTransitions[k] == (current, next);
      if k < 6 {
        assert current == Pipeline[k] && next == Pipeline[k + 1];
      }
    }
    if exists i :: 0 <= i < |Pipeline| - 1 && current == Pipeline[i] && next == Pipeline[i + 1] {
      var i :| 0 <= i < |Pipeline| - 1 && current == Pipeline[i] && next == Pipeline[i + 1];
      assert ValidTransitions[i] == (current, next);
    }
  }

  /** Each state has at most one successor other than FAILED. */
  lemma SuccessorUnique(current: string, a: string, b: string)
    requires a != "FAILED" && b != "FAILED"
    requires TransitionAllowed(current, a) && TransitionAllowed(current, b)
    ensures a == b
  {
    var i :| 0 <= i < |ValidTransitions| && ValidTransitions[i] == (current, a);
    var j :| 0 <= j < |ValidTransitions| && ValidTransitions[j] == (current, b);
  }

  /** The object holding one job's state (`JobState`). */
  class JobState {
    var state: string

    ghost predicate Valid()
      reads this
    {
      IsValidState(state)
    }

    constructor (s: string)
      requires IsValidState(s)
      ensures Valid() && state == s
    {
      state := s;
    }

    /** `JobState(state)`: succeeds exactly for the eight valid names and
        raises `InvalidStateError` otherwise. */
    static method Create(s: string) returns (r: Result<JobState, InvalidStateError>)
      ensures r.Ok? <==> IsValidState(s)
      ensures r.Ok? ==> fresh(r.value) && r.value.Valid() && r.value.state == s
      ensures r.Err? ==> r.error == InvalidStateError(s + " is not in " + ValidStatesText)
    {
      if s in ValidStates {
        var j := new JobState(s);
        r := Ok(j);
      } else {
        r := Err(InvalidStateError(s + " is not in " + ValidStatesText));
      }
    }

    /** `get()`: the current state, always one of the valid names. */
    function Get(): (s: string)
      reads this
      requires Valid()
      ensures IsValidState(s) && s == state
    {
      state
    }

    /** `transition(newstate)`: moves to `newstate` when the move is allowed;
        otherwise raises `InvalidStateError` and leaves the state alone. */
    method Transition(newstate: string) returns (r: Result<(), InvalidStateError>)
      requires Valid()
      modifies this
      ensures Valid()
      ensures r.Ok? <==> TransitionAllowed(old(state), newstate)
      ensures r.Ok? ==> state == newstate
      ensures r.Err? ==> state == old(state)
      ensures r.Err? ==> r.error == InvalidStateError("Cannot transition from " + old(state) + " to " + newstate)
    {
      if newstate == "FAILED" || (state, newstate) in ValidTransitions {
        state := newstate;
        r := Ok(());
      } else {
        r := Err(InvalidStateError("Cannot transition from " + state + " to " + newstate));
      }
    }
  }

  /** One step of the state machine's tests: a fresh object in state
      `from` is asked to move to `to`, and the state it ends in is read. */
  method TryMove(from: string, to: string) returns (moved: bool, after: string)
    requires IsValidState(from)
    ensures moved <==> TransitionAllowed(from, to)
    ensures after == if moved then to else from
  {
    var j := new JobState(from);
    var t := j.Transition(to);
    moved := t.Ok?;
    after := j.Get();
  }

  /** The allowed moves of the state machine's tests: INCOMING to
      PREPROCESSING, ARCHIVED to EXPIRED, RUNNING to FAILED and FAILED to
      INCOMING each land in the new state. */
  method AllowedMoveExamples() returns (reached: seq<string>)
    ensures reached == ["PREPROCESSING", "EXPIRED", "FAILED", "INCOMING"]
  {
    var m1, a1 := TryMove("INCOMING", "PREPROCESSING");
    var m2, a2 := TryMove("ARCHIVED", "EXPIRED");
    var m3, a3 := TryMove("RUNNING", "FAILED");
    var m4, a4 := TryMove("FAILED", "INCOMING");
    reached := [a1, a2, a3, a4];
  }

  /** The refusals of the state machine's tests: a garbage name is not a
      state, and INCOMING to RUNNING or to a garbage name is refused and
      leaves INCOMING. */
  method RefusedMoveExamples() returns (garbageRefused: bool, moved: seq<bool>, kept: seq<string>)
    ensures garbageRefused
    ensures moved == [false, false]
    ensures kept == ["INCOMING", "INCOMING"]
  {
    var c := JobState.Create("garbage");
    garbageRefused := c.Err?;
    var m1, a1 := TryMove("INCOMING", "RUNNING");
    var m2, a2 := TryMove("INCOMING", "garbage");
    moved := [m1, m2];
    kept := [a1, a2];
  }
}
