/**
 * js/states/StateManager.js: a registry of named states with a current and a
 * previous state. A state is known by the name it was registered under;
 * whether it provides `enter` and `exit` hooks is part of its definition,
 * and the hooks that run are recorded in order.
 */
module StateManager {

  import opened Wrappers

  datatype StateDef = StateDef(hasEnter: bool, hasExit: bool)

  /** A hook call or the `stateChanged` event, in the order they happen. */
  datatype Hook = Exit(name: string) | Enter(name: string) | Changed(name: string)

  datatype Machine = Machine(
    states: map<string, StateDef>,
    current: Option<string>,
    previous: Option<string>,
    hooks: seq<Hook>)

  /** The hooks a real transition from the current state to `to` runs. */
  function TransitionHooks(m: Machine, to: string): seq<Hook>
    requires to in m.states
  {
    (if m.current.Some? && m.current.value in m.states && m.states[m.current.value].hasExit
     then [Exit(m.current.value)] else []) +
    (if m.states[to].hasEnter then [Enter(to)] else []) +
    [Changed(to)]
  }

  /** setState(name): the new machine and the returned flag. */
  function Transition(m: Machine, name: string): (r: (Machine, bool))
    ensures r.1 <==> name in m.states
    ensures name !in m.states ==> r.0 == m
    ensures name in m.states && m.current == Some(name) ==> r.0 == m
    ensures name in m.states && m.current != Some(name) ==>
              r.0.current == Some(name) && r.0.previous == m.current && r.0.states == m.states &&
              r.0.hooks == m.hooks + TransitionHooks(m, name)
  {
    if name !in m.states then (m, false)
    else if m.current == Some(name) then (m, true)
    else (m.(current := Some(name), previous := m.current, hooks := m.hooks + TransitionHooks(m, name)), true)
  }

  /** goToPreviousState: the transition back to the previous state, or false when there is none. */
  function Back(m: Machine): (r: (Machine, bool))
    ensures m.previous.None? ==> r == (m, false)
    ensures m.previous.Some? ==> r == Transition(m, m.previous.value)
  {
    if m.previous.None? then (m, false) else Transition(m, m.previous.value)
  }

  /** Every named state is registered, and the previous state differs from the current one. */
  predicate Coherent(m: Machine)
  {
    (m.current.Some? ==> m.current.value in m.states) &&
    (m.previous.Some? ==> m.previous.value in m.states) &&
    (m.current.Some? && m.previous.Some? ==> m.current != m.previous) &&
    (m.previous.Some? ==> m.current.Some?)
  }

  class StateManager {
    var states: map<string, StateDef>
    var currentState: Option<string>
    var previousState: Option<string>
    var hooks: seq<Hook>

    function State(): Machine
      reads this
    {
      Machine(states, currentState, previousState, hooks)
    }

    constructor ()
      ensures State() == Machine(map[], None, None, [])
    {
      states := map[];
      currentState := None;
      previousState := None;
      hooks := [];
    }

    /** registerState(name, state): a later registration under the same name replaces the earlier one. */
    method RegisterState(name: string, state: StateDef)
      modifies this
      ensures State() == old(State()).(states := old(states)[name := state])
    {
      states := states[name := state];
    }

    /** setState(name). */
    method SetState(name: string) returns (ok: bool)
      modifies this
      ensures (State(), ok) == Transition(old(State()), name)
    {
      if name !in states {
        return false;
      }
      if currentState == Some(name) {
        return true;
      }
      ghost var m := State();
      if currentState.Some? && currentState.value in states && states[currentState.value].hasExit {
        hooks := hooks + [Exit(currentState.value)];
      }
      previousState := currentState;
      currentState := Some(name);
      if states[name].hasEnter {
        hooks := hooks + [Enter(name)];
      }
      hooks := hooks + [Changed(name)];
      assert hooks == m.hooks + TransitionHooks(m, name);
      ok := true;
    }

    /** goToPreviousState. */
    method GoToPreviousState() returns (ok: bool)
      modifies this
      ensures (State(), ok) == Back(old(State()))
    {
      if previousState.None? {
        return false;
      }
      ok := SetState(previousState.value);
    }

    /** getCurrentStateName: null exactly when there is no current state. */
    function GetCurrentStateName(): (r: Option<string>)
      reads this
      ensures r.None? <==> currentState.None?
      ensures r.Some? ==> r == currentState
    {
      currentState
    }

    /** cleanup: the current state's exit hook runs, then everything is forgotten. */
    method Cleanup()
      modifies this
      ensures states == map[] && currentState.None? && previousState.None?
      ensures hooks == old(hooks) + if old(currentState).Some? && old(currentState).value in old(states) &&
                                       old(states)[old(currentState).value].hasExit
                                    then [Exit(old(currentState).value)] else []
    {
      if currentState.Some? && currentState.value in states && states[currentState.value].hasExit {
        hooks := hooks + [Exit(currentState.value)];
      }
      states := map[];
      currentState := None;
      previousState := None;
    }
  }

  /** Registering and transitioning keep the machine coherent. */
  lemma TransitionCoherent(m: Machine, name: string)
    requires Coherent(m)
    ensures Coherent(Transition(m, name).0)
    ensures Coherent(Back(m).0)
  {
  }

  lemma RegisterCoherent(m: Machine, name: string, d: StateDef)
    requires Coherent(m)
    ensures Coherent(m.(states := m.states[name := d]))
  {
  }

  /** An unregistered name is refused and nothing changes, hooks included. */
  lemma UnknownRefused(m: Machine, name: string)
    requires name !in m.states
    ensures Transition(m, name) == (m, false)
  {
  }

  /** Re-entering the current state succeeds and runs no hook. */
  lemma SameStateNoHooks(m: Machine, name: string)
    requires name in m.states && m.current == Some(name)
    ensures Transition(m, name) == (m, true)
  {
  }

  /**
   * From a coherent machine with a previous state, going back twice returns
   * to where it started: the same current and previous states.
   */
  lemma BackTwiceReturns(m: Machine)
    requires Coherent(m) && m.previous.Some?
    ensures var (m1, ok1) := Back(m);
            var (m2, ok2) := Back(m1);
            ok1 && ok2 && m1.current == m.previous && m1.previous == m.current &&
            m2.current == m.current && m2.previous == m.previous && m2.states == m.states
  {
  }

  /** A real transition runs the old state's exit hook before the new state's enter hook. */
  lemma ExitBeforeEnter(m: Machine, name: string)
    requires name in m.states && m.current.Some? && m.current != Some(name)
    requires m.current.value in m.states && m.states[m.current.value].hasExit && m.states[name].hasEnter
    ensures Transition(m, name).0.hooks == m.hooks + [Exit(m.current.value), Enter(name), Changed(name)]
  {
  }
}
