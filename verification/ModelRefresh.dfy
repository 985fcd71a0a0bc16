/**
 Refreshing a provider's models from many threads: the first caller runs the
 callback, the others wait for its flight.  A step is one lock section, one
 outcome of the callback, or one wake-up.
 */
module ModelRefresh {
  import opened Options

  type Caller = nat
  type Models = seq<string>

  datatype Outcome = Refreshed(models: Models) | Raised(error: string)

  datatype Pc =
    | Calling(flight: nat)                       // the owner, inside the callback
    | Entangled(flight: nat)                     // the owner, whose callback refreshes and waits for its own flight
    | Publishing(flight: nat, models: Models)
    | Failing(flight: nat, raised: string)
    | Settling(flight: nat, outcome: Outcome)
    | Waiting(flight: nat)
    | Returned(flight: nat, error: Option<string>)

  datatype State = State(
    models: Models,
    flight: Option<nat>,
    created: nat,                                // flights below this number were created
    settled: set<nat>,                           // flights whose event is set
    errors: map<nat, string>,
    callers: map<Caller, Pc>,
    published: seq<Models>,                      // history: what `models` was set to, oldest first
    outcomes: map<nat, Outcome>)                 // history: how each callback came out

  datatype Step =
    | Enter(caller: Caller)
    | Reenter(caller: Caller)                    // by the callback itself
    | Return(caller: Caller, models: Models)
    | Raise(caller: Caller, error: string)       // by the callback, or by what it gave when it was listed
    | Publish(caller: Caller)
    | Record(caller: Caller)
    | Settle(caller: Caller)
    | Wake(caller: Caller)

  function Initial(models: Models): State
  {
    State(models, None, 0, {}, map[], map[], [models], map[])
  }

  predicate Enabled(s: State, step: Step)
  {
    match step
    case Enter(c) => c in s.callers ==> s.callers[c].Returned?
    case Reenter(c) => c in s.callers && s.callers[c].Calling?
    case Return(c, _) => c in s.callers && s.callers[c].Calling?
    case Raise(c, _) => c in s.callers && (s.callers[c].Calling? || s.callers[c].Publishing?)
    case Publish(c) => c in s.callers && s.callers[c].Publishing?
    case Record(c) => c in s.callers && s.callers[c].Failing?
    case Settle(c) => c in s.callers && s.callers[c].Settling?
    case Wake(c) => c in s.callers && s.callers[c].Waiting? && s.callers[c].flight in s.settled
  }

  function Apply(s: State, step: Step): State
    requires Enabled(s, step)
  {
    match step
    case Enter(c) =>
      if s.flight.Some? then s.(callers := s.callers[c := Waiting(s.flight.value)])
      else s.(flight := Some(s.created), created := s.created + 1, callers := s.callers[c := Calling(s.created)])
    case Reenter(c) => s.(callers := s.callers[c := Entangled(s.callers[c].flight)])
    case Return(c, models) => s.(callers := s.callers[c := Publishing(s.callers[c].flight, models)])
    case Raise(c, error) => s.(callers := s.callers[c := Failing(s.callers[c].flight, error)])
    case Publish(c) =>
      var pc := s.callers[c];
      s.(models := pc.models, published := s.published + [pc.models],
         outcomes := s.outcomes[pc.flight := Refreshed(pc.models)],
         callers := s.callers[c := Settling(pc.flight, Refreshed(pc.models))])
    case Record(c) =>
      var pc := s.callers[c];
      s.(errors := s.errors[pc.flight := pc.raised],
         outcomes := s.outcomes[pc.flight := Raised(pc.raised)],
         callers := s.callers[c := Settling(pc.flight, Raised(pc.raised))])
    case Settle(c) =>
      var pc := s.callers[c];
      s.(flight := if s.flight == Some(pc.flight) then None else s.flight,
         settled := s.settled + {pc.flight},
         callers := s.callers[c := Returned(pc.flight, ErrorOf(pc.outcome))])
    case Wake(c) =>
      var f := s.callers[c].flight;
      s.(callers := s.callers[c := Returned(f, if f in s.errors then Some(s.errors[f]) else None)])
  }

  function ErrorOf(outcome: Outcome): Option<string>
  {
    if outcome.Raised? then Some(outcome.error) else None
  }

  ghost predicate IsRun(models: Models, states: seq<State>, steps: seq<Step>)
  {
    && |states| == |steps| + 1
    && states[0] == Initial(models)
    && forall k :: 0 <= k < |steps| ==> Enabled(states[k], steps[k]) && states[k + 1] == Apply(states[k], steps[k])
  }

  // ----------------------------------------------------------------- invariant

  /** Whether the caller owns a flight that has not settled. */
  predicate Owns(pc: Pc)
  {
    pc.Calling? || pc.Entangled? || pc.Publishing? || pc.Failing? || pc.Settling?
  }

  predicate Fits(s: State, pc: Pc)
  {
    && pc.flight < s.created
    && match pc
       case Settling(f, outcome) => f in s.outcomes && s.outcomes[f] == outcome
       case Returned(f, error) => f in s.settled && f in s.outcomes && error == ErrorOf(s.outcomes[f])
       case Waiting(f) => f in s.settled || s.flight == Some(f)
       case _ => pc.flight !in s.outcomes
  }

  /** An owner's flight is the current one, and there is one owner at most. */
  ghost predicate Owned(s: State)
  {
    && (forall c :: c in s.callers && Owns(s.callers[c]) ==>
          s.flight == Some(s.callers[c].flight) && s.callers[c].flight !in s.settled)
    && (forall c, d :: c in s.callers && d in s.callers && Owns(s.callers[c]) && Owns(s.callers[d]) ==> c == d)
    && (s.flight.Some? ==> s.flight.value < s.created && exists c :: c in s.callers && Owns(s.callers[c]))
  }

  /** Settled flights have an outcome, which their error tells; what was refreshed
      was published, and nothing else. */
  ghost predicate Known(s: State)
  {
    && (forall f :: f in s.settled ==> f in s.outcomes)
    && (forall f :: f in s.outcomes ==> f < s.created)
    && (forall f :: f in s.errors <==> f in s.outcomes && s.outcomes[f].Raised?)
    && (forall f :: f in s.errors ==> s.outcomes[f].error == s.errors[f])
    && (forall f :: f in s.outcomes && s.outcomes[f].Refreshed? ==> s.outcomes[f].models in s.published)
    && s.published != [] && s.models == s.published[|s.published| - 1]
  }

  ghost predicate Inv(s: State)
  {
    Owned(s) && Known(s)
  }

  ghost predicate Sound(s: State)
  {
    Inv(s) && forall c :: c in s.callers ==> Fits(s, s.callers[c])
  }

  lemma StepKeepsOwned(s: State, step: Step)
    requires Owned(s) && Known(s) && Enabled(s, step)
    ensures Owned(Apply(s, step))
  {
    var n := Apply(s, step);
    assert step.caller in n.callers;
    match step
    case Enter(c) =>
      if s.flight.Some? {
        var o :| o in s.callers && Owns(s.callers[o]);
        assert n.callers[o] == s.callers[o];
      } else {
        assert Owns(n.callers[c]);
      }
    case Settle(c) => assert Owns(s.callers[c]);
    case Wake(c) =>
      if s.flight.Some? {
        var o :| o in s.callers && Owns(s.callers[o]);
        assert n.callers[o] == s.callers[o];
      }
    case _ => assert Owns(s.callers[step.caller]) && Owns(n.callers[step.caller]);
  }

  lemma StepKeepsKnown(s: State, step: Step)
    requires Known(s) && Enabled(s, step) && (!step.Enter? ==> Fits(s, s.callers[step.caller]))
    ensures Known(Apply(s, step))
  {
    var n := Apply(s, step);
    assert forall m :: m in s.published ==> m in n.published;
  }

  lemma StepKeepsSound(s: State, step: Step)
    requires Sound(s) && Enabled(s, step)
    ensures Sound(Apply(s, step))
  {
    var n := Apply(s, step);
    StepKeepsOwned(s, step);
    StepKeepsKnown(s, step);
    forall c | c in n.callers ensures Fits(n, n.callers[c]) {
      if c != step.caller {
      } else if c in s.callers && Owns(s.callers[c]) {
        assert Fits(s, s.callers[c]);
      }
    }
  }

  lemma {:induction false} RunIsSound(models: Models, states: seq<State>, steps: seq<Step>, k: nat)
    requires IsRun(models, states, steps) && k <= |steps|
    ensures Sound(states[k])
  {
    if k > 0 {
      RunIsSound(models, states, steps, k - 1);
      StepKeepsSound(states[k - 1], steps[k - 1]);
    }
  }

  // ------------------------------------------------------------------- theorems

  /** At most one callback runs at a time. */
  lemma OneCallbackAtATime(models: Models, states: seq<State>, steps: seq<Step>, k: nat, c: Caller, d: Caller)
    requires IsRun(models, states, steps) && k <= |steps|
    requires c in states[k].callers && d in states[k].callers
    requires states[k].callers[c].Calling? && states[k].callers[d].Calling?
    ensures c == d
  {
    RunIsSound(models, states, steps, k);
  }

  /** Nobody returns before the flight they joined or began has settled, everybody
      returns with that flight's own outcome, and a refreshed list was published
      before anyone returned. */
  lemma ReturnsWithItsFlightsOutcome(models: Models, states: seq<State>, steps: seq<Step>, k: nat, c: Caller)
    requires IsRun(models, states, steps) && k <= |steps|
    requires c in states[k].callers && states[k].callers[c].Returned?
    ensures var s, pc := states[k], states[k].callers[c];
            && pc.flight in s.settled && pc.flight in s.outcomes
            && pc.error == ErrorOf(s.outcomes[pc.flight])
            && (pc.error.None? ==> s.outcomes[pc.flight].models in s.published)
  {
    RunIsSound(models, states, steps, k);
  }

  /** A caller keeps the flight it entered until it returns. */
  lemma {:induction false} KeepsItsFlight(models: Models, states: seq<State>, steps: seq<Step>, j: nat, k: nat,
                                          c: Caller)
    requires IsRun(models, states, steps) && j <= k <= |steps| && c in states[j].callers
    requires forall i :: j <= i < k ==> steps[i] != Enter(c)
    ensures c in states[k].callers && states[k].callers[c].flight == states[j].callers[c].flight
  {
    if j < k {
      KeepsItsFlight(models, states, steps, j, k - 1, c);
      assert states[k] == Apply(states[k - 1], steps[k - 1]);
    }
  }

  lemma OutcomeStays(s: State, step: Step, f: nat)
    requires Enabled(s, step) && f in s.outcomes
    requires step.Publish? || step.Record? ==> Fits(s, s.callers[step.caller])
    ensures f in Apply(s, step).outcomes && Apply(s, step).outcomes[f] == s.outcomes[f]
  {
  }

  /** An outcome, once known, is never replaced. */
  lemma {:induction false} OutcomesStay(models: Models, states: seq<State>, steps: seq<Step>, j: nat, k: nat, f: nat)
    requires IsRun(models, states, steps) && j <= k <= |steps| && f in states[j].outcomes
    ensures f in states[k].outcomes && states[k].outcomes[f] == states[j].outcomes[f]
  {
    if j < k {
      OutcomesStay(models, states, steps, j, k - 1, f);
      RunIsSound(models, states, steps, k - 1);
      OutcomeStays(states[k - 1], steps[k - 1], f);
    }
  }

  /** The models change only when a flight publishes, so a flight that raises leaves
      them as they were. */
  lemma OnlyPublishingChangesTheModels(models: Models, states: seq<State>, steps: seq<Step>, k: nat)
    requires IsRun(models, states, steps) && k < |steps|
    ensures var s, t := states[k], states[k + 1];
            t.models != s.models ==>
              steps[k].Publish? && t.outcomes[s.callers[steps[k].caller].flight] == Refreshed(t.models)
  {
    assert states[k + 1] == Apply(states[k], steps[k]);
  }

  /** A step that brings a waiting caller nearer to its return: its own wake-up, or a
      step of the owner of its flight. */
  predicate Serves(s: State, c: Caller, step: Step)
    requires c in s.callers && s.callers[c].Waiting?
  {
    && Enabled(s, step) && !step.Enter? && !step.Reenter?
    && (|| step == Wake(c)
        || (step.caller in s.callers && Owns(s.callers[step.caller])
            && s.callers[step.caller].flight == s.callers[c].flight))
  }

  /** Nobody waits in vain, except for a flight whose callback waits for itself. */
  lemma WaitersAreServedIff(models: Models, states: seq<State>, steps: seq<Step>, k: nat, c: Caller)
    requires IsRun(models, states, steps) && k <= |steps|
    requires c in states[k].callers && states[k].callers[c].Waiting?
    ensures (exists step :: Serves(states[k], c, step))
       <==> !exists o :: o in states[k].callers && states[k].callers[o] == Entangled(states[k].callers[c].flight)
  {
    RunIsSound(models, states, steps, k);
    var s, f := states[k], states[k].callers[c].flight;
    assert Fits(s, s.callers[c]);
    if f in s.settled {
      assert Serves(s, c, Wake(c));
    } else {
      var o :| o in s.callers && Owns(s.callers[o]);
      match s.callers[o]
      case Calling(_) => assert Serves(s, c, Raise(o, ""));
      case Publishing(_, _) => assert Serves(s, c, Publish(o));
      case Failing(_, _) => assert Serves(s, c, Record(o));
      case Settling(_, _) => assert Serves(s, c, Settle(o));
      case Entangled(_) =>
    }
  }

  lemma EntangledStays(s: State, step: Step, o: Caller, c: Caller, f: nat)
    requires Owned(s) && Enabled(s, step) && o in s.callers && s.callers[o] == Entangled(f)
    requires c in s.callers && (s.callers[c] == Waiting(f) || c == o)
    ensures c in Apply(s, step).callers && Apply(s, step).callers[c] == s.callers[c]
  {
    assert Owns(s.callers[o]);
  }

  /** Such a flight never settles, and whoever waits for it waits for ever. */
  lemma {:induction false} EntangledForEver(
      models: Models, states: seq<State>, steps: seq<Step>, j: nat, k: nat, o: Caller, f: nat)
    requires IsRun(models, states, steps) && j <= k <= |steps|
    requires o in states[j].callers && states[j].callers[o] == Entangled(f)
    ensures o in states[k].callers && states[k].callers[o] == Entangled(f) && f !in states[k].settled
    ensures forall c :: c in states[j].callers && states[j].callers[c] == Waiting(f) ==>
              c in states[k].callers && states[k].callers[c] == Waiting(f)
  {
    RunIsSound(models, states, steps, k);
    if j < k {
      EntangledForEver(models, states, steps, j, k - 1, o, f);
      RunIsSound(models, states, steps, k - 1);
      EntangledStays(states[k - 1], steps[k - 1], o, o, f);
      forall c | c in states[j].callers && states[j].callers[c] == Waiting(f)
        ensures c in states[k].callers && states[k].callers[c] == Waiting(f)
      {
        EntangledStays(states[k - 1], steps[k - 1], o, c, f);
      }
    }
    assert Owns(states[k].callers[o]);
  }

  /** That happens as soon as a callback refreshes: the owner of the flight waits for it,
      and so does whoever comes next. */
  lemma RefreshCanWaitForItself(models: Models) returns (states: seq<State>, steps: seq<Step>)
    ensures IsRun(models, states, steps)
    ensures states[|steps|].callers == map[0 := Entangled(0), 1 := Waiting(0)]
  {
    var s1 := Apply(Initial(models), Enter(0));
    var s2 := Apply(s1, Reenter(0));
    steps := [Enter(0), Reenter(0), Enter(1)];
    states := [Initial(models), s1, s2, Apply(s2, Enter(1))];
  }
}
