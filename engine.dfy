/**
 The machine engine: validation as construction runs it, the machine object
 with its mutable current state, the wrapping of the host's trigger
 operations, and the guarded call that each wrapped operation performs.

 The host object is modelled by the names of its attributes and what each
 currently holds (its own operation, or a shim around what was there), plus a
 log of the calls the shims delegated to the operations they wrap.
 */
module Engine {
  import opened Table

  /** What a host attribute holds: the host's own operation, or an
      interception shim around whatever it held before. */
  datatype Op = Original | Shim(inner: Op)

  /** A call that a shim delegated to the operation it wraps, with the machine
      state that call observed. */
  datatype Invocation<V> = Invocation(op: V, stateSeen: V)

  /** The error a wrapped operation raises when no rule leaves the current
      state for its trigger. */
  datatype MachineError<V> = MachineError(state: V, trigger: V)

  /** How the wrapped operation itself ends: it returns a value or raises. */
  datatype HostOutcome<R, E> = Returns(value: R) | Raises(exc: E)

  /** How a call of a wrapped operation ends for its caller. */
  datatype CallResult<V, E> =
    | ReturnedNone                   // the transition was taken and the operation returned
    | Rejected(error: MachineError<V>)
    | Propagated(exc: E)             // the transition was taken and the operation raised

  /** The object whose operations the machine governs. */
  class Host<V(==)> {
    var ops: map<V, Op>
    ghost var invoked: seq<Invocation<V>>

    constructor (names: set<V>)
      ensures ops == (map n | n in names :: Original) && invoked == []
    {
      ops := map n | n in names :: Original;
      invoked := [];
    }
  }

  /** Validation as construction runs it: the structural pass, the initial
      state, the (trigger, source) pairs, the host attributes and, unless
      skipped, the state sets; the first check that fails decides. */
  method Validate<V(==,!new)>(es: seq<Entry<V>>, initial: V, host: set<V>, skipOptional: bool)
    returns (r: Result<seq<Rule<V>>, InvalidMachine>)
    ensures r == Validation(es, initial, host, skipOptional)
  {
    var parsed, triggers, sources, dests := CollectRules(es);
    if parsed.Failure? {
      return Failure(InvalidMachine(parsed.error));
    }
    var rules := parsed.value;
    if initial !in sources {
      return Failure(InvalidMachine(InitialNotASource));
    }
    var determined := CheckDeterminism(rules, triggers);
    if !determined {
      return Failure(InvalidMachine(Undetermined));
    }
    var present := CheckHostTriggers(rules, host);
    if !present {
      return Failure(InvalidMachine(MissingTrigger));
    }
    if !skipOptional && dests != sources {
      return Failure(InvalidMachine(DestsNotSources));
    }
    return Success(rules);
  }

  /** The first loop of validation: each entry must be a dictionary with the
      three keys; their values are collected into the rule list and the sets
      of triggers, sources and destinations. */
  method CollectRules<V(==,!new)>(es: seq<Entry<V>>)
    returns (r: Result<seq<Rule<V>>, Cause>, triggers: set<V>, sources: set<V>, dests: set<V>)
    ensures r == Parse(es)
    ensures r.Success? ==>
      triggers == Triggers(r.value) && sources == Sources(r.value) && dests == Dests(r.value)
  {
    triggers, sources, dests := {}, {}, {};
    var rules: seq<Rule<V>> := [];
    var i := 0;
    while i < |es|
      invariant 0 <= i <= |es|
      invariant Parse(es[..i]) == Success(rules)
      invariant triggers == Triggers(rules) && sources == Sources(rules) && dests == Dests(rules)
    {
      var e := es[i];
      assert es[..i + 1][..i] == es[..i];
      if e.NotDict? {
        assert Parse(es[..i + 1]) == Failure(NotADict);
        ParseStopsAtFailure(es, i + 1);
        return Failure(NotADict), triggers, sources, dests;
      }
      if !("trigger" in e.fields && "source" in e.fields && "dest" in e.fields) {
        assert Parse(es[..i + 1]) == Failure(MissingKey);
        ParseStopsAtFailure(es, i + 1);
        return Failure(MissingKey), triggers, sources, dests;
      }
      var rule := ToRule(e);
      triggers := triggers + {rule.trigger};
      sources := sources + {rule.source};
      dests := dests + {rule.dest};
      rules := rules + [rule];
      i := i + 1;
    }
    assert es[..|es|] == es;
    r := Success(rules);
  }

  /** The determinism loop of validation: for every trigger, and every source
      that trigger leaves from, exactly one rule must have both. */
  method CheckDeterminism<V(==,!new)>(rules: seq<Rule<V>>, triggers: set<V>) returns (ok: bool)
    requires triggers == Triggers(rules)
    ensures ok <==> EveryPairOnce(rules)
    ensures ok <==> Deterministic(rules)
  {
    EveryPairOnceIffDeterministic(rules);
    var todo := triggers;
    while todo != {}
      invariant todo <= triggers
      invariant forall r :: r in rules && r.trigger !in todo ==> |Matching(rules, r.trigger, r.source)| == 1
      decreases todo
    {
      var trigger :| trigger in todo;
      var available := WithTrigger(rules, trigger);
      var availableSources := Sources(available);
      var pending := availableSources;
      while pending != {}
        invariant pending <= availableSources
        invariant forall r :: r in rules && r.trigger !in todo ==> |Matching(rules, r.trigger, r.source)| == 1
        invariant forall r :: r in rules && r.trigger == trigger && r.source !in pending ==>
          |Matching(rules, r.trigger, r.source)| == 1
        decreases pending
      {
        var source :| source in pending;
        var fromSource := WithSource(available, source);
        FilterTwice(rules, trigger, source);
        if |fromSource| != 1 {
          var offender :| offender in available && offender.source == source;
          assert offender in rules;
          return false;
        }
        pending := pending - {source};
      }
      todo := todo - {trigger};
    }
    return true;
  }

  /** The host loop of validation: the trigger of every rule must name an
      attribute of the host. */
  method CheckHostTriggers<V(==,!new)>(rules: seq<Rule<V>>, host: set<V>) returns (ok: bool)
    ensures ok <==> Triggers(rules) <= host
  {
    var i := 0;
    while i < |rules|
      invariant 0 <= i <= |rules|
      invariant forall j :: 0 <= j < i ==> rules[j].trigger in host
    {
      if rules[i].trigger !in host {
        assert rules[i] in rules;
        return false;
      }
      i := i + 1;
    }
    return true;
  }

  /** A failure of the structural pass on a prefix is its failure on the whole. */
  lemma {:induction false} ParseStopsAtFailure<V>(es: seq<Entry<V>>, n: nat)
    requires n <= |es| && Parse(es[..n]).Failure?
    ensures Parse(es) == Parse(es[..n])
    decreases |es| - n
  {
    if n < |es| {
      assert es[..n + 1][..n] == es[..n];
      ParseStopsAtFailure(es, n + 1);
    } else {
      assert es[..n] == es;
    }
  }

  class Machine<V(==,!new)> {
    var state: V
    const transitions: seq<Rule<V>>
    const model: Host<V>

    /** The table is deterministic and the current state is one it knows. */
    ghost predicate Valid()
      reads this
    {
      Deterministic(transitions) && state in States(transitions)
    }

    /** Construction once validation has accepted the table: the fields are
        set, starting in the initial state, and every trigger is wrapped. */
    constructor (model: Host<V>, transitions: seq<Rule<V>>, initial: V)
      requires Deterministic(transitions) && initial in Sources(transitions)
      requires Triggers(transitions) <= model.ops.Keys
      modifies model
      ensures Valid() && state == initial
      ensures this.transitions == transitions && this.model == model
      ensures model.ops.Keys == old(model.ops.Keys)
      ensures forall n :: n in model.ops ==>
        model.ops[n] == if n in Triggers(transitions) then Shim(old(model.ops[n])) else old(model.ops[n])
      ensures model.invoked == old(model.invoked)
    {
      state := initial;
      this.transitions := transitions;
      this.model := model;
      new;
      WrapTriggers();
    }

    /** Construction from the caller's entries: validation, then the fields
        and the wrapping; a refused table leaves the host as it was. */
    static method Create(model: Host<V>, es: seq<Entry<V>>, initial: V, skipOptional: bool)
      returns (r: Result<Machine<V>, InvalidMachine>)
      modifies model
      ensures var v := Validation(es, initial, old(model.ops.Keys), skipOptional);
        && (r.Failure? <==> v.Failure?)
        && (r.Failure? ==> r.error == v.error && model.ops == old(model.ops))
        && (r.Success? ==> fresh(r.value) && r.value.Valid() && r.value.state == initial
                           && r.value.transitions == v.value && r.value.model == model)
      ensures r.Success? ==>
        && model.ops.Keys == old(model.ops.Keys)
        && forall n :: n in model.ops ==>
             model.ops[n] == if n in Triggers(r.value.transitions) then Shim(old(model.ops[n])) else old(model.ops[n])
      ensures model.invoked == old(model.invoked)
    {
      var v := Validate(es, initial, model.ops.Keys, skipOptional);
      if v.Failure? {
        return Failure(v.error);
      }
      var m := new Machine(model, v.value, initial);
      return Success(m);
    }

    /** Replaces the host attribute of every distinct trigger by a shim
        around what it held, each once; other attributes are untouched. */
    method WrapTriggers()
      requires Triggers(transitions) <= model.ops.Keys
      modifies model`ops
      ensures model.ops.Keys == old(model.ops.Keys)
      ensures forall n :: n in model.ops ==>
        model.ops[n] == if n in Triggers(transitions) then Shim(old(model.ops[n])) else old(model.ops[n])
    {
      var triggers := Triggers(transitions);
      var todo := triggers;
      while todo != {}
        invariant todo <= triggers
        invariant model.ops.Keys == old(model.ops.Keys)
        invariant forall n :: n in model.ops ==>
          model.ops[n] == if n in triggers - todo then Shim(old(model.ops[n])) else old(model.ops[n])
        decreases todo
      {
        var t :| t in todo;
        model.ops := model.ops[t := Shim(model.ops[t])];
        todo := todo - {t};
      }
    }

    /** A call of the wrapped operation for trigger t. With no rule for t in
        the current state it raises a machine error and changes nothing.
        Otherwise it moves to the rule's destination first, then calls the
        wrapped operation once, which sees the new state; the move stands
        whatever that call does, and a returned value is dropped. */
    method Fire<R, E>(t: V, outcome: HostOutcome<R, E>) returns (r: CallResult<V, E>)
      requires Valid() && t in Triggers(transitions)
      modifies this`state, model`invoked
      ensures Valid()
      ensures r.Rejected? <==> !HasRule(transitions, t, old(state))
      ensures r.Rejected? ==>
        r.error == MachineError(old(state), t) && state == old(state) && model.invoked == old(model.invoked)
      ensures !r.Rejected? ==>
        && Rule(t, old(state), state) in transitions
        && model.invoked == old(model.invoked) + [Invocation(t, state)]
        && r == (if outcome.Returns? then ReturnedNone else Propagated(outcome.exc))
    {
      var available := Matching(transitions, t, state);
      if |available| == 0 {
        return Rejected(MachineError(state, t));
      }
      assert available[0] in available;
      state := available[0].dest;
      model.invoked := model.invoked + [Invocation(t, state)];
      match outcome
      case Returns(_) =>
        r := ReturnedNone;
      case Raises(exc) =>
        r := Propagated(exc);
    }
  }
}
