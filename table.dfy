/**
 The transition table of the state machine: the raw entries a caller hands to
 the machine, the rules they denote, the filters the machine runs over them,
 and which tables construction accepts (and with which complaint it refuses
 the others).

 Every value stored in an entry (trigger name, source state, destination
 state) has one type V. The model compares values only for equality, and
 takes that equality to be reflexive and to agree with the hashing the
 machine's sets use.
 */
module Table {

  datatype Result<T, E> = Success(value: T) | Failure(error: E)

  /** One element of the caller's transition list: something that is not a
      dictionary at all, or a dictionary from key names to values. */
  datatype Entry<V> = NotDict | Dict(fields: map<string, V>)

  /** A rule of the table: calling `trigger` in state `source` moves to `dest`. */
  datatype Rule<V> = Rule(trigger: V, source: V, dest: V)

  /** Which check of construction refused the table, in the order they run. */
  datatype Cause =
    | NotADict           // an entry is not a dictionary
    | MissingKey         // an entry lacks "trigger", "source" or "dest"
    | InitialNotASource  // the initial state is not the source of any rule
    | Undetermined       // some (trigger, source) pair has more than one rule
    | MissingTrigger     // some trigger does not name an operation of the host
    | DestsNotSources    // optional check: destinations and sources differ

  /** The error construction raises; the cause stands for its message. */
  datatype InvalidMachine = InvalidMachine(cause: Cause)

  /** A dictionary holding the three required keys; other keys may be present. */
  predicate WellFormed<V>(e: Entry<V>)
  {
    e.Dict? && "trigger" in e.fields && "source" in e.fields && "dest" in e.fields
  }

  function ToRule<V>(e: Entry<V>): Rule<V>
    requires WellFormed(e)
  {
    Rule(e.fields["trigger"], e.fields["source"], e.fields["dest"])
  }

  /** The complaint about an entry that is not well formed. */
  function EntryCause<V>(e: Entry<V>): Cause
    requires !WellFormed(e)
  {
    if e.NotDict? then NotADict else MissingKey
  }

  /** Entry i is the first entry of es that is not well formed. */
  ghost predicate FirstMalformed<V>(es: seq<Entry<V>>, i: int)
  {
    0 <= i < |es| && !WellFormed(es[i]) && forall j :: 0 <= j < i ==> WellFormed(es[j])
  }

  /** The structural pass of validation: the rules the entries denote, or the
      complaint about the first entry that is not well formed. */
  function Parse<V>(es: seq<Entry<V>>): (r: Result<seq<Rule<V>>, Cause>)
    ensures r.Success? <==> forall i :: 0 <= i < |es| ==> WellFormed(es[i])
    ensures r.Success? ==>
      |r.value| == |es| && forall i :: 0 <= i < |es| ==> WellFormed(es[i]) && r.value[i] == ToRule(es[i])
    ensures r.Failure? ==> exists i :: FirstMalformed(es, i) && r.error == EntryCause(es[i])
  {
    if es == [] then Success([])
    else
      var front := es[..|es| - 1];
      var last := es[|es| - 1];
      match Parse(front)
      case Failure(c) =>
        assert forall i :: FirstMalformed(front, i) ==> FirstMalformed(es, i);
        Failure(c)
      case Success(rules) =>
        if WellFormed(last) then Success(rules + [ToRule(last)])
        else
          assert FirstMalformed(es, |es| - 1);
          Failure(EntryCause(last))
  }

  function Triggers<V>(rules: seq<Rule<V>>): set<V>
  {
    set r | r in rules :: r.trigger
  }

  function Sources<V>(rules: seq<Rule<V>>): set<V>
  {
    set r | r in rules :: r.source
  }

  function Dests<V>(rules: seq<Rule<V>>): set<V>
  {
    set r | r in rules :: r.dest
  }

  /** The states the table knows of. */
  function States<V>(rules: seq<Rule<V>>): set<V>
  {
    Sources(rules) + Dests(rules)
  }

  /** The rules whose trigger is t, in table order. */
  function WithTrigger<V(==,!new)>(rules: seq<Rule<V>>, t: V): (m: seq<Rule<V>>)
    ensures forall r :: r in m <==> r in rules && r.trigger == t
  {
    if rules == [] then []
    else (if rules[0].trigger == t then [rules[0]] else []) + WithTrigger(rules[1..], t)
  }

  /** The rules whose source is s, in table order. */
  function WithSource<V(==,!new)>(rules: seq<Rule<V>>, s: V): (m: seq<Rule<V>>)
    ensures forall r :: r in m <==> r in rules && r.source == s
  {
    if rules == [] then []
    else (if rules[0].source == s then [rules[0]] else []) + WithSource(rules[1..], s)
  }

  /** The rules for trigger t leaving state s, in table order. */
  function Matching<V(==,!new)>(rules: seq<Rule<V>>, t: V, s: V): (m: seq<Rule<V>>)
    ensures forall r :: r in m <==> r in rules && r.trigger == t && r.source == s
  {
    if rules == [] then []
    else (if rules[0].trigger == t && rules[0].source == s then [rules[0]] else []) + Matching(rules[1..], t, s)
  }

  /** Filtering by trigger and then by source is filtering by both at once. */
  lemma {:induction false} FilterTwice<V(!new)>(rules: seq<Rule<V>>, t: V, s: V)
    ensures WithSource(WithTrigger(rules, t), s) == Matching(rules, t, s)
  {
    if rules != [] {
      FilterTwice(rules[1..], t, s);
      var head := if rules[0].trigger == t then [rules[0]] else [];
      assert WithTrigger(rules, t) == head + WithTrigger(rules[1..], t);
      WithSourceAppend(head, WithTrigger(rules[1..], t), s);
    }
  }

  lemma {:induction false} WithSourceAppend<V(!new)>(a: seq<Rule<V>>, b: seq<Rule<V>>, s: V)
    ensures WithSource(a + b, s) == WithSource(a, s) + WithSource(b, s)
  {
    if a != [] {
      var head := if a[0].source == s then [a[0]] else [];
      assert (a + b)[0] == a[0] && (a + b)[1..] == a[1..] + b;
      assert WithSource(a + b, s) == head + WithSource(a[1..] + b, s);
      WithSourceAppend(a[1..], b, s);
      assert WithSource(a, s) == head + WithSource(a[1..], s);
    } else {
      assert a + b == b;
    }
  }

  /** The table is deterministic: no two positions hold the same
      (trigger, source) pair, so a trigger leads from a state to at most one
      destination. */
  predicate Deterministic<V(==)>(rules: seq<Rule<V>>)
  {
    forall i, j ::
      0 <= i < |rules| && 0 <= j < |rules| &&
      rules[i].trigger == rules[j].trigger && rules[i].source == rules[j].source
      ==> i == j
  }

  /** The determinism check as construction words it: every (trigger, source)
      pair that occurs in the table matches exactly one rule. */
  predicate EveryPairOnce<V(==,!new)>(rules: seq<Rule<V>>)
  {
    forall r :: r in rules ==> |Matching(rules, r.trigger, r.source)| == 1
  }

  /** Two rules with one key make that key's match list at least two long. */
  lemma {:induction false} TwoMatches<V(!new)>(rules: seq<Rule<V>>, i: nat, j: nat)
    requires i < j < |rules|
    requires rules[i].trigger == rules[j].trigger && rules[i].source == rules[j].source
    ensures |Matching(rules, rules[i].trigger, rules[i].source)| >= 2
  {
    var t, s := rules[i].trigger, rules[i].source;
    if i == 0 {
      assert rules[j] in rules[1..];
      assert rules[j] in Matching(rules[1..], t, s);
    } else {
      TwoMatches(rules[1..], i - 1, j - 1);
    }
  }

  lemma {:induction false} NoMatches<V(!new)>(rules: seq<Rule<V>>, t: V, s: V)
    requires forall r :: r in rules ==> !(r.trigger == t && r.source == s)
    ensures Matching(rules, t, s) == []
  {
    if rules != [] {
      assert rules[0] in rules;
      NoMatches(rules[1..], t, s);
    }
  }

  /** With unique keys no pair matches more than one rule. */
  lemma {:induction false} AtMostOneMatch<V(!new)>(rules: seq<Rule<V>>, t: V, s: V)
    requires Deterministic(rules)
    ensures |Matching(rules, t, s)| <= 1
  {
    if rules != [] {
      var tail := rules[1..];
      assert Deterministic(tail) by {
        forall i, j | 0 <= i < |tail| && 0 <= j < |tail| &&
          tail[i].trigger == tail[j].trigger && tail[i].source == tail[j].source
          ensures i == j
        {
          assert rules[i + 1] == tail[i] && rules[j + 1] == tail[j];
        }
      }
      AtMostOneMatch(tail, t, s);
      if rules[0].trigger == t && rules[0].source == s {
        forall r | r in tail
          ensures !(r.trigger == t && r.source == s)
        {
          var k :| 0 <= k < |tail| && tail[k] == r;
          assert rules[k + 1] == r;
        }
        NoMatches(tail, t, s);
      }
    }
  }

  /** The determinism check accepts exactly the tables with unique keys. */
  lemma {:induction false} EveryPairOnceIffDeterministic<V(!new)>(rules: seq<Rule<V>>)
    ensures EveryPairOnce(rules) <==> Deterministic(rules)
  {
    if EveryPairOnce(rules) {
      forall i, j | 0 <= i < |rules| && 0 <= j < |rules| &&
        rules[i].trigger == rules[j].trigger && rules[i].source == rules[j].source
        ensures i == j
      {
        if i < j {
          TwoMatches(rules, i, j);
        } else if j < i {
          TwoMatches(rules, j, i);
        }
      }
    }
    if Deterministic(rules) {
      forall r | r in rules
        ensures |Matching(rules, r.trigger, r.source)| == 1
      {
        AtMostOneMatch(rules, r.trigger, r.source);
        assert r in Matching(rules, r.trigger, r.source);
      }
    }
  }

  /** A rule for (t, s) exists. */
  predicate HasRule<V(==,!new)>(rules: seq<Rule<V>>, t: V, s: V)
  {
    exists r :: r in rules && r.trigger == t && r.source == s
  }

  /** In a deterministic table the rule for (t, s) is the only match, so the
      successor state is a function of the trigger and the current state. */
  lemma StepIsFunction<V(!new)>(rules: seq<Rule<V>>, t: V, s: V, d: V)
    requires Deterministic(rules) && Rule(t, s, d) in rules
    ensures Matching(rules, t, s) == [Rule(t, s, d)]
    ensures forall d' :: Rule(t, s, d') in rules ==> d' == d
  {
    EveryPairOnceIffDeterministic(rules);
    var m := Matching(rules, t, s);
    assert |m| == 1;
    assert Rule(t, s, d) in m;
    forall d' | Rule(t, s, d') in rules
      ensures d' == d
    {
      assert Rule(t, s, d') in m;
    }
  }

  /** What construction decides about a table: the checks of validation in
      the order they run, each one fatal. `host` is the set of names the host
      object has as attributes. */
  function Validation<V(==,!new)>(es: seq<Entry<V>>, initial: V, host: set<V>, skipOptional: bool)
    : (r: Result<seq<Rule<V>>, InvalidMachine>)
    ensures r.Success? ==>
      && Parse(es).Success? && r.value == Parse(es).value
      && initial in Sources(r.value) && Deterministic(r.value) && Triggers(r.value) <= host
      && (!skipOptional ==> Dests(r.value) == Sources(r.value))
    ensures r.Failure? ==>
      ((r.error.cause == NotADict || r.error.cause == MissingKey) <==> Parse(es).Failure?)
    ensures skipOptional ==> r.Failure? ==> r.error.cause != DestsNotSources
  {
    match Parse(es)
    case Failure(c) => Failure(InvalidMachine(c))
    case Success(rules) =>
      if initial !in Sources(rules) then Failure(InvalidMachine(InitialNotASource))
      else if !Deterministic(rules) then Failure(InvalidMachine(Undetermined))
      else if !(Triggers(rules) <= host) then Failure(InvalidMachine(MissingTrigger))
      else if !skipOptional && Dests(rules) != Sources(rules) then Failure(InvalidMachine(DestsNotSources))
      else Success(rules)
  }

  /** The tables construction accepts, stated entry by entry. */
  ghost predicate Feasible<V>(es: seq<Entry<V>>, initial: V, host: set<V>, skipOptional: bool)
  {
    && (forall i :: 0 <= i < |es| ==> WellFormed(es[i]))
    && initial in EntrySources(es)
    && (forall i, j ::
          0 <= i < |es| && 0 <= j < |es| &&
          ToRule(es[i]).trigger == ToRule(es[j]).trigger && ToRule(es[i]).source == ToRule(es[j]).source
          ==> i == j)
    && EntryTriggers(es) <= host
    && (skipOptional || EntryDests(es) == EntrySources(es))
  }

  /** The values under "trigger" of the well-formed entries. */
  ghost function EntryTriggers<V>(es: seq<Entry<V>>): set<V>
  {
    set i | 0 <= i < |es| && WellFormed(es[i]) :: ToRule(es[i]).trigger
  }

  /** The values under "source" of the well-formed entries. */
  ghost function EntrySources<V>(es: seq<Entry<V>>): set<V>
  {
    set i | 0 <= i < |es| && WellFormed(es[i]) :: ToRule(es[i]).source
  }

  /** The values under "dest" of the well-formed entries. */
  ghost function EntryDests<V>(es: seq<Entry<V>>): set<V>
  {
    set i | 0 <= i < |es| && WellFormed(es[i]) :: ToRule(es[i]).dest
  }

  /** The sets validation collects are those of the entries the rules came from. */
  lemma ParsedSets<V>(es: seq<Entry<V>>, rules: seq<Rule<V>>)
    requires |rules| == |es|
    requires forall i :: 0 <= i < |es| ==> WellFormed(es[i]) && rules[i] == ToRule(es[i])
    ensures Triggers(rules) == EntryTriggers(es)
    ensures Sources(rules) == EntrySources(es)
    ensures Dests(rules) == EntryDests(es)
  {
  }

  /** Construction accepts a table exactly when it is feasible, and the table
      it keeps is the entries read as rules, in order. */
  lemma ValidationSucceedsIff<V(!new)>(es: seq<Entry<V>>, initial: V, host: set<V>, skipOptional: bool)
    ensures Validation(es, initial, host, skipOptional).Success? <==> Feasible(es, initial, host, skipOptional)
    ensures Validation(es, initial, host, skipOptional).Success? ==>
      var rules := Validation(es, initial, host, skipOptional).value;
      |rules| == |es| && forall i :: 0 <= i < |es| ==> WellFormed(es[i]) && rules[i] == ToRule(es[i])
  {
    var p := Parse(es);
    if p.Success? {
      var rules := p.value;
      FeasibleIffParsed(es, rules, initial, host, skipOptional);
    }
  }

  /** Feasibility of the entries, restated over the rules they denote. */
  lemma FeasibleIffParsed<V>(es: seq<Entry<V>>, rules: seq<Rule<V>>, initial: V, host: set<V>, skipOptional: bool)
    requires |rules| == |es|
    requires forall i :: 0 <= i < |es| ==> WellFormed(es[i]) && rules[i] == ToRule(es[i])
    ensures Feasible(es, initial, host, skipOptional) <==>
      && initial in Sources(rules)
      && Deterministic(rules)
      && Triggers(rules) <= host
      && (skipOptional || Dests(rules) == Sources(rules))
  {
    ParsedSets(es, rules);
  }

  /** An entry that is not a dictionary, or lacks one of the three keys,
      makes construction fail whatever the other entries are; the complaint is
      about the first such entry. */
  lemma MalformedEntryRejected<V(!new)>(es: seq<Entry<V>>, i: int, initial: V, host: set<V>, skipOptional: bool)
    requires 0 <= i < |es| && !WellFormed(es[i])
    ensures exists k :: (0 <= k <= i && FirstMalformed(es, k) &&
      Validation(es, initial, host, skipOptional) == Failure(InvalidMachine(EntryCause(es[k]))))
  {
    var p := Parse(es);
    assert !p.Success?;
    var k :| FirstMalformed(es, k) && p.error == EntryCause(es[k]);
    assert k <= i;
  }

  /** Keys other than the three required ones do not change the verdict. */
  lemma ExtraKeysTolerated<V(!new)>(es: seq<Entry<V>>, i: int, key: string, value: V,
                                    initial: V, host: set<V>, skipOptional: bool)
    requires 0 <= i < |es| && WellFormed(es[i])
    requires key != "trigger" && key != "source" && key != "dest"
    ensures Validation(es[i := Dict(es[i].fields[key := value])], initial, host, skipOptional)
         == Validation(es, initial, host, skipOptional)
  {
    var es' := es[i := Dict(es[i].fields[key := value])];
    assert forall j :: 0 <= j < |es| ==> (WellFormed(es'[j]) <==> WellFormed(es[j]));
    assert ToRule(es'[i]) == ToRule(es[i]);
    if Parse(es).Success? {
      assert Parse(es').value == Parse(es).value;
    }
  }

  /** The initial state must be the source of some rule: once every entry is
      well formed, an initial state that is no entry's source is the complaint. */
  lemma InitialNotASourceRejected<V(!new)>(es: seq<Entry<V>>, initial: V, host: set<V>, skipOptional: bool)
    requires forall i :: 0 <= i < |es| ==> WellFormed(es[i])
    requires initial !in EntrySources(es)
    ensures Validation(es, initial, host, skipOptional) == Failure(InvalidMachine(InitialNotASource))
  {
  }

  /** Two entries with one (trigger, source) pair make construction fail, even
      when they agree on the destination; once the entries are well formed and
      the initial state is a source, that is the complaint. */
  lemma DuplicateKeyRejected<V(!new)>(es: seq<Entry<V>>, i: int, j: int, initial: V, host: set<V>, skipOptional: bool)
    requires 0 <= i < |es| && 0 <= j < |es| && i != j
    requires WellFormed(es[i]) && WellFormed(es[j])
    requires ToRule(es[i]).trigger == ToRule(es[j]).trigger && ToRule(es[i]).source == ToRule(es[j]).source
    ensures Validation(es, initial, host, skipOptional).Failure?
    ensures (forall k :: 0 <= k < |es| ==> WellFormed(es[k])) && initial in EntrySources(es) ==>
      Validation(es, initial, host, skipOptional) == Failure(InvalidMachine(Undetermined))
  {
  }

  /** A trigger that names no operation of the host makes construction fail;
      for a well-formed, deterministic table starting at one of its sources,
      that is the complaint. */
  lemma MissingTriggerRejected<V(!new)>(es: seq<Entry<V>>, i: int, initial: V, host: set<V>, skipOptional: bool)
    requires 0 <= i < |es| && WellFormed(es[i]) && ToRule(es[i]).trigger !in host
    ensures Validation(es, initial, host, skipOptional).Failure?
    ensures Parse(es).Success? && initial in Sources(Parse(es).value) && Deterministic(Parse(es).value) ==>
      Validation(es, initial, host, skipOptional) == Failure(InvalidMachine(MissingTrigger))
  {
  }

  /** The host matters only through the names the table uses as triggers:
      hosts that agree on those give the same verdict. */
  lemma OnlyTriggerNamesMatter<V(!new)>(es: seq<Entry<V>>, initial: V, host: set<V>, host': set<V>, skipOptional: bool)
    requires forall i :: 0 <= i < |es| && WellFormed(es[i]) ==> (ToRule(es[i]).trigger in host <==> ToRule(es[i]).trigger in host')
    ensures Validation(es, initial, host, skipOptional) == Validation(es, initial, host', skipOptional)
  {
  }

  /** The optional check refuses exactly the otherwise accepted tables whose
      destinations and sources differ; when skipped it is never made. */
  lemma OptionalCheck<V(!new)>(es: seq<Entry<V>>, initial: V, host: set<V>)
    ensures var strict, lax := Validation(es, initial, host, false), Validation(es, initial, host, true);
      && (strict.Success? <==> lax.Success? && Dests(lax.value) == Sources(lax.value))
      && (strict.Success? ==> strict == lax)
      && (lax.Success? && !strict.Success? ==> strict == Failure(InvalidMachine(DestsNotSources)))
      && (lax.Failure? ==> strict == lax)
  {
  }
}
