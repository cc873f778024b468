/**
 The video player the machine is exercised with: three states, three
 triggers, and the tables of the validity and trigger scenarios, checked
 against the model.
 */
module Videos {
  import opened Table
  import opened Engine

  /** The names the player uses, as trigger names and as states. */
  datatype Name = Play | Pause | Stop | Extra | Paused | Playing | Stopped

  /** A dictionary entry with the three required keys. */
  function Entry3(trigger: Name, source: Name, dest: Name): Entry<Name>
  {
    Dict(map["trigger" := trigger, "source" := source, "dest" := dest])
  }

  /** The operations of the full video host. */
  const VideoOps: set<Name> := {Play, Pause, Stop}

  /** The player's table: play from paused or stopped, pause while playing,
      stop while playing or paused. */
  const PlayerEntries: seq<Entry<Name>> := [
    Entry3(Play, Paused, Playing),
    Entry3(Play, Stopped, Playing),
    Entry3(Pause, Playing, Paused),
    Entry3(Stop, Playing, Stopped),
    Entry3(Stop, Paused, Stopped)
  ]

  const PlayerRules: seq<Rule<Name>> := [
    Rule(Play, Paused, Playing),
    Rule(Play, Stopped, Playing),
    Rule(Pause, Playing, Paused),
    Rule(Stop, Playing, Stopped),
    Rule(Stop, Paused, Stopped)
  ]

  /** The player's entries denote its rules. */
  lemma PlayerRulesParsed()
    ensures Parse(PlayerEntries) == Success(PlayerRules)
  {
    var p := Parse(PlayerEntries);
    assert p.Success?;
    assert p.value == PlayerRules;
  }

  /** No (trigger, source) pair of the player's table repeats. */
  lemma PlayerRulesDeterministic()
    ensures Deterministic(PlayerRules)
  {
  }

  /** The player's triggers are the video host's operations, and every state
      is both a source and a destination. */
  lemma PlayerSets()
    ensures Triggers(PlayerRules) == VideoOps
    ensures Sources(PlayerRules) == {Paused, Stopped, Playing}
    ensures Dests(PlayerRules) == {Paused, Stopped, Playing}
  {
  }

  /** The player table is accepted, with or without the optional check, by a
      host with the three operations and by one with an extra operation. */
  lemma PlayerTableAccepted(skipOptional: bool)
    ensures Validation(PlayerEntries, Stopped, VideoOps, skipOptional) == Success(PlayerRules)
    ensures Validation(PlayerEntries, Stopped, VideoOps + {Extra}, skipOptional) == Success(PlayerRules)
  {
    PlayerRulesParsed();
    PlayerRulesDeterministic();
    PlayerSets();
  }

  /** A host without the pause operation (one with only play, say) cannot
      carry the player table. */
  lemma HostWithoutPauseRefused(host: set<Name>)
    requires Pause !in host
    ensures Validation(PlayerEntries, Stopped, host, true) == Failure(InvalidMachine(MissingTrigger))
  {
    PlayerRulesParsed();
    PlayerRulesDeterministic();
    PlayerSets();
    assert Pause in Triggers(PlayerRules);
  }

  /** A leading entry that is not a dictionary refuses the otherwise good table. */
  lemma NonDictEntryRefused()
    ensures Validation([NotDict] + PlayerEntries, Stopped, VideoOps, true) == Failure(InvalidMachine(NotADict))
  {
    MalformedEntryRejected([NotDict] + PlayerEntries, 0, Stopped, VideoOps, true);
  }

  /** A first entry lacking "dest", "source" or "trigger" refuses the table. */
  lemma MissingKeyRefused(key: string)
    requires key == "trigger" || key == "source" || key == "dest"
    ensures var es := PlayerEntries[0 := Dict(PlayerEntries[0].fields - {key})];
      Validation(es, Stopped, VideoOps, true) == Failure(InvalidMachine(MissingKey))
  {
    var es := PlayerEntries[0 := Dict(PlayerEntries[0].fields - {key})];
    MalformedEntryRejected(es, 0, Stopped, VideoOps, true);
  }

  /** Without the play rules, stopped is only ever a destination and cannot
      be the initial state. */
  lemma InitialOnlyADestRefused()
    ensures Validation(PlayerEntries[2..], Stopped, VideoOps, true) == Failure(InvalidMachine(InitialNotASource))
  {
  }

  /** A second stop rule from paused refuses the table, with or without the
      optional check, although the first one is well formed. */
  lemma SecondStopFromPausedRefused(skipOptional: bool)
    ensures Validation(PlayerEntries + [Entry3(Stop, Paused, Paused)], Stopped, VideoOps, skipOptional)
         == Failure(InvalidMachine(Undetermined))
  {
    var es := PlayerEntries + [Entry3(Stop, Paused, Paused)];
    var rules := PlayerRules + [Rule(Stop, Paused, Paused)];
    assert es[..|es| - 1] == PlayerEntries;
    PlayerRulesParsed();
    assert Parse(es) == Success(rules);
    assert rules[1] == Rule(Play, Stopped, Playing);
    assert !Deterministic(rules) by {
      assert rules[4].trigger == rules[5].trigger && rules[4].source == rules[5].source;
    }
  }

  /** A lone play rule has destinations {playing} and sources {stopped}: the
      optional check refuses it, and skipping the check accepts it. */
  lemma LonePlayRule()
    ensures Validation([Entry3(Play, Stopped, Playing)], Stopped, VideoOps, false)
         == Failure(InvalidMachine(DestsNotSources))
    ensures Validation([Entry3(Play, Stopped, Playing)], Stopped, VideoOps, true)
         == Success([Rule(Play, Stopped, Playing)])
  {
    var rules := [Rule(Play, Stopped, Playing)];
    var es := [Entry3(Play, Stopped, Playing)];
    assert es[..0] == [];
    assert WellFormed(es[0]) && ToRule(es[0]) == rules[0];
    assert Parse(es[..0]) == Success([]);
    assert Parse(es) == Success([] + [ToRule(es[0])]);
    assert [] + [ToRule(es[0])] == rules;
    assert Deterministic(rules);
    assert Sources(rules) == {Stopped} && Dests(rules) == {Playing} && Triggers(rules) == {Play};
  }

  /** The facts about the player table that the runs below use. */
  lemma PlayerSteps(rules: seq<Rule<Name>>)
    requires rules == PlayerRules
    ensures Deterministic(rules) && Stopped in States(rules) && Play in Triggers(rules)
    ensures Rule(Play, Stopped, Playing) in rules
    ensures !HasRule(rules, Play, Playing)
  {
  }

  /** A new player over the full video host starts stopped. */
  method NewPlayer() returns (machine: Machine<Name>)
    ensures fresh(machine) && fresh(machine.model)
    ensures machine.Valid() && machine.transitions == PlayerRules && machine.state == Stopped
    ensures machine.model.ops == map n | n in VideoOps :: Shim(Original)
    ensures machine.model.invoked == []
  {
    var video := new Host(VideoOps);
    assert video.ops.Keys == VideoOps;
    PlayerTableAccepted(true);
    var created := Machine<Name>.Create(video, PlayerEntries, Stopped, true);
    assert created == Success(created.value);
    machine := created.value;
    PlayerSets();
  }

  /** A player starts stopped; play moves it to playing and runs the play
      operation once, which sees playing; a second play is refused, leaves it
      playing and runs nothing. */
  method PlayTwice() returns (initial: Name, first: CallResult<Name, ()>,
                              afterFirst: Name, second: CallResult<Name, ()>, afterSecond: Name,
                              ghost calls: seq<Invocation<Name>>)
    ensures initial == Stopped
    ensures first == ReturnedNone && afterFirst == Playing
    ensures second == Rejected(MachineError(Playing, Play)) && afterSecond == Playing
    ensures calls == [Invocation(Play, Playing)]
  {
    var machine := NewPlayer();
    initial := machine.state;
    PlayerSteps(machine.transitions);
    StepIsFunction(machine.transitions, Play, Stopped, Playing);
    first := machine.Fire(Play, Returns(()));
    afterFirst := machine.state;
    second := machine.Fire(Play, Returns(()));
    afterSecond := machine.state;
    calls := machine.model.invoked;
  }

  /** When the play operation itself raises, the move to playing stands and
      the error reaches the caller. */
  method PlayWithFailingOperation() returns (result: CallResult<Name, string>, after: Name)
    ensures result == Propagated("boom") && after == Playing
  {
    var machine := NewPlayer();
    PlayerSteps(machine.transitions);
    StepIsFunction(machine.transitions, Play, Stopped, Playing);
    result := machine.Fire<(), string>(Play, Raises("boom"));
    after := machine.state;
  }
}
