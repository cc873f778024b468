# State machine engine, modelled in Dafny

This project models the finite-state-machine engine of `src/machine/machine.py`. A caller hands a `Machine` three things:

- a host object;
- a list of transition entries, each a dictionary with `trigger`, `source` and `dest`;
- an initial state.

Construction validates the list. If the list is feasible, construction replaces every trigger operation of the host with a shim. Calling a shim is guarded: it fails with a machine error when no rule leaves the current state for that trigger. Otherwise it moves the machine to the rule's destination and only then runs the original operation.

The project has three modules:

- `Table` (`table.dfy`) holds the data and the specification:
  - raw entries (`NotDict` or `Dict(fields)`), rules, and the `Cause` of an `InvalidMachine`;
  - the structural pass `Parse`, the filters the source runs, and the two formulations of determinism;
  - the function `Validation`, which gives the verdict of construction with its checks in the source's order;
  - lemmas about which tables are accepted.
- `Engine` (`engine.dfy`) is the imperative part:
  - `Validate` and its three loops, proved equal to `Validation`;
  - the class `Host`, whose attribute map `ops` says, per name, whether the attribute holds its own operation or a shim. Its ghost log `invoked` records each call a shim delegated, with the state that call saw.
  - the class `Machine`, with its mutable `state`, its construction (`Create`, the constructor, `WrapTriggers`), and `Fire`, the call of a wrapped operation.
- `Videos` (`videos.dfy`) holds the video player of the repository's tests:
  - its tables, checked against `Validation`;
  - runs of `Fire` that reproduce the trigger tests.

Two behaviours of the code that the model keeps:

- A wrapped call yields `None` (`ReturnedNone`): `src/machine/machine.py:118` calls the original without `return`.
- A repeated (trigger, source) pair is refused even with the same `dest`, since `src/machine/machine.py:80` asks for exactly one match.

## Model

| member | source | states |
|---|---|---|
| Table.Parse | src/machine/machine.py:58-66 | the structural pass succeeds iff every entry is a dictionary with the three keys; the rules are then the entries read in order; otherwise the complaint is about the first bad entry (not a dictionary, or a missing key) |
| Table.WithTrigger | src/machine/machine.py:74 | the filtered list holds exactly the rules with that trigger |
| Table.WithSource | src/machine/machine.py:77-79 | the filtered list holds exactly the rules with that source |
| Table.Matching | src/machine/machine.py:112-114 | the wrapper's lookup holds exactly the rules for that trigger leaving that state |
| Table.FilterTwice | src/machine/machine.py:74-79 | filtering by trigger and then by source gives the same list as the wrapper's combined filter |
| Table.AtMostOneMatch | src/machine/machine.py:72-83 | in a table without a repeated (trigger, source) pair, no lookup finds more than one rule |
| Table.EveryPairOnceIffDeterministic | src/machine/machine.py:72-83 | the code's check (each pair that occurs matches exactly one rule) holds iff no two positions of the table share a (trigger, source) pair |
| Table.StepIsFunction | src/machine/machine.py:112-117 | in a deterministic table the lookup for a pair that has a rule returns exactly that rule, so the next state is a function of trigger and state |
| Table.ParsedSets | src/machine/machine.py:54-66 | the trigger, source and destination sets collected from the rules are those of the entries |
| Table.ValidationSucceedsIff | src/machine/machine.py:45-95 | construction accepts a table iff every entry is well formed, the initial state is a source, no pair repeats, every trigger is a host attribute and (unless skipped) destinations equal sources; an accepted table is the entries in order |
| Table.FeasibleIffParsed | src/machine/machine.py:45-95 | the entry-level acceptance condition restated over the parsed rules |
| Table.MalformedEntryRejected | src/machine/machine.py:59-63 | an entry that is not a dictionary or lacks a key makes construction fail whatever the other entries are, with the complaint about the first such entry |
| Table.ExtraKeysTolerated | src/machine/machine.py:62 | adding a key other than the three required ones to an entry does not change the verdict |
| Table.InitialNotASourceRejected | src/machine/machine.py:68-70 | with well-formed entries, an initial state that is no entry's source is refused for that reason |
| Table.DuplicateKeyRejected | src/machine/machine.py:72-83 | two entries with one (trigger, source) pair make construction fail, whatever their destinations; past the earlier checks that is the complaint |
| Table.MissingTriggerRejected | src/machine/machine.py:85-88 | a trigger that is not a host attribute makes construction fail; past the earlier checks that is the complaint |
| Table.OnlyTriggerNamesMatter | src/machine/machine.py:85-88 | hosts that agree on the table's trigger names give the same verdict, so extra host attributes are irrelevant |
| Table.OptionalCheck | src/machine/machine.py:89-95 | the strict verdict differs from the lax one only by refusing otherwise accepted tables whose destinations and sources differ |
| Table.Validation | src/machine/machine.py:45-95 | the verdict of validation, its checks in the source's order, first failure fatal: an accepted table is the parsed entries, starts at one of its sources, is deterministic, uses only host attributes as triggers and (when strict) has destinations equal to sources; a structural complaint comes exactly when the structural pass fails; the optional complaint never comes when the check is skipped |
| Engine.Validate | src/machine/machine.py:45-95 | validation as the source runs it (loops over entries, triggers, sources and rules, first failure fatal) returns exactly `Validation`'s verdict |
| Engine.CollectRules | src/machine/machine.py:54-66 | the structural loop returns the structural pass's result and, on success, the trigger, source and destination sets of the rules |
| Engine.ParseStopsAtFailure | src/machine/machine.py:59-63 | a structural failure on a prefix of the entries is the failure of the whole list |
| Engine.CheckDeterminism | src/machine/machine.py:72-83 | the nested loop over triggers and their sources accepts iff every occurring pair matches exactly one rule, i.e. iff the table is deterministic |
| Engine.CheckHostTriggers | src/machine/machine.py:85-88 | the host loop accepts iff every trigger is an attribute of the host |
| Engine.Machine.constructor | src/machine/machine.py:23-28 | a machine over an accepted table starts in the initial state, keeps the table and the host, and wraps exactly the trigger attributes |
| Engine.Machine.Create | src/machine/machine.py:15-31 | construction fails iff validation does, with its cause, leaving the host's attributes unchanged; otherwise the machine is in the initial state, holds the validated rules, and each trigger attribute of the host (and no other) is a shim around what it held |
| Engine.Machine.WrapTriggers | src/machine/machine.py:97-101 | every distinct trigger attribute is replaced by one shim around its old value; other attributes and the set of names are unchanged |
| Engine.Machine.Fire | src/machine/machine.py:103-120 | with no rule for (trigger, state) the call is refused with a machine error naming both, the state stays and nothing is invoked; otherwise the state becomes the rule's destination, the operation is invoked once and sees the new state, the move stands even if it raises, and a returned value is dropped |
| Videos.PlayerRulesParsed | src/tests/videos.py:33-39 | the player's five entries parse to its five rules |
| Videos.PlayerRulesDeterministic | src/tests/videos.py:33-39 | the player's table has no repeated (trigger, source) pair |
| Videos.PlayerSets | src/tests/videos.py:33-39 | the player's triggers are play, pause and stop, and its sources and destinations are paused, stopped and playing |
| Videos.PlayerTableAccepted | src/tests/test_machine_validity.py:13-18 | the player's table is accepted from stopped, strictly or not, by a host with the three operations and by one with an extra operation |
| Videos.HostWithoutPauseRefused | src/tests/test_machine_validity.py:8-10 | a host without the pause operation cannot carry the player's table |
| Videos.NonDictEntryRefused | src/tests/test_machine_validity.py:35-46 | a leading entry that is not a dictionary refuses the table |
| Videos.MissingKeyRefused | src/tests/test_machine_validity.py:47-79 | a first entry without "dest", "source" or "trigger" refuses the table |
| Videos.InitialOnlyADestRefused | src/tests/test_machine_validity.py:80-88 | without the play rules, stopped is not a source and cannot be the initial state |
| Videos.SecondStopFromPausedRefused | src/tests/test_machine_validity.py:89-100 | a second stop rule from paused refuses the table, strictly or not |
| Videos.LonePlayRule | src/tests/test_machine_validity.py:138-142 | a lone play rule is refused by the strict check and accepted without it |
| Videos.PlayerSteps | src/tests/videos.py:33-39 | the player's table moves play from stopped to playing and has no play rule leaving playing |
| Videos.NewPlayer | src/tests/test_machine_triggers.py:7-9 | a new player over the video host starts stopped, with its three operations wrapped once and nothing invoked |
| Videos.PlayTwice | src/tests/test_machine_triggers.py:41-47 | play from stopped reaches playing and invokes play once, seeing playing; a second play is refused with a machine error and leaves the player playing |
| Videos.PlayWithFailingOperation | src/machine/machine.py:117-118 | when the play operation raises, the player is still playing and the error reaches the caller |

## Left out

- The `is_<state>` attributes added when `add_is_state` is set (`src/machine/machine.py:30-31` and `33-43`) are not modelled. Each lambda reads the loop variable late, and each is a plain attribute rather than a property, so its value depends on set iteration order and is always truthy.
- Reflection is reduced to names. `hasattr`, `getattr` and `setattr` on the host become the key set and the updates of `Host.ops`. A host attribute is any attribute, not only a method. Entries whose values are not hashable, which raise `TypeError` in the source, are not modelled.
- Engine.Machine.Fire: it assumes that the wrapped operation's `__name__` equals its trigger. So a host shared by two machines, where the outer shim would look up the name of the inner shim, is not modelled. Neither is an operation stored under another name.
- Argument forwarding (`*args`, `**kwargs`) and the bodies of host operations are not modelled. The operation's outcome is a parameter of `Fire` (`Returns(value)` or `Raises(exc)`).
- Values are assumed to have a reflexive equality that agrees with hashing. The source tests membership in sets (`src/machine/machine.py:69`, `75`) but filters with `==` (lines 74, 78, 113), so a value unequal to itself, such as a float NaN used as a source and as the initial state, passes line 69 and is then refused at line 80; the model accepts that table.
- A trigger that is not a string makes `hasattr` at `src/machine/machine.py:87` raise `TypeError`; the model treats it as a trigger missing from the host (`MissingTrigger`).
- Error message texts are not modelled. `InvalidMachine` carries only a `Cause` naming the check that failed.
- The machine keeps the caller's list object itself, so later changes to that list would change its behaviour. The model keeps the validated rules as a value.
- Threading is not modelled. The source has no synchronisation.
- The wrapper of a trigger is modelled only through `Fire`, which needs the trigger to be one of the table's triggers, since only those attributes are wrapped. Calls of unwrapped host operations do not involve the machine.
