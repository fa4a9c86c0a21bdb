# A verified model of kratos-runtime

kratos-runtime lets a debugger pause a hardware simulation over HTTP, look at its signals and let it go
on.  The model covers what makes that trustworthy: the handshake between the simulator thread and the
HTTP handlers, the decision where to stop, the tables behind conditional breakpoints, the polling client
that records a design's states, the text formats in between, and the connection graph.

Check it with `dafny verify dfyconfig.toml` (Dafny 4.11).

## How it is built

| module | what it models |
|---|---|
| `Text`, `Locations`, `Paths`, `VarNames` | the string helpers: tokens, joining, numerals, `file:line[:col]`, path translation, flattened array names |
| `Handles`, `Conditions` | reading a signal by name; conditions, their slots and their registration |
| `Tables`, `Verdicts`, `RegistryLimits` | the three breakpoint tables as a value, their invariant, what requests and verdicts mean, and where the tables fail |
| `Registry` | the tables as the runtime updates them in place, every method proved against `Tables` |
| `Stepping` | the stop decision and the sequential debugger: a trace of events against a list of commands |
| `Protocol`, `Stopping`, `Disciplined`, `Progress` | the interleaved protocol as a state machine: any client, what `/stop` does, the disciplined client, how long a session takes |
| `Runtime` | the globals, updated in place by atomic steps of the two kinds of thread, each proved to be a step of `Protocol` |
| `Polling`, `Recorder` | the mock debugger's requests and `record_state` against an arbitrary schedule of the threads, and how many rounds of turns it needs |
| `Connections` | the connection joins and the graph snapshot |

The theorems build on each other.  `Runtime` takes the steps of `Protocol`; `Disciplined` finds an
inductive invariant of every interleaving, which ties each state to `Stepping.Replay`, the sequential
debugger; `Stepping` says what that debugger pauses at, using `Verdicts`, which says what a condition means
independently of the slots it is evaluated with; `Progress` bounds the steps of a session, and `Recorder` puts
all of it under a client written as loops, which that bound shows to come to its end.

### Conventions

- The lock is taken by the simulator and released by a handler, so it is modelled as a semaphore with one
  unit: releasing a free one leaves it free.  `paused` and `step_over` are sequentially consistent.
- An atomic step is one access to a global: `pause_sim` and `un_pause_sim` take two each.  An event's stop
  decision and a breakpoint request are one step each.
- *Any client* sends any request at any time to any number of handlers.  The *disciplined client* has one
  request in flight and edits or resumes only after a "Paused" reply that no resume has followed.
- The client-request mode is on, so every hit pauses.  An accepted request gets its reply; a client that
  gets none takes the server to have stopped.
- While the simulator moves, a signal read gives an arbitrary value.  Signals and time are 32-bit values.
- A condition arrives as its text together with what exprtk's grammar makes of it; its doubles are reals.
  The value of a condition that never compiled is NaN, whose conversion to an integer is undefined in C++;
  the model takes the result on x86-64, which is not zero.
- A pause is named by the number of events begun, so the start-up pause is 0.
- A schedule is a list of turns of the simulator, the handler thread and the client.  A round is a stretch in
  which each of them has a turn (`Polling.RoundsOfBlocks`).  `record_state` with `n` names over `e` events needs
  `e * (25 + 3 * n) + 35 + 4 * n` rounds at most (`Progress.Bound`); on a schedule that ends earlier the model
  client may be cut off, which is the only outcome that the source does not have.
- The tables are *valid* when their lookups cannot throw, and *good* when besides every slot that a condition reads
  is among the names fetched at each hit.  An insert *poisons* a breakpoint when it makes a lookup throw, and
  *strands* a slot when the condition in force afterwards reads it and no hit fetches it.
- A post to a connected client is a step of its own in front of `pause_sim` and of teardown; without a connected
  client it is the test for one.

### Where the code differs from what it sets out to do

- `is_expr_symbol` tests the first character of a match instead of the one in front of it (src/util.cc:46).
  `Handles.SymbolOnlyInFront` says what this amounts to: a symbol is recognised only at the front of a condition.
  So a first condition that names two signals never compiles and stops at every hit: `Stepping.TwoNamesAlwaysPause`.
- A constant that `std::stoi` rejects makes `add_breakpoint_expr` return early (src/control.cc:367, 385), after
  the symbol mapping was reset.  `Tables.InsertKeepsValid` gives the exact condition under which an insert
  keeps the tables in agreement, and `RegistryLimits` shows what happens otherwise.
- A second condition on a breakpoint shares its slots with the first, so a verdict can hang on values of
  earlier hits: `RegistryLimits.HistoryDecides` has two sessions with the same requests and the same signals now.
  `Tables.InsertKeepsGood` has the exact condition: the insert strands no slot.  While the tables are good,
  history does not matter: `Tables.HistoriesAgree`.  A stranded slot never changes at a hit, so what a command stops
  at is decided when it is given even then: `Stepping.CommandRunsToLeast`.
- A resume sent before `paused` is set leaves the flag true while the simulator runs:
  `Protocol.EarlyResumeLeavesFlag`.  For any client a pause ends with the flag up exactly when no handler lowered
  it since: `Protocol.FlagTellsOfResume`.  With the disciplined client the flag is right: `Disciplined.StatusIsTrue`.
- The route for deleting by line (src/control.cc:691) captures nothing, so its handler always sees an empty
  path and removes nothing: `Verdicts.DeleteLineRemovesNothing`.  The model keeps the handler's body, for any path.
- Deleting by id reads the id as a signed integer, so a breakpoint from 2^31 on cannot be deleted that way:
  `Verdicts.DeleteIdMeaning`.
- `replace` keeps the rest of a path as it is, save that it drops one slash where both directories end in one and
  the rest begins with one: `Paths.TranslateBelow` has the exact condition.

## Model

| member | source | states |
|---|---|---|
| Text.GetTokens | src/util.cc:4-22 | the scanning loop and the filter behind it return the tokens of the line, and terminate |
| Text.TokensAreTheRuns | src/util.cc:4-22 | the tokens are exactly the maximal delimiter-free runs of the line: each is one, in order, and none is missed |
| Text.TokensKeepTheRest | src/util.cc:4-22 | the tokens laid end to end are the line without its delimiter characters |
| Text.JoinTokens | src/util.hh:31-39 | the joining loop puts the separator between neighbours only |
| Text.TokensOfJoin | src/util.hh:31-39 | words free of the separator are found again after joining |
| Text.JoinOfTokens | src/util.cc:4-22 | tokenising and joining restore a string exactly when it has no leading, trailing or doubled separator |
| Text.IsDigits | src/util.cc:71-73 | true exactly when every character is a digit |
| Text.StoiOfDec | src/control.cc:421 | a printed 32-bit value is read back unchanged |
| Text.StoiMeaning | src/control.cc:364-386 | leading blanks, a sign and digits up to the first other character give the number, or an exception outside 32 bits |
| Text.NumeralIsPositional | src/control.cc:617 | numerals are read by decimal position |
| Handles.HandleNameIsStable | src/util.cc:24-35 | a prefixed name holds the top name, ends in the handle, and stays as it is when prefixed again |
| Handles.HandleNameHasDot | src/util.cc:24-35 | a name without the top name gets it in front with exactly one dot between, however the top is spelt |
| Handles.ValueShown | src/control.cc:453-478 | the time shows under both its names; any other name shows the signal of that name under the top name, if there is one |
| Handles.SymbolOnlyInFront | src/util.cc:37-54 | a symbol that begins with a word character is recognised exactly when the condition begins with it as a whole word |
| Handles.SymbolAnywhere | src/util.cc:37-54 | a symbol that begins otherwise is recognised at its first occurrence, unless a word character follows |
| Handles.AtMostOneSymbol | src/util.cc:37-54 | of the names made of word characters, a condition has at most one recognised |
| Locations.GetFnLn | src/control.cc:608-633 | the branches on the number of tokens compute the location function, with its 32-bit cut and its overflow |
| Locations.LocationValue | src/control.cc:608-633 | what a well-formed location gives, for numerals of any length: cut to 32 bits, nothing for the number that stands for no line, an exception from 64 bits on |
| Locations.LocationHasShape | src/control.cc:608-633 | nothing but a name and one numeral, or a name and two, is a location |
| Locations.ExtraColonsIgnored | src/control.cc:611 | leading, trailing and doubled colons do not matter |
| Locations.FullLocationRoundTrip | src/control.cc:608-633 | `f:n:c` parses to `(f, n)` exactly when `f` has no leading, trailing or doubled colon |
| Locations.ShortLocationRoundTrip | src/control.cc:608-633 | `f:n` parses to `(f, n)` exactly when `f` holds no colon |
| Paths.Replace | src/util.cc:56-69 | the in-place replacement computes the translation function, and says whether it found anything |
| Paths.NothingToTranslate | src/util.cc:57-59 | nothing is replaced exactly when the directory does not occur |
| Paths.FirstIsTranslated | src/util.cc:67 | only the first occurrence is replaced, and what stands in front of it does not matter |
| Paths.PlainTranslation | src/util.cc:60-67 | without a slash at the directory's end and behind it, it is replaced as it stands |
| Paths.TranslateBelow | src/util.cc:56-69 | a path below one directory becomes the same path below the other in all spellings of the two, except in the one case named |
| Paths.TranslateRoundTrip | src/control.cc:133-135 | translating to the server and back restores the path in all spellings of the two directories, except in the same case |
| VarNames.ProcessVarFrontName | src/control.cc:148-158 | the character loop computes the flattened name |
| VarNames.FlattenPrint | docs/README.md:163-204 | the flattened name of a well-shaped name is its pieces joined by dots |
| VarNames.FlattenRoundTrip | src/control.cc:148-158 | re-bracketing the numeric pieces of a flattened name gives the name back |
| VarNames.FlattenIsInjective | docs/README.md:163-204 | two well-shaped names that flatten alike are equal |
| Conditions.HoldsDependsOnReads | src/expr.cc:43-54 | entries of one shape that agree on the slots read give one verdict |
| Conditions.TruthIsCut | src/expr.cc:51-53 | the value of a condition counts as true exactly when cutting off its fraction leaves no zero |
| Tables.ScanFails | src/control.cc:362-388 | the loops give up exactly when a mentioned constant does not parse |
| Tables.ScanMaps | src/control.cc:351-389 | they map exactly the signals mentioned ahead of the first such constant |
| Tables.ScanHandles | src/control.cc:351-379 | a mapped name stands for its first mention: a variable of the context for the signal it names, a variable of the breakpoint for the signal below its instance, with the top name in front |
| Tables.ScanConstants | src/control.cc:362-388 | a constant has the number its first mention's text reads as |
| Tables.RegisterBinds | src/expr.cc:18-33 | registration keeps old slots and constants, gives new slots zero and new constants their numbers, and binds each name once |
| Tables.NamelessIgnored | src/control.cc:353-355 | generator variables without a name are passed over |
| Tables.InsertKeepsValid | src/control.cc:334-407 | an insert keeps the three tables in agreement exactly when it does not poison a breakpoint that has a condition |
| Tables.RequestsKeepValid | src/control.cc:676-744 | over every list of insert and delete requests the tables stay in agreement throughout exactly when no insert poisons one |
| Tables.InsertKeepsGood | src/control.cc:334-407 | for good tables, an insert keeps them good exactly when it neither poisons its breakpoint nor leaves in force a condition that names one of its slots which the scan does not map |
| Tables.RequestsKeepGood | src/control.cc:676-744 | over every list of requests the tables stay good throughout exactly when no insert does either |
| Tables.FreshKeepsGood | src/control.cc:676-744 | a request that gives no second condition never does either, whatever the condition |
| Tables.EvaluateKeepsGood | src/control.cc:409-425 | with agreeing tables no lookup throws at a hit, and the hit changes slots only |
| Tables.HistoryIndependence | src/control.cc:409-425 | for good tables the verdict at a hit does not depend on what the slots hold |
| Tables.PerformAlike | src/control.cc:676-744 | what a request does to the tables, slots apart, does not depend on what the slots hold |
| Tables.HistoriesAgree | src/control.cc:409-425 | after any two histories with the same requests, none of which spoils the tables, and any hits between them, no lookup has failed and the verdict at a hit is the same |
| RegistryLimits.PoisonThrows | src/expr.cc:48-50 | after a poisoning insert the next evaluation with readable signals throws |
| RegistryLimits.SpoiltRequests | src/control.cc:381-386 | two concrete inserts from empty tables lead to a throwing lookup |
| RegistryLimits.StaleSlotDecides | src/expr.cc:47-53 | after a condition, a hit at which its signal is x, and the same condition in brackets, the verdict is whether x was zero, whatever the signals are now |
| RegistryLimits.HistoryDecides | src/control.cc:409-425 | two sessions with the same requests and the same signals now have different verdicts |
| Verdicts.VerdictMeaning | src/control.cc:409-425 | for all tables: a hit throws exactly if a mapped name has no slot and all signals can be read, or nothing was mapped; else it stops exactly if a signal cannot be read, the condition never compiled, or it is true of the signals now and the slots that are not fetched |
| Verdicts.GoodIsOfNow | src/control.cc:409-425 | with good tables that is a matter of the signals now alone |
| Verdicts.FirstRegistration | src/control.cc:351-400 | where every recognised constant parses, a first registration maps exactly the recognised signals and the time, and compiles the condition exactly when each of its names is one of those or a recognised constant |
| Verdicts.InsertHandles | src/control.cc:351-396 | for any tables, a name that an insert maps stands for its first mention as above, and the time for the simulator's own name of it |
| Verdicts.FirstVerdict | src/control.cc:334-425 | from the rows to the verdict: a first condition stops at a hit exactly when it is true of the signals, the time and the constants that its names stand for by their first mention |
| Verdicts.TwoNamesNeverCompile | src/util.cc:37-54 | a first condition that names two signals never compiles, and does not hold the simulator back |
| Verdicts.InsertMeaning | src/control.cc:676-689 | an insert makes its id a breakpoint and touches no other, and registers nothing without a condition or for an unknown breakpoint |
| Verdicts.RemoveAllMeaning | src/control.cc:738-742 | a delete takes away its targets with their conditions, and nothing else |
| Verdicts.DeleteLineRemovesNothing | src/control.cc:691-693 | with the empty path, the only one its route delivers, the handler for deleting by line changes nothing |
| Verdicts.DeleteLineMeaning | src/control.cc:694-705 | the handler's body, for a path the route never delivers, would take away exactly the breakpoints the database has on that line, whatever the column |
| Verdicts.DeleteFileMeaning | src/control.cc:735-744 | deleting by a file of the user takes away exactly the breakpoints of the same file on the server |
| Verdicts.DeleteFileElsewhere | src/control.cc:427-452 | for a file elsewhere, or without both directories, the name is taken as it is; an empty name removes nothing |
| Verdicts.DeleteIdMeaning | src/control.cc:714-732 | deleting by id takes away that breakpoint and its condition, unless the id is too large for a signed integer |
| Verdicts.BreakPointsStand | src/control.cc:676-744 | over every list of requests, a breakpoint is there exactly when it was inserted and not deleted since, and conditional exactly when a condition was registered and it was not deleted since |
| Registry.Registry.AddExpr | src/expr.cc:18-41 | registration binds slots and constants in place, keeps what is bound, and fails exactly when the condition does not compile |
| Registry.Registry.EvaluateEntry | src/expr.cc:43-54 | the fetched values go into the slots, then the condition is evaluated; an unknown name throws |
| Registry.Registry.AddBreakpointExpr | src/control.cc:334-407 | the two loops, the time and the registration leave the tables of the registration function |
| Registry.Registry.EvaluateBreakpointExpr | src/control.cc:409-425 | the fetching loop and the evaluation give the verdict function's outcome and tables |
| Registry.Registry.HandleRequest | src/control.cc:676-744 | each request handler changes the tables as the request function says |
| Stepping.ReactMeansWants | src/control.cc:160-181 | for all tables, an event throws or pauses exactly as the settings at the last resume have it, whatever was evaluated since |
| Stepping.TwoNamesAlwaysPause | src/control.cc:160-167 | a breakpoint whose first condition names two signals pauses at every hit |
| Stepping.AdvanceToLeast | src/control.cc:160-181 | for all tables, a resume runs to the least later event that is wanted or throws, and to the end when there is none |
| Stepping.CommandRunsToLeast | src/control.cc:861-873 | in every session `continue` runs to the next breakpoint without a false condition, `step_over` to the next statement without one, unless a lookup fails before; between them nothing qualifies |
| Stepping.EditsMean | src/control.cc:882-890 | after any edits the last one of the clock switch counts, requests leave the switch alone and the switch the tables |
| Stepping.SettingsReflect | src/control.cc:861-890 | in every session the settings of a command are those of all edits made so far, from empty tables and a clock switch that is off, whatever was evaluated between |
| Stepping.WantsByCommands | src/control.cc:160-181 | what a command wants, over the commands alone: a clock edge by the last edit of the switch, a statement if it is stepped to or inserted and not deleted since, and without a condition always then |
| Stepping.ClockByCommands | src/control.cc:236-248 | a command passes by no clock edge while the last edit of the switch is on, and stops at none while it is off |
| Stepping.SoundCommandsWantNow | src/control.cc:160-181 | in a session without spoiling inserts no lookup fails, and what a command wants is a matter of the signals at the event alone |
| Stepping.SteppingCoversContinuing | src/control.cc:160-181 | whatever the tables, the pauses of continuing are the pauses of stepping less the statements that are no breakpoints, and a lookup fails in both or in neither |
| Stepping.ClockOnly | src/control.cc:236-248 | without breakpoints, continuing with the clock on pauses at every clock edge |
| Protocol.NoLostWakeUp | src/control.cc:71-79 | for any client the semaphore is available exactly when a release followed its last taking, and then the pause can complete |
| Protocol.WakeUpPersists | src/control.cc:71-79 | once released during a pause, it stays available until that pause completes, whatever anyone else does |
| Protocol.NoUnearnedProgress | src/control.cc:1082-1097 | for any client there is a release between two takings, and completed pauses plus free units never exceed releases |
| Protocol.FlagTellsOfResume | src/control.cc:71-79 | for any client a pause ends with `paused` true exactly when no handler lowered it after that pause's flag step |
| Protocol.EarlyResumeLeavesFlag | src/control.cc:169-179 | a reachable run in which an early resume leaves `paused` true while the simulator runs |
| Protocol.ReadInside | src/control.cc:768-778 | for any client, a signal asked for while the simulator stands inside a pausing event is answered as that event found it |
| Stopping.FinishNeedsStop | src/control.cc:1013-1021 | for any client, the simulator may finish between two events exactly when some handler carried out `/stop` |
| Stopping.TeardownRuns | src/control.cc:1092-1101 | for any client, once the simulator finishes no event and no pause begins any more, and its fourth step is its last |
| Stopping.StopDuringPause | src/control.cc:1013-1021 | a stop during a pause can be carried out, complete the pause and end the simulation without another event |
| Disciplined.StepKeeps | src/control.cc:71-79 | the inductive invariant: every step of every thread keeps the state tied to the sequential session |
| Disciplined.SessionIsSequential | src/control.cc:160-181 | every interleaving makes exactly the pauses of the sequential debugger over the commands given |
| Disciplined.PoisonFreeSessionNeverDies | src/control.cc:409-425 | a client none of whose inserts poisons a breakpoint never makes the simulator thread throw |
| Disciplined.SteppingCoversContinuingInRuns | src/control.cc:160-181 | the same covering for two finished runs with any edits at start-up, under any two interleavings |
| Disciplined.StatusIsTrue | src/control.cc:1035-1043 | "Paused" is reported and known only inside a pause not yet resumed, and it is the pause numbered by the resumes |
| Disciplined.LockIsBalanced | src/control.cc:71-79 | no release is wasted on a free semaphore: takings plus free units equal releases plus one, always |
| Disciplined.PausesFollowCommands | src/control.cc:1035-1043 | the pauses a client learns of depend on its commands alone, in any two sessions and interleavings |
| Disciplined.PausedAgainIsLater | src/control.cc:861-873 | "Paused" after a resume is a strictly later pause, one per resume |
| Disciplined.SnapshotIsConsistent | src/control.cc:768-778 | all reads between a "Paused" reply and the next resume show the signals as the event that pauses found them, or as they were at start-up |
| Disciplined.ReadsWhatWasDecided | src/control.cc:160-181 | at a pause behind start-up the client reads the very signals that its last command decided to pause on |
| Progress.MeasureDrops | src/control.cc:71-79 | with any disciplined client no step raises the measure, and every step of the simulator or of a resume lowers it |
| Progress.SessionEnds | src/control.cc:1092-1101 | in every interleaving of every disciplined session there are at most eight such steps per event and twelve more, and the session is over exactly when none is left |
| Progress.CommandsBounded | src/control.cc:861-873 | a session has at most one resume per event, and one |
| Progress.SessionLength | src/control.cc:71-79 | a session of any disciplined client has at most nine steps per event, thirteen more, and three per request that is no resume |
| Progress.WorkDrops | kratos_runtime/debugger.py:155-174 | with at most so many inquiries per pause every step lowers the work left, but for those made while the simulator moves anyway |
| Progress.FrugalSessionEnds | kratos_runtime/debugger.py:155-174 | a client that makes at most K inquiries between two resumes, polling for a pause not counted, has at most 13 + 3K steps per event and 19 + 4K more besides idle ones, in every interleaving |
| Progress.NeverStuck | src/control.cc:1092-1101 | in every state before the end some step that is not an idle poll is possible |
| Progress.CanFinish | src/control.cc:1092-1101 | from every state of a session the end can be reached within the work left of a client without inquiries |
| Runtime.Runtime.BreakpointTrace | src/control.cc:160-168 | the nested tests decide as the stop function does and leave its tables |
| Runtime.Runtime.BreakpointClock | src/control.cc:236-248 | a clock edge pauses exactly when the switch is on |
| Runtime.Runtime.SimTurn | src/control.cc:1082-1101 | start-up, events, the post and the two steps of a pause, and teardown take the simulator steps of the state machine |
| Runtime.Runtime.HandlerTurn | src/control.cc:861-873 | a handler takes the handler steps: setting, flag, unlock, reply |
| Polling.ReplyIsRight | kratos_runtime/debugger.py:44-58 | whatever happened meanwhile, the reply to a request answers that request |
| Recorder.Debugger.Ask | kratos_runtime/debugger.py:32-58 | one request and its reply, or none because the server stopped, under any schedule; and one of the two while there are rounds for the work left |
| Recorder.Debugger.WaitTillPause | kratos_runtime/debugger.py:101-107 | returns only once a pause is known or the server is gone, and does return while there are rounds for the work left |
| Recorder.Debugger.Continue | kratos_runtime/debugger.py:60-63 | gives exactly one command, and fails only when the server is gone |
| Recorder.Debugger.GetAllValues | kratos_runtime/debugger.py:123-132 | reads the design state of the pause under way, or raises exactly when a value is missing or negative |
| Recorder.RecordingPauses | kratos_runtime/debugger.py:155-174 | when the server is gone, a recording has paused at start-up and at every clock edge, once each |
| Recorder.Debugger.RecordState | kratos_runtime/debugger.py:155-174 | under every schedule the states recorded are those of the pauses from the given number on, in order, to the last one when it finishes; called during the start-up pause with rounds enough it ends as the trial alone decides: finished, server gone before the reset is over, or a value missing |
| Recorder.DesignMeans | kratos_runtime/debugger.py:109-132 | a design state is there exactly when every name below the prefix shows a value that is not negative, and holds these values under exactly these names |
| Recorder.AllPausesAre | kratos_runtime/debugger.py:155-162 | the pauses of a recording are start-up and the clock edges of the trace, in order |
| Recorder.RecordSession | kratos_runtime/debugger.py:155-174 | a whole session from the start, on every schedule with rounds enough, finishes exactly when the reset is not longer than the simulation and every name shows a value that is not negative at every pause behind it, and then holds for each of these pauses the value each name showed |
| Connections.GetConnections | src/db.cc:217-273 | both queries return the joined rows with the name on the asked side |
| Connections.QueryMembers | src/db.cc:217-273 | the query from a name returns the joined rows that begin there, the query to it those that end there |
| Connections.JoinMembers | src/db.cc:223-234 | the joined rows are exactly the connection rows with an instance at either end, under the instances' names |
| Connections.JoinOnce | src/db.cc:223-234 | when no two instances share an id, the joined rows are the rows with valid instances, once each and in order |
| Connections.FromAndToBalance | src/db.cc:217-273 | over the distinct instance names, outgoing and incoming connections both add up to all joined rows, hence with distinct ids to all rows with valid instances |
| Connections.GetGraphValue | src/control.cc:183-206 | the nested loops gather the first value of every end of the scope's outgoing connections, and the time goes with them |
| Connections.SnapshotAgrees | src/control.cc:183-206 | the keys are exactly both ends of the readable connections driven by the scope's children, or the top's when no scope is set, and where the ends of these carry one value the map agrees with reading each key |
| Connections.FirstDrives | src/control.cc:198-203 | where they differ, an end shows what the first readable connection at it drives |

## Left out

- Registry.Registry.EvaluateEntry: on a failed lookup the slots written before it are not kept, because the exception ends the simulator thread.
- Recorder.Debugger.RecordState: the registers and ports of one state are one list of names, because all are read the same way during the pause.
- HTTP, JSON, printing, sleeping and threads as objects: only requests, replies and atomic steps are modelled; what a post says is not.
- SQLite, exprtk, fmt and VPI: row sequences, an expression tree, a digit printer and a map from names to values stand for them, and exprtk's own rules for names and its division are not modelled.
- Evaluation order of the unordered tables: the loops take names in any order.
- `/stop` from a disciplined client: it is modelled for any client only, because the simulator may hit more events before it obeys.
- `/top_name`, `/connect`, `/hierarchy` and `pause_at_synch`: the top name, the paths and the database stay fixed during a session.
- The breakpoint tables under racing handlers: a breakpoint request is one step, as `vpi_lock` makes it among the handlers.
- Monitors (`setup_monitor`, `remove_monitor`): a removed monitor keeps its map entry, so no ownership invariant holds over all runs.
- The handle cache of `get_value`, `get_context_value`, `exception` and the breakpoint content sent to a client: lookups without state of their own.
- Breakpoint ids outside the range of an unsigned 32-bit integer, which the request parser would wrap.
