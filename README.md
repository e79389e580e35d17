# Caustic toolkit node graph and sequencer state, in Dafny

This project models the in-memory state of the Caustic toolkit's rack node graph and
of its step sequencers. It proves what the Java classes promise about that state.

- **Rack (`Rack.RackNode`)**
  - The machines of the native rack, keyed by slot index, and the selected index.
  - Creating, destroying, adding and removing machines, and selecting one.
  - The exclusive solo and mute rules across the machines.
  - The fourteen-slot rescan of `restoreComponents`.
- **Groove-station phrase (`GrooveStation.Phrase`)**
  - A trigger table keyed by step number. Growing the length only appends default triggers.
  - Clamped position arithmetic, and the 16-step view window with its view-to-absolute step mapping.
  - Selecting and unselecting triggers.
- **Track phrase (`TrackPhrases.TrackPhrase`)**
  - An ordered note list: add, remove the first match, filter and clear by measure.
  - The beat-to-measure counter, kept as a small integer state machine.
- **Pattern bank (`PatternBanks.PatternBank`)**
  - A pending and a selected pattern index, wrapping around 0..63.
  - The reference table of the Create phase, and committing the pending pattern.
- **Pattern (`Patterns.Pattern`)**
  - A duplicate-free part list, and a length pushed to every part's phrase.
  - The selected part.
- **Library (`Libraries.Library`)**
  - The two-level index from node type to node id to `NodeInfo`, with contains, get, add, remove and find-all.
- **Track song (`TrackSongs.TrackSong`)**
  - The lazily filled track map and the current-track check.
  - The `.ctks`-to-`.caustic` file-name derivation.
- **Queue data (`QueueDatas.QueueData`)**
  - The lazily filled channel map in tone order, and the view channel.
  - The defaults, and the `toString` label.
- **Master limiter (`Limiters.MasterLimiter`)**
  - Four range-checked levels, and the `update`/`restore` traffic.
- **Crossover module (`Crossovers.CrossoverModule`)**
  - Four controls whose range check is never enforced.
- **Modular bays (`ModularBays.ModularBayComponent`)**
  - The scan of sixteen bays on restore, the skip after a two-bay component, and the `create` dispatch.

Each Java class whose fields change in place is a Dafny `class` with the same fields.
Its methods carry `modifies` clauses and state the new state in full. Loops stay
loops, with their invariants. Pure logic is in module-level functions, and lemmas relate
it to the methods.

How the Java side is represented:

- Messages to the native engine, such as `RackMessage`, `ModularMessage` and
  `MasterMixerMessage` sends, are appended to a `sent` log field.
- The events that `RackNode`, `PatternBank`, `Pattern` and `TrackPhrase` post are
  appended to an `events` log field. The other classes post none: the groove-station
  phrase's `fireChange` has an empty body.
- Answers from engine queries are method parameters:
  - machine names and types for the rack scan;
  - type codes for the bay scan;
  - queried levels for the limiter restore.
- Java exceptions, including the `NullPointerException`s the code runs into, become a
  `Failure` in a `Result` or an `Outcome` (module `Wrappers`).
- Java `float`s are `real`s. The code only compares and assigns them.
- Java `int` division truncates toward zero, and the remainder takes the sign of the
  dividend, for divisors of either sign. They are written out as `TrackPhrases.JavaDiv`
  and `TrackPhrases.JavaRem`.
- Java `int` addition wraps at 32 bits. The pattern bank's index steps model it with
  `PatternBanks.Int32Add`.
- A `TreeMap`'s iteration order is the ascending order of its keys. Module
  `SortedMaps` defines that order for the phrase's trigger table and the queue's
  channel map.
- Two library routines used by the code are modelled in module `Paths`:
  - `FilenameUtils.getBaseName`, used by `RackNode.getName`;
  - `String.replace`, used by `TrackSong.getFileName`.

Where a promise holds only in one state, a lemma states it there. Examples: growing a
covered trigger table keeps it covered, and the measure counter follows the beat when
the beat moves by one.

## Model

| member | source | states |
|---|---|---|
| Rack.RackNode.constructor | Caustk/src-core/com/teotigraphix/caustk/node/RackNode.java:234-249 | a new rack has no machines, machine 0 selected, and the given path |
| Rack.Lookup | Caustk/src-core/com/teotigraphix/caustk/node/RackNode.java:165-167 | the machine stored at the index, and null exactly when the index is not a key |
| Rack.AbsoluteSongPath | Caustk/src-core/com/teotigraphix/caustk/node/RackNode.java:118-124 | an absolute path is kept; a relative one is resolved under the songs directory, ends with the path itself, and is absolute when that directory is |
| Rack.RackNode.GetName | Caustk/src-core/com/teotigraphix/caustk/node/RackNode.java:106-110 | fails with IllegalState exactly when there is no path; otherwise the base name of the path |
| Rack.RackNode.SelectedMachine | Caustk/src-core/com/teotigraphix/caustk/node/RackNode.java:223-225 | the machine under the selected index, and null exactly when that index is not a key |
| Rack.RackNode.AddMachine | Caustk/src-core/com/teotigraphix/caustk/node/RackNode.java:340-343 | the node is stored under its own index; nothing else changes |
| Rack.RackNode.RemoveMachine | Caustk/src-core/com/teotigraphix/caustk/node/RackNode.java:351-356 | removes exactly that key and returns what was stored there, or null |
| Rack.RackNode.CreateMachine | Caustk/src-core/com/teotigraphix/caustk/node/RackNode.java:278-301 | an occupied index fails and leaves the map alone; a free index gains exactly that key, mapped to the returned created node; other entries are unchanged and a create event is posted |
| Rack.RackNode.SetSelectedIndex | Caustk/src-core/com/teotigraphix/caustk/node/RackNode.java:197-205 | the current value changes nothing; any other value is assigned without a membership check and posts the selection event with the new and the last selected machine |
| Rack.RackNode.SelectMachine | Caustk/src-core/com/teotigraphix/caustk/node/RackNode.java:213-217 | a node whose index is not a key fails with CausticError and changes nothing; otherwise its index becomes selected, and the selection event with the new and the previous machine is posted unless it was already selected |
| Rack.RackNode.DestroyMachine | Caustk/src-core/com/teotigraphix/caustk/node/RackNode.java:311-320 | an absent index fails at the dereference; otherwise only that key is removed, the node is destroyed, and the selection falls to -1 exactly when it was that index; the events are the selection change (only then) followed by the destroy event |
| Rack.RackNode.SetMute | Caustk/src-core/com/teotigraphix/caustk/node/RackNode.java:380-386 | every machine's solo flag is cleared; only the named machine's mute is set; other mutes are unchanged; an absent index fails after the solos are cleared; the solo-refresh event is posted exactly when the machine exists |
| Rack.RackNode.SetSolo | Caustk/src-core/com/teotigraphix/caustk/node/RackNode.java:388-404 | soloing makes every other machine muted and unsoloed and the named one unmuted and soloed; unsoloing unmutes and unsolos all machines |
| Rack.RackNode.ScanSlots | Caustk/src-core/com/teotigraphix/caustk/node/RackNode.java:462-469 | adds a new machine at exactly the slots 0..13 whose queried name is non-null and non-empty, built from the queried type and name; other machines are unchanged |
| Rack.RackNode.RestoreMachines | Caustk/src-core/com/teotigraphix/caustk/node/RackNode.java:471-473 | every machine is restored and no key changes |
| Rack.RackNode.RestoreComponents | Caustk/src-core/com/teotigraphix/caustk/node/RackNode.java:451-476 | with a path, the rack is blanked and the song loaded from the path made absolute, a relative path being resolved under the songs directory; the machines become the old ones plus the occupied slots, all restored |
| Paths.LastIndexIn | Caustk/src-core/com/teotigraphix/caustk/node/RackNode.java:109 | the last position holding one of the characters, or -1; no later position holds one |
| Paths.FileName | Caustk/src-core/com/teotigraphix/caustk/node/RackNode.java:109 | the suffix after the last separator: a suffix of the path holding no separator, preceded by a separator when shorter than the path |
| Paths.RemoveExtension | Caustk/src-core/com/teotigraphix/caustk/node/RackNode.java:109 | a prefix of the name; it is shorter exactly when the name has a dot with no separator after it, and then it stops at a dot after which the name has no dot and no separator |
| Paths.LastDotAfterSeparators | Caustk/src-core/com/teotigraphix/caustk/node/RackNode.java:109 | a name has a dot with no separator after it exactly when its last dot lies after its last separator, the test the extension removal makes |
| Paths.BaseName | Caustk/src-core/com/teotigraphix/caustk/node/RackNode.java:109 | a prefix of the file name of the path, free of separators |
| Paths.LastIndexInAppend | Caustk/src-core/com/teotigraphix/caustk/node/RackNode.java:109 | the last separator of a concatenation is in the tail when the tail has one, and otherwise in the head |
| Paths.FileNameAfterSeparator | Caustk/src-core/com/teotigraphix/caustk/node/RackNode.java:109 | the file name of `dir/tail` is `tail` when the tail has no separator |
| Paths.ExtensionCut | Caustk/src-core/com/teotigraphix/caustk/node/RackNode.java:109 | removing the extension of `base.ext` gives `base` |
| Paths.BaseNameOfPath | Caustk/src-core/com/teotigraphix/caustk/node/RackNode.java:109 | the base name of `dir/base.ext` is `base` |
| Paths.ShortPrefixNoMatch | Caustk/src/com/teotigraphix/caustk/sequencer/track/TrackSong.java:103 | a name shorter than `.ctks` followed by `.ctks` does not start with `.ctks` |
| Paths.StripSongExtension | Caustk/src/com/teotigraphix/caustk/sequencer/track/TrackSong.java:103 | replacing `.ctks` in `base.ctks` gives `base` when `base` holds no `.ctks` |
| Paths.ReplaceAll | Caustk/src/com/teotigraphix/caustk/sequencer/track/TrackSong.java:103 | replacing the target with itself gives back the string |
| GrooveStation.Defaults | CausticToolkit/src/main/groove-station/com/teotigraphix/caustk/gs/pattern/Phrase.java:197-201 | exactly the steps lo..hi-1 are keys, each mapped to the default trigger (pitch 60, gate 0.25, velocity 1, flags 0) |
| GrooveStation.ResolutionOf | CausticToolkit/src/main/groove-station/com/teotigraphix/caustk/gs/pattern/Phrase.java:220-229 | the triplet scales, and only they, get 64th notes; only the 16th scale gets 16th notes |
| GrooveStation.StepsPerMeasure | CausticToolkit/src/main/groove-station/com/teotigraphix/caustk/gs/pattern/Phrase.java:245 | 16, 32 or 64 steps a measure, a whole number of 16-step views |
| GrooveStation.WholeViews | CausticToolkit/src/main/groove-station/com/teotigraphix/caustk/gs/pattern/Phrase.java:244-247 | a step count of 16, 32 or 64 per measure is a whole number of views, at least one a measure, and zero exactly for no measures |
| GrooveStation.Phrase.StepCount | CausticToolkit/src/main/groove-station/com/teotigraphix/caustk/gs/pattern/Phrase.java:244-247 | the step count is a whole number of views, at least 16 steps a measure, and zero exactly for length 0 |
| GrooveStation.Phrase.ToAbsoluteStep | CausticToolkit/src/main/groove-station/com/teotigraphix/caustk/gs/pattern/Phrase.java:294-296 | a view step of a position in 1..length lies inside the pattern's step count |
| GrooveStation.FilledIsDefaults | CausticToolkit/src/main/groove-station/com/teotigraphix/caustk/gs/pattern/Phrase.java:197-212 | a table that has defaults at lo..hi-1 and the old triggers elsewhere is the old table overwritten by the defaults |
| GrooveStation.FillLoop | CausticToolkit/src/main/groove-station/com/teotigraphix/caustk/gs/pattern/Phrase.java:197-212 | the filling loop leaves the table overwritten by default triggers over lo..hi-1 |
| GrooveStation.GrownKeepsAndCovers | CausticToolkit/src/main/groove-station/com/teotigraphix/caustk/gs/pattern/Phrase.java:190-214 | updating the triggers never removes a step; a table covering the old step count then covers the new one; an empty table becomes exactly the steps 0..steps*length-1 |
| GrooveStation.GrownOnlyAppends | CausticToolkit/src/main/groove-station/com/teotigraphix/caustk/gs/pattern/Phrase.java:203-212 | growing a non-empty table with a known old length puts default triggers only at steps*old..steps*new-1; every other trigger is untouched |
| GrooveStation.Phrase.constructor | CausticToolkit/src/main/groove-station/com/teotigraphix/caustk/gs/pattern/Phrase.java:284-288 | a new phrase has no triggers, position 1 and the 16th scale |
| GrooveStation.Phrase.SetPosition | CausticToolkit/src/main/groove-station/com/teotigraphix/caustk/gs/pattern/Phrase.java:128-137 | the position changes exactly when the value differs from it and lies in 0..length; then it becomes the value |
| GrooveStation.Phrase.IncrementPosition | CausticToolkit/src/main/groove-station/com/teotigraphix/caustk/gs/pattern/Phrase.java:513-519 | the position steps up by one but never past the length, and stays within 1..length once there |
| GrooveStation.Phrase.DecrementPosition | CausticToolkit/src/main/groove-station/com/teotigraphix/caustk/gs/pattern/Phrase.java:524-529 | the position steps down by one but never below 1, and stays within 1..length once there |
| GrooveStation.Phrase.SetLength | CausticToolkit/src/main/groove-station/com/teotigraphix/caustk/gs/pattern/Phrase.java:159-180 | an equal length on a non-empty table changes nothing; otherwise the position is lowered to the value when above it, and the triggers are grown without removing any |
| GrooveStation.Phrase.UpdateTriggers | CausticToolkit/src/main/groove-station/com/teotigraphix/caustk/gs/pattern/Phrase.java:190-214 | the table becomes the grown table for the current resolution's steps per measure |
| GrooveStation.Phrase.FillDefaults | CausticToolkit/src/main/groove-station/com/teotigraphix/caustk/gs/pattern/Phrase.java:197-212 | the table is overwritten with default triggers over lo..hi-1 |
| GrooveStation.Phrase.TriggerOn | CausticToolkit/src/main/groove-station/com/teotigraphix/caustk/gs/pattern/Phrase.java:310-323 | the trigger at the step is created or overwritten with the given fields and selected; the sequencer is told |
| GrooveStation.Phrase.TriggerOff | CausticToolkit/src/main/groove-station/com/teotigraphix/caustk/gs/pattern/Phrase.java:472-476 | a step without a trigger fails at the dereference; otherwise only the selected flag is cleared |
| GrooveStation.Phrase.IsSelected | CausticToolkit/src/main/groove-station/com/teotigraphix/caustk/gs/pattern/Phrase.java:503-508 | true only for a step that has a trigger |
| GrooveStation.Phrase.GetViewSteps | CausticToolkit/src/main/groove-station/com/teotigraphix/caustk/gs/pattern/Phrase.java:258-264 | succeeds exactly for the 16th and 32nd scales with the window inside the table, and then has 16 triggers |
| GrooveStation.Phrase.ViewShowsAbsoluteSteps | CausticToolkit/src/main/groove-station/com/teotigraphix/caustk/gs/pattern/Phrase.java:258-264 | on a table over steps 0..n-1, view step v shows the trigger at `toAbsoluteStep(v)` = v + 16*(position-1) |
| TrackPhrases.NotesIn | CausticToolkit/src/main/java/com/teotigraphix/caustk/sequencer/track/TrackPhrase.java:166-176 | the notes of a measure are no more than the list |
| TrackPhrases.NotesInSelects | CausticToolkit/src/main/java/com/teotigraphix/caustk/sequencer/track/TrackPhrase.java:166-176 | every note selected for a measure starts in that measure's four beats and comes from the list |
| TrackPhrases.NotesOutsideSelects | CausticToolkit/src/main/java/com/teotigraphix/caustk/sequencer/track/TrackPhrase.java:419-425 | every note kept by a clear lies outside the measure and comes from the list |
| TrackPhrases.NotesInAppend | CausticToolkit/src/main/java/com/teotigraphix/caustk/sequencer/track/TrackPhrase.java:166-176 | the measure filter distributes over concatenation, so list order is kept |
| TrackPhrases.RemoveFirstNone | CausticToolkit/src/main/java/com/teotigraphix/caustk/sequencer/track/TrackPhrase.java:189-196 | removing from a list without a match leaves it unchanged, and the search finds nothing |
| TrackPhrases.RemoveFirstAt | CausticToolkit/src/main/java/com/teotigraphix/caustk/sequencer/track/TrackPhrase.java:189-196 | removing the first match takes out exactly the element at its index |
| TrackPhrases.FirstMatchingAt | CausticToolkit/src/main/java/com/teotigraphix/caustk/sequencer/track/TrackPhrase.java:202-208 | the first note matching at index i is the note the search finds |
| TrackPhrases.RemoveFirstShrinks | CausticToolkit/src/main/java/com/teotigraphix/caustk/sequencer/track/TrackPhrase.java:189-196 | removing the first match never adds a note: the rest is part of the list |
| TrackPhrases.RemovalsStep | CausticToolkit/src/main/java/com/teotigraphix/caustk/sequencer/track/TrackPhrase.java:419-425 | removing one more note of the measure adds one NoteRemove event, for that note |
| TrackPhrases.DropStep | CausticToolkit/src/main/java/com/teotigraphix/caustk/sequencer/track/TrackPhrase.java:419-423 | removing the k-th note of the measure from the list with k measure notes dropped drops k+1 |
| TrackPhrases.DropsEach | CausticToolkit/src/main/java/com/teotigraphix/caustk/sequencer/track/TrackPhrase.java:419-423 | the same step, proved by induction over the list |
| TrackPhrases.DropAll | CausticToolkit/src/main/java/com/teotigraphix/caustk/sequencer/track/TrackPhrase.java:419-423 | dropping every note of the measure leaves exactly the notes outside it, in order |
| TrackPhrases.NoneInMeasure | CausticToolkit/src/main/java/com/teotigraphix/caustk/sequencer/track/TrackPhrase.java:419-423 | with no note in the measure, clearing it keeps the whole list |
| TrackPhrases.MeasureFollowsBeat | CausticToolkit/src/main/java/com/teotigraphix/caustk/sequencer/track/TrackPhrase.java:335-366 | when the measure counter agrees with the beat, it still agrees after the beat steps by one or seeks forward |
| TrackPhrases.NextMeasure | CausticToolkit/src/main/java/com/teotigraphix/caustk/sequencer/track/TrackPhrase.java:335-366 | an equal beat keeps the measure; beat 0 reached forward resets it to 0; otherwise, unless seeking forward, it moves by at most one, and never up when the beat goes back |
| TrackPhrases.JavaRem | CausticToolkit/src/main/java/com/teotigraphix/caustk/sequencer/track/TrackPhrase.java:351 | Java's `%`: zero or of the dividend's sign, and smaller than the divisor |
| TrackPhrases.QuotientTruncates | CausticToolkit/src/main/java/com/teotigraphix/caustk/sequencer/track/TrackPhrase.java:353 | Java's `/`: the quotient of the magnitudes, positive when the signs agree and negative when they differ |
| TrackPhrases.TruncatedRemainder | CausticToolkit/src/main/java/com/teotigraphix/caustk/sequencer/track/TrackPhrase.java:351-353 | Java's `%` equals Dafny's Euclidean `%` for a non-negative dividend; for a negative one it is 0 when the divisor divides the dividend and otherwise the Euclidean remainder minus the divisor's size; so it is the remainder of the magnitudes, with the dividend's sign |
| TrackPhrases.JavaDivRemainder | CausticToolkit/src/main/java/com/teotigraphix/caustk/sequencer/track/TrackPhrase.java:351-353 | the remainder truncating division leaves is zero or of the dividend's sign, and smaller than the divisor |
| TrackPhrases.DivisionIdentity | CausticToolkit/src/main/java/com/teotigraphix/caustk/sequencer/track/TrackPhrase.java:351-353 | `(a / b) * b + a % b == a` for every non-zero divisor |
| TrackPhrases.JavaDivSigns | CausticToolkit/src/main/java/com/teotigraphix/caustk/sequencer/track/TrackPhrase.java:351-353 | 5/4, -5/4, 5/-4, -5/-4 are 1, -1, -1, 1, and the remainders 1, -1, 1, -1 |
| TrackPhrases.RemoveFirst | CausticToolkit/src/main/java/com/teotigraphix/caustk/sequencer/track/TrackPhrase.java:189-196 | one note shorter exactly when a note matches, otherwise the same length |
| TrackPhrases.Removals | CausticToolkit/src/main/java/com/teotigraphix/caustk/sequencer/track/TrackPhrase.java:419-425 | one NoteRemove event per note, carrying it, in order |
| TrackPhrases.DropFindsNext | CausticToolkit/src/main/java/com/teotigraphix/caustk/sequencer/track/TrackPhrase.java:419-423 | the note the k-th removal of a clear finds is the k-th note of the measure itself |
| TrackPhrases.TrackPhrase.constructor | CausticToolkit/src/main/java/com/teotigraphix/caustk/sequencer/track/TrackPhrase.java:377-382 | a new phrase has no notes, no events, beat -1 and the given tone, bank and pattern |
| TrackPhrases.TrackPhrase.SetPosition | CausticToolkit/src/main/java/com/teotigraphix/caustk/sequencer/track/TrackPhrase.java:500-508 | the position changes exactly when the value differs from it and lies in 0..length, and a Position event is posted exactly then |
| TrackPhrases.TrackPhrase.SetLength | CausticToolkit/src/main/java/com/teotigraphix/caustk/sequencer/track/TrackPhrase.java:119-128 | an equal length changes nothing; otherwise the length is set and a Length event posted, then the position is clamped down to a non-negative length above which it lay, with a Position event |
| TrackPhrases.TrackPhrase.AddNote | CausticToolkit/src/main/java/com/teotigraphix/caustk/sequencer/track/TrackPhrase.java:182-187 | exactly one note with the given fields is appended and returned, and a NoteAdd event carries it |
| TrackPhrases.TrackPhrase.FirstMatch | CausticToolkit/src/main/java/com/teotigraphix/caustk/sequencer/track/TrackPhrase.java:202-208 | the index of the first note with that pitch and start, or -1 exactly when there is none |
| TrackPhrases.TrackPhrase.GetNote | CausticToolkit/src/main/java/com/teotigraphix/caustk/sequencer/track/TrackPhrase.java:202-208 | the first matching note, or null exactly when no note matches |
| TrackPhrases.TrackPhrase.HasNote | CausticToolkit/src/main/java/com/teotigraphix/caustk/sequencer/track/TrackPhrase.java:210-212 | true exactly when some note has that pitch and start |
| TrackPhrases.TrackPhrase.RemoveNote | CausticToolkit/src/main/java/com/teotigraphix/caustk/sequencer/track/TrackPhrase.java:189-196 | removes and returns the first match, posting a NoteRemove event that carries it; with none, returns null and leaves the list and the events unchanged |
| TrackPhrases.TrackPhrase.GetNotes | CausticToolkit/src/main/java/com/teotigraphix/caustk/sequencer/track/TrackPhrase.java:166-176 | the notes whose start, rounded down, lies in beats 4m..4m+3, in list order |
| TrackPhrases.TrackPhrase.Clear | CausticToolkit/src/main/java/com/teotigraphix/caustk/sequencer/track/TrackPhrase.java:419-425 | leaves exactly the notes outside the measure, in their order; posts one NoteRemove event per note of the measure, in list order, then a ClearMeasure event |
| TrackPhrases.TrackPhrase.ClearOne | CausticToolkit/src/main/java/com/teotigraphix/caustk/sequencer/track/TrackPhrase.java:421-423 | one pass of the clear loop removes the next note of the measure and posts its NoteRemove event |
| TrackPhrases.TrackPhrase.SetCurrentBeat | CausticToolkit/src/main/java/com/teotigraphix/caustk/sequencer/track/TrackPhrase.java:335-366 | sets the beat and updates the measure by the forward, seeking and reverse rules; the counters keep agreeing across single steps and forward seeks |
| PatternBanks.StepsStayInRange | Caustk/src/com/teotigraphix/caustk/workstation/PatternBank.java:246-270 | from any index in 0..63, the next and previous index stay in 0..63 and undo each other |
| PatternBanks.Int32Add | Caustk/src/com/teotigraphix/caustk/workstation/PatternBank.java:250 | Java's `int` sum: in the 32-bit range, equal to the sum modulo 2^32, and the plain sum when that fits |
| PatternBanks.NextIndex | Caustk/src/com/teotigraphix/caustk/workstation/PatternBank.java:250-252 | from an index in 0..63, the next index modulo 64 |
| PatternBanks.PrevIndex | Caustk/src/com/teotigraphix/caustk/workstation/PatternBank.java:266-268 | from an index in 0..63, the previous index modulo 64 |
| PatternBanks.StepsOverflow | Caustk/src/com/teotigraphix/caustk/workstation/PatternBank.java:250-252 | from `Integer.MAX_VALUE` the increment queues `Integer.MIN_VALUE`, and from `Integer.MIN_VALUE` the decrement queues `Integer.MAX_VALUE`: both wrap checks miss |
| PatternBanks.PatternBank.Target | Caustk/src/com/teotigraphix/caustk/workstation/PatternBank.java:247-249 | the pending index, or the selected one; within 0..63 when both are |
| PatternBanks.AdvanceWraps | Caustk/src/com/teotigraphix/caustk/workstation/PatternBank.java:246-254 | k increments from an index land on (index + k) mod 64 |
| PatternBanks.WithReferences | Caustk/src/com/teotigraphix/caustk/workstation/PatternBank.java:311-314 | the loop puts a reference for its own index at every key 0..63 and keeps every other entry |
| PatternBanks.PatternBank.constructor | Caustk/src/com/teotigraphix/caustk/workstation/PatternBank.java:53-95 | by the field initializers, pending is -1 and the selected index 0 |
| PatternBanks.PatternBank.SetPendingPattern | Caustk/src/com/teotigraphix/caustk/workstation/PatternBank.java:70-76 | sets pending; an event is posted only when it changes |
| PatternBanks.PatternBank.SetSelectedIndex | Caustk/src/com/teotigraphix/caustk/workstation/PatternBank.java:171-179 | sets the selected index; nothing else changes |
| PatternBanks.PatternBank.IncrementIndex | Caustk/src/com/teotigraphix/caustk/workstation/PatternBank.java:246-254 | pending becomes the next index after pending, or after the selected index when pending is -1, wrapping 64 to 0, by 32-bit `int` addition; the pending-change event is posted exactly when pending changes |
| PatternBanks.PatternBank.DecrementIndex | Caustk/src/com/teotigraphix/caustk/workstation/PatternBank.java:262-270 | pending becomes the previous index, wrapping -1 to 63, by 32-bit `int` addition; the pending-change event is posted exactly when pending changes |
| PatternBanks.PatternBank.CreateReferences | Caustk/src/com/teotigraphix/caustk/workstation/PatternBank.java:311-314 | after the Create phase every key 0..63 holds the reference for its own index, other entries are kept, and nothing else changes |
| PatternBanks.PatternBank.AddPattern | Caustk/src/com/teotigraphix/caustk/workstation/PatternBank.java:394-397 | stores the pattern under its own index, replacing any there |
| PatternBanks.PatternBank.SetNextPattern | Caustk/src/com/teotigraphix/caustk/workstation/PatternBank.java:338-342 | an index without a pattern fails at the dereference and stays pending; otherwise that index is selected, its pattern copied as the temporary pattern, one change event posted, and pending is -1 |
| PatternBanks.PatternBank.CommitPendingPattern | Caustk/src/com/teotigraphix/caustk/workstation/PatternBank.java:344-392 | the pending pattern is copied as the temporary one and its index selected; a missing pattern fails at the dereference |
| Patterns.DistinctCount | CausticToolkit/src/main/java/com/teotigraphix/caustk/pattern/Pattern.java:65-67 | a duplicate-free list has as many elements as distinct parts |
| Patterns.Pattern.constructor | CausticToolkit/src/main/java/com/teotigraphix/caustk/pattern/Pattern.java:159-162 | a new pattern has no parts and length -1 |
| Patterns.Pattern.AddPart | CausticToolkit/src/main/java/com/teotigraphix/caustk/pattern/Pattern.java:168-172 | a part already present changes nothing; a new part is appended at the end |
| Patterns.Pattern.GetPartCount | CausticToolkit/src/main/java/com/teotigraphix/caustk/pattern/Pattern.java:65-67 | the number of distinct parts added |
| Patterns.Pattern.GetParts | CausticToolkit/src/main/java/com/teotigraphix/caustk/pattern/Pattern.java:69-71 | the parts in insertion order, duplicate-free |
| Patterns.Pattern.GetPart | CausticToolkit/src/main/java/com/teotigraphix/caustk/pattern/Pattern.java:73-75 | the part at the index, or IndexOutOfBounds exactly when the index is outside the list |
| Patterns.Pattern.SetLength | CausticToolkit/src/main/java/com/teotigraphix/caustk/pattern/Pattern.java:104-113 | an equal length changes nothing; otherwise every part's phrase gets the new length |
| Patterns.Pattern.SetSelectedPart | CausticToolkit/src/main/java/com/teotigraphix/caustk/pattern/Pattern.java:145-153 | the current part changes nothing; otherwise it is selected and one event carries the new and old parts |
| Patterns.Pattern.SetSelectedPartAt | CausticToolkit/src/main/java/com/teotigraphix/caustk/pattern/Pattern.java:135-153 | selects the part at the index; an index outside the list fails and changes nothing; a change of selection logs one change event (new part, old part), and re-selecting the selected part logs nothing |
| Libraries.RemoveUndoesAdd | Caustk/src/com/teotigraphix/caustk/node/Library.java:232-243 | removing a node just added restores the index, apart from a bucket the addition created |
| Libraries.InsertedKeepsOthers | Caustk/src/com/teotigraphix/caustk/node/Library.java:400-406 | adding keeps every info under its own type and id, holds the new node, and keeps every other entry |
| Libraries.Library.constructor | Caustk/src/com/teotigraphix/caustk/node/Library.java:79 | a new library has an empty index |
| Libraries.Library.Contains | Caustk/src/com/teotigraphix/caustk/node/Library.java:177-182 | true exactly when the node is held by the index (`Holds`: its type has a bucket holding its id) |
| Libraries.Library.Get | Caustk/src/com/teotigraphix/caustk/node/Library.java:189-197 | an info with that id from some bucket, or null exactly when no bucket holds the id |
| Libraries.Library.Add | Caustk/src/com/teotigraphix/caustk/node/Library.java:388-408 | a contained node returns false and changes nothing; an info with neither file nor name fails; otherwise the node is filed under its type and id, the bucket created if needed, and is contained afterwards |
| Libraries.Library.Remove | Caustk/src/com/teotigraphix/caustk/node/Library.java:232-243 | an absent node returns false and changes nothing; a present one loses only its id from its bucket and is no longer contained; the archive is then resolved for deletion, which fails with IllegalState when the stored info has no file |
| Libraries.Library.FindAll | Caustk/src/com/teotigraphix/caustk/node/Library.java:245-253 | every info of the type's bucket, and only those; a type without a bucket fails at the dereference |
| Libraries.Library.ResolveAbsoluteArchive | Caustk/src/com/teotigraphix/caustk/node/Library.java:437-443 | fails with IllegalState exactly when the info has no file; otherwise the relative path under the library directory |
| Libraries.Library.Filter | Caustk/src/com/teotigraphix/caustk/node/Library.java:445-447 | excludes no info |
| TrackSongs.CheckCurrentTrackAsWritten | Caustk/src/com/teotigraphix/caustk/sequencer/track/TrackSong.java:134-138 | the guard of `setCurrentTrack` as written passes exactly an index in 0..13 that has NO track, and refuses others with IllegalArgument |
| TrackSongs.CheckCurrentTrack | Caustk/src/com/teotigraphix/caustk/sequencer/track/TrackSong.java:134-138 | the guard `setCurrentTrack` evidently intends: refuses with IllegalArgument an index outside 0..13 or one without a track |
| TrackSongs.CurrentTrackCheckInverted | Caustk/src/com/teotigraphix/caustk/sequencer/track/TrackSong.java:137-138 | for every index in 0..13 the guard as written passes exactly when the intended one refuses; with tracks {3}, 3 is refused and 5 accepted |
| TrackSongs.CurrentTrackMustExist | Caustk/src/com/teotigraphix/caustk/sequencer/track/TrackSong.java:134-138 | the corrected guard passes exactly the indices in 0..13 that have a track |
| TrackSongs.TrackSong.constructor | Caustk/src/com/teotigraphix/caustk/sequencer/track/TrackSong.java:201-204 | a new song has no tracks, current track -1 and the given file |
| TrackSongs.TrackSong.Exists | Caustk/src/com/teotigraphix/caustk/sequencer/track/TrackSong.java:59-61 | true exactly when there is a file |
| TrackSongs.TrackSong.GetDirectory | Caustk/src/com/teotigraphix/caustk/sequencer/track/TrackSong.java:91-95 | the file's parent, or null without a file |
| TrackSongs.TrackSong.GetFileName | Caustk/src/com/teotigraphix/caustk/sequencer/track/TrackSong.java:100-104 | the file name with `.ctks` removed, or null without a file |
| TrackSongs.TrackSong.GetCausticFile | Caustk/src/com/teotigraphix/caustk/sequencer/track/TrackSong.java:109-113 | null exactly without a file; otherwise a sibling in the same directory named the file's base name plus `.caustic` |
| TrackSongs.TrackSong.CausticFileIsSibling | Caustk/src/com/teotigraphix/caustk/sequencer/track/TrackSong.java:100-113 | for `base.ctks`, the file name is `base` and the caustic file is `base.caustic` beside it |
| TrackSongs.TrackSong.HasTracks | Caustk/src/com/teotigraphix/caustk/sequencer/track/TrackSong.java:173-175 | true exactly when the track map is non-empty |
| TrackSongs.TrackSong.GetNumMeasures | Caustk/src/com/teotigraphix/caustk/sequencer/track/TrackSong.java:322-328 | 0 without a last pattern, otherwise its end measure |
| TrackSongs.TrackSong.GetNumBeats | Caustk/src/com/teotigraphix/caustk/sequencer/track/TrackSong.java:315-320 | four beats per measure of the song |
| TrackSongs.TrackSong.SetCurrentTrackAsWritten | Caustk/src/com/teotigraphix/caustk/sequencer/track/TrackSong.java:134-143 | `setCurrentTrack` as written: fails exactly when the as-written guard fails; on success the current track is an index WITHOUT a track; the tracks, file and end measure never change |
| TrackSongs.TrackSong.SetCurrentTrack | Caustk/src/com/teotigraphix/caustk/sequencer/track/TrackSong.java:134-143 | fails exactly when the corrected guard fails; on success the current track is a track of the map |
| TrackSongs.TrackSong.GetTrack | Caustk/src/com/teotigraphix/caustk/sequencer/track/TrackSong.java:185-192 | the existing track, or a new one inserted at the index; other keys are untouched |
| TrackSongs.TrackSong.GetSelectedTrack | Caustk/src/com/teotigraphix/caustk/sequencer/track/TrackSong.java:181-183 | the track of the current index: the stored one with the map unchanged, or a fresh track added under the index with every other entry kept |
| TrackSongs.TrackSong.ToneAdd | Caustk/src/com/teotigraphix/caustk/sequencer/track/TrackSong.java:241-245 | the tone's index holds a track afterwards; other tracks are unchanged |
| TrackSongs.TrackSong.ToneRemove | Caustk/src/com/teotigraphix/caustk/sequencer/track/TrackSong.java:247-250 | deletes the tone's index key; a missing key fails at the dereference |
| QueueDatas.NatToString | Caustk/src/com/teotigraphix/caustk/rack/queue/QueueData.java:224 | the decimal form of a natural number is non-empty and starts with a digit |
| QueueDatas.NatToStringDigits | Caustk/src/com/teotigraphix/caustk/rack/queue/QueueData.java:224 | the decimal form of a natural number is made of digits only |
| QueueDatas.IntToString | Caustk/src/com/teotigraphix/caustk/rack/queue/QueueData.java:224 | the decimal form of an integer is non-empty and starts with a minus sign exactly when it is negative |
| QueueDatas.NatToStringRoundTrip | Caustk/src/com/teotigraphix/caustk/rack/queue/QueueData.java:224 | reading back the decimal form of a natural number gives the number |
| QueueDatas.IntToStringRoundTrip | Caustk/src/com/teotigraphix/caustk/rack/queue/QueueData.java:224 | reading back the decimal form of an integer gives the integer |
| QueueDatas.ParseSigned | Caustk/src/com/teotigraphix/caustk/rack/queue/QueueData.java:224 | a leading minus negates the digits read |
| QueueDatas.ParseUnsigned | Caustk/src/com/teotigraphix/caustk/rack/queue/QueueData.java:224 | digits without a minus read as a natural number |
| QueueDatas.QueueData.constructor | Caustk/src/com/teotigraphix/caustk/rack/queue/QueueData.java:190-193 | state Idle, view index -1, no channels, and the given bank and pattern |
| QueueDatas.QueueData.SetState | Caustk/src/com/teotigraphix/caustk/rack/queue/QueueData.java:121-123 | sets the state; nothing else changes |
| QueueDatas.QueueData.SetViewChannelIndex | Caustk/src/com/teotigraphix/caustk/rack/queue/QueueData.java:137-139 | sets the view index; nothing else changes |
| QueueDatas.QueueData.HasChannel | Caustk/src/com/teotigraphix/caustk/rack/queue/QueueData.java:155-157 | true exactly when the tone index is a key |
| QueueDatas.QueueData.HasChannels | Caustk/src/com/teotigraphix/caustk/rack/queue/QueueData.java:159-161 | true exactly when some tone index has a channel |
| QueueDatas.QueueData.GetChannel | Caustk/src/com/teotigraphix/caustk/rack/queue/QueueData.java:169-177 | the existing channel, or a new one for the index inserted; afterwards the index has a channel and other keys are unchanged |
| QueueDatas.QueueData.GetViewChannel | Caustk/src/com/teotigraphix/caustk/rack/queue/QueueData.java:141-143 | the channel of the view index, created if missing, including under key -1 |
| QueueDatas.QueueData.GetChannels | Caustk/src/com/teotigraphix/caustk/rack/queue/QueueData.java:179-181 | a new list of exactly the channels, ordered by ascending tone index |
| QueueDatas.QueueData.ChannelsInToneOrder | Caustk/src/com/teotigraphix/caustk/rack/queue/QueueData.java:179-181 | the values of the channel map in key order are all the channels, once each, by ascending tone index |
| QueueDatas.QueueData.GetPhraseOf | Caustk/src/com/teotigraphix/caustk/rack/queue/QueueData.java:216-220 | always null |
| QueueDatas.QueueData.GetPhrase | Caustk/src/com/teotigraphix/caustk/rack/queue/QueueData.java:202-206 | null when the view index is -1, otherwise the phrase of the view channel |
| QueueDatas.QueueData.ToString | Caustk/src/com/teotigraphix/caustk/rack/queue/QueueData.java:222-225 | the label opens with `Data{`, closes with `]`, and is exactly as long as the state name, the two numbers and the nine punctuation characters |
| QueueDatas.QueueData.LabelReadsBack | Caustk/src/com/teotigraphix/caustk/rack/queue/QueueData.java:222-225 | the label is `Data{` state `}[` bank `,` pattern `]`, and the bank and pattern read back from their places |
| Limiters.WithLevel | Caustk/src/com/teotigraphix/caustk/rack/mixer/MasterLimiter.java:60-130 | writing one level sets it and leaves the other three |
| Limiters.DefaultsInRange | Caustk/src/com/teotigraphix/caustk/rack/mixer/MasterLimiter.java:32-42 | the defaults pre 1, attack 0.02, release 0.25 and post 1 lie in their ranges |
| Limiters.Setting | Caustk/src/com/teotigraphix/caustk/rack/mixer/MasterLimiter.java:60-130 | a setter fails exactly for a new value outside its range, with IllegalArgument; otherwise the level becomes the value |
| Limiters.SettingSends | Caustk/src/com/teotigraphix/caustk/rack/mixer/MasterLimiter.java:60-130 | a setter sends one message exactly when it writes a new value |
| Limiters.SettingKeepsRange | Caustk/src/com/teotigraphix/caustk/rack/mixer/MasterLimiter.java:60-130 | a successful setter keeps all four levels in range |
| Limiters.ReplayFirst | Caustk/src/com/teotigraphix/caustk/rack/mixer/MasterLimiter.java:146-152 | the restore stops at the first setter that fails and otherwise goes on from the new levels |
| Limiters.RestoreRecoversQueried | Caustk/src/com/teotigraphix/caustk/rack/mixer/MasterLimiter.java:146-152 | when every queried level is in range, restoring succeeds and leaves exactly the queried levels |
| Limiters.RestoreRefusesOutOfRange | Caustk/src/com/teotigraphix/caustk/rack/mixer/MasterLimiter.java:146-152 | an out-of-range queried attack stops the restore at once, with nothing written or sent |
| Limiters.UpdateSends | Caustk/src/com/teotigraphix/caustk/rack/mixer/MasterLimiter.java:155-161 | update sends the four stored levels, in the order attack, post, pre, release |
| Limiters.MasterLimiter.constructor | Caustk/src/com/teotigraphix/caustk/rack/mixer/MasterLimiter.java:32-42 | a new limiter holds the field defaults |
| Limiters.MasterLimiter.SetLevel | Caustk/src/com/teotigraphix/caustk/rack/mixer/MasterLimiter.java:60-130 | a setter follows `Setting` and sends what `SettingSends` says |
| Limiters.MasterLimiter.SetPre | Caustk/src/com/teotigraphix/caustk/rack/mixer/MasterLimiter.java:60-67 | accepts the current value or 0..8; anything else fails before writing or sending |
| Limiters.MasterLimiter.SetAttack | Caustk/src/com/teotigraphix/caustk/rack/mixer/MasterLimiter.java:81-88 | accepts the current value or 0..0.1; anything else fails before writing or sending |
| Limiters.MasterLimiter.SetRelease | Caustk/src/com/teotigraphix/caustk/rack/mixer/MasterLimiter.java:102-109 | accepts the current value or 0..0.5; anything else fails before writing or sending |
| Limiters.MasterLimiter.SetPost | Caustk/src/com/teotigraphix/caustk/rack/mixer/MasterLimiter.java:123-130 | accepts the current value or 0..2; anything else fails before writing or sending |
| Limiters.MasterLimiter.Restore | Caustk/src/com/teotigraphix/caustk/rack/mixer/MasterLimiter.java:146-152 | routes each queried level through its setter, in the order attack, post, pre, release, stopping at the first failure |
| Limiters.MasterLimiter.Update | Caustk/src/com/teotigraphix/caustk/rack/mixer/MasterLimiter.java:155-161 | sends the four stored levels and changes none |
| Crossovers.ControlName | CausticToolkit/src/main/java/com/teotigraphix/caustk/core/components/modular/CrossoverModule.java:25-110 | each control is sent under its own non-empty name |
| Crossovers.ControlNamesDistinct | CausticToolkit/src/main/java/com/teotigraphix/caustk/core/components/modular/CrossoverModule.java:25-110 | no two controls share a name |
| Crossovers.WithValue | CausticToolkit/src/main/java/com/teotigraphix/caustk/core/components/modular/CrossoverModule.java:25-110 | writing one control sets it and leaves the other three |
| Crossovers.SetAsWritten | CausticToolkit/src/main/java/com/teotigraphix/caustk/core/components/modular/CrossoverModule.java:25-32 | the setter as written stores any value, in range or not, and changes only its own control |
| Crossovers.SetChecked | CausticToolkit/src/main/java/com/teotigraphix/caustk/core/components/modular/CrossoverModule.java:25-32 | the corrected setter fails exactly for a new value outside 0..1 |
| Crossovers.SetCheckedKeepsRange | CausticToolkit/src/main/java/com/teotigraphix/caustk/core/components/modular/CrossoverModule.java:25-32 | the corrected setter keeps every control in 0..1 |
| Crossovers.AsWrittenEscapesRange | CausticToolkit/src/main/java/com/teotigraphix/caustk/core/components/modular/CrossoverModule.java:28-31 | from all controls 0, a frequency of 2 is stored by the setter as written and refused by the corrected one |
| Crossovers.JackValue | CausticToolkit/src/main/java/com/teotigraphix/caustk/core/components/modular/CrossoverModule.java:124-141 | OutHigh is 1, and InInput and OutLow are 0 |
| Crossovers.CrossoverModule.constructor | CausticToolkit/src/main/java/com/teotigraphix/caustk/core/components/modular/CrossoverModule.java:112-113 | a new module has all controls 0 |
| Crossovers.CrossoverModule.GetNumBays | CausticToolkit/src/main/java/com/teotigraphix/caustk/core/components/modular/CrossoverModule.java:120-122 | 0 |
| Crossovers.CrossoverModule.Store | CausticToolkit/src/main/java/com/teotigraphix/caustk/core/components/modular/CrossoverModule.java:25-32 | the field assignment that comes before the range check |
| Crossovers.CrossoverModule.SetControlAsWritten | CausticToolkit/src/main/java/com/teotigraphix/caustk/core/components/modular/CrossoverModule.java:25-110 | the four setters as written: an equal value is ignored, any other is stored and sent |
| Crossovers.CrossoverModule.SetControl | CausticToolkit/src/main/java/com/teotigraphix/caustk/core/components/modular/CrossoverModule.java:25-110 | the corrected setters: an out-of-range new value fails before anything is written or sent |
| ModularBays.Created | Caustk/src/com/teotigraphix/caustk/node/machine/patch/modular/ModularBayComponent.java:67-166 | a type with a component class gives a component for that bay, type and machine; any other type gives null |
| ModularBays.ScanPutsEveryQueried | Caustk/src/com/teotigraphix/caustk/node/machine/patch/modular/ModularBayComponent.java:185-190 | every bay of non-zero type whose type the scan queries gets an entry, so together with ScanPutsCreated the scan fills exactly the queried non-empty bays |
| ModularBays.ScanPutsCreated | Caustk/src/com/teotigraphix/caustk/node/machine/patch/modular/ModularBayComponent.java:185-190 | the scan puts only at bays whose queried type is non-zero, each time the component created for that bay and machine |
| ModularBays.ScanQueriesMachineZero | Caustk/src/com/teotigraphix/caustk/node/machine/patch/modular/ModularBayComponent.java:186 | every type query of the scan goes to machine 0 |
| ModularBays.ScanSkipsSpannedBay | Caustk/src/com/teotigraphix/caustk/node/machine/patch/modular/ModularBayComponent.java:191-192 | after a component spanning more than one bay, the next bay is neither queried nor stored |
| ModularBays.EmptyBaysStayEmpty | Caustk/src/com/teotigraphix/caustk/node/machine/patch/modular/ModularBayComponent.java:187 | a bay of type 0 holds nothing after the scan |
| ModularBays.RestoreFrom | Caustk/src/com/teotigraphix/caustk/node/machine/patch/modular/ModularBayComponent.java:195-197 | the restore loop fails only at a null component |
| ModularBays.RestoreFromAll | Caustk/src/com/teotigraphix/caustk/node/machine/patch/modular/ModularBayComponent.java:195-197 | when every bay holds a component, each is restored once, in order |
| ModularBays.ScanPassPutsComponents | Caustk/src/com/teotigraphix/caustk/node/machine/patch/modular/ModularBayComponent.java:189-192 | a scan that runs to the end stores a component at every bay it stores at |
| ModularBays.RestoreAfterCleanScan | Caustk/src/com/teotigraphix/caustk/node/machine/patch/modular/ModularBayComponent.java:185-197 | on an empty bay map, a scan that runs to the end is followed by one restore of every stored component |
| ModularBays.ScanStepEmpty | Caustk/src/com/teotigraphix/caustk/node/machine/patch/modular/ModularBayComponent.java:186-187 | a bay of type 0 adds only its query and the scan goes on at the next bay |
| ModularBays.ScanStepUnknown | Caustk/src/com/teotigraphix/caustk/node/machine/patch/modular/ModularBayComponent.java:186-191 | a type without a component class stores null, sends the query and the CREATE, and fails |
| ModularBays.ScanStepCreated | Caustk/src/com/teotigraphix/caustk/node/machine/patch/modular/ModularBayComponent.java:186-192 | a type with a class stores its component, sends the query and the CREATE, and goes on past the bays it spans |
| ModularBays.ModularBayComponent.constructor | Caustk/src/com/teotigraphix/caustk/node/machine/patch/modular/ModularBayComponent.java:58-60 | a new bay map is empty and belongs to the given machine |
| ModularBays.ModularBayComponent.CreateComponent | Caustk/src/com/teotigraphix/caustk/node/machine/patch/modular/ModularBayComponent.java:67-169 | returns the created component and sends CREATE for every type, including one without a class |
| ModularBays.ModularBayComponent.ScanBay | Caustk/src/com/teotigraphix/caustk/node/machine/patch/modular/ModularBayComponent.java:186-192 | one pass of the scan loop follows the scan function and moves one or two bays on |
| ModularBays.ModularBayComponent.ScanBays | Caustk/src/com/teotigraphix/caustk/node/machine/patch/modular/ModularBayComponent.java:185-194 | the scan loop stores and sends what the scan function says, and fails as it does |
| ModularBays.ModularBayComponent.RestoreStored | Caustk/src/com/teotigraphix/caustk/node/machine/patch/modular/ModularBayComponent.java:195-197 | restores each stored component in the order given |
| ModularBays.ModularBayComponent.RestoreComponents | Caustk/src/com/teotigraphix/caustk/node/machine/patch/modular/ModularBayComponent.java:184-198 | the scan, then when it ran to the end one restore of every stored component |
| SortedMaps.MinExists | Caustk/src/com/teotigraphix/caustk/rack/queue/QueueData.java:42 | a non-empty finite set of integers has a least element |
| SortedMaps.SortedKeys | Caustk/src/com/teotigraphix/caustk/rack/queue/QueueData.java:42 | the keys of a `TreeMap`, strictly increasing, each key once |
| SortedMaps.ValuesInKeyOrder | Caustk/src/com/teotigraphix/caustk/rack/queue/QueueData.java:179-181 | `values()` of a `TreeMap`: one value per key, in key order |
| SortedMaps.ValuesInKeyOrderAt | Caustk/src/com/teotigraphix/caustk/rack/queue/QueueData.java:179-181 | the i-th value is the value of the i-th key |
| SortedMaps.SortedRange | CausticToolkit/src/main/groove-station/com/teotigraphix/caustk/gs/pattern/Phrase.java:263 | the sorted keys of 0..n-1 are 0..n-1 in order |
| SortedMaps.ValuesOfRange | CausticToolkit/src/main/groove-station/com/teotigraphix/caustk/gs/pattern/Phrase.java:263 | on keys 0..n-1, the i-th value in key order is the value of key i |
| SortedMaps.WindowOfRange | CausticToolkit/src/main/groove-station/com/teotigraphix/caustk/gs/pattern/Phrase.java:263 | on keys 0..n-1, a sublist from `from` shows the value of key from+v at v |

## Left out

- Engine traffic is a log of commands, and engine queries are parameters. The native engine, `OSCUtils` and the `loadSong`/`saveSong`/`saveSongAs` calls are not modelled.
- Posted events are a log of the data they carry. Dispatchers and listeners are not modelled.
- `Library` disk work is not modelled: saving, zipping and unzipping archives, temporary directories, the sleep, and deleting from disk. The path the path resolver computes for a node is a parameter of `Add`.
- `Library.Remove`: the `IllegalStateException` for a removal that finds nothing cannot happen while the index is consistent, so the model has no such branch.
- The deep copy of a pattern in `PatternBank.commitPendingPattern` is an opaque clone: the temporary pattern equals the source pattern. The patch and phrase replacement on the machines is not modelled, because `Machine`, `Part` and `PartReference` are not part of this model.
- Float beat arithmetic is not modelled: `TrackPhrase.onBeatChange`/`toLocalBeat`, `TrackSong.getTotalTime`/`getCurrentTime`/`getMeasureBeat`, `Resolution.toBeat`/`toStep`. The phrase's trigger table is keyed by step number, which orders the steps as the source's float beats do.
- GrooveStation.Phrase: the resolution maps to 16, 32 or 64 steps per measure. The scale, `transpose`, the `triggerUpdate*` methods and the library phrase are not modelled.
- GrooveStation.Phrase.GetViewSteps: a window past the end of the table is a failure. The source's `subList` throws there, and for the triplet scales it is called with an end index of -1.
- Rack.RackNode: machine nodes keep only their index, type, name, mute and solo flags, and last lifecycle call. `master.restore()`, `sequencer.restore()` and the event classes are not modelled.
- Rack.RackNode.SetSolo: the two-argument `setSolo(flag, notify)` of the mixer is modelled as setting the flag; its notification is not modelled.
- ModularBays.ModularBayComponent.RestoreComponents: the source restores components in `HashMap` value order, which Java does not specify. The model restores them by ascending bay.
- ModularBays.Created: the component classes are a catalog from type code to the number of bays the class spans. The 23 constructors are not modelled one by one.
- QueueDatas.QueueData: the queue song, the channel's own state and `getTheInvalidatedData` are not modelled. `getPhrase(int)` always returns null in the source, and so does the model.
- Libraries.Library.Add: the source sets the file on the caller's `NodeInfo` and files that same object (Library.java:398, 406); the model files an updated copy, so the caller's info is not changed and the aliasing is not modelled.
- TrackSongs.TrackSong.GetCausticFile: the result is built from `getDirectory` and `getFileName`. `getAbsoluteFile` needs the project manager and is not modelled.
- Crossovers.CrossoverModule.SetControl: it requires all controls to be in range, because the corrected setters keep that invariant. The as-written setter has no such requirement.
- Limiters.MasterLimiter: `super.restore`/`super.update` of the mixer base class and the bypass message are not modelled.
- Kryo serialization, UI, Android and application-wiring classes are not part of this model.
- Limiters.SettingKeepsRange: a `real` is never NaN. In Java a NaN level passes each range check of the limiter's setters (`MasterLimiter.java` lines 63, 84, 105 and 126), because both of its comparisons are false, so the source can store a NaN that this model cannot.
- Crossovers.SetCheckedKeepsRange: likewise, a NaN control value would pass a Java range check on a float; the model's reals have no NaN.
- GrooveStation.Phrase.StepCount: the product is an unbounded integer. Java's `numStepsInMeasure * getLength()` wraps at 32 bits for lengths beyond about 2^25.
- GrooveStation.Phrase.ToAbsoluteStep: `16 * getPosition()` is unbounded here; in Java it wraps for positions beyond about 2^27.
- TrackSongs.TrackSong.GetNumBeats: the measure count times four is unbounded here; in Java it wraps for counts beyond about 2^29.
- TrackPhrases.NotesIn: `measure * 4` is unbounded here; in Java it wraps for measures beyond about 2^29.
- TrackPhrases.NextMeasure: the measure counter's `currentMeasure + 1` and `- 1` are unbounded here; in Java they wrap at the `int` extremes, which a counter of measures does not reach in practice.
- ModularBays.Created: a type code outside the catalog is assumed to reach the `default` branch of `create`, which sends CREATE and returns null. `ModularComponentType.fromInt` is not part of this model. If it returns null for an unknown code, the source throws at the `switch` before sending CREATE or storing anything.
- Rack.AbsoluteSongPath: the songs directory (`RuntimeUtils.getSongsDirectory`) is a parameter; a path is absolute exactly when it starts with `/` (Unix); `File`'s normalisation of separators is not modelled.

## Findings

| source | as written | input that shows it | evidently intended | confidence | as-written member | corrected member |
|---|---|---|---|---|---|---|
| Caustk/src/com/teotigraphix/caustk/sequencer/track/TrackSong.java:137-138 | `setCurrentTrack` throws "Track index does not exist" when the index IS in the track map | tracks {3}: selecting 3 is refused, and selecting 5 (no track) is accepted | refuse an index without a track, accept one with a track | not executed | TrackSongs.CheckCurrentTrackAsWritten, TrackSongs.TrackSong.SetCurrentTrackAsWritten, TrackSongs.CurrentTrackCheckInverted | TrackSongs.CheckCurrentTrack, TrackSongs.CurrentTrackMustExist |
| CausticToolkit/src/main/java/com/teotigraphix/caustk/core/components/modular/CrossoverModule.java:28-31 | the field is assigned before the range check, and the range exception is built but never thrown | from all controls 0, `setFrequency(2)` stores and sends 2 | refuse a value outside 0..1 before storing or sending it | not executed | Crossovers.SetAsWritten, Crossovers.CrossoverModule.SetControlAsWritten, Crossovers.AsWrittenEscapesRange | Crossovers.SetChecked, Crossovers.SetCheckedKeepsRange, Crossovers.CrossoverModule.SetControl |
