# Tesro's curry: the game rules, modelled in Dafny

`script.js` is a one-screen browser game. Food moves along a conveyor
belt towards the character. A tap eats the note that has just passed the
eat line: curry, very hot curry (which heats the belt up and speeds it), a
Tesro (a penalty) or water (which cools everything down). The game ends
once 100 curries have been eaten, and the fastest time is kept in the
browser's storage.

This project models the rules of that game as pure functions over
immutable data and proves what the code promises about them.

- `Conveyor` (conveyor.dfy) covers the belt:
  - the spawn pattern and `resetNotes`;
  - `roleNotes` twice: once as a function (`Roll`), and once as the
    source's loop over a list that grows while it is being walked
    (`RoleNotes`). The two are proved equal.
- `ConveyorFacts` (conveyor_facts.dfy) gives a closed form of one frame
  of the belt. It also proves what that frame preserves.
- `SaveData` (save_data.dfy) covers the saved record:
  - `loadData` and `updateSaveData`;
  - the best-time test of the end screen.
- `TimeText` (time_text.dfy) covers `drawTime`:
  - the partner `ParseTime`, with round trips proved both ways;
  - the sprite row `drawNumber` picks for each character.
- `Game` (game.dfy) is the phase machine (title, countdown, play, end).
  It is a step function over a state record, driven by four kinds of
  event:
  - a frame of `mainLoop` at some clock time;
  - a touch going down;
  - a touch coming up;
  - the 500 ms interval.

  Sound effects come out as cues.
- `GameFacts` (game_facts.dfy) holds an invariant of every reachable
  state, proved for every event and every sequence of events.
- `TapFacts` (tap_facts.dfy) covers each outcome of a tap.
- `PhaseFacts` (phase_facts.dfy) covers the phase transitions, the first
  frame of each phase, the countdown, the play clock and the end screen's
  wait.

Conventions the model fixes:

- **Positions are in half-pixels.** Every x coordinate of the source is
  doubled. The source's advance of `1 + hotLevel / 2` pixels per frame is
  then the integer `2 + hotLevel`, and every reachable position is an
  integer. `Math.ceil` on a position becomes rounding up to an even number
  of half-pixels.
- **The head of the belt is its most advanced note.** Index 0 has the
  largest x, because `resetNotes` adds notes with `unshift` and
  `roleNotes` appends new ones with `push`. Together they keep x
  non-increasing from head to tail.
- **Touch handlers read the clock of the last frame.** In the source they
  use the global `tick` that `mainLoop` last set. The model keeps that as
  the `tick` field of the state, and touch events carry no time of their
  own.
- **`fCount` counts half-seconds.** It is decremented by the 500 ms
  interval, which is the `HalfSecond` event here. The title screen's
  `draw` re-arms it, and that state change is part of the frame
  (`MainLoop`).
- **The storage is an `Option` of a field map.** `None` stands for a
  missing key and for one whose text does not parse. Both fall back to
  the default record. `Some` stands for stored text that parses to an
  object with integer fields.

The proofs also show a race in the source's event handling. The last bite
of the quota sets the phase to the end screen at once. The end screen's
`init`, which saves the best time, only runs on the following frame. A
touch release that arrives before that frame, while `fCount` is 0, takes
the game straight back to the title screen, so `init` never runs and the
time is not saved. `fCount` is 0 by then in practice: it holds at most
20 half-seconds when the title screen is left, and counts down through
the countdown and the whole game. `PhaseFacts.ReleaseBeforeEndFrame` states
both orders of events. The model keeps the source's behaviour.

## Model

| member | source | states |
|---|---|---|
| Conveyor.Seed | script.js:298-302 | the loop of `resetNotes` after `i` rounds: `i` air notes, the newest at the head, spaced two sprites apart down to x = 0 |
| Conveyor.NewNote | script.js:289-294 | a new note has the given kind and enters left of the stage, and after its first move, at any heat level, it is still left of the stage, so it can neither leave nor be reached in the frame it appears |
| Conveyor.ResetNotes | script.js:295-303 | a reset belt holds five air notes, sorted and on the stage, from 4 sprites x 2 at the head to 0 at the tail; the pattern restarts at 0; the heat state is not touched |
| Conveyor.CeilNotes | script.js:493-495 | snapping to whole pixels keeps each note's kind, moves it forward by less than a pixel, and keeps a well-formed belt well formed |
| Conveyor.VisitSpec | script.js:306-318 | one round of the first loop moves exactly one more note forward, keeping its kind; it appends a note exactly when the moved one reached the right edge, of the kind at the pattern position just advanced to; it never grows the gauge or raises the level, and a hot belt keeps gauge left |
| Conveyor.MoveNote | script.js:306-318 | one pass of the source's loop body over the growing list takes the walk from round `i` to round `i + 1`: the list, the pattern index, the gauge, the level and the count of appended notes all match the fold after one more round |
| Conveyor.WalkNotes | script.js:305-319 | the first loop of `roleNotes`, over a list that grows while it is walked, ends with the old notes moved and the appended notes behind them, each moved once at the heat level left by the old notes |
| Conveyor.ShiftNotes | script.js:320-322 | the second loop removes exactly `newCount` notes from the head |
| Conveyor.RoleNotes | script.js:304-323 | the source's two loops compute exactly the frame `Roll` |
| Conveyor.Roll | script.js:304-323 | a frame keeps the belt length |
| ConveyorFacts.LevelAt | script.js:312-317 | a note is moved at the current heat level, or at 0 once the gauge has run out earlier in the same frame; notes ahead of the gauge's last unit always move at the current level |
| ConveyorFacts.AheadIsMod | script.js:310 | stepping the pattern index `e` times, modulo 48 each time, lands on `(index + e) % 48` |
| ConveyorFacts.AdvancedOrdered | script.js:306-308 | a note behind another is still no further forward once both have moved, even if the heat level dropped between them |
| ConveyorFacts.LeaversPrefix | script.js:306-309 | on a sorted belt the notes that reach the right edge are exactly a prefix of the belt |
| ConveyorFacts.SweepPrefix | script.js:306-318 | after visiting `i` old notes the first loop has moved them, appended one pattern kind per leaver, advanced the index once per leaver, and burnt the gauge once per leaver |
| ConveyorFacts.GaugeRunsOut | script.js:312-317 | the gauge runs out during a frame exactly when at least `gage` notes leave the belt |
| ConveyorFacts.RollSpec | script.js:304-323 | closed form of a frame: the first `e` notes are those that reached the right edge and exactly they are removed; one pattern kind per leaver is appended at the spawn point and moved once; the index moves `e` places; the gauge loses `e` units down to 0; the level drops to 0 exactly when the gauge runs out |
| ConveyorFacts.KeptInShape | script.js:304-323 | the notes that stay after a frame are sorted, short of the right edge, and no further back than the appended ones |
| ConveyorFacts.SortedJoin | script.js:311 | appending notes at one position no further forward than every note of a sorted belt keeps it sorted |
| ConveyorFacts.RollKeepsWellFormed | script.js:304-323 | a frame keeps every reachable belt sorted from head to tail and on the stage |
| ConveyorFacts.PatternStart | script.js:271-278 | the spawn pattern opens with a curry, an air gap, a curry and a water |
| ConveyorFacts.SpawnNeverEmpty | script.js:271-278 | the pattern never spawns an eaten plate |
| ConveyorFacts.RollNoneEaten | script.js:304-323 | a frame brings no eaten plate onto a belt that had none |
| ConveyorFacts.RollCools | script.js:312-317 | a frame never grows the gauge or raises the heat level, and a hot belt keeps gauge left for as long as it stays hot |
| SaveData.LoadData | script.js:8-16 | the stored record when there is one, else the defaults: best time `MAX_TICK`, volume 0 |
| SaveData.UpdateSaveData | script.js:20-26 | the loaded record with the given keys written over it: given keys take the new values, every other loaded key keeps its value, and no other key appears |
| SaveData.SaveBest | script.js:488-492 | the time is stored under `timeTick` exactly when the stored best time is missing or 0, or when the time is nonzero and below it; other fields are kept, and otherwise the store is left as it is |
| SaveData.SaveBestKeepsVolume | script.js:20-26 | saving the best time never changes the stored volume |
| SaveData.BestNeverWorsens | script.js:490-492 | once a nonzero best time is stored, a save can only keep or lower it |
| SaveData.BestTimeExample | script.js:488-492 | 45.23 s on an empty store is saved; 50 s afterwards is not |
| TimeText.JsRem | script.js:61-62 | JavaScript's `%`: the usual remainder for non-negative numbers, a non-positive one above `-m` for negative numbers |
| TimeText.Digits | script.js:64 | `"" + n` for a natural number: at least one digit, all digits, one for n < 10 and two for n < 100 |
| TimeText.NumberText | script.js:64 | `"" + n`: for a non-negative number its digits without a leading zero, for a negative one a minus sign before them; a single digit below 10 |
| TimeText.DigitsValue | script.js:64 | the digits of a natural number read back as that number |
| TimeText.NumberTextValue | script.js:64 | `"" + n` determines `n`: the digits read back as its magnitude, and a leading minus marks a negative one |
| TimeText.Pad2 | script.js:64 | a number below 100, padded to two digits, is its tens digit followed by its units digit |
| TimeText.DrawTime | script.js:60-66 | for every count from 0 on, the text is exactly seven characters `dd:dd.d`, with seconds below 60 |
| TimeText.DrawTimeFields | script.js:60-66 | for a non-negative count the text is the minutes (capped at 99), the seconds within the minute and the tenths, two, two and one digits wide, with `:` and `.` between them |
| TimeText.DrawTimeCapped | script.js:63 | from 100 minutes on, the minutes field reads 99 |
| TimeText.DrawTimeReadsBack | script.js:60-66 | up to `MAX_TICK`, reading the text back gives the count truncated to tenths of a second |
| TimeText.ParseTime | script.js:60-66 | every readable `mm:ss.z` text stands for a time from 0 to `MAX_TICK` in whole tenths |
| TimeText.ParseTimeDrawsBack | script.js:60-66 | every readable `mm:ss.z` text is exactly what is drawn for the time it stands for |
| TimeText.MaxTickText | script.js:4 | `MAX_TICK` is drawn as `99:59.9` |
| TimeText.Glyph | script.js:56 | `.` is sprite row 10, `:` row 11, `x` row 12, a digit its own value, anything else 0 |
| TimeText.FieldGlyphs | script.js:52-58 | a text built from the digits of three fields uses those digits as rows, with row 11 and row 10 between them |
| TimeText.TimeGlyphs | script.js:52-66 | a drawn time uses the digit rows of its fields, with the colon row and the point row between them |
| Game.Boot | script.js:361-365 | the game starts on the title screen, not yet entered, with an empty belt |
| Game.HitIndex | script.js:430-436 | a tap reaches the first note from the head that is strictly past the eat line, or nothing when no note is |
| Game.TitleInit | script.js:370-376 | the title's `init` replaces the belt with the five evenly spaced air notes of the reset at pattern position 0, keeps the gauge, clears the heat level and cooldown, arms the drool timer with 20, reads `MAX_TICK` as the best time when nothing is stored, and changes nothing else |
| Game.StartInit | script.js:400-404 | the countdown's `init` replaces the belt with the five evenly spaced air notes at pattern position 0, keeping gauge and level, sets the quota count to 100 and the last number shown to 0, and changes nothing else |
| Game.EndInit | script.js:488-498 | the end screen's `init` stores the time as best exactly when the stored record is missing or worse and otherwise leaves the store alone; it rounds every note up by less than a pixel keeping its kind, keeps the belt length, pattern position, gauge and level, sets the blink timer to 7, plays the end cue, and changes nothing else |
| Game.Enter | script.js:205-212 | the `init` a frame runs on entry keeps the phase and its start time. Title and countdown reseed the belt with the five air notes at pattern position 0, only the countdown resets the quota to 100, Play has no `init` so entering it changes nothing, and only the end screen's can change the store, emitting the end cue |
| Game.StartMain | script.js:406-417 | the countdown hands over to play, with the start cue and a count of 0, exactly when three seconds have passed since it began; otherwise it stays with a count of at least 1 and beeps exactly when the count changed |
| Game.PlayMain | script.js:424-428 | play's `main` keeps the phase and the quota, shows the time since play began stopped at `MAX_TICK`, clears exactly an expired cooldown and keeps the belt length |
| Game.Main | script.js:377-379 | a phase's `main` keeps the last-entered phase, the clock and the store and changes the phase only from the countdown to play; the title's only moves the belt one frame, and the end screen has none, so it changes nothing and plays no cue |
| Game.MainLoop | script.js:205-212 | a frame records the phase it found as entered, stamps the start time only on entry, changes the phase only from the countdown to play, and leaves the title screen with `fCount` armed |
| Game.Tap | script.js:429-476 | a tap during play never moves a note or changes the belt length or pattern position, changes at most the note it reaches, lowers the quota count by at most one, plays at most one cue, and leaves the phase at play or moves it to the end screen |
| Game.TitleRelease | script.js:380-382 | a release on the title screen starts the countdown and changes nothing else |
| Game.EndRelease | script.js:499-502 | a release on the end screen returns to the title exactly when the blink timer is 0, and otherwise changes nothing |
| Game.Release | script.js:223-226 | a release runs the current phase's `onTouchEnd`: the title goes to the countdown, the end screen to the title exactly when `fCount` is 0, the other phases have none; nothing but the phase changes |
| Game.Tick | script.js:237-242 | the half-second tick keeps the animation frame in 0 to 3 and always changes it, counts a positive `fCount` down by one, and changes nothing else |
| Game.Next | script.js:218-242 | one event: a frame stamps the clock and marks the phase found as entered; a touch outside play changes nothing; a tap keeps the belt length and the store; a release or a half-second tick plays no cue and leaves the belt alone, and a tick never changes the phase |
| GameFacts.EatenRetype | script.js:441 | changing one note's kind changes the number of eaten plates by what it was and what it becomes |
| GameFacts.RetypeWellFormed | script.js:470 | changing a note's kind keeps the belt in shape |
| GameFacts.BootInv | script.js:361-365 | the state the game starts in is reachable |
| GameFacts.EnterInv | script.js:207-211 | the `init` of any phase keeps the reachable-state invariant |
| GameFacts.MainInv | script.js:212 | the `main` of an entered phase keeps the invariant |
| GameFacts.MainLoopInv | script.js:205-212 | a frame keeps the invariant |
| GameFacts.TapInv | script.js:429-476 | a tap keeps the invariant: a curry eaten is still counted as an eaten plate until play's first frame, and the end screen comes only with the quota met |
| GameFacts.NextInv | script.js:205-242 | every event keeps the invariant |
| GameFacts.RunInv | script.js:205-242 | every sequence of events keeps the invariant |
| TapFacts.Reached | script.js:430-436 | a tap reaches a kind exactly when it reaches a note |
| TapFacts.HeadOnly | script.js:430-436 | on a sorted belt a tap can only reach the head, and reaches it exactly when the head is past the eat line |
| TapFacts.TapWater | script.js:437-446 | water is drunk whatever the cooldown: cooldown, gauge and level become 0, the note becomes air, and nothing else changes |
| TapFacts.TapCooling | script.js:447 | during a cooldown, a tap that does not reach water changes nothing |
| TapFacts.TapMiss | script.js:450-454 | with no cooldown, reaching nothing or air only sets a one-second cooldown |
| TapFacts.TapTesro | script.js:455-459 | with no cooldown, a Tesro only sets a two-second cooldown and stays on the belt |
| TapFacts.TapEmpty | script.js:455-475 | with no cooldown, an eaten plate matches no case and the tap changes nothing |
| TapFacts.TapEat | script.js:460-475 | with no cooldown, a curry's plate is emptied and one curry fewer is to go; a very hot one refills the gauge to 49 and raises the level by one, at most to 4; play ends exactly when the last curry is eaten |
| TapFacts.PlayToEnd | script.js:472-474 | a tap ends play exactly when, with no cooldown, it reaches a curry and only one is left to go |
| TapFacts.TapEatsOne | script.js:469-472 | in a reachable game a tap eats at most one curry, and the count drops exactly when a plate is emptied |
| PhaseFacts.PhaseChanges | script.js:380-502 | no event skips a phase or goes back: title, countdown, play, end, and back to the title |
| PhaseFacts.FrameEntry | script.js:205-212 | a frame runs `init` only for a phase not yet entered, marks it entered and stamps its start time; the next frame runs `init` exactly when this one's `main` changed the phase |
| PhaseFacts.StartEntry | script.js:401-417 | the countdown's first frame resets the belt and the quota and shows 3 with a beep |
| PhaseFacts.Countdown | script.js:406-417 | a later frame within three seconds shows the seconds left, 3, 2 or 1, and beeps exactly when that number changed |
| PhaseFacts.StartToPlay | script.js:406-411 | the countdown hands over to play, with the start cue, exactly on a frame at least three seconds after its first |
| PhaseFacts.PlayEntry | script.js:424-428 | the first frame of play starts the clock at 0 and moves the belt once |
| PhaseFacts.PlayFrame | script.js:424-428 | a later frame of play shows the time since play began, stopped at `MAX_TICK`; it clears only an expired cooldown and moves the belt once |
| PhaseFacts.EndEntry | script.js:488-498 | the end screen's first frame saves a record time and keeps the volume, snaps the notes, arms the seven-half-second blink timer and plays the end cue |
| PhaseFacts.EndStep | script.js:499-502 | on the entered end screen, with `fCount` nonzero, any event only counts `fCount` down |
| PhaseFacts.EndWaits | script.js:496-502 | the end screen cannot be left, and the record is not touched, until as many half-seconds have passed as `fCount` held |
| PhaseFacts.TitleEntry | script.js:370-376 | the title screen's first frame reads the best time (`MAX_TICK` when none is stored), cools the belt and clears the cooldown |
| PhaseFacts.TitleFrame | script.js:377-397 | a title frame after the entry frame moves the belt once, re-arms a run-out drool timer to 20, plays no cue and changes nothing else but the clock |
| PhaseFacts.TitleRearms | script.js:394-396 | after every title frame `fCount` is armed |
| PhaseFacts.HalfSeconds | script.js:237-242 | a run of `n` half-second ticks holds `n` ticks |
| PhaseFacts.Ticks | script.js:237-242 | over `n` half-second ticks, in any phase, the animation frame goes `n` steps round its cycle of four, the blink timer counts down by `n` and stops at 0, and nothing else changes |
| PhaseFacts.RunAppend | script.js:205-242 | running two event sequences one after the other is the same as running their concatenation |
| PhaseFacts.EndReleases | script.js:499-502 | once as many half-seconds have passed as the blink timer held, a release takes the end screen back to the title |
| PhaseFacts.ReleaseBeforeEndFrame | script.js:472-502 | after the last bite, with `fCount` run out, a release before the next frame returns to the title without saving; with the frame first, the time is saved |

## Left out

- Drawing is left out: `drawCommons`, every phase's `draw`, and the canvas
  calls of `drawNumber`. It is pixel output. Two parts are kept: the
  glyph row of each character (script.js:56), and the title screen's
  re-arming of `fCount`, which writes game state.
- Audio is left out: `loadBuffer`, `se`, `setBgm`, gain and panner, and
  `initAudioContext`. These are foreign asynchronous APIs. The cues the
  rules ask for are returned instead. `audio.se` stays silent when the
  volume is 0, which is audio-engine behaviour, so cues are emitted
  whatever the volume.
- Timers are left out: the delay before the next `mainLoop` call, the
  `rosetAnime` animation and the `lazy` debounce. They are driven by the
  browser. Frames and half-second ticks are events instead, and their
  clock is a parameter.
- DOM event wiring and the F5 filter (script.js:218-231) are left out.
  Each touch, key or mouse event is one `TouchStart` or `TouchEnd`.
- The volume button is left out. It cycles float gain levels, which is UI
  with float equality. The volume is stored as an opaque integer that
  saving keeps.
- `localStorage` and `JSON.parse` are left out. The store is
  `Option<map<string, int>>`. A record whose fields are not integers is
  not modelled.
- Stored text that parses to something other than an object is not
  modelled. `loadData` returns such a value as it is (script.js:11).
  For `null`, `audio.firstDraw` reads `data.volume` (script.js:94) while
  the script loads (script.js:97) and throws, so the game never starts.
  For a number or a string such as `42`, nothing throws: every field
  reads as `undefined`, so the title screen's best time is `undefined`
  (script.js:374). The end screen's `init` then always tries to save, but
  assigning a field of a primitive has no effect in this non-strict
  script, and script.js:25 writes the same value back, so no best time
  is ever kept.
- `Fase.HOT` is left out, because nothing uses it.
- `Fase.INIT.init` is left out beyond its result. It looks up the
  sprite sheet's DOM element and calls `mainLoop` (script.js:361-365).
  `Game.Boot` is the state it hands over.
- Game.Run over-approximates the event order after boot. `Fase.INIT.init`
  runs the first frame synchronously (script.js:364), so in the source no
  event comes before it. `Run(Boot(s), es)` allows any event first, a
  touch release included. Because of that, `GameFacts.Inv` admits the
  countdown as current while no phase has been entered yet.
- Conveyor.Roll: its own contract states only that the length is kept.
  The full behaviour of a frame is `ConveyorFacts.RollSpec`, for the
  sorted belts the game reaches.
