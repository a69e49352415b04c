/**
  The game of script.js as a step machine: a record of everything the
  phases read and write, and one function per thing that can happen to it.

  The browser drives the source through four kinds of callback, which are
  the events here: a frame of `mainLoop` at clock time `now`, a touch (or
  key or mouse) going down, one coming up, and the 500 ms interval that
  advances the animation and counts `fCount` down. Sound effects are
  returned as cues; drawing is left out, except where a `draw` function
  writes game state (the title screen re-arms `fCount`).
*/
module Game {
  import opened Options
  import opened Settings
  import opened Conveyor
  import opened SaveData

  /** `Fase.TITLE .. Fase.END`. `Fase.INIT` only hands over to the title screen (see `Boot`). */
  datatype Phase = Title | Start | Play | End

  /** The sound effects the core asks for. */
  datatype Cue = SeEat | SeMiss | SeHot | SeTesro | SeWater | SeStart | SeCount | SeEnd

  datatype Event = Frame(now: int) | TouchStart | TouchEnd | HalfSecond

  /** Half-seconds the title screen waits between two drips of drool. */
  const YODARE_DELAY: nat := 20
  /** Half-seconds the end screen blinks before a touch can leave it. */
  const END_DELAY: nat := 7
  /** Cooldown after a miss, and after biting a Tesro, in milliseconds. */
  const MISS_COOL: int := 1000
  const TESRO_COOL: int := 2000
  /** `hotGage` after a very hot curry: one more than the pattern length. */
  const HOT_GAGE: nat := |AllNotes| + 1

  /**
    The state of the game. `lastPhase` is `lastFase` (`None` before the
    first frame); `startTick` is the `startTick` of the current phase, the
    only one that is read; `count`, `lastCount` and `fastestTime` are the
    fields the source keeps on `Fase.START` and `Fase.TITLE`; `store` is the
    saved record in the browser's storage.
  */
  datatype Game = Game(
    phase: Phase,
    lastPhase: Option<Phase>,
    tick: int,
    startTick: int,
    belt: Belt,
    curryCount: int,
    timeTick: int,
    coolTime: int,
    fCount: nat,
    animeIndex: int,
    count: int,
    lastCount: int,
    fastestTime: Option<int>,
    store: Option<Record>)

  /** A state after an event, with the sound effects the event asked for, in order. */
  datatype Out = Out(game: Game, cues: seq<Cue>)

  /**
    The state `Fase.INIT.init` hands to the first frame: the title screen,
    not yet entered, an empty belt and every counter at its initial value.
  */
  function Boot(store: Option<Record>): (g: Game)
    ensures g.phase == Title && g.lastPhase.None? && g.belt.notes == [] && g.store == store
  {
    Game(Title, None, 0, 0, Belt([], 0, 0, 0), 0, 0, 0, 0, 0, 0, 0, None, store)
  }

  /** Whether the next frame runs the current phase's `init`. */
  predicate Entering(g: Game) {
    g.lastPhase != Some(g.phase)
  }

  /**
    `Fase.TITLE.init`: a fresh belt, the heat level (but not the gauge)
    cleared, no cooldown, the best time read from the store (`MAX_TICK` when
    nothing is stored) and the drool timer armed.
  */
  function TitleInit(g: Game): (o: Out)
    ensures o.cues == []
    ensures o.game.belt.notes == Seed(SEED_COUNT) && o.game.belt.index == 0
    ensures o.game.belt.level == 0 && o.game.belt.gage == g.belt.gage
    ensures o.game.coolTime == 0 && o.game.fCount == YODARE_DELAY
    ensures g.store.None? ==> o.game.fastestTime == Some(MAX_TICK)
    ensures o.game.(belt := g.belt, coolTime := g.coolTime, fastestTime := g.fastestTime, fCount := g.fCount) == g
  {
    var b := ResetNotes(g.belt);
    Out(g.(belt := b.(level := 0), coolTime := 0,
           fastestTime := Get(LoadData(g.store), TIME_KEY), fCount := YODARE_DELAY), [])
  }

  /** `Fase.START.init`: a fresh belt, the full quota, and no number shown yet. */
  function StartInit(g: Game): (o: Out)
    ensures o.cues == []
    ensures o.game.belt.notes == Seed(SEED_COUNT) && o.game.belt.index == 0
    ensures o.game.belt.level == g.belt.level && o.game.belt.gage == g.belt.gage
    ensures o.game.curryCount == QUOTA && o.game.lastCount == 0
    ensures o.game.(belt := g.belt, curryCount := g.curryCount, lastCount := g.lastCount) == g
  {
    Out(g.(belt := ResetNotes(g.belt), curryCount := QUOTA, lastCount := 0), [])
  }

  /**
    `Fase.END.init`: the time saved when the store holds no best time or a
    worse one, the notes snapped to whole pixels, the blink timer armed and
    the end cue played.
  */
  function EndInit(g: Game): (o: Out)
    ensures o.cues == [SeEnd] && o.game.fCount == END_DELAY
    ensures ShouldSave(LoadData(g.store), g.timeTick) ==> Get(LoadData(o.game.store), TIME_KEY) == Some(g.timeTick)
    ensures !ShouldSave(LoadData(g.store), g.timeTick) ==> o.game.store == g.store
    ensures |o.game.belt.notes| == |g.belt.notes| && o.game.belt.index == g.belt.index
    ensures forall j :: 0 <= j < |g.belt.notes| ==>
      o.game.belt.notes[j].kind == g.belt.notes[j].kind && g.belt.notes[j].x <= o.game.belt.notes[j].x <= g.belt.notes[j].x + 1
    ensures o.game.(store := g.store, belt := g.belt, fCount := g.fCount) == g
    ensures o.game.belt.(notes := g.belt.notes) == g.belt
  {
    Out(g.(store := SaveBest(g.store, g.timeTick),
           belt := g.belt.(notes := CeilNotes(g.belt.notes)), fCount := END_DELAY), [SeEnd])
  }

  /** The `init` of the current phase, run by a frame on entry; Play has none. */
  function Enter(g: Game): (o: Out)
    ensures o.game.phase == g.phase && o.game.lastPhase == g.lastPhase && o.game.tick == g.tick
    ensures o.game.startTick == g.startTick
    ensures o.cues == (if g.phase == End then [SeEnd] else [])
    ensures g.phase != End ==> o.game.store == g.store && o.game.timeTick == g.timeTick
    ensures g.phase == Start ==> o.game.curryCount == QUOTA
    ensures g.phase != Start ==> o.game.curryCount == g.curryCount
    ensures g.phase == Title || g.phase == Start ==> |o.game.belt.notes| == SEED_COUNT && o.game.belt.index == 0
    ensures g.phase == Title || g.phase == Start ==> o.game.belt.notes == Seed(SEED_COUNT)
    ensures g.phase == Play ==> o == Out(g, [])
    ensures g.phase == End ==> |o.game.belt.notes| == |g.belt.notes| && o.game.belt.index == g.belt.index
  {
    match g.phase
    case Title => TitleInit(g)
    case Start => StartInit(g)
    case Play => Out(g, [])
    case End => EndInit(g)
  }

  /** `Fase.START.main`: the countdown 3, 2, 1, with a cue on each change; at 0 the game starts. */
  function StartMain(g: Game): (o: Out)
    requires g.phase == Start
    ensures o.game.phase == Play <==> g.tick - g.startTick >= 3000
    ensures o.game.phase != Play ==> o.game.phase == Start && 1 <= o.game.count && o.game.lastCount == o.game.count
    ensures o.game.phase == Play ==> o.game.count == 0 && o.cues == [SeStart]
    ensures o.game.phase != Play ==> (o.cues == [SeCount] <==> g.lastCount != o.game.count)
    ensures o.game.(phase := g.phase, count := g.count, lastCount := g.lastCount) == g
  {
    var count := Max(0, 3 - (g.tick - g.startTick) / 1000);
    if count <= 0 then
      Out(g.(count := count, phase := Play), [SeStart])
    else if g.lastCount != count then
      Out(g.(count := count, lastCount := count), [SeCount])
    else
      Out(g.(count := count), [])
  }

  /** `Fase.PLAY.main`: the clock, clamped; an expired cooldown cleared; the belt moved. */
  function PlayMain(g: Game): (o: Out)
    requires g.phase == Play
    ensures o.game.phase == Play && o.cues == []
    ensures o.game.timeTick <= MAX_TICK
    ensures g.tick - g.startTick <= MAX_TICK ==> o.game.timeTick == g.tick - g.startTick
    ensures o.game.coolTime == 0 || o.game.coolTime == g.coolTime
    ensures o.game.coolTime == 0 <==> g.coolTime == 0 || g.coolTime < g.tick
    ensures |o.game.belt.notes| == |g.belt.notes|
    ensures o.game.curryCount == g.curryCount && o.game.store == g.store
    ensures g.tick - g.startTick >= MAX_TICK ==> o.game.timeTick == MAX_TICK
  {
    Out(g.(timeTick := Min(g.tick - g.startTick, MAX_TICK),
           coolTime := if g.coolTime < g.tick then 0 else g.coolTime,
           belt := Roll(g.belt)), [])
  }

  /**
    The `main` of the current phase. The title screen's moves the belt and
    nothing else; the end screen has none.
  */
  function Main(g: Game): (o: Out)
    ensures o.game.phase == g.phase || (g.phase == Start && o.game.phase == Play)
    ensures g.phase != Start ==> o.cues == []
    ensures g.phase == Title ==> o.game.belt == Roll(g.belt) && o.game.(belt := g.belt) == g
    ensures g.phase == End ==> o == Out(g, [])
    ensures o.game.lastPhase == g.lastPhase && o.game.tick == g.tick && o.game.store == g.store
  {
    match g.phase
    case Title => Out(g.(belt := Roll(g.belt)), [])
    case Start => StartMain(g)
    case Play => PlayMain(g)
    case End => Out(g, [])
  }

  /**
    One call of `mainLoop` at clock time `now`: `init` first if the phase
    changed since the last frame, then `main`; on the title screen, `draw`
    re-arms the drool timer once it has run out.
  */
  function MainLoop(g: Game, now: int): (o: Out)
    ensures o.game.tick == now && o.game.lastPhase == Some(g.phase)
    ensures o.game.phase == g.phase || (g.phase == Start && o.game.phase == Play)
    ensures Entering(g) ==> o.game.startTick == now
    ensures !Entering(g) ==> o.game.startTick == g.startTick
    ensures o.game.phase == Title ==> o.game.fCount > 0
  {
    var g1 := g.(tick := now);
    var entry := if Entering(g1) then Enter(g1.(lastPhase := Some(g1.phase), startTick := now)) else Out(g1, []);
    var main := Main(entry.game);
    var g2 := main.game;
    var g3 := if g2.phase == Title && g2.fCount == 0 then g2.(fCount := YODARE_DELAY) else g2;
    Out(g3, entry.cues + main.cues)
  }

  /** The position of the note a tap reaches: the first one, from the head, strictly past the eat line. */
  function HitIndex(ns: seq<Note>): (h: Option<nat>)
    ensures h.Some? ==> h.value < |ns| && EAT_X < ns[h.value].x
    ensures h.Some? ==> forall j :: 0 <= j < h.value ==> ns[j].x <= EAT_X
    ensures h.None? ==> forall j :: 0 <= j < |ns| ==> ns[j].x <= EAT_X
  {
    if ns == [] then None
    else if EAT_X < ns[0].x then Some(0)
    else match HitIndex(ns[1..])
      case None => None
      case Some(i) => Some(i + 1)
  }

  /** The note at `i` with its kind changed. */
  function Retype(b: Belt, i: nat, k: Kind): (r: Belt)
    requires i < |b.notes|
    ensures |r.notes| == |b.notes| && r.notes[i] == Note(b.notes[i].x, k)
    ensures forall j :: 0 <= j < |b.notes| && j != i ==> r.notes[j] == b.notes[j]
    ensures r.index == b.index && r.gage == b.gage && r.level == b.level
  {
    b.(notes := b.notes[i := Note(b.notes[i].x, k)])
  }

  /**
    `Fase.PLAY.onTouch`: water is drunk even during a cooldown and cools
    everything down; otherwise a cooldown swallows the tap; an empty reach
    or air is a miss, a Tesro a longer penalty; a curry is eaten (a very hot
    one heats the belt up) and the game ends when the quota is met. An
    eaten plate left on the belt matches no case.
  */
  function Tap(g: Game): (o: Out)
    requires g.phase == Play
    ensures |o.game.belt.notes| == |g.belt.notes|
    ensures forall j :: 0 <= j < |g.belt.notes| ==> o.game.belt.notes[j].x == g.belt.notes[j].x
    ensures forall j :: 0 <= j < |g.belt.notes| && (HitIndex(g.belt.notes).None? || j != HitIndex(g.belt.notes).value) ==>
      o.game.belt.notes[j] == g.belt.notes[j]
    ensures o.game.belt.index == g.belt.index
    ensures o.game.phase == Play || o.game.phase == End
    ensures o.game.curryCount == g.curryCount || o.game.curryCount == g.curryCount - 1
    ensures o.game.tick == g.tick && o.game.lastPhase == g.lastPhase && o.game.store == g.store && o.game.timeTick == g.timeTick
    ensures |o.cues| <= 1
  {
    var ns := g.belt.notes;
    var h := HitIndex(ns);
    if h.Some? && ns[h.value].kind == Water then
      var b := Retype(g.belt, h.value, Air);
      Out(g.(coolTime := 0, belt := b.(gage := 0, level := 0)), [SeWater])
    else if g.coolTime != 0 then
      Out(g, [])
    else if h.None? || ns[h.value].kind == Air then
      Out(g.(coolTime := g.tick + MISS_COOL), [SeMiss])
    else
      var i := h.value;
      match ns[i].kind
      case Tesro =>
        Out(g.(coolTime := g.tick + TESRO_COOL), [SeTesro])
      case Curry =>
        var count := g.curryCount - 1;
        Out(g.(coolTime := 0, belt := Retype(g.belt, i, Empty), curryCount := count,
               phase := if count == 0 then End else g.phase), [SeEat])
      case VeryHot =>
        var b := Retype(g.belt, i, Empty);
        var count := g.curryCount - 1;
        Out(g.(coolTime := 0, belt := b.(gage := HOT_GAGE, level := Min(4, g.belt.level + 1)),
               curryCount := count, phase := if count == 0 then End else g.phase), [SeHot])
      case _ =>
        Out(g, [])
  }

  /** `Fase.TITLE.onTouchEnd`: a release on the title screen starts the countdown. */
  function TitleRelease(g: Game): (o: Out)
    ensures o.cues == [] && o.game.phase == Start
    ensures o.game.(phase := g.phase) == g
  {
    Out(g.(phase := Start), [])
  }

  /** `Fase.END.onTouchEnd`: a release on the end screen returns to the title, but only once the blink timer has run out. */
  function EndRelease(g: Game): (o: Out)
    requires g.phase == End
    ensures o.cues == [] && o.game.(phase := g.phase) == g
    ensures o.game.phase == Title <==> g.fCount == 0
    ensures o.game.phase != Title ==> o.game.phase == g.phase
  {
    if g.fCount != 0 then Out(g, []) else Out(g.(phase := Title), [])
  }

  /** The release handler: the current phase's `onTouchEnd`, which only the title and end screens define. */
  function Release(g: Game): (o: Out)
    ensures o.cues == [] && o.game.(phase := g.phase) == g
    ensures o.game.phase == g.phase || (g.phase == Title && o.game.phase == Start) || (g.phase == End && o.game.phase == Title)
    ensures g.phase == End ==> (o.game.phase == Title <==> g.fCount == 0)
    ensures g.phase == Title ==> o.game.phase == Start
  {
    match g.phase
    case Title => TitleRelease(g)
    case End => EndRelease(g)
    case _ => Out(g, [])
  }

  /** The 500 ms interval: the next animation frame, and `fCount` one lower unless already 0. */
  function Tick(g: Game): (o: Out)
    ensures o.cues == [] && o.game.(animeIndex := g.animeIndex, fCount := g.fCount) == g
    ensures 0 <= o.game.animeIndex < 4
    ensures 0 <= g.animeIndex < 4 ==> o.game.animeIndex != g.animeIndex
    ensures g.fCount > 0 ==> o.game.fCount + 1 == g.fCount
    ensures g.fCount == 0 ==> o.game.fCount == 0
  {
    Out(g.(animeIndex := (g.animeIndex + 1) % 4, fCount := if g.fCount > 0 then g.fCount - 1 else 0), [])
  }

  /** What one event does to the game. Touches go to the current phase's handler; only Play has an `onTouch`. */
  function Next(g: Game, e: Event): (o: Out)
    ensures e.Frame? ==> o.game.tick == e.now && o.game.lastPhase == Some(g.phase)
    ensures !e.Frame? ==> o.game.tick == g.tick && o.game.lastPhase == g.lastPhase
    ensures e.TouchStart? && g.phase != Play ==> o == Out(g, [])
    ensures e.TouchStart? ==> |o.game.belt.notes| == |g.belt.notes| && o.game.store == g.store
    ensures e.TouchEnd? || e.HalfSecond? ==> o.cues == [] && o.game.belt == g.belt
    ensures e.HalfSecond? ==> o.game.phase == g.phase
  {
    match e
    case Frame(now) => MainLoop(g, now)
    case TouchStart => if g.phase == Play then Tap(g) else Out(g, [])
    case TouchEnd => Release(g)
    case HalfSecond => Tick(g)
  }

  /** The state after a sequence of events. */
  function Run(g: Game, es: seq<Event>): Game
    decreases |es|
  {
    if es == [] then g else Run(Next(g, es[0]).game, es[1..])
  }
}
