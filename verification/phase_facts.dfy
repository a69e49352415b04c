/**
  The phase machine of script.js: which phase follows which and on what
  event, what each phase's first frame does, the countdown, the play clock
  and the end screen's wait.
*/
module PhaseFacts {
  import opened Options
  import opened Settings
  import opened Conveyor
  import opened ConveyorFacts
  import opened SaveData
  import opened Game

  /** The only phase changes the game has: title, start, play, end and back to the title. */
  predicate Follows(p: Phase, q: Phase) {
    match p
    case Title => q == Start
    case Start => q == Play
    case Play => q == End
    case End => q == Title
  }

  /** No event skips a phase or goes backwards: it leaves the phase alone or moves it one step on. */
  lemma PhaseChanges(g: Game, e: Event)
    ensures var h := Next(g, e).game;
      h.phase == g.phase || Follows(g.phase, h.phase)
  {
    match e
    case Frame(now) =>
      var g1 := g.(tick := now);
      var entry := if Entering(g1) then Enter(g1.(lastPhase := Some(g1.phase), startTick := now)) else Out(g1, []);
      assert entry.game.phase == g.phase;
    case TouchStart =>
    case TouchEnd =>
    case HalfSecond =>
  }

  /**
    A frame runs the `init` of the phase it finds, and only when that phase
    is new: afterwards that phase is the one last entered, so the next frame
    runs an `init` exactly when this frame's `main` changed the phase. A
    phase's start time is the clock of its first frame.
  */
  lemma FrameEntry(g: Game, now: int)
    ensures var h := MainLoop(g, now).game;
      && h.lastPhase == Some(g.phase)
      && h.tick == now
      && (Entering(h) <==> h.phase != g.phase)
      && (Entering(g) ==> h.startTick == now)
      && (!Entering(g) ==> h.startTick == g.startTick)
  {
    var g1 := g.(tick := now);
    var entry := if Entering(g1) then Enter(g1.(lastPhase := Some(g1.phase), startTick := now)) else Out(g1, []);
    assert entry.game.lastPhase == Some(g.phase) && entry.game.phase == g.phase;
    assert entry.game.tick == now;
    assert Entering(g) ==> entry.game.startTick == now;
  }

  /**
    The first frame of the countdown resets the belt and the quota and shows
    3 with a beep; the countdown cannot end on that frame.
  */
  lemma StartEntry(g: Game, now: int)
    requires g.phase == Start && Entering(g)
    ensures var o := MainLoop(g, now);
      && o.game.phase == Start
      && o.game.count == 3 && o.game.lastCount == 3
      && o.game.curryCount == QUOTA
      && o.game.belt == ResetNotes(g.belt)
      && o.cues == [SeCount]
  {
  }

  /**
    A later frame of the countdown, within three seconds of its start,
    shows the seconds left (3, 2 or 1) and beeps exactly when that number
    changed since the last one shown.
  */
  lemma Countdown(g: Game, now: int)
    requires g.phase == Start && !Entering(g) && g.startTick <= now < g.startTick + 3000
    ensures var o := MainLoop(g, now);
      && o.game.phase == Start
      && 1 <= o.game.count <= 3
      && 3000 - o.game.count * 1000 <= now - g.startTick < 4000 - o.game.count * 1000
      && o.game.lastCount == o.game.count
      && (o.cues == [SeCount] <==> g.lastCount != o.game.count)
      && (o.cues == [] <==> g.lastCount == o.game.count)
  {
    var d := now - g.startTick;
    assert d / 1000 * 1000 <= d < d / 1000 * 1000 + 1000;
  }

  /**
    The countdown hands over to play exactly on a frame at least three
    seconds after its first one, with the start cue.
  */
  lemma StartToPlay(g: Game, now: int)
    requires g.phase == Start
    ensures var o := MainLoop(g, now);
      && (o.game.phase == Play <==> !Entering(g) && now - g.startTick >= 3000)
      && (o.game.phase == Play ==> o.cues == [SeStart])
      && (o.game.phase != Play ==> o.game.phase == Start)
  {
  }

  /** The first frame of play starts the clock from zero and moves the belt once. */
  lemma PlayEntry(g: Game, now: int)
    requires g.phase == Play && Entering(g)
    ensures var o := MainLoop(g, now);
      && o.game.phase == Play
      && o.game.timeTick == 0 && o.game.startTick == now
      && o.game.belt == Roll(g.belt)
      && o.cues == []
  {
  }

  /**
    A later frame of play: the clock shows the time since play began,
    stopped at `MAX_TICK`; a cooldown that has expired is cleared and any
    other is kept; the belt moves once; nothing else changes.
  */
  lemma PlayFrame(g: Game, now: int)
    requires g.phase == Play && !Entering(g)
    ensures var o := MainLoop(g, now);
      var h := o.game;
      && h.phase == Play && o.cues == []
      && h.timeTick <= MAX_TICK
      && (now - g.startTick <= MAX_TICK ==> h.timeTick == now - g.startTick)
      && (now - g.startTick >= MAX_TICK ==> h.timeTick == MAX_TICK)
      && (h.coolTime == 0 <==> g.coolTime == 0 || g.coolTime < now)
      && (h.coolTime != 0 ==> h.coolTime == g.coolTime)
      && h.belt == Roll(g.belt)
      && h.(tick := g.tick, timeTick := g.timeTick, coolTime := g.coolTime, belt := g.belt) == g
  {
  }

  /**
    The first frame of the end screen saves the time as the best one when
    the store holds no best time or a worse one (the store is otherwise left
    as it is), snaps the notes to whole pixels, arms the blink timer and
    plays the end cue.
  */
  lemma EndEntry(g: Game, now: int)
    requires g.phase == End && Entering(g)
    ensures var o := MainLoop(g, now);
      var h := o.game;
      && h.phase == End && o.cues == [SeEnd]
      && (ShouldSave(LoadData(g.store), g.timeTick) ==> Get(LoadData(h.store), TIME_KEY) == Some(g.timeTick))
      && (!ShouldSave(LoadData(g.store), g.timeTick) ==> h.store == g.store)
      && Get(LoadData(h.store), VOLUME_KEY) == Get(LoadData(g.store), VOLUME_KEY)
      && h.belt.notes == CeilNotes(g.belt.notes)
      && h.fCount == END_DELAY
      && h.timeTick == g.timeTick && h.curryCount == g.curryCount
  {
    SaveBestKeepsVolume(g.store, g.timeTick);
  }

  /** The number of half-second ticks among some events. */
  function Halves(es: seq<Event>): (n: nat)
    ensures n <= |es|
  {
    if es == [] then 0 else (if es[0] == HalfSecond then 1 else 0) + Halves(es[1..])
  }

  /** Once entered, the end screen stays put, and only its blink timer moves, while fewer half-seconds pass than the timer holds. */
  lemma EndStep(g: Game, e: Event)
    requires g.phase == End && g.lastPhase == Some(End) && g.fCount > 0
    ensures var h := Next(g, e).game;
      && h.phase == End && h.lastPhase == Some(End)
      && h.fCount + (if e == HalfSecond then 1 else 0) == g.fCount
      && h.store == g.store && h.timeTick == g.timeTick
  {
  }

  /**
    The end screen cannot be left before `END_DELAY` half-seconds have
    passed since it was entered: whatever the frames and touches in
    between, the phase stays `End` while fewer half-second ticks than the
    blink timer holds have come, and the saved record is not touched again.
  */
  lemma {:induction false} EndWaits(g: Game, es: seq<Event>)
    requires g.phase == End && g.lastPhase == Some(End) && Halves(es) < g.fCount
    ensures var h := Run(g, es);
      && h.phase == End
      && h.fCount == g.fCount - Halves(es)
      && h.store == g.store && h.timeTick == g.timeTick
    decreases |es|
  {
    if es != [] {
      EndStep(g, es[0]);
      var g1 := Next(g, es[0]).game;
      assert Halves(es) == (if es[0] == HalfSecond then 1 else 0) + Halves(es[1..]);
      EndWaits(g1, es[1..]);
    }
  }

  /**
    The first frame of the title screen reads the best time from the store
    (`MAX_TICK` when nothing is stored), cools the belt down and clears the
    cooldown.
  */
  lemma TitleEntry(g: Game, now: int)
    requires g.phase == Title && Entering(g)
    ensures var h := MainLoop(g, now).game;
      && h.phase == Title
      && h.fastestTime == Get(LoadData(g.store), TIME_KEY)
      && (g.store.None? ==> h.fastestTime == Some(MAX_TICK))
      && h.belt.level == 0 && h.coolTime == 0
      && h.fCount == YODARE_DELAY
  {
    var g1 := g.(tick := now, lastPhase := Some(Title), startTick := now);
    var b := ResetNotes(g1.belt).(level := 0);
    assert Enter(g1).game.belt == b;
    RollCools(b);
  }

  /**
    A title frame after the entry frame only moves the belt and, through the
    title's `draw`, re-arms a run-out drool timer; no cue plays and nothing
    else but the clock changes.
  */
  lemma TitleFrame(g: Game, now: int)
    requires g.phase == Title && g.lastPhase == Some(Title)
    ensures var o := Next(g, Frame(now));
      var h := o.game;
      && h.phase == Title && o.cues == []
      && h.belt == Roll(g.belt)
      && h.fCount == (if g.fCount == 0 then YODARE_DELAY else g.fCount)
      && h.(tick := g.tick, belt := g.belt, fCount := g.fCount) == g
  {
  }

  /** On the title screen the drool timer never stays run out: after every frame it is armed again. */
  lemma TitleRearms(g: Game, now: int)
    requires g.phase == Title
    ensures MainLoop(g, now).game.phase == Title
    ensures MainLoop(g, now).game.fCount > 0
  {
  }

  /** `n` half-second ticks in a row. */
  function HalfSeconds(n: nat): (es: seq<Event>)
    ensures |es| == n && Halves(es) == n
  {
    if n == 0 then [] else [HalfSecond] + HalfSeconds(n - 1)
  }

  /**
    Over `n` half-second ticks in a row the animation frame goes `n` steps
    round its cycle of four and the blink timer counts down by `n`, stopping
    at 0; nothing else changes, whatever the phase.
  */
  lemma {:induction false} Ticks(g: Game, n: nat)
    ensures var h := Run(g, HalfSeconds(n));
      && h.animeIndex % 4 == (g.animeIndex + n) % 4
      && h.fCount == (if n == 0 then g.fCount else Max(0, g.fCount - n))
      && h.(animeIndex := g.animeIndex, fCount := g.fCount) == g
    decreases n
  {
    if n > 0 {
      var g1 := Tick(g).game;
      assert HalfSeconds(n)[0] == HalfSecond && HalfSeconds(n)[1..] == HalfSeconds(n - 1);
      assert Run(g, HalfSeconds(n)) == Run(g1, HalfSeconds(n - 1));
      Ticks(g1, n - 1);
    }
  }

  /** Running two sequences of events one after the other is running their concatenation. */
  lemma {:induction false} RunAppend(g: Game, es: seq<Event>, fs: seq<Event>)
    ensures Run(g, es + fs) == Run(Run(g, es), fs)
    decreases |es|
  {
    if es != [] {
      assert (es + fs)[0] == es[0] && (es + fs)[1..] == es[1..] + fs;
      RunAppend(Next(g, es[0]).game, es[1..], fs);
    } else {
      assert es + fs == fs;
    }
  }

  /**
    Complementing `EndWaits`: once as many half-seconds have passed as the
    blink timer held, a release takes the end screen back to the title.
  */
  lemma EndReleases(g: Game)
    requires g.phase == End
    ensures Run(g, HalfSeconds(g.fCount) + [TouchEnd]).phase == Title
  {
    Ticks(g, g.fCount);
    RunAppend(g, HalfSeconds(g.fCount), [TouchEnd]);
    var h := Run(g, HalfSeconds(g.fCount));
    assert h.phase == End && h.fCount == 0;
    assert Run(h, [TouchEnd]) == Release(h).game;
  }

  /**
    The last bite of the quota switches to the end screen at once, but the
    end screen's `init` (and with it the save) only runs on the next frame.
    With the blink timer run out, as it is after ten seconds of countdown
    and play, a release that comes before that frame takes the game straight
    back to the title screen: the end screen's `init` never runs and the
    time is not saved. With the frame first, it is.
  */
  lemma ReleaseBeforeEndFrame(g: Game, now: int)
    requires g.phase == Play && g.lastPhase == Some(Play) && g.coolTime == 0 && g.curryCount == 1 && g.fCount == 0
    requires HitIndex(g.belt.notes).Some? && g.belt.notes[HitIndex(g.belt.notes).value].kind == Curry
    ensures var h := Run(g, [TouchStart, TouchEnd, Frame(now)]);
      h.phase == Title && h.lastPhase == Some(Title) && h.store == g.store
    ensures var h := Run(g, [TouchStart, Frame(now)]);
      h.phase == End && h.store == SaveBest(g.store, g.timeTick)
  {
    var g1 := Next(g, TouchStart).game;
    assert g1.phase == End && g1.lastPhase == g.lastPhase && g1.store == g.store && g1.fCount == 0;
    var g2 := Next(g1, TouchEnd).game;
    assert g2.phase == Title && g2.store == g.store;
    assert Run(g, [TouchStart, TouchEnd, Frame(now)]) == Run(g2, [Frame(now)]);
    assert Run(g2, [Frame(now)]) == MainLoop(g2, now).game;
    FrameEntry(g2, now);
    TitleRearms(g2, now);
    assert Run(g, [TouchStart, Frame(now)]) == Run(g1, [Frame(now)]);
    assert Run(g1, [Frame(now)]) == MainLoop(g1, now).game;
    assert Entering(g1);
  }
}
