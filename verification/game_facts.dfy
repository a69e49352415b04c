/**
  What the phase machine of script.js guarantees: the shape every reachable
  state has, how and when the phase changes, what a frame, a tap and a
  release do, and the countdown and end-screen timings.
*/
module GameFacts {
  import opened Options
  import opened Settings
  import opened Conveyor
  import opened ConveyorFacts
  import opened SaveData
  import opened Game

  /** How many eaten plates are on the belt. */
  function Eaten(ns: seq<Note>): (c: nat)
    ensures c <= |ns|
    ensures c == 0 <== NoneEaten(ns)
  {
    if ns == [] then 0 else (if ns[0].kind == Empty then 1 else 0) + Eaten(ns[1..])
  }

  /** Changing the kind of one note changes the count of eaten plates by what it was and what it becomes. */
  lemma {:induction false} EatenRetype(ns: seq<Note>, i: nat, k: Kind)
    requires i < |ns|
    ensures Eaten(ns[i := Note(ns[i].x, k)]) + (if ns[i].kind == Empty then 1 else 0)
      == Eaten(ns) + (if k == Empty then 1 else 0)
  {
    var ms := ns[i := Note(ns[i].x, k)];
    if i > 0 {
      assert ms[1..] == ns[1..][i - 1 := Note(ns[1..][i - 1].x, k)];
      EatenRetype(ns[1..], i - 1, k);
    } else {
      assert ms[1..] == ns[1..];
    }
  }

  /** Retyping a note leaves every position alone, so the belt keeps its shape. */
  lemma RetypeWellFormed(b: Belt, i: nat, k: Kind)
    requires i < |b.notes| && WellFormed(b.notes)
    ensures WellFormed(Retype(b, i, k).notes)
  {
    var ns := Retype(b, i, k).notes;
    forall j | 0 <= j < |ns|
      ensures ns[j].x == b.notes[j].x
    {
    }
  }

  /**
    The shape of every reachable state. Before the first frame the belt is
    empty and only the title or start screen can be current. The belt is
    always well formed and, once seeded, five notes long. A hot belt always
    has gauge left. The quota count stays between 0 and 100, and Play is
    only ever current, with at least one curry to go, right after Start or
    during Play. Until Play has had its first frame, every curry eaten is
    still on the belt as an eaten plate, which is what keeps the countdown
    frame's quota intact. The end screen is only ever reached with the
    whole quota eaten, and the clock never shows more than `MAX_TICK`.
  */
  predicate Inv(g: Game) {
    && WellFormed(g.belt.notes)
    && (g.lastPhase.None? ==> g.belt.notes == [] && (g.phase == Title || g.phase == Start))
    && (g.lastPhase.Some? ==> |g.belt.notes| == SEED_COUNT)
    && (g.belt.level > 0 ==> g.belt.gage > 0)
    && g.belt.gage <= HOT_GAGE
    && 0 <= g.curryCount <= QUOTA
    && (g.phase == End ==> g.curryCount == 0)
    && g.timeTick <= MAX_TICK
    && (g.phase == Play ==> 1 <= g.curryCount && (g.lastPhase == Some(Start) || g.lastPhase == Some(Play)))
    && (g.lastPhase == Some(Start) ==>
          && (g.phase == Start || g.phase == Play)
          && g.curryCount + Eaten(g.belt.notes) == QUOTA)
    && (g.lastPhase == Some(Start) && g.phase == Start ==> NoneEaten(g.belt.notes))
    && 0 <= g.animeIndex < 4
  }

  lemma BootInv(store: Option<Record>)
    ensures Inv(Boot(store))
  {
  }

  /** A phase's `init`, run on entry, leaves a reachable state. */
  lemma EnterInv(g: Game, now: int)
    requires Inv(g) && Entering(g)
    ensures Inv(Enter(g.(tick := now, lastPhase := Some(g.phase), startTick := now)).game)
  {
    var g0 := g.(tick := now, lastPhase := Some(g.phase), startTick := now);
    var h := Enter(g0).game;
    match g.phase
    case Title =>
    case Start =>
      assert NoneEaten(h.belt.notes);
    case Play =>
    case End =>
  }

  /** A phase's `main`, once the phase has been entered, leaves a reachable state. */
  lemma MainInv(g: Game)
    requires Inv(g) && g.lastPhase == Some(g.phase)
    ensures Inv(Main(g).game)
  {
    match g.phase
    case Title =>
      RollKeepsWellFormed(g.belt);
      RollCools(g.belt);
    case Start =>
    case Play =>
      RollKeepsWellFormed(g.belt);
      RollCools(g.belt);
    case End =>
  }

  /** A frame leaves a reachable state. */
  lemma MainLoopInv(g: Game, now: int)
    requires Inv(g)
    ensures Inv(MainLoop(g, now).game)
  {
    var g1 := g.(tick := now);
    if Entering(g1) {
      EnterInv(g, now);
      MainInv(Enter(g1.(lastPhase := Some(g1.phase), startTick := now)).game);
    } else {
      MainInv(g1);
    }
  }

  /** A tap leaves a reachable state. */
  lemma TapInv(g: Game)
    requires Inv(g) && g.phase == Play
    ensures Inv(Tap(g).game)
  {
    var ns := g.belt.notes;
    var h := HitIndex(ns);
    if h.Some? {
      var i := h.value;
      var k := ns[i].kind;
      if k == Water {
        RetypeWellFormed(g.belt, i, Air);
        EatenRetype(ns, i, Air);
      } else if k == Curry || k == VeryHot {
        RetypeWellFormed(g.belt, i, Empty);
        EatenRetype(ns, i, Empty);
      }
    }
  }

  /** Every event leaves a reachable state. */
  lemma NextInv(g: Game, e: Event)
    requires Inv(g)
    ensures Inv(Next(g, e).game)
  {
    match e
    case Frame(now) => MainLoopInv(g, now);
    case TouchStart =>
      if g.phase == Play {
        TapInv(g);
      }
    case TouchEnd =>
    case HalfSecond =>
  }

  /** Every state the game reaches from the boot state, whatever the events, is reachable in the sense of `Inv`. */
  lemma {:induction false} RunInv(g: Game, es: seq<Event>)
    requires Inv(g)
    ensures Inv(Run(g, es))
    decreases |es|
  {
    if es != [] {
      NextInv(g, es[0]);
      RunInv(Next(g, es[0]).game, es[1..]);
    }
  }
}
