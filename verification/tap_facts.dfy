/**
  What a tap during play does, case by case, and which note it can reach.
*/
module TapFacts {
  import opened Options
  import opened Settings
  import opened Conveyor
  import opened Game
  import opened GameFacts

  /** The kind of the note a tap reaches, `None` when it reaches nothing. */
  function Reached(g: Game): (k: Option<Kind>)
    ensures k.Some? <==> HitIndex(g.belt.notes).Some?
  {
    match HitIndex(g.belt.notes)
    case None => None
    case Some(i) => Some(g.belt.notes[i].kind)
  }

  /** On a sorted belt a tap can only reach the head note, and reaches it exactly when the head is past the eat line. */
  lemma HeadOnly(ns: seq<Note>)
    requires Sorted(ns)
    ensures HitIndex(ns).Some? ==> HitIndex(ns).value == 0
    ensures HitIndex(ns) == Some(0) <==> 0 < |ns| && EAT_X < ns[0].x
  {
  }

  /**
    Water is drunk whatever the cooldown: the cooldown, the heat gauge and
    the heat level are cleared and the water becomes air; nothing else
    changes.
  */
  lemma TapWater(g: Game)
    requires g.phase == Play && Reached(g) == Some(Water)
    ensures var i := HitIndex(g.belt.notes).value;
      var o := Tap(g);
      && o.cues == [SeWater]
      && o.game.coolTime == 0 && o.game.belt.gage == 0 && o.game.belt.level == 0
      && o.game.belt.notes == g.belt.notes[i := Note(g.belt.notes[i].x, Air)]
      && o.game.belt.index == g.belt.index
      && o.game.(coolTime := g.coolTime, belt := g.belt) == g
  {
  }

  /** During a cooldown every tap that does not reach water is swallowed. */
  lemma TapCooling(g: Game)
    requires g.phase == Play && g.coolTime != 0 && Reached(g) != Some(Water)
    ensures Tap(g) == Out(g, [])
  {
  }

  /** With no cooldown, reaching nothing or air is a miss: a one-second cooldown and nothing else. */
  lemma TapMiss(g: Game)
    requires g.phase == Play && g.coolTime == 0 && (Reached(g).None? || Reached(g) == Some(Air))
    ensures Tap(g) == Out(g.(coolTime := g.tick + MISS_COOL), [SeMiss])
  {
  }

  /** With no cooldown, biting a Tesro costs a two-second cooldown and nothing else. */
  lemma TapTesro(g: Game)
    requires g.phase == Play && g.coolTime == 0 && Reached(g) == Some(Tesro)
    ensures Tap(g) == Out(g.(coolTime := g.tick + TESRO_COOL), [SeTesro])
  {
  }

  /** An eaten plate that reaches the eat line again matches no case: the tap does nothing, not even a miss. */
  lemma TapEmpty(g: Game)
    requires g.phase == Play && g.coolTime == 0 && Reached(g) == Some(Empty)
    ensures Tap(g) == Out(g, [])
  {
  }

  /**
    With no cooldown, a curry is eaten: its plate is left empty, one curry
    less is to go, and the game ends when none is left. A very hot one
    refills the heat gauge to one more than the pattern length and raises
    the heat level by one, up to 4; a plain one leaves the heat alone.
  */
  lemma TapEat(g: Game)
    requires g.phase == Play && g.coolTime == 0 && (Reached(g) == Some(Curry) || Reached(g) == Some(VeryHot))
    ensures var i := HitIndex(g.belt.notes).value;
      var o := Tap(g);
      var hot := g.belt.notes[i].kind == VeryHot;
      && o.cues == (if hot then [SeHot] else [SeEat])
      && o.game.belt.notes == g.belt.notes[i := Note(g.belt.notes[i].x, Empty)]
      && o.game.curryCount == g.curryCount - 1
      && (o.game.phase == End <==> g.curryCount == 1)
      && (o.game.phase != End ==> o.game.phase == Play)
      && o.game.belt.gage == (if hot then HOT_GAGE else g.belt.gage)
      && o.game.belt.level == (if hot then Min(4, g.belt.level + 1) else g.belt.level)
      && o.game.belt.index == g.belt.index
      && o.game.(phase := g.phase, belt := g.belt, curryCount := g.curryCount) == g
  {
    var i := HitIndex(g.belt.notes).value;
    if g.belt.notes[i].kind == VeryHot {
      assert Tap(g).cues == [SeHot];
    } else {
      assert Tap(g).cues == [SeEat];
    }
  }

  /** A tap ends the game exactly when, with no cooldown, it eats the last curry of the quota. */
  lemma PlayToEnd(g: Game)
    requires g.phase == Play
    ensures Tap(g).game.phase == End <==>
      g.coolTime == 0 && (Reached(g) == Some(Curry) || Reached(g) == Some(VeryHot)) && g.curryCount == 1
  {
    if Reached(g) == Some(Curry) || Reached(g) == Some(VeryHot) {
      if g.coolTime == 0 {
        TapEat(g);
      }
    }
  }

  /**
    In a reachable game a tap eats at most one curry, and the count of
    curries to go drops by one exactly when a curry's plate is emptied.
  */
  lemma TapEatsOne(g: Game)
    requires Inv(g) && g.phase == Play
    ensures var o := Tap(g);
      && (o.game.curryCount == g.curryCount - 1 || o.game.curryCount == g.curryCount)
      && (o.game.curryCount == g.curryCount - 1 <==> Eaten(o.game.belt.notes) == Eaten(g.belt.notes) + 1)
  {
    var ns := g.belt.notes;
    var h := HitIndex(ns);
    if h.Some? {
      var i := h.value;
      var k := ns[i].kind;
      if k == Water {
        EatenRetype(ns, i, Air);
      } else if g.coolTime == 0 && (k == Curry || k == VeryHot) {
        EatenRetype(ns, i, Empty);
      }
    }
  }
}
