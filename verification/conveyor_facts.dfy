/**
  A closed form of one frame of the belt (`Roll`), for a belt whose notes
  are in the order every reachable belt has (`Sorted`).

  The heat level only ever falls (to 0, when the gauge runs out) and x
  never increases from head to tail, so the notes that reach the right edge
  are a prefix of the belt. The gauge runs out exactly when the note at
  position `gage - 1` leaves at the current level; every note behind it
  then moves at level 0.
*/
module ConveyorFacts {
  import opened Conveyor

  /** The gauge runs out during this frame. */
  predicate Drops(b: Belt) {
    0 < b.gage <= |b.notes| && b.notes[b.gage - 1].x + Step(b.level) >= STG_WIDTH
  }

  /** The heat level at which the note at position `j` is moved. */
  function LevelAt(b: Belt, j: nat): (l: HotLevel)
    ensures l == b.level || l == 0
    ensures j < b.gage ==> l == b.level
  {
    if Drops(b) && j >= b.gage then 0 else b.level
  }

  /** The heat level left once the frame is over. */
  function FinalLevel(b: Belt): (l: HotLevel)
    ensures l == (if Drops(b) then 0 else b.level)
  {
    LevelAt(b, |b.notes|)
  }

  /** The note at position `j`, moved one step at the level it is visited at. */
  function Advanced(b: Belt, j: nat): (n: Note)
    requires j < |b.notes|
    ensures n.kind == b.notes[j].kind && n.x - b.notes[j].x == Step(LevelAt(b, j))
  {
    Note(b.notes[j].x + Step(LevelAt(b, j)), b.notes[j].kind)
  }

  /** Every note of the belt, moved once. */
  function Moved(b: Belt): (ms: seq<Note>)
    ensures |ms| == |b.notes|
    ensures forall j :: 0 <= j < |ms| ==> ms[j] == Advanced(b, j)
  {
    seq(|b.notes|, j requires 0 <= j < |b.notes| => Advanced(b, j))
  }

  /** How many of the first `i` notes reach the right edge once moved. */
  function Leaving(b: Belt, i: nat): (e: nat)
    requires i <= |b.notes|
    ensures e <= i
    decreases i
  {
    if i == 0 then 0 else Leaving(b, i - 1) + (if Advanced(b, i - 1).x >= STG_WIDTH then 1 else 0)
  }

  /** The pattern position `e` steps after `i`, one `(i + 1) % allNotes.length` at a time. */
  function Ahead(i: NoteIndex, e: nat): NoteIndex
    decreases e
  {
    if e == 0 then i else (Ahead(i, e - 1) + 1) % |AllNotes|
  }

  /** Advancing a pattern position once after `a` steps is the same as taking `a + 1` steps. */
  lemma IndexSucc(a: nat)
    ensures (a % |AllNotes| + 1) % |AllNotes| == (a + 1) % |AllNotes|
  {
  }

  /** Stepping `e` times round the pattern lands on `(i + e) % allNotes.length`. */
  lemma {:induction false} AheadIsMod(i: NoteIndex, e: nat)
    ensures Ahead(i, e) == (i + e) % |AllNotes|
    decreases e
  {
    if e > 0 {
      AheadIsMod(i, e - 1);
      IndexSucc(i + e - 1);
    }
  }

  /** The kinds appended when `e` notes leave: the pattern read on from the position after `b.index`. */
  function Spawned(b: Belt, e: nat): (ks: seq<Kind>)
    ensures |ks| == e
    ensures forall t :: 0 <= t < e ==> ks[t] == Spawn(Ahead(b.index, t + 1))
  {
    seq(e, t requires 0 <= t < e => Spawn(Ahead(b.index, t + 1)))
  }

  /** Notes further back move no further forward than the ones ahead of them. */
  lemma AdvancedOrdered(b: Belt, j: nat, k: nat)
    requires Sorted(b.notes) && j <= k < |b.notes|
    ensures Advanced(b, k).x <= Advanced(b, j).x
  {
    assert b.notes[k].x <= b.notes[j].x;
  }

  /**
    Given which of the first `i` notes left (the first `e` of them), the
    level the sweep holds when it visits position `i` is `LevelAt(b, i)`.
  */
  lemma LevelWhenVisiting(b: Belt, i: nat, e: nat)
    requires i <= |b.notes| && e <= i
    requires forall j :: 0 <= j < i ==> (j < e <==> Advanced(b, j).x >= STG_WIDTH)
    ensures (if 0 < b.gage <= e then 0 else b.level) == LevelAt(b, i)
  {
    if 0 < b.gage <= i {
      var a := Advanced(b, b.gage - 1);
      assert a.x >= STG_WIDTH <==> Drops(b);
      assert b.gage - 1 < e <==> a.x >= STG_WIDTH;
    }
  }

  /** A note that leaves finds every note ahead of it gone too. */
  lemma LeaverIsNext(b: Belt, k: nat)
    requires Sorted(b.notes) && k < |b.notes| && Advanced(b, k).x >= STG_WIDTH
    requires forall j :: 0 <= j < k ==> (j < Leaving(b, k) <==> Advanced(b, j).x >= STG_WIDTH)
    ensures Leaving(b, k) == k
  {
    if k > 0 {
      AdvancedOrdered(b, k - 1, k);
    }
  }

  /** On a sorted belt the notes that reach the right edge are a prefix of it. */
  lemma {:induction false} LeaversPrefix(b: Belt, i: nat)
    requires Sorted(b.notes) && i <= |b.notes|
    ensures forall j :: 0 <= j < i ==> (j < Leaving(b, i) <==> Advanced(b, j).x >= STG_WIDTH)
  {
    if i > 0 {
      var k := i - 1;
      LeaversPrefix(b, k);
      if Advanced(b, k).x >= STG_WIDTH {
        LeaverIsNext(b, k);
      }
    }
  }

  /** The moved notes of a sweep record after `i` rounds, in closed form. */
  predicate MovedAs(b: Belt, i: nat, p: Pass)
    requires i <= |b.notes|
  {
    |p.moved| == i && forall j :: 0 <= j < i ==> p.moved[j] == Advanced(b, j)
  }

  /** The pattern and heat state of a sweep record after `e` leavers, in closed form. */
  predicate HeatAs(b: Belt, e: nat, p: Pass) {
    && p.spawned == Spawned(b, e)
    && p.index == Ahead(b.index, e)
    && p.gage == (if b.gage >= e then b.gage - e else 0)
    && p.level == (if 0 < b.gage <= e then 0 else b.level)
  }

  /** One more round moves the next note at the level of its turn. */
  lemma StepMoved(b: Belt, k: nat, p: Pass)
    requires k < |b.notes| && MovedAs(b, k, p) && p.level == LevelAt(b, k)
    ensures MovedAs(b, k + 1, Visit(p, b.notes[k]))
  {
    var q := Visit(p, b.notes[k]);
    assert q.moved == p.moved + [Note(b.notes[k].x + Step(p.level), b.notes[k].kind)];
  }

  /** One more round that sees a note leave advances the pattern and burns the gauge once. */
  lemma StepLeaves(b: Belt, e: nat, p: Pass, n: Note)
    requires HeatAs(b, e, p) && n.x + Step(p.level) >= STG_WIDTH
    ensures HeatAs(b, e + 1, Visit(p, n))
  {
    var q := Visit(p, n);
    assert q.spawned == p.spawned + [Spawn(Ahead(b.index, e + 1))];
  }

  /** One more round that sees the note stay changes no heat state. */
  lemma StepStays(b: Belt, e: nat, p: Pass, n: Note)
    requires HeatAs(b, e, p) && n.x + Step(p.level) < STG_WIDTH
    ensures HeatAs(b, e, Visit(p, n))
  {
  }

  /** What the first loop of `roleNotes` has done after the first `i` notes, in closed form. */
  predicate SweptAs(b: Belt, i: nat, p: Pass)
    requires i <= |b.notes|
  {
    MovedAs(b, i, p) && HeatAs(b, Leaving(b, i), p)
  }

  /** One more round of the sweep keeps it in closed form. */
  lemma SweepStep(b: Belt, k: nat, p: Pass)
    requires k < |b.notes| && SweptAs(b, k, p)
    requires forall j :: 0 <= j < k ==> (j < Leaving(b, k) <==> Advanced(b, j).x >= STG_WIDTH)
    ensures SweptAs(b, k + 1, Visit(p, b.notes[k]))
  {
    var e := Leaving(b, k);
    var q := Visit(p, b.notes[k]);
    LevelWhenVisiting(b, k, e);
    assert p.level == LevelAt(b, k);
    StepMoved(b, k, p);
    if Advanced(b, k).x >= STG_WIDTH {
      assert Leaving(b, k + 1) == e + 1;
      StepLeaves(b, e, p, b.notes[k]);
      assert HeatAs(b, e + 1, q);
    } else {
      assert Leaving(b, k + 1) == e;
      StepStays(b, e, p, b.notes[k]);
      assert HeatAs(b, e, q);
    }
  }

  /**
    The first loop of `roleNotes` after the first `i` notes: each moved at
    the level of its turn, the leavers a prefix, the pattern advanced once
    per leaver, the gauge burnt once per leaver down to 0, and the level
    cooled once the gauge ran out.
  */
  lemma {:induction false} SweepPrefix(b: Belt, i: nat)
    requires Sorted(b.notes) && i <= |b.notes|
    ensures SweptAs(b, i, Sweep(b, b.notes[..i]))
  {
    if i > 0 {
      var k := i - 1;
      SweepPrefix(b, k);
      assert b.notes[..i][..k] == b.notes[..k];
      LeaversPrefix(b, k);
      SweepStep(b, k, Sweep(b, b.notes[..k]));
    }
  }

  /** The gauge runs out in this frame exactly when at least `gage` notes leave. */
  lemma GaugeRunsOut(b: Belt)
    requires Sorted(b.notes)
    ensures Drops(b) <==> 0 < b.gage <= Leaving(b, |b.notes|)
  {
    LeaversPrefix(b, |b.notes|);
    if 0 < b.gage <= |b.notes| {
      assert Advanced(b, b.gage - 1).x == b.notes[b.gage - 1].x + Step(b.level);
    }
  }

  /**
    `roleNotes` in closed form: the notes that reach the right edge are the
    first `e`, those are the ones removed, one pattern kind per leaver is
    appended and moved once at the final level, the pattern position moves
    `e` places on, the gauge loses `e` units down to 0, and the level drops
    to 0 exactly when the gauge runs out.
  */
  lemma RollSpec(b: Belt)
    requires Sorted(b.notes)
    ensures var r := Roll(b);
      var e := Leaving(b, |b.notes|);
      && (forall j :: 0 <= j < |b.notes| ==> (j < e <==> Advanced(b, j).x >= STG_WIDTH))
      && r.notes == Moved(b)[e..] + Fresh(Spawned(b, e), FinalLevel(b))
      && r.index == Ahead(b.index, e)
      && r.gage == (if b.gage >= e then b.gage - e else 0)
      && r.level == FinalLevel(b)
      && (Drops(b) <==> 0 < b.gage <= e)
  {
    var n := |b.notes|;
    SweepPrefix(b, n);
    LeaversPrefix(b, n);
    assert b.notes[..n] == b.notes;
    var e := Leaving(b, n);
    LevelWhenVisiting(b, n, e);
    var p := Sweep(b, b.notes);
    assert p.moved == Moved(b);
    GaugeRunsOut(b);
  }

  /** The notes that stay are sorted, short of the right edge and no further back than the appended ones. */
  lemma KeptInShape(b: Belt)
    requires WellFormed(b.notes)
    ensures var e := Leaving(b, |b.notes|);
      var kept := Moved(b)[e..];
      && Sorted(kept)
      && forall j :: 0 <= j < |kept| ==> -CHR_SIZE + Step(FinalLevel(b)) <= kept[j].x < STG_WIDTH
  {
    var n := |b.notes|;
    var e := Leaving(b, n);
    LeaversPrefix(b, n);
    var kept := Moved(b)[e..];
    forall j | 0 <= j < |kept|
      ensures -CHR_SIZE + Step(FinalLevel(b)) <= kept[j].x < STG_WIDTH
    {
      assert kept[j] == Advanced(b, e + j);
    }
    forall i, j | 0 <= i < j < |kept|
      ensures kept[j].x <= kept[i].x
    {
      assert kept[i] == Advanced(b, e + i) && kept[j] == Advanced(b, e + j);
      AdvancedOrdered(b, e + i, e + j);
    }
  }

  /** A sorted run followed by notes all at one position no further forward stays sorted. */
  lemma SortedJoin(xs: seq<Note>, ys: seq<Note>, c: int)
    requires Sorted(xs)
    requires forall j :: 0 <= j < |xs| ==> c <= xs[j].x
    requires forall j :: 0 <= j < |ys| ==> ys[j].x == c
    ensures Sorted(xs + ys)
  {
    var zs := xs + ys;
    forall i, j | 0 <= i < j < |zs|
      ensures zs[j].x <= zs[i].x
    {
      if j < |xs| {
        assert zs[i] == xs[i] && zs[j] == xs[j];
      } else if i < |xs| {
        assert zs[i] == xs[i] && zs[j] == ys[j - |xs|];
      } else {
        assert zs[i] == ys[i - |xs|] && zs[j] == ys[j - |xs|];
      }
    }
  }

  /** A frame keeps every reachable belt in shape: sorted, and on the stage. */
  lemma RollKeepsWellFormed(b: Belt)
    requires WellFormed(b.notes)
    ensures WellFormed(Roll(b).notes)
  {
    RollSpec(b);
    KeptInShape(b);
    var e := Leaving(b, |b.notes|);
    var fin := FinalLevel(b);
    var kept := Moved(b)[e..];
    var added := Fresh(Spawned(b, e), fin);
    SortedJoin(kept, added, -CHR_SIZE + Step(fin));
    var ns := kept + added;
    forall i | 0 <= i < |ns|
      ensures -CHR_SIZE <= ns[i].x <= STG_WIDTH
    {
      if i < |kept| {
        assert ns[i] == kept[i];
      } else {
        assert ns[i] == added[i - |kept|];
      }
    }
  }

  /** The pattern holds only codes 0 to 4, so it never spawns an eaten plate. */
  lemma SpawnNeverEmpty(i: NoteIndex)
    ensures Spawn(i) != Empty
  {
  }

  /** No note of the belt is an eaten plate. */
  predicate NoneEaten(ns: seq<Note>) {
    forall j :: 0 <= j < |ns| ==> ns[j].kind != Empty
  }

  /** A frame brings no eaten plate onto a belt that had none. */
  lemma RollNoneEaten(b: Belt)
    requires Sorted(b.notes) && NoneEaten(b.notes)
    ensures NoneEaten(Roll(b).notes)
  {
    RollSpec(b);
    var e := Leaving(b, |b.notes|);
    var kept := Moved(b)[e..];
    var added := Fresh(Spawned(b, e), FinalLevel(b));
    var ns := kept + added;
    forall j | 0 <= j < |ns|
      ensures ns[j].kind != Empty
    {
      if j < |kept| {
        assert ns[j] == Advanced(b, e + j);
      } else {
        var t := j - |kept|;
        assert ns[j] == added[t];
        SpawnNeverEmpty(Ahead(b.index, t + 1));
      }
    }
  }

  /**
    A frame burns the gauge and never heats the belt up: the gauge does not
    grow, and a hot belt whose gauge is not empty keeps a non-empty gauge
    for as long as it stays hot.
  */
  lemma RollCools(b: Belt)
    requires Sorted(b.notes)
    ensures Roll(b).gage <= b.gage
    ensures Roll(b).level == b.level || Roll(b).level == 0
    ensures (b.level > 0 ==> b.gage > 0) ==> (Roll(b).level > 0 ==> Roll(b).gage > 0)
  {
    RollSpec(b);
  }

  /** The pattern opens with a curry, an air gap, a curry and a water. */
  lemma PatternStart()
    ensures Spawn(0) == Curry && Spawn(1) == Air && Spawn(2) == Curry && Spawn(3) == Water
  {
  }
}
