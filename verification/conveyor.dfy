/**
  The conveyor belt of script.js: the notes (food items) on the table, the
  cyclic spawn pattern, and one frame of movement (`roleNotes`).

  Positions are measured in HALF-PIXELS: every x coordinate of the source is
  doubled, so that the source's fractional advance `1 + hotLevel / 2` becomes
  the integer `2 + hotLevel` and every reachable position is an integer.

  The head of `notes` (index 0) is the most advanced note; new notes are
  appended at the tail, so x never increases from head to tail.
*/
module Conveyor {

  /** One sprite, 16 px. */
  const CHR_SIZE: int := 32
  /** Number of sprite columns on the stage. */
  const TABLE_SIZE: int := 10
  /** Right edge of the stage, 160 px; a note at or past it leaves the belt. */
  const STG_WIDTH: int := TABLE_SIZE * CHR_SIZE
  /** Eat line, STG_WIDTH - 2.5 * CHR_SIZE = 120 px: notes strictly past it can be eaten. */
  const EAT_X: int := STG_WIDTH - 5 * CHR_SIZE / 2
  /** Notes on the belt after a reset. */
  const SEED_COUNT: int := TABLE_SIZE / 2

  /** The note types `Type.EMPTY .. Type.WATER` (codes -1 .. 4). */
  datatype Kind = Empty | Air | Curry | VeryHot | Tesro | Water

  /** The numeric codes of `Type`: -1 for an eaten plate, 0 to 4 for the rest. */
  type TypeCode = c: int | -1 <= c <= 4

  /** The codes the spawn pattern uses: every type but the eaten plate. */
  type SpawnCode = c: int | 0 <= c <= 4

  /** The kind a `Type` code stands for. */
  function KindOfCode(code: TypeCode): Kind {
    match code
    case -1 => Empty
    case 0 => Air
    case 1 => Curry
    case 2 => VeryHot
    case 3 => Tesro
    case _ => Water
  }

  /** The fixed, cyclic spawn pattern `allNotes`, in the rows of eight it is laid out in. */
  const AllNotes: seq<SpawnCode> :=
    [1, 0, 1, 4, 1, 1, 3, 1] +
    [3, 1, 1, 0, 1, 3, 1, 2] +
    [0, 0, 0, 1, 1, 1, 3, 1] +
    [1, 1, 1, 3, 1, 1, 4, 3] +
    [1, 1, 1, 3, 1, 1, 4, 2] +
    [3, 1, 3, 1, 0, 1, 1, 4]

  /** `notesIndex` only ever holds a position in the pattern. */
  type NoteIndex = i: int | 0 <= i < |AllNotes|

  /** `hotLevel` is raised with `Math.min(4, hotLevel + 1)` and otherwise reset to 0. */
  type HotLevel = l: int | 0 <= l <= 4

  datatype Note = Note(x: int, kind: Kind)

  /**
    The belt together with the state that `roleNotes` reads and writes:
    the pattern position `notesIndex` and the heat gauge and level.
  */
  datatype Belt = Belt(notes: seq<Note>, index: NoteIndex, gage: nat, level: HotLevel)

  /** The kind spawned from pattern position `i`. */
  function Spawn(i: NoteIndex): Kind {
    KindOfCode(AllNotes[i])
  }

  /** `newNote`: a note entering at the left edge, one sprite off the stage. */
  function NewNote(kind: Kind): (n: Note)
    ensures n.kind == kind && n.x < 0
    ensures forall l: HotLevel :: n.x + Step(l) < 0
  {
    Note(-CHR_SIZE, kind)
  }

  /** Advance per frame at heat level `level`: 1 + level / 2 px. */
  function Step(level: HotLevel): int {
    2 + level
  }

  /** Notes never get closer to the stage's right edge from head to tail. */
  predicate Sorted(ns: seq<Note>) {
    forall i, j :: 0 <= i < j < |ns| ==> ns[j].x <= ns[i].x
  }

  /** The shape every reachable belt has: sorted, and every note between the spawn point and the right edge. */
  predicate WellFormed(ns: seq<Note>) {
    && Sorted(ns)
    && forall i :: 0 <= i < |ns| ==> -CHR_SIZE <= ns[i].x <= STG_WIDTH
  }

  /**
    The notes left by the first `i` rounds of `resetNotes`' loop, each of
    which puts an `Air` note at `i * CHR_SIZE * 2` in FRONT of the belt.
  */
  function Seed(i: nat): (ns: seq<Note>)
    ensures |ns| == i
    ensures forall j :: 0 <= j < i ==> ns[j] == Note(2 * CHR_SIZE * (i - 1 - j), Air)
  {
    if i == 0 then [] else [Note((i - 1) * CHR_SIZE * 2, Air)] + Seed(i - 1)
  }

  /** `resetNotes`: five evenly spaced `Air` notes, pattern restarted; heat state untouched. */
  function ResetNotes(b: Belt): (r: Belt)
    ensures |r.notes| == SEED_COUNT && WellFormed(r.notes)
    ensures forall j :: 0 <= j < |r.notes| ==> r.notes[j].kind == Air && r.notes[j].x % (2 * CHR_SIZE) == 0
    ensures r.notes[0].x == 2 * CHR_SIZE * (SEED_COUNT - 1) && r.notes[SEED_COUNT - 1].x == 0
    ensures r.index == 0 && r.gage == b.gage && r.level == b.level
  {
    Belt(Seed(SEED_COUNT), 0, b.gage, b.level)
  }

  /** `Math.ceil` on a pixel position, in half-pixels: the next whole pixel at or above. */
  function CeilHalf(x: int): int {
    if x % 2 == 0 then x else x + 1
  }

  /** The loop of `Fase.END.init` that snaps every note to a whole pixel. */
  function CeilNotes(ns: seq<Note>): (r: seq<Note>)
    ensures |r| == |ns|
    ensures forall j :: 0 <= j < |ns| ==>
      && r[j].kind == ns[j].kind
      && r[j].x % 2 == 0
      && ns[j].x <= r[j].x <= ns[j].x + 1
    ensures WellFormed(ns) ==> WellFormed(r)
  {
    seq(|ns|, j requires 0 <= j < |ns| => Note(CeilHalf(ns[j].x), ns[j].kind))
  }

  /**
    What `roleNotes`' first loop has done after visiting some notes: the
    visited notes as moved, the kinds it appended, and the pattern and heat
    state as they now stand.
  */
  datatype Pass = Pass(moved: seq<Note>, spawned: seq<Kind>, index: NoteIndex, gage: nat, level: HotLevel)

  /**
    One round of `roleNotes`' first loop: move the note at the current heat
    level; if it reached the right edge, advance the pattern, append the next
    kind and burn one unit of a positive gauge (an empty gauge cools the belt).
  */
  function Visit(p: Pass, n: Note): Pass
  {
    var x := n.x + Step(p.level);
    if x >= STG_WIDTH then
      var i := (p.index + 1) % |AllNotes|;
      var gage := if p.gage > 0 then p.gage - 1 else p.gage;
      var level := if p.gage > 0 && gage == 0 then 0 else p.level;
      Pass(p.moved + [Note(x, n.kind)], p.spawned + [Spawn(i)], i, gage, level)
    else
      Pass(p.moved + [Note(x, n.kind)], p.spawned, p.index, p.gage, p.level)
  }

  /**
    One round visits exactly one more note, moving it forward; it appends a
    note exactly when the visited one reached the right edge, and then of
    the kind at the pattern position it has just advanced to; it never
    heats the belt up, and a hot belt keeps gauge left.
  */
  lemma VisitSpec(p: Pass, n: Note)
    ensures var r := Visit(p, n);
      && |r.moved| == |p.moved| + 1 && r.moved[..|p.moved|] == p.moved
      && r.moved[|p.moved|].kind == n.kind && r.moved[|p.moved|].x > n.x
      && |p.spawned| <= |r.spawned| <= |p.spawned| + 1 && r.spawned[..|p.spawned|] == p.spawned
      && (|r.spawned| > |p.spawned| <==> r.moved[|p.moved|].x >= STG_WIDTH)
      && (|r.spawned| > |p.spawned| ==> r.index == (p.index + 1) % |AllNotes| && r.spawned[|p.spawned|] == Spawn(r.index))
      && (|r.spawned| == |p.spawned| ==> r.index == p.index && r.gage == p.gage && r.level == p.level)
      && r.gage <= p.gage && (r.level == p.level || r.level == 0)
      && ((p.level > 0 ==> p.gage > 0) ==> (r.level > 0 ==> r.gage > 0))
  {
  }

  /** The first loop of `roleNotes` over the notes `ns` that were on the belt when it started. */
  function Sweep(b: Belt, ns: seq<Note>): (p: Pass)
    ensures |p.moved| == |ns| && |p.spawned| <= |ns|
    decreases |ns|
  {
    if ns == [] then Pass([], [], b.index, b.gage, b.level)
    else Visit(Sweep(b, ns[..|ns| - 1]), ns[|ns| - 1])
  }

  /** Notes of the given kinds, appended at the spawn point and then moved once at `level`. */
  function Fresh(kinds: seq<Kind>, level: HotLevel): seq<Note> {
    seq(|kinds|, t requires 0 <= t < |kinds| => Note(-CHR_SIZE + Step(level), kinds[t]))
  }

  /**
    `roleNotes`: one frame of the belt. The source's `for ... of` loop also
    visits the notes it appends, so each of them moves once in the same frame,
    at the heat level left after the old notes; it cannot reach the right
    edge (see `RoleNotes`). Then as many notes leave the head as were appended.
  */
  function Roll(b: Belt): (r: Belt)
    ensures |r.notes| == |b.notes|
  {
    var p := Sweep(b, b.notes);
    var k := |p.spawned|;
    Belt(p.moved[k..] + Fresh(p.spawned, p.level), p.index, p.gage, p.level)
  }

  /** The first loop's record after `i` rounds: rounds past the original notes visit appended ones. */
  ghost function SweptSoFar(b: Belt, i: nat): (p: Pass)
    ensures |p.moved| == (if i < |b.notes| then i else |b.notes|)
  {
    if i < |b.notes| then Sweep(b, b.notes[..i]) else Sweep(b, b.notes)
  }

  /** Visiting one more original note extends the record by one round. */
  lemma SweepExtends(b: Belt, i: nat)
    requires i < |b.notes|
    ensures SweptSoFar(b, i + 1) == Visit(SweptSoFar(b, i), b.notes[i])
  {
    assert b.notes[..i + 1][..i] == b.notes[..i];
    assert b.notes[..|b.notes|] == b.notes;
  }

  /** Notes of the given kinds, just appended at the spawn point. */
  ghost function Raw(kinds: seq<Kind>): seq<Note> {
    seq(|kinds|, t requires 0 <= t < |kinds| => NewNote(kinds[t]))
  }

  /**
    The sequence `roleNotes`' first loop is walking once it has done `i`
    rounds with record `p`: the visited notes moved, the rest as they were,
    and behind them the notes appended so far, of which the first `i - n`
    have been moved.
  */
  ghost function Walked(b: Belt, i: nat, p: Pass): seq<Note> {
    var n := |b.notes|;
    if i <= n then
      p.moved + b.notes[i..] + Raw(p.spawned)
    else
      var d := if i - n <= |p.spawned| then i - n else |p.spawned|;
      p.moved + Fresh(p.spawned[..d], p.level) + Raw(p.spawned[d..])
  }

  /** A round of the first loop on a note that was on the belt at the start. */
  lemma WalkOld(b: Belt, i: nat, p: Pass)
    requires i < |b.notes| && |p.moved| == i
    ensures var q := Visit(p, b.notes[i]);
      var w := Walked(b, i, p);
      var x := w[i].x + Step(p.level);
      && |w| == |b.notes| + |p.spawned|
      && w[i] == b.notes[i]
      && (x >= STG_WIDTH ==> Walked(b, i + 1, q) == w[i := Note(x, w[i].kind)] + [NewNote(Spawn(q.index))])
      && (x < STG_WIDTH ==> Walked(b, i + 1, q) == w[i := Note(x, w[i].kind)])
  {
    var n := |b.notes|;
    var q := Visit(p, b.notes[i]);
    var w := Walked(b, i, p);
    assert w[i] == b.notes[i];
    var x := w[i].x + Step(p.level);
    var tail := if x >= STG_WIDTH then [NewNote(Spawn(q.index))] else [];
    assert Raw(q.spawned) == Raw(p.spawned) + tail;
    var w' := w[i := Note(x, w[i].kind)] + tail;
    assert x < STG_WIDTH ==> w' == w[i := Note(x, w[i].kind)];
    var v := Walked(b, i + 1, q);
    assert q.moved == p.moved + [Note(x, b.notes[i].kind)];
    forall j | 0 <= j < |v|
      ensures v[j] == w'[j]
    {
      if j < i {
        assert v[j] == p.moved[j] == w[j];
      } else if j == i {
      } else if j < n {
        assert v[j] == b.notes[j] == w[j];
      } else {
        assert v[j] == Raw(q.spawned)[j - n];
      }
    }
  }

  /** A round of the first loop on a note it appended itself: the note moves and stays on the belt. */
  lemma WalkNew(b: Belt, i: nat, p: Pass)
    requires |p.moved| == |b.notes| <= i < |b.notes| + |p.spawned|
    ensures var w := Walked(b, i, p);
      && |w| == |b.notes| + |p.spawned|
      && w[i].x == -CHR_SIZE
      && w[i].x + Step(p.level) < STG_WIDTH
      && Walked(b, i + 1, p) == w[i := Note(w[i].x + Step(p.level), w[i].kind)]
  {
    var n := |b.notes|;
    var w := Walked(b, i, p);
    var v := Walked(b, i + 1, p);
    var w' := w[i := Note(w[i].x + Step(p.level), w[i].kind)];
    assert w[i] == NewNote(p.spawned[i - n]);
    forall j | 0 <= j < |v|
      ensures v[j] == w'[j]
    {
      if j < n {
        assert v[j] == p.moved[j] == w[j];
      } else if j < i {
        assert v[j] == Note(-CHR_SIZE + Step(p.level), p.spawned[j - n]) == w[j];
      } else if j > i {
        assert v[j] == NewNote(p.spawned[j - n]) == w[j];
      }
    }
  }

  /** The record after one more round of the first loop. */
  ghost function NextPass(b: Belt, i: nat, p: Pass): Pass
    requires i < |b.notes| ==> |p.moved| == i
  {
    if i < |b.notes| then Visit(p, b.notes[i]) else p
  }

  /**
    One round of the first loop, whichever note it visits: how the walked
    sequence and the record change, stated in the terms the loop body uses.
  */
  lemma WalkRound(b: Belt, i: nat, p: Pass, before: seq<Note>, x: int, after: seq<Note>)
    requires p == SweptSoFar(b, i) && before == Walked(b, i, p) && i < |before|
    requires x == before[i].x + Step(p.level)
    requires after == if x >= STG_WIDTH
      then before[i := Note(x, before[i].kind)] + [NewNote(Spawn((p.index + 1) % |AllNotes|))]
      else before[i := Note(x, before[i].kind)]
    ensures var q := NextPass(b, i, p);
      && q == SweptSoFar(b, i + 1)
      && after == Walked(b, i + 1, q)
      && |after| == |b.notes| + |q.spawned|
      && (x >= STG_WIDTH ==>
          && q.index == (p.index + 1) % |AllNotes|
          && q.gage == (if p.gage > 0 then p.gage - 1 else p.gage)
          && q.level == (if p.gage > 0 && p.gage - 1 == 0 then 0 else p.level)
          && |q.spawned| == |p.spawned| + 1)
      && (x < STG_WIDTH ==>
          && q.index == p.index && q.gage == p.gage && q.level == p.level
          && |q.spawned| == |p.spawned|)
  {
    if i < |b.notes| {
      assert NextPass(b, i, p) == Visit(p, b.notes[i]);
      WalkOld(b, i, p);
      SweepExtends(b, i);
    } else {
      assert NextPass(b, i, p) == p;
      assert SweptSoFar(b, i + 1) == SweptSoFar(b, i);
      WalkNew(b, i, p);
    }
  }

  /**
    The body of `roleNotes`' first loop: move the note at `i` one step at the
    current heat level; if it reached the right edge, count it, advance the
    pattern, append the next kind and burn one unit of a positive gauge
    (a gauge that runs out cools the belt).
  */
  method MoveNote(ghost b: Belt, i: nat, ghost p: Pass, notes: seq<Note>, index: NoteIndex, gage: nat, level: HotLevel, newCount: nat)
    returns (notes': seq<Note>, index': NoteIndex, gage': nat, level': HotLevel, newCount': nat)
    requires p == SweptSoFar(b, i) && notes == Walked(b, i, p) && i < |notes|
    requires index == p.index && gage == p.gage && level == p.level && newCount == |p.spawned|
    ensures var q := NextPass(b, i, p);
      && q == SweptSoFar(b, i + 1) && notes' == Walked(b, i + 1, q) && |notes'| == |b.notes| + |q.spawned|
      && index' == q.index && gage' == q.gage && level' == q.level && newCount' == |q.spawned|
  {
    notes', index', gage', level', newCount' := notes, index, gage, level, newCount;
    var x := notes'[i].x + Step(level');
    notes' := notes'[i := Note(x, notes'[i].kind)];
    if x >= STG_WIDTH {
      newCount' := newCount' + 1;
      index' := (index' + 1) % |AllNotes|;
      notes' := notes' + [NewNote(Spawn(index'))];
      if gage' > 0 {
        gage' := gage' - 1;
        if gage' == 0 {
          level' := 0;
        }
      }
      WalkRound(b, i, p, notes, x, notes');
    } else {
      WalkRound(b, i, p, notes, x, notes');
    }
  }

  /**
    The first loop of `roleNotes` as written: a walk over a sequence that
    grows while it is being walked, the appended notes included. It ends
    with the old notes moved and the appended ones behind them, moved once each.
  */
  method WalkNotes(b: Belt) returns (notes: seq<Note>, index: NoteIndex, gage: nat, level: HotLevel, newCount: nat)
    ensures var p := Sweep(b, b.notes);
      && notes == p.moved + Fresh(p.spawned, p.level)
      && index == p.index && gage == p.gage && level == p.level && newCount == |p.spawned|
  {
    notes := b.notes;
    index, gage, level := b.index, b.gage, b.level;
    newCount := 0;
    ghost var n := |b.notes|;
    ghost var p := SweptSoFar(b, 0);
    assert b.notes[..0] == [] && b.notes[0..] == b.notes;
    var i := 0;
    while i < |notes|
      invariant i <= |notes| == n + |p.spawned|
      invariant p == SweptSoFar(b, i) && notes == Walked(b, i, p)
      invariant index == p.index && gage == p.gage && level == p.level && newCount == |p.spawned|
      decreases |notes| - i + (if i < n then n - i else 0)
    {
      notes, index, gage, level, newCount := MoveNote(b, i, p, notes, index, gage, level, newCount);
      p := NextPass(b, i, p);
      i := i + 1;
    }
    assert p.spawned[..|p.spawned|] == p.spawned && p.spawned[|p.spawned|..] == [];
  }

  /** The second loop of `roleNotes`: shift `count` notes off the head. */
  method ShiftNotes(notes0: seq<Note>, count: nat) returns (notes: seq<Note>)
    requires count <= |notes0|
    ensures notes == notes0[count..]
  {
    notes := notes0;
    var newCount := count;
    while 0 < newCount
      invariant 0 <= newCount <= count
      invariant notes == notes0[count - newCount..]
    {
      notes := notes[1..];
      newCount := newCount - 1;
    }
  }

  /**
    `roleNotes` as written: the walk of `WalkNotes`, then as many notes
    shifted off the head as were appended.
  */
  method RoleNotes(b: Belt) returns (r: Belt)
    ensures r == Roll(b)
  {
    var notes, index, gage, level, newCount := WalkNotes(b);
    ghost var p := Sweep(b, b.notes);
    assert (p.moved + Fresh(p.spawned, p.level))[newCount..] == p.moved[newCount..] + Fresh(p.spawned, p.level);
    notes := ShiftNotes(notes, newCount);
    r := Belt(notes, index, gage, level);
  }
}
