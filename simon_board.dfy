/** The Launchpad MK2 surface as LaunchpadSimon drives it: the 8x8 grid of
    pads (Note On messages), the eight top buttons (Control Change 104-111)
    and the eight right-column buttons (Note On 89, 79, ..., 19), and the
    colour patterns the game paints on them. */
module SimonBoard {
  import opened LaunchpadMidi

  /** A grid pad's note: tens digit = row from the bottom + 1, units digit =
      column + 1 (so 11 is bottom-left, 88 top-right). */
  predicate IsGridNote(n: int)
  {
    11 <= n <= 88 && 1 <= n % 10 <= 8
  }

  /** The column (x) of a grid note. */
  function NoteX(n: int): int
  {
    n % 10 - 1
  }

  /** The row counted from the bottom (the loop variable y of
      InitializePadPositions) of a grid note. */
  function NoteRow(n: int): int
  {
    n / 10 - 1
  }

  /** The note InitializePadPositions computes for column x and row y. */
  function GridNote(x: int, y: int): int
  {
    11 + x + 10 * y
  }

  lemma GridNoteDecode(x: int, y: int)
    requires 0 <= x < 8 && 0 <= y < 8
    ensures IsGridNote(GridNote(x, y))
    ensures NoteX(GridNote(x, y)) == x && NoteRow(GridNote(x, y)) == y
  {
  }

  lemma GridNoteEncode(n: int)
    requires IsGridNote(n)
    ensures 0 <= NoteX(n) < 8 && 0 <= NoteRow(n) < 8
    ensures n == GridNote(NoteX(n), NoteRow(n))
  {
  }

  /** Different cells of the grid have different notes. */
  lemma GridNoteInjective(x: int, y: int, x': int, y': int)
    requires 0 <= x < 8 && 0 <= y < 8 && 0 <= x' < 8 && 0 <= y' < 8
    ensures GridNote(x, y) == GridNote(x', y') <==> x == x' && y == y'
  {
  }

  /** Cell (cx, cy) is handled before iteration (x, y) of nested loops
      `for y, for x` (rows outermost). */
  predicate Before(cx: int, cy: int, x: int, y: int)
  {
    cy < y || (cy == y && cx < x)
  }

  /** `padPositions` when the nested loops of InitializePadPositions are about
      to run iteration (x, y): rows 0 .. y-1 and the first x cells of row y
      are done. Iteration (x, y) stores the screen position (x, 7 - y) of
      note 11 + x + 10y (screen row 0 is the top row). */
  function PadPositionsAt(y: nat, x: nat): map<int, (int, int)>
    decreases y, x
  {
    if x == 0 then (if y == 0 then map[] else PadPositionsAt(y - 1, 8))
    else PadPositionsAt(y, x - 1)[GridNote(x - 1, y) := (x - 1, 7 - y)]
  }

  /** `positionToNote` when the loops are about to run iteration (x, y). */
  function PositionToNoteAt(y: nat, x: nat): map<(int, int), int>
    decreases y, x
  {
    if x == 0 then (if y == 0 then map[] else PositionToNoteAt(y - 1, 8))
    else PositionToNoteAt(y, x - 1)[(x - 1, 7 - y) := GridNote(x - 1, y)]
  }

  /** A finished note -> screen position table: exactly the grid notes,
      note 11 + x + 10y at (x, 7 - y). */
  ghost predicate IsPadTable(t: map<int, (int, int)>)
  {
    (forall n :: n in t <==> IsGridNote(n)) &&
    (forall n :: n in t ==> t[n] == (NoteX(n), 7 - NoteRow(n)))
  }

  /** A finished screen position -> note table: exactly the on-screen
      positions, (x, y) with note 11 + x + 10(7 - y). */
  ghost predicate IsPositionTable(t: map<(int, int), int>)
  {
    (forall p: (int, int) :: p in t <==> 0 <= p.0 < 8 && 0 <= p.1 < 8) &&
    (forall p :: p in t ==> t[p] == GridNote(p.0, 7 - p.1))
  }

  /** A pad's entries are present exactly once its iteration has run, and
      they hold the pad's note and screen position. */
  lemma {:induction false} PadTablesCell(y: nat, x: nat, cx: int, cy: int)
    requires x <= 8 && 0 <= cx < 8 && 0 <= cy < 8
    ensures GridNote(cx, cy) in PadPositionsAt(y, x) <==> Before(cx, cy, x, y)
    ensures GridNote(cx, cy) in PadPositionsAt(y, x) ==> PadPositionsAt(y, x)[GridNote(cx, cy)] == (cx, 7 - cy)
    ensures (cx, 7 - cy) in PositionToNoteAt(y, x) <==> Before(cx, cy, x, y)
    ensures (cx, 7 - cy) in PositionToNoteAt(y, x) ==> PositionToNoteAt(y, x)[(cx, 7 - cy)] == GridNote(cx, cy)
    decreases y, x
  {
    if x == 0 {
      if y > 0 {
        PadTablesCell(y - 1, 8, cx, cy);
      }
    } else {
      PadTablesCell(y, x - 1, cx, cy);
    }
  }

  /** The tables only ever hold grid notes and on-screen positions. */
  lemma {:induction false} PadTablesKeys(y: nat, x: nat)
    requires (y < 8 && x <= 8) || (y == 8 && x == 0)
    ensures forall n :: n in PadPositionsAt(y, x) ==> IsGridNote(n)
    ensures forall p :: p in PositionToNoteAt(y, x) ==> 0 <= p.0 < 8 && 0 <= p.1 < 8
    decreases y, x
  {
    if x == 0 {
      if y > 0 {
        PadTablesKeys(y - 1, 8);
      }
    } else {
      PadTablesKeys(y, x - 1);
      GridNoteDecode(x - 1, y);
    }
  }

  /** Iteration (x, y) adds keys that are not there yet, so Dictionary.Add
      never throws. */
  lemma PadTablesFresh(y: nat, x: nat)
    requires x < 8 && y < 8
    ensures GridNote(x, y) !in PadPositionsAt(y, x)
    ensures (x, 7 - y) !in PositionToNoteAt(y, x)
  {
    PadTablesCell(y, x, x, y);
  }

  /** Each iteration adds one entry to each table. */
  lemma {:induction false} PadTablesSize(y: nat, x: nat)
    requires (y < 8 && x <= 8) || (y == 8 && x == 0)
    ensures |PadPositionsAt(y, x)| == 8 * y + x && |PositionToNoteAt(y, x)| == 8 * y + x
    decreases y, x
  {
    if x == 0 {
      if y > 0 {
        PadTablesSize(y - 1, 8);
      }
    } else {
      PadTablesSize(y, x - 1);
      PadTablesFresh(y, x - 1);
    }
  }

  /** When the outer loop ends (y = 8) the tables are finished and hold 64
      entries each. */
  lemma PadTablesDone(y: nat)
    requires y == 8
    ensures IsPadTable(PadPositionsAt(y, 0)) && IsPositionTable(PositionToNoteAt(y, 0))
    ensures |PadPositionsAt(y, 0)| == 64 && |PositionToNoteAt(y, 0)| == 64
  {
    PadTablesKeys(y, 0);
    PadTablesSize(y, 0);
    forall n | IsGridNote(n)
      ensures n in PadPositionsAt(y, 0) && PadPositionsAt(y, 0)[n] == (NoteX(n), 7 - NoteRow(n))
    {
      GridNoteEncode(n);
      PadTablesCell(y, 0, NoteX(n), NoteRow(n));
    }
    forall p: (int, int) | 0 <= p.0 < 8 && 0 <= p.1 < 8
      ensures p in PositionToNoteAt(y, 0) && PositionToNoteAt(y, 0)[p] == GridNote(p.0, 7 - p.1)
    {
      PadTablesCell(y, 0, p.0, 7 - p.1);
    }
  }

  /** The two finished tables are each other's inverse. */
  lemma PadMappingInverse(pads: map<int, (int, int)>, positions: map<(int, int), int>)
    requires IsPadTable(pads) && IsPositionTable(positions)
    ensures forall n :: n in pads ==> pads[n] in positions && positions[pads[n]] == n
    ensures forall p :: p in positions ==> positions[p] in pads && pads[positions[p]] == p
  {
    forall n | n in pads
      ensures pads[n] in positions && positions[pads[n]] == n
    {
      GridNoteEncode(n);
    }
    forall p | p in positions
      ensures positions[p] in pads && pads[positions[p]] == p
    {
      GridNoteDecode(p.0, 7 - p.1);
    }
  }

  /** The last colour shown by each note (pads and right-column buttons) and
      each control (top buttons). */
  datatype Leds = Leds(notes: map<int, int>, controls: map<int, int>)

  /** SendColorToLaunchpad(note, colour) on a connected device. */
  function SendNote(l: Leds, note: int, colour: Byte): Leds
  {
    l.(notes := l.notes[ToByte(note) := colour])
  }

  /** SendControlChange(control, value) on a connected device. */
  function SendControl(l: Leds, control: int, value: Byte): Leds
  {
    l.(controls := l.controls[ToByte(control) := value])
  }

  /** SetPixel(x, y, colour) on a connected device: the pad drawn at (x, y)
      is note 11 + x + 10(7 - y) (what a lookup in a finished
      `positionToNote` finds, see IsPositionTable); off-screen positions send nothing. */
  function SetPixel(l: Leds, x: int, y: int, colour: int): Leds
  {
    if 0 <= x < 8 && 0 <= y < 8 then SendNote(l, GridNote(x, 7 - y), ToByte(colour)) else l
  }

  /** The state of a painting loop `for y < 8, for x < 8: SetPixel(x, y, c)`
      when it is about to run iteration (x, y). */
  function PaintAt(l: Leds, y: nat, x: nat, colour: int): Leds
    decreases y, x, l
  {
    if x == 0 then (if y == 0 then l else PaintAt(l, y - 1, 8, colour))
    else SetPixel(PaintAt(l, y, x - 1, colour), x - 1, y, colour)
  }

  /** The 64 notes of the grid. */
  function GridNotes(): set<int>
  {
    set n | 11 <= n <= 88 && IsGridNote(n)
  }

  /** What a whole painting loop (ResetMainGridLEDs, AfficherMenuPrincipal
      and the fills of the animations) shows: every grid pad in the colour,
      every other note and every control as before. */
  function FillGrid(l: Leds, colour: int): Leds
  {
    l.(notes := map n | n in l.notes.Keys + GridNotes() :: if IsGridNote(n) then ToByte(colour) else l.notes[n])
  }

  /** A pad drawn at (cx, cy) shows the colour once its iteration has run,
      and its old colour before. */
  lemma {:induction false} PaintCell(l: Leds, y: nat, x: nat, colour: int, cx: int, cy: int)
    requires x <= 8
    requires 0 <= cx < 8 && 0 <= cy < 8
    ensures PaintAt(l, y, x, colour).controls == l.controls
    ensures Before(cx, cy, x, y) ==>
              GridNote(cx, 7 - cy) in PaintAt(l, y, x, colour).notes &&
              PaintAt(l, y, x, colour).notes[GridNote(cx, 7 - cy)] == ToByte(colour)
    ensures !Before(cx, cy, x, y) ==>
              (GridNote(cx, 7 - cy) in PaintAt(l, y, x, colour).notes <==> GridNote(cx, 7 - cy) in l.notes) &&
              (GridNote(cx, 7 - cy) in l.notes ==> PaintAt(l, y, x, colour).notes[GridNote(cx, 7 - cy)] == l.notes[GridNote(cx, 7 - cy)])
    decreases y, x
  {
    if x == 0 {
      if y > 0 {
        PaintCell(l, y - 1, 8, colour, cx, cy);
      }
    } else {
      PaintCell(l, y, x - 1, colour, cx, cy);
      if y < 8 {
        GridNoteInjective(cx, 7 - cy, x - 1, 7 - y);
      }
    }
  }

  /** Painting never touches a note outside the grid. */
  lemma {:induction false} PaintOther(l: Leds, y: nat, x: nat, colour: int, n: int)
    requires x <= 8
    requires !IsGridNote(n)
    ensures PaintAt(l, y, x, colour).controls == l.controls
    ensures n in PaintAt(l, y, x, colour).notes <==> n in l.notes
    ensures n in l.notes ==> PaintAt(l, y, x, colour).notes[n] == l.notes[n]
    decreases y, x
  {
    if x == 0 {
      if y > 0 {
        PaintOther(l, y - 1, 8, colour, n);
      }
    } else {
      PaintOther(l, y, x - 1, colour, n);
      if y < 8 {
        GridNoteDecode(x - 1, 7 - y);
      }
    }
  }

  /** The painting loop, once the outer loop has run all eight rows, shows
      FillGrid. */
  lemma PaintLoopFills(l: Leds, y: nat, colour: int)
    requires y >= 8
    ensures PaintAt(l, y, 0, colour) == FillGrid(l, colour)
  {
    var painted, filled := PaintAt(l, y, 0, colour).notes, FillGrid(l, colour).notes;
    forall n
      ensures n in painted <==> n in filled
      ensures n in painted ==> painted[n] == filled[n]
    {
      if IsGridNote(n) {
        GridNoteEncode(n);
        PaintCell(l, y, 0, colour, NoteX(n), 7 - NoteRow(n));
      } else {
        PaintOther(l, y, 0, colour, n);
      }
    }
    assert painted == filled;
    PaintOther(l, y, 0, colour, 0);
  }

  /** Painting twice leaves only the second colour. */
  lemma FillGridTwice(l: Leds, a: int, b: int)
    ensures FillGrid(FillGrid(l, a), b) == FillGrid(l, b)
  {
    assert FillGrid(FillGrid(l, a), b).notes == FillGrid(l, b).notes;
  }

  /** The first loop of ResetAllLEDs: Note On 0 for notes 0 .. k-1. */
  function ResetNotesBelow(l: Leds, k: nat): Leds
    decreases k, l
  {
    if k == 0 then l else SendNote(ResetNotesBelow(l, k - 1), k - 1, 0)
  }

  /** The second loop: Control Change 0 for controls 0 .. k-1. */
  function ResetControlsBelow(l: Leds, k: nat): Leds
    decreases k, l
  {
    if k == 0 then l else SendControl(ResetControlsBelow(l, k - 1), k - 1, 0)
  }

  /** The third loop `for y < 9, for x < 9: Note On 0 for note 16y + x` when it
      is about to run iteration (x, y). */
  function ResetSquareAt(l: Leds, y: nat, x: nat): Leds
    decreases y, x, l
  {
    if x == 0 then (if y == 0 then l else ResetSquareAt(l, y - 1, 9))
    else SendNote(ResetSquareAt(l, y, x - 1), 16 * y + x - 1, 0)
  }

  /** The three loops of ResetAllLEDs on a connected device. */
  function ResetLoops(l: Leds): Leds
  {
    ResetSquareAt(ResetControlsBelow(ResetNotesBelow(l, 128), 128), 9, 0)
  }

  /** The notes ResetAllLEDs switches off: 0-127 from its first loop and
      128-136 from the last row of its third loop. */
  predicate IsClearedNote(n: int)
  {
    0 <= n < 137
  }

  /** The controls ResetAllLEDs switches off. */
  predicate IsClearedControl(c: int)
  {
    0 <= c < 128
  }

  /** What ResetAllLEDs shows: the cleared notes and controls dark, the rest
      as before. */
  function ResetAll(l: Leds): Leds
  {
    Leds(map n | n in l.notes.Keys + (set k | 0 <= k < 137 && IsClearedNote(k)) ::
           if IsClearedNote(n) then 0 else l.notes[n],
         map c | c in l.controls.Keys + (set k | 0 <= k < 128 && IsClearedControl(k)) ::
           if IsClearedControl(c) then 0 else l.controls[c])
  }

  /** After the first loop note n is dark when it is one of 0 .. k-1 and
      keeps its colour otherwise. */
  lemma {:induction false} ResetNotesMeaning(l: Leds, k: nat, n: int)
    requires k <= 256
    ensures ResetNotesBelow(l, k).controls == l.controls
    ensures n in ResetNotesBelow(l, k).notes <==> n in l.notes || 0 <= n < k
    ensures n in ResetNotesBelow(l, k).notes ==> ResetNotesBelow(l, k).notes[n] == if 0 <= n < k then 0 else l.notes[n]
  {
    if k > 0 {
      ResetNotesMeaning(l, k - 1, n);
    }
  }

  /** After the second loop control c is dark when it is one of 0 .. k-1 and
      keeps its colour otherwise. */
  lemma {:induction false} ResetControlsMeaning(l: Leds, k: nat, c: int)
    requires k <= 256
    ensures ResetControlsBelow(l, k).notes == l.notes
    ensures c in ResetControlsBelow(l, k).controls <==> c in l.controls || 0 <= c < k
    ensures c in ResetControlsBelow(l, k).controls ==> ResetControlsBelow(l, k).controls[c] == if 0 <= c < k then 0 else l.controls[c]
  {
    if k > 0 {
      ResetControlsMeaning(l, k - 1, c);
    }
  }

  /** The third loop only darkens notes 0-136: every note it touches ends
      at 0, every other note is unchanged, and the controls are untouched. */
  lemma {:induction false} ResetSquareNote(l: Leds, y: nat, x: nat, n: int)
    requires (y < 9 && x <= 9) || (y == 9 && x == 0)
    ensures ResetSquareAt(l, y, x).controls == l.controls
    ensures n in l.notes ==> n in ResetSquareAt(l, y, x).notes
    ensures n in ResetSquareAt(l, y, x).notes ==>
              ResetSquareAt(l, y, x).notes[n] == 0 || (n in l.notes && ResetSquareAt(l, y, x).notes[n] == l.notes[n])
    ensures !(0 <= n < 137) ==> (n in ResetSquareAt(l, y, x).notes <==> n in l.notes)
    ensures !(0 <= n < 137) && n in l.notes ==> ResetSquareAt(l, y, x).notes[n] == l.notes[n]
    decreases y, x
  {
    if x == 0 {
      if y > 0 {
        ResetSquareNote(l, y - 1, 9, n);
      }
    } else {
      ResetSquareNote(l, y, x - 1, n);
    }
  }

  /** Once iteration (cx, cy) of the third loop has run, note 16cy + cx is dark. */
  lemma {:induction false} ResetSquareCell(l: Leds, y: nat, x: nat, cx: int, cy: int)
    requires (y < 9 && x <= 9) || (y == 9 && x == 0)
    requires 0 <= cx < 9 && 0 <= cy < 9 && Before(cx, cy, x, y)
    ensures 16 * cy + cx in ResetSquareAt(l, y, x).notes && ResetSquareAt(l, y, x).notes[16 * cy + cx] == 0
    decreases y, x
  {
    if x == 0 {
      ResetSquareCell(l, y - 1, 9, cx, cy);
    } else if cy != y || cx != x - 1 {
      ResetSquareCell(l, y, x - 1, cx, cy);
    }
  }

  /** After the loops of ResetAllLEDs note n is dark when it is one of
      0-136 and keeps its colour otherwise; control c is dark when it is one
      of 0-127 and keeps its value otherwise. */
  lemma ResetLoopsAt(l: Leds, n: int, c: int)
    ensures n in ResetLoops(l).notes <==> n in l.notes || 0 <= n < 137
    ensures n in ResetLoops(l).notes ==> ResetLoops(l).notes[n] == if 0 <= n < 137 then 0 else l.notes[n]
    ensures c in ResetLoops(l).controls <==> c in l.controls || 0 <= c < 128
    ensures c in ResetLoops(l).controls ==> ResetLoops(l).controls[c] == if 0 <= c < 128 then 0 else l.controls[c]
  {
    var a := ResetNotesBelow(l, 128);
    var b := ResetControlsBelow(a, 128);
    ResetNotesMeaning(l, 128, n);
    ResetControlsMeaning(a, 128, c);
    ResetSquareNote(b, 9, 0, n);
    if 128 <= n < 137 {
      ResetSquareCell(b, 9, 0, n - 128, 8);
    }
  }

  /** The loops of ResetAllLEDs show exactly ResetAll. */
  lemma ResetLoopsMeaning(l: Leds)
    ensures ResetLoops(l) == ResetAll(l)
  {
    var r := ResetLoops(l);
    forall n
      ensures n in r.notes <==> n in ResetAll(l).notes
      ensures n in r.notes ==> r.notes[n] == ResetAll(l).notes[n]
    {
      ResetLoopsAt(l, n, 0);
    }
    forall c
      ensures c in r.controls <==> c in ResetAll(l).controls
      ensures c in r.controls ==> r.controls[c] == ResetAll(l).controls[c]
    {
      ResetLoopsAt(l, 0, c);
    }
    assert r.notes == ResetAll(l).notes;
    assert r.controls == ResetAll(l).controls;
  }

  /** The top buttons Up, Down, Left, Right, Session, User1, User2, Mixer are
      controls 104-111; button i is the i-th from the left. */
  predicate IsTopButton(c: int)
  {
    104 <= c < 112
  }

  function TopIndex(c: int): int
  {
    c - 104
  }

  /** The right buttons Volume, Pan, SendA, SendB, Stop, Mute, Solo,
      RecordArm are notes 89, 79, ..., 19; button i is the i-th from the top. */
  predicate IsRightButton(n: int)
  {
    19 <= n <= 89 && n % 10 == 9
  }

  function RightIndex(n: int): int
  {
    (89 - n) / 10
  }

  function TopButton(i: int): int
  {
    104 + i
  }

  function RightButton(i: int): int
  {
    89 - 10 * i
  }

  lemma ButtonIndices(i: int)
    requires 0 <= i < 8
    ensures IsTopButton(TopButton(i)) && TopIndex(TopButton(i)) == i
    ensures IsRightButton(RightButton(i)) && RightIndex(RightButton(i)) == i
    ensures !IsGridNote(RightButton(i))
  {
  }

  function Min(a: int, b: int): int
  {
    if a < b then a else b
  }

  /** A loop `for i < count: SendControlChange(top button i, colour)`. */
  function LightTop(l: Leds, count: int, colour: Byte): Leds
    decreases count, l
  {
    if count <= 0 then l else SendControl(LightTop(l, count - 1, colour), TopButton(count - 1), colour)
  }

  /** A loop `for i < count: SendColorToLaunchpad(right button i, colour)`. */
  function LightRight(l: Leds, count: int, colour: Byte): Leds
    decreases count, l
  {
    if count <= 0 then l else SendNote(LightRight(l, count - 1, colour), RightButton(count - 1), colour)
  }

  /** After the loop, control c shows the colour when it is one of the first
      `count` top buttons and is unchanged otherwise; the notes are untouched. */
  lemma {:induction false} LightTopMeaning(l: Leds, count: int, colour: Byte, c: int)
    requires count <= 8
    decreases count
    ensures LightTop(l, count, colour).notes == l.notes
    ensures c in LightTop(l, count, colour).controls <==> c in l.controls || (IsTopButton(c) && TopIndex(c) < count)
    ensures c in LightTop(l, count, colour).controls ==>
              LightTop(l, count, colour).controls[c] == if IsTopButton(c) && TopIndex(c) < count then colour else l.controls[c]
  {
    if count > 0 {
      LightTopMeaning(l, count - 1, colour, c);
    }
  }

  /** After the loop, note n shows the colour when it is one of the first
      `count` right buttons and is unchanged otherwise; the controls are
      untouched. */
  lemma {:induction false} LightRightMeaning(l: Leds, count: int, colour: Byte, n: int)
    requires count <= 8
    decreases count
    ensures LightRight(l, count, colour).controls == l.controls
    ensures n in LightRight(l, count, colour).notes <==> n in l.notes || (IsRightButton(n) && RightIndex(n) < count)
    ensures n in LightRight(l, count, colour).notes ==>
              LightRight(l, count, colour).notes[n] == if IsRightButton(n) && RightIndex(n) < count then colour else l.notes[n]
  {
    if count > 0 {
      LightRightMeaning(l, count - 1, colour, n);
      ButtonIndices(count - 1);
      if IsRightButton(n) && RightIndex(n) == count - 1 {
        assert n == RightButton(count - 1);
      }
    }
  }

  /** Colour of top button i in the level display: green (87) for completed
      levels, amber (96) for the remaining levels of the game, dark beyond. */
  function TopColour(i: int, niveau: int, maxSteps: int): int
  {
    if i < niveau - 1 then 87 else if i < maxSteps then 96 else 0
  }

  /** Colour of right button i: levels 9 to 16 continue on the right column. */
  function RightColour(i: int, niveau: int, maxSteps: int): int
  {
    if i < niveau - 1 - 8 then 87 else if i < maxSteps - 8 then 96 else 0
  }

  /** The six loops of AfficherProgressionNiveaux on a connected device: all
      sixteen buttons off, amber for the game's length, green for the
      completed levels (niveau - 1), the top row first and the right column
      for levels beyond eight. */
  function ProgressLoops(l: Leds, niveau: int, maxSteps: int): Leds
  {
    var off := LightRight(LightTop(l, 8, 0), 8, 0);
    var amber := LightTop(off, Min(maxSteps, 8), 96);
    var amber' := if maxSteps > 8 then LightRight(amber, Min(maxSteps - 8, 8), 96) else amber;
    var done := niveau - 1;
    var green := LightTop(amber', Min(done, 8), 87);
    if done > 8 then LightRight(green, Min(done - 8, 8), 87) else green
  }

  /** The level display: every top and right button in its TopColour /
      RightColour, every other note and control as before. */
  function Progress(l: Leds, niveau: int, maxSteps: int): Leds
  {
    Leds(map n | n in l.notes.Keys + (set k | 19 <= k <= 89 && IsRightButton(k)) ::
           if IsRightButton(n) then RightColour(RightIndex(n), niveau, maxSteps) else l.notes[n],
         map c | c in l.controls.Keys + (set k | 104 <= k < 112 && IsTopButton(k)) ::
           if IsTopButton(c) then TopColour(TopIndex(c), niveau, maxSteps) else l.controls[c])
  }

  /** Top button i shows green when level i + 1 is completed, amber when it
      is a level of the game still to play, dark otherwise; every other
      control keeps its colour. */
  lemma ProgressLoopsControl(l: Leds, niveau: int, maxSteps: int, c: int)
    ensures IsTopButton(c) ==>
              c in ProgressLoops(l, niveau, maxSteps).controls &&
              ProgressLoops(l, niveau, maxSteps).controls[c] == TopColour(TopIndex(c), niveau, maxSteps)
    ensures !IsTopButton(c) ==> (c in ProgressLoops(l, niveau, maxSteps).controls <==> c in l.controls)
    ensures !IsTopButton(c) && c in l.controls ==> ProgressLoops(l, niveau, maxSteps).controls[c] == l.controls[c]
  {
    var offTop := LightTop(l, 8, 0);
    LightTopMeaning(l, 8, 0, c);
    var off := LightRight(offTop, 8, 0);
    LightRightMeaning(offTop, 8, 0, 0);
    var amber := LightTop(off, Min(maxSteps, 8), 96);
    LightTopMeaning(off, Min(maxSteps, 8), 96, c);
    LightRightMeaning(amber, Min(maxSteps - 8, 8), 96, 0);
    var amber' := if maxSteps > 8 then LightRight(amber, Min(maxSteps - 8, 8), 96) else amber;
    var green := LightTop(amber', Min(niveau - 1, 8), 87);
    LightTopMeaning(amber', Min(niveau - 1, 8), 87, c);
    LightRightMeaning(green, Min(niveau - 1 - 8, 8), 87, 0);
  }

  /** Right button i shows green when level i + 9 is completed, amber when it
      is a level of the game still to play, dark otherwise; every other note
      keeps its colour. */
  lemma ProgressLoopsNote(l: Leds, niveau: int, maxSteps: int, n: int)
    ensures IsRightButton(n) ==>
              n in ProgressLoops(l, niveau, maxSteps).notes &&
              ProgressLoops(l, niveau, maxSteps).notes[n] == RightColour(RightIndex(n), niveau, maxSteps)
    ensures !IsRightButton(n) ==> (n in ProgressLoops(l, niveau, maxSteps).notes <==> n in l.notes)
    ensures !IsRightButton(n) && n in l.notes ==> ProgressLoops(l, niveau, maxSteps).notes[n] == l.notes[n]
  {
    var offTop := LightTop(l, 8, 0);
    LightTopMeaning(l, 8, 0, 0);
    var off := LightRight(offTop, 8, 0);
    LightRightMeaning(offTop, 8, 0, n);
    var amber := LightTop(off, Min(maxSteps, 8), 96);
    LightTopMeaning(off, Min(maxSteps, 8), 96, 0);
    LightRightMeaning(amber, Min(maxSteps - 8, 8), 96, n);
    var amber' := if maxSteps > 8 then LightRight(amber, Min(maxSteps - 8, 8), 96) else amber;
    var green := LightTop(amber', Min(niveau - 1, 8), 87);
    LightTopMeaning(amber', Min(niveau - 1, 8), 87, 0);
    LightRightMeaning(green, Min(niveau - 1 - 8, 8), 87, n);
  }

  /** The loops of AfficherProgressionNiveaux show exactly Progress. */
  lemma ProgressLoopsMeaning(l: Leds, niveau: int, maxSteps: int)
    ensures ProgressLoops(l, niveau, maxSteps) == Progress(l, niveau, maxSteps)
  {
    var r, p := ProgressLoops(l, niveau, maxSteps), Progress(l, niveau, maxSteps);
    forall n
      ensures n in r.notes <==> n in p.notes
      ensures n in r.notes ==> r.notes[n] == p.notes[n]
    {
      ProgressLoopsNote(l, niveau, maxSteps, n);
    }
    forall c
      ensures c in r.controls <==> c in p.controls
      ensures c in r.controls ==> r.controls[c] == p.controls[c]
    {
      ProgressLoopsControl(l, niveau, maxSteps, c);
    }
    assert r.notes == p.notes;
    assert r.controls == p.controls;
  }

  /** AfficherToutesEtapesCompletees on a connected device: a green button
      for every level of the game. */
  function AllStepsDone(l: Leds, maxSteps: int): Leds
  {
    var top := LightTop(l, Min(maxSteps, 8), 87);
    if maxSteps > 8 then LightRight(top, Min(maxSteps - 8, 8), 87) else top
  }

  /** After AfficherToutesEtapesCompletees, top button i is green when
      i < maxSteps and right button i when i + 8 < maxSteps; every other note
      and control keeps its colour. */
  lemma AllStepsDoneAt(l: Leds, maxSteps: int, n: int, c: int)
    ensures c in AllStepsDone(l, maxSteps).controls <==> c in l.controls || (IsTopButton(c) && TopIndex(c) < maxSteps)
    ensures c in AllStepsDone(l, maxSteps).controls ==>
              AllStepsDone(l, maxSteps).controls[c] == if IsTopButton(c) && TopIndex(c) < maxSteps then 87 else l.controls[c]
    ensures n in AllStepsDone(l, maxSteps).notes <==> n in l.notes || (IsRightButton(n) && RightIndex(n) + 8 < maxSteps)
    ensures n in AllStepsDone(l, maxSteps).notes ==>
              AllStepsDone(l, maxSteps).notes[n] == if IsRightButton(n) && RightIndex(n) + 8 < maxSteps then 87 else l.notes[n]
  {
    var top := LightTop(l, Min(maxSteps, 8), 87);
    LightTopMeaning(l, Min(maxSteps, 8), 87, c);
    LightRightMeaning(top, Min(maxSteps - 8, 8), 87, n);
  }

  /** The four centre pads, lit green as START buttons by AfficherBoutonsStart. */
  function ShowStart(l: Leds): Leds
  {
    SetPixel(SetPixel(SetPixel(SetPixel(l, 3, 3, 21), 4, 3, 21), 3, 4, 21), 4, 4, 21)
  }

  /** A note whose pad is drawn at one of the four centre positions (3 or 4,
      3 or 4): the START buttons of HandleNoteOn. */
  predicate IsStartPad(note: int)
  {
    IsGridNote(note) && 3 <= NoteX(note) <= 4 && 3 <= 7 - NoteRow(note) <= 4
  }

  /** IsStartPad is HandleNoteOn's test on the `padPositions` entry. */
  lemma StartPadLookup(pads: map<int, (int, int)>, note: int)
    requires IsPadTable(pads)
    ensures IsStartPad(note) <==>
              note in pads && (pads[note].0 == 3 || pads[note].0 == 4) && (pads[note].1 == 3 || pads[note].1 == 4)
  {
  }

  /** The START pads are notes 44, 45, 54 and 55, and ShowStart lights
      exactly them green, leaving every other note and control as it was. */
  lemma StartPads(l: Leds, note: int)
    ensures IsStartPad(note) <==> note in {44, 45, 54, 55}
    ensures ShowStart(l).controls == l.controls
    ensures note in ShowStart(l).notes <==> note in l.notes || IsStartPad(note)
    ensures note in ShowStart(l).notes ==> ShowStart(l).notes[note] == if IsStartPad(note) then 21 else l.notes[note]
  {
  }

  /** The four corner pads AfficherSequence blinks: (0,0), (7,0), (0,7), (7,7). */
  function BlinkCorners(l: Leds, colour: int): Leds
  {
    SetPixel(SetPixel(SetPixel(SetPixel(l, 0, 0, colour), 7, 0, colour), 0, 7, colour), 7, 7, colour)
  }
}
