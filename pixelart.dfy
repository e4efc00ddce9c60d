/** LaunchpadPixelArt: two fixed 8x8 pictures and their colour palettes drawn
    on a Launchpad MK2 (the grid pads and the right-column buttons). */
module PixelArt {
  import opened LaunchpadMidi
  import opened SimonBoard

  /** The `PixelArtImage` enum. C# lets any int be cast to an enum, so a
      value that is neither Alien (0) nor Ghost (1) is `Unnamed`. */
  datatype PixelArtImage = Alien | Ghost | Unnamed(value: int)

  predicate OnGrid(x: int, y: int)
  {
    0 <= x < 8 && 0 <= y < 8
  }

  /** The note InitializePadMapping stores for the pad drawn at (x, y), where
      screen row y = 0 is the top row. */
  function PadNote(x: int, y: int): (n: int)
    ensures OnGrid(x, y) ==> IsGridNote(n) && NoteX(n) == x && 7 - NoteRow(n) == y
  {
    11 + x + (7 - y) * 10
  }

  /** The screen cell of a grid note: the inverse of PadNote. */
  function Cell(n: int): (c: (int, int))
    requires IsGridNote(n)
    ensures OnGrid(c.0, c.1) && PadNote(c.0, c.1) == n
  {
    GridNoteEncode(n);
    (NoteX(n), 7 - NoteRow(n))
  }

  lemma CellOfPadNote(x: int, y: int)
    requires OnGrid(x, y)
    ensures Cell(PadNote(x, y)) == (x, y)
  {
    GridNoteInjective(x, 7 - y, Cell(PadNote(x, y)).0, 7 - Cell(PadNote(x, y)).1);
  }

  /** The `rightButtons` array: the right-column buttons Volume, Pan, Send A,
      Send B, Stop, Mute, Solo and Record Arm, top to bottom, are notes 89,
      79, 69, 59, 49, 39, 29 and 19. */
  const RightButtonCount := 8

  function RightButtonNote(i: int): (n: Byte)
    requires 0 <= i < RightButtonCount
    ensures n == RightButton(i)
  {
    89 - 10 * i
  }

  /** The first k right-column buttons. */
  function RightNotes(k: int): set<int>
  {
    set j | 0 <= j < k && j < RightButtonCount :: RightButtonNote(j) as int
  }

  lemma RightNotesStep(k: int)
    requires 0 <= k < RightButtonCount
    ensures RightNotes(k + 1) == RightNotes(k) + {RightButtonNote(k) as int}
  {
  }

  /** The first k right-column buttons are the right buttons of index below k. */
  lemma RightNotesMember(n: int, k: int)
    requires 0 <= k <= 8
    ensures n in RightNotes(k) <==> IsRightButton(n) && RightIndex(n) < k
  {
    if n in RightNotes(k) {
      var j :| 0 <= j < k && RightButtonNote(j) as int == n;
      assert RightButtonNote(j) == RightButton(j);
      ButtonIndices(j);
    }
    if IsRightButton(n) && RightIndex(n) < k {
      var j := RightIndex(n);
      assert RightButtonNote(j) as int == n;
    }
  }

  /** The Alien picture, one row of colours per screen row, top row first. */
  const AlienRows: seq<seq<int>> := [
    [ 0,  0,  0, 17, 17,  0,  0,  0],
    [ 0,  0, 25, 25, 25, 25,  0,  0],
    [ 0, 17, 16, 16, 16, 16, 17,  0],
    [ 0,  0,  3, 29, 29,  3,  0,  0],
    [ 0,  0, 37, 29, 29, 37,  0,  0],
    [ 0, 29,  0, 17, 17,  0, 29,  0],
    [16,  0, 29,  0,  0, 29,  0, 16],
    [ 0,  0,  0,  0,  0,  0,  0,  0]]

  /** The Ghost picture, one row of colours per screen row, top row first. */
  const GhostRows: seq<seq<int>> := [
    [ 0,  0,  0,  0,  0,  0,  0,  0],
    [ 0,  0, 41, 41, 41,  0,  0,  0],
    [ 0, 41, 36, 36, 36, 41,  0,  0],
    [ 0, 45,  3, 36,  3, 45,  0,  0],
    [ 0, 45, 45, 45, 45, 45,  0,  0],
    [ 0, 45, 41, 45, 41, 45,  0,  0],
    [ 0, 45, 45, 45, 45, 45,  0,  0],
    [ 0, 45,  0, 45,  0, 45,  0,  0]]

  /** Eight rows of eight colours. */
  predicate IsPicture(rows: seq<seq<int>>)
  {
    |rows| == 8 && forall y :: 0 <= y < 8 ==> |rows[y]| == 8
  }

  /** The picture of an image; an unnamed enum value has the blank picture. */
  function ImageRows(image: PixelArtImage): (rows: seq<seq<int>>)
    ensures IsPicture(rows)
  {
    match image
    case Alien => AlienRows
    case Ghost => GhostRows
    case Unnamed(_) => seq(8, y => seq(8, x => 0))
  }

  /** The colour of cell (x, y) of an image. */
  function ImagePixel(image: PixelArtImage, x: int, y: int): int
    requires OnGrid(x, y)
  {
    ImageRows(image)[y][x]
  }

  /** The colours shown on the right-column buttons for each image: Off,
      white and five greens for the Alien, Off, white and three blues for
      the Ghost, none for any other value. */
  function Palette(image: PixelArtImage): seq<int>
  {
    match image
    case Alien => [0, 3, 16, 17, 25, 29, 37]
    case Ghost => [0, 3, 36, 41, 45]
    case Unnamed(_) => []
  }

  /** The palette is what the images are drawn with: every cell's colour is
      one of its image's palette colours. */
  lemma PaletteCoversImage(image: PixelArtImage, x: int, y: int)
    requires OnGrid(x, y) && !image.Unnamed?
    ensures ImagePixel(image, x, y) in Palette(image)
  {
    var rows := ImageRows(image);
    assert y == 0 || y == 1 || y == 2 || y == 3 || y == 4 || y == 5 || y == 6 || y == 7;
  }

  /** The messages the palette loop has sent after its first k iterations:
      palette colour i on right button i. */
  function PaletteLog(p: seq<int>, k: nat): (r: seq<Message>)
    requires k <= |p| && k <= RightButtonCount
    ensures |r| == k
    ensures forall i :: 0 <= i < k ==> r[i] == NoteOn(RightButtonNote(i), ToByte(p[i]))
  {
    if k == 0 then [] else PaletteLog(p, k - 1) + [NoteOn(RightButtonNote(k - 1), ToByte(p[k - 1]))]
  }

  /** Everything the palette loop sends: min(palette length, 8) writes. */
  function PaletteMessages(p: seq<int>): seq<Message>
  {
    PaletteLog(p, Min(|p|, RightButtonCount))
  }

  /** Seven palette writes for the Alien, five for the Ghost, none otherwise. */
  lemma PaletteWriteCounts(image: PixelArtImage)
    ensures image.Alien? ==> |PaletteMessages(Palette(image))| == 7
    ensures image.Ghost? ==> |PaletteMessages(Palette(image))| == 5
    ensures image.Unnamed? ==> PaletteMessages(Palette(image)) == []
  {
  }

  /** Every note of `targets` switched off, every other note as before. */
  function Cleared(m: map<int, int>, targets: set<int>): (r: map<int, int>)
    ensures r.Keys == m.Keys + targets
    ensures forall n :: n in targets ==> r[n] == 0
    ensures forall n :: n in m && n !in targets ==> r[n] == m[n]
  {
    map n | n in m.Keys + targets :: if n in targets then 0 else m[n]
  }

  /** Switching off one more note. */
  lemma ClearOneMore(m: map<int, int>, targets: set<int>, n: int)
    ensures Cleared(m, targets)[n := 0] == Cleared(m, targets + {n})
  {
  }

  /** The notes a ClearGrid loop has reached after visiting the positions
      `visited` of the pad table. */
  function NotesOf(t: map<(int, int), int>, visited: set<(int, int)>): set<int>
  {
    set p | p in visited && p in t :: t[p]
  }

  lemma NotesOfStep(t: map<(int, int), int>, visited: set<(int, int)>, p: (int, int))
    requires p in t
    ensures NotesOf(t, visited + {p}) == NotesOf(t, visited) + {t[p]}
  {
  }

  lemma NotesOfAll(t: map<(int, int), int>)
    ensures NotesOf(t, t.Keys) == t.Values
  {
  }

  /** Clearing two sets one after the other clears their union. */
  lemma ClearedTwice(m: map<int, int>, a: set<int>, b: set<int>)
    ensures Cleared(Cleared(m, a), b) == Cleared(m, a + b)
  {
  }

  /** The notes when the drawing loop of DisplaySelectedImage is about to
      run iteration (x, y), starting from m: the pads of the cells before
      (x, y) in the image's colours. */
  function DrawnAt(m: map<int, int>, rows: seq<seq<int>>, y: nat, x: nat): map<int, int>
    requires IsPicture(rows) && x <= 8 && y <= 8 && (x == 0 || y < 8)
    decreases y, x, m
  {
    if x == 0 then (if y == 0 then m else DrawnAt(m, rows, y - 1, 8))
    else DrawnAt(m, rows, y, x - 1)[PadNote(x - 1, y) := ToByte(rows[y][x - 1])]
  }

  /** A note's colour while the drawing loop runs: a grid pad whose cell has
      been visited shows the picture, every other note is as before. */
  lemma {:induction false} DrawnAtNote(m: map<int, int>, rows: seq<seq<int>>, y: nat, x: nat, n: int)
    requires IsPicture(rows) && x <= 8 && y <= 8 && (x == 0 || y < 8)
    ensures n in DrawnAt(m, rows, y, x) <==>
              n in m || (IsGridNote(n) && Before(Cell(n).0, Cell(n).1, x, y))
    ensures n in DrawnAt(m, rows, y, x) ==>
              DrawnAt(m, rows, y, x)[n] ==
                if IsGridNote(n) && Before(Cell(n).0, Cell(n).1, x, y)
                then ToByte(rows[Cell(n).1][Cell(n).0]) else m[n]
    decreases y, x
  {
    if x == 0 {
      if y > 0 {
        DrawnAtNote(m, rows, y - 1, 8, n);
      }
    } else {
      DrawnAtNote(m, rows, y, x - 1, n);
      if n == PadNote(x - 1, y) {
        CellOfPadNote(x - 1, y);
      } else if IsGridNote(n) {
        assert Cell(n) != (x - 1, y);
      }
    }
  }

  /** The notes after the first k iterations of the palette loop. */
  function Lit(m: map<int, int>, p: seq<int>, k: nat): map<int, int>
    requires k <= |p| && k <= RightButtonCount
  {
    if k == 0 then m else Lit(m, p, k - 1)[RightButtonNote(k - 1) as int := ToByte(p[k - 1])]
  }

  /** A note's colour after the palette loop: the first k right buttons show
      the palette, every other note is as before. */
  lemma {:induction false} LitNote(m: map<int, int>, p: seq<int>, k: nat, n: int)
    requires k <= |p| && k <= RightButtonCount
    ensures n in Lit(m, p, k) <==> n in m || n in RightNotes(k)
    ensures n in Lit(m, p, k) ==>
              Lit(m, p, k)[n] == if n in RightNotes(k) then ToByte(p[RightIndex(n)]) else m[n]
  {
    if k > 0 {
      LitNote(m, p, k - 1, n);
      assert RightButtonNote(k - 1) == RightButton(k - 1);
      ButtonIndices(k - 1);
      RightNotesStep(k - 1);
      if n in RightNotes(k - 1) {
        var j :| 0 <= j < k - 1 && RightButtonNote(j) as int == n;
        assert RightButtonNote(j) == RightButton(j);
        ButtonIndices(j);
      }
    }
  }

  /** What the LEDs show after a picture and a palette are displayed over m:
      every grid pad in the colour of its cell, right button i in palette
      colour i when the palette has one and off otherwise, every other note
      as before. */
  function Shown(m: map<int, int>, rows: seq<seq<int>>, p: seq<int>): map<int, int>
    requires IsPicture(rows)
  {
    map n | n in m.Keys + GridNotes() + RightNotes(8) ::
      if IsGridNote(n) then ToByte(rows[Cell(n).1][Cell(n).0])
      else if IsRightButton(n) then (if RightIndex(n) < |p| then ToByte(p[RightIndex(n)]) else 0)
      else m[n]
  }

  /** What the LEDs show after DisplaySelectedImage. */
  function ImageShown(m: map<int, int>, image: PixelArtImage): map<int, int>
  {
    Shown(m, ImageRows(image), Palette(image))
  }

  /** After DisplaySelectedImage the grid is the image: the pad drawn at
      (x, y) shows cell (x, y) of the picture. */
  lemma PictureOnGrid(m: map<int, int>, rows: seq<seq<int>>, p: seq<int>, x: int, y: int)
    requires IsPicture(rows) && OnGrid(x, y)
    ensures PadNote(x, y) in Shown(m, rows, p)
    ensures Shown(m, rows, p)[PadNote(x, y)] == ToByte(rows[y][x])
  {
    CellOfPadNote(x, y);
    assert PadNote(x, y) in GridNotes();
  }

  /** ...and the right column shows the palette, then nothing. */
  lemma PaletteOnRightColumn(m: map<int, int>, rows: seq<seq<int>>, p: seq<int>, i: int)
    requires IsPicture(rows) && 0 <= i < RightButtonCount
    ensures RightButtonNote(i) as int in Shown(m, rows, p)
    ensures Shown(m, rows, p)[RightButtonNote(i)] == if i < |p| then ToByte(p[i]) else 0
  {
    ButtonIndices(i);
    RightNotesMember(RightButtonNote(i), 8);
  }

  /** DisplaySelectedImage's three steps (clear, draw every cell, light the
      palette) show Shown. */
  lemma DisplaySteps(m: map<int, int>, rows: seq<seq<int>>, p: seq<int>)
    requires IsPicture(rows)
    ensures Lit(DrawnAt(Cleared(m, GridNotes() + RightNotes(8)), rows, 8, 0), p, Min(|p|, RightButtonCount)) ==
            Shown(m, rows, p)
  {
    var after := Lit(DrawnAt(Cleared(m, GridNotes() + RightNotes(8)), rows, 8, 0), p, Min(|p|, RightButtonCount));
    var shown := Shown(m, rows, p);
    forall n
      ensures n in after <==> n in shown
      ensures n in shown ==> after[n] == shown[n]
    {
      DisplayStepsNote(m, rows, p, n);
    }
  }

  /** One note of DisplaySteps. */
  lemma DisplayStepsNote(m: map<int, int>, rows: seq<seq<int>>, p: seq<int>, n: int)
    requires IsPicture(rows)
    ensures var after := Lit(DrawnAt(Cleared(m, GridNotes() + RightNotes(8)), rows, 8, 0), p, Min(|p|, RightButtonCount));
      (n in after <==> n in Shown(m, rows, p)) &&
      (n in after ==> after[n] == Shown(m, rows, p)[n])
  {
    if IsGridNote(n) {
      DisplayStepsGridNote(m, rows, p, n);
    } else if IsRightButton(n) {
      DisplayStepsRightNote(m, rows, p, n);
    } else {
      DisplayStepsOtherNote(m, rows, p, n);
    }
  }

  lemma DisplayStepsGridNote(m: map<int, int>, rows: seq<seq<int>>, p: seq<int>, n: int)
    requires IsGridNote(n)
    requires IsPicture(rows)
    ensures var after := Lit(DrawnAt(Cleared(m, GridNotes() + RightNotes(8)), rows, 8, 0), p, Min(|p|, RightButtonCount));
      (n in after <==> n in Shown(m, rows, p)) &&
      (n in after ==> after[n] == Shown(m, rows, p)[n])
  {
    var k := Min(|p|, RightButtonCount);
    var cleared := Cleared(m, GridNotes() + RightNotes(8));
    var drawn := DrawnAt(cleared, rows, 8, 0);
    LitNote(drawn, p, k, n);
    DrawnAtNote(cleared, rows, 8, 0, n);
    RightNotesMember(n, k);
    RightNotesMember(n, 8);
    assert n in GridNotes();
  }

  lemma DisplayStepsRightNote(m: map<int, int>, rows: seq<seq<int>>, p: seq<int>, n: int)
    requires IsRightButton(n)
    requires IsPicture(rows)
    ensures var after := Lit(DrawnAt(Cleared(m, GridNotes() + RightNotes(8)), rows, 8, 0), p, Min(|p|, RightButtonCount));
      (n in after <==> n in Shown(m, rows, p)) &&
      (n in after ==> after[n] == Shown(m, rows, p)[n])
  {
    var k := Min(|p|, RightButtonCount);
    var cleared := Cleared(m, GridNotes() + RightNotes(8));
    var drawn := DrawnAt(cleared, rows, 8, 0);
    LitNote(drawn, p, k, n);
    DrawnAtNote(cleared, rows, 8, 0, n);
    RightNotesMember(n, k);
    RightNotesMember(n, 8);
  }

  lemma DisplayStepsOtherNote(m: map<int, int>, rows: seq<seq<int>>, p: seq<int>, n: int)
    requires !IsGridNote(n) && !IsRightButton(n)
    requires IsPicture(rows)
    ensures var after := Lit(DrawnAt(Cleared(m, GridNotes() + RightNotes(8)), rows, 8, 0), p, Min(|p|, RightButtonCount));
      (n in after <==> n in Shown(m, rows, p)) &&
      (n in after ==> after[n] == Shown(m, rows, p)[n])
  {
    var k := Min(|p|, RightButtonCount);
    var cleared := Cleared(m, GridNotes() + RightNotes(8));
    var drawn := DrawnAt(cleared, rows, 8, 0);
    LitNote(drawn, p, k, n);
    DrawnAtNote(cleared, rows, 8, 0, n);
    RightNotesMember(n, k);
    RightNotesMember(n, 8);
    assert n !in GridNotes();
  }

  /** The pad table when InitializePadMapping's loop is about to run
      iteration (x, y), starting from t. */
  function MappedAt(t: map<(int, int), int>, y: nat, x: nat): map<(int, int), int>
    requires x <= 8 && y <= 8 && (x == 0 || y < 8)
    decreases y, x, t
  {
    if x == 0 then (if y == 0 then t else MappedAt(t, y - 1, 8))
    else MappedAt(t, y, x - 1)[(x - 1, y) := PadNote(x - 1, y)]
  }

  /** An entry of the table while InitializePadMapping runs: every visited
      pad holds its note, every other entry is as before. */
  lemma {:induction false} MappedAtEntry(t: map<(int, int), int>, y: nat, x: nat, p: (int, int))
    requires x <= 8 && y <= 8 && (x == 0 || y < 8)
    ensures p in MappedAt(t, y, x) <==> p in t || (OnGrid(p.0, p.1) && Before(p.0, p.1, x, y))
    ensures p in MappedAt(t, y, x) ==>
              MappedAt(t, y, x)[p] ==
                if OnGrid(p.0, p.1) && Before(p.0, p.1, x, y) then PadNote(p.0, p.1) else t[p]
    decreases y, x
  {
    if x == 0 {
      if y > 0 {
        MappedAtEntry(t, y - 1, 8, p);
      }
    } else {
      MappedAtEntry(t, y, x - 1, p);
    }
  }

  /** The pad table InitializePadMapping builds is LaunchpadSimon's
      `positionToNote`: both are finished position tables, and there is only
      one. */
  lemma PadMappingAgrees(padNotes: map<(int, int), int>, positionToNote: map<(int, int), int>)
    requires IsPositionTable(padNotes) && IsPositionTable(positionToNote)
    ensures padNotes == positionToNote
  {
    assert padNotes.Keys == positionToNote.Keys;
  }

  /** Different pads have different notes. */
  lemma PadMappingInjective(padNotes: map<(int, int), int>, p: (int, int), q: (int, int))
    requires IsPositionTable(padNotes) && p in padNotes && q in padNotes
    ensures padNotes[p] == padNotes[q] <==> p == q
  {
    GridNoteInjective(p.0, 7 - p.1, q.0, 7 - q.1);
  }

  /** A finished table holds exactly the 64 grid notes. */
  lemma PadMappingNotes(padNotes: map<(int, int), int>)
    requires IsPositionTable(padNotes)
    ensures padNotes.Values == GridNotes()
  {
    forall n | n in GridNotes()
      ensures n in padNotes.Values
    {
      GridNoteEncode(n);
      assert padNotes[(NoteX(n), 7 - NoteRow(n))] == n;
    }
    forall n | n in padNotes.Values
      ensures n in GridNotes()
    {
      var p :| p in padNotes && padNotes[p] == n;
      GridNoteDecode(p.0, 7 - p.1);
    }
  }

  class LaunchpadPixelArt {
    /** The output port, and whether a Launchpad was found when the ports were
        scanned (`_launchpadOut` is set exactly then). */
    const launchpadOut: MidiOutPort
    const deviceConnected: bool
    var padNotes: map<(int, int), int>
    var selectedImage: PixelArtImage

    /** What every note shows. */
    function Notes(): map<int, int>
      reads launchpadOut
    {
      NoteColours(launchpadOut.sent)
    }

    ghost predicate Valid()
      reads this
    {
      IsPositionTable(padNotes)
    }

    /** The component as Unity creates it, followed by Start: the pad table,
        then the selected image when a Launchpad is connected. */
    constructor (out: MidiOutPort, connected: bool, image: PixelArtImage)
      modifies out
      ensures launchpadOut == out && deviceConnected == connected && selectedImage == image
      ensures Valid()
      ensures connected ==> Notes() == ImageShown(old(NoteColours(out.sent)), image)
      ensures !connected ==> out.sent == old(out.sent)
      ensures ControlValues(out.sent) == old(ControlValues(out.sent))
    {
      launchpadOut := out;
      deviceConnected := connected;
      padNotes := map[];
      selectedImage := image;
      new;
      InitializePadMapping();
      if deviceConnected {
        DisplaySelectedImage();
      }
    }

    /** Stores note 11 + x + 10(7 - y) for every pad (x, y); entries already
        present elsewhere are kept. */
    method InitializePadMapping()
      modifies this`padNotes
      ensures forall p :: p in padNotes <==> p in old(padNotes) || OnGrid(p.0, p.1)
      ensures forall p :: p in padNotes ==>
                padNotes[p] == if OnGrid(p.0, p.1) then PadNote(p.0, p.1) else old(padNotes)[p]
      ensures old(padNotes) == map[] ==> Valid()
    {
      var y := 0;
      while y < 8
        invariant 0 <= y <= 8
        invariant padNotes == MappedAt(old(padNotes), y, 0)
      {
        var x := 0;
        while x < 8
          invariant 0 <= x <= 8
          invariant padNotes == MappedAt(old(padNotes), y, x)
        {
          padNotes := padNotes[(x, y) := PadNote(x, y)];
          x := x + 1;
        }
        y := y + 1;
      }
      forall p | true
        ensures p in padNotes <==> p in old(padNotes) || OnGrid(p.0, p.1)
        ensures p in padNotes ==>
                  padNotes[p] == if OnGrid(p.0, p.1) then PadNote(p.0, p.1) else old(padNotes)[p]
      {
        MappedAtEntry(old(padNotes), 8, 0, p);
      }
    }

    /** Switches off every pad of the table, in some order (only the net
        effect is stated), then the eight right-column buttons. */
    method ClearGrid()
      requires Valid()
      modifies launchpadOut
      ensures deviceConnected ==> Notes() == Cleared(old(Notes()), GridNotes() + RightNotes(8))
      ensures !deviceConnected ==> launchpadOut.sent == old(launchpadOut.sent)
      ensures ControlValues(launchpadOut.sent) == old(ControlValues(launchpadOut.sent))
    {
      if !deviceConnected {
        return;
      }
      ClearPads();
      ClearRightColumn();
      ClearedTwice(old(Notes()), GridNotes(), RightNotes(8));
    }

    /** The first loop of ClearGrid, over the pad table. */
    method ClearPads()
      requires Valid()
      modifies launchpadOut
      ensures Notes() == Cleared(old(Notes()), GridNotes())
      ensures ControlValues(launchpadOut.sent) == old(ControlValues(launchpadOut.sent))
    {
      var remaining := padNotes.Keys;
      while remaining != {}
        invariant remaining <= padNotes.Keys
        invariant Notes() == Cleared(old(Notes()), NotesOf(padNotes, padNotes.Keys - remaining))
        invariant ControlValues(launchpadOut.sent) == old(ControlValues(launchpadOut.sent))
        decreases |remaining|
      {
        var pos :| pos in remaining;
        var note := padNotes[pos];
        GridNoteDecode(pos.0, 7 - pos.1);
        ClearOneMore(old(Notes()), NotesOf(padNotes, padNotes.Keys - remaining), note);
        NotesOfStep(padNotes, padNotes.Keys - remaining, pos);
        launchpadOut.SendNoteOn(note, 0);
        assert padNotes.Keys - (remaining - {pos}) == (padNotes.Keys - remaining) + {pos};
        remaining := remaining - {pos};
      }
      assert padNotes.Keys - remaining == padNotes.Keys;
      NotesOfAll(padNotes);
      PadMappingNotes(padNotes);
    }

    /** The second loop of ClearGrid, over the right-column buttons. */
    method ClearRightColumn()
      modifies launchpadOut
      ensures Notes() == Cleared(old(Notes()), RightNotes(8))
      ensures ControlValues(launchpadOut.sent) == old(ControlValues(launchpadOut.sent))
    {
      for i := 0 to RightButtonCount
        invariant Notes() == Cleared(old(Notes()), RightNotes(i))
        invariant ControlValues(launchpadOut.sent) == old(ControlValues(launchpadOut.sent))
      {
        ClearOneMore(old(Notes()), RightNotes(i), RightButtonNote(i));
        launchpadOut.SendNoteOn(RightButtonNote(i), 0);
        RightNotesStep(i);
      }
    }

    /** Lights the pad of the table at (x, y), if there is one, when a
        Launchpad is connected. */
    method SetPixel(x: int, y: int, color: int)
      modifies launchpadOut
      ensures launchpadOut.sent == old(launchpadOut.sent) +
                if deviceConnected && (x, y) in padNotes then [NoteOn(ToByte(padNotes[(x, y)]), ToByte(color))] else []
      ensures Notes() == if deviceConnected && (x, y) in padNotes
                         then old(Notes())[ToByte(padNotes[(x, y)]) := ToByte(color)] else old(Notes())
      ensures ControlValues(launchpadOut.sent) == old(ControlValues(launchpadOut.sent))
    {
      if !deviceConnected {
        return;
      }
      if (x, y) in padNotes {
        launchpadOut.SendNoteOn(ToByte(padNotes[(x, y)]), ToByte(color));
      }
    }

    /** The pad table draws exactly the 8x8 grid: SetPixel sends nothing off
        the grid, and on it lights the pad's note. */
    lemma SetPixelTargets(x: int, y: int)
      requires Valid()
      ensures (x, y) in padNotes <==> OnGrid(x, y)
      ensures OnGrid(x, y) ==> padNotes[(x, y)] == PadNote(x, y)
    {
    }

    /** Clears, draws the selected image cell by cell, then the palette. */
    method DisplaySelectedImage()
      requires Valid()
      modifies launchpadOut
      ensures deviceConnected ==> Notes() == ImageShown(old(Notes()), selectedImage)
      ensures !deviceConnected ==> launchpadOut.sent == old(launchpadOut.sent)
      ensures ControlValues(launchpadOut.sent) == old(ControlValues(launchpadOut.sent))
    {
      if !deviceConnected {
        return;
      }
      ClearGrid();
      ghost var cleared := Notes();
      ghost var rows := ImageRows(selectedImage);
      var imageData := GetImageData(selectedImage);
      DrawImage(imageData, rows, cleared);
      DisplayColorPalette();
      DisplaySteps(old(Notes()), rows, Palette(selectedImage));
    }

    /** The drawing loops of DisplaySelectedImage: SetPixel on every cell,
        row by row, top row first. */
    method DrawImage(imageData: array2<int>, ghost rows: seq<seq<int>>, ghost m: map<int, int>)
      requires Valid() && deviceConnected && IsPicture(rows)
      requires imageData.Length0 == 8 && imageData.Length1 == 8
      requires forall x, y :: OnGrid(x, y) ==> imageData[x, y] == rows[y][x]
      requires Notes() == m
      modifies launchpadOut
      ensures Notes() == DrawnAt(m, rows, 8, 0)
      ensures ControlValues(launchpadOut.sent) == old(ControlValues(launchpadOut.sent))
    {
      var y := 0;
      while y < 8
        invariant 0 <= y <= 8
        invariant Notes() == DrawnAt(m, rows, y, 0)
        invariant ControlValues(launchpadOut.sent) == old(ControlValues(launchpadOut.sent))
      {
        DrawRow(imageData, rows, m, y);
        y := y + 1;
      }
    }

    /** One row of the drawing loops. */
    method DrawRow(imageData: array2<int>, ghost rows: seq<seq<int>>, ghost m: map<int, int>, y: int)
      requires Valid() && deviceConnected && IsPicture(rows) && 0 <= y < 8
      requires imageData.Length0 == 8 && imageData.Length1 == 8
      requires forall x, y :: OnGrid(x, y) ==> imageData[x, y] == rows[y][x]
      requires Notes() == DrawnAt(m, rows, y, 0)
      modifies launchpadOut
      ensures Notes() == DrawnAt(m, rows, y + 1, 0)
      ensures ControlValues(launchpadOut.sent) == old(ControlValues(launchpadOut.sent))
    {
      var x := 0;
      while x < 8
        invariant 0 <= x <= 8
        invariant Notes() == DrawnAt(m, rows, y, x)
        invariant ControlValues(launchpadOut.sent) == old(ControlValues(launchpadOut.sent))
      {
        SetPixel(x, y, imageData[x, y]);
        x := x + 1;
      }
    }

    /** Shows the selected image's palette on the right-column buttons. */
    method DisplayColorPalette()
      modifies launchpadOut
      ensures launchpadOut.sent == old(launchpadOut.sent) + PaletteMessages(Palette(selectedImage))
      ensures Notes() == Lit(old(Notes()), Palette(selectedImage), Min(|Palette(selectedImage)|, RightButtonCount))
      ensures ControlValues(launchpadOut.sent) == old(ControlValues(launchpadOut.sent))
    {
      if selectedImage == Alien {
        var alienColors := [0, 3, 16, 17, 25, 29, 37];
        WritePalette(alienColors);
      } else if selectedImage == Ghost {
        var ghostColors := [0, 3, 36, 41, 45];
        WritePalette(ghostColors);
      }
    }

    /** The loop of DisplayColorPalette over one palette. */
    method WritePalette(colors: seq<int>)
      modifies launchpadOut
      ensures launchpadOut.sent == old(launchpadOut.sent) + PaletteMessages(colors)
      ensures Notes() == Lit(old(Notes()), colors, Min(|colors|, RightButtonCount))
      ensures ControlValues(launchpadOut.sent) == old(ControlValues(launchpadOut.sent))
    {
      var i := 0;
      while i < |colors| && i < RightButtonCount
        invariant 0 <= i <= Min(|colors|, RightButtonCount)
        invariant launchpadOut.sent == old(launchpadOut.sent) + PaletteLog(colors, i)
        invariant Notes() == Lit(old(Notes()), colors, i)
        invariant ControlValues(launchpadOut.sent) == old(ControlValues(launchpadOut.sent))
      {
        launchpadOut.SendNoteOn(RightButtonNote(i), ToByte(colors[i]));
        i := i + 1;
      }
    }

    /** The image the enum names, as a fresh 8x8 array indexed [x, y]. */
    static method GetImageData(image: PixelArtImage) returns (data: array2<int>)
      ensures fresh(data) && data.Length0 == 8 && data.Length1 == 8
      ensures forall x, y :: OnGrid(x, y) ==> data[x, y] == ImagePixel(image, x, y)
    {
      match image
      case Alien => data := CreateAlienImage();
      case Ghost => data := CreateGhostImage();
      case Unnamed(_) => data := new int[8, 8]((x, y) => 0);
    }

    /** Zeroes an 8x8 image, as both picture builders first do. */
    static method Blank() returns (image: array2<int>)
      ensures fresh(image) && image.Length0 == 8 && image.Length1 == 8
      ensures forall x, y :: OnGrid(x, y) ==> image[x, y] == 0
    {
      image := new int[8, 8];
      var y := 0;
      while y < 8
        invariant 0 <= y <= 8
        invariant forall cx, cy :: OnGrid(cx, cy) && cy < y ==> image[cx, cy] == 0
      {
        for x := 0 to 8
          invariant forall cx, cy :: OnGrid(cx, cy) && Before(cx, cy, x, y) ==> image[cx, cy] == 0
        {
          image[x, y] := 0;
        }
        y := y + 1;
      }
    }

    static method CreateAlienImage() returns (image: array2<int>)
      ensures fresh(image) && image.Length0 == 8 && image.Length1 == 8
      ensures forall x, y :: OnGrid(x, y) ==> image[x, y] == ImagePixel(Alien, x, y)
    {
      image := Blank();
      DrawAlienAntennae(image);
      DrawAlienHeadTop(image);
      DrawAlienHeadMiddle(image);
      DrawAlienEyes(image);
      DrawAlienBody(image);
      DrawAlienTentacles(image);
    }

    /** The antennae of the Alien: row 0 of the picture. */
    static method DrawAlienAntennae(image: array2<int>)
      requires image.Length0 == 8 && image.Length1 == 8
      requires forall x, y :: OnGrid(x, y) && y == 0 ==> image[x, y] == 0
      modifies image
      ensures forall x, y :: OnGrid(x, y) ==> image[x, y] == if y == 0 then AlienRows[y][x] else old(image[x, y])
    {
      image[3, 0] := 17;
      image[4, 0] := 17;
    }

    /** The top of the head of the Alien: row 1 of the picture. */
    static method DrawAlienHeadTop(image: array2<int>)
      requires image.Length0 == 8 && image.Length1 == 8
      requires forall x, y :: OnGrid(x, y) && y == 1 ==> image[x, y] == 0
      modifies image
      ensures forall x, y :: OnGrid(x, y) ==> image[x, y] == if y == 1 then AlienRows[y][x] else old(image[x, y])
    {
      image[2, 1] := 25;
      image[3, 1] := 25;
      image[4, 1] := 25;
      image[5, 1] := 25;
    }

    /** The middle of the head of the Alien: row 2 of the picture. */
    static method DrawAlienHeadMiddle(image: array2<int>)
      requires image.Length0 == 8 && image.Length1 == 8
      requires forall x, y :: OnGrid(x, y) && y == 2 ==> image[x, y] == 0
      modifies image
      ensures forall x, y :: OnGrid(x, y) ==> image[x, y] == if y == 2 then AlienRows[y][x] else old(image[x, y])
    {
      image[1, 2] := 17;
      image[2, 2] := 16;
      image[3, 2] := 16;
      image[4, 2] := 16;
      image[5, 2] := 16;
      image[6, 2] := 17;
    }

    /** The eyes of the Alien: row 3 of the picture. */
    static method DrawAlienEyes(image: array2<int>)
      requires image.Length0 == 8 && image.Length1 == 8
      requires forall x, y :: OnGrid(x, y) && y == 3 ==> image[x, y] == 0
      modifies image
      ensures forall x, y :: OnGrid(x, y) ==> image[x, y] == if y == 3 then AlienRows[y][x] else old(image[x, y])
    {
      image[2, 3] := 3;
      image[3, 3] := 29;
      image[4, 3] := 29;
      image[5, 3] := 3;
    }

    /** The body of the Alien: row 4 of the picture. */
    static method DrawAlienBody(image: array2<int>)
      requires image.Length0 == 8 && image.Length1 == 8
      requires forall x, y :: OnGrid(x, y) && y == 4 ==> image[x, y] == 0
      modifies image
      ensures forall x, y :: OnGrid(x, y) ==> image[x, y] == if y == 4 then AlienRows[y][x] else old(image[x, y])
    {
      image[2, 4] := 37;
      image[3, 4] := 29;
      image[4, 4] := 29;
      image[5, 4] := 37;
    }

    /** The tentacles of the Alien: rows 5 to 6 of the picture. */
    static method DrawAlienTentacles(image: array2<int>)
      requires image.Length0 == 8 && image.Length1 == 8
      requires forall x, y :: OnGrid(x, y) && 5 <= y <= 6 ==> image[x, y] == 0
      modifies image
      ensures forall x, y :: OnGrid(x, y) ==> image[x, y] == if 5 <= y <= 6 then AlienRows[y][x] else old(image[x, y])
    {
      image[1, 5] := 29;
      image[3, 5] := 17;
      image[4, 5] := 17;
      image[6, 5] := 29;
      image[0, 6] := 16;
      image[2, 6] := 29;
      image[5, 6] := 29;
      image[7, 6] := 16;
    }

    static method CreateGhostImage() returns (image: array2<int>)
      ensures fresh(image) && image.Length0 == 8 && image.Length1 == 8
      ensures forall x, y :: OnGrid(x, y) ==> image[x, y] == ImagePixel(Ghost, x, y)
    {
      image := Blank();
      DrawGhostTop(image);
      DrawGhostUpperBody(image);
      DrawGhostEyes(image);
      DrawGhostPupils(image);
      DrawGhostMiddleBody(image);
      DrawGhostLowerBody(image);
      DrawGhostTentacles(image);
    }

    /** The top of the Ghost: row 1 of the picture. */
    static method DrawGhostTop(image: array2<int>)
      requires image.Length0 == 8 && image.Length1 == 8
      requires forall x, y :: OnGrid(x, y) && y == 1 ==> image[x, y] == 0
      modifies image
      ensures forall x, y :: OnGrid(x, y) ==> image[x, y] == if y == 1 then GhostRows[y][x] else old(image[x, y])
    {
      image[2, 1] := 41;
      image[3, 1] := 41;
      image[4, 1] := 41;
    }

    /** The upper body of the Ghost: row 2 of the picture. */
    static method DrawGhostUpperBody(image: array2<int>)
      requires image.Length0 == 8 && image.Length1 == 8
      requires forall x, y :: OnGrid(x, y) && y == 2 ==> image[x, y] == 0
      modifies image
      ensures forall x, y :: OnGrid(x, y) ==> image[x, y] == if y == 2 then GhostRows[y][x] else old(image[x, y])
    {
      image[1, 2] := 41;
      image[2, 2] := 36;
      image[3, 2] := 36;
      image[4, 2] := 36;
      image[5, 2] := 41;
    }

    /** The outline and whites of the eyes of the Ghost: row 3 of the picture. */
    static method DrawGhostEyes(image: array2<int>)
      requires image.Length0 == 8 && image.Length1 == 8
      requires forall x, y :: OnGrid(x, y) && y == 3 ==> image[x, y] == 0
      modifies image
      ensures forall x, y :: OnGrid(x, y) ==> image[x, y] == if y == 3 then GhostRows[y][x] else old(image[x, y])
    {
      image[1, 3] := 45;
      image[2, 3] := 3;
      image[3, 3] := 36;
      image[4, 3] := 3;
      image[5, 3] := 45;
    }

    /** The pupils and body of the Ghost: row 4 of the picture. */
    static method DrawGhostPupils(image: array2<int>)
      requires image.Length0 == 8 && image.Length1 == 8
      requires forall x, y :: OnGrid(x, y) && y == 4 ==> image[x, y] == 0
      modifies image
      ensures forall x, y :: OnGrid(x, y) ==> image[x, y] == if y == 4 then GhostRows[y][x] else old(image[x, y])
    {
      image[1, 4] := 45;
      image[2, 4] := 45;
      image[3, 4] := 45;
      image[4, 4] := 45;
      image[5, 4] := 45;
    }

    /** The middle of the body of the Ghost: row 5 of the picture. */
    static method DrawGhostMiddleBody(image: array2<int>)
      requires image.Length0 == 8 && image.Length1 == 8
      requires forall x, y :: OnGrid(x, y) && y == 5 ==> image[x, y] == 0
      modifies image
      ensures forall x, y :: OnGrid(x, y) ==> image[x, y] == if y == 5 then GhostRows[y][x] else old(image[x, y])
    {
      image[1, 5] := 45;
      image[2, 5] := 41;
      image[3, 5] := 45;
      image[4, 5] := 41;
      image[5, 5] := 45;
    }

    /** The lower body of the Ghost: row 6 of the picture. */
    static method DrawGhostLowerBody(image: array2<int>)
      requires image.Length0 == 8 && image.Length1 == 8
      requires forall x, y :: OnGrid(x, y) && y == 6 ==> image[x, y] == 0
      modifies image
      ensures forall x, y :: OnGrid(x, y) ==> image[x, y] == if y == 6 then GhostRows[y][x] else old(image[x, y])
    {
      image[1, 6] := 45;
      image[2, 6] := 45;
      image[3, 6] := 45;
      image[4, 6] := 45;
      image[5, 6] := 45;
    }

    /** The tentacles of the Ghost: row 7 of the picture. */
    static method DrawGhostTentacles(image: array2<int>)
      requires image.Length0 == 8 && image.Length1 == 8
      requires forall x, y :: OnGrid(x, y) && y == 7 ==> image[x, y] == 0
      modifies image
      ensures forall x, y :: OnGrid(x, y) ==> image[x, y] == if y == 7 then GhostRows[y][x] else old(image[x, y])
    {
      image[1, 7] := 45;
      image[3, 7] := 45;
      image[5, 7] := 45;
    }

    /** CleanupMIDI's effect on the LEDs: everything the pixel art lit is
        switched off when a Launchpad is connected. */
    method CleanupMIDI()
      requires Valid()
      modifies launchpadOut
      ensures deviceConnected ==> Notes() == Cleared(old(Notes()), GridNotes() + RightNotes(8))
      ensures !deviceConnected ==> launchpadOut.sent == old(launchpadOut.sent)
      ensures ControlValues(launchpadOut.sent) == old(ControlValues(launchpadOut.sent))
    {
      if deviceConnected {
        ClearGrid();
      }
    }
  }
}
