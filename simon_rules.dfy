/** The Simon memory game of LaunchpadSimon as a state machine on values.
    Every handler and every coroutine is one transition; a coroutine runs
    to its end in one step (its waits are engine scheduling), and an
    exception thrown by the C# code ends the transition where it is thrown,
    keeping what was already done. */
module SimonRules {
  import opened UnityRandom
  import opened LaunchpadMidi
  import opened SimonBoard

  /** What does not change while the game runs: `deviceConnected` (a
      Launchpad was found among the input OR the output ports), `canSend`,
      the guard `deviceConnected && _launchpadOut != null` of every display
      method, the two inspector settings and the two pad tables that Start
      fills (see IsPadTable and IsPositionTable). */
  datatype Config = Config(
    deviceConnected: bool,
    canSend: bool,
    nbTouchesJeu: int,
    nombreMaxEtapes: int,
    padPositions: map<int, (int, int)>,
    positionToNote: map<(int, int), int>)

  /** Both tables as InitializePadPositions leaves them. */
  ghost predicate TablesOk(c: Config)
  {
    IsPadTable(c.padPositions) && IsPositionTable(c.positionToNote)
  }

  /** The fields of LaunchpadSimon that the game updates, the engine's random
      generator and what the Launchpad shows. */
  datatype Game = Game(
    jeuEnabled: bool,
    previousJeuEnabled: bool,
    jeuActif: bool,
    enAttenteSaisie: bool,
    niveau: int,
    positionReproduction: int,
    sequenceActuelle: seq<int>,
    touchesJeu: seq<int>,
    couleursTouches: map<int, int>,
    rng: Oracle,
    leds: Leds)

  /** The palette of the game keys; 21 occurs twice. */
  function CouleursJeu(): seq<int>
  {
    [5, 21, 52, 21, 95, 9, 73, 46]
  }

  /** A colour of the palette. */
  predicate IsGameColour(x: int)
  {
    x in {5, 21, 52, 95, 9, 73, 46}
  }

  lemma GameColours(x: int)
    ensures x in CouleursJeu() <==> IsGameColour(x)
  {
  }

  predicate Distinct<T(==)>(s: seq<T>)
  {
    forall i, j :: 0 <= i < j < |s| ==> s[i] != s[j]
  }

  // ---------------------------------------------------------------------
  // Display helpers: each does nothing unless `deviceConnected` holds and
  // the output port is set (`canSend`).

  /** SendColorToLaunchpad(note, colour). */
  function Send(c: Config, l: Leds, note: int, colour: Byte): Leds
  {
    if c.canSend then SendNote(l, note, colour) else l
  }

  /** A painting loop `SetPixel(x, y, colour)` over the whole grid. */
  function Fill(c: Config, l: Leds, colour: int): Leds
  {
    if c.canSend then FillGrid(l, colour) else l
  }

  /** ResetAllLEDs. */
  function Clear(c: Config, l: Leds): Leds
  {
    if c.canSend then ResetAll(l) else l
  }

  /** AfficherProgressionNiveaux. */
  function ShowProgress(c: Config, l: Leds, niveau: int): Leds
  {
    if c.canSend then Progress(l, niveau, c.nombreMaxEtapes) else l
  }

  /** AfficherToutesEtapesCompletees. */
  function ShowAllDone(c: Config, l: Leds): Leds
  {
    if c.canSend then AllStepsDone(l, c.nombreMaxEtapes) else l
  }

  /** The four SetPixel calls of AfficherBoutonsStart. */
  function ShowStartButtons(c: Config, l: Leds): Leds
  {
    if c.canSend then ShowStart(l) else l
  }

  /** The four SetPixel calls on the corners in AfficherSequence. */
  function Corners(c: Config, l: Leds, colour: int): Leds
  {
    if c.canSend then BlinkCorners(l, colour) else l
  }

  /** The loop `for i < k`: corners green, then corners off (the signal that
      the player's turn begins). */
  function Blinks(c: Config, l: Leds, k: nat): Leds
    decreases k, l
  {
    if k == 0 then l else Corners(c, Corners(c, Blinks(c, l, k - 1), 21), 0)
  }

  /** The loop `for i < k`: grid off, then grid green (AfficherVictoire). */
  function Flashes(c: Config, l: Leds, k: nat): Leds
    decreases k, l
  {
    if k == 0 then l else Fill(c, Fill(c, Flashes(c, l, k - 1), 0), 21)
  }

  /** The loop `for i < k`: grid red (AfficherErreur). */
  function RedFills(c: Config, l: Leds, k: nat): Leds
    decreases k, l
  {
    if k == 0 then l else Fill(c, RedFills(c, l, k - 1), 5)
  }

  /** Blinking the corners twice is blinking them once in the second colour. */
  lemma CornersTwice(l: Leds, a: int, b: int)
    ensures BlinkCorners(BlinkCorners(l, a), b) == BlinkCorners(l, b)
  {
    var once, twice := BlinkCorners(l, b), BlinkCorners(BlinkCorners(l, a), b);
    forall n
      ensures n in twice.notes <==> n in once.notes
      ensures n in twice.notes ==> twice.notes[n] == once.notes[n]
    {
    }
    assert twice.notes == once.notes;
  }

  /** After at least one round of the turn signal the corners are off and
      everything else is as before the signal. */
  lemma {:induction false} BlinksEndDark(c: Config, l: Leds, k: nat)
    requires k >= 1
    ensures Blinks(c, l, k) == Corners(c, l, 0)
  {
    if k > 1 {
      BlinksEndDark(c, l, k - 1);
      if c.canSend {
        CornersTwice(l, 0, 21);
        CornersTwice(l, 21, 0);
      }
    } else if c.canSend {
      CornersTwice(l, 21, 0);
    }
  }

  /** The victory flashes end with the grid green again. */
  lemma {:induction false} FlashesEndGreen(c: Config, l: Leds, k: nat)
    ensures Flashes(c, Fill(c, l, 21), k) == Fill(c, l, 21)
  {
    if k > 0 {
      FlashesEndGreen(c, l, k - 1);
      if c.canSend {
        FillGridTwice(l, 21, 0);
        FillGridTwice(l, 0, 21);
      }
    }
  }

  /** The error animation leaves the grid red. */
  lemma {:induction false} RedFillsEndRed(c: Config, l: Leds, k: nat)
    requires k >= 1
    ensures RedFills(c, l, k) == Fill(c, l, 5)
  {
    if k > 1 {
      RedFillsEndRed(c, l, k - 1);
      if c.canSend {
        FillGridTwice(l, 5, 5);
      }
    }
  }

  // ---------------------------------------------------------------------
  // ShuffleList: Fisher-Yates driven by Random.Range.

  /** `list[k]` and `list[n]` exchanged through a temporary. */
  function Swap<T>(s: seq<T>, k: int, n: int): (r: seq<T>)
    requires 0 <= k < |s| && 0 <= n < |s|
    ensures |r| == |s| && r[k] == s[n] && r[n] == s[k]
    ensures forall i :: 0 <= i < |s| && i != k && i != n ==> r[i] == s[i]
  {
    s[k := s[n]][n := s[k]]
  }

  /** The list and the oracle after the `while (n > 1)` loop has run from `n`. */
  function ShuffleFrom<T>(list: seq<T>, n: int, rng: Oracle): (r: (seq<T>, Oracle))
    requires n <= |list|
    ensures |r.0| == |list|
    decreases n, rng
  {
    if n <= 1 then (list, rng)
    else
      var k := Range(rng, 0, n);
      ShuffleFrom(Swap(list, k, n - 1), n - 1, Advance(rng))
  }

  /** ShuffleList(list). */
  function Shuffle<T>(list: seq<T>, rng: Oracle): (r: (seq<T>, Oracle))
    ensures |r.0| == |list|
  {
    ShuffleFrom(list, |list|, rng)
  }

  lemma SwapPermutes<T>(s: seq<T>, k: int, n: int)
    requires 0 <= k < |s| && 0 <= n < |s|
    ensures multiset(Swap(s, k, n)) == multiset(s)
    ensures Distinct(s) ==> Distinct(Swap(s, k, n))
  {
    var r := Swap(s, k, n);
    if Distinct(s) {
      forall i, j | 0 <= i < j < |r|
        ensures r[i] != r[j]
      {
        var i' := if i == k then n else if i == n then k else i;
        var j' := if j == k then n else if j == n then k else j;
        assert r[i] == s[i'] && r[j] == s[j'] && i' != j';
      }
    }
  }

  /** The shuffle keeps the length and the elements of the list (a
      permutation: the same multiset), so a list of distinct elements stays
      distinct; it draws n - 1 random numbers. */
  lemma {:induction false} ShufflePermutes<T>(list: seq<T>, n: int, rng: Oracle)
    requires n <= |list|
    ensures |ShuffleFrom(list, n, rng).0| == |list|
    ensures multiset(ShuffleFrom(list, n, rng).0) == multiset(list)
    ensures Distinct(list) ==> Distinct(ShuffleFrom(list, n, rng).0)
    ensures n >= 1 ==> ShuffleFrom(list, n, rng).1 == Skip(rng, n - 1)
    decreases n
  {
    if n > 1 {
      var k := Range(rng, 0, n);
      SwapPermutes(list, k, n - 1);
      ShufflePermutes(Swap(list, k, n - 1), n - 1, Advance(rng));
    }
  }

  // ---------------------------------------------------------------------
  // ChoisirTouchesJeu

  /** The gathering loop `for y in [3, 7), for x in [2, 6)` over the
      position table `t`, about to run iteration (x, y): the notes found so
      far, in order. */
  function CentreNotesAt(t: map<(int, int), int>, y: int, x: int): seq<int>
    requires 3 <= y && 2 <= x <= 6
    decreases y, x, t
  {
    if x == 2 then (if y == 3 then [] else CentreNotesAt(t, y - 1, 6))
    else
      var found := CentreNotesAt(t, y, x - 1);
      if (x - 1, y) in t then found + [t[(x - 1, y)]] else found
  }

  /** A pad drawn in the block x in [2, 6), y in [3, 7). */
  predicate InCentreBlock(n: int)
  {
    IsGridNote(n) && 2 <= NoteX(n) < 6 && 3 <= 7 - NoteRow(n) < 7
  }

  /** The notes of the block: 23-26, 33-36, 43-46 and 53-56. */
  predicate IsCentreNote(n: int)
  {
    n in {23, 24, 25, 26, 33, 34, 35, 36, 43, 44, 45, 46, 53, 54, 55, 56}
  }

  lemma CentreNotesAre(n: int)
    ensures IsCentreNote(n) <==> InCentreBlock(n)
  {
    var q, r := n / 10, n % 10;
    assert n == 10 * q + r;
    if InCentreBlock(n) {
      assert 2 <= q <= 5 && 3 <= r <= 6;
    }
  }

  /** With a finished position table, every iteration finds a note: four
      per row. */
  lemma {:induction false} CentreNotesLength(t: map<(int, int), int>, y: int, x: int)
    requires IsPositionTable(t)
    requires 3 <= y <= 7 && 2 <= x <= 6 && (y < 7 || x == 2)
    decreases y, x
    ensures |CentreNotesAt(t, y, x)| == 4 * (y - 3) + (x - 2)
  {
    if x == 2 {
      if y > 3 {
        CentreNotesLength(t, y - 1, 6);
      }
    } else {
      CentreNotesLength(t, y, x - 1);
    }
  }

  /** The notes gathered before iteration (x, y) are exactly the block's
      pads whose cell comes earlier. */
  lemma {:induction false} CentreNotesMember(t: map<(int, int), int>, y: int, x: int, n: int)
    requires IsPositionTable(t)
    requires 3 <= y <= 7 && 2 <= x <= 6 && (y < 7 || x == 2)
    decreases y, x
    ensures n in CentreNotesAt(t, y, x) <==> InCentreBlock(n) && Before(NoteX(n), 7 - NoteRow(n), x, y)
  {
    var cx, cy := NoteX(n), 7 - NoteRow(n);
    if x == 2 {
      if y > 3 {
        CentreNotesMember(t, y - 1, 6, n);
        assert InCentreBlock(n) ==> (Before(cx, cy, 6, y - 1) <==> Before(cx, cy, 2, y));
      }
    } else {
      CentreNotesMember(t, y, x - 1, n);
      var m := GridNote(x - 1, 7 - y);
      assert t[(x - 1, y)] == m;
      if n == m {
        GridNoteDecode(x - 1, 7 - y);
      } else if IsGridNote(n) {
        GridNoteEncode(n);
        assert !(cx == x - 1 && cy == y);
      }
    }
  }

  /** No note is gathered twice. */
  lemma {:induction false} CentreNotesDistinct(t: map<(int, int), int>, y: int, x: int)
    requires IsPositionTable(t)
    requires 3 <= y <= 7 && 2 <= x <= 6 && (y < 7 || x == 2)
    decreases y, x
    ensures Distinct(CentreNotesAt(t, y, x))
  {
    if x == 2 {
      if y > 3 {
        CentreNotesDistinct(t, y - 1, 6);
      }
    } else {
      CentreNotesDistinct(t, y, x - 1);
      var m := GridNote(x - 1, 7 - y);
      GridNoteDecode(x - 1, 7 - y);
      CentreNotesMember(t, y, x - 1, m);
      var found := CentreNotesAt(t, y, x - 1);
      assert CentreNotesAt(t, y, x) == found + [m];
      forall i, j | 0 <= i < j < |found| + 1
        ensures (found + [m])[i] != (found + [m])[j]
      {
        if j == |found| {
          assert found[i] in found;
        }
      }
    }
  }

  /** The gathering loop finds sixteen distinct notes, exactly the block's. */
  lemma CentreNotesBlock(t: map<(int, int), int>, n: int)
    requires IsPositionTable(t)
    ensures |CentreNotesAt(t, 7, 2)| == 16 && Distinct(CentreNotesAt(t, 7, 2))
    ensures n in CentreNotesAt(t, 7, 2) <==> IsCentreNote(n)
  {
    CentreNotesLength(t, 7, 2);
    CentreNotesDistinct(t, 7, 2);
    CentreNotesMember(t, 7, 2, n);
    CentreNotesAre(n);
  }

  /** How many keys the taking loop copies: `Mathf.Min(nbTouchesJeu, count)`
      iterations, none when that is not positive. */
  function KeyCount(nb: int, count: int): (r: int)
    requires 0 <= count
    ensures 0 <= r <= count
    ensures 0 < nb <= count ==> r == nb
    ensures nb > count ==> r == count
  {
    if nb <= 0 then 0 else Min(nb, count)
  }

  /** The colouring loop after `k` iterations:
      `couleursTouches[touches[i]] = colours[i % colours.Count]`. */
  function ColourKeys(touches: seq<int>, colours: seq<int>, k: nat): map<int, int>
    requires k <= |touches| && |colours| > 0
    decreases k, touches
  {
    if k == 0 then map[]
    else ColourKeys(touches, colours, k - 1)[touches[k - 1] := colours[(k - 1) % |colours|]]
  }

  /** A note has a colour exactly when it is among the first k keys, and its
      colour comes from the palette given. */
  lemma {:induction false} ColourKeysAt(touches: seq<int>, colours: seq<int>, k: nat, t: int)
    requires k <= |touches| && |colours| > 0
    ensures t in ColourKeys(touches, colours, k) <==> t in touches[..k]
    ensures t in ColourKeys(touches, colours, k) ==> ColourKeys(touches, colours, k)[t] in colours
  {
    if k > 0 {
      ColourKeysAt(touches, colours, k - 1, t);
      assert touches[..k] == touches[..k - 1] + [touches[k - 1]];
    }
  }

  /** With distinct keys, key i gets colour i modulo the palette's length. */
  lemma {:induction false} ColourKeysIndex(touches: seq<int>, colours: seq<int>, k: nat, i: int)
    requires k <= |touches| && |colours| > 0 && Distinct(touches)
    requires 0 <= i < k
    ensures touches[i] in ColourKeys(touches, colours, k)
    ensures ColourKeys(touches, colours, k)[touches[i]] == colours[i % |colours|]
  {
    if i < k - 1 {
      ColourKeysIndex(touches, colours, k - 1, i);
    }
  }

  /** ChoisirTouchesJeu up to its last statement: the grid is cleared, the
      sixteen centre notes and the palette are shuffled, the first
      KeyCount notes become the keys and each key gets a palette colour. */
  function ChooseKeys(g: Game, c: Config): Game
  {
    var notes := Shuffle(CentreNotesAt(c.positionToNote, 7, 2), g.rng);
    var touches := notes.0[..KeyCount(c.nbTouchesJeu, |notes.0|)];
    var colours := Shuffle(CouleursJeu(), notes.1);
    g.(touchesJeu := touches,
       couleursTouches := ColourKeys(touches, colours.0, |touches|),
       rng := colours.1,
       leds := Fill(c, g.leds, 0))
  }

  /** The keys of a game: at most sixteen distinct centre pads, each with a
      colour of the palette. */
  ghost predicate KeysOk(g: Game)
  {
    |g.touchesJeu| <= 16 && Distinct(g.touchesJeu) &&
    forall t :: t in g.touchesJeu ==>
      IsCentreNote(t) && t in g.couleursTouches && IsGameColour(g.couleursTouches[t])
  }

  /** Distinct keys taken from centre pads and coloured from the palette
      satisfy KeysOk. */
  lemma KeysFromShuffled(g: Game, notes: seq<int>, colours: seq<int>, count: int)
    requires Distinct(notes) && |notes| <= 16 && forall t :: t in notes ==> IsCentreNote(t)
    requires |colours| > 0 && forall x :: x in colours ==> IsGameColour(x)
    requires 0 <= count <= |notes|
    requires g.touchesJeu == notes[..count]
    requires g.couleursTouches == ColourKeys(notes[..count], colours, count)
    ensures KeysOk(g)
    ensures forall t :: t in g.couleursTouches <==> t in g.touchesJeu
  {
    PrefixOf(notes, count);
    ColourKeysDomain(notes[..count], colours);
  }

  /** A prefix of a list of distinct centre pads is one too. */
  lemma PrefixOf(notes: seq<int>, count: int)
    requires Distinct(notes) && forall t :: t in notes ==> IsCentreNote(t)
    requires 0 <= count <= |notes|
    ensures Distinct(notes[..count]) && forall t :: t in notes[..count] ==> IsCentreNote(t)
  {
    var touches := notes[..count];
    forall i, j | 0 <= i < j < |touches|
      ensures touches[i] != touches[j]
    {
      assert touches[i] == notes[i] && touches[j] == notes[j];
    }
    forall t | t in touches
      ensures IsCentreNote(t)
    {
      var i :| 0 <= i < |touches| && touches[i] == t;
      assert notes[i] == t;
    }
  }

  /** After the whole colouring loop, exactly the keys have a colour, and it
      is one of the palette's. */
  lemma ColourKeysDomain(touches: seq<int>, colours: seq<int>)
    requires |colours| > 0
    ensures forall t :: t in ColourKeys(touches, colours, |touches|) <==> t in touches
    ensures forall t :: t in ColourKeys(touches, colours, |touches|) ==> ColourKeys(touches, colours, |touches|)[t] in colours
  {
    assert touches[..|touches|] == touches;
    forall t
      ensures t in ColourKeys(touches, colours, |touches|) <==> t in touches
      ensures t in ColourKeys(touches, colours, |touches|) ==> ColourKeys(touches, colours, |touches|)[t] in colours
    {
      ColourKeysAt(touches, colours, |touches|, t);
    }
  }

  /** Every element of a shuffled list comes from the list. */
  lemma ShuffledMembers<T>(list: seq<T>, rng: Oracle, x: T)
    ensures x in Shuffle(list, rng).0 <==> x in list
  {
    ShufflePermutes(list, |list|, rng);
    assert x in multiset(list) <==> x in list;
    assert x in multiset(Shuffle(list, rng).0) <==> x in Shuffle(list, rng).0;
  }

  /** ChooseKeys picks min(nbTouchesJeu, 16) distinct centre pads (none when
      nbTouchesJeu is not positive), gives each a palette colour and no other
      note a colour, and draws 15 + 7 random numbers. */
  lemma KeySelection(g: Game, c: Config)
    requires TablesOk(c)
    ensures KeysOk(ChooseKeys(g, c))
    ensures |ChooseKeys(g, c).touchesJeu| == KeyCount(c.nbTouchesJeu, 16)
    ensures forall t :: t in ChooseKeys(g, c).couleursTouches <==> t in ChooseKeys(g, c).touchesJeu
    ensures ChooseKeys(g, c).rng == Skip(g.rng, 22)
  {
    var notes := Shuffle(CentreNotesAt(c.positionToNote, 7, 2), g.rng);
    ShuffledCentre(c.positionToNote, g.rng);
    var colours := Shuffle(CouleursJeu(), notes.1);
    ShuffledPalette(notes.1);
    KeysFromShuffled(ChooseKeys(g, c), notes.0, colours.0, KeyCount(c.nbTouchesJeu, |notes.0|));
    SkipAdds(g.rng, 15, 7);
  }

  /** The shuffled candidates: sixteen distinct centre pads; 15 draws. */
  lemma ShuffledCentre(t: map<(int, int), int>, rng: Oracle)
    requires IsPositionTable(t)
    ensures |Shuffle(CentreNotesAt(t, 7, 2), rng).0| == 16
    ensures Distinct(Shuffle(CentreNotesAt(t, 7, 2), rng).0)
    ensures forall n :: n in Shuffle(CentreNotesAt(t, 7, 2), rng).0 ==> IsCentreNote(n)
    ensures Shuffle(CentreNotesAt(t, 7, 2), rng).1 == Skip(rng, 15)
  {
    var centre := CentreNotesAt(t, 7, 2);
    CentreNotesBlock(t, 0);
    ShufflePermutes(centre, 16, rng);
    forall n | n in Shuffle(centre, rng).0
      ensures IsCentreNote(n)
    {
      ShuffledMembers(centre, rng, n);
      CentreNotesBlock(t, n);
    }
  }

  /** The shuffled palette: eight colours of the palette; 7 draws. */
  lemma ShuffledPalette(rng: Oracle)
    ensures |Shuffle(CouleursJeu(), rng).0| == 8
    ensures forall x :: x in Shuffle(CouleursJeu(), rng).0 ==> IsGameColour(x)
    ensures Shuffle(CouleursJeu(), rng).1 == Skip(rng, 7)
  {
    ShufflePermutes(CouleursJeu(), 8, rng);
    forall x | x in Shuffle(CouleursJeu(), rng).0
      ensures IsGameColour(x)
    {
      ShuffledMembers(CouleursJeu(), rng, x);
      GameColours(x);
    }
  }

  lemma {:induction false} SkipAdds(rng: Oracle, a: nat, b: nat)
    ensures Skip(Skip(rng, a), b) == Skip(rng, a + b)
    decreases a
  {
    if a > 0 {
      SkipAdds(Advance(rng), a - 1, b);
    }
  }

  // ---------------------------------------------------------------------
  // The coroutines and handlers.

  /** The foreach loop of AfficherSequence: each note lit in its colour,
      then switched off. The loop stops (false) at the first note without a
      colour, where `couleursTouches[note]` throws. */
  function FlashNotes(c: Config, l: Leds, s: seq<int>, colours: map<int, int>): (Leds, bool)
    decreases |s|
  {
    if s == [] then (l, true)
    else if s[0] !in colours then (l, false)
    else FlashNotes(c, Send(c, Send(c, l, s[0], ToByte(colours[s[0]])), s[0], 0), s[1..], colours)
  }

  /** The loop completes exactly when every note of the sequence has a colour. */
  lemma {:induction false} FlashNotesOk(c: Config, l: Leds, s: seq<int>, colours: map<int, int>)
    decreases |s|
    ensures FlashNotes(c, l, s, colours).1 <==> forall i :: 0 <= i < |s| ==> s[i] in colours
  {
    if s != [] && s[0] in colours {
      var next := Send(c, Send(c, l, s[0], ToByte(colours[s[0]])), s[0], 0);
      FlashNotesOk(c, next, s[1..], colours);
      assert forall i :: 1 <= i < |s| ==> s[i] == s[1..][i - 1];
    }
  }

  /** AfficherSequence: grid off, the sequence flashed note by note, then
      three blinks of the corners; false when it threw. */
  function ShowSequence(c: Config, l: Leds, s: seq<int>, colours: map<int, int>): (Leds, bool)
  {
    var flashed := FlashNotes(c, Fill(c, l, 0), s, colours);
    if flashed.1 then (Blinks(c, flashed.0, 3), true) else flashed
  }

  /** ArreterJeu: no game, no input awaited, every LED off. */
  function StopGame(g: Game, c: Config): Game
  {
    g.(jeuActif := false, enAttenteSaisie := false, leds := Clear(c, g.leds))
  }

  /** AfficherMenuPrincipal followed by AfficherBoutonsStart: grid off, then
      the four START pads green. */
  function MainMenu(g: Game, c: Config): Game
  {
    if !g.jeuEnabled then g else g.(leds := ShowStartButtons(c, Fill(c, g.leds, 0)))
  }

  /** AfficherVictoire: every level's button green, the grid filled green,
      five flashes, then the game switches itself off and ArreterJeu. */
  function Victory(g: Game, c: Config): Game
  {
    if !g.jeuEnabled then g
    else
      var shown := Flashes(c, Fill(c, ShowAllDone(c, g.leds), 21), 5);
      StopGame(g.(jeuEnabled := false, previousJeuEnabled := false, leds := shown), c)
  }

  /** AfficherErreur: input closed, the grid red three times, the game over
      and back to the main menu. */
  function ErrorAnimation(g: Game, c: Config): Game
  {
    if !g.jeuEnabled then g
    else MainMenu(g.(enAttenteSaisie := false, jeuActif := false, leds := RedFills(c, g.leds, 3)), c)
  }

  /** PasserAuNiveauSuivant: the next level, or the victory after the last
      one. A level shows the level buttons, then draws its key. */
  function NextLevel(g: Game, c: Config): Game
  {
    if !g.jeuEnabled then g
    else
      var up := LevelUp(g);
      if up.niveau > c.nombreMaxEtapes then Victory(up, c)
      else DrawKey(ProgressShown(up, c), c)
  }

  /** `niveau++`. */
  function LevelUp(g: Game): Game
  {
    g.(niveau := g.niveau + 1)
  }

  /** AfficherProgressionNiveaux at the current level. */
  function ProgressShown(g: Game, c: Config): Game
  {
    g.(leds := ShowProgress(c, g.leds, g.niveau))
  }

  /** The draw of PasserAuNiveauSuivant: Random.Range picks a key, which is
      appended to the sequence (level 1 first empties it); the sequence is
      then played. Without keys, `touchesJeu[0]` throws after the draw. */
  function DrawKey(g: Game, c: Config): Game
  {
    if |g.touchesJeu| == 0 then Drawn(g) else PlaySequence(KeyAppended(g), c)
  }

  /** The draw of Random.Range, with the sequence emptied at level 1. */
  function Drawn(g: Game): Game
  {
    g.(sequenceActuelle := if g.niveau == 1 then [] else g.sequenceActuelle, rng := Advance(g.rng))
  }

  /** The draw, and the drawn key appended to the sequence. */
  function KeyAppended(g: Game): Game
    requires |g.touchesJeu| > 0
  {
    var d := Drawn(g);
    d.(sequenceActuelle := d.sequenceActuelle + [g.touchesJeu[Range(g.rng, 0, |g.touchesJeu|)]])
  }

  /** The end of PasserAuNiveauSuivant: AfficherSequence, then input opens at
      position 0, unless the sequence display threw. */
  function PlaySequence(g: Game, c: Config): Game
  {
    var shown := ShowSequence(c, g.leds, g.sequenceActuelle, g.couleursTouches);
    if !shown.1 then g.(leds := shown.0)
    else g.(leds := shown.0, positionReproduction := 0, enAttenteSaisie := true)
  }

  /** DemarrerPartie: level 0, grid off, the level display, then
      ChoisirTouchesJeu, which ends by starting the first level. Its guard
      is `deviceConnected` alone: with a Launchpad found only among the
      input ports the game runs with nothing shown. */
  function StartGame(g: Game, c: Config): Game
  {
    if !c.deviceConnected || !g.jeuEnabled then g
    else
      NextLevel(ChooseKeys(Started(g, c), c), c)
  }

  /** The start of DemarrerPartie: a game at level 0, the grid off and the
      level display shown. */
  function Started(g: Game, c: Config): Game
  {
    g.(jeuActif := true, niveau := 0, leds := ShowProgress(c, Fill(c, g.leds, 0), 0))
  }

  /** HandleNoteOn's test for a START pad: the note's screen position in
      `padPositions` has x and y in {3, 4}. */
  predicate StartLookup(c: Config, note: int)
  {
    note in c.padPositions &&
    (c.padPositions[note].0 == 3 || c.padPositions[note].0 == 4) &&
    (c.padPositions[note].1 == 3 || c.padPositions[note].1 == 4)
  }

  /** HandleNoteOn(channel, note, velocity). */
  function NoteOn(g: Game, c: Config, note: Byte, velocity: Byte): Game
  {
    if !g.jeuEnabled || velocity == 0 then g
    else if !g.jeuActif then (if StartLookup(c, note) then StartGame(g, c) else g)
    else if !g.enAttenteSaisie || note !in g.touchesJeu then g
    else if note !in g.couleursTouches then g
    else Press(KeyLit(g, c, note), c, note)
  }

  /** The pressed key lit in its colour. */
  function KeyLit(g: Game, c: Config, note: int): Game
    requires note in g.couleursTouches
  {
    g.(leds := Send(c, g.leds, note, ToByte(g.couleursTouches[note])))
  }

  /** The last key of the sequence pressed: the position moves past it and
      input closes. */
  function KeyCompleted(g: Game): Game
  {
    g.(positionReproduction := g.positionReproduction + 1, enAttenteSaisie := false)
  }

  /** HandleNoteOn's check of a lit game key against the sequence: the right
      key advances the position, the last one passes to the next level, a
      wrong one is an error. Outside the sequence, indexing throws. */
  function Press(g: Game, c: Config, note: int): Game
  {
    var pos := g.positionReproduction;
    if !(0 <= pos < |g.sequenceActuelle|) then g
    else if note == g.sequenceActuelle[pos] then
      if pos + 1 >= |g.sequenceActuelle| then NextLevel(KeyCompleted(g), c)
      else g.(positionReproduction := pos + 1)
    else ErrorAnimation(g, c)
  }

  /** HandleNoteOff(channel, note): a game key is switched off while a game runs. */
  function NoteOff(g: Game, c: Config, note: Byte): Game
  {
    if g.jeuEnabled && g.jeuActif && note in g.touchesJeu then g.(leds := Send(c, g.leds, note, 0)) else g
  }

  /** The jeuEnabled edge detection of Update; the flag returned says that
      AfficherMenuPrincipal has been scheduled. */
  function Update(g: Game, c: Config): (Game, bool)
  {
    if g.previousJeuEnabled != g.jeuEnabled then
      (StopGame(g, c).(previousJeuEnabled := g.jeuEnabled), g.jeuEnabled)
    else (g, false)
  }

  /** OnTriggerEnter: the player enables the game; the flag returned says
      that AfficherMenuPrincipal has been scheduled. */
  function TriggerEnter(g: Game, isPlayer: bool): (Game, bool)
  {
    if isPlayer then (g.(jeuEnabled := true), true) else (g, false)
  }

  /** The fields after Start: the game disabled, no keys, no sequence. */
  function Initial(rng: Oracle, leds: Leds): Game
  {
    Game(false, false, false, false, 0, 0, [], [], map[], rng, leds)
  }

  // ---------------------------------------------------------------------
  // What the game promises.

  /** While input is awaited a game runs, the sequence holds niveau keys
      (1 <= niveau <= nombreMaxEtapes) and the position is inside it. */
  ghost predicate AwaitOk(g: Game, c: Config)
  {
    g.jeuActif && 1 <= g.niveau <= c.nombreMaxEtapes &&
    |g.sequenceActuelle| == g.niveau && 0 <= g.positionReproduction < g.niveau &&
    forall e :: e in g.sequenceActuelle ==> e in g.touchesJeu
  }

  /** The invariant every handler keeps. */
  ghost predicate Inv(g: Game, c: Config)
  {
    KeysOk(g) && (g.enAttenteSaisie ==> AwaitOk(g, c))
  }

  lemma InitialInv(rng: Oracle, leds: Leds, c: Config)
    ensures Inv(Initial(rng, leds), c)
  {
  }

  /** A press is ignored while the game is disabled or when its velocity is 0. */
  lemma NoteOnIgnored(g: Game, c: Config, note: Byte, velocity: Byte)
    requires !g.jeuEnabled || velocity == 0
    ensures NoteOn(g, c, note, velocity) == g
  {
  }

  /** With no game running, only the four START pads 44, 45, 54 and 55 start
      one; any other press changes nothing. */
  lemma PressWithoutGame(g: Game, c: Config, note: Byte, velocity: Byte)
    requires TablesOk(c) && g.jeuEnabled && velocity > 0 && !g.jeuActif
    ensures note in {44, 45, 54, 55} ==> NoteOn(g, c, note, velocity) == StartGame(g, c)
    ensures note !in {44, 45, 54, 55} ==> NoteOn(g, c, note, velocity) == g
  {
    StartPadNotes(c, note);
  }

  /** HandleNoteOn's START test holds exactly for notes 44, 45, 54 and 55. */
  lemma StartPadNotes(c: Config, note: int)
    requires TablesOk(c)
    ensures StartLookup(c, note) <==> note in {44, 45, 54, 55}
  {
    StartPadLookup(c.padPositions, note);
    StartPads(Leds(map[], map[]), note);
  }

  /** While input is awaited, a note that is not a game key changes nothing. */
  lemma PressOfOtherNote(g: Game, c: Config, note: Byte, velocity: Byte)
    requires g.jeuActif && note !in g.touchesJeu
    ensures NoteOn(g, c, note, velocity) == g
  {
  }

  /** The expected key, not the last of the sequence: the position moves on
      by one, the key lights in its colour and nothing else changes. */
  lemma CorrectPress(g: Game, c: Config, note: Byte, velocity: Byte)
    requires Inv(g, c) && g.jeuEnabled && velocity > 0 && g.enAttenteSaisie
    requires note == g.sequenceActuelle[g.positionReproduction]
    requires g.positionReproduction + 1 < |g.sequenceActuelle|
    ensures NoteOn(g, c, note, velocity) ==
              g.(positionReproduction := g.positionReproduction + 1,
                 leds := Send(c, g.leds, note, ToByte(g.couleursTouches[note])))
  {
  }

  /** The expected key ending the sequence: input closes and the next level
      starts. */
  lemma CompletePress(g: Game, c: Config, note: Byte, velocity: Byte)
    requires Inv(g, c) && g.jeuEnabled && velocity > 0 && g.enAttenteSaisie
    requires note == g.sequenceActuelle[g.positionReproduction]
    requires g.positionReproduction + 1 == |g.sequenceActuelle|
    ensures NoteOn(g, c, note, velocity) ==
              NextLevel(g.(positionReproduction := g.niveau, enAttenteSaisie := false,
                           leds := Send(c, g.leds, note, ToByte(g.couleursTouches[note]))), c)
  {
    var lit := KeyLit(g, c, note);
    assert g.positionReproduction + 1 == g.niveau;
    assert NoteOn(g, c, note, velocity) == Press(lit, c, note) == NextLevel(KeyCompleted(lit), c);
    assert KeyCompleted(lit) == g.(positionReproduction := g.niveau, enAttenteSaisie := false,
                                   leds := Send(c, g.leds, note, ToByte(g.couleursTouches[note])));
  }

  /** Another game key: the error path ends the game (input closed, no game
      running) and returns to the menu; the red flashes leave no trace, so a
      connected Launchpad shows the pressed key's light then the menu. */
  lemma WrongPress(g: Game, c: Config, note: Byte, velocity: Byte)
    requires Inv(g, c) && g.jeuEnabled && velocity > 0 && g.enAttenteSaisie
    requires note in g.touchesJeu && note != g.sequenceActuelle[g.positionReproduction]
    ensures var r := NoteOn(g, c, note, velocity);
      !r.enAttenteSaisie && !r.jeuActif && r.jeuEnabled &&
      r.niveau == g.niveau && r.sequenceActuelle == g.sequenceActuelle &&
      r.touchesJeu == g.touchesJeu && r.couleursTouches == g.couleursTouches &&
      r.leds == ShowStartButtons(c, Fill(c, Send(c, g.leds, note, ToByte(g.couleursTouches[note])), 0))
  {
    var lit := Send(c, g.leds, note, ToByte(g.couleursTouches[note]));
    RedFillsEndRed(c, lit, 3);
    if c.canSend {
      FillGridTwice(lit, 5, 0);
    }
  }

  /** A level with keys, before the last one: exactly one key, drawn with
      Random.Range among `touchesJeu`, is appended (level 1 starts from an
      empty sequence), so the sequence holds niveau keys; the whole sequence
      is shown and input opens at position 0. */
  lemma NextLevelGrows(g: Game, c: Config)
    requires g.jeuEnabled && KeysOk(g) && |g.touchesJeu| > 0
    requires g.niveau + 1 <= c.nombreMaxEtapes
    requires g.niveau == 0 ||
             (|g.sequenceActuelle| == g.niveau && forall e :: e in g.sequenceActuelle ==> e in g.touchesJeu)
    ensures var r := NextLevel(g, c);
      r.niveau == g.niveau + 1 && |r.sequenceActuelle| == r.niveau &&
      r.sequenceActuelle ==
        (if g.niveau == 0 then [] else g.sequenceActuelle) + [g.touchesJeu[Range(g.rng, 0, |g.touchesJeu|)]] &&
      (forall e :: e in r.sequenceActuelle ==> e in g.touchesJeu) &&
      r.positionReproduction == 0 && r.enAttenteSaisie &&
      r.rng == Advance(g.rng) && r.touchesJeu == g.touchesJeu && r.couleursTouches == g.couleursTouches &&
      r.jeuEnabled && r.jeuActif == g.jeuActif
  {
    var kept := if g.niveau == 0 then [] else g.sequenceActuelle;
    var k := Range(g.rng, 0, |g.touchesJeu|);
    var s := kept + [g.touchesJeu[k]];
    forall i | 0 <= i < |s|
      ensures s[i] in g.touchesJeu && s[i] in g.couleursTouches
    {
      if i < |kept| {
        assert s[i] == kept[i] && kept[i] in kept;
      } else {
        assert s[i] == g.touchesJeu[k];
      }
    }
    assert forall e :: e in s ==> e in g.touchesJeu;
    FlashNotesOk(c, Fill(c, ShowProgress(c, g.leds, g.niveau + 1), 0), s, g.couleursTouches);
  }

  /** After the last level: the sequence is not extended and the game ends
      disabled, with no game running and no input awaited; every LED is
      then off. */
  lemma NextLevelVictory(g: Game, c: Config)
    requires g.jeuEnabled && g.niveau + 1 > c.nombreMaxEtapes
    ensures var r := NextLevel(g, c);
      r.niveau == g.niveau + 1 && r.sequenceActuelle == g.sequenceActuelle &&
      !r.jeuEnabled && !r.previousJeuEnabled && !r.jeuActif && !r.enAttenteSaisie &&
      r.touchesJeu == g.touchesJeu && r.couleursTouches == g.couleursTouches && r.rng == g.rng &&
      r.leds == Clear(c, Fill(c, ShowAllDone(c, g.leds), 21))
  {
    FlashesEndGreen(c, ShowAllDone(c, g.leds), 5);
  }

  /** Without keys the level aborts after its draw: the level counter and the
      sequence are updated as far as the throw, input stays as it was. */
  lemma NextLevelWithoutKeys(g: Game, c: Config)
    requires g.jeuEnabled && g.niveau + 1 <= c.nombreMaxEtapes && |g.touchesJeu| == 0
    ensures var r := NextLevel(g, c);
      r.niveau == g.niveau + 1 && r.enAttenteSaisie == g.enAttenteSaisie &&
      r.positionReproduction == g.positionReproduction &&
      r.sequenceActuelle == (if g.niveau == 0 then [] else g.sequenceActuelle) &&
      r.rng == Advance(g.rng)
  {
  }

  /** ArreterJeu always ends the game and closes input; on a connected
      device every note below 137 and every control below 128 is off. */
  lemma StopGameClears(g: Game, c: Config, n: int, ctrl: int)
    ensures !StopGame(g, c).jeuActif && !StopGame(g, c).enAttenteSaisie
    ensures c.canSend && 0 <= n < 137 ==> n in StopGame(g, c).leds.notes && StopGame(g, c).leds.notes[n] == 0
    ensures c.canSend && 0 <= ctrl < 128 ==> ctrl in StopGame(g, c).leds.controls && StopGame(g, c).leds.controls[ctrl] == 0
  {
  }

  /** A level keeps the invariant when it starts from level 0 or from a
      completed sequence of niveau keys. */
  lemma NextLevelInv(g: Game, c: Config)
    requires KeysOk(g) && !g.enAttenteSaisie && g.jeuActif
    requires g.niveau == 0 ||
             (|g.sequenceActuelle| == g.niveau && forall e :: e in g.sequenceActuelle ==> e in g.touchesJeu)
    ensures Inv(NextLevel(g, c), c)
  {
    if g.jeuEnabled && g.niveau + 1 <= c.nombreMaxEtapes && |g.touchesJeu| > 0 {
      NextLevelGrows(g, c);
    } else if g.jeuEnabled && g.niveau + 1 > c.nombreMaxEtapes {
      NextLevelVictory(g, c);
    }
  }

  /** Starting a game keeps the invariant. */
  lemma StartGameInv(g: Game, c: Config)
    requires TablesOk(c) && Inv(g, c) && !g.jeuActif
    ensures Inv(StartGame(g, c), c)
  {
    if c.deviceConnected && g.jeuEnabled {
      var started := Started(g, c);
      KeySelection(started, c);
      NextLevelInv(ChooseKeys(started, c), c);
    }
  }

  /** Without an output port the sequence display sends nothing. */
  lemma {:induction false} FlashNotesSilent(c: Config, l: Leds, s: seq<int>, colours: map<int, int>)
    requires !c.canSend
    ensures FlashNotes(c, l, s, colours).0 == l
    decreases |s|
  {
    if s != [] && s[0] in colours {
      FlashNotesSilent(c, l, s[1..], colours);
    }
  }

  /** A Launchpad found only among the input ports: a game still starts,
      draws its first key and waits for the player, and nothing is shown. */
  lemma BlindStart(g: Game, c: Config)
    requires TablesOk(c) && c.deviceConnected && !c.canSend
    requires g.jeuEnabled && c.nbTouchesJeu > 0 && c.nombreMaxEtapes >= 1
    ensures var r := StartGame(g, c);
      r.jeuActif && r.enAttenteSaisie && r.niveau == 1 && |r.sequenceActuelle| == 1 &&
      r.positionReproduction == 0 && r.leds == g.leds
  {
    var started := Started(g, c);
    var chosen := ChooseKeys(started, c);
    KeySelection(started, c);
    NextLevelGrows(chosen, c);
    var s := NextLevel(chosen, c).sequenceActuelle;
    FlashNotesSilent(c, g.leds, s, chosen.couleursTouches);
    BlinksEndDark(c, g.leds, 3);
  }

  /** Every press keeps the invariant. */
  lemma NoteOnInv(g: Game, c: Config, note: Byte, velocity: Byte)
    requires TablesOk(c) && Inv(g, c)
    ensures Inv(NoteOn(g, c, note, velocity), c)
  {
    if g.jeuEnabled && velocity != 0 {
      if !g.jeuActif {
        StartGameInv(g, c);
      } else if g.enAttenteSaisie && note in g.touchesJeu {
        PressInv(KeyLit(g, c, note), c, note);
      }
    }
  }

  /** Checking an awaited key keeps the invariant. */
  lemma PressInv(g: Game, c: Config, note: int)
    requires Inv(g, c) && g.enAttenteSaisie && g.jeuActif
    ensures Inv(Press(g, c, note), c)
  {
    var pos := g.positionReproduction;
    if note != g.sequenceActuelle[pos] {
      var r := ErrorAnimation(g, c);
      assert r.touchesJeu == g.touchesJeu && r.couleursTouches == g.couleursTouches && (r == g || !r.enAttenteSaisie);
    } else if pos + 1 >= |g.sequenceActuelle| {
      NextLevelInv(KeyCompleted(g), c);
    }
  }

  /** Releases, the jeuEnabled edge, the trigger and the menu keep the invariant. */
  lemma OtherHandlersInv(g: Game, c: Config, note: Byte, isPlayer: bool)
    requires Inv(g, c)
    ensures Inv(NoteOff(g, c, note), c)
    ensures Inv(Update(g, c).0, c)
    ensures Inv(TriggerEnter(g, isPlayer).0, c)
    ensures Inv(MainMenu(g, c), c)
  {
  }

  /** Update reacts to a change of jeuEnabled only: it then stops the game,
      records the new value and schedules the menu when the game was enabled. */
  lemma UpdateEdge(g: Game, c: Config)
    ensures g.previousJeuEnabled == g.jeuEnabled ==> Update(g, c) == (g, false)
    ensures g.previousJeuEnabled != g.jeuEnabled ==>
              Update(g, c).0.previousJeuEnabled == g.jeuEnabled &&
              !Update(g, c).0.jeuActif && !Update(g, c).0.enAttenteSaisie &&
              Update(g, c).1 == g.jeuEnabled
    ensures Update(Update(g, c).0, c) == (Update(g, c).0, false)
  {
  }
}
