/** The LaunchpadSimon component itself: its fields, and one method per C#
    method of the game. Each method is proved to have exactly the effect
    of the matching transition of SimonRules, so everything proved there
    holds of the class. */
module SimonGame {
  import opened UnityRandom
  import opened LaunchpadMidi
  import opened SimonBoard
  import opened SimonRules

  class LaunchpadSimon {
    /** The Launchpad's output port (null when no output port matched) and
        whether a Launchpad was found among the input or the output ports. */
    const launchpadOut: MidiOutPort?
    const deviceConnected: bool
    /** Inspector settings. */
    const nbTouchesJeu: int
    const nombreMaxEtapes: int

    /** The pad tables, filled once by InitializePadPositions. */
    var padPositions: map<int, (int, int)>
    var positionToNote: map<(int, int), int>

    var jeuEnabled: bool
    var previousJeuEnabled: bool
    var jeuActif: bool
    var enAttenteSaisie: bool
    var niveau: int
    var positionReproduction: int
    var sequenceActuelle: seq<int>
    var touchesJeu: seq<int>
    var couleursTouches: map<int, int>
    /** The future outputs of the engine's Random. */
    var rng: Oracle

    /** What the Launchpad shows: the last colour sent to each note and
        control. */
    function Shown(): Leds
      reads launchpadOut
    {
      if launchpadOut == null then Leds(map[], map[])
      else Leds(NoteColours(launchpadOut.sent), ControlValues(launchpadOut.sent))
    }

    function Cfg(): Config
      reads this`padPositions, this`positionToNote
    {
      Config(deviceConnected, deviceConnected && launchpadOut != null, nbTouchesJeu, nombreMaxEtapes, padPositions, positionToNote)
    }

    function State(): Game
      reads this, launchpadOut
    {
      Game(jeuEnabled, previousJeuEnabled, jeuActif, enAttenteSaisie, niveau, positionReproduction,
           sequenceActuelle, touchesJeu, couleursTouches, rng, Shown())
    }

    /** The pad tables are finished. */
    ghost predicate Valid()
      reads this`padPositions, this`positionToNote
    {
      TablesOk(Cfg())
    }

    /** The field initialisers followed by Start: the game disabled and the
        pad tables filled. `out` is the output port found, if any, and
        `inputFound` says whether an input port matched; either one sets
        `deviceConnected`. The two delayed ResetAllLEDs calls of Start are
        left to the caller. */
    constructor (out: MidiOutPort?, inputFound: bool, nbTouches: int, maxSteps: int, random: Oracle)
      ensures launchpadOut == out && deviceConnected == (inputFound || out != null)
      ensures nbTouchesJeu == nbTouches && nombreMaxEtapes == maxSteps
      ensures Valid() && |padPositions| == 64 && |positionToNote| == 64
      ensures State() == Initial(random, Shown())
    {
      launchpadOut := out;
      deviceConnected := inputFound || out != null;
      nbTouchesJeu := nbTouches;
      nombreMaxEtapes := maxSteps;
      padPositions := map[];
      positionToNote := map[];
      jeuEnabled := true;
      previousJeuEnabled := true;
      jeuActif := false;
      enAttenteSaisie := false;
      niveau := 0;
      positionReproduction := 0;
      sequenceActuelle := [];
      touchesJeu := [];
      couleursTouches := map[];
      rng := random;
      new;
      jeuEnabled := false;
      previousJeuEnabled := false;
      InitializePadPositions();
    }

    /** Fills both tables; Dictionary.Add would throw on a key already
        present, so the tables must start empty, and no iteration meets its
        key twice. */
    method InitializePadPositions()
      requires padPositions == map[] && positionToNote == map[]
      modifies this`padPositions, this`positionToNote
      ensures Valid() && |padPositions| == 64 && |positionToNote| == 64
    {
      var y := 0;
      while y < 8
        invariant 0 <= y <= 8
        invariant padPositions == PadPositionsAt(y, 0) && positionToNote == PositionToNoteAt(y, 0)
      {
        for x := 0 to 8
          invariant padPositions == PadPositionsAt(y, x) && positionToNote == PositionToNoteAt(y, x)
        {
          var noteNumber := 11 + x + y * 10;
          PadTablesFresh(y, x);
          assert noteNumber !in padPositions && (x, 7 - y) !in positionToNote;
          padPositions := padPositions[noteNumber := (x, 7 - y)];
          positionToNote := positionToNote[(x, 7 - y) := noteNumber];
        }
        y := y + 1;
      }
      PadTablesDone(y);
    }

    // -------------------------------------------------------------------
    // Display

    method SendColorToLaunchpad(note: int, colorValue: Byte)
      modifies launchpadOut
      ensures Shown() == Send(Cfg(), old(Shown()), note, colorValue)
    {
      if !deviceConnected || launchpadOut == null {
        return;
      }
      launchpadOut.SendNoteOn(ToByte(note), colorValue);
    }

    /** The pad at screen position (x, y), looked up in `positionToNote`. */
    method SetPixel(x: int, y: int, color: int)
      requires Valid()
      modifies launchpadOut
      ensures Shown() == if deviceConnected && launchpadOut != null then SimonBoard.SetPixel(old(Shown()), x, y, color) else old(Shown())
    {
      if !deviceConnected || launchpadOut == null {
        return;
      }
      if (x, y) in positionToNote {
        SendColorToLaunchpad(positionToNote[(x, y)], ToByte(color));
      }
    }

    /** The loop `for y < 8, for x < 8: SetPixel(x, y, colour)` that the
        C# repeats in ResetMainGridLEDs, AfficherMenuPrincipal,
        AfficherSequence, AfficherVictoire and AfficherErreur. */
    method PaintGrid(colour: int)
      requires Valid()
      modifies launchpadOut
      ensures Shown() == Fill(Cfg(), old(Shown()), colour)
    {
      ghost var l0 := Shown();
      var y := 0;
      while y < 8
        invariant 0 <= y <= 8
        invariant Shown() == if deviceConnected && launchpadOut != null then PaintAt(l0, y, 0, colour) else l0
      {
        for x := 0 to 8
          invariant Shown() == if deviceConnected && launchpadOut != null then PaintAt(l0, y, x, colour) else l0
        {
          SetPixel(x, y, colour);
        }
        y := y + 1;
      }
      if deviceConnected && launchpadOut != null {
        PaintLoopFills(l0, y, colour);
      }
    }

    method ResetMainGridLEDs()
      requires Valid()
      modifies launchpadOut
      ensures Shown() == Fill(Cfg(), old(Shown()), 0)
    {
      if !deviceConnected || launchpadOut == null {
        return;
      }
      PaintGrid(0);
    }

    method ResetAllLEDs()
      modifies launchpadOut
      ensures Shown() == Clear(Cfg(), old(Shown()))
    {
      if !deviceConnected || launchpadOut == null {
        return;
      }
      ghost var l0 := Shown();
      for note := 0 to 128
        invariant Shown() == ResetNotesBelow(l0, note)
      {
        launchpadOut.SendNoteOn(ToByte(note), 0);
      }
      ghost var l1 := Shown();
      for cc := 0 to 128
        invariant Shown() == ResetControlsBelow(l1, cc)
      {
        launchpadOut.SendControlChange(ToByte(cc), 0);
      }
      ghost var l2 := Shown();
      for y := 0 to 9
        invariant Shown() == ResetSquareAt(l2, y, 0)
      {
        for x := 0 to 9
          invariant Shown() == ResetSquareAt(l2, y, x)
        {
          launchpadOut.SendNoteOn(ToByte(16 * y + x), 0);
        }
      }
      ResetLoopsMeaning(l0);
    }

    /** `for i < count`: Control Change `colour` on top button i. */
    method LightTopButtons(count: int, colour: Byte)
      requires deviceConnected && launchpadOut != null && count <= 8
      modifies launchpadOut
      ensures Shown() == LightTop(old(Shown()), count, colour)
    {
      ghost var l0 := Shown();
      var i := 0;
      while i < count
        invariant 0 <= i && (i <= count || i == 0)
        invariant Shown() == LightTop(l0, i, colour)
      {
        launchpadOut.SendControlChange(ToByte(TopButton(i)), colour);
        i := i + 1;
      }
    }

    /** `for i < count`: SendColorToLaunchpad(right button i, colour). */
    method LightRightButtons(count: int, colour: Byte)
      requires deviceConnected && launchpadOut != null && count <= 8
      modifies launchpadOut
      ensures Shown() == LightRight(old(Shown()), count, colour)
    {
      ghost var l0 := Shown();
      var i := 0;
      while i < count
        invariant 0 <= i && (i <= count || i == 0)
        invariant Shown() == LightRight(l0, i, colour)
      {
        SendColorToLaunchpad(RightButton(i), colour);
        i := i + 1;
      }
    }

    method AfficherProgressionNiveaux()
      modifies launchpadOut
      ensures Shown() == ShowProgress(Cfg(), old(Shown()), niveau)
    {
      if !deviceConnected || launchpadOut == null {
        return;
      }
      ghost var l0 := Shown();
      LightTopButtons(8, 0);
      LightRightButtons(8, 0);
      var boutonsAfficher := Min(nombreMaxEtapes, 8);
      LightTopButtons(boutonsAfficher, 96);
      if nombreMaxEtapes > 8 {
        LightRightButtons(Min(nombreMaxEtapes - 8, 8), 96);
      }
      var etapesCompletees := niveau - 1;
      LightTopButtons(Min(etapesCompletees, 8), 87);
      if etapesCompletees > 8 {
        LightRightButtons(Min(etapesCompletees - 8, 8), 87);
      }
      ProgressLoopsMeaning(l0, niveau, nombreMaxEtapes);
    }

    method AfficherToutesEtapesCompletees()
      modifies launchpadOut
      ensures Shown() == ShowAllDone(Cfg(), old(Shown()))
    {
      if !deviceConnected || launchpadOut == null {
        return;
      }
      LightTopButtons(Min(nombreMaxEtapes, 8), 87);
      if nombreMaxEtapes > 8 {
        LightRightButtons(Min(nombreMaxEtapes - 8, 8), 87);
      }
    }

    /** The START pads in green, unless the game was disabled meanwhile. */
    method AfficherBoutonsStart()
      requires Valid()
      modifies launchpadOut
      ensures Shown() == if jeuEnabled then ShowStartButtons(Cfg(), old(Shown())) else old(Shown())
    {
      if !jeuEnabled {
        return;
      }
      SetPixel(3, 3, 21);
      SetPixel(4, 3, 21);
      SetPixel(3, 4, 21);
      SetPixel(4, 4, 21);
    }

    method AfficherMenuPrincipal()
      requires Valid()
      modifies launchpadOut
      ensures State() == MainMenu(old(State()), Cfg())
    {
      if !jeuEnabled {
        return;
      }
      PaintGrid(0);
      AfficherBoutonsStart();
    }

    // -------------------------------------------------------------------
    // Game flow

    method ArreterJeu()
      modifies this`jeuActif, this`enAttenteSaisie, launchpadOut
      ensures State() == StopGame(old(State()), Cfg())
    {
      jeuActif := false;
      enAttenteSaisie := false;
      ResetAllLEDs();
    }

    /** Fisher-Yates in place; each step draws one Random.Range. */
    method ShuffleList<T>(list: array<T>)
      modifies list, this`rng
      ensures (list[..], rng) == Shuffle(old(list[..]), old(rng))
    {
      var n := list.Length;
      while n > 1
        invariant 0 <= n <= list.Length
        invariant ShuffleFrom(list[..], n, rng) == Shuffle(old(list[..]), old(rng))
        decreases n
      {
        n := n - 1;
        var k := Range(rng, 0, n + 1);
        rng := Advance(rng);
        ghost var before := list[..];
        var value := list[k];
        list[k] := list[n];
        list[n] := value;
        assert list[..] == Swap(before, k, n);
      }
    }

    method AfficherVictoire()
      requires Valid()
      modifies this`jeuEnabled, this`previousJeuEnabled, this`jeuActif, this`enAttenteSaisie, launchpadOut
      ensures State() == Victory(old(State()), Cfg())
    {
      if !jeuEnabled {
        return;
      }
      AfficherToutesEtapesCompletees();
      PaintGrid(21);
      ghost var l1 := Shown();
      for i := 0 to 5
        invariant Shown() == Flashes(Cfg(), l1, i)
        modifies launchpadOut
      {
        PaintGrid(0);
        PaintGrid(21);
      }
      jeuEnabled := false;
      previousJeuEnabled := false;
      ArreterJeu();
    }

    /** Returns false when `couleursTouches[note]` threw. */
    method AfficherSequence() returns (completed: bool)
      requires Valid()
      modifies launchpadOut
      ensures jeuEnabled ==> (Shown(), completed) == ShowSequence(Cfg(), old(Shown()), sequenceActuelle, couleursTouches)
      ensures !jeuEnabled ==> Shown() == old(Shown()) && completed
    {
      completed := true;
      if !jeuEnabled {
        return;
      }
      PaintGrid(0);
      ghost var l1 := Shown();
      for i := 0 to |sequenceActuelle|
        invariant FlashNotes(Cfg(), Shown(), sequenceActuelle[i..], couleursTouches) ==
                  FlashNotes(Cfg(), l1, sequenceActuelle, couleursTouches)
      {
        var note := sequenceActuelle[i];
        assert sequenceActuelle[i..][0] == note && sequenceActuelle[i..][1..] == sequenceActuelle[i + 1..];
        if note !in couleursTouches {
          completed := false;
          return;
        }
        SendColorToLaunchpad(note, ToByte(couleursTouches[note]));
        SendColorToLaunchpad(note, 0);
      }
      ghost var l2 := Shown();
      for i := 0 to 3
        invariant Shown() == Blinks(Cfg(), l2, i)
      {
        SetCorners(21);
        SetCorners(0);
      }
    }

    /** Four of the SetPixel calls of AfficherSequence's blink loop: the
        corners (0, 0), (7, 0), (0, 7) and (7, 7) in one colour. */
    method SetCorners(colour: int)
      requires Valid()
      modifies launchpadOut
      ensures Shown() == Corners(Cfg(), old(Shown()), colour)
    {
      SetPixel(0, 0, colour);
      SetPixel(7, 0, colour);
      SetPixel(0, 7, colour);
      SetPixel(7, 7, colour);
    }

    method PasserAuNiveauSuivant()
      requires Valid()
      modifies this`jeuEnabled, this`previousJeuEnabled, this`jeuActif, this`enAttenteSaisie,
               this`niveau, this`positionReproduction, this`sequenceActuelle, this`rng, launchpadOut
      ensures State() == NextLevel(old(State()), Cfg())
    {
      if !jeuEnabled {
        return;
      }
      ghost var g0 := State();
      niveau := niveau + 1;
      assert State() == LevelUp(g0);
      if niveau > nombreMaxEtapes {
        AfficherVictoire();
        return;
      }
      AfficherProgressionNiveaux();
      assert State() == ProgressShown(LevelUp(g0), Cfg());
      DrawNextKey();
    }

    /** The draw in PasserAuNiveauSuivant, after the level display. */
    method DrawNextKey()
      requires Valid() && jeuEnabled
      modifies this`enAttenteSaisie, this`positionReproduction, this`sequenceActuelle, this`rng, launchpadOut
      ensures State() == DrawKey(old(State()), Cfg())
    {
      ghost var g0 := State();
      if niveau == 1 {
        sequenceActuelle := [];
      }
      var k := Range(rng, 0, |touchesJeu|);
      rng := Advance(rng);
      if |touchesJeu| == 0 {
        // touchesJeu[0] throws.
        return;
      }
      sequenceActuelle := sequenceActuelle + [touchesJeu[k]];
      assert State() == KeyAppended(g0);
      PlayAndAwait();
    }

    /** The end of PasserAuNiveauSuivant: the sequence is shown, then input opens. */
    method PlayAndAwait()
      requires Valid() && jeuEnabled
      modifies this`enAttenteSaisie, this`positionReproduction, launchpadOut
      ensures State() == PlaySequence(old(State()), Cfg())
    {
      var completed := AfficherSequence();
      if !completed {
        return;
      }
      positionReproduction := 0;
      enAttenteSaisie := true;
    }

    /** The gathering loop of ChoisirTouchesJeu: the notes of the positions
        x in [2, 6), y in [3, 7), row by row. */
    method CollectCentreNotes() returns (notes: seq<int>)
      ensures notes == CentreNotesAt(positionToNote, 7, 2)
    {
      notes := [];
      var y := 3;
      while y < 7
        invariant 3 <= y <= 7
        invariant notes == CentreNotesAt(positionToNote, y, 2)
      {
        for x := 2 to 6
          invariant notes == CentreNotesAt(positionToNote, y, x)
        {
          if (x, y) in positionToNote {
            notes := notes + [positionToNote[(x, y)]];
          }
        }
        y := y + 1;
      }
    }

    /** The taking loop of ChoisirTouchesJeu:
        `for i < Min(nbTouchesJeu, count)`, touchesJeu.Add(notes[i]). */
    method TakeKeys(notesDisponibles: array<int>)
      requires touchesJeu == []
      modifies this`touchesJeu
      ensures touchesJeu == notesDisponibles[..KeyCount(nbTouchesJeu, notesDisponibles.Length)]
    {
      var i := 0;
      while i < Min(nbTouchesJeu, notesDisponibles.Length)
        invariant 0 <= i <= KeyCount(nbTouchesJeu, notesDisponibles.Length)
        invariant touchesJeu == notesDisponibles[..i]
      {
        touchesJeu := touchesJeu + [notesDisponibles[i]];
        i := i + 1;
      }
    }

    /** The colouring loop of ChoisirTouchesJeu:
        `couleursTouches[touchesJeu[i]] = couleurs[i % couleurs.Count]`. */
    method AssignColours(couleurs: array<int>)
      requires couleurs.Length > 0 && couleursTouches == map[]
      modifies this`couleursTouches
      ensures couleursTouches == ColourKeys(touchesJeu, couleurs[..], |touchesJeu|)
    {
      for i := 0 to |touchesJeu|
        invariant couleursTouches == ColourKeys(touchesJeu, couleurs[..], i)
      {
        couleursTouches := couleursTouches[touchesJeu[i] := couleurs[i % couleurs.Length]];
      }
    }

    /** `new List<int>(s)`: a fresh list holding s. */
    static method NewList(s: seq<int>) returns (list: array<int>)
      ensures fresh(list) && list[..] == s
    {
      list := new int[|s|](i requires 0 <= i < |s| => s[i]);
    }

    /** The notes of the centre block gathered into a list, the list
        shuffled, and its first Min(nbTouchesJeu, count) notes taken as the
        keys. */
    method PickKeyNotes()
      requires touchesJeu == []
      modifies this`touchesJeu, this`rng
      ensures var notes := Shuffle(CentreNotesAt(positionToNote, 7, 2), old(rng));
              State() == old(State()).(touchesJeu := notes.0[..KeyCount(nbTouchesJeu, |notes.0|)], rng := notes.1)
    {
      var notes := CollectCentreNotes();
      var notesDisponibles := NewList(notes);
      ShuffleList(notesDisponibles);
      TakeKeys(notesDisponibles);
    }

    /** A copy of couleursJeu shuffled, and the keys coloured from it. */
    method PickColours()
      requires couleursTouches == map[]
      modifies this`couleursTouches, this`rng
      ensures var colours := Shuffle(CouleursJeu(), old(rng));
              State() == old(State()).(couleursTouches := ColourKeys(touchesJeu, colours.0, |touchesJeu|), rng := colours.1)
    {
      var couleurs := NewList(CouleursJeu());
      ShuffleList(couleurs);
      AssignColours(couleurs);
    }

    /** Everything ChoisirTouchesJeu does before its last statement. */
    method ChooseKeyNotes()
      requires Valid()
      modifies this`touchesJeu, this`couleursTouches, this`rng, launchpadOut
      ensures State() == ChooseKeys(old(State()), Cfg())
    {
      touchesJeu := [];
      couleursTouches := map[];
      ResetMainGridLEDs();
      PickKeyNotes();
      PickColours();
    }

    /** The keys chosen, then the first level. */
    method ChoisirTouchesJeu()
      requires Valid()
      modifies this`jeuEnabled, this`previousJeuEnabled, this`jeuActif, this`enAttenteSaisie,
               this`niveau, this`positionReproduction, this`sequenceActuelle, this`touchesJeu,
               this`couleursTouches, this`rng, launchpadOut
      ensures State() == NextLevel(ChooseKeys(old(State()), Cfg()), Cfg())
    {
      ChooseKeyNotes();
      PasserAuNiveauSuivant();
    }

    method DemarrerPartie()
      requires Valid()
      modifies this`jeuEnabled, this`previousJeuEnabled, this`jeuActif, this`enAttenteSaisie,
               this`niveau, this`positionReproduction, this`sequenceActuelle, this`touchesJeu,
               this`couleursTouches, this`rng, launchpadOut
      ensures State() == StartGame(old(State()), Cfg())
    {
      if !deviceConnected || !jeuEnabled {
        return;
      }
      ghost var g0 := State();
      jeuActif := true;
      niveau := 0;
      ResetMainGridLEDs();
      AfficherProgressionNiveaux();
      assert State() == Started(g0, Cfg());
      ChoisirTouchesJeu();
    }

    method AfficherErreur()
      requires Valid()
      modifies this`jeuActif, this`enAttenteSaisie, launchpadOut
      ensures State() == ErrorAnimation(old(State()), Cfg())
    {
      if !jeuEnabled {
        return;
      }
      enAttenteSaisie := false;
      ghost var l0 := Shown();
      for i := 0 to 3
        invariant Shown() == RedFills(Cfg(), l0, i) && !enAttenteSaisie && jeuActif == old(jeuActif)
      {
        PaintGrid(5);
      }
      jeuActif := false;
      AfficherMenuPrincipal();
    }

    // -------------------------------------------------------------------
    // Handlers

    /** A pad press; the MIDI channel is not looked at. */
    method HandleNoteOn(channel: Byte, note: Byte, velocity: Byte)
      requires Valid()
      modifies this`jeuEnabled, this`previousJeuEnabled, this`jeuActif, this`enAttenteSaisie,
               this`niveau, this`positionReproduction, this`sequenceActuelle, this`touchesJeu,
               this`couleursTouches, this`rng, launchpadOut
      ensures State() == SimonRules.NoteOn(old(State()), Cfg(), note, velocity)
    {
      if !jeuEnabled {
        return;
      }
      if velocity == 0 {
        return;
      }
      if !jeuActif {
        if note in padPositions {
          var pos := padPositions[note];
          if (pos.0 == 3 || pos.0 == 4) && (pos.1 == 3 || pos.1 == 4) {
            DemarrerPartie();
          }
        }
        return;
      }
      if enAttenteSaisie {
        if note in touchesJeu {
          if note !in couleursTouches {
            // couleursTouches[note] throws.
            return;
          }
          SendColorToLaunchpad(note, ToByte(couleursTouches[note]));
          CheckPress(note);
        }
      }
    }

    /** The second half of HandleNoteOn: the lit key against the sequence. */
    method CheckPress(note: int)
      requires Valid()
      modifies this`jeuEnabled, this`previousJeuEnabled, this`jeuActif, this`enAttenteSaisie,
               this`niveau, this`positionReproduction, this`sequenceActuelle, this`rng, launchpadOut
      ensures State() == Press(old(State()), Cfg(), note)
    {
      if !(0 <= positionReproduction < |sequenceActuelle|) {
        // sequenceActuelle[positionReproduction] throws.
        return;
      }
      ghost var g0 := State();
      if note == sequenceActuelle[positionReproduction] {
        positionReproduction := positionReproduction + 1;
        if positionReproduction >= |sequenceActuelle| {
          enAttenteSaisie := false;
          assert State() == KeyCompleted(g0);
          PasserAuNiveauSuivant();
        } else {
          assert State() == g0.(positionReproduction := positionReproduction);
        }
      } else {
        AfficherErreur();
      }
    }

    method HandleNoteOff(channel: Byte, note: Byte)
      modifies launchpadOut
      ensures State() == NoteOff(old(State()), Cfg(), note)
    {
      if !jeuEnabled {
        return;
      }
      if jeuActif && note in touchesJeu {
        SendColorToLaunchpad(note, 0);
      }
    }

    /** The jeuEnabled edge detection of Update; returns whether
        AfficherMenuPrincipal was scheduled. */
    method Update() returns (menuScheduled: bool)
      modifies this`jeuActif, this`enAttenteSaisie, this`previousJeuEnabled, launchpadOut
      ensures (State(), menuScheduled) == SimonRules.Update(old(State()), Cfg())
    {
      menuScheduled := false;
      if previousJeuEnabled != jeuEnabled {
        if jeuEnabled {
          ArreterJeu();
          menuScheduled := true;
        } else {
          ArreterJeu();
        }
        previousJeuEnabled := jeuEnabled;
      }
    }

    /** A collider entering the trigger; `isPlayer` is its "Player" tag
        test. Returns whether AfficherMenuPrincipal was scheduled. */
    method OnTriggerEnter(isPlayer: bool) returns (menuScheduled: bool)
      modifies this`jeuEnabled
      ensures (State(), menuScheduled) == TriggerEnter(old(State()), isPlayer)
    {
      menuScheduled := false;
      if isPlayer {
        jeuEnabled := true;
        menuScheduled := true;
      }
    }
  }
}
