# Launchpad games, dialogue markup and lights: a Dafny model

This project models the sequential logic of four Unity scripts of a small game.
Each script is modelled in its own form: classes whose methods update fields and
arrays, and the pure functions and lemmas that specify them.

- **Simon on a Novation Launchpad** (`LaunchpadSimon.cs`): modules `SimonBoard`,
  `SimonRules` and `SimonGame`.
  - The 8x8 pad-to-note tables and their inverse.
  - The Fisher-Yates shuffle.
  - The choice of game keys in the 4x4 centre block and their colours.
  - The check of each press against the sequence.
  - The growth of the sequence by one key per level, and victory.
  - The level-progress buttons.
  - The LEDs are the last colour sent to each note and control (module
    `LaunchpadMidi`). `Random.Range` is an injected oracle sequence (module
    `UnityRandom`).
  - The class `SimonGame.LaunchpadSimon` keeps the fields of the script. Each
    handler and coroutine is a method. Its new state is the matching transition
    function of `SimonRules`. The game invariant is proved about those functions.
    A coroutine is one atomic transition, guarded by its own `jeuEnabled` test.
- **Pixel art on the Launchpad** (`LaunchpadPixelart.cs`): module `PixelArt`.
  - The pad table, which agrees with the Simon table.
  - The two 8x8 pictures and their palettes.
  - Clearing, drawing and showing the palette, all over a log of Note On
    messages.
- **Dialogue markup** (`Dialogue3DText.cs`): modules `DialogueMarkup`,
  `DialogueText`, `DialogueReveal` and `DialogueExamples`.
  - A hand-written leftmost scanner for `/(speed|anim)\[(\d+(?:\.\d+)?)\]\(([^\(\)]*)\)`,
    proved sound and complete against the markup it spells.
  - `ProcessSingleTagLevel` over an insertion-ordered dictionary class: splice,
    tag, shift, clear and refill.
  - `ProcessAllModifiers`, which runs to a fixed point that always exists,
    because every level shortens the text by at least ten characters.
  - The prefab name of each character.
  - The order, `charIndex` and attributes of the characters `RevealText` shows.
- **Random light selector** (`LightControllerMqtt.cs`): module `LightController`.
  - `TurnOffAllLights`.
  - `ActivateRandomLight`, with its bounded do-while loop, over an array of
    optional lights.

Two behaviours of the markup code follow from the code as written. They are
proved as such:

- **A tag nested inside another loses its attribute.** When the outer tag is
  spliced, the inner tag's entry lies after the start of the content, so it
  moves down by the markup length. `DialogueExamples.NestedSpeedLost` shows that
  `/anim[1](/speed[2](x))` gives `x` an animation at normal speed.
- **A tag after a line break marks the wrong character, or none.**
  Attributes are recorded on the working text, where each line break is the
  one character `\n`. They are then stored against the cleaned text, where
  each line break is the two characters `/n`. With k line breaks before a
  tag, its entry sits k places early in the cleaned text. RevealText does
  not count the `/n` markers in `charIndex`, so on screen the attribute goes
  to the character k places later, or to no character at all.
  `DialogueExamples.BrokenModifiers` and `DialogueExamples.BrokenReveal`
  show that in `a/n/anim[1](b)` the entry falls on the `n` of `/n`, and
  nothing shown bobs. `DialogueExamples.LateModifiers` and
  `DialogueExamples.LateReveal` show that in `a/n/anim[1](b)c` it is `c`
  that bobs. `DialogueExamples.LostModifiers` and
  `DialogueExamples.LostReveal` show that in `a/nb/n/anim[1](c)` the entry
  sits at index 4, which no shown character reads.

## Model

| member | source | states |
|---|---|---|
| UnityRandom.Range | Assets/Scripts/LaunchpadSimon.cs:555 | Random.Range(lo, hi) on integers lies in [lo, hi) for a non-empty range and is lo for an empty one; the injected oracle decides which value |
| UnityRandom.RangeSurjective | Assets/Scripts/LaunchpadSimon.cs:1017 | every value of a non-empty range is produced by some oracle, so the oracle restricts no behaviour of the engine |
| LaunchpadMidi.ToByte | Assets/Scripts/LaunchpadSimon.cs:345 | the C# cast `(byte)v` keeps values already in 0..255 and always yields a byte |
| LaunchpadMidi.NoteColours | Assets/Scripts/LaunchpadSimon.cs:338-351 | the colour each pad shows after a run of messages is a byte, indexed by a byte |
| LaunchpadMidi.ControlValues | Assets/Scripts/LaunchpadSimon.cs:588 | the colour each top button shows after a run of messages is a byte, indexed by a byte |
| LaunchpadMidi.ColoursAfterSend | Assets/Scripts/LaunchpadSimon.cs:338-351 | one more Note On changes only the colour of its own note, one more Control Change only that of its own button |
| LaunchpadMidi.NoteShownIffSent | Assets/Scripts/LaunchpadSimon.cs:338-351 | a pad shows a colour if and only if some Note On was sent to it |
| LaunchpadMidi.NoteShowsLastWrite | Assets/Scripts/LaunchpadSimon.cs:338-351 | a pad shows the velocity of the last Note On sent to it |
| LaunchpadMidi.ControlShowsLastWrite | Assets/Scripts/LaunchpadSimon.cs:588 | a top button shows the value of the last Control Change sent to it |
| LaunchpadMidi.MidiOutPort.SendNoteOn | Assets/Scripts/LaunchpadSimon.cs:345 | appends the Note On to the port's log; only that note's colour changes |
| LaunchpadMidi.MidiOutPort.SendControlChange | Assets/Scripts/LaunchpadSimon.cs:588 | appends the Control Change to the log; only that button's colour changes |
| SimonBoard.GridNoteDecode | Assets/Scripts/LaunchpadSimon.cs:151-164 | the note `11 + x + 10 * y` of a grid cell is a grid note and decodes back to (x, y) |
| SimonBoard.GridNoteEncode | Assets/Scripts/LaunchpadSimon.cs:151-164 | every grid note is the note of the cell it decodes to |
| SimonBoard.GridNoteInjective | Assets/Scripts/LaunchpadSimon.cs:151-164 | two cells share a note if and only if they are the same cell |
| SimonBoard.PadTablesCell | Assets/Scripts/LaunchpadSimon.cs:151-164 | after the loops reach (x, y), a cell's note maps to (x, 7 - y) in padPositions, and back in positionToNote, exactly when the cell was visited |
| SimonBoard.PadTablesKeys | Assets/Scripts/LaunchpadSimon.cs:151-164 | the tables only ever hold grid notes and grid positions |
| SimonBoard.PadTablesFresh | Assets/Scripts/LaunchpadSimon.cs:151-164 | the key each Dictionary.Add inserts is not present yet, so the loops never throw |
| SimonBoard.PadTablesSize | Assets/Scripts/LaunchpadSimon.cs:151-164 | after y full rows and x cells both tables hold 8y + x entries |
| SimonBoard.PadTablesDone | Assets/Scripts/LaunchpadSimon.cs:151-164 | the finished tables have 64 entries each and have the shape of the pad and position tables |
| SimonBoard.PadMappingInverse | Assets/Scripts/LaunchpadSimon.cs:151-164 | padPositions and positionToNote are inverse to each other |
| SimonBoard.PaintCell | Assets/Scripts/LaunchpadSimon.cs:402-415 | the nested SetPixel loop has painted exactly the cells visited so far, with the byte of the colour, and left the top buttons alone |
| SimonBoard.PaintOther | Assets/Scripts/LaunchpadSimon.cs:432-442 | SetPixel never changes a note outside the grid |
| SimonBoard.PaintLoopFills | Assets/Scripts/LaunchpadSimon.cs:402-415 | the finished loop has the effect of painting the whole grid one colour |
| SimonBoard.FillGridTwice | Assets/Scripts/LaunchpadSimon.cs:696-728 | painting the grid twice leaves only the second colour |
| SimonBoard.ResetNotesMeaning | Assets/Scripts/LaunchpadSimon.cs:360-363 | the first reset loop switches off notes 0 up to its counter and nothing else |
| SimonBoard.ResetControlsMeaning | Assets/Scripts/LaunchpadSimon.cs:366-369 | the second reset loop switches off controls 0 up to its counter and nothing else |
| SimonBoard.ResetSquareNote | Assets/Scripts/LaunchpadSimon.cs:372-380 | the `16 * y + x` loop only switches notes below 137 off and leaves every other note as it was |
| SimonBoard.ResetSquareCell | Assets/Scripts/LaunchpadSimon.cs:372-380 | every visited `16 * y + x` note is off |
| SimonBoard.ResetLoopsAt | Assets/Scripts/LaunchpadSimon.cs:353-381 | after ResetAllLEDs, notes 0..136 and controls 0..127 are off and every other LED is unchanged |
| SimonBoard.ResetLoopsMeaning | Assets/Scripts/LaunchpadSimon.cs:353-381 | the three reset loops together equal the net effect "all of notes 0..136 and controls 0..127 off" |
| SimonBoard.ButtonIndices | Assets/Scripts/LaunchpadSimon.cs:83-106 | the i-th top button is CC 104 + i and the i-th right button note 89 - 10i; both decode back to i, and no right button is a grid pad |
| SimonBoard.LightTopMeaning | Assets/Scripts/LaunchpadSimon.cs:605-611 | lighting the first `count` top buttons changes exactly those buttons, to the given colour |
| SimonBoard.LightRightMeaning | Assets/Scripts/LaunchpadSimon.cs:620-626 | lighting the first `count` right buttons changes exactly those buttons, to the given colour |
| SimonBoard.ProgressLoopsControl | Assets/Scripts/LaunchpadSimon.cs:578-656 | after AfficherProgressionNiveaux every top button shows off, amber (a step to do) or green (a step done), and other controls are unchanged |
| SimonBoard.ProgressLoopsNote | Assets/Scripts/LaunchpadSimon.cs:578-656 | every right button shows off, amber or green for steps 9 to 16, and other notes are unchanged |
| SimonBoard.ProgressLoopsMeaning | Assets/Scripts/LaunchpadSimon.cs:578-656 | the sequence of progress loops equals its per-button net effect |
| SimonBoard.AllStepsDoneAt | Assets/Scripts/LaunchpadSimon.cs:749-779 | AfficherToutesEtapesCompletees turns green exactly the buttons of the first nombreMaxEtapes steps |
| SimonBoard.StartPadLookup | Assets/Scripts/LaunchpadSimon.cs:277-287 | a note is a start pad exactly when padPositions holds it at x and y in {3, 4} |
| SimonBoard.StartPads | Assets/Scripts/LaunchpadSimon.cs:417-430 | the start pads are notes 44, 45, 54 and 55; AfficherBoutonsStart lights exactly them green (21) |
| SimonRules.GameColours | Assets/Scripts/LaunchpadSimon.cs:33-42 | a value is one of the eight couleursJeu entries exactly when it is one of 5, 21, 52, 95, 9, 73, 46 |
| SimonRules.CornersTwice | Assets/Scripts/LaunchpadSimon.cs:929-946 | lighting the four corners twice leaves only the second colour |
| SimonRules.BlinksEndDark | Assets/Scripts/LaunchpadSimon.cs:920-955 | after one or more blinks of AfficherSequence the corners are off |
| SimonRules.FlashesEndGreen | Assets/Scripts/LaunchpadSimon.cs:696-737 | the off/green flashes of AfficherVictoire, started from a green grid, end on a green grid |
| SimonRules.RedFillsEndRed | Assets/Scripts/LaunchpadSimon.cs:970-994 | after one or more red fills of AfficherErreur the whole grid is red (5) |
| SimonRules.Swap | Assets/Scripts/LaunchpadSimon.cs:1018-1020 | the swap exchanges positions k and n and keeps every other element |
| SimonRules.SwapPermutes | Assets/Scripts/LaunchpadSimon.cs:1018-1020 | a swap is a permutation and keeps the elements distinct |
| SimonRules.ShufflePermutes | Assets/Scripts/LaunchpadSimon.cs:1011-1022 | ShuffleList permutes the list (same multiset, distinctness kept) and draws n - 1 random numbers |
| SimonRules.ShuffledMembers | Assets/Scripts/LaunchpadSimon.cs:1011-1022 | the shuffled list has the same members as the list |
| SimonRules.CentreNotesAre | Assets/Scripts/LaunchpadSimon.cs:486-495 | the centre notes are the sixteen pads of columns 2 to 5 and rows 3 to 6 |
| SimonRules.CentreNotesLength | Assets/Scripts/LaunchpadSimon.cs:486-495 | the collection loop has gathered 4(y - 3) + (x - 2) notes when it reaches (x, y) |
| SimonRules.CentreNotesMember | Assets/Scripts/LaunchpadSimon.cs:486-495 | a note is gathered exactly when it lies in the centre block and its cell was visited |
| SimonRules.CentreNotesDistinct | Assets/Scripts/LaunchpadSimon.cs:486-495 | the gathered notes are distinct |
| SimonRules.CentreNotesBlock | Assets/Scripts/LaunchpadSimon.cs:485-495 | notesDisponibles holds the sixteen centre notes once each |
| SimonRules.KeyCount | Assets/Scripts/LaunchpadSimon.cs:501 | Mathf.Min(nbTouchesJeu, count) used as a loop bound: between 0 and count, nbTouchesJeu when that fits |
| SimonRules.ColourKeysAt | Assets/Scripts/LaunchpadSimon.cs:511-514 | couleursTouches has a key exactly for the keys handled so far, each mapped to a palette colour |
| SimonRules.ColourKeysIndex | Assets/Scripts/LaunchpadSimon.cs:511-514 | key i gets colour `couleurs[i % couleurs.Count]` |
| SimonRules.ColourKeysDomain | Assets/Scripts/LaunchpadSimon.cs:511-514 | after the loop every game key, and nothing else, has a colour from the shuffled palette |
| SimonRules.PrefixOf | Assets/Scripts/LaunchpadSimon.cs:501-504 | the first nbTouchesJeu shuffled notes are distinct centre notes |
| SimonRules.KeysFromShuffled | Assets/Scripts/LaunchpadSimon.cs:476-518 | keys taken from distinct centre notes and coloured from the game palette satisfy the key invariant |
| SimonRules.ShuffledCentre | Assets/Scripts/LaunchpadSimon.cs:485-498 | the shuffled centre notes are sixteen distinct centre notes, at the cost of fifteen draws |
| SimonRules.ShuffledPalette | Assets/Scripts/LaunchpadSimon.cs:507-508 | the shuffled palette holds eight game colours, at the cost of seven draws |
| SimonRules.KeySelection | Assets/Scripts/LaunchpadSimon.cs:476-518 | ChoisirTouchesJeu picks min(nbTouchesJeu, 16) distinct centre keys, colours exactly those keys with game colours, and makes 22 draws |
| SimonRules.FlashNotesOk | Assets/Scripts/LaunchpadSimon.cs:886-917 | AfficherSequence's note loop completes exactly when every note of the sequence has a colour (otherwise the dictionary lookup throws) |
| SimonRules.InitialInv | Assets/Scripts/LaunchpadSimon.cs:46-53 | the initial field values satisfy the game invariant |
| SimonRules.NoteOnIgnored | Assets/Scripts/LaunchpadSimon.cs:268-273 | a press while the game is disabled, or with velocity 0, changes nothing |
| SimonRules.PressWithoutGame | Assets/Scripts/LaunchpadSimon.cs:276-288 | with no game running, a press on one of the four centre pads starts a game and any other press changes nothing |
| SimonRules.StartPadNotes | Assets/Scripts/LaunchpadSimon.cs:278-282 | the padPositions test of HandleNoteOn accepts exactly notes 44, 45, 54, 55 |
| SimonRules.PressOfOtherNote | Assets/Scripts/LaunchpadSimon.cs:291-294 | during a game a press on a note that is not a game key changes nothing |
| SimonRules.CorrectPress | Assets/Scripts/LaunchpadSimon.cs:294-303 | a correct press that does not finish the sequence lights the key and advances positionReproduction by one, nothing else |
| SimonRules.CompletePress | Assets/Scripts/LaunchpadSimon.cs:294-309 | the press that completes the sequence lights the key, stops waiting and runs PasserAuNiveauSuivant |
| SimonRules.WrongPress | Assets/Scripts/LaunchpadSimon.cs:311-315 | a wrong game key ends the game: no longer waiting or active, the level, sequence and keys kept, the grid cleared and the start pads lit |
| SimonRules.NextLevelGrows | Assets/Scripts/LaunchpadSimon.cs:521-575 | below the maximum, the next level appends one random game key to the sequence (starting afresh at level 1), resets the position and waits for input |
| SimonRules.NextLevelVictory | Assets/Scripts/LaunchpadSimon.cs:529-536 | beyond nombreMaxEtapes the victory animation runs and the game is disabled and stopped, with the LEDs cleared at the end |
| SimonRules.NextLevelWithoutKeys | Assets/Scripts/LaunchpadSimon.cs:551-561 | with no game keys the draw's index throws: the level goes up, one draw is used and the coroutine ends |
| SimonRules.StopGameClears | Assets/Scripts/LaunchpadSimon.cs:444-456 | ArreterJeu leaves no game running or waiting and, when a Launchpad was found and the output port is set, every reset LED off |
| SimonRules.NextLevelInv | Assets/Scripts/LaunchpadSimon.cs:521-575 | the next level keeps the game invariant (sequence of game keys, position within it while waiting) |
| SimonRules.StartGameInv | Assets/Scripts/LaunchpadSimon.cs:458-474 | starting a game keeps the invariant |
| SimonRules.NoteOnInv | Assets/Scripts/LaunchpadSimon.cs:268-318 | every pad press keeps the invariant, so `sequenceActuelle[positionReproduction]` never throws while waiting |
| SimonRules.PressInv | Assets/Scripts/LaunchpadSimon.cs:294-317 | the comparison with the sequence keeps the invariant |
| SimonRules.OtherHandlersInv | Assets/Scripts/LaunchpadSimon.cs:320-330 | note off, Update, the trigger and the main menu keep the invariant |
| SimonRules.UpdateEdge | Assets/Scripts/LaunchpadSimon.cs:117-131 | Update acts only on a change of jeuEnabled, then stops the game, schedules the menu when enabled, and records the new value, so a second Update does nothing |
| SimonGame.LaunchpadSimon.constructor | Assets/Scripts/LaunchpadSimon.cs:46-81 | the field initialisers and Start: the game disabled with no keys, sequence or level, and both pad tables finished (64 entries each); a Launchpad counts as found when it matched among the input ports or the output ports, and only the output port is kept for sending |
| SimonGame.LaunchpadSimon.InitializePadPositions | Assets/Scripts/LaunchpadSimon.cs:151-164 | the nested loop fills padPositions and positionToNote with the 64 pads and their inverse positions |
| SimonGame.LaunchpadSimon.SendColorToLaunchpad | Assets/Scripts/LaunchpadSimon.cs:338-351 | sends one Note On when a Launchpad was found and the output port is set, and nothing otherwise |
| SimonGame.LaunchpadSimon.SetPixel | Assets/Scripts/LaunchpadSimon.cs:432-442 | lights the pad at (x, y) with the byte of the colour when the output port is set; positions off the grid send nothing |
| SimonGame.LaunchpadSimon.PaintGrid | Assets/Scripts/LaunchpadSimon.cs:402-415 | the 8x8 SetPixel loop paints the whole grid one colour |
| SimonGame.LaunchpadSimon.ResetMainGridLEDs | Assets/Scripts/LaunchpadSimon.cs:402-415 | switches off the grid only, leaving the progress buttons as they are |
| SimonGame.LaunchpadSimon.ResetAllLEDs | Assets/Scripts/LaunchpadSimon.cs:353-381 | the three loops switch off notes 0..136 and controls 0..127 when the output port is set |
| SimonGame.LaunchpadSimon.LightTopButtons | Assets/Scripts/LaunchpadSimon.cs:605-611 | lights the first `count` top buttons |
| SimonGame.LaunchpadSimon.LightRightButtons | Assets/Scripts/LaunchpadSimon.cs:620-626 | lights the first `count` right buttons |
| SimonGame.LaunchpadSimon.AfficherProgressionNiveaux | Assets/Scripts/LaunchpadSimon.cs:578-656 | shows the level display: amber for the levels of the game, green for the completed ones |
| SimonGame.LaunchpadSimon.AfficherToutesEtapesCompletees | Assets/Scripts/LaunchpadSimon.cs:749-779 | turns every level button of the game green |
| SimonGame.LaunchpadSimon.AfficherBoutonsStart | Assets/Scripts/LaunchpadSimon.cs:417-430 | lights the four start pads green unless the game was disabled meanwhile |
| SimonGame.LaunchpadSimon.AfficherMenuPrincipal | Assets/Scripts/LaunchpadSimon.cs:383-400 | with the game enabled, clears the grid and shows the start pads |
| SimonGame.LaunchpadSimon.ArreterJeu | Assets/Scripts/LaunchpadSimon.cs:444-456 | ends the game (not active, not waiting) and resets every LED |
| SimonGame.LaunchpadSimon.ShuffleList | Assets/Scripts/LaunchpadSimon.cs:1011-1022 | the in-place Fisher-Yates loop leaves the array as the Shuffle function of its old contents, consuming the oracle as Shuffle says |
| SimonGame.LaunchpadSimon.AfficherVictoire | Assets/Scripts/LaunchpadSimon.cs:659-746 | the victory animation, then the game disabled and stopped |
| SimonGame.LaunchpadSimon.AfficherSequence | Assets/Scripts/LaunchpadSimon.cs:858-956 | shows each key of the sequence in its colour and blinks the corners; reports whether the note loop completed |
| SimonGame.LaunchpadSimon.SetCorners | Assets/Scripts/LaunchpadSimon.cs:929-946 | the four corner SetPixel calls of the blink loop light the corners in one colour when the output port is set, and send nothing otherwise |
| SimonGame.LaunchpadSimon.PasserAuNiveauSuivant | Assets/Scripts/LaunchpadSimon.cs:521-575 | has exactly the effect of the next-level transition (victory, or one more key and waiting for input) |
| SimonGame.LaunchpadSimon.DrawNextKey | Assets/Scripts/LaunchpadSimon.cs:551-561 | draws one game key and appends it to the sequence (a fresh sequence at level 1) |
| SimonGame.LaunchpadSimon.PlayAndAwait | Assets/Scripts/LaunchpadSimon.cs:564-575 | plays the sequence and then waits for input at position 0 |
| SimonGame.LaunchpadSimon.CollectCentreNotes | Assets/Scripts/LaunchpadSimon.cs:485-495 | gathers the centre notes in the loop's order |
| SimonGame.LaunchpadSimon.TakeKeys | Assets/Scripts/LaunchpadSimon.cs:501-504 | takes the first min(nbTouchesJeu, count) shuffled notes as game keys |
| SimonGame.LaunchpadSimon.AssignColours | Assets/Scripts/LaunchpadSimon.cs:511-514 | colours key i with `couleurs[i % couleurs.Count]` |
| SimonGame.LaunchpadSimon.PickKeyNotes | Assets/Scripts/LaunchpadSimon.cs:485-504 | shuffles the centre notes and keeps the first keys |
| SimonGame.LaunchpadSimon.PickColours | Assets/Scripts/LaunchpadSimon.cs:507-514 | shuffles the palette and colours the keys |
| SimonGame.LaunchpadSimon.ChooseKeyNotes | Assets/Scripts/LaunchpadSimon.cs:476-514 | has exactly the effect of the key choice (see SimonRules.KeySelection) |
| SimonGame.LaunchpadSimon.ChoisirTouchesJeu | Assets/Scripts/LaunchpadSimon.cs:476-518 | chooses the keys and then runs the next-level coroutine |
| SimonGame.LaunchpadSimon.DemarrerPartie | Assets/Scripts/LaunchpadSimon.cs:458-474 | starts a game at level 0 when a Launchpad was found among the input or the output ports and the game is enabled, whether or not the output port is set |
| SimonRules.FlashNotesSilent | Assets/Scripts/LaunchpadSimon.cs:886-917 | without an output port the note loop of AfficherSequence sends nothing |
| SimonRules.BlindStart | Assets/Scripts/LaunchpadSimon.cs:458-474 | with a Launchpad found only among the input ports, a game starts, draws one key, waits for input at position 0, and no LED changes |
| SimonGame.LaunchpadSimon.AfficherErreur | Assets/Scripts/LaunchpadSimon.cs:959-1008 | three red fills, then the game ends and the main menu shows |
| SimonGame.LaunchpadSimon.HandleNoteOn | Assets/Scripts/LaunchpadSimon.cs:268-318 | has exactly the effect of the pad-press transition, so NoteOnInv and the press lemmas hold of it |
| SimonGame.LaunchpadSimon.CheckPress | Assets/Scripts/LaunchpadSimon.cs:300-315 | compares the press with the sequence: advance, complete the level, or show the error |
| SimonGame.LaunchpadSimon.HandleNoteOff | Assets/Scripts/LaunchpadSimon.cs:320-330 | switches a game key off while a game runs |
| SimonGame.LaunchpadSimon.Update | Assets/Scripts/LaunchpadSimon.cs:108-143 | the jeuEnabled edge detection; returns whether the main menu was scheduled |
| SimonGame.LaunchpadSimon.OnTriggerEnter | Assets/Scripts/LaunchpadSimon.cs:1025-1041 | a collider tagged Player enables the game and schedules the main menu |
| PixelArt.PadNote | Assets/Scripts/LaunchpadPixelart.cs:72 | the note `11 + x + 10(7 - y)` of an on-grid position is a grid pad, in column x and screen row y |
| PixelArt.Cell | Assets/Scripts/LaunchpadPixelart.cs:72 | every grid pad is the note of exactly one on-grid position |
| PixelArt.CellOfPadNote | Assets/Scripts/LaunchpadPixelart.cs:72 | decoding the note of a position gives the position back |
| PixelArt.RightButtonNote | Assets/Scripts/LaunchpadPixelart.cs:145 | the i-th entry of `rightButtons` (89, 79, ..., 19) is the i-th right button |
| PixelArt.RightNotesStep | Assets/Scripts/LaunchpadPixelart.cs:145-149 | one more right button adds exactly its note |
| PixelArt.RightNotesMember | Assets/Scripts/LaunchpadPixelart.cs:145-149 | the first k entries of `rightButtons` are exactly the right buttons of index below k |
| PixelArt.ImageRows | Assets/Scripts/LaunchpadPixelart.cs:220-231 | the picture of every image value is eight rows of eight colours (all 0 for a value outside the enum) |
| PixelArt.PaletteCoversImage | Assets/Scripts/LaunchpadPixelart.cs:195-216 | every colour of the Alien and Ghost pictures is in that image's palette |
| PixelArt.PaletteLog | Assets/Scripts/LaunchpadPixelart.cs:201-215 | the palette loop sends Note On (right button i, colour i) for each i in turn |
| PixelArt.PaletteWriteCounts | Assets/Scripts/LaunchpadPixelart.cs:195-216 | the Alien palette sends seven messages, the Ghost palette five, any other value none |
| PixelArt.Cleared | Assets/Scripts/LaunchpadPixelart.cs:139-149 | switching a set of notes off sets exactly those to 0 and keeps every other note |
| PixelArt.ClearOneMore | Assets/Scripts/LaunchpadPixelart.cs:139-142 | switching one more note off equals clearing the larger set |
| PixelArt.NotesOfStep | Assets/Scripts/LaunchpadPixelart.cs:139-142 | visiting one more dictionary entry adds exactly its note |
| PixelArt.NotesOfAll | Assets/Scripts/LaunchpadPixelart.cs:139-142 | visiting every entry covers every note of the table |
| PixelArt.ClearedTwice | Assets/Scripts/LaunchpadPixelart.cs:134-150 | clearing two sets one after the other clears their union |
| PixelArt.DrawnAtNote | Assets/Scripts/LaunchpadPixelart.cs:176-182 | after the loop reaches (x, y), each visited pad shows the byte of its picture colour and every other note is unchanged |
| PixelArt.LitNote | Assets/Scripts/LaunchpadPixelart.cs:201-215 | after k palette steps the first k right buttons show their palette colour and every other note is unchanged |
| PixelArt.PictureOnGrid | Assets/Scripts/LaunchpadPixelart.cs:165-186 | after DisplaySelectedImage the pad at (x, y) shows the picture's colour at (x, y) |
| PixelArt.PaletteOnRightColumn | Assets/Scripts/LaunchpadPixelart.cs:165-186 | right button i shows palette colour i, or is off when the palette is shorter |
| PixelArt.DisplaySteps | Assets/Scripts/LaunchpadPixelart.cs:165-186 | clearing, drawing the picture and showing the palette together give the intended display |
| PixelArt.DisplayStepsNote | Assets/Scripts/LaunchpadPixelart.cs:165-186 | the same, note by note |
| PixelArt.DisplayStepsGridNote | Assets/Scripts/LaunchpadPixelart.cs:165-186 | the same for a grid pad |
| PixelArt.DisplayStepsRightNote | Assets/Scripts/LaunchpadPixelart.cs:165-186 | the same for a right button |
| PixelArt.DisplayStepsOtherNote | Assets/Scripts/LaunchpadPixelart.cs:165-186 | every other note keeps its colour |
| PixelArt.MappedAtEntry | Assets/Scripts/LaunchpadPixelart.cs:63-76 | after the loop reaches (x, y) the visited positions map to their note and other entries are kept |
| PixelArt.PadMappingAgrees | Assets/Scripts/LaunchpadPixelart.cs:63-76 | the pixel-art table and the Simon positionToNote table are the same map |
| PixelArt.PadMappingInjective | Assets/Scripts/LaunchpadPixelart.cs:63-76 | distinct positions have distinct notes |
| PixelArt.PadMappingNotes | Assets/Scripts/LaunchpadPixelart.cs:63-76 | the table's notes are exactly the 64 grid pads |
| PixelArt.LaunchpadPixelArt.constructor | Assets/Scripts/LaunchpadPixelart.cs:27-40 | Start: the pad table, then the selected image shown when a Launchpad is connected, nothing sent otherwise; the top-row buttons are left as they were |
| PixelArt.LaunchpadPixelArt.InitializePadMapping | Assets/Scripts/LaunchpadPixelart.cs:63-76 | every on-grid position gets its note; other entries are kept; from an empty table the result is the full table |
| PixelArt.LaunchpadPixelArt.ClearGrid | Assets/Scripts/LaunchpadPixelart.cs:134-150 | when connected, switches off every pad and every right button and nothing else |
| PixelArt.LaunchpadPixelArt.ClearPads | Assets/Scripts/LaunchpadPixelart.cs:139-142 | the loop over padNotes switches off the 64 pads |
| PixelArt.LaunchpadPixelArt.ClearRightColumn | Assets/Scripts/LaunchpadPixelart.cs:145-149 | the loop over `rightButtons` switches off the eight right buttons |
| PixelArt.LaunchpadPixelArt.SetPixel | Assets/Scripts/LaunchpadPixelart.cs:153-162 | sends one Note On for a mapped position when connected, nothing otherwise, so the top-row buttons are unchanged |
| PixelArt.LaunchpadPixelArt.SetPixelTargets | Assets/Scripts/LaunchpadPixelart.cs:157-160 | SetPixel reaches exactly the on-grid positions, each at its pad note |
| PixelArt.LaunchpadPixelArt.DisplaySelectedImage | Assets/Scripts/LaunchpadPixelart.cs:165-186 | when connected, the display becomes the selected picture with its palette on the right column; the top-row buttons are left as they were |
| PixelArt.LaunchpadPixelArt.DrawImage | Assets/Scripts/LaunchpadPixelart.cs:176-182 | the 8x8 loop paints every pad with the picture's colour and sends no Control Change |
| PixelArt.LaunchpadPixelArt.DrawRow | Assets/Scripts/LaunchpadPixelart.cs:178-181 | one pass of the inner loop paints one screen row and sends no Control Change |
| PixelArt.LaunchpadPixelArt.DisplayColorPalette | Assets/Scripts/LaunchpadPixelart.cs:189-217 | sends the palette of the selected image to the right buttons |
| PixelArt.LaunchpadPixelArt.WritePalette | Assets/Scripts/LaunchpadPixelart.cs:201-204 | the palette loop lights right button i with colour i, for as many colours as there are buttons |
| PixelArt.LaunchpadPixelArt.GetImageData | Assets/Scripts/LaunchpadPixelart.cs:220-231 | the 8x8 array of the selected picture, all zero for a value outside the enum |
| PixelArt.LaunchpadPixelArt.Blank | Assets/Scripts/LaunchpadPixelart.cs:238-245 | the zeroing loop sets every cell to 0 |
| PixelArt.LaunchpadPixelArt.CreateAlienImage | Assets/Scripts/LaunchpadPixelart.cs:234-290 | builds the Alien picture |
| PixelArt.LaunchpadPixelArt.DrawAlienAntennae | Assets/Scripts/LaunchpadPixelart.cs:248-250 | writes row 0 of the Alien and leaves other rows unchanged |
| PixelArt.LaunchpadPixelArt.DrawAlienHeadTop | Assets/Scripts/LaunchpadPixelart.cs:252-256 | writes row 1 of the Alien |
| PixelArt.LaunchpadPixelArt.DrawAlienHeadMiddle | Assets/Scripts/LaunchpadPixelart.cs:258-264 | writes row 2 of the Alien |
| PixelArt.LaunchpadPixelArt.DrawAlienEyes | Assets/Scripts/LaunchpadPixelart.cs:266-270 | writes row 3 of the Alien |
| PixelArt.LaunchpadPixelArt.DrawAlienBody | Assets/Scripts/LaunchpadPixelart.cs:272-276 | writes row 4 of the Alien |
| PixelArt.LaunchpadPixelArt.DrawAlienTentacles | Assets/Scripts/LaunchpadPixelart.cs:278-287 | writes rows 5 and 6 of the Alien |
| PixelArt.LaunchpadPixelArt.CreateGhostImage | Assets/Scripts/LaunchpadPixelart.cs:293-353 | builds the Ghost picture |
| PixelArt.LaunchpadPixelArt.DrawGhostTop | Assets/Scripts/LaunchpadPixelart.cs:307-310 | writes row 1 of the Ghost |
| PixelArt.LaunchpadPixelArt.DrawGhostUpperBody | Assets/Scripts/LaunchpadPixelart.cs:312-317 | writes row 2 of the Ghost |
| PixelArt.LaunchpadPixelArt.DrawGhostEyes | Assets/Scripts/LaunchpadPixelart.cs:319-324 | writes row 3 of the Ghost |
| PixelArt.LaunchpadPixelArt.DrawGhostPupils | Assets/Scripts/LaunchpadPixelart.cs:326-331 | writes row 4 of the Ghost |
| PixelArt.LaunchpadPixelArt.DrawGhostMiddleBody | Assets/Scripts/LaunchpadPixelart.cs:333-338 | writes row 5 of the Ghost |
| PixelArt.LaunchpadPixelArt.DrawGhostLowerBody | Assets/Scripts/LaunchpadPixelart.cs:340-345 | writes row 6 of the Ghost |
| PixelArt.LaunchpadPixelArt.DrawGhostTentacles | Assets/Scripts/LaunchpadPixelart.cs:347-350 | writes row 7 of the Ghost |
| PixelArt.LaunchpadPixelArt.CleanupMIDI | Assets/Scripts/LaunchpadPixelart.cs:118-131 | OnDestroy: switches off the pads and the right buttons when connected; the top-row buttons are left as they were |
| LightController.AllOff | Assets/Scripts/LightControllerMqtt.cs:135-146 | switching every light off keeps the length and which slots hold no light, and leaves no light on |
| LightController.OnlyOn | Assets/Scripts/LightControllerMqtt.cs:120-124 | after the successful branch exactly light k is on, and the empty slots are unchanged |
| LightController.Draw | Assets/Scripts/LightControllerMqtt.cs:115 | Random.Range(0, Length) always draws a valid index |
| LightController.SelectFrom | Assets/Scripts/LightControllerMqtt.cs:113-117 | the do-while from a given attempt stops at the first draw that hits a light, or at attempt 10; every earlier draw hit an empty slot |
| LightController.SelectLight | Assets/Scripts/LightControllerMqtt.cs:109-117 | the loop makes 1 to 10 draws and stops at the first draw that hits a light; it ends on an empty slot only after all 10 draws |
| LightController.SelectMiss | Assets/Scripts/LightControllerMqtt.cs:117 | a draw that hits an empty slot passes control to the next attempt with the same outcome |
| LightController.ActivateEmpty | Assets/Scripts/LightControllerMqtt.cs:99-103 | with no lights, activation changes nothing: no light, no draw, same current index |
| LightController.ActivateAtMostOne | Assets/Scripts/LightControllerMqtt.cs:97-130 | afterwards at most one light is on, the empty slots are unchanged, and 1 to 10 draws were used |
| LightController.ActivateSuccess | Assets/Scripts/LightControllerMqtt.cs:120-124 | when the selected slot holds a light, that light becomes currentLightIndex and is the only one on |
| LightController.ActivateFailure | Assets/Scripts/LightControllerMqtt.cs:126-129 | when all ten draws hit empty slots, every light is off, currentLightIndex keeps its old value, and exactly ten draws were used |
| LightController.ActivateFound | Assets/Scripts/LightControllerMqtt.cs:106-124 | success leaves only the selected light on, moves the oracle by the draws used, and records the index |
| LightController.ActivateNotFound | Assets/Scripts/LightControllerMqtt.cs:106-129 | failure leaves every light off, moves the oracle by the draws used, and keeps the index |
| LightController.SingleAssignedSlotWins | Assets/Scripts/LightControllerMqtt.cs:113-124 | with one light in a one-slot array, the first draw succeeds and switches it on |
| LightController.SwitchOnOnly | Assets/Scripts/LightControllerMqtt.cs:106-123 | switching all lights off and then light k on leaves exactly light k on |
| LightController.SkipStep | Assets/Scripts/LightControllerMqtt.cs:115 | each further draw moves the random source exactly one step on |
| LightController.SimpleLightController.constructor | Assets/Scripts/LightControllerMqtt.cs:19-23 | Awake switches every light off, and the current index starts at -1 |
| LightController.SimpleLightController.TurnOffAllLights | Assets/Scripts/LightControllerMqtt.cs:135-146 | disables every light that is present and leaves a missing array alone |
| LightController.SimpleLightController.DrawLight | Assets/Scripts/LightControllerMqtt.cs:109-117 | the do-while loop returns the index and draw count given by SelectLight, and uses exactly that many draws |
| LightController.SimpleLightController.ActivateRandomLight | Assets/Scripts/LightControllerMqtt.cs:97-130 | a missing array changes nothing; otherwise the array, the random source and currentLightIndex end exactly as Activate says |
| DialogueMarkup.DigitRun | Assets/Scripts/Dialogue3DText.cs:156 | the `\d+` run starting at i stays inside the text and stops at a non-digit or at the end |
| DialogueMarkup.DigitRunExact | Assets/Scripts/Dialogue3DText.cs:156 | a digit run followed by a non-digit or the end is exactly what DigitRun measures |
| DialogueMarkup.FreeRun | Assets/Scripts/Dialogue3DText.cs:156 | the `[^\(\)]*` run stays inside the text and stops at a parenthesis or at the end |
| DialogueMarkup.FreeRunExact | Assets/Scripts/Dialogue3DText.cs:156 | a parenthesis-free run followed by a parenthesis or the end is exactly what FreeRun measures |
| DialogueMarkup.KindAt | Assets/Scripts/Dialogue3DText.cs:156 | a recognised kind is spelled `speed` or `anim` at that position |
| DialogueMarkup.KindAtComplete | Assets/Scripts/Dialogue3DText.cs:156 | every position spelling `speed` or `anim` is recognised |
| DialogueMarkup.ValueAt | Assets/Scripts/Dialogue3DText.cs:156 | a value read is a decimal `\d+(\.\d+)?` that ends inside the text |
| DialogueMarkup.ValueAtSound | Assets/Scripts/Dialogue3DText.cs:156 | the value read is spelled at that position in the text |
| DialogueMarkup.ValueAtComplete | Assets/Scripts/Dialogue3DText.cs:156 | every decimal followed by `]` is read in full |
| DialogueMarkup.OpeningAtSound | Assets/Scripts/Dialogue3DText.cs:156 | a recognised opening is `/kind[value](` spelled at that position |
| DialogueMarkup.OpeningAtComplete | Assets/Scripts/Dialogue3DText.cs:156 | every `/kind[value](` in the text is recognised |
| DialogueMarkup.ContentAt | Assets/Scripts/Dialogue3DText.cs:156 | the tag content has no parenthesis and is closed by `)` inside the text |
| DialogueMarkup.ContentAtSound | Assets/Scripts/Dialogue3DText.cs:156 | the content read is spelled in the text and followed by `)` |
| DialogueMarkup.ContentAtComplete | Assets/Scripts/Dialogue3DText.cs:156 | every parenthesis-free run closed by `)` is read as content |
| DialogueMarkup.MatchAt | Assets/Scripts/Dialogue3DText.cs:156-157 | a match at i has the pattern's groups: a decimal value and a content without parentheses, inside the text |
| DialogueMarkup.MatchAtSound | Assets/Scripts/Dialogue3DText.cs:156-157 | a match at i is exactly the markup `/kind[value](content)` spelled at i |
| DialogueMarkup.MatchAtComplete | Assets/Scripts/Dialogue3DText.cs:156-157 | every well-formed markup spelled at i is matched there, with those groups and that length |
| DialogueMarkup.NoTagBetweenAll | Assets/Scripts/Dialogue3DText.cs:157 | the recursive "no match in [i, k)" agrees with the quantified statement |
| DialogueMarkup.FindFrom | Assets/Scripts/Dialogue3DText.cs:157 | a search from i returns the first match at or after i, or nothing when no position from i matches |
| DialogueMarkup.FindTag | Assets/Scripts/Dialogue3DText.cs:157-162 | Regex.Match returns the leftmost match, or fails only when no position matches |
| DialogueMarkup.FindTagAt | Assets/Scripts/Dialogue3DText.cs:157 | the search finds a tag at p exactly when a tag matches at p and none matches earlier |
| DialogueMarkup.FoundTag | Assets/Scripts/Dialogue3DText.cs:164-171 | the found markup lies inside the text, and the splice shortens the text by the markup overhead of at least 10 characters |
| DialogueMarkup.NoTagWithoutParen | Assets/Scripts/Dialogue3DText.cs:157-162 | a text without `(` holds no tag |
| DialogueMarkup.DigitsValue | Assets/Scripts/Dialogue3DText.cs:165 | the integer value of n digits is below 10^n |
| DialogueMarkup.ParseValue | Assets/Scripts/Dialogue3DText.cs:165 | the parsed value lies between the integer part and the integer part plus one, and equals the integer part when there is no fraction |
| DialogueMarkup.DecimalValue | Assets/Scripts/Dialogue3DText.cs:165 | the decimal spelling of n is parsed back to n |
| DialogueText.WithTag | Assets/Scripts/Dialogue3DText.cs:184-190 | a speed tag sets SpeedModifier and an anim tag sets AnimAmplitude; the other field keeps its value |
| DialogueText.PutWellFormed | Assets/Scripts/Dialogue3DText.cs:179-190 | writing a dictionary entry keeps every key recorded once, in insertion order |
| DialogueText.PutTwice | Assets/Scripts/Dialogue3DText.cs:179-190 | writing the same key twice keeps only the last value |
| DialogueText.CharInfoTable.constructor | Assets/Scripts/Dialogue3DText.cs:119 | a new dictionary is empty |
| DialogueText.CharInfoTable.ContainsKey | Assets/Scripts/Dialogue3DText.cs:179 | ContainsKey answers exactly whether the key is present |
| DialogueText.CharInfoTable.Get | Assets/Scripts/Dialogue3DText.cs:142 | the indexer returns the stored entry |
| DialogueText.CharInfoTable.Set | Assets/Scripts/Dialogue3DText.cs:181-190 | the indexer setter replaces or appends the entry and keeps the dictionary well formed |
| DialogueText.CharInfoTable.Clear | Assets/Scripts/Dialogue3DText.cs:208 | Clear leaves an empty dictionary |
| DialogueText.TaggedEntries | Assets/Scripts/Dialogue3DText.cs:173-191 | inside the content range every index has an entry whose tagged field holds the value and whose other field is kept; outside it nothing changes |
| DialogueText.ShiftedKeys | Assets/Scripts/Dialogue3DText.cs:193-206 | the copied dictionary has exactly the moved keys of the source |
| DialogueText.ShiftedValues | Assets/Scripts/Dialogue3DText.cs:193-206 | when no two keys collide, each moved key carries its source entry |
| DialogueText.ShiftByZero | Assets/Scripts/Dialogue3DText.cs:193-212 | a shift by zero gives back the same dictionary |
| DialogueText.ShiftMoves | Assets/Scripts/Dialogue3DText.cs:193-206 | without collisions, every key outside the removed gap is moved with its entry |
| DialogueText.ShiftedHas | Assets/Scripts/Dialogue3DText.cs:193-206 | every source key appears, moved, in the copy |
| DialogueText.TagShiftKeys | Assets/Scripts/Dialogue3DText.cs:173-206 | after tagging and shifting, every index of the content still has an entry |
| DialogueText.TagShiftValues | Assets/Scripts/Dialogue3DText.cs:173-206 | after tagging and shifting: the content carries the tag value, earlier entries are unchanged, and later entries move back by the markup overhead |
| DialogueText.TagLevelAttributes | Assets/Scripts/Dialogue3DText.cs:173-212 | one tag level gives the content the tag value and keeps the other entries in place or moved back by the overhead |
| DialogueText.TagLevelWellFormed | Assets/Scripts/Dialogue3DText.cs:173-212 | one tag level keeps the dictionary well formed |
| DialogueText.SingleLevelFound | Assets/Scripts/Dialogue3DText.cs:157-212 | when a tag is found, the level returns the spliced text and the tagged, shifted dictionary |
| DialogueText.SingleLevelChange | Assets/Scripts/Dialogue3DText.cs:157-171 | the text changes exactly when a tag is found; without a tag the dictionary is unchanged; with one the text shrinks by at least 10 |
| DialogueText.SingleLevelWellFormed | Assets/Scripts/Dialogue3DText.cs:153-215 | a level keeps the dictionary well formed |
| DialogueText.ProcessSingleTagLevel | Assets/Scripts/Dialogue3DText.cs:153-215 | returns the new text and leaves the dictionary as SingleLevel says |
| DialogueText.UpdateEntries | Assets/Scripts/Dialogue3DText.cs:173-191 | the loop over the content leaves the dictionary as TagLevel's tagging step says |
| DialogueText.ShiftEntries | Assets/Scripts/Dialogue3DText.cs:193-212 | building the shifted copy and refilling the cleared dictionary leaves it as Shifted says |
| DialogueText.ShiftedCopy | Assets/Scripts/Dialogue3DText.cs:193-206 | the foreach builds a new dictionary equal to Shifted |
| DialogueText.AllLevels | Assets/Scripts/Dialogue3DText.cs:123-131 | repeating levels until nothing changes ends with a text holding no tag and no longer than the input |
| DialogueText.AllLevelsStep | Assets/Scripts/Dialogue3DText.cs:123-131 | an unchanged level ends the loop with its state; a changed level shortens the text and the loop continues from it |
| DialogueText.AllLevelsWellFormed | Assets/Scripts/Dialogue3DText.cs:123-131 | the loop keeps the dictionary well formed |
| DialogueText.AllLevelsNone | Assets/Scripts/Dialogue3DText.cs:123-131 | a text without a tag leaves the loop at once, unchanged |
| DialogueText.ReplaceSlashN | Assets/Scripts/Dialogue3DText.cs:117 | replacing `/n` by a newline never lengthens the text |
| DialogueText.ReplaceNewline | Assets/Scripts/Dialogue3DText.cs:134 | replacing a newline by `/n` never shortens the text |
| DialogueText.NewlineRoundTrip | Assets/Scripts/Dialogue3DText.cs:117-134 | for a text without newlines, the replacement on line 134 undoes the one on line 117 |
| DialogueText.NoSlashNUnchanged | Assets/Scripts/Dialogue3DText.cs:117 | a text without `/n` is unchanged by the replacement |
| DialogueText.SlashNKeepsParens | Assets/Scripts/Dialogue3DText.cs:117 | the replacement introduces no `(` |
| DialogueText.Modifiers | Assets/Scripts/Dialogue3DText.cs:113-151 | the attribute array has one entry per character of the cleaned text |
| DialogueText.ProcessAllModifiers | Assets/Scripts/Dialogue3DText.cs:113-151 | returns the cleaned text and a new array as Modifiers says |
| DialogueText.ProcessLevels | Assets/Scripts/Dialogue3DText.cs:123-131 | the while(true) loop leaves the text and the dictionary as AllLevels says |
| DialogueText.AttributeArray | Assets/Scripts/Dialogue3DText.cs:137-148 | the array holds the dictionary entry of each index, and a default entry where there is none |
| DialogueText.AttributesOfEmpty | Assets/Scripts/Dialogue3DText.cs:137-148 | an empty dictionary gives default entries everywhere |
| DialogueText.PlainText | Assets/Scripts/Dialogue3DText.cs:113-151 | a text without newlines or tags comes back unchanged with default entries |
| DialogueText.PlainTextWithoutParens | Assets/Scripts/Dialogue3DText.cs:113-151 | a text without newlines or `(` comes back unchanged with default entries |
| DialogueReveal.PrefabNameRoundTrip | Assets/Scripts/Dialogue3DText.cs:35-65 | every character's prefab name leads back to that character, so no two characters share a prefab |
| DialogueReveal.CharacterOfRoundTrip | Assets/Scripts/Dialogue3DText.cs:35-65 | a prefab name that decodes to c is exactly c's prefab name |
| DialogueReveal.PrefabNameInjective | Assets/Scripts/Dialogue3DText.cs:49-65 | two characters have the same prefab name exactly when they are equal |
| DialogueReveal.SplitOn | Assets/Scripts/Dialogue3DText.cs:227-235 | String.Split always returns at least one part |
| DialogueReveal.SplitJoin | Assets/Scripts/Dialogue3DText.cs:227-235 | joining the parts of String.Split with the separator gives back the text |
| DialogueReveal.SplitOnCharFree | Assets/Scripts/Dialogue3DText.cs:235 | no word from Split(' ') contains a space |
| DialogueReveal.SplitOnAbsent | Assets/Scripts/Dialogue3DText.cs:227-235 | a text without the separator splits into itself alone |
| DialogueReveal.JoinLength | Assets/Scripts/Dialogue3DText.cs:227-235 | the joined text is as long as the parts plus one separator between each pair of parts |
| DialogueReveal.UnbrokenShorter | Assets/Scripts/Dialogue3DText.cs:227-302 | the characters that RevealText walks, with the line breaks taken out, are never more than the processed text |
| DialogueReveal.UnbrokenWithoutBreaks | Assets/Scripts/Dialogue3DText.cs:227-302 | a processed text without `/n` is walked as it is |
| DialogueReveal.RevealSound | Assets/Scripts/Dialogue3DText.cs:241-286 | each character shown is a non-space of the walked text with an available prefab; it shows with the attributes at its charIndex, or the default past the end; visits come in increasing charIndex order |
| DialogueReveal.RevealComplete | Assets/Scripts/Dialogue3DText.cs:241-286 | every non-space character with an available prefab is shown |
| DialogueReveal.RevealSnoc | Assets/Scripts/Dialogue3DText.cs:241-286 | one more character adds one visit exactly when it has an available prefab |
| DialogueReveal.RevealText | Assets/Scripts/Dialogue3DText.cs:217-307 | the characters shown, their order, their charIndex and their attributes are RevealOrder of the processed text with its line breaks removed |
| DialogueReveal.RevealLines | Assets/Scripts/Dialogue3DText.cs:227-303 | the loop over the lines shows exactly RevealOrder of the lines joined without `/n` |
| DialogueReveal.RevealWords | Assets/Scripts/Dialogue3DText.cs:235-295 | the loop over the words of a line shows that line's characters in order; charIndex steps over the spaces between words |
| DialogueReveal.RevealChars | Assets/Scripts/Dialogue3DText.cs:241-287 | the loop over one word shows its characters that have a prefab; charIndex counts every character |
| DialogueReveal.RevealReadsArray | Assets/Scripts/Dialogue3DText.cs:220-254 | every character shown reads the array entry at its charIndex, and that index is inside the array |
| DialogueReveal.WaitTime | Assets/Scripts/Dialogue3DText.cs:277-283 | the wait is revealSpeed divided by the speed modifier, and there is no finite wait when the modifier is zero |
| DialogueExamples.NestedSpeedLost | Assets/Scripts/Dialogue3DText.cs:113-215 | `/anim[1](/speed[2](x))` leaves `x` animated at normal speed: the inner speed entry is moved to index -1 by the outer tag's shift |
| DialogueExamples.BrokenModifiers | Assets/Scripts/Dialogue3DText.cs:113-151 | for `a/n/anim[1](b)` the animation lands on index 2, the `n` of `/n` in the cleaned text, and `b` keeps the default |
| DialogueExamples.BrokenReveal | Assets/Scripts/Dialogue3DText.cs:217-307 | RevealText shows `a` and `b` of `a/n/anim[1](b)`, both with default attributes, so `b` does not bob |
| DialogueExamples.BrokenLines | Assets/Scripts/Dialogue3DText.cs:227 | the processed text `a/nb` walks as `ab` |
| DialogueExamples.LateModifiers | Assets/Scripts/Dialogue3DText.cs:113-151 | for `a/n/anim[1](b)c` the animation is stored at index 2 of `a/nbc`, where `c` is the character RevealText will read there |
| DialogueExamples.LateLines | Assets/Scripts/Dialogue3DText.cs:227 | the processed text `a/nbc` walks as `abc` |
| DialogueExamples.LateReveal | Assets/Scripts/Dialogue3DText.cs:217-307 | RevealText shows `a` and `b` of `a/n/anim[1](b)c` with default attributes and `c`, at charIndex 2, with the animation |
| DialogueExamples.LostModifiers | Assets/Scripts/Dialogue3DText.cs:113-151 | for `a/nb/n/anim[1](c)` the animation is stored at index 4 of `a/nb/nc`, the `/` of the second `/n` |
| DialogueExamples.LostLines | Assets/Scripts/Dialogue3DText.cs:227 | the processed text `a/nb/nc` walks as `abc` |
| DialogueExamples.LostReveal | Assets/Scripts/Dialogue3DText.cs:217-307 | RevealText shows `a`, `b` and `c` of `a/nb/n/anim[1](c)` at charIndex 0, 1 and 2, all with default attributes, so the animation is lost |

## Left out

- MIDI transport: probing ports, opening and disposing them, and polling the port count in `Update`. These are I/O through a native binding. A sent message is an entry of a write log. In LaunchpadSimon, `deviceConnected` (a Launchpad matched among the input or the output ports) and the output port, which may be null, are kept apart. LaunchpadPixelart probes only the output ports, so there a `connected` flag stands exactly for the output port being set.
- MQTT: the client, the subscription in `Start`, `OnDestroy`, the logging in `CheckLights` and the two button handlers. The handlers only call `ActivateRandomLight`, which is modelled.
- Timing: `Invoke`, `StartCoroutine` and `WaitForSeconds`. A coroutine is one atomic transition, and its animation loops keep only their net effect on the LEDs. The two delayed `ResetAllLEDs` calls in `Start` and the delayed destroy of the trigger are not modelled.
- `AfficherChiffre` is not part of this model, because nothing calls it. `HandleControlChange` is empty.
- Exceptions: a C# exception (an index out of range, a missing dictionary key) ends the current transition and keeps what was already done. Unity's logging of the exception is not modelled.
- Floating point: a tag value is the exact decimal its digits spell, not the single-precision result of `float.Parse`.
- DialogueReveal.WaitTime: a speed modifier of 0 gives no finite wait, where C# gives an infinite one.
- `\d` is modelled as the ASCII digits. .NET also accepts other Unicode decimal digits.
- `char.IsUpper` is modelled on ASCII and Latin-1 capitals only.
- `FindCharacterPrefab` is the set of available prefab names.
- Layout and engine objects: `currentXPosition`, `currentYPosition`, `Instantiate`, `BobAnimation`, `DropCharacter`, `NextDialogue`, `AddDialogue` and `StartDialogue` are engine objects and float positions, and are not modelled.
- Object identity: a `CharacterInfo` is a value. This is exact: each entry object is created for one key, and the shift moves it to one key or drops it on a collision, so no object is ever shared. A `Light` is an optional on/off flag, so two slots holding the same light are not modelled.
- Dictionary enumeration follows insertion order. It decides which entry wins when two keys collide in the shift.
- Picture writes: `CreateAlienImage` and `CreateGhostImage` write their pictures row by row through one helper method per commented group of the source. The writes and their order are the same as in the source.
