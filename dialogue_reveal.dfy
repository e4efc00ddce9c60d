/** RevealText and GetPrefabNameForCharacter: the order in which the
    characters of a processed dialogue line are revealed, the prefab each
    one asks for, the CharacterInfo it reads and how long the reveal waits
    after it. Layout (positions), instantiation and the coroutine's timing
    are not modelled. */
module DialogueReveal {
  import opened UnityRandom
  import opened DialogueText

  // ---------------------------------------------------------------------
  // Prefab names

  /** specialCharacterMap. */
  function SpecialName(c: char): Option<string>
  {
    if c == '/' then Some("Slash")
    else if c == '?' then Some("QuestionMark")
    else if c == ':' then Some("Colon")
    else if c == '"' then Some("QuotationMarks")
    else if c == '.' then Some("Period")
    else None
  }

  /** char.IsUpper on the ASCII and Latin-1 letters: A to Z, and the
      accented capitals from U+00C0 to U+00DE except the multiplication
      sign U+00D7. */
  predicate IsUpper(c: char)
  {
    ('A' <= c <= 'Z') || ('\U{C0}' <= c <= '\U{DE}' && c != '\U{D7}')
  }

  /** GetPrefabNameForCharacter: the special name, else "M_" before a
      capital, else the character itself. */
  function PrefabName(c: char): string
  {
    match SpecialName(c)
    case Some(name) => name
    case None => if IsUpper(c) then "M_" + [c] else [c]
  }

  /** The character a prefab name stands for, if any. */
  function CharacterOf(name: string): Option<char>
  {
    if name == "Slash" then Some('/')
    else if name == "QuestionMark" then Some('?')
    else if name == "Colon" then Some(':')
    else if name == "QuotationMarks" then Some('"')
    else if name == "Period" then Some('.')
    else if |name| == 3 && name[0] == 'M' && name[1] == '_' && IsUpper(name[2]) then Some(name[2])
    else if |name| == 1 && !IsUpper(name[0]) && SpecialName(name[0]).None? then Some(name[0])
    else None
  }

  /** Every character's prefab name leads back to the character... */
  lemma PrefabNameRoundTrip(c: char)
    ensures CharacterOf(PrefabName(c)) == Some(c)
  {
    if SpecialName(c).None? && IsUpper(c) {
      assert PrefabName(c) == ['M', '_', c];
    }
  }

  /** ...and a name that stands for a character is that character's name,
      so no two characters share a prefab. */
  lemma CharacterOfRoundTrip(name: string, c: char)
    requires CharacterOf(name) == Some(c)
    ensures PrefabName(c) == name
  {
    if |name| == 3 && name[0] == 'M' && name[1] == '_' && IsUpper(name[2]) && name != "Slash" {
      assert name == "M_" + [name[2]];
    }
  }

  lemma PrefabNameInjective(c: char, d: char)
    ensures PrefabName(c) == PrefabName(d) <==> c == d
  {
    PrefabNameRoundTrip(c);
    PrefabNameRoundTrip(d);
  }

  // ---------------------------------------------------------------------
  // Splitting into lines and words

  /** string.Split(sep): the pieces between the occurrences of `sep`, found
      from the left without overlap. */
  function SplitOn(s: string, sep: string): (parts: seq<string>)
    requires |sep| > 0
    ensures |parts| >= 1
    decreases |s|
  {
    if |s| < |sep| then [s]
    else if s[..|sep|] == sep then [""] + SplitOn(s[|sep|..], sep)
    else
      var rest := SplitOn(s[1..], sep);
      [[s[0]] + rest[0]] + rest[1..]
  }

  /** string.Join(sep, parts). */
  function Join(parts: seq<string>, sep: string): string
  {
    if |parts| == 0 then ""
    else if |parts| == 1 then parts[0]
    else parts[0] + sep + Join(parts[1..], sep)
  }

  /** Joining the pieces with the separator gives the string back. */
  lemma {:induction false} SplitJoin(s: string, sep: string)
    requires |sep| > 0
    ensures Join(SplitOn(s, sep), sep) == s
    decreases |s|
  {
    if |s| < |sep| {
    } else if s[..|sep|] == sep {
      SplitJoin(s[|sep|..], sep);
      SplitJoinAtSep(s, sep);
    } else {
      SplitJoin(s[1..], sep);
      SplitJoinElsewhere(s, sep);
    }
  }

  /** The step of SplitJoin where the string starts with the separator. */
  lemma SplitJoinAtSep(s: string, sep: string)
    requires |sep| > 0 && |s| >= |sep| && s[..|sep|] == sep
    requires Join(SplitOn(s[|sep|..], sep), sep) == s[|sep|..]
    ensures Join(SplitOn(s, sep), sep) == s
  {
    var rest := SplitOn(s[|sep|..], sep);
    assert SplitOn(s, sep) == [""] + rest;
    JoinCons("", rest, sep);
    assert "" + sep == sep;
    SplitAt(s, |sep|);
  }

  lemma SplitAt(s: string, n: nat)
    requires n <= |s|
    ensures s == s[..n] + s[n..]
  {
  }

  /** The step of SplitJoin where it does not. */
  lemma SplitJoinElsewhere(s: string, sep: string)
    requires |sep| > 0 && |s| >= |sep| && s[..|sep|] != sep
    requires Join(SplitOn(s[1..], sep), sep) == s[1..]
    ensures Join(SplitOn(s, sep), sep) == s
  {
    var rest := SplitOn(s[1..], sep);
    assert SplitOn(s, sep) == [[s[0]] + rest[0]] + rest[1..];
    JoinExtendHead(s[0], rest, sep);
    assert s == [s[0]] + s[1..];
  }

  lemma JoinCons(p: string, rest: seq<string>, sep: string)
    requires |rest| >= 1
    ensures Join([p] + rest, sep) == p + sep + Join(rest, sep)
  {
    assert ([p] + rest)[1..] == rest;
  }

  /** Putting a character before the first piece puts it before the join. */
  lemma JoinExtendHead(c: char, rest: seq<string>, sep: string)
    requires |rest| >= 1
    ensures Join([[c] + rest[0]] + rest[1..], sep) == [c] + Join(rest, sep)
  {
    var ps := [[c] + rest[0]] + rest[1..];
    if |rest| > 1 {
      assert ps[1..] == rest[1..];
      assert Join(ps, sep) == ps[0] + sep + Join(rest[1..], sep);
    }
  }

  /** No piece of a split on one character holds that character. */
  lemma {:induction false} SplitOnCharFree(s: string, x: char)
    ensures forall p, j :: p in SplitOn(s, [x]) && 0 <= j < |p| ==> p[j] != x
    decreases |s|
  {
    if |s| >= 1 {
      SplitOnCharFree(s[1..], x);
      if s[..1] != [x] {
        var rest := SplitOn(s[1..], [x]);
        assert rest[0] in rest;
        forall p | p in rest[1..]
          ensures p in rest
        {
        }
      }
    }
  }

  /** Whether `sep` occurs in `s` at `i`. */
  predicate OccursAt(s: string, i: nat, sep: string)
  {
    i + |sep| <= |s| && s[i..i + |sep|] == sep
  }

  /** A string without the separator is one piece. */
  lemma {:induction false} SplitOnAbsent(s: string, sep: string)
    requires |sep| > 0
    requires forall i: nat :: !OccursAt(s, i, sep)
    ensures SplitOn(s, sep) == [s]
    decreases |s|
  {
    if |s| >= |sep| {
      assert !OccursAt(s, 0, sep);
      assert s[0..|sep|] == s[..|sep|];
      forall i: nat
        ensures !OccursAt(s[1..], i, sep)
      {
        assert !OccursAt(s, i + 1, sep);
        if i + |sep| <= |s[1..]| {
          assert s[1..][i..i + |sep|] == s[i + 1..i + 1 + |sep|];
        }
      }
      SplitOnAbsent(s[1..], sep);
      assert s == [s[0]] + s[1..];
    }
  }

  /** Joining one more piece. */
  lemma {:induction false} JoinSnoc(parts: seq<string>, k: nat, sep: string)
    requires k < |parts|
    ensures Join(parts[..k + 1], sep) == Join(parts[..k], sep) + (if k > 0 then sep else "") + parts[k]
  {
    if k > 0 {
      JoinSnoc(parts[1..], k - 1, sep);
      assert parts[1..][..k] == parts[..k + 1][1..];
      assert parts[1..][..k - 1] == parts[..k][1..];
      if k > 1 {
        assert Join(parts[..k], sep) == parts[0] + sep + Join(parts[..k][1..], sep);
      }
    }
  }

  /** Every piece but the last is followed by a separator in the join. */
  lemma {:induction false} JoinLength(parts: seq<string>, sep: string)
    requires |parts| >= 1
    ensures |Join(parts, sep)| == |Join(parts, "")| + |sep| * (|parts| - 1)
  {
    if |parts| > 1 {
      JoinLength(parts[1..], sep);
    }
  }

  /** The characters RevealText walks through: the lines of the processed
      text one after the other, with the "/n"s between them dropped. */
  function Unbroken(processed: string): string
  {
    Join(SplitOn(processed, "/n"), "")
  }

  /** Dropping the line breaks never lengthens the text... */
  lemma UnbrokenShorter(processed: string)
    ensures |Unbroken(processed)| <= |processed|
  {
    var lines := SplitOn(processed, "/n");
    SplitJoin(processed, "/n");
    JoinLength(lines, "/n");
  }

  /** ...and leaves a text without them as it is. */
  lemma UnbrokenWithoutBreaks(processed: string)
    requires forall i :: 0 <= i < |processed| - 1 ==> !(processed[i] == '/' && processed[i + 1] == 'n')
    ensures Unbroken(processed) == processed
  {
    forall i: nat
      ensures !OccursAt(processed, i, "/n")
    {
      if i + 2 <= |processed| {
        assert processed[i..i + 2][0] == processed[i];
        assert processed[i..i + 2][1] == processed[i + 1];
      }
    }
    SplitOnAbsent(processed, "/n");
  }

  // ---------------------------------------------------------------------
  // The reveal

  /** One revealed character: the character, the prefab it is built from,
      the value of charIndex when it is revealed and the CharacterInfo it
      reads. */
  datatype Visit = Visit(c: char, prefab: string, index: nat, info: CharInfo)

  /** `charIndex < charInfos.Length ? charInfos[charIndex] : new CharacterInfo()`. */
  function InfoAt(infos: seq<CharInfo>, i: nat): CharInfo
  {
    if i < |infos| then infos[i] else DefaultInfo
  }

  /** The characters revealed while walking through `u`, charIndex being
      the position in `u`: every character but the spaces between words
      whose prefab is among the `available` ones. */
  function RevealOrder(u: string, infos: seq<CharInfo>, available: set<string>): seq<Visit>
  {
    if |u| == 0 then []
    else
      var p := |u| - 1;
      RevealOrder(u[..p], infos, available) +
        (if u[p] != ' ' && PrefabName(u[p]) in available then [Visit(u[p], PrefabName(u[p]), p, InfoAt(infos, p))] else [])
  }

  /** Every visit is a character of `u` at its index, not a space, built
      from that character's prefab and reading the info at its index; the
      indices increase. */
  ghost predicate SoundVisits(vs: seq<Visit>, u: string, infos: seq<CharInfo>, available: set<string>)
  {
    (forall k :: 0 <= k < |vs| ==>
       vs[k].index < |u| && u[vs[k].index] == vs[k].c && vs[k].c != ' ' &&
       vs[k].prefab == PrefabName(vs[k].c) && vs[k].prefab in available &&
       vs[k].info == InfoAt(infos, vs[k].index)) &&
    (forall k, l :: 0 <= k < l < |vs| ==> vs[k].index < vs[l].index)
  }

  lemma {:induction false} RevealSound(u: string, infos: seq<CharInfo>, available: set<string>)
    ensures SoundVisits(RevealOrder(u, infos, available), u, infos, available)
  {
    if |u| > 0 {
      var p := |u| - 1;
      var vs := RevealOrder(u, infos, available);
      var front := RevealOrder(u[..p], infos, available);
      RevealSound(u[..p], infos, available);
      assert vs[..|front|] == front;
      forall k | 0 <= k < |front|
        ensures front[k].index < p && u[front[k].index] == front[k].c
      {
        assert u[..p][front[k].index] == u[front[k].index];
      }
    }
  }

  /** Every character of `u` that is not a space and has a prefab is
      revealed. */
  lemma {:induction false} RevealComplete(u: string, infos: seq<CharInfo>, available: set<string>, p: nat)
    requires p < |u| && u[p] != ' ' && PrefabName(u[p]) in available
    ensures exists k :: 0 <= k < |RevealOrder(u, infos, available)| && RevealOrder(u, infos, available)[k].index == p
  {
    var vs := RevealOrder(u, infos, available);
    var last := |u| - 1;
    if p == last {
      assert vs[|vs| - 1].index == p;
    } else {
      RevealComplete(u[..last], infos, available, p);
      var k :| 0 <= k < |RevealOrder(u[..last], infos, available)| && RevealOrder(u[..last], infos, available)[k].index == p;
      assert vs[k].index == p;
    }
  }

  /** The line the method works on, as far as its word loop has gone:
      the first `k` words with the spaces that follow them, but none after
      the last word. */
  function Through(words: seq<string>, k: nat): string
    requires k <= |words|
  {
    if k == 0 then "" else Join(words[..k], " ") + (if k < |words| then " " else "")
  }

  /** The word loop's step: one more word, and the space after it unless
      it is the last. */
  lemma ThroughStep(words: seq<string>, k: nat)
    requires k < |words|
    ensures Through(words, k + 1) == Through(words, k) + words[k] + (if k + 1 < |words| then " " else "")
  {
    JoinSnoc(words, k, " ");
  }

  /** Appending one character adds its visit, if it has one. */
  lemma RevealSnoc(u: string, c: char, infos: seq<CharInfo>, available: set<string>)
    ensures RevealOrder(u + [c], infos, available) ==
            RevealOrder(u, infos, available) +
              (if c != ' ' && PrefabName(c) in available then [Visit(c, PrefabName(c), |u|, InfoAt(infos, |u|))] else [])
  {
    assert (u + [c])[..|u|] == u;
  }

  /** RevealText: processes the text, then walks through its lines, their
      words and their characters, revealing each character whose prefab
      exists; charIndex counts the characters and the spaces between words
      but not the line breaks. */
  method RevealText(text: string, available: set<string>) returns (visits: seq<Visit>)
    ensures visits == RevealOrder(Unbroken(Modifiers(text).0), Modifiers(text).1, available)
  {
    var processedText, charInfos := ProcessAllModifiers(text);
    visits := RevealLines(processedText, charInfos, available);
  }

  /** The loops of RevealText over the lines, words and characters. */
  method RevealLines(processedText: string, charInfos: array<CharInfo>, available: set<string>) returns (visits: seq<Visit>)
    ensures visits == RevealOrder(Unbroken(processedText), charInfos[..], available)
  {
    var charIndex := 0;
    var lines := SplitOn(processedText, "/n");
    visits := [];
    ghost var done := "";
    var lineIndex := 0;
    while lineIndex < |lines|
      invariant 0 <= lineIndex <= |lines|
      invariant done == Join(lines[..lineIndex], "") && charIndex == |done|
      invariant visits == RevealOrder(done, charInfos[..], available)
    {
      var line := lines[lineIndex];
      ghost var before := done;
      visits, charIndex := RevealWords(line, charIndex, visits, charInfos, available, before);
      done := before + line;
      JoinSnoc(lines, lineIndex, "");
      lineIndex := lineIndex + 1;
    }
    assert lines[..|lines|] == lines;
  }

  /** The loops of RevealText over the words of one line and their
      characters, from charIndex `start` on. */
  method RevealWords(line: string, start: nat, visits0: seq<Visit>, charInfos: array<CharInfo>, available: set<string>, ghost before: string)
    returns (visits: seq<Visit>, charIndex: nat)
    requires start == |before| && visits0 == RevealOrder(before, charInfos[..], available)
    ensures charIndex == |before + line| && visits == RevealOrder(before + line, charInfos[..], available)
  {
    var words := SplitOn(line, " ");
    visits := visits0;
    charIndex := start;
    ghost var done := before;
    var wordIndex := 0;
    while wordIndex < |words|
      invariant 0 <= wordIndex <= |words|
      invariant done == before + Through(words, wordIndex) && charIndex == |done|
      invariant visits == RevealOrder(done, charInfos[..], available)
    {
      var word := words[wordIndex];
      WordWithoutSpace(line, wordIndex);
      ghost var wordStart := done;
      visits, charIndex := RevealChars(word, charIndex, visits, charInfos, available, wordStart);
      done := wordStart + word;
      if wordIndex < |words| - 1 {
        RevealSnoc(done, ' ', charInfos[..], available);
        charIndex := charIndex + 1;
        done := done + " ";
      }
      ThroughAfter(before, words, wordIndex, wordStart, done);
      wordIndex := wordIndex + 1;
    }
    LineThrough(before, line, done);
  }

  /** No word of a line holds a space. */
  lemma WordWithoutSpace(line: string, k: nat)
    requires k < |SplitOn(line, " ")|
    ensures var w := SplitOn(line, " ")[k];
            forall j :: 0 <= j < |w| ==> w[j] != ' '
  {
    SplitOnCharFree(line, ' ');
    assert SplitOn(line, " ")[k] in SplitOn(line, " ");
  }

  /** The word loop's invariant after one more word. */
  lemma ThroughAfter(before: string, words: seq<string>, k: nat, wordStart: string, done: string)
    requires k < |words| && wordStart == before + Through(words, k)
    requires done == wordStart + words[k] + (if k + 1 < |words| then " " else "")
    ensures done == before + Through(words, k + 1)
  {
    ThroughStep(words, k);
  }

  /** After the last word the line is done. */
  lemma LineThrough(before: string, line: string, done: string)
    requires done == before + Through(SplitOn(line, " "), |SplitOn(line, " ")|)
    ensures done == before + line
  {
    var words := SplitOn(line, " ");
    assert words[..|words|] == words;
    SplitJoin(line, " ");
  }

  /** The innermost loop of RevealText, over the characters of one word
      (which holds no space). */
  method RevealChars(word: string, start: nat, visits0: seq<Visit>, charInfos: array<CharInfo>, available: set<string>, ghost before: string)
    returns (visits: seq<Visit>, charIndex: nat)
    requires forall j :: 0 <= j < |word| ==> word[j] != ' '
    requires start == |before| && visits0 == RevealOrder(before, charInfos[..], available)
    ensures charIndex == |before + word| && visits == RevealOrder(before + word, charInfos[..], available)
  {
    visits := visits0;
    charIndex := start;
    ghost var done := before;
    var i := 0;
    while i < |word|
      invariant 0 <= i <= |word|
      invariant done == before + word[..i] && charIndex == |done|
      invariant visits == RevealOrder(done, charInfos[..], available)
    {
      var character := word[i];
      var prefabName := PrefabName(character);
      RevealSnoc(done, character, charInfos[..], available);
      if prefabName in available {
        var charInfo := if charIndex < charInfos.Length then charInfos[charIndex] else DefaultInfo;
        visits := visits + [Visit(character, prefabName, charIndex, charInfo)];
      }
      charIndex := charIndex + 1;
      done := done + [character];
      assert word[..i + 1] == word[..i] + [character];
      i := i + 1;
    }
    assert word[..|word|] == word;
  }

  /** ProcessAllModifiers returns one CharacterInfo per character of the
      processed text, so every revealed character reads its info from the
      array, never the fallback. */
  lemma RevealReadsArray(text: string, available: set<string>)
    ensures var (processed, infos) := Modifiers(text);
            var vs := RevealOrder(Unbroken(processed), infos, available);
            forall k :: 0 <= k < |vs| ==> vs[k].index < |infos| && vs[k].info == infos[vs[k].index]
  {
    var (processed, infos) := Modifiers(text);
    UnbrokenShorter(processed);
    RevealSound(Unbroken(processed), infos, available);
    assert SoundVisits(RevealOrder(Unbroken(processed), infos, available), Unbroken(processed), infos, available);
  }

  // ---------------------------------------------------------------------
  // Timing

  /** waitTime: revealSpeed, divided by the speed modifier when that is
      not 1. A modifier of 0 (from `speed[0]`) divides by zero, which for a
      float is infinite or undefined: None. */
  function WaitTime(revealSpeed: real, info: CharInfo): (w: Option<real>)
    ensures w.None? <==> info.speedModifier == 0.0
    ensures w.Some? ==> w.value * info.speedModifier == revealSpeed
  {
    if info.speedModifier == 1.0 then Some(revealSpeed)
    else if info.speedModifier == 0.0 then None
    else Some(revealSpeed / info.speedModifier)
  }

  /** A character bobs when its animation amplitude is positive. */
  predicate Bobs(info: CharInfo)
  {
    info.animAmplitude > 0.0
  }
}
