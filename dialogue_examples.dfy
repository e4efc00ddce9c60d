/** A tag nested in another tag's content, worked through the model of
    ProcessAllModifiers. The inner tag is stripped first; the outer one
    then folds the inner tag's entry down past the start of the text, so
    the remaining character keeps only the outer tag's attribute. */
module DialogueExamples {
  import opened UnityRandom
  import opened DialogueMarkup
  import opened DialogueText
  import opened DialogueReveal

  const Nested := "/anim[1](/speed[2](x))"
  const Inner := TagMatch(Speed, "2", None, "x", 9, 12)
  const Outer := TagMatch(Anim, "1", None, "x", 0, 11)

  /** `/anim[1](x)` and `x`: the text after each level. */
  const Once := "/anim[1](x)"

  /** The map after the inner tag: the `x` at index 9 runs at double speed. */
  const AfterInner := Table([9], map[9 := CharInfo(2.0, 0.0)])

  /** The map after the outer tag: the `x`, now at index 0, is animated;
      the speed entry has moved to index -1. */
  const AfterOuter := Table([-1, 0], map[-1 := CharInfo(2.0, 0.0), 0 := CharInfo(1.0, 1.0)])

  /** The outer opening is not followed by a content free of parentheses
      and a closing one, so no tag starts at index 0. */
  lemma OuterUnclosed(s: string)
    requires s == Nested
    ensures MatchAt(s, 0).None?
  {
    OuterOpening(s);
    InnerParen(s);
    UnclosedOpening(s, 0, (Anim, "1", None, 9));
  }

  /** The outer content runs into the inner tag's parenthesis. */
  lemma InnerParen(s: string)
    requires s == Nested
    ensures ContentAt(s, 9).None?
  {
    FreeRunExact(s, 9, 9);
  }

  lemma OuterOpening(s: string)
    requires s == Nested
    ensures OpeningAt(s, 0) == Some((Anim, "1", None, 9))
  {
    assert KindName(Anim) == "anim" && Number("1", None) == "1";
    assert OpeningPieces(s, 0, Anim, "1", None);
    OpeningAtComplete(s, 0, Anim, "1", None);
    assert 0 + |KindName(Anim)| + |Number("1", None)| + 4 == 9;
  }

  lemma UnclosedOpening(text: string, i: nat, o: (TagKind, string, Option<string>, nat))
    requires OpeningAt(text, i) == Some(o) && o.3 <= |text| && ContentAt(text, o.3).None?
    ensures MatchAt(text, i).None?
  {
  }

  /** No tag starts where there is no slash. */
  lemma NoSlashNoTag(text: string, j: nat)
    requires j < |text| ==> text[j] != '/'
    ensures MatchAt(text, j).None?
  {
  }

  /** The search finds the inner tag. */
  lemma FindsInner(s: string)
    requires s == Nested
    ensures FindTag(s) == Some(Inner)
  {
    InnerMatch(s);
    BeforeInner(s);
    FindTagAt(s, 9);
  }

  lemma InnerMatch(s: string)
    requires s == Nested
    ensures MatchAt(s, 9) == Some(Inner)
  {
    assert StartsAt(s, 9, Markup(Speed, "2", None, "x"));
    MatchAtComplete(s, 9, Speed, "2", None, "x");
  }

  lemma BeforeInner(s: string)
    requires s == Nested
    ensures forall j :: 0 <= j < 9 ==> MatchAt(s, j).None?
  {
    OuterUnclosed(s);
    forall j | 1 <= j < 9
      ensures MatchAt(s, j).None?
    {
      NoSlashNoTag(s, j);
    }
  }

  /** ...then, in the text it leaves, the outer one. */
  lemma FindsOuter(s: string)
    requires s == Once
    ensures FindTag(s) == Some(Outer)
  {
    assert StartsAt(s, 0, Markup(Anim, "1", None, "x"));
    MatchAtComplete(s, 0, Anim, "1", None, "x");
    FindTagAt(s, 0);
  }

  /** Replacing each tag by its content. */
  lemma Splices(s: string, u: string)
    requires s == Nested && u == Once
    ensures Splice(s, Inner) == u && Splice(u, Outer) == "x"
  {
    assert Splice(s, Inner) == s[..9] + "x" + s[21..];
  }

  /** The inner tag gives the `x` at index 9 speed 2; the shift past it
      moves nothing else, since the map held nothing else. */
  lemma InnerLevel()
    ensures TagLevel(Empty, Inner) == AfterInner
  {
    assert ParseValue("2", None) == 2.0 by {
      assert DigitsValue("2") == 2 by {
        assert "2"[..0] == "";
      }
    }
    var tagged := Tagged(Empty, 9, Speed, 2.0, 1);
    assert tagged == AfterInner by {
      assert Tagged(Empty, 9, Speed, 2.0, 0) == Empty;
    }
    assert ShiftedPrefix(tagged, 10, 11, 0) == Empty;
  }

  /** The outer tag gives the `x`, now at index 0, an animation of
      amplitude 1; the shift past it moves the entry at 9 to -1. */
  lemma OuterLevel()
    ensures TagLevel(AfterInner, Outer) == AfterOuter
  {
    assert ParseValue("1", None) == 1.0 by {
      assert DigitsValue("1") == 1 by {
        assert "1"[..0] == "";
      }
    }
    var tagged := Tagged(AfterInner, 0, Anim, 1.0, 1);
    var both := Table([9, 0], map[9 := CharInfo(2.0, 0.0), 0 := CharInfo(1.0, 1.0)]);
    assert tagged == both by {
      assert Tagged(AfterInner, 0, Anim, 1.0, 0) == AfterInner;
    }
    assert ShiftedPrefix(both, 1, 10, 0) == Empty;
    assert ShiftedPrefix(both, 1, 10, 1) == Table([-1], map[-1 := CharInfo(2.0, 0.0)]);
  }

  lemma FirstLevel(s: string)
    requires s == Nested
    ensures SingleLevel(s, Empty) == (Once, AfterInner)
  {
    FindsInner(s);
    SingleLevelFound(s, Empty, Inner);
    Splices(s, Once);
    InnerLevel();
  }

  lemma SecondLevel(u: string)
    requires u == Once
    ensures SingleLevel(u, AfterInner) == ("x", AfterOuter)
  {
    FindsOuter(u);
    SingleLevelFound(u, AfterInner, Outer);
    Splices(Nested, u);
    OuterLevel();
  }

  /** The levels strip the inner tag, then the outer one, and stop. */
  lemma NestedLevels(s: string)
    requires s == Nested
    ensures AllLevels(s, Empty) == ("x", AfterOuter)
  {
    FirstLevel(s);
    AllLevelsStep(s, Empty);
    OuterLevels(Once);
  }

  lemma OuterLevels(u: string)
    requires u == Once
    ensures AllLevels(u, AfterInner) == ("x", AfterOuter)
  {
    SecondLevel(u);
    AllLevelsStep(u, AfterInner);
    NoTagWithoutParen("x");
    AllLevelsNone("x", AfterOuter);
  }

  /** ProcessAllModifiers on the nested tags: the `x` that both tags
      enclose comes out animated, at normal speed. */
  lemma NestedSpeedLost(s: string)
    requires s == Nested
    ensures Modifiers(s) == ("x", [CharInfo(1.0, 1.0)])
  {
    NestedNoLineBreak(s);
    NestedLevels(s);
    CleanX();
  }

  lemma NestedNoLineBreak(s: string)
    requires s == Nested
    ensures ReplaceSlashN(s) == s
  {
    forall i | 0 <= i < |s| - 1
      ensures !(s[i] == '/' && s[i + 1] == 'n')
    {
    }
    NoSlashNUnchanged(s);
  }

  lemma CleanX()
    ensures ReplaceNewline("x") == "x"
    ensures Attributes(AfterOuter, 1) == [CharInfo(1.0, 1.0)]
  {
    assert ReplaceNewline("x") == "x" + ReplaceNewline("");
  }

  // A tag after a line break: `a/n/anim[1](b)`.

  const Broken := "a/n/anim[1](b)"
  const BrokenTag := TagMatch(Anim, "1", None, "b", 2, 11)
  const AfterBroken := Table([2], map[2 := CharInfo(1.0, 1.0)])

  const BrokenTail := "/anim[1](b)"

  lemma SlashNCons(c: char, t: string)
    requires c != '/'
    ensures ReplaceSlashN([c] + t) == [c] + ReplaceSlashN(t)
  {
    assert ([c] + t)[1..] == t;
  }

  lemma SlashNBreak(t: string)
    ensures ReplaceSlashN("/n" + t) == "\n" + ReplaceSlashN(t)
  {
    assert ("/n" + t)[2..] == t;
  }

  lemma NewlineCons(c: char, t: string)
    ensures ReplaceNewline([c] + t) == (if c == '\n' then "/n" else [c]) + ReplaceNewline(t)
  {
    assert ([c] + t)[1..] == t;
  }

  lemma TailUnchanged(t: string)
    requires t == BrokenTail
    ensures ReplaceSlashN(t) == t
  {
    NoSlashNUnchanged(t);
  }

  lemma BrokenWorking(s: string)
    requires s == Broken
    ensures ReplaceSlashN(s) == "a\n" + BrokenTail
  {
    var t := s[3..];
    BrokenParts(s);
    SlashNCons('a', "/n" + t);
    SlashNBreak(t);
    TailUnchanged(t);
  }

  lemma BrokenParts(s: string)
    requires s == Broken
    ensures |s| == 14 && s == ['a'] + ("/n" + s[3..]) && s[3..] == BrokenTail
  {
    SplitAt(s, 3);
    assert s[..3] == ['a'] + "/n";
  }

  /** The whole of ProcessAllModifiers, through its intermediate texts. */
  lemma ModifiersThrough(s: string, w: string, c: string, t: Table)
    requires ReplaceSlashN(s) == w && AllLevels(w, Empty) == (c, t)
    ensures Modifiers(s) == (ReplaceNewline(c), Attributes(t, |ReplaceNewline(c)|))
  {
  }

  lemma FindsBrokenTag(w: string)
    requires w == "a\n" + BrokenTail
    ensures FindTag(w) == Some(BrokenTag)
  {
    assert StartsAt(w, 2, Markup(Anim, "1", None, "b"));
    MatchAtComplete(w, 2, Anim, "1", None, "b");
    NoSlashNoTag(w, 0);
    NoSlashNoTag(w, 1);
    FindTagAt(w, 2);
  }

  lemma BrokenLevel()
    ensures TagLevel(Empty, BrokenTag) == AfterBroken
  {
    assert ParseValue("1", None) == 1.0 by {
      assert DigitsValue("1") == 1 by {
        assert "1"[..0] == "";
      }
    }
    var tagged := Tagged(Empty, 2, Anim, 1.0, 1);
    assert tagged == AfterBroken by {
      assert Tagged(Empty, 2, Anim, 1.0, 0) == Empty;
    }
    assert ShiftedPrefix(tagged, 3, 10, 0) == Empty;
  }

  lemma BrokenSplice(w: string)
    requires w == "a\n" + BrokenTail
    ensures Splice(w, BrokenTag) == "a\nb"
  {
    assert w[..2] == "a\n";
  }

  lemma BrokenFirstLevel(w: string)
    requires w == "a\n" + BrokenTail
    ensures SingleLevel(w, Empty) == ("a\nb", AfterBroken)
  {
    FindsBrokenTag(w);
    SingleLevelFound(w, Empty, BrokenTag);
    BrokenSplice(w);
    BrokenLevel();
  }

  lemma NoTagLeft(c: string)
    requires c == "a\nb"
    ensures FindTag(c).None?
  {
    NoTagWithoutParen(c);
  }

  lemma BrokenLevels(w: string)
    requires w == "a\n" + BrokenTail
    ensures AllLevels(w, Empty) == ("a\nb", AfterBroken)
  {
    BrokenFirstLevel(w);
    AllLevelsStep(w, Empty);
    NoTagLeft("a\nb");
    AllLevelsNone("a\nb", AfterBroken);
  }

  /** ProcessAllModifiers on `a/n/anim[1](b)`: the map holds the animation
      at index 2, the `b` of `a\nb`; turned back into `a/nb`, index 2 is the
      `n` of the line break, and the `b` at index 3 has no animation. */
  lemma BrokenModifiers(s: string)
    requires s == Broken
    ensures Modifiers(s) == ("a/nb", [DefaultInfo, DefaultInfo, CharInfo(1.0, 1.0), DefaultInfo])
  {
    var w := "a\n" + BrokenTail;
    BrokenWorking(s);
    BrokenLevels(w);
    ModifiersThrough(s, w, "a\nb", AfterBroken);
    BrokenClean("a\nb");
    BrokenAttributes();
  }

  lemma BrokenClean(c: string)
    requires c == "a\nb"
    ensures ReplaceNewline(c) == "a/nb"
  {
    assert c == ['a'] + (['\n'] + (['b'] + ""));
    NewlineCons('a', ['\n'] + (['b'] + ""));
    NewlineCons('\n', ['b'] + "");
    NewlineCons('b', "");
  }

  lemma BrokenAttributes()
    ensures Attributes(AfterBroken, 4) == [DefaultInfo, DefaultInfo, CharInfo(1.0, 1.0), DefaultInfo]
  {
  }

  /** RevealText drops the "/n" and reveals `b` with charIndex 1, reading
      the default attributes: the `b` that the tag encloses is not
      animated. */
  lemma BrokenReveal(s: string, available: set<string>)
    requires s == Broken && "a" in available && "b" in available
    ensures RevealOrder(Unbroken(Modifiers(s).0), Modifiers(s).1, available) ==
            [Visit('a', "a", 0, DefaultInfo), Visit('b', "b", 1, DefaultInfo)]
  {
    BrokenModifiers(s);
    BrokenLines(Modifiers(s).0);
    RevealAB("ab", Modifiers(s).1, available);
  }

  lemma RevealAB(u: string, infos: seq<CharInfo>, available: set<string>)
    requires u == "ab" && "a" in available && "b" in available
    requires infos == [DefaultInfo, DefaultInfo, CharInfo(1.0, 1.0), DefaultInfo]
    ensures RevealOrder(u, infos, available) == [Visit('a', "a", 0, DefaultInfo), Visit('b', "b", 1, DefaultInfo)]
  {
    var v := u[..1];
    assert v == "a" && v[..0] == "";
    assert PrefabName('a') == "a" && PrefabName('b') == "b";
    assert RevealOrder(v, infos, available) == [Visit('a', "a", 0, DefaultInfo)];
  }

  lemma BrokenLines(p: string)
    requires p == "a/nb"
    ensures Unbroken(p) == "ab"
  {
    var q := p[1..];
    assert q == "/nb";
    assert q[..2] == "/n" && q[2..] == "b";
    assert SplitOn("b", "/n") == ["b"];
    assert SplitOn(q, "/n") == ["", "b"];
    assert p[..2][0] == 'a';
    var rest := SplitOn(q, "/n");
    assert SplitOn(p, "/n") == [[p[0]] + rest[0]] + rest[1..];
    assert rest[0] == "" && rest[1..] == ["b"] && [p[0]] + rest[0] == "a";
    assert SplitOn(p, "/n") == ["a", "b"];
    assert Join(["a", "b"], "") == "a" + "" + Join(["b"], "");
  }

  // The same tag with one more character after it: `a/n/anim[1](b)c`.

  const Late := "a/n/anim[1](b)c"
  const LateTail := "/anim[1](b)c"
  const LateInfos := [DefaultInfo, DefaultInfo, CharInfo(1.0, 1.0), DefaultInfo, DefaultInfo]

  lemma LateParts(s: string)
    requires s == Late
    ensures s == ['a'] + ("/n" + LateTail)
  {
    SplitAt(s, 3);
    assert s[..3] == ['a'] + "/n" && s[3..] == LateTail;
  }

  lemma LateTailUnchanged(t: string)
    requires t == LateTail
    ensures ReplaceSlashN(t) == t
  {
    NoSlashNUnchanged(t);
  }

  lemma LateWorking(s: string)
    requires s == Late
    ensures ReplaceSlashN(s) == "a\n" + LateTail
  {
    LateParts(s);
    SlashNCons('a', "/n" + LateTail);
    SlashNBreak(LateTail);
    LateTailUnchanged(LateTail);
  }

  lemma FindsLateTag(w: string)
    requires w == "a\n" + LateTail
    ensures FindTag(w) == Some(BrokenTag)
  {
    assert StartsAt(w, 2, Markup(Anim, "1", None, "b"));
    MatchAtComplete(w, 2, Anim, "1", None, "b");
    NoSlashNoTag(w, 0);
    NoSlashNoTag(w, 1);
    FindTagAt(w, 2);
  }

  lemma LateSplice(w: string)
    requires w == "a\n" + LateTail
    ensures Splice(w, BrokenTag) == "a\nbc"
  {
    assert w[..2] == "a\n" && w[13..] == "c";
  }

  lemma LateFirstLevel(w: string)
    requires w == "a\n" + LateTail
    ensures SingleLevel(w, Empty) == ("a\nbc", AfterBroken)
  {
    FindsLateTag(w);
    SingleLevelFound(w, Empty, BrokenTag);
    LateSplice(w);
    BrokenLevel();
  }

  lemma LateNoTagLeft(c: string)
    requires c == "a\nbc"
    ensures FindTag(c).None?
  {
    NoTagWithoutParen(c);
  }

  lemma LateLevels(w: string)
    requires w == "a\n" + LateTail
    ensures AllLevels(w, Empty) == ("a\nbc", AfterBroken)
  {
    LateFirstLevel(w);
    AllLevelsStep(w, Empty);
    LateNoTagLeft("a\nbc");
    AllLevelsNone("a\nbc", AfterBroken);
  }

  lemma LateClean(c: string)
    requires c == "a\nbc"
    ensures ReplaceNewline(c) == "a/nbc"
  {
    assert c == ['a'] + (['\n'] + (['b'] + (['c'] + "")));
    NewlineCons('a', ['\n'] + (['b'] + (['c'] + "")));
    NewlineCons('\n', ['b'] + (['c'] + ""));
    NewlineCons('b', ['c'] + "");
    NewlineCons('c', "");
  }

  lemma LateAttributes()
    ensures Attributes(AfterBroken, 5) == LateInfos
  {
  }

  /** ProcessAllModifiers on `a/n/anim[1](b)c`: as for `a/n/anim[1](b)`,
      the animation is stored at index 2 of `a/nbc`, the `n` of the line
      break. */
  lemma LateModifiers(s: string)
    requires s == Late
    ensures Modifiers(s) == ("a/nbc", LateInfos)
  {
    var w := "a\n" + LateTail;
    LateWorking(s);
    LateLevels(w);
    ModifiersThrough(s, w, "a\nbc", AfterBroken);
    LateClean("a\nbc");
    LateAttributes();
  }

  lemma LateLines(p: string)
    requires p == "a/nbc"
    ensures Unbroken(p) == "abc"
  {
    var q := p[1..];
    assert q == "/nbc";
    assert q[..2] == "/n" && q[2..] == "bc";
    var bc := q[2..];
    assert bc[..2][0] == 'b' && bc[1..] == "c";
    assert SplitOn(bc[1..], "/n") == ["c"];
    assert SplitOn(bc, "/n") == [[bc[0]] + "c"] + [];
    assert bc == "bc" && [bc[0]] + "c" == bc;
    assert SplitOn(bc, "/n") == ["bc"];
    assert SplitOn(q, "/n") == ["", "bc"];
    assert p[..2][0] == 'a';
    var rest := SplitOn(q, "/n");
    assert SplitOn(p, "/n") == [[p[0]] + rest[0]] + rest[1..];
    assert rest[0] == "" && rest[1..] == ["bc"] && [p[0]] + rest[0] == "a";
    assert SplitOn(p, "/n") == ["a", "bc"];
    assert Join(["a", "bc"], "") == "a" + "" + Join(["bc"], "");
  }

  lemma RevealABC(u: string, infos: seq<CharInfo>, available: set<string>)
    requires u == "abc" && "a" in available && "b" in available && "c" in available
    requires infos == LateInfos
    ensures RevealOrder(u, infos, available) ==
            [Visit('a', "a", 0, DefaultInfo), Visit('b', "b", 1, DefaultInfo), Visit('c', "c", 2, CharInfo(1.0, 1.0))]
  {
    var v := u[..2];
    assert v == "ab" && v[..1] == "a" && v[..1][..0] == "";
    assert PrefabName('a') == "a" && PrefabName('b') == "b" && PrefabName('c') == "c";
    assert RevealOrder(v[..1], infos, available) == [Visit('a', "a", 0, DefaultInfo)];
    assert RevealOrder(v, infos, available) == [Visit('a', "a", 0, DefaultInfo), Visit('b', "b", 1, DefaultInfo)];
  }

  /** RevealText on `a/n/anim[1](b)c`: `b`, which the tag encloses, is shown
      with the default attributes, and `c`, at charIndex 2, reads the
      animation and bobs. */
  lemma LateReveal(s: string, available: set<string>)
    requires s == Late && "a" in available && "b" in available && "c" in available
    ensures RevealOrder(Unbroken(Modifiers(s).0), Modifiers(s).1, available) ==
            [Visit('a', "a", 0, DefaultInfo), Visit('b', "b", 1, DefaultInfo), Visit('c', "c", 2, CharInfo(1.0, 1.0))]
  {
    LateModifiers(s);
    LateLines(Modifiers(s).0);
    RevealABC("abc", Modifiers(s).1, available);
  }

  // A tag after two line breaks: `a/nb/n/anim[1](c)`.

  const Lost := "a/nb/n/anim[1](c)"
  const LostTail := "/anim[1](c)"
  const LostTag := TagMatch(Anim, "1", None, "c", 4, 11)
  const AfterLost := Table([4], map[4 := CharInfo(1.0, 1.0)])
  const LostInfos := [DefaultInfo, DefaultInfo, DefaultInfo, DefaultInfo, CharInfo(1.0, 1.0), DefaultInfo, DefaultInfo]

  lemma LostParts(s: string)
    requires s == Lost
    ensures s == ['a'] + ("/n" + (['b'] + ("/n" + LostTail)))
  {
    SplitAt(s, 6);
    assert s[..6] == ['a'] + "/n" + ['b'] + "/n" && s[6..] == LostTail;
  }

  lemma LostTailUnchanged(t: string)
    requires t == LostTail
    ensures ReplaceSlashN(t) == t
  {
    NoSlashNUnchanged(t);
  }

  lemma LostSecondLine(t: string)
    requires t == ['b'] + ("/n" + LostTail)
    ensures ReplaceSlashN(t) == "b\n" + LostTail
  {
    SlashNCons('b', "/n" + LostTail);
    SlashNBreak(LostTail);
    LostTailUnchanged(LostTail);
  }

  lemma LostWorking(s: string)
    requires s == Lost
    ensures ReplaceSlashN(s) == "a\nb\n" + LostTail
  {
    LostParts(s);
    var t := ['b'] + ("/n" + LostTail);
    SlashNCons('a', "/n" + t);
    SlashNBreak(t);
    LostSecondLine(t);
  }

  lemma FindsLostTag(w: string)
    requires w == "a\nb\n" + LostTail
    ensures FindTag(w) == Some(LostTag)
  {
    assert StartsAt(w, 4, Markup(Anim, "1", None, "c"));
    MatchAtComplete(w, 4, Anim, "1", None, "c");
    NoSlashNoTag(w, 0);
    NoSlashNoTag(w, 1);
    NoSlashNoTag(w, 2);
    NoSlashNoTag(w, 3);
    FindTagAt(w, 4);
  }

  lemma LostLevel()
    ensures TagLevel(Empty, LostTag) == AfterLost
  {
    assert ParseValue("1", None) == 1.0 by {
      assert DigitsValue("1") == 1 by {
        assert "1"[..0] == "";
      }
    }
    var tagged := Tagged(Empty, 4, Anim, 1.0, 1);
    assert tagged == AfterLost by {
      assert Tagged(Empty, 4, Anim, 1.0, 0) == Empty;
    }
    assert ShiftedPrefix(tagged, 5, 10, 0) == Empty;
  }

  lemma LostSplice(w: string)
    requires w == "a\nb\n" + LostTail
    ensures Splice(w, LostTag) == "a\nb\nc"
  {
    assert w[..4] == "a\nb\n";
  }

  lemma LostFirstLevel(w: string)
    requires w == "a\nb\n" + LostTail
    ensures SingleLevel(w, Empty) == ("a\nb\nc", AfterLost)
  {
    FindsLostTag(w);
    SingleLevelFound(w, Empty, LostTag);
    LostSplice(w);
    LostLevel();
  }

  lemma LostNoTagLeft(c: string)
    requires c == "a\nb\nc"
    ensures FindTag(c).None?
  {
    NoTagWithoutParen(c);
  }

  lemma LostLevels(w: string)
    requires w == "a\nb\n" + LostTail
    ensures AllLevels(w, Empty) == ("a\nb\nc", AfterLost)
  {
    LostFirstLevel(w);
    AllLevelsStep(w, Empty);
    LostNoTagLeft("a\nb\nc");
    AllLevelsNone("a\nb\nc", AfterLost);
  }

  lemma LostClean(c: string)
    requires c == "a\nb\nc"
    ensures ReplaceNewline(c) == "a/nb/nc"
  {
    assert c == ['a'] + (['\n'] + (['b'] + (['\n'] + (['c'] + ""))));
    NewlineCons('a', ['\n'] + (['b'] + (['\n'] + (['c'] + ""))));
    NewlineCons('\n', ['b'] + (['\n'] + (['c'] + "")));
    NewlineCons('b', ['\n'] + (['c'] + ""));
    NewlineCons('\n', ['c'] + "");
    NewlineCons('c', "");
  }

  lemma LostAttributes()
    ensures Attributes(AfterLost, 7) == LostInfos
  {
  }

  /** ProcessAllModifiers on `a/nb/n/anim[1](c)`: the animation is stored
      at index 4 of `a/nb/nc`, the `/` of the second `/n`. */
  lemma LostModifiers(s: string)
    requires s == Lost
    ensures Modifiers(s) == ("a/nb/nc", LostInfos)
  {
    var w := "a\nb\n" + LostTail;
    LostWorking(s);
    LostLevels(w);
    ModifiersThrough(s, w, "a\nb\nc", AfterLost);
    LostClean("a\nb\nc");
    LostAttributes();
  }

  lemma LostLines(p: string)
    requires p == "a/nb/nc"
    ensures Unbroken(p) == "abc"
  {
    var r := p[4..];
    assert r == "/nc" && r[..2] == "/n" && r[2..] == "c";
    assert SplitOn("c", "/n") == ["c"];
    assert SplitOn(r, "/n") == ["", "c"];
    var q := p[3..];
    assert q == ['b'] + r && q[..2][0] == 'b' && q[1..] == r;
    var rest := SplitOn(r, "/n");
    assert SplitOn(q, "/n") == [[q[0]] + rest[0]] + rest[1..];
    assert rest[0] == "" && rest[1..] == ["c"] && [q[0]] + rest[0] == "b";
    assert SplitOn(q, "/n") == ["b", "c"];
    var o := p[1..];
    assert o == "/nb/nc" && o[..2] == "/n" && o[2..] == q;
    assert SplitOn(o, "/n") == ["", "b", "c"];
    assert p[..2][0] == 'a';
    var rest2 := SplitOn(o, "/n");
    assert SplitOn(p, "/n") == [[p[0]] + rest2[0]] + rest2[1..];
    assert rest2[0] == "" && rest2[1..] == ["b", "c"] && [p[0]] + rest2[0] == "a";
    assert SplitOn(p, "/n") == ["a", "b", "c"];
    assert Join(["b", "c"], "") == "b" + "" + Join(["c"], "");
    assert Join(["a", "b", "c"], "") == "a" + "" + Join(["b", "c"], "");
  }

  lemma RevealLost(u: string, infos: seq<CharInfo>, available: set<string>)
    requires u == "abc" && "a" in available && "b" in available && "c" in available
    requires infos == LostInfos
    ensures RevealOrder(u, infos, available) ==
            [Visit('a', "a", 0, DefaultInfo), Visit('b', "b", 1, DefaultInfo), Visit('c', "c", 2, DefaultInfo)]
  {
    var v := u[..2];
    assert v == "ab" && v[..1] == "a" && v[..1][..0] == "";
    assert PrefabName('a') == "a" && PrefabName('b') == "b" && PrefabName('c') == "c";
    assert RevealOrder(v[..1], infos, available) == [Visit('a', "a", 0, DefaultInfo)];
    assert RevealOrder(v, infos, available) == [Visit('a', "a", 0, DefaultInfo), Visit('b', "b", 1, DefaultInfo)];
  }

  /** RevealText on `a/nb/n/anim[1](c)`: the three characters are shown
      with charIndex 0, 1 and 2, all with the default attributes; the
      animation, stored at index 4, is read by no character. */
  lemma LostReveal(s: string, available: set<string>)
    requires s == Lost && "a" in available && "b" in available && "c" in available
    ensures RevealOrder(Unbroken(Modifiers(s).0), Modifiers(s).1, available) ==
            [Visit('a', "a", 0, DefaultInfo), Visit('b', "b", 1, DefaultInfo), Visit('c', "c", 2, DefaultInfo)]
  {
    LostModifiers(s);
    LostLines(Modifiers(s).0);
    RevealLost("abc", Modifiers(s).1, available);
  }
}
