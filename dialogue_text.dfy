/** The modifier pass of Dialogue3DText: tags are stripped from a dialogue
    line one at a time, innermost first, and the characters they wrapped get
    a speed or an animation amplitude, kept in a map from character index to
    attributes. */
module DialogueText {
  import opened UnityRandom
  import opened DialogueMarkup

  /** CharacterInfo: how fast a character is revealed and how far it bobs.
      The objects are never shared between two indices, so values stand for
      them. */
  datatype CharInfo = CharInfo(speedModifier: real, animAmplitude: real)

  /** A fresh CharacterInfo: normal speed, no animation. */
  const DefaultInfo := CharInfo(1.0, 0.0)

  /** The attribute a tag of kind `k` sets. */
  function Field(info: CharInfo, k: TagKind): real
  {
    match k
    case Speed => info.speedModifier
    case Anim => info.animAmplitude
  }

  function Other(k: TagKind): TagKind
  {
    match k
    case Speed => Anim
    case Anim => Speed
  }

  /** The attributes after a tag of kind `k` with value `v`: that field is
      set, the other one keeps its value. */
  function WithTag(info: CharInfo, k: TagKind, v: real): (r: CharInfo)
    ensures Field(r, k) == v && Field(r, Other(k)) == Field(info, Other(k))
  {
    match k
    case Speed => info.(speedModifier := v)
    case Anim => info.(animAmplitude := v)
  }

  /** A Dictionary<int, CharacterInfo> as a value: its keys in enumeration
      order and the value of each. Entries are only added and the map is
      only cleared as a whole, so the enumeration order is the insertion
      order. */
  datatype Table = Table(order: seq<int>, infos: map<int, CharInfo>)

  const Empty := Table([], map[])

  ghost predicate WellFormed(t: Table)
  {
    (forall i, j :: 0 <= i < j < |t.order| ==> t.order[i] != t.order[j]) &&
    (forall k :: k in t.infos <==> k in t.order)
  }

  /** The entry at `k`, or a fresh CharacterInfo. */
  function Lookup(t: Table, k: int): CharInfo
  {
    if k in t.infos then t.infos[k] else DefaultInfo
  }

  /** The indexer's setter: a new key goes last in the enumeration order,
      an existing key keeps its place. */
  function Put(t: Table, k: int, v: CharInfo): Table
  {
    if k in t.infos then Table(t.order, t.infos[k := v]) else Table(t.order + [k], t.infos[k := v])
  }

  /** Setting a key keeps the keys distinct and in step with the entries. */
  lemma PutWellFormed(t: Table, k: int, v: CharInfo)
    requires WellFormed(t)
    ensures WellFormed(Put(t, k, v))
  {
    var r := Put(t, k, v);
    if k !in t.infos {
      forall i, j | 0 <= i < j < |r.order|
        ensures r.order[i] != r.order[j]
      {
        if j == |t.order| {
          assert r.order[i] == t.order[i];
        }
      }
    }
  }

  /** Setting a key twice is setting it to the second value. */
  lemma PutTwice(t: Table, k: int, v: CharInfo, w: CharInfo)
    ensures Put(Put(t, k, v), k, w) == Put(t, k, w)
  {
  }

  /** charInfoMap as the class it is: a dictionary updated in place. */
  class CharInfoTable {
    var order: seq<int>
    var infos: map<int, CharInfo>

    function Value(): Table
      reads this
    {
      Table(order, infos)
    }

    ghost predicate Valid()
      reads this
    {
      WellFormed(Value())
    }

    constructor ()
      ensures Value() == Empty && Valid()
    {
      order := [];
      infos := map[];
    }

    method ContainsKey(k: int) returns (b: bool)
      ensures b <==> k in Value().infos
    {
      b := k in infos;
    }

    method Get(k: int) returns (v: CharInfo)
      requires k in infos
      ensures v == Lookup(Value(), k)
    {
      v := infos[k];
    }

    method Set(k: int, v: CharInfo)
      requires Valid()
      modifies this
      ensures Value() == Put(old(Value()), k, v) && Valid()
    {
      if k !in infos {
        order := order + [k];
      }
      infos := infos[k := v];
    }

    method Clear()
      modifies this
      ensures Value() == Empty && Valid()
    {
      order := [];
      infos := map[];
    }
  }

  /** The map after the first `n` characters of a tag's content, which
      starts at `start`, got the tag's attribute. */
  function Tagged(t: Table, start: int, k: TagKind, v: real, n: nat): Table
  {
    if n == 0 then t
    else
      var p := Tagged(t, start, k, v, n - 1);
      var i := start + n - 1;
      Put(p, i, WithTag(Lookup(p, i), k, v))
  }

  /** Every character of the content has an entry holding the tag's value
      in the tag's field, its other field as before (the default for a new
      entry); entries outside the content are untouched. */
  lemma {:induction false} TaggedEntries(t: Table, start: int, k: TagKind, v: real, n: nat)
    requires WellFormed(t)
    ensures var r := Tagged(t, start, k, v, n);
            WellFormed(r) &&
            (forall i :: start <= i < start + n ==>
               i in r.infos && Field(r.infos[i], k) == v && Field(r.infos[i], Other(k)) == Field(Lookup(t, i), Other(k))) &&
            (forall i :: (i < start || start + n <= i) ==> (i in r.infos <==> i in t.infos) && Lookup(r, i) == Lookup(t, i))
  {
    if n > 0 {
      TaggedEntries(t, start, k, v, n - 1);
      var p := Tagged(t, start, k, v, n - 1);
      var i := start + n - 1;
      PutWellFormed(p, i, WithTag(Lookup(p, i), k, v));
    }
  }

  /** Where the shift after a tag sends an index: indices from `bound` on
      move down by `d`, the others stay. */
  function Moved(i: int, bound: int, d: int): int
  {
    if i >= bound then i - d else i
  }

  /** updatedMap after the first `n` entries of `src`, in enumeration order,
      were copied to their moved indices; a later entry overwrites an
      earlier one moved to the same index. */
  function ShiftedPrefix(src: Table, bound: int, d: int, n: nat): Table
    requires n <= |src.order|
  {
    if n == 0 then Empty
    else
      var p := ShiftedPrefix(src, bound, d, n - 1);
      var key := src.order[n - 1];
      Put(p, Moved(key, bound, d), Lookup(src, key))
  }

  /** The copy is a well-formed map whose keys are exactly the moved keys
      of the entries copied so far. */
  lemma {:induction false} ShiftedKeys(src: Table, bound: int, d: int, n: nat)
    requires n <= |src.order|
    ensures var r := ShiftedPrefix(src, bound, d, n);
            WellFormed(r) &&
            (forall j :: 0 <= j < n ==> Moved(src.order[j], bound, d) in r.infos) &&
            (forall i :: i in r.infos ==> exists j :: 0 <= j < n && Moved(src.order[j], bound, d) == i)
  {
    if n > 0 {
      ShiftedKeys(src, bound, d, n - 1);
      var p := ShiftedPrefix(src, bound, d, n - 1);
      var key := src.order[n - 1];
      var r := Put(p, Moved(key, bound, d), Lookup(src, key));
      PutWellFormed(p, Moved(key, bound, d), Lookup(src, key));
      assert r.infos.Keys == p.infos.Keys + {Moved(key, bound, d)};
      forall j | 0 <= j < n
        ensures Moved(src.order[j], bound, d) in r.infos
      {
        if j < n - 1 {
          assert Moved(src.order[j], bound, d) in p.infos;
        }
      }
      forall i | i in r.infos
        ensures exists j :: 0 <= j < n && Moved(src.order[j], bound, d) == i
      {
        if i == Moved(key, bound, d) {
          assert Moved(src.order[n - 1], bound, d) == i;
        } else {
          var j :| 0 <= j < n - 1 && Moved(src.order[j], bound, d) == i;
          assert 0 <= j < n;
        }
      }
    }
  }

  function Shifted(src: Table, bound: int, d: int): Table
  {
    ShiftedPrefix(src, bound, d, |src.order|)
  }

  /** No entry lies in the window the shift folds onto the indices below
      `bound`. */
  ghost predicate NoCollision(src: Table, bound: int, d: int)
  {
    forall i :: i in src.infos ==> !(bound <= i < bound + d)
  }

  /** Without collisions every entry keeps its value at its moved index. */
  lemma {:induction false} ShiftedValues(src: Table, bound: int, d: int, n: nat)
    requires WellFormed(src) && NoCollision(src, bound, d) && d >= 0 && n <= |src.order|
    ensures forall j :: 0 <= j < n ==>
              Lookup(ShiftedPrefix(src, bound, d, n), Moved(src.order[j], bound, d)) == Lookup(src, src.order[j])
  {
    if n > 0 {
      ShiftedValues(src, bound, d, n - 1);
      var key := src.order[n - 1];
      assert key in src.order;
      forall j | 0 <= j < n - 1
        ensures Moved(src.order[j], bound, d) != Moved(key, bound, d)
      {
        assert src.order[j] in src.order;
      }
    }
  }

  /** Copying with a zero shift keeps the order and the entries... */
  lemma {:induction false} ShiftByZeroPrefix(u: Table, n: nat)
    requires WellFormed(u) && n <= |u.order|
    ensures var r := ShiftedPrefix(u, 0, 0, n);
            r.order == u.order[..n] &&
            (forall i :: i in r.infos <==> i in u.order[..n]) &&
            (forall i :: Lookup(r, i) == if i in u.order[..n] then Lookup(u, i) else DefaultInfo)
  {
    if n > 0 {
      ShiftByZeroPrefix(u, n - 1);
      var key := u.order[n - 1];
      assert u.order[..n] == u.order[..n - 1] + [key];
    }
  }

  /** ...so refilling a map from a copy gives the copy back. */
  lemma ShiftByZero(u: Table)
    requires WellFormed(u)
    ensures Shifted(u, 0, 0) == u
  {
    ShiftByZeroPrefix(u, |u.order|);
    assert u.order[..|u.order|] == u.order;
    var r := Shifted(u, 0, 0);
    forall i | i in u.infos
      ensures i in r.infos && r.infos[i] == u.infos[i]
    {
      assert Lookup(r, i) == Lookup(u, i);
    }
    forall i | i in r.infos
      ensures i in u.infos
    {
      assert i in u.order[..|u.order|];
    }
    assert r.infos == u.infos;
  }

  /** One call of ProcessSingleTagLevel on text and map: the leftmost tag
      is replaced by its content, the content's characters get the tag's
      attribute at their new indices, and the map's indices after the
      content move down by the length of the markup around it. */
  /** The map after a tag's attribute is applied to its content and the
      indices after its markup are shifted down. */
  function TagLevel(t: Table, m: TagMatch): Table
    requires IsNumber(m.whole, m.fraction)
  {
    var bound := m.start + |m.content|;
    Shifted(Tagged(t, m.start, m.kind, ParseValue(m.whole, m.fraction), |m.content|), bound, m.length - |m.content|)
  }

  function SingleLevel(text: string, t: Table): (r: (string, Table))
  {
    match FindTag(text)
    case None => (text, t)
    case Some(m) => (Splice(text, m), TagLevel(t, m))
  }

  /** The level when a tag is found, spelt out. */
  lemma SingleLevelFound(text: string, t: Table, m: TagMatch)
    requires FindTag(text) == Some(m)
    ensures m.start + m.length <= |text| && IsNumber(m.whole, m.fraction)
    ensures SingleLevel(text, t) == (Splice(text, m), TagLevel(t, m))
  {
  }

  /** A level changes the text exactly when there is a tag, and then it
      shortens it by ten characters at least; the map stays well formed. */
  lemma SingleLevelChange(text: string, t: Table)
    ensures SingleLevel(text, t).0 == text <==> FindTag(text).None?
    ensures FindTag(text).None? ==> SingleLevel(text, t).1 == t
    ensures FindTag(text).Some? ==> |SingleLevel(text, t).0| + 10 <= |text|
  {
    if FindTag(text).Some? {
      FoundTag(text);
    }
  }

  /** After tagging `n` characters from `start` and shifting the indices
      from `start + n` down by `d`, every tagged character has an entry... */
  lemma TagShiftKeys(t: Table, start: int, k: TagKind, v: real, n: nat, d: int)
    requires WellFormed(t)
    ensures var r := Shifted(Tagged(t, start, k, v, n), start + n, d);
            forall i :: start <= i < start + n ==> i in r.infos
  {
    var tagged := Tagged(t, start, k, v, n);
    TaggedEntries(t, start, k, v, n);
    var r := Shifted(tagged, start + n, d);
    forall i | start <= i < start + n
      ensures i in r.infos
    {
      ShiftedHas(tagged, start + n, d, i);
    }
  }

  /** Every key of a well-formed map has an entry at its moved index. */
  lemma ShiftedHas(src: Table, bound: int, d: int, key: int)
    requires WellFormed(src) && key in src.infos
    ensures Moved(key, bound, d) in Shifted(src, bound, d).infos
  {
    ShiftedKeys(src, bound, d, |src.order|);
    assert key in src.order;
    var j :| 0 <= j < |src.order| && src.order[j] == key;
  }

  /** ...and when no entry lies in the folded window, each holds the tag's
      value in the tag's field and its other field as before, the entries
      before the tag are untouched and the entries after the markup move
      down by `d` with their values. */
  lemma TagShiftValues(t: Table, start: int, k: TagKind, v: real, n: nat, d: int)
    requires WellFormed(t) && d >= 0
    requires NoCollision(Tagged(t, start, k, v, n), start + n, d)
    ensures var r := Shifted(Tagged(t, start, k, v, n), start + n, d);
            (forall i :: start <= i < start + n ==>
               Field(Lookup(r, i), k) == v && Field(Lookup(r, i), Other(k)) == Field(Lookup(t, i), Other(k))) &&
            (forall i :: i < start ==> Lookup(r, i) == Lookup(t, i)) &&
            (forall i :: i >= start + n + d ==> Lookup(r, i - d) == Lookup(t, i))
  {
    var tagged := Tagged(t, start, k, v, n);
    var bound := start + n;
    var r := Shifted(tagged, bound, d);
    TaggedEntries(t, start, k, v, n);
    ShiftMoves(tagged, bound, d);
    forall i | start <= i < start + n
      ensures Field(Lookup(r, i), k) == v && Field(Lookup(r, i), Other(k)) == Field(Lookup(t, i), Other(k))
    {
      assert Moved(i, bound, d) == i && i in tagged.infos;
    }
    forall i | i >= start + n + d
      ensures Lookup(r, i - d) == Lookup(t, i)
    {
      assert Moved(i, bound, d) == i - d;
    }
  }

  /** Without collisions the shift keeps every lookup outside the folded
      window, at the moved index. */
  lemma ShiftMoves(src: Table, bound: int, d: int)
    requires WellFormed(src) && NoCollision(src, bound, d) && d >= 0
    ensures forall i :: (i < bound || i >= bound + d) ==> Lookup(Shifted(src, bound, d), Moved(i, bound, d)) == Lookup(src, i)
  {
    forall i | i < bound || i >= bound + d
      ensures Lookup(Shifted(src, bound, d), Moved(i, bound, d)) == Lookup(src, i)
    {
      if i in src.infos {
        ShiftMovesEntry(src, bound, d, i);
      } else {
        ShiftMovesNothing(src, bound, d, i);
      }
    }
  }

  lemma ShiftMovesEntry(src: Table, bound: int, d: int, i: int)
    requires WellFormed(src) && NoCollision(src, bound, d) && d >= 0 && i in src.infos
    ensures Lookup(Shifted(src, bound, d), Moved(i, bound, d)) == Lookup(src, i)
  {
    ShiftedValues(src, bound, d, |src.order|);
    assert i in src.order;
    var j :| 0 <= j < |src.order| && src.order[j] == i;
  }

  lemma ShiftMovesNothing(src: Table, bound: int, d: int, i: int)
    requires WellFormed(src) && NoCollision(src, bound, d) && d >= 0 && i !in src.infos
    requires i < bound || i >= bound + d
    ensures Moved(i, bound, d) !in Shifted(src, bound, d).infos
  {
    ShiftedKeys(src, bound, d, |src.order|);
    forall j | 0 <= j < |src.order|
      ensures Moved(src.order[j], bound, d) != Moved(i, bound, d)
    {
      assert src.order[j] in src.infos;
    }
  }

  /** A level keeps the map well formed. */
  lemma SingleLevelWellFormed(text: string, t: Table)
    requires WellFormed(t)
    ensures WellFormed(SingleLevel(text, t).1)
  {
    match FindTag(text)
    case None =>
    case Some(m) =>
      SingleLevelFound(text, t, m);
      TagLevelWellFormed(t, m);
  }

  lemma TagLevelWellFormed(t: Table, m: TagMatch)
    requires IsNumber(m.whole, m.fraction)
    ensures WellFormed(TagLevel(t, m))
  {
    var tagged := Tagged(t, m.start, m.kind, ParseValue(m.whole, m.fraction), |m.content|);
    ShiftedKeys(tagged, m.start + |m.content|, m.length - |m.content|, |tagged.order|);
  }

  /** After a tag's level every character of its content has an entry;
      when no entry sits in the window the shift folds, each of them holds
      the tag's value in the tag's field and its other field as before, the
      entries before the tag keep their values and those after the markup
      move down by the markup's length less the content's. */
  lemma TagLevelAttributes(t: Table, m: TagMatch)
    requires WellFormed(t) && IsNumber(m.whole, m.fraction) && |m.content| <= m.length
    ensures var r := TagLevel(t, m);
            forall i :: m.start <= i < m.start + |m.content| ==> i in r.infos
    ensures var v := ParseValue(m.whole, m.fraction);
            var d := m.length - |m.content|;
            var r := TagLevel(t, m);
            NoCollision(Tagged(t, m.start, m.kind, v, |m.content|), m.start + |m.content|, d) ==>
              (forall i :: m.start <= i < m.start + |m.content| ==>
                 Field(Lookup(r, i), m.kind) == v && Field(Lookup(r, i), Other(m.kind)) == Field(Lookup(t, i), Other(m.kind))) &&
              (forall i :: i < m.start ==> Lookup(r, i) == Lookup(t, i)) &&
              (forall i :: i >= m.start + m.length ==> Lookup(r, i - d) == Lookup(t, i))
  {
    var v := ParseValue(m.whole, m.fraction);
    var d := m.length - |m.content|;
    assert TagLevel(t, m) == Shifted(Tagged(t, m.start, m.kind, v, |m.content|), m.start + |m.content|, d);
    TagShiftKeys(t, m.start, m.kind, v, |m.content|, d);
    if NoCollision(Tagged(t, m.start, m.kind, v, |m.content|), m.start + |m.content|, d) {
      TagShiftValues(t, m.start, m.kind, v, |m.content|, d);
    }
  }

  /** ProcessSingleTagLevel: strips the leftmost tag of `text`, returns the
      new text and updates `charInfoMap` in place. */
  method ProcessSingleTagLevel(text: string, charInfoMap: CharInfoTable) returns (newText: string)
    requires charInfoMap.Valid()
    modifies charInfoMap
    ensures (newText, charInfoMap.Value()) == SingleLevel(text, old(charInfoMap.Value()))
    ensures charInfoMap.Valid()
  {
    var found := FindTag(text);
    if found.None? {
      return text;
    }
    var m := found.value;
    ghost var t0 := charInfoMap.Value();
    SingleLevelFound(text, t0, m);
    var startIndex := m.start;
    var endIndex := startIndex + m.length;
    newText := text[..startIndex] + m.content + text[endIndex..];
    UpdateEntries(charInfoMap, m);
  }

  /** The part of ProcessSingleTagLevel that updates the map for a tag: the
      loop that gives every character of its content the tag's value,
      creating an entry where there is none, then the shift of the indices
      after the markup. */
  method UpdateEntries(charInfoMap: CharInfoTable, m: TagMatch)
    requires charInfoMap.Valid() && IsNumber(m.whole, m.fraction)
    modifies charInfoMap
    ensures charInfoMap.Value() == TagLevel(old(charInfoMap.Value()), m)
    ensures charInfoMap.Valid()
  {
    var value := ParseValue(m.whole, m.fraction);
    var content := m.content;
    var startIndex := m.start;
    ghost var t0 := charInfoMap.Value();
    var i := 0;
    while i < |content|
      invariant 0 <= i <= |content|
      invariant charInfoMap.Valid()
      invariant charInfoMap.Value() == Tagged(t0, startIndex, m.kind, value, i)
    {
      var charIndex := startIndex + i;
      var present := charInfoMap.ContainsKey(charIndex);
      if !present {
        charInfoMap.Set(charIndex, DefaultInfo);
      }
      var info := charInfoMap.Get(charIndex);
      ghost var before := Tagged(t0, startIndex, m.kind, value, i);
      assert info == Lookup(before, charIndex);
      charInfoMap.Set(charIndex, WithTag(info, m.kind, value));
      if !present {
        PutTwice(before, charIndex, DefaultInfo, WithTag(info, m.kind, value));
      }
      i := i + 1;
    }
    ShiftEntries(charInfoMap, startIndex + |content|, m.length - |content|);
  }

  /** The loop that copies every entry to its moved index in a new map,
      in enumeration order, then the map cleared and refilled from the
      copy in the copy's order. */
  method ShiftEntries(charInfoMap: CharInfoTable, bound: int, difference: int)
    requires charInfoMap.Valid()
    modifies charInfoMap
    ensures charInfoMap.Value() == Shifted(old(charInfoMap.Value()), bound, difference)
    ensures charInfoMap.Valid()
  {
    var updatedMap := ShiftedCopy(charInfoMap, bound, difference);
    ghost var shifted := updatedMap.Value();
    charInfoMap.Clear();
    var j := 0;
    while j < |updatedMap.order|
      invariant 0 <= j <= |updatedMap.order|
      invariant updatedMap.Value() == shifted && updatedMap.Valid()
      invariant charInfoMap.Value() == ShiftedPrefix(shifted, 0, 0, j) && charInfoMap.Valid()
    {
      var key := updatedMap.order[j];
      charInfoMap.Set(key, Lookup(updatedMap.Value(), key));
      j := j + 1;
    }
    ShiftByZero(shifted);
  }

  /** updatedMap: every entry of the map at its moved index. */
  method ShiftedCopy(charInfoMap: CharInfoTable, bound: int, difference: int) returns (updatedMap: CharInfoTable)
    requires charInfoMap.Valid()
    ensures fresh(updatedMap) && updatedMap.Valid()
    ensures updatedMap.Value() == Shifted(charInfoMap.Value(), bound, difference)
  {
    updatedMap := new CharInfoTable();
    var j := 0;
    while j < |charInfoMap.order|
      invariant 0 <= j <= |charInfoMap.order|
      invariant fresh(updatedMap) && updatedMap.Valid()
      invariant updatedMap.Value() == ShiftedPrefix(charInfoMap.Value(), bound, difference, j)
    {
      var key := charInfoMap.order[j];
      var newIndex := key;
      if newIndex >= bound {
        newIndex := newIndex - difference;
      }
      updatedMap.Set(newIndex, Lookup(charInfoMap.Value(), key));
      j := j + 1;
    }
  }

  /** ProcessSingleTagLevel repeated until the text stops changing. */
  function AllLevels(text: string, t: Table): (r: (string, Table))
    ensures FindTag(r.0).None?
    ensures |r.0| <= |text|
    decreases |text|
  {
    var s := SingleLevel(text, t);
    SingleLevelChange(text, t);
    if s.0 == text then (text, t) else AllLevels(s.0, s.1)
  }

  /** One step of the loop: a level that leaves the text as it is leaves
      the map as it is and ends the repetition; otherwise the repetition
      goes on from the shorter text the level returns. */
  lemma AllLevelsStep(text: string, t: Table)
    ensures var s := SingleLevel(text, t);
            s.0 == text ==> s.1 == t && AllLevels(text, t) == (text, t)
    ensures var s := SingleLevel(text, t);
            s.0 != text ==> |s.0| < |text| && AllLevels(text, t) == AllLevels(s.0, s.1)
  {
    SingleLevelChange(text, t);
  }

  /** The levels keep the map well formed. */
  lemma {:induction false} AllLevelsWellFormed(text: string, t: Table)
    requires WellFormed(t)
    ensures WellFormed(AllLevels(text, t).1)
    decreases |text|
  {
    var s := SingleLevel(text, t);
    SingleLevelChange(text, t);
    if s.0 != text {
      SingleLevelWellFormed(text, t);
      AllLevelsWellFormed(s.0, s.1);
    }
  }

  /** text.Replace("/n", "\n"): each "/n", from the left, becomes a line
      break. */
  function ReplaceSlashN(s: string): (r: string)
    ensures |r| <= |s|
  {
    if |s| == 0 then ""
    else if |s| >= 2 && s[0] == '/' && s[1] == 'n' then "\n" + ReplaceSlashN(s[2..])
    else [s[0]] + ReplaceSlashN(s[1..])
  }

  /** text.Replace("\n", "/n"). */
  function ReplaceNewline(s: string): (r: string)
    ensures |r| >= |s|
  {
    if |s| == 0 then ""
    else (if s[0] == '\n' then "/n" else [s[0]]) + ReplaceNewline(s[1..])
  }

  /** A text without line breaks survives the round trip of its "/n"s
      through line breaks. */
  lemma {:induction false} NewlineRoundTrip(s: string)
    requires forall i :: 0 <= i < |s| ==> s[i] != '\n'
    ensures ReplaceNewline(ReplaceSlashN(s)) == s
  {
    if |s| >= 2 && s[0] == '/' && s[1] == 'n' {
      NewlineRoundTrip(s[2..]);
      assert s == "/n" + s[2..];
    } else if |s| > 0 {
      NewlineRoundTrip(s[1..]);
      assert s == [s[0]] + s[1..];
    }
  }

  /** A text without "/n" is left as it is. */
  lemma {:induction false} NoSlashNUnchanged(s: string)
    requires forall i :: 0 <= i < |s| - 1 ==> !(s[i] == '/' && s[i + 1] == 'n')
    ensures ReplaceSlashN(s) == s
  {
    if |s| > 0 {
      NoSlashNUnchanged(s[1..]);
      assert s == [s[0]] + s[1..];
    }
  }

  /** Replacing "/n" adds no parenthesis. */
  lemma {:induction false} SlashNKeepsParens(s: string)
    requires forall i :: 0 <= i < |s| ==> s[i] != '('
    ensures forall i :: 0 <= i < |ReplaceSlashN(s)| ==> ReplaceSlashN(s)[i] != '('
  {
    if |s| >= 2 && s[0] == '/' && s[1] == 'n' {
      SlashNKeepsParens(s[2..]);
    } else if |s| > 0 {
      SlashNKeepsParens(s[1..]);
    }
  }

  /** charInfos: for each of the first `n` indices the map's entry, or a
      fresh CharacterInfo where there is none. */
  function Attributes(t: Table, n: nat): seq<CharInfo>
  {
    seq(n, i => Lookup(t, i))
  }

  /** What ProcessAllModifiers returns for `text`: the text without tags,
      and for each of its indices the map's entry or a fresh CharacterInfo. */
  function Modifiers(text: string): (r: (string, seq<CharInfo>))
    ensures |r.1| == |r.0|
  {
    var levels := AllLevels(ReplaceSlashN(text), Empty);
    var clean := ReplaceNewline(levels.0);
    (clean, Attributes(levels.1, |clean|))
  }

  /** ProcessAllModifiers. */
  method ProcessAllModifiers(text: string) returns (cleanText: string, charInfos: array<CharInfo>)
    ensures (cleanText, charInfos[..]) == Modifiers(text)
    ensures fresh(charInfos)
  {
    var workingText := ReplaceSlashN(text);
    var charInfoMap := new CharInfoTable();
    workingText := ProcessLevels(workingText, charInfoMap);
    workingText := ReplaceNewline(workingText);
    charInfos := AttributeArray(charInfoMap, |workingText|);
    cleanText := workingText;
  }

  /** The loop of ProcessAllModifiers that processes one level after
      another until the text stops changing. */
  method ProcessLevels(text: string, charInfoMap: CharInfoTable) returns (workingText: string)
    requires charInfoMap.Valid()
    modifies charInfoMap
    ensures (workingText, charInfoMap.Value()) == AllLevels(text, old(charInfoMap.Value()))
    ensures charInfoMap.Valid()
  {
    workingText := text;
    ghost var goal := AllLevels(text, charInfoMap.Value());
    while true
      invariant charInfoMap.Valid()
      invariant AllLevels(workingText, charInfoMap.Value()) == goal
      decreases |workingText|
    {
      var beforeProcessing := workingText;
      ghost var t := charInfoMap.Value();
      AllLevelsStep(beforeProcessing, t);
      workingText := ProcessSingleTagLevel(workingText, charInfoMap);
      if beforeProcessing == workingText {
        assert workingText == goal.0 && charInfoMap.Value() == goal.1;
        break;
      }
    }
  }

  /** The loop of ProcessAllModifiers that fills the array. */
  method AttributeArray(charInfoMap: CharInfoTable, n: nat) returns (charInfos: array<CharInfo>)
    requires charInfoMap.Valid()
    ensures fresh(charInfos)
    ensures charInfos[..] == Attributes(charInfoMap.Value(), n)
  {
    charInfos := new CharInfo[n];
    var i := 0;
    while i < n
      invariant 0 <= i <= n
      invariant forall j :: 0 <= j < i ==> charInfos[j] == Lookup(charInfoMap.Value(), j)
    {
      var present := charInfoMap.ContainsKey(i);
      if present {
        charInfos[i] := charInfoMap.Get(i);
      } else {
        charInfos[i] := DefaultInfo;
      }
      i := i + 1;
    }
  }

  /** A line without tags and line breaks comes back unchanged, every
      character with the default attributes. */
  lemma PlainText(text: string)
    requires forall i :: 0 <= i < |text| ==> text[i] != '\n'
    requires FindTag(ReplaceSlashN(text)).None?
    ensures Modifiers(text) == (text, seq(|text|, i => DefaultInfo))
  {
    var w := ReplaceSlashN(text);
    AllLevelsNone(w, Empty);
    NewlineRoundTrip(text);
    AttributesOfEmpty(|text|);
  }

  /** Without a tag there is nothing to process. */
  lemma AllLevelsNone(text: string, t: Table)
    requires FindTag(text).None?
    ensures AllLevels(text, t) == (text, t)
  {
    AllLevelsStep(text, t);
    SingleLevelChange(text, t);
  }

  /** An empty map gives every character the default attributes. */
  lemma AttributesOfEmpty(n: nat)
    ensures Attributes(Empty, n) == seq(n, i => DefaultInfo)
  {
  }

  /** In particular a line without parentheses and line breaks. */
  lemma PlainTextWithoutParens(text: string)
    requires forall i :: 0 <= i < |text| ==> text[i] != '\n' && text[i] != '('
    ensures Modifiers(text) == (text, seq(|text|, i => DefaultInfo))
  {
    SlashNKeepsParens(text);
    NoTagWithoutParen(ReplaceSlashN(text));
    PlainText(text);
  }
}
