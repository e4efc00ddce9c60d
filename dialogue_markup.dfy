/** The markup of the 3D dialogue text. A dialogue line may wrap a run of
    text in `/speed[v](...)` or `/anim[v](...)`; v is a decimal number
    (digits, optionally a point and more digits) and the wrapped text holds
    no parenthesis. The search for a tag behaves like the regular
    expression Dialogue3DText uses: the leftmost start position that begins
    a tag wins, and at that position exactly one tag can match. */
module DialogueMarkup {
  import opened UnityRandom

  datatype TagKind = Speed | Anim

  /** The word after the slash. */
  function KindName(k: TagKind): string
  {
    match k
    case Speed => "speed"
    case Anim => "anim"
  }

  predicate IsDigit(c: char)
  {
    '0' <= c <= '9'
  }

  predicate IsDigits(s: string)
  {
    |s| > 0 && forall i :: 0 <= i < |s| ==> IsDigit(s[i])
  }

  predicate NoParens(s: string)
  {
    forall i :: 0 <= i < |s| ==> s[i] != '(' && s[i] != ')'
  }

  /** The text of a tag value: the whole part, then the point and the
      fraction when there is one. */
  function Number(whole: string, fraction: Option<string>): string
  {
    match fraction
    case None => whole
    case Some(f) => whole + "." + f
  }

  predicate IsNumber(whole: string, fraction: Option<string>)
  {
    IsDigits(whole) && (fraction.Some? ==> IsDigits(fraction.value))
  }

  /** The markup of a tag, from its slash to its closing parenthesis. */
  function Markup(k: TagKind, whole: string, fraction: Option<string>, content: string): string
  {
    "/" + KindName(k) + "[" + Number(whole, fraction) + "](" + content + ")"
  }

  /** A match: the tag's kind, value and content, the index of its slash and
      the length of its markup. */
  datatype TagMatch = TagMatch(kind: TagKind, whole: string, fraction: Option<string>,
                               content: string, start: nat, length: nat)

  /** `s` occurs in `text` at `pos`. */
  predicate StartsAt(text: string, pos: nat, s: string)
  {
    pos + |s| <= |text| && forall j {:trigger s[j]} :: 0 <= j < |s| ==> text[pos + j] == s[j]
  }

  /** Where `s` occurs, the slice of that length is `s`. */
  lemma StartsAtSlice(text: string, pos: nat, s: string)
    requires StartsAt(text, pos, s)
    ensures text[pos..pos + |s|] == s
  {
  }

  /** The length of the run of digits at `i`. */
  function DigitRun(text: string, i: nat): (n: nat)
    requires i <= |text|
    ensures i + n <= |text|
    ensures i + n == |text| || !IsDigit(text[i + n])
    decreases |text| - i
  {
    if i < |text| && IsDigit(text[i]) then 1 + DigitRun(text, i + 1) else 0
  }

  /** The run is made of digits. */
  lemma {:induction false} DigitRunDigits(text: string, i: nat)
    requires i <= |text|
    ensures forall j :: i <= j < i + DigitRun(text, i) ==> IsDigit(text[j])
    decreases |text| - i
  {
    if i < |text| && IsDigit(text[i]) {
      DigitRunDigits(text, i + 1);
    }
  }

  /** A run of digits that stops at a non-digit is the whole digit run. */
  lemma {:induction false} DigitRunExact(text: string, i: nat, n: nat)
    requires i + n <= |text|
    requires forall j :: i <= j < i + n ==> IsDigit(text[j])
    requires i + n == |text| || !IsDigit(text[i + n])
    ensures DigitRun(text, i) == n
    decreases n
  {
    if n > 0 {
      DigitRunExact(text, i + 1, n - 1);
    }
  }

  /** The length of the run of characters other than parentheses at `i`. */
  function FreeRun(text: string, i: nat): (n: nat)
    requires i <= |text|
    ensures i + n <= |text|
    ensures i + n == |text| || text[i + n] == '(' || text[i + n] == ')'
    decreases |text| - i
  {
    if i < |text| && text[i] != '(' && text[i] != ')' then 1 + FreeRun(text, i + 1) else 0
  }

  /** The run holds no parenthesis. */
  lemma {:induction false} FreeRunFree(text: string, i: nat)
    requires i <= |text|
    ensures forall j :: i <= j < i + FreeRun(text, i) ==> text[j] != '(' && text[j] != ')'
    decreases |text| - i
  {
    if i < |text| && text[i] != '(' && text[i] != ')' {
      FreeRunFree(text, i + 1);
    }
  }

  lemma {:induction false} FreeRunExact(text: string, i: nat, n: nat)
    requires i + n <= |text|
    requires forall j :: i <= j < i + n ==> text[j] != '(' && text[j] != ')'
    requires i + n == |text| || text[i + n] == '(' || text[i + n] == ')'
    ensures FreeRun(text, i) == n
    decreases n
  {
    if n > 0 {
      FreeRunExact(text, i + 1, n - 1);
    }
  }

  /** The tag word at `i`, if any. */
  function KindAt(text: string, i: nat): (r: Option<TagKind>)
    ensures r.Some? ==> StartsAt(text, i, KindName(r.value))
  {
    if i + 5 <= |text| && text[i] == 's' && text[i + 1] == 'p' && text[i + 2] == 'e' &&
       text[i + 3] == 'e' && text[i + 4] == 'd'
    then Some(Speed)
    else if i + 4 <= |text| && text[i] == 'a' && text[i + 1] == 'n' && text[i + 2] == 'i' &&
            text[i + 3] == 'm'
    then Some(Anim)
    else None
  }

  /** The two tag words differ in their first letter, so at most one of them
      is at `i`. */
  lemma KindAtComplete(text: string, i: nat, k: TagKind)
    requires StartsAt(text, i, KindName(k))
    ensures KindAt(text, i) == Some(k)
  {
    var name := KindName(k);
    assert text[i + 0] == name[0] && text[i + 1] == name[1] && text[i + 2] == name[2] && text[i + 3] == name[3];
    if k == Speed {
      assert text[i + 4] == name[4];
    }
  }

  /** The characters of a run of digits that occurs at `pos`. */
  lemma DigitsAt(text: string, pos: nat, d: string)
    requires StartsAt(text, pos, d) && IsDigits(d)
    ensures forall j :: pos <= j < pos + |d| ==> IsDigit(text[j])
  {
    forall j | pos <= j < pos + |d|
      ensures IsDigit(text[j])
    {
      assert text[pos + (j - pos)] == d[j - pos];
    }
  }

  /** The tag value at `p` and the index just after it, if a value is there:
      the longest run of digits, then a point and the longest run of digits
      after it when the point is followed by a digit. A point not followed by
      a digit cannot be closed by `]`, so there is no value then. */
  function ValueAt(text: string, p: nat): (r: Option<(string, Option<string>, nat)>)
    requires p <= |text|
    ensures r.Some? ==> IsNumber(r.value.0, r.value.1) && p < r.value.2 <= |text|
  {
    var a := DigitRun(text, p);
    var q := p + a;
    if a == 0 then None
    else if q < |text| && text[q] == '.' then
      var b := DigitRun(text, q + 1);
      DigitRunDigits(text, p);
      DigitRunDigits(text, q + 1);
      if b == 0 then None
      else Some((text[p..q], Some(text[q + 1..q + 1 + b]), q + 1 + b))
    else
      DigitRunDigits(text, p);
      Some((text[p..q], None, q))
  }

  /** The value ValueAt reads is written at `p`, and it ends where ValueAt
      says. */
  lemma ValueAtSound(text: string, p: nat)
    requires p <= |text| && ValueAt(text, p).Some?
    ensures var v := ValueAt(text, p).value;
            StartsAt(text, p, Number(v.0, v.1)) && v.2 == p + |Number(v.0, v.1)|
  {
    var q := p + DigitRun(text, p);
    if q < |text| && text[q] == '.' {
      var b := DigitRun(text, q + 1);
      NumberFromPieces(text, p, text[p..q], text[q + 1..q + 1 + b]);
    }
  }

  /** Every value followed by `]` is the one ValueAt reads. */
  lemma ValueAtComplete(text: string, p: nat, whole: string, fraction: Option<string>)
    requires IsNumber(whole, fraction)
    requires StartsAt(text, p, Number(whole, fraction))
    requires p + |Number(whole, fraction)| < |text| && text[p + |Number(whole, fraction)|] == ']'
    ensures ValueAt(text, p) == Some((whole, fraction, p + |Number(whole, fraction)|))
  {
    match fraction
    case None =>
      DigitsAt(text, p, whole);
      DigitRunExact(text, p, |whole|);
      StartsAtSlice(text, p, whole);
    case Some(f) =>
      PiecesFromNumber(text, p, whole, f);
      FractionAtComplete(text, p, whole, f);
  }

  lemma FractionAtComplete(text: string, p: nat, whole: string, f: string)
    requires IsDigits(whole) && IsDigits(f)
    requires p + |whole| + 1 + |f| < |text| && text[p + |whole| + 1 + |f|] == ']'
    requires StartsAt(text, p, whole) && text[p + |whole|] == '.' && StartsAt(text, p + |whole| + 1, f)
    ensures ValueAt(text, p) == Some((whole, Some(f), p + |whole| + 1 + |f|))
  {
    var w := p + |whole|;
    DigitsAt(text, p, whole);
    DigitsAt(text, w + 1, f);
    DigitRunExact(text, p, |whole|);
    DigitRunExact(text, w + 1, |f|);
    StartsAtSlice(text, p, whole);
    StartsAtSlice(text, w + 1, f);
    assert DigitRun(text, p) == |whole| && text[p..w] == whole;
    assert DigitRun(text, w + 1) == |f| && text[w + 1..w + 1 + |f|] == f;
  }

  /** A value with a fraction occurs at `pos` when its pieces do... */
  lemma NumberFromPieces(text: string, pos: nat, whole: string, f: string)
    requires StartsAt(text, pos, whole) && pos + |whole| < |text| && text[pos + |whole|] == '.'
    requires StartsAt(text, pos + |whole| + 1, f)
    ensures StartsAt(text, pos, Number(whole, Some(f)))
  {
    var s := Number(whole, Some(f));
    forall j | 0 <= j < |s|
      ensures text[pos + j] == s[j]
    {
      if j < |whole| {
        assert text[pos + j] == whole[j];
      } else if j > |whole| {
        assert text[pos + |whole| + 1 + (j - |whole| - 1)] == f[j - |whole| - 1];
      }
    }
  }

  /** ...and only then. */
  lemma PiecesFromNumber(text: string, pos: nat, whole: string, f: string)
    requires StartsAt(text, pos, Number(whole, Some(f)))
    ensures StartsAt(text, pos, whole) && text[pos + |whole|] == '.' && StartsAt(text, pos + |whole| + 1, f)
  {
    var s := Number(whole, Some(f));
    assert text[pos + |whole|] == s[|whole|];
    forall j | 0 <= j < |whole|
      ensures text[pos + j] == whole[j]
    {
      assert text[pos + j] == s[j];
    }
    forall j | 0 <= j < |f|
      ensures text[pos + |whole| + 1 + j] == f[j]
    {
      assert text[pos + (|whole| + 1 + j)] == s[|whole| + 1 + j];
    }
  }

  /** The opening of a tag, up to the parenthesis before its content. */
  function Opening(k: TagKind, whole: string, fraction: Option<string>): string
  {
    "/" + KindName(k) + "[" + Number(whole, fraction) + "]("
  }

  /** The opening of a tag occurs at `i` when its pieces do. */
  lemma OpeningFromPieces(text: string, i: nat, k: TagKind, n: string)
    requires i + 1 + |KindName(k)| + 1 + |n| + 1 < |text|
    requires text[i] == '/' && StartsAt(text, i + 1, KindName(k)) && text[i + 1 + |KindName(k)|] == '['
    requires StartsAt(text, i + 1 + |KindName(k)| + 1, n)
    requires text[i + 1 + |KindName(k)| + 1 + |n|] == ']' && text[i + 1 + |KindName(k)| + 1 + |n| + 1] == '('
    ensures StartsAt(text, i, "/" + KindName(k) + "[" + n + "](")
  {
    var s := "/" + KindName(k) + "[" + n + "](";
    var p := i + 1 + |KindName(k)|;
    forall j | 0 <= j < |s|
      ensures text[i + j] == s[j]
    {
      if 1 <= j < 1 + |KindName(k)| {
        assert text[i + 1 + (j - 1)] == KindName(k)[j - 1];
      } else if p + 1 <= i + j < p + 1 + |n| {
        assert text[p + 1 + (i + j - p - 1)] == n[i + j - p - 1];
      }
    }
  }

  /** The pieces of an opening at `i`, one by one: the slash, the tag
      word, `[`, the value and `](`. */
  predicate OpeningPieces(text: string, i: nat, k: TagKind, whole: string, fraction: Option<string>)
  {
    var p := i + 1 + |KindName(k)|;
    var q := p + 1 + |Number(whole, fraction)|;
    q + 1 < |text| && text[i] == '/' && StartsAt(text, i + 1, KindName(k)) && text[p] == '[' &&
    StartsAt(text, p + 1, Number(whole, fraction)) && text[q] == ']' && text[q + 1] == '('
  }

  /** The opening of the tag whose slash is at `i`: its kind, its value and
      the index where its content starts. */
  function OpeningAt(text: string, i: nat): (r: Option<(TagKind, string, Option<string>, nat)>)
    ensures r.Some? ==> IsNumber(r.value.1, r.value.2) && i < r.value.3 <= |text|
  {
    if !(i < |text| && text[i] == '/') then None
    else match KindAt(text, i + 1)
      case None => None
      case Some(kind) =>
        var p := i + 1 + |KindName(kind)|;
        if !(p < |text| && text[p] == '[') then None
        else match ValueAt(text, p + 1)
          case None => None
          case Some(v) =>
            if !(v.2 + 1 < |text| && text[v.2] == ']' && text[v.2 + 1] == '(') then None
            else Some((kind, v.0, v.1, v.2 + 2))
  }

  /** The steps by which OpeningAt reads an opening... */
  lemma OpeningAtParts(text: string, i: nat)
    requires OpeningAt(text, i).Some?
    ensures var o := OpeningAt(text, i).value;
            var p := i + 1 + |KindName(o.0)|;
            i < |text| && text[i] == '/' && KindAt(text, i + 1) == Some(o.0) &&
            p < |text| && text[p] == '[' && ValueAt(text, p + 1) == Some((o.1, o.2, o.3 - 2)) &&
            o.3 <= |text| && text[o.3 - 2] == ']' && text[o.3 - 1] == '('
  {
  }

  /** ...and an opening read by those steps is what OpeningAt returns. */
  lemma OpeningAtOfParts(text: string, i: nat, k: TagKind, whole: string, fraction: Option<string>, e: nat)
    requires i < |text| && text[i] == '/' && KindAt(text, i + 1) == Some(k)
    requires i + 1 + |KindName(k)| < |text| && text[i + 1 + |KindName(k)|] == '['
    requires ValueAt(text, i + 2 + |KindName(k)|) == Some((whole, fraction, e))
    requires e + 1 < |text| && text[e] == ']' && text[e + 1] == '('
    ensures OpeningAt(text, i) == Some((k, whole, fraction, e + 2))
  {
  }

  /** The opening OpeningAt reads is written at `i`, and the content starts
      right after it. */
  lemma OpeningAtSound(text: string, i: nat)
    requires OpeningAt(text, i).Some?
    ensures var o := OpeningAt(text, i).value;
            StartsAt(text, i, Opening(o.0, o.1, o.2)) && o.3 == i + |Opening(o.0, o.1, o.2)|
  {
    var o := OpeningAt(text, i).value;
    OpeningAtParts(text, i);
    OpeningFromParts(text, i, o.0, o.1, o.2, o.3 - 2);
  }

  lemma OpeningFromParts(text: string, i: nat, k: TagKind, whole: string, fraction: Option<string>, e: nat)
    requires i < |text| && text[i] == '/' && KindAt(text, i + 1) == Some(k)
    requires i + 1 + |KindName(k)| < |text| && text[i + 1 + |KindName(k)|] == '['
    requires ValueAt(text, i + 2 + |KindName(k)|) == Some((whole, fraction, e))
    requires e + 1 < |text| && text[e] == ']' && text[e + 1] == '('
    ensures StartsAt(text, i, Opening(k, whole, fraction)) && e + 2 == i + |Opening(k, whole, fraction)|
  {
    ValueAtSound(text, i + 2 + |KindName(k)|);
    OpeningFromPieces(text, i, k, Number(whole, fraction));
  }

  /** Every opening is the one OpeningAt reads. */
  lemma OpeningAtComplete(text: string, i: nat, k: TagKind, whole: string, fraction: Option<string>)
    requires IsNumber(whole, fraction) && OpeningPieces(text, i, k, whole, fraction)
    ensures OpeningAt(text, i) == Some((k, whole, fraction, i + |KindName(k)| + |Number(whole, fraction)| + 4))
  {
    var p := i + 1 + |KindName(k)|;
    KindAtComplete(text, i + 1, k);
    ValueAtComplete(text, p + 1, whole, fraction);
    var e := p + 1 + |Number(whole, fraction)|;
    OpeningAtOfParts(text, i, k, whole, fraction, e);
    assert e + 2 == i + |KindName(k)| + |Number(whole, fraction)| + 4;
  }

  /** The content of a tag whose opening ends at `o`: the longest run
      without parentheses, when `)` follows it. */
  function ContentAt(text: string, o: nat): (r: Option<string>)
    requires o <= |text|
    ensures r.Some? ==> NoParens(r.value) && o + |r.value| < |text|
  {
    var e := o + FreeRun(text, o);
    FreeRunFree(text, o);
    if e < |text| && text[e] == ')' then Some(text[o..e]) else None
  }

  /** The content ContentAt reads is written at `o`, followed by `)`. */
  lemma ContentAtSound(text: string, o: nat)
    requires o <= |text| && ContentAt(text, o).Some?
    ensures var c := ContentAt(text, o).value;
            StartsAt(text, o, c) && o + |c| < |text| && text[o + |c|] == ')'
  {
  }

  /** Every content closed by `)` is the one ContentAt reads. */
  lemma ContentAtComplete(text: string, o: nat, content: string)
    requires StartsAt(text, o, content) && NoParens(content)
    requires o + |content| < |text| && text[o + |content|] == ')'
    ensures ContentAt(text, o) == Some(content)
  {
    FreeAt(text, o, content);
    FreeRunExact(text, o, |content|);
    StartsAtSlice(text, o, content);
  }

  /** The tag whose slash is at `i`, if one is there: an opening, the
      longest run without parentheses, and `)`. */
  function MatchAt(text: string, i: nat): (r: Option<TagMatch>)
    ensures r.Some? ==> r.value.start == i && i < |text| && i + r.value.length <= |text|
    ensures r.Some? ==> IsNumber(r.value.whole, r.value.fraction) && NoParens(r.value.content)
  {
    match OpeningAt(text, i)
    case None => None
    case Some(o) =>
      match ContentAt(text, o.3)
      case None => None
      case Some(c) => Some(TagMatch(o.0, o.1, o.2, c, i, o.3 + |c| + 1 - i))
  }

  /** What MatchAt finds is the markup of a tag written at `i`. */
  lemma MatchAtSound(text: string, i: nat)
    requires MatchAt(text, i).Some?
    ensures var m := MatchAt(text, i).value;
            StartsAt(text, i, Markup(m.kind, m.whole, m.fraction, m.content)) &&
            m.length == |Markup(m.kind, m.whole, m.fraction, m.content)|
  {
    var o := OpeningAt(text, i).value;
    MatchAtParts(text, i);
    OpeningAtSound(text, i);
    ContentAtSound(text, o.3);
    MarkupFromPieces(text, i, o.0, o.1, o.2, ContentAt(text, o.3).value);
  }

  /** The steps by which MatchAt reads a tag. */
  lemma MatchAtParts(text: string, i: nat)
    requires MatchAt(text, i).Some?
    ensures var m := MatchAt(text, i).value;
            var o := OpeningAt(text, i).value;
            OpeningAt(text, i).Some? && o == (m.kind, m.whole, m.fraction, o.3) &&
            ContentAt(text, o.3) == Some(m.content) && m.length == o.3 + |m.content| + 1 - i
  {
  }

  /** The markup of a tag occurs at `i` when its opening, its content and
      `)` do... */
  lemma MarkupFromPieces(text: string, i: nat, k: TagKind, whole: string, fraction: Option<string>, content: string)
    requires StartsAt(text, i, Opening(k, whole, fraction))
    requires StartsAt(text, i + |Opening(k, whole, fraction)|, content)
    requires i + |Opening(k, whole, fraction)| + |content| < |text|
    requires text[i + |Opening(k, whole, fraction)| + |content|] == ')'
    ensures StartsAt(text, i, Markup(k, whole, fraction, content))
    ensures |Markup(k, whole, fraction, content)| == |Opening(k, whole, fraction)| + |content| + 1
  {
    var op := Opening(k, whole, fraction);
    var s := Markup(k, whole, fraction, content);
    assert s == op + content + ")";
    forall j | 0 <= j < |s|
      ensures text[i + j] == s[j]
    {
      if j < |op| {
        assert text[i + j] == op[j];
      } else if j < |op| + |content| {
        assert text[i + |op| + (j - |op|)] == content[j - |op|];
      }
    }
  }

  /** ...and only then. */
  lemma PiecesFromMarkup(text: string, i: nat, k: TagKind, whole: string, fraction: Option<string>, content: string)
    requires StartsAt(text, i, Markup(k, whole, fraction, content))
    ensures var o := i + |KindName(k)| + |Number(whole, fraction)| + 4;
            OpeningPieces(text, i, k, whole, fraction) && StartsAt(text, o, content) &&
            o + |content| < |text| && text[o + |content|] == ')'
  {
    var s := Markup(k, whole, fraction, content);
    var name := KindName(k);
    var n := Number(whole, fraction);
    var p := 1 + |name|;
    var q := p + 1 + |n|;
    assert text[i + 0] == s[0];
    assert text[i + p] == s[p];
    assert text[i + q] == s[q];
    assert text[i + (q + 1)] == s[q + 1];
    assert text[i + (q + 2 + |content|)] == s[q + 2 + |content|];
    forall j | 0 <= j < |name|
      ensures text[i + 1 + j] == name[j]
    {
      assert text[i + (1 + j)] == s[1 + j];
    }
    forall j | 0 <= j < |n|
      ensures text[i + p + 1 + j] == n[j]
    {
      assert text[i + (p + 1 + j)] == s[p + 1 + j];
    }
    forall j | 0 <= j < |content|
      ensures text[i + q + 2 + j] == content[j]
    {
      assert text[i + (q + 2 + j)] == s[q + 2 + j];
    }
  }

  /** Every well-formed tag at `i` is what MatchAt finds there: the match at
      a position is unique. */
  lemma MatchAtComplete(text: string, i: nat, k: TagKind, whole: string, fraction: Option<string>, content: string)
    requires IsNumber(whole, fraction) && NoParens(content)
    requires StartsAt(text, i, Markup(k, whole, fraction, content))
    ensures MatchAt(text, i) == Some(TagMatch(k, whole, fraction, content, i, |Markup(k, whole, fraction, content)|))
  {
    PiecesFromMarkup(text, i, k, whole, fraction, content);
    MatchAtFromPieces(text, i, k, whole, fraction, content);
    assert |Markup(k, whole, fraction, content)| == |KindName(k)| + |Number(whole, fraction)| + |content| + 5;
  }

  /** A tag is found at `i` when its opening and its closed content are
      there. */
  lemma MatchAtFromPieces(text: string, i: nat, k: TagKind, whole: string, fraction: Option<string>, content: string)
    requires IsNumber(whole, fraction) && NoParens(content) && OpeningPieces(text, i, k, whole, fraction)
    requires var o := i + |KindName(k)| + |Number(whole, fraction)| + 4;
             StartsAt(text, o, content) && o + |content| < |text| && text[o + |content|] == ')'
    ensures MatchAt(text, i) == Some(TagMatch(k, whole, fraction, content, i, |KindName(k)| + |Number(whole, fraction)| + |content| + 5))
  {
    var o := i + |KindName(k)| + |Number(whole, fraction)| + 4;
    OpeningAtComplete(text, i, k, whole, fraction);
    ContentAtComplete(text, o, content);
    MatchAtOfParts(text, i, k, whole, fraction, o, content);
    assert o + |content| + 1 - i == |KindName(k)| + |Number(whole, fraction)| + |content| + 5;
  }

  /** A tag read by MatchAt's steps is what MatchAt returns. */
  lemma MatchAtOfParts(text: string, i: nat, k: TagKind, whole: string, fraction: Option<string>, o: nat, content: string)
    requires OpeningAt(text, i) == Some((k, whole, fraction, o))
    requires ContentAt(text, o) == Some(content)
    ensures MatchAt(text, i) == Some(TagMatch(k, whole, fraction, content, i, o + |content| + 1 - i))
  {
  }

  /** The characters of a parenthesis-free run that occurs at `pos`. */
  lemma FreeAt(text: string, pos: nat, s: string)
    requires StartsAt(text, pos, s) && NoParens(s)
    ensures forall j :: pos <= j < pos + |s| ==> text[j] != '(' && text[j] != ')'
  {
    forall j | pos <= j < pos + |s|
      ensures text[j] != '(' && text[j] != ')'
    {
      assert text[pos + (j - pos)] == s[j - pos];
    }
  }

  /** No tag starts at `i` or later, before `k`. */
  predicate NoTagBetween(text: string, i: nat, k: nat)
    decreases k - i
  {
    i >= k || (MatchAt(text, i).None? && NoTagBetween(text, i + 1, k))
  }

  lemma {:induction false} NoTagBetweenAll(text: string, i: nat, k: nat)
    ensures NoTagBetween(text, i, k) <==> forall j :: i <= j < k ==> MatchAt(text, j).None?
    decreases k - i
  {
    if i < k {
      NoTagBetweenAll(text, i + 1, k);
    }
  }

  /** The leftmost tag that starts at `i` or later. */
  function FindFrom(text: string, i: nat): (r: Option<TagMatch>)
    ensures r.Some? ==> i <= r.value.start && MatchAt(text, r.value.start) == r
    ensures r.Some? ==> NoTagBetween(text, i, r.value.start)
    ensures r.None? ==> forall j :: i <= j ==> MatchAt(text, j).None?
    decreases |text| - i
  {
    if i >= |text| then None
    else if MatchAt(text, i).Some? then MatchAt(text, i)
    else FindFrom(text, i + 1)
  }

  /** The regular-expression search: the leftmost tag of the text. */
  function FindTag(text: string): (r: Option<TagMatch>)
    ensures r.Some? ==> MatchAt(text, r.value.start) == r
    ensures r.Some? ==> forall j :: 0 <= j < r.value.start ==> MatchAt(text, j).None?
    ensures r.None? ==> forall j :: MatchAt(text, j).None?
  {
    var r := FindFrom(text, 0);
    NoTagBetweenAll(text, 0, if r.Some? then r.value.start else 0);
    r
  }

  /** The text with a tag's markup replaced by its content. */
  function Splice(text: string, m: TagMatch): string
    requires m.start + m.length <= |text|
  {
    text[..m.start] + m.content + text[m.start + m.length..]
  }

  /** The tag found lies inside the text, and replacing it by its content
      shortens the text by the markup around the content, at least ten
      characters (the shortest markup is `/anim[d]()`). */
  lemma FoundTag(text: string)
    requires FindTag(text).Some?
    ensures var m := FindTag(text).value;
            m.start + m.length <= |text| &&
            StartsAt(text, m.start, Markup(m.kind, m.whole, m.fraction, m.content)) &&
            |Splice(text, m)| == |text| - (m.length - |m.content|) &&
            m.length - |m.content| >= 10
  {
    var m := FindTag(text).value;
    MatchAtSound(text, m.start);
    assert |Markup(m.kind, m.whole, m.fraction, m.content)| ==
           |KindName(m.kind)| + |Number(m.whole, m.fraction)| + |m.content| + 5;
  }

  /** The search returns the tag at `p` exactly when a tag starts at `p`
      and none starts before it. */
  lemma FindTagAt(text: string, p: nat)
    ensures (FindTag(text).Some? && FindTag(text).value.start == p) <==>
            (MatchAt(text, p).Some? && forall j :: 0 <= j < p ==> MatchAt(text, j).None?)
  {
    if MatchAt(text, p).Some? && forall j :: 0 <= j < p ==> MatchAt(text, j).None? {
      assert FindTag(text).Some?;
      var s := FindTag(text).value.start;
      assert !(s < p) && !(p < s);
    }
  }

  /** A text without an opening parenthesis holds no tag. */
  lemma NoTagWithoutParen(text: string)
    requires forall i :: 0 <= i < |text| ==> text[i] != '('
    ensures FindTag(text).None?
  {
    if FindTag(text).Some? {
      var m := FindTag(text).value;
      MatchAtSound(text, m.start);
      PiecesFromMarkup(text, m.start, m.kind, m.whole, m.fraction, m.content);
    }
  }

  /** The value of a run of decimal digits. */
  function DigitsValue(d: string): (v: nat)
    requires forall i :: 0 <= i < |d| ==> IsDigit(d[i])
    ensures v < Pow10(|d|)
  {
    if |d| == 0 then 0
    else
      var last := d[|d| - 1];
      assert IsDigit(last);
      var prefix := DigitsValue(d[..|d| - 1]);
      assert 10 * prefix <= 10 * (Pow10(|d| - 1) - 1);
      10 * prefix + (last as int - '0' as int)
  }

  function Pow10(n: nat): (p: nat)
    ensures p >= 1
  {
    if n == 0 then 1 else 10 * Pow10(n - 1)
  }

  /** float.Parse of a tag value, as an exact decimal: the whole part plus
      the fraction's digits over the matching power of ten. */
  function ParseValue(whole: string, fraction: Option<string>): (v: real)
    requires IsNumber(whole, fraction)
    ensures DigitsValue(whole) as real <= v < DigitsValue(whole) as real + 1.0
    ensures fraction.None? ==> v == DigitsValue(whole) as real
  {
    match fraction
    case None => DigitsValue(whole) as real
    case Some(f) =>
      FractionBelowOne(DigitsValue(f) as real, Pow10(|f|) as real);
      DigitsValue(whole) as real + DigitsValue(f) as real / Pow10(|f|) as real
  }

  lemma FractionBelowOne(x: real, y: real)
    requires 0.0 <= x < y
    ensures 0.0 <= x / y < 1.0
  {
    var q := x / y;
    assert q * y == x;

  }

  /** The decimal digits of n, most significant first. */
  function Decimal(n: nat): (d: string)
    ensures IsDigits(d)
  {
    if n < 10 then [('0' as int + n) as char]
    else Decimal(n / 10) + [('0' as int + n % 10) as char]
  }

  /** Reading back the digits of a whole number gives the number. */
  lemma {:induction false} DecimalValue(n: nat)
    ensures DigitsValue(Decimal(n)) == n
  {
    var d := Decimal(n);
    if n >= 10 {
      DecimalValue(n / 10);
      assert d[..|d| - 1] == Decimal(n / 10);
    }
  }
}
