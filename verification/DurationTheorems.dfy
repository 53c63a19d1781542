/** The segments found in a message are ordered, disjoint and complete; printing and parsing agree. */
module DurationTheorems {
  import opened Text
  import opened Duration
  import opened NumberWords

  // ----- Every digit match is found -----

  lemma SpaceIsNotWord(c: char)
    requires IsSpace(c)
    ensures !IsWordChar(c)
  {
  }

  lemma UnitsHaveNoDigits(word: string)
    requires UnitOf(word).Some?
    ensures word != [] && forall i | 0 <= i < |word| :: !IsDigit(word[i])
  {
  }

  // No match starts inside another.
  lemma NoMatchInside(s: string, i: nat, j: nat)
    requires i <= |s| && DigitMatch(s, i).Some? && i < j < DigitMatch(s, i).value.end
    ensures DigitMatch(s, j).None?
  {
    var d := SpanEnd(s, i, IsDigit);
    var b := SpanEnd(s, d, IsSpace);
    var e := SpanEnd(s, b, IsWordChar);
    if j == b && b == d {
      assert IsDigit(s[d - 1]) && WordAt(s, j - 1) && WordAt(s, j);
    } else if j == b {
      UnitsHaveNoDigits(s[b..e]);
      assert s[b..e][0] == s[b];
    } else if j > b {
      assert WordAt(s, j - 1) && WordAt(s, j);
    } else if j < d {
      assert WordAt(s, j - 1) && WordAt(s, j);
    } else {
      SpaceIsNotWord(s[j]);
    }
  }

  lemma {:induction false} InDigitMatches(s: string, i: nat, m: Segment)
    requires i <= |s|
    ensures m in DigitMatches(s, i) <==> i <= m.start <= |s| && DigitMatch(s, m.start) == Some(m)
    decreases |s| - i
  {
    if i < |s| {
      var first := DigitMatch(s, i);
      if first.Some? {
        InDigitMatches(s, first.value.end, m);
        if i < m.start < first.value.end {
          NoMatchInside(s, i, m.start);
        }
      } else {
        InDigitMatches(s, i + 1, m);
      }
    }
  }

  ghost predicate InOrder(segments: seq<Segment>) {
    && (forall i | 0 <= i < |segments| :: segments[i].start < segments[i].end)
    && (forall i, j | 0 <= i < j < |segments| :: segments[i].end <= segments[j].start)
  }

  lemma FirstInOrder(m: Segment, rest: seq<Segment>)
    requires InOrder(rest) && m.start < m.end && forall x | x in rest :: m.end <= x.start
    ensures InOrder([m] + rest)
  {
    assert forall j | 0 <= j < |rest| :: rest[j] in rest;
  }

  lemma {:induction false} DigitMatchesInOrder(s: string, i: nat)
    requires i <= |s|
    ensures InOrder(DigitMatches(s, i))
    ensures forall m | m in DigitMatches(s, i) :: i <= m.start
    decreases |s| - i
  {
    if i < |s| {
      var first := DigitMatch(s, i);
      if first.Some? {
        DigitMatchesInOrder(s, first.value.end);
        FirstInOrder(first.value, DigitMatches(s, first.value.end));
      } else {
        DigitMatchesInOrder(s, i + 1);
      }
    }
  }

  /** finditer returns exactly the digit matches of the text, from left to right and disjoint. */
  lemma {:induction false} DigitMatchesComplete(s: string, i: nat)
    requires i <= |s|
    ensures forall m :: m in DigitMatches(s, i) <==> i <= m.start <= |s| && DigitMatch(s, m.start) == Some(m)
    ensures InOrder(DigitMatches(s, i))
  {
    DigitMatchesInOrder(s, i);
    forall m
      ensures m in DigitMatches(s, i) <==> i <= m.start <= |s| && DigitMatch(s, m.start) == Some(m)
    {
      InDigitMatches(s, i, m);
    }
  }

  // ----- Segments are disjoint, whatever order they are in -----

  predicate Apart(a: Segment, b: Segment) {
    a.end <= b.start || b.end <= a.start
  }

  ghost predicate Disjoint(segments: seq<Segment>) {
    && (forall i | 0 <= i < |segments| :: segments[i].start < segments[i].end)
    && (forall i, j | 0 <= i < j < |segments| :: Apart(segments[i], segments[j]))
  }

  lemma {:induction false} AddWordsKeepsDisjoint(segments: seq<Segment>, words: seq<WordMatch>)
    requires Disjoint(segments) && forall i | 0 <= i < |words| :: words[i].start < words[i].end
    ensures Disjoint(AddWords(segments, words)) && segments <= AddWords(segments, words)
    decreases words
  {
    if words != [] {
      var w := words[0];
      var value := Value(ENGLISH, w.numberWords);
      if OverlapsAny(w.start, w.end, segments) || value.None? || UnitOf(w.unitWord).None? {
        AddWordsKeepsDisjoint(segments, words[1..]);
      } else {
        AddWordsKeepsDisjoint(segments + [Segment(value.value, UnitOf(w.unitWord).value, w.start, w.end)], words[1..]);
      }
    }
  }

  lemma {:induction false} InsertOrders(x: Segment, s: seq<Segment>)
    requires InOrder(s) && x.start < x.end && forall y | y in s :: Apart(x, y)
    ensures InOrder(Insert(x, s))
    ensures forall y :: y in Insert(x, s) <==> y == x || y in s
  {
    if s == [] || x.start <= s[0].start {
      assert s != [] ==> s[0] in s;
    } else {
      assert s[0] in s;
      InsertOrders(x, s[1..]);
      assert s == [s[0]] + s[1..];
      forall y | y in s[1..]
        ensures s[0].end <= y.start
      {
        var k :| 0 <= k < |s[1..]| && s[1..][k] == y;
        assert y == s[k + 1];
      }
      FirstInOrder(s[0], Insert(x, s[1..]));
    }
  }

  lemma {:induction false} SortOrders(s: seq<Segment>)
    requires Disjoint(s)
    ensures InOrder(SortByStart(s))
    ensures forall y :: y in SortByStart(s) <==> y in s
  {
    if s != [] {
      SortOrders(s[1..]);
      assert s == [s[0]] + s[1..];
      forall y | y in SortByStart(s[1..])
        ensures Apart(s[0], y)
      {
        var k :| 0 <= k < |s[1..]| && s[1..][k] == y;
        assert y == s[k + 1];
      }
      InsertOrders(s[0], SortByStart(s[1..]));
    }
  }

  /**
   The segments of any message are in order and pairwise disjoint, and hold every match of the digit
   pattern; a number-word match never displaces a digit match.
   */
  lemma {:induction false} SegmentsInOrder(message: string, words: seq<WordMatch>)
    requires PossibleWordMatches(Lower(message), words)
    ensures InOrder(Segments(message, words))
    ensures forall i: nat | i <= |Lower(message)| && DigitMatch(Lower(message), i).Some? ::
              DigitMatch(Lower(message), i).value in Segments(message, words)
  {
    var s := Lower(message);
    var digits := DigitMatches(s, 0);
    DigitMatchesComplete(s, 0);
    AddWordsKeepsDisjoint(digits, words);
    SortOrders(AddWords(digits, words));
    forall i: nat | i <= |s| && DigitMatch(s, i).Some?
      ensures DigitMatch(s, i).value in Segments(message, words)
    {
      var m := DigitMatch(s, i).value;
      assert m in digits;
      var k :| 0 <= k < |digits| && digits[k] == m;
      assert AddWords(digits, words)[k] == m;
    }
  }

  // ----- Reading back what was printed -----

  lemma {:induction false} SpanEndIs(s: string, i: nat, j: nat, p: char -> bool)
    requires i <= j <= |s| && (forall k | i <= k < j :: p(s[k])) && (j < |s| ==> !p(s[j]))
    ensures SpanEnd(s, i, p) == j
  {
  }

  // Lower-case text of digits, letters and blanks.
  predicate IsPlain(c: char) {
    IsDigit(c) || 'a' <= c <= 'z' || c == ' '
  }

  lemma PlainIsLower(s: string)
    requires AllIn(s, IsPlain)
    ensures Lower(s) == s
  {
  }

  predicate IsLetter(c: char) {
    'a' <= c <= 'z'
  }

  lemma UnitIsLetters(amount: nat, unit: Unit)
    ensures UnitOf(UnitText(amount, unit)) == Some(unit)
    ensures forall k | 0 <= k < |UnitText(amount, unit)| :: 'a' <= UnitText(amount, unit)[k] <= 'z'
    ensures |UnitText(amount, unit)| >= 1
  {
    match unit
    case Seconds => assert "second" + "" == "second" && "second" + "s" == "seconds";
    case Minutes => assert "minute" + "" == "minute" && "minute" + "s" == "minutes";
    case Hours => assert "hour" + "" == "hour" && "hour" + "s" == "hours";
  }

  lemma {:induction false} SpansAt(s: string, i: nat, j: nat, e: nat)
    requires i < j < j + 1 < e <= |s| && s[j] == ' ' && (e < |s| ==> s[e] == ' ')
    requires AllIn(s[i..j], IsDigit) && AllIn(s[j + 1..e], IsLetter)
    ensures SpanEnd(s, i, IsDigit) == j && SpanEnd(s, j, IsSpace) == j + 1 && SpanEnd(s, j + 1, IsWordChar) == e
  {
    forall k | i <= k < j
      ensures IsDigit(s[k])
    {
      assert s[k] == s[i..j][k - i];
    }
    forall k | j + 1 <= k < e
      ensures IsWordChar(s[k])
    {
      assert s[k] == s[j + 1..e][k - j - 1];
    }
    SpanEndIs(s, i, j, IsDigit);
    SpanEndIs(s, j, j + 1, IsSpace);
    SpanEndIs(s, j + 1, e, IsWordChar);
  }

  // Digits, one blank and a unit word, between blanks, are a match.
  lemma {:induction false} MatchAt(s: string, i: nat, j: nat, e: nat, amount: nat, unit: Unit)
    requires i < j < e <= |s|
    requires s[i..j] == Decimal(amount) && s[j] == ' ' && s[j + 1..e] == UnitText(amount, unit)
    requires (i > 0 ==> s[i - 1] == ' ') && (e < |s| ==> s[e] == ' ')
    ensures DigitMatch(s, i) == Some(Segment(amount, unit, i, e))
  {
    UnitIsLetters(amount, unit);
    assert AllIn(s[j + 1..e], IsLetter);
    SpansAt(s, i, j, e);
    assert IsDigit(s[i..j][0]);
    assert Boundary(s, i);
    DecimalRoundTrip(amount);
  }

  // The pieces of a printed part inside a text.
  lemma {:induction false} PieceAt(s: string, i: nat, e: nat, d: string, u: string)
    requires i <= e <= |s| && s[i..e] == d + (" " + u)
    ensures var j := i + |d|;
            j < e && s[i..j] == d && s[j] == ' ' && s[j + 1..e] == u
  {
    var f := d + (" " + u);
    var j := i + |d|;
    assert f[..|d|] == d && f[|d|] == ' ' && f[|d| + 1..] == u;
    assert s[i..e][..|d|] == s[i..j] && s[i..e][|d|] == s[j] && s[i..e][|d| + 1..] == s[j + 1..e];
  }

  lemma {:induction false} MatchPart(s: string, i: nat, e: nat, amount: nat, unit: Unit)
    requires i <= e <= |s| && s[i..e] == FormatUnit(amount, unit)
    requires (i > 0 ==> s[i - 1] == ' ') && (e < |s| ==> s[e] == ' ')
    ensures DigitMatch(s, i) == Some(Segment(amount, unit, i, e))
  {
    PieceAt(s, i, e, Decimal(amount), UnitText(amount, unit));
    MatchAt(s, i, i + |Decimal(amount)|, e, amount, unit);
  }

  lemma {:induction false} SkipNonDigit(s: string, i: nat)
    requires i < |s| && !IsDigit(s[i])
    ensures DigitMatches(s, i) == DigitMatches(s, i + 1)
  {
    assert DigitMatch(s, i).None?;
  }

  lemma {:induction false} SkipNonDigits(s: string, i: nat, j: nat)
    requires i <= j <= |s| && forall k | i <= k < j :: !IsDigit(s[k])
    ensures DigitMatches(s, i) == DigitMatches(s, j)
    decreases j - i
  {
    if i < j {
      SkipNonDigit(s, i);
      SkipNonDigits(s, i + 1, j);
    }
  }

  // The segments that the parts' text yields.
  function PartSegments(ps: seq<Part>, start: nat): seq<Segment> {
    if ps == [] then []
    else
      var e := start + |FormatUnit(ps[0].amount, ps[0].unit)|;
      [Segment(ps[0].amount, ps[0].unit, start, e)] + PartSegments(ps[1..], e + 5)
  }

  lemma {:induction false} SplitAt(s: string, i: nat, f: string, rest: string, last: bool)
    requires i <= |s| && s[i..] == if last then f else f + (" and " + rest)
    ensures var e := i + |f|;
            && e <= |s| && s[i..e] == f
            && if last then e == |s| else e + 5 <= |s| && s[e..e + 5] == " and " && s[e + 5..] == rest
  {
    var t := s[i..];
    var n := |f|;
    assert t[..n] == f && s[i..i + n] == t[..n];
    if !last {
      assert t[n..n + 5] == " and " && t[n + 5..] == rest;
      assert s[i + n..i + n + 5] == t[n..n + 5] && s[i + n + 5..] == t[n + 5..];
    }
  }

  // Where the first part ends and the rest starts, in a text that ends in joined parts.
  lemma {:induction false} JoinAt(s: string, i: nat, ps: seq<Part>)
    requires ps != [] && i <= |s| && s[i..] == JoinParts(ps)
    ensures var f := FormatUnit(ps[0].amount, ps[0].unit);
            var e := i + |f|;
            && e <= |s| && s[i..e] == f
            && if |ps| == 1 then e == |s|
               else e + 5 <= |s| && s[e..e + 5] == " and " && s[e + 5..] == JoinParts(ps[1..])
  {
    SplitAt(s, i, FormatUnit(ps[0].amount, ps[0].unit), if |ps| == 1 then "" else JoinParts(ps[1..]), |ps| == 1);
  }

  // The parts are printed one after the other from i to the end of s.
  predicate LaidOut(s: string, i: nat, ps: seq<Part>)
    decreases |ps|
  {
    ps != [] &&
    var e := i + |FormatUnit(ps[0].amount, ps[0].unit)|;
    && e <= |s| && s[i..e] == FormatUnit(ps[0].amount, ps[0].unit)
    && if |ps| == 1 then e == |s| else e + 5 <= |s| && s[e..e + 5] == " and " && LaidOut(s, e + 5, ps[1..])
  }

  lemma {:induction false} JoinIsLaidOut(s: string, i: nat, ps: seq<Part>)
    requires ps != [] && i <= |s| && s[i..] == JoinParts(ps)
    ensures LaidOut(s, i, ps)
    decreases |ps|
  {
    JoinAt(s, i, ps);
    if |ps| > 1 {
      JoinIsLaidOut(s, i + |FormatUnit(ps[0].amount, ps[0].unit)| + 5, ps[1..]);
    }
  }

  lemma {:induction false} MatchThen(s: string, i: nat, m: Segment, rest: seq<Segment>)
    requires i < |s| && DigitMatch(s, i) == Some(m) && DigitMatches(s, m.end) == rest
    ensures DigitMatches(s, i) == [m] + rest
  {
  }

  lemma {:induction false} MatchFirst(s: string, i: nat, e: nat, p: Part, rest: seq<Segment>)
    requires i <= e <= |s| && s[i..e] == FormatUnit(p.amount, p.unit)
    requires (i > 0 ==> s[i - 1] == ' ') && (e < |s| ==> s[e] == ' ')
    requires DigitMatches(s, e) == rest
    ensures DigitMatches(s, i) == [Segment(p.amount, p.unit, i, e)] + rest
  {
    MatchPart(s, i, e, p.amount, p.unit);
    MatchThen(s, i, Segment(p.amount, p.unit, i, e), rest);
  }

  lemma {:induction false} FirstSegment(ps: seq<Part>, i: nat, e: nat)
    requires ps != [] && e == i + |FormatUnit(ps[0].amount, ps[0].unit)|
    ensures PartSegments(ps, i) == [Segment(ps[0].amount, ps[0].unit, i, e)] + PartSegments(ps[1..], e + 5)
  {
  }

  lemma {:induction false} MatchParts(s: string, i: nat, ps: seq<Part>)
    requires LaidOut(s, i, ps) && (i > 0 ==> s[i - 1] == ' ')
    ensures DigitMatches(s, i) == PartSegments(ps, i)
    decreases |ps|
  {
    var p := ps[0];
    var e := i + |FormatUnit(p.amount, p.unit)|;
    MatchLater(s, e, ps);
    MatchFirst(s, i, e, p, PartSegments(ps[1..], e + 5));
    FirstSegment(ps, i, e);
  }

  lemma {:induction false} AndAt(s: string, e: nat)
    requires e + 5 <= |s| && s[e..e + 5] == " and "
    ensures s[e] == ' ' && s[e + 1] == 'a' && s[e + 2] == 'n' && s[e + 3] == 'd' && s[e + 4] == ' '
    ensures DigitMatches(s, e) == DigitMatches(s, e + 5)
  {
    forall k | 0 <= k < 5
      ensures s[e + k] == " and "[k]
    {
      assert s[e..e + 5][k] == s[e + k];
    }
    assert s[e] == s[e + 0];
    SkipNonDigits(s, e, e + 5);
  }

  lemma {:induction false} MatchLater(s: string, e: nat, ps: seq<Part>)
    requires ps != []
    requires if |ps| == 1 then e == |s|
             else e + 5 <= |s| && s[e..e + 5] == " and " && LaidOut(s, e + 5, ps[1..])
    ensures DigitMatches(s, e) == PartSegments(ps[1..], e + 5)
    ensures e < |s| ==> s[e] == ' '
    decreases |ps|, 0
  {
    if |ps| > 1 {
      AndAt(s, e);
      MatchParts(s, e + 5, ps[1..]);
    }
  }

  lemma {:induction false} JoinIsPlain(ps: seq<Part>)
    ensures AllIn(JoinParts(ps), IsPlain)
  {
    if ps != [] {
      JoinIsPlain(ps[1..]);
      var f := FormatUnit(ps[0].amount, ps[0].unit);
      if |ps| > 1 {
        var s, rest := JoinParts(ps), JoinParts(ps[1..]);
        forall i | 0 <= i < |s|
          ensures IsPlain(s[i])
        {
          if i < |f| {
            assert s[i] == f[i];
          } else if i < |f| + 5 {
            assert s[i] == " and "[i - |f|];
          } else {
            assert s[i] == rest[i - |f| - 5];
          }
        }
      }
    }
  }

  // One of the parts' segments ends at e.
  predicate SomeEndsAt(segments: seq<Segment>, e: nat) {
    exists k :: 0 <= k < |segments| && segments[k].end == e
  }

  lemma {:induction false} EndsAtCons(m: Segment, rest: seq<Segment>, e: nat)
    requires m.end == e || SomeEndsAt(rest, e)
    ensures SomeEndsAt([m] + rest, e)
  {
    if m.end == e {
      assert ([m] + rest)[0].end == e;
    } else {
      var k :| 0 <= k < |rest| && rest[k].end == e;
      assert ([m] + rest)[k + 1].end == e;
    }
  }

  // How the unit words end.
  lemma UnitTail(word: string)
    requires UnitOf(word).Some?
    ensures 'a' <= word[|word| - 1] <= 'z' && word[|word| - 1] != 'a'
    ensures word[|word| - 1] == 'd' ==> |word| >= 3 && word[|word| - 3] == 'o'
    ensures word[|word| - 1] != 'a' && (word[|word| - 1] == 'n' ==> |word| == 3)
  {
  }

  // The characters before e could be the end of a unit word, and the word ends there.
  predicate UnitEndsAt(s: string, e: nat) {
    && 0 < e <= |s| && Boundary(s, e)
    && 'a' < s[e - 1] <= 'z' && (s[e - 1] == 'd' ==> e >= 3 && s[e - 3] == 'o')
  }

  lemma {:induction false} WordEndsAt(s: string, e: nat, word: string)
    requires e <= |s| && UnitOf(word).Some? && EndsWith(s[..e], word) && Boundary(s, e)
    ensures UnitEndsAt(s, e)
  {
    UnitTail(word);
    assert s[..e][e - 1] == word[|word| - 1];
    assert |word| >= 3 ==> s[..e][e - 3] == word[|word| - 3];
  }

  // Inside a printed part, a letter is not followed by a word boundary.
  lemma {:induction false} InsidePart(amount: nat, unit: Unit, i: nat)
    requires 0 < i < |FormatUnit(amount, unit)|
    requires 'a' <= FormatUnit(amount, unit)[i - 1] <= 'z'
    ensures IsWordChar(FormatUnit(amount, unit)[i - 1]) && IsWordChar(FormatUnit(amount, unit)[i])
  {
    var d, u := Decimal(amount), UnitText(amount, unit);
    var f := FormatUnit(amount, unit);
    UnitIsLetters(amount, unit);
    assert f[|d|] == ' ';
    assert forall k | 0 <= k < |d| :: f[k] == d[k] && IsDigit(f[k]);
    assert forall k | |d| < k < |f| :: f[k] == u[k - |d| - 1];
  }

  lemma {:induction false} NotInsidePart(s: string, i: nat, n: nat, amount: nat, unit: Unit, e: nat)
    requires i < e < n <= |s| && s[i..n] == FormatUnit(amount, unit)
    ensures !UnitEndsAt(s, e)
  {
    if UnitEndsAt(s, e) {
      assert s[i..n][e - 1 - i] == s[e - 1] && s[i..n][e - i] == s[e];
      InsidePart(amount, unit, e - i);
    }
  }

  lemma {:induction false} NotInAnd(s: string, n: nat, e: nat)
    requires n + 5 <= |s| && s[n..n + 5] == " and " && n < e <= n + 5
    ensures !UnitEndsAt(s, e)
  {
    AndAt(s, n);
  }

  // In printed text a unit word ends only where a printed part ends.
  lemma {:induction false} PartEndsAt(s: string, i: nat, ps: seq<Part>, e: nat)
    requires LaidOut(s, i, ps) && i < e <= |s| && UnitEndsAt(s, e)
    ensures SomeEndsAt(PartSegments(ps, i), e)
    decreases |ps|
  {
    var p := ps[0];
    var n := i + |FormatUnit(p.amount, p.unit)|;
    FirstSegment(ps, i, n);
    if e < n {
      NotInsidePart(s, i, n, p.amount, p.unit, e);
    } else if e > n {
      PartEndsLater(s, n, ps, e);
    }
    EndsAtCons(Segment(p.amount, p.unit, i, n), PartSegments(ps[1..], n + 5), e);
  }

  lemma {:induction false} PartEndsLater(s: string, n: nat, ps: seq<Part>, e: nat)
    requires |ps| > 1 && n + 5 <= |s| && s[n..n + 5] == " and " && LaidOut(s, n + 5, ps[1..])
    requires n < e <= |s| && UnitEndsAt(s, e)
    ensures SomeEndsAt(PartSegments(ps[1..], n + 5), e)
    decreases |ps|, 0
  {
    if e <= n + 5 {
      NotInAnd(s, n, e);
    } else {
      PartEndsAt(s, n + 5, ps[1..], e);
    }
  }

  lemma {:induction false} UnitEndsWithPart(ps: seq<Part>, e: nat, word: string)
    requires ps != [] && 0 < e <= |JoinParts(ps)|
    requires UnitOf(word).Some? && EndsWith(JoinParts(ps)[..e], word) && Boundary(JoinParts(ps), e)
    ensures SomeEndsAt(PartSegments(ps, 0), e)
  {
    var s := JoinParts(ps);
    WordEndsAt(s, e, word);
    assert s[0..] == s;
    JoinIsLaidOut(s, 0, ps);
    PartEndsAt(s, 0, ps, e);
  }

  // Every number-word match in printed text overlaps a printed part, so none is added.
  lemma {:induction false} WordsAreShadowed(segments: seq<Segment>, words: seq<WordMatch>)
    requires forall i | 0 <= i < |words| :: OverlapsAny(words[i].start, words[i].end, segments)
    ensures AddWords(segments, words) == segments
    decreases words
  {
    if words != [] {
      WordsAreShadowed(segments, words[1..]);
    }
  }

  lemma {:induction false} SortOfOrdered(s: seq<Segment>)
    requires InOrder(s)
    ensures SortByStart(s) == s
  {
    if s != [] {
      assert InOrder(s[1..]);
      SortOfOrdered(s[1..]);
      assert s == [s[0]] + s[1..];
      assert |s| > 1 ==> s[0].start <= s[1].start;
    }
  }

  function PartTotal(ps: seq<Part>): nat {
    if ps == [] then 0 else ToSeconds(ps[0].amount, ps[0].unit) + PartTotal(ps[1..])
  }

  lemma {:induction false} TotalOfParts(ps: seq<Part>, start: nat)
    ensures Total(PartSegments(ps, start)) == PartTotal(ps)
  {
    if ps != [] {
      TotalOfParts(ps[1..], start + |FormatUnit(ps[0].amount, ps[0].unit)| + 5);
    }
  }

  lemma {:induction false} PartSegmentsNonEmpty(ps: seq<Part>, start: nat)
    ensures forall k | 0 <= k < |PartSegments(ps, start)| ::
              PartSegments(ps, start)[k].start < PartSegments(ps, start)[k].end
  {
    if ps != [] {
      PartSegmentsNonEmpty(ps[1..], start + |FormatUnit(ps[0].amount, ps[0].unit)| + 5);
    }
  }

  lemma {:induction false} ReadParts(ps: seq<Part>, words: seq<WordMatch>)
    requires ps != [] && PossibleWordMatches(Lower(JoinParts(ps)), words)
    ensures Segments(JoinParts(ps), words) == PartSegments(ps, 0)
  {
    var s := JoinParts(ps);
    JoinIsPlain(ps);
    PlainIsLower(s);
    assert s[0..] == s;
    JoinIsLaidOut(s, 0, ps);
    MatchParts(s, 0, ps);
    var segs := PartSegments(ps, 0);
    PartSegmentsNonEmpty(ps, 0);
    forall i | 0 <= i < |words|
      ensures OverlapsAny(words[i].start, words[i].end, segs)
    {
      UnitEndsWithPart(ps, words[i].end, words[i].unitWord);
      var k :| 0 <= k < |segs| && segs[k].end == words[i].end;
      assert Overlaps(words[i].start, words[i].end, segs[k]);
    }
    WordsAreShadowed(segs, words);
    DigitMatchesComplete(s, 0);
    SortOfOrdered(segs);
  }

  lemma PartTotalOfTwo(a: Part, b: Part)
    ensures PartTotal([a]) == ToSeconds(a.amount, a.unit)
    ensures PartTotal([b]) == ToSeconds(b.amount, b.unit)
    ensures PartTotal([a, b]) == ToSeconds(a.amount, a.unit) + ToSeconds(b.amount, b.unit)
  {
    assert [a][1..] == [] && [b][1..] == [] && [a, b][1..] == [b];
  }

  lemma {:induction false} PartsTotal(h: nat, m: nat, s: nat)
    ensures PartTotal(Parts(h, m, s)) == h * 3600 + m * 60 + if h != 0 && m != 0 then 0 else s
  {
    PartTotalOfTwo(Part(h, Hours), Part(m, Minutes));
    PartTotalOfTwo(Part(h, Hours), Part(s, Seconds));
    PartTotalOfTwo(Part(m, Minutes), Part(s, Seconds));
    if h != 0 && m != 0 {
      assert Parts(h, m, s) == [Part(h, Hours), Part(m, Minutes)];
    } else if h != 0 {
      assert Parts(h, m, s) == if s != 0 then [Part(h, Hours), Part(s, Seconds)] else [Part(h, Hours)];
    } else if m != 0 {
      assert Parts(h, m, s) == if s != 0 then [Part(m, Minutes), Part(s, Seconds)] else [Part(m, Minutes)];
    } else {
      assert Parts(h, m, s) == [Part(s, Seconds)];
    }
  }

  /**
   Parsing the printed form of n seconds gives n back, up to the seconds that are not printed beside hours
   and minutes: the result is exact exactly when hours, minutes and seconds are not all non-zero.
   */
  lemma HumanizeRoundTrip(n: nat, words: seq<WordMatch>, bareMinutes: bool)
    requires n >= 1 && PossibleWordMatches(Lower(Humanize(n)), words)
    ensures var r := ExtractSeconds(Humanize(n), words, bareMinutes);
            && r.Some? && 0 <= n - r.value < 60
            && (r.value == n <==> n / 3600 == 0 || n % 3600 / 60 == 0 || n % 3600 % 60 == 0)
  {
    var h, m, s := n / 3600, n % 3600 / 60, n % 3600 % 60;
    var ps := Parts(h, m, s);
    ReadParts(ps, words);
    TotalOfParts(ps, 0);
    PartsTotal(h, m, s);
    assert n == h * 3600 + m * 60 + s;
  }

  // ----- Durations in number words -----

  // How a number is said: what stands between its words, and behind them.
  datatype Saying = Saying(gaps: seq<string>, blanks: string)

  // w is a match that says the amount of p that way and names its unit.
  ghost predicate Speaks(w: WordMatch, p: Part, how: Saying) {
    UnitOf(w.unitWord) == Some(p.unit) && Spells(w.numberWords, p.amount, how.gaps, how.blanks)
  }

  function SpokenSegments(words: seq<WordMatch>, ps: seq<Part>): seq<Segment>
    requires |words| == |ps|
  {
    seq(|words|, i requires 0 <= i < |words| => Segment(ps[i].amount, ps[i].unit, words[i].start, words[i].end))
  }

  lemma SpokenValue(w: WordMatch, p: Part, how: Saying)
    requires Speaks(w, p, how)
    ensures Value(ENGLISH, w.numberWords) == Some(p.amount)
  {
    SaidNumberIsRead(w.numberWords, p.amount, how.gaps, how.blanks);
  }

  ghost predicate WordsInOrder(words: seq<WordMatch>) {
    && (forall i | 0 <= i < |words| :: words[i].start < words[i].end)
    && (forall i, j | 0 <= i < j < |words| :: words[i].end <= words[j].start)
  }

  // The matches say the parts, one by one.
  ghost predicate AllSpeak(words: seq<WordMatch>, ps: seq<Part>, how: seq<Saying>) {
    |words| == |ps| == |how| && forall i | 0 <= i < |words| :: Speaks(words[i], ps[i], how[i])
  }

  lemma {:induction false} AddOne(segments: seq<Segment>, words: seq<WordMatch>, p: Part, how: Saying)
    requires words != [] && Speaks(words[0], p, how)
    requires !OverlapsAny(words[0].start, words[0].end, segments)
    ensures var first := Segment(p.amount, p.unit, words[0].start, words[0].end);
            AddWords(segments, words) == AddWords(segments + [first], words[1..])
  {
    SpokenValue(words[0], p, how);
  }

  lemma {:induction false} FirstSpoken(words: seq<WordMatch>, ps: seq<Part>)
    requires |words| == |ps| && words != []
    ensures SpokenSegments(words, ps) ==
              [Segment(ps[0].amount, ps[0].unit, words[0].start, words[0].end)] + SpokenSegments(words[1..], ps[1..])
  {
  }

  ghost predicate EndBefore(segments: seq<Segment>, words: seq<WordMatch>) {
    words != [] ==> forall i | 0 <= i < |segments| :: segments[i].end <= words[0].start
  }

  lemma {:induction false} FirstInOrderOfWords(segments: seq<Segment>, words: seq<WordMatch>, first: Segment)
    requires words != [] && WordsInOrder(words) && EndBefore(segments, words) && first.end == words[0].end
    ensures !OverlapsAny(words[0].start, words[0].end, segments)
    ensures WordsInOrder(words[1..]) && EndBefore(segments + [first], words[1..])
  {
  }

  lemma {:induction false} AddSpoken(segments: seq<Segment>, words: seq<WordMatch>, ps: seq<Part>, how: seq<Saying>)
    requires AllSpeak(words, ps, how) && WordsInOrder(words) && EndBefore(segments, words)
    ensures AddWords(segments, words) == segments + SpokenSegments(words, ps)
    decreases words
  {
    if words == [] {
      assert segments + SpokenSegments(words, ps) == segments;
    } else {
      var first := Segment(ps[0].amount, ps[0].unit, words[0].start, words[0].end);
      FirstInOrderOfWords(segments, words, first);
      AddOne(segments, words, ps[0], how[0]);
      AddSpoken(segments + [first], words[1..], ps[1..], how[1..]);
      FirstSpoken(words, ps);
      assert segments + [first] + SpokenSegments(words[1..], ps[1..])
          == segments + ([first] + SpokenSegments(words[1..], ps[1..]));
    }
  }

  lemma {:induction false} TotalOfSpoken(words: seq<WordMatch>, ps: seq<Part>)
    requires |words| == |ps|
    ensures Total(SpokenSegments(words, ps)) == PartTotal(ps)
  {
    if words != [] {
      TotalOfSpoken(words[1..], ps[1..]);
      assert SpokenSegments(words, ps)[1..] == SpokenSegments(words[1..], ps[1..]);
    }
  }

  lemma {:induction false} NoDigitsNoMatches(s: string)
    requires AllIn(s, c => !IsDigit(c))
    ensures DigitMatches(s, 0) == []
  {
    SkipNonDigits(s, 0, |s|);
  }

  lemma {:induction false} SpokenInOrder(words: seq<WordMatch>, ps: seq<Part>)
    requires WordsInOrder(words) && |words| == |ps|
    ensures InOrder(SpokenSegments(words, ps))
  {
  }

  lemma {:induction false} SpokenSegmentsFound(message: string, words: seq<WordMatch>, ps: seq<Part>,
                                               how: seq<Saying>)
    requires AllIn(Lower(message), c => !IsDigit(c)) && WordsInOrder(words)
    requires AllSpeak(words, ps, how)
    ensures Segments(message, words) == SpokenSegments(words, ps)
  {
    NoDigitsNoMatches(Lower(message));
    AddSpoken([], words, ps, how);
    assert [] + SpokenSegments(words, ps) == SpokenSegments(words, ps);
    SpokenInOrder(words, ps);
    SortOfOrdered(SpokenSegments(words, ps));
  }

  /**
   In a message without digits, number-word matches that say amounts of units, however they are put, are read
   as the sum of them: "twenty-five minutes" as 1500 seconds.
   */
  lemma {:induction false} SpokenDurationIsRead(message: string, words: seq<WordMatch>, ps: seq<Part>,
                                                how: seq<Saying>, bareMinutes: bool)
    requires AllIn(Lower(message), c => !IsDigit(c)) && PossibleWordMatches(Lower(message), words)
    requires words != [] && AllSpeak(words, ps, how)
    ensures ExtractSeconds(message, words, bareMinutes) == Some(PartTotal(ps))
  {
    SpokenSegmentsFound(message, words, ps, how);
    TotalOfSpoken(words, ps);
  }

  // ----- Replies that are a number or a unit alone -----

  predicate IsDigitOrSpace(c: char) {
    IsDigit(c) || IsSpace(c)
  }

  lemma {:induction false} NoUnitNoMatch(s: string, i: nat)
    requires AllIn(s, IsDigitOrSpace) && i <= |s|
    ensures DigitMatch(s, i).None?
  {
    var b := SpanEnd(s, SpanEnd(s, i, IsDigit), IsSpace);
    var word := s[b..SpanEnd(s, b, IsWordChar)];
    assert word != [] ==> word[0] == s[b] && IsDigit(word[0]);
    if UnitOf(word).Some? {
      UnitsHaveNoDigits(word);
    }
  }

  lemma {:induction false} NoUnitNoMatches(s: string, i: nat)
    requires AllIn(s, IsDigitOrSpace) && i <= |s|
    ensures DigitMatches(s, i) == [] && LoneUnit(s, i).None?
    decreases |s| - i
  {
    if i < |s| {
      NoUnitNoMatch(s, i);
      NoUnitNoMatches(s, i + 1);
    }
  }

  lemma NoUnitNoWords(s: string, words: seq<WordMatch>)
    requires AllIn(s, IsDigitOrSpace) && PossibleWordMatches(s, words)
    ensures words == []
  {
    assert words != [] ==> IsDigitOrSpace(s[words[0].end - 1]);
    if words != [] {
      WordEndsAt(s, words[0].end, words[0].unitWord);
    }
  }

  lemma {:induction false} StripPadded(before: string, n: nat, after: string)
    requires AllIn(before, IsSpace) && AllIn(after, IsSpace)
    ensures Strip(before + Decimal(n) + after) == Decimal(n)
  {
    var d := Decimal(n);
    assert IsDigit(d[0]) && IsDigit(d[|d| - 1]);
    StripAround(before, d, after);
    LStripBlank(before);
    RStripSplits(after, IsSpace);
  }

  /** A bare number is read as minutes where the caller asks for that, as in a reply to "how long?". */
  lemma {:induction false} BareNumberIsMinutes(before: string, n: nat, after: string, words: seq<WordMatch>,
                                               bareMinutes: bool)
    requires AllIn(before, IsSpace) && AllIn(after, IsSpace)
    requires PossibleWordMatches(Lower(before + Decimal(n) + after), words)
    ensures ExtractSeconds(before + Decimal(n) + after, words, bareMinutes)
         == if bareMinutes then Some(60 * n) else None
  {
    var message := before + Decimal(n) + after;
    assert AllIn(message, IsDigitOrSpace);
    assert Lower(message) == message;
    NoUnitNoMatches(message, 0);
    NoUnitNoWords(message, words);
    StripPadded(before, n, after);
    DecimalRoundTrip(n);
  }

  // One of the letters s, m and h as a word of its own.
  predicate StandsAlone(s: string, i: nat) {
    i < |s| && s[i] in {'s', 'm', 'h'} && !WordAt(s, i - 1) && !WordAt(s, i + 1)
  }

  lemma {:induction false} FirstLoneUnit(s: string, i: nat, k: nat)
    requires i <= k < |s| && StandsAlone(s, k) && forall j | i <= j < k :: !StandsAlone(s, j)
    ensures LoneUnit(s, i) == Some(if s[k] == 's' then Seconds else if s[k] == 'm' then Minutes else Hours)
    decreases k - i
  {
    if i < k {
      assert !StandsAlone(s, i);
      FirstLoneUnit(s, i + 1, k);
    }
  }

  /** Where no segment is found, the first unit letter that stands alone is read as one of its unit. */
  lemma {:induction false} LoneUnitIsOne(message: string, k: nat, words: seq<WordMatch>, bareMinutes: bool)
    requires Segments(message, words) == []
    requires StandsAlone(Lower(message), k) && forall j | 0 <= j < k :: !StandsAlone(Lower(message), j)
    ensures ExtractSeconds(message, words, bareMinutes)
         == Some(if Lower(message)[k] == 's' then 1 else if Lower(message)[k] == 'm' then 60 else 3600)
  {
    FirstLoneUnit(Lower(message), 0, k);
  }

  // ----- One amount, in any of the unit words -----

  const SECOND_WORDS := {"s", "sec", "secs", "second", "seconds"}
  const MINUTE_WORDS := {"m", "min", "mins", "minute", "minutes"}
  const HOUR_WORDS := {"h", "hr", "hrs", "hour", "hours"}

  /** The words for each unit. */
  lemma UnitWordsExactly(word: string)
    ensures UnitOf(word) == Some(Seconds) <==> word in SECOND_WORDS
    ensures UnitOf(word) == Some(Minutes) <==> word in MINUTE_WORDS
    ensures UnitOf(word) == Some(Hours) <==> word in HOUR_WORDS
  {
  }

  lemma {:induction false} UnitIsAWord(word: string)
    requires UnitOf(word).Some?
    ensures word != [] && AllIn(word, IsLetter)
  {
  }

  lemma {:induction false} SpansOf(d: string, gap: string, u: string)
    requires d != [] && AllIn(d, IsDigit) && AllIn(gap, IsSpace) && u != [] && AllIn(u, IsLetter)
    ensures var s := d + (gap + u);
            && SpanEnd(s, 0, IsDigit) == |d| && SpanEnd(s, |d|, IsSpace) == |d| + |gap|
            && SpanEnd(s, |d| + |gap|, IsWordChar) == |s|
  {
    var s := d + (gap + u);
    assert IsLetter(u[0]);
    assert gap != [] ==> IsSpace(gap[0]);
    SpanEndIs(s, 0, |d|, IsDigit);
    SpanEndIs(s, |d|, |d| + |gap|, IsSpace);
    assert forall k | |d| + |gap| <= k < |s| :: s[k] == u[k - |d| - |gap|] && IsLetter(s[k]);
    SpanEndIs(s, |d| + |gap|, |s|, IsWordChar);
  }

  lemma {:induction false} AmountMatches(n: nat, gap: string, u: string, unit: Unit)
    requires AllIn(gap, IsSpace) && u != [] && AllIn(u, IsLetter) && UnitOf(u) == Some(unit)
    ensures var s := Decimal(n) + (gap + u);
            DigitMatch(s, 0) == Some(Segment(n, unit, 0, |s|))
  {
    var d := Decimal(n);
    var s := d + (gap + u);
    SpansOf(d, gap, u);
    assert s[0..|d|] == d && s[|d| + |gap|..|s|] == u;
    assert IsDigit(d[0]) && s[0] == d[0];
    assert Boundary(s, 0);
    DecimalRoundTrip(n);
  }

  lemma {:induction false} AmountIsLower(n: nat, gap: string, word: string)
    requires AllIn(gap, IsSpace)
    ensures Lower(Decimal(n) + gap + word) == Decimal(n) + (gap + Lower(word))
  {
    LowerConcat(Decimal(n) + gap, word);
    LowerConcat(Decimal(n), gap);
    assert Lower(Decimal(n)) == Decimal(n) && Lower(gap) == gap;
    assert (Decimal(n) + gap) + Lower(word) == Decimal(n) + (gap + Lower(word));
  }

  lemma {:induction false} OneSegment(s: string, segment: Segment, words: seq<WordMatch>)
    requires segment.start == 0 && segment.end == |s| > 0 && DigitMatch(s, 0) == Some(segment)
    requires PossibleWordMatches(s, words)
    ensures SortByStart(AddWords(DigitMatches(s, 0), words)) == [segment]
  {
    assert DigitMatches(s, |s|) == [] && [segment] + [] == [segment];
    forall i | 0 <= i < |words|
      ensures OverlapsAny(words[i].start, words[i].end, [segment])
    {
      assert Overlaps(words[i].start, words[i].end, [segment][0]);
    }
    WordsAreShadowed([segment], words);
    SortOfOrdered([segment]);
  }

  /** A number and a unit word, in any case, with any blanks or none between, is read as that much of the unit. */
  lemma {:induction false} AmountIsRead(n: nat, gap: string, word: string, words: seq<WordMatch>, bareMinutes: bool)
    requires AllIn(gap, IsSpace) && UnitOf(Lower(word)).Some?
    requires PossibleWordMatches(Lower(Decimal(n) + gap + word), words)
    ensures ExtractSeconds(Decimal(n) + gap + word, words, bareMinutes) == Some(ToSeconds(n, UnitOf(Lower(word)).value))
  {
    var u := Lower(word);
    var s := Decimal(n) + (gap + u);
    var segment := Segment(n, UnitOf(u).value, 0, |s|);
    UnitIsAWord(u);
    AmountIsLower(n, gap, word);
    AmountMatches(n, gap, u, UnitOf(u).value);
    OneSegment(s, segment, words);
    assert Total([segment][1..]) == 0;
  }

  // One is singular, everything else plural.
  lemma PluralExactly(amount: nat, unit: Unit)
    ensures UnitText(amount, unit)[|UnitText(amount, unit)| - 1] == 's' <==> amount != 1
    ensures StartsWith(UnitText(amount, unit), UnitName(unit)) && |UnitText(amount, unit)| <= |UnitName(unit)| + 1
  {
  }

  // ----- Exactly the number-word matches that overlap no digits -----

  // What a number-word match adds, if it has a value.
  predicate IsOf(m: Segment, w: WordMatch) {
    Value(ENGLISH, w.numberWords) == Some(m.value) && UnitOf(w.unitWord) == Some(m.unit)
    && m.start == w.start && m.end == w.end
  }

  ghost predicate Adds(words: seq<WordMatch>, digits: seq<Segment>, m: Segment) {
    exists i :: 0 <= i < |words| && IsOf(m, words[i]) && !OverlapsAny(words[i].start, words[i].end, digits)
  }

  lemma {:induction false} AddsFirst(words: seq<WordMatch>, digits: seq<Segment>, m: Segment)
    requires words != []
    ensures Adds(words, digits, m) <==>
              (IsOf(m, words[0]) && !OverlapsAny(words[0].start, words[0].end, digits)) || Adds(words[1..], digits, m)
  {
    if Adds(words, digits, m) {
      var i :| 0 <= i < |words| && IsOf(m, words[i]) && !OverlapsAny(words[i].start, words[i].end, digits);
      assert i > 0 ==> words[1..][i - 1] == words[i];
    }
    if Adds(words[1..], digits, m) {
      var i :| 0 <= i < |words[1..]| && IsOf(m, words[1..][i])
               && !OverlapsAny(words[1..][i].start, words[1..][i].end, digits);
      assert words[i + 1] == words[1..][i];
    }
  }

  // Matches that end before the next one starts do not overlap it.
  lemma {:induction false} EarlierDoNotOverlap(digits: seq<Segment>, added: seq<Segment>, w: WordMatch)
    requires forall i | 0 <= i < |added| :: added[i].end <= w.start
    ensures OverlapsAny(w.start, w.end, digits + added) <==> OverlapsAny(w.start, w.end, digits)
  {
    var all := digits + added;
    assert forall j | |digits| <= j < |all| :: all[j] == added[j - |digits|] && !Overlaps(w.start, w.end, all[j]);
    if OverlapsAny(w.start, w.end, digits) {
      var i :| 0 <= i < |digits| && Overlaps(w.start, w.end, digits[i]);
      assert Overlaps(w.start, w.end, all[i]);
    }
    if OverlapsAny(w.start, w.end, all) {
      var i :| 0 <= i < |all| && Overlaps(w.start, w.end, all[i]);
      assert Overlaps(w.start, w.end, digits[i]);
    }
  }

  lemma {:induction false} AddWordsExactly(digits: seq<Segment>, added: seq<Segment>, words: seq<WordMatch>, m: Segment)
    requires WordsInOrder(words) && EndBefore(added, words)
    ensures m in AddWords(digits + added, words) <==> m in digits || m in added || Adds(words, digits, m)
    decreases words
  {
    if words != [] {
      var w := words[0];
      AddsFirst(words, digits, m);
      EarlierDoNotOverlap(digits, added, w);
      var value, unit := Value(ENGLISH, w.numberWords), UnitOf(w.unitWord);
      if OverlapsAny(w.start, w.end, digits) || value.None? || unit.None? {
        AddWordsExactly(digits, added, words[1..], m);
      } else {
        var first := Segment(value.value, unit.value, w.start, w.end);
        assert digits + added + [first] == digits + (added + [first]);
        AddWordsExactly(digits, added + [first], words[1..], m);
        assert IsOf(m, w) <==> m == first;
      }
    }
  }

  lemma {:induction false} InsertedIn(x: Segment, s: seq<Segment>, m: Segment)
    ensures m in Insert(x, s) <==> m == x || m in s
  {
    if s != [] && x.start > s[0].start {
      InsertedIn(x, s[1..], m);
    }
  }

  lemma {:induction false} SortedIn(s: seq<Segment>, m: Segment)
    ensures m in SortByStart(s) <==> m in s
  {
    if s != [] {
      SortedIn(s[1..], m);
      InsertedIn(s[0], SortByStart(s[1..]), m);
    }
  }

  /**
   The segments of any message are exactly its digit matches and, of its number-word matches, those that have a
   value and overlap no digit match.
   */
  lemma {:induction false} SegmentsExactly(message: string, words: seq<WordMatch>, m: Segment)
    requires PossibleWordMatches(Lower(message), words)
    ensures m in Segments(message, words) <==>
              || (m.start <= |message| && DigitMatch(Lower(message), m.start) == Some(m))
              || Adds(words, DigitMatches(Lower(message), 0), m)
  {
    var digits := DigitMatches(Lower(message), 0);
    InDigitMatches(Lower(message), 0, m);
    AddWordsExactly(digits, [], words, m);
    assert digits + [] == digits;
    SortedIn(AddWords(digits, words), m);
  }
}
