/** Python string operations that the modelled code relies on. */
module Text {

  datatype Option<+T> = None | Some(value: T)

  // The characters str.isspace() accepts, which is what str.strip() and \s remove and match.
  predicate IsSpace(c: char) {
    || '\t' <= c <= '\r'
    || '\U{1c}' <= c <= ' '
    || c == '\U{85}' || c == '\U{a0}' || c == '\U{1680}'
    || '\U{2000}' <= c <= '\U{200a}'
    || c == '\U{2028}' || c == '\U{2029}' || c == '\U{202f}' || c == '\U{205f}' || c == '\U{3000}'
  }

  predicate IsDigit(c: char) {
    '0' <= c <= '9'
  }

  // str.lower(), on the ASCII letters.
  function LowerChar(c: char): char {
    if 'A' <= c <= 'Z' then c + ('a' - 'A') else c
  }

  function Lower(s: string): string {
    seq(|s|, i requires 0 <= i < |s| => LowerChar(s[i]))
  }

  predicate AllIn(s: string, p: char -> bool) {
    forall i | 0 <= i < |s| :: p(s[i])
  }

  predicate StartsWith(s: string, prefix: string) {
    |prefix| <= |s| && s[..|prefix|] == prefix
  }

  // str.lstrip(chars) and str.rstrip(chars), with the set of characters given as a predicate.
  function LStrip(s: string, p: char -> bool): string {
    if s == [] || !p(s[0]) then s else LStrip(s[1..], p)
  }

  function RStrip(s: string, p: char -> bool): string {
    if s == [] || !p(s[|s| - 1]) then s else RStrip(s[..|s| - 1], p)
  }

  function Strip(s: string): string {
    RStrip(LStrip(s, IsSpace), IsSpace)
  }

  function Word(word: string): seq<string> {
    if word == [] then [] else [word]
  }

  // str.split(), the maximal runs of characters that are no blanks, with the one read so far.
  function Split(s: string, word: string): seq<string> {
    if s == [] then Word(word)
    else if IsSpace(s[0]) then Word(word) + Split(s[1..], [])
    else Split(s[1..], word + [s[0]])
  }

  // str.find(c), with None for -1.
  function Find(s: string, c: char): (r: Option<nat>)
    ensures r.None? <==> c !in s
    ensures r.Some? ==> r.value < |s| && s[r.value] == c && c !in s[..r.value]
  {
    if s == [] then None
    else if s[0] == c then Some(0)
    else match Find(s[1..], c)
      case None => None
      case Some(i) =>
        assert s[..i + 1] == [s[0]] + s[1..][..i];
        Some(i + 1)
  }

  // str.rfind(c), with None for -1.
  function RFind(s: string, c: char): (r: Option<nat>)
    ensures r.None? <==> c !in s
    ensures r.Some? ==> r.value < |s| && s[r.value] == c && c !in s[r.value + 1..]
  {
    if s == [] then None
    else if s[|s| - 1] == c then Some(|s| - 1)
    else
      assert s == s[..|s| - 1] + [s[|s| - 1]];
      var r := RFind(s[..|s| - 1], c);
      assert r.Some? ==> s[r.value + 1..] == s[..|s| - 1][r.value + 1..] + [s[|s| - 1]];
      r
  }

  lemma {:induction false} FindAfter(lead: string, c: char, rest: string)
    requires c !in lead && rest != [] && rest[0] == c
    ensures Find(lead + rest, c) == Some(|lead|)
  {
    if lead == [] {
      assert lead + rest == rest;
    } else {
      assert (lead + rest)[1..] == lead[1..] + rest;
      FindAfter(lead[1..], c, rest);
    }
  }

  lemma {:induction false} RFindBefore(lead: string, c: char, rest: string)
    requires c !in rest
    ensures RFind(lead + ([c] + rest), c) == Some(|lead|)
  {
    var s := lead + ([c] + rest);
    if rest == [] {
      assert s[|s| - 1] == c;
    } else {
      assert s[|s| - 1] == rest[|rest| - 1];
      assert s[..|s| - 1] == lead + ([c] + rest[..|rest| - 1]);
      RFindBefore(lead, c, rest[..|rest| - 1]);
    }
  }

  // Stripping on the left removes a prefix of p-characters and stops at the first other character.
  lemma {:induction false} LStripSplits(s: string, p: char -> bool)
    ensures |LStrip(s, p)| <= |s| && LStrip(s, p) == s[|s| - |LStrip(s, p)|..]
    ensures AllIn(s[..|s| - |LStrip(s, p)|], p)
    ensures LStrip(s, p) != [] ==> !p(LStrip(s, p)[0])
  {
    if s == [] || !p(s[0]) {
      assert s == s[0..];
    } else {
      LStripSplits(s[1..], p);
      var k := |s| - |LStrip(s, p)|;
      assert s[1..][k - 1..] == s[k..];
      assert s[..k] == [s[0]] + s[1..][..k - 1];
    }
  }

  lemma {:induction false} RStripSplits(s: string, p: char -> bool)
    ensures |RStrip(s, p)| <= |s| && RStrip(s, p) == s[..|RStrip(s, p)|]
    ensures AllIn(s[|RStrip(s, p)|..], p)
    ensures RStrip(s, p) != [] ==> !p(RStrip(s, p)[|RStrip(s, p)| - 1])
  {
    if s == [] || !p(s[|s| - 1]) {
      assert s == s[..|s|];
    } else {
      var front := s[..|s| - 1];
      RStripSplits(front, p);
      var n := |RStrip(front, p)|;
      assert front[..n] == s[..n];
      assert s[n..] == front[n..] + [s[|s| - 1]];
    }
  }

  // A right strip of a + b leaves a alone when a ends in a character that must stay.
  lemma {:induction false} RStripConcat(a: string, b: string, p: char -> bool)
    requires a != [] && !p(a[|a| - 1])
    ensures RStrip(a + b, p) == a + RStrip(b, p)
  {
    if b == [] || !p(b[|b| - 1]) {
      if b == [] {
        assert a + b == a;
      } else {
        assert (a + b)[|a + b| - 1] == b[|b| - 1];
      }
    } else {
      assert (a + b)[..|a + b| - 1] == a + b[..|b| - 1];
      RStripConcat(a, b[..|b| - 1], p);
    }
  }

  // A right strip of a text never reaches past a first character that must stay.
  lemma {:induction false} RStripAfter(a: string, q: string, p: char -> bool)
    requires q != [] && !p(q[0])
    ensures RStrip(a + q, p) == a + RStrip(q, p)
    ensures RStrip(q, p) != [] && RStrip(q, p) <= q
  {
    var first, rest := [q[0]], q[1..];
    assert q == first + rest && a + q == (a + first) + rest;
    RStripConcat(first, rest, p);
    RStripConcat(a + first, rest, p);
    RStripSplits(q, p);
    assert (a + first) + RStrip(rest, p) == a + (first + RStrip(rest, p));
  }

  lemma {:induction false} LStripBlank(blank: string)
    requires AllIn(blank, IsSpace)
    ensures LStrip(blank, IsSpace) == []
  {
    if blank != [] {
      LStripBlank(blank[1..]);
    }
  }

  // A left strip of a + b never reaches past the first character of b that must stay.
  lemma {:induction false} LStripConcat(a: string, b: string, p: char -> bool)
    requires b != [] && !p(b[0])
    ensures LStrip(a + b, p) == LStrip(a, p) + b
  {
    if a == [] {
      assert a + b == b;
    } else {
      assert (a + b)[1..] == a[1..] + b;
      LStripConcat(a[1..], b, p);
    }
  }

  // What stands between a first and a last character that both stay survives Strip, with blanks around it gone.
  lemma StripAround(lead: string, p: string, tail: string)
    requires p != [] && !IsSpace(p[0]) && !IsSpace(p[|p| - 1])
    ensures Strip(lead + p + tail) == LStrip(lead, IsSpace) + p + RStrip(tail, IsSpace)
  {
    assert lead + p + tail == lead + (p + tail);
    LStripConcat(lead, p + tail, IsSpace);
    var front := LStrip(lead, IsSpace) + p;
    assert LStrip(lead, IsSpace) + (p + tail) == front + tail;
    assert front[|front| - 1] == p[|p| - 1];
    RStripConcat(front, tail, IsSpace);
  }

  // Text between a first and a last character that both stay survives Strip unchanged.
  lemma StripKeeps(s: string)
    requires s != [] && !IsSpace(s[0]) && !IsSpace(s[|s| - 1])
    ensures Strip(s) == s
  {
    LStripConcat([], s, IsSpace);
    assert [] + s == s;
  }

  // ----- Splitting -----

  // A blank ends the word before it.
  lemma {:induction false} SplitBeforeBlank(a: string, b: string, word: string)
    requires b != [] && IsSpace(b[0])
    ensures Split(a + b, word) == Split(a, word) + Split(b, [])
  {
    if a == [] {
      assert a + b == b;
    } else {
      assert (a + b)[1..] == a[1..] + b;
      SplitBeforeBlank(a[1..], b, if IsSpace(a[0]) then [] else word + [a[0]]);
    }
  }

  // A word starts afresh after a blank.
  lemma {:induction false} SplitAfterBlank(a: string, b: string, word: string)
    requires a != [] && IsSpace(a[|a| - 1])
    ensures Split(a + b, word) == Split(a, word) + Split(b, [])
  {
    assert (a + b)[1..] == a[1..] + b;
    if |a| > 1 {
      SplitAfterBlank(a[1..], b, if IsSpace(a[0]) then [] else word + [a[0]]);
    } else {
      assert a[1..] + b == b;
    }
  }

  lemma {:induction false} SplitWord(w: string, word: string)
    requires forall i | 0 <= i < |w| :: !IsSpace(w[i])
    ensures Split(w, word) == Word(word + w)
  {
    if w == [] {
      assert word + w == word;
    } else {
      SplitWord(w[1..], word + [w[0]]);
      assert word + [w[0]] + w[1..] == word + w;
    }
  }

  lemma {:induction false} LowerConcat(a: string, b: string)
    ensures Lower(a + b) == Lower(a) + Lower(b)
  {
  }

  // ----- Decimal numerals -----

  function DigitChar(d: nat): char
    requires d < 10
  {
    '0' + d as char
  }

  function Decimal(n: nat): (s: string)
    ensures s != [] && AllIn(s, IsDigit)
  {
    if n < 10 then [DigitChar(n)] else Decimal(n / 10) + [DigitChar(n % 10)]
  }

  function ParseDecimal(s: string): nat
    requires AllIn(s, IsDigit)
  {
    if s == [] then 0 else ParseDecimal(s[..|s| - 1]) * 10 + (s[|s| - 1] as int - '0' as int)
  }

  lemma {:induction false} DecimalRoundTrip(n: nat)
    ensures ParseDecimal(Decimal(n)) == n
  {
    if n < 10 {
      assert Decimal(n)[..0] == [];
    } else {
      DecimalRoundTrip(n / 10);
      assert Decimal(n)[..|Decimal(n)| - 1] == Decimal(n / 10);
    }
  }
}
