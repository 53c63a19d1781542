/**
 Number words in a duration (app/common/duration.py, `_words_to_number`), over any vocabulary whose words
 are distinct; ENGLISH is the source's.
 */
module NumberWords {
  import opened Text

  // The words for 0 to 19 and for 20, 30, ..., 90: the value of a word follows from its position.
  datatype Vocabulary = Vocabulary(small: seq<string>, tens: seq<string>)

  const DIGITS: seq<string> := ["zero", "one", "two", "three", "four", "five", "six", "seven", "eight", "nine"]

  const TEENS: seq<string> := [
    "ten", "eleven", "twelve", "thirteen", "fourteen", "fifteen", "sixteen", "seventeen", "eighteen", "nineteen"]

  const TENS: seq<string> := ["twenty", "thirty", "forty", "fifty", "sixty", "seventy", "eighty", "ninety"]

  const OTHERS: seq<string> := ["a", "an", "and", "hundred"]

  const ENGLISH := Vocabulary(DIGITS + TEENS, TENS)

  ghost predicate Apart(a: seq<string>, b: seq<string>) {
    forall i, j | 0 <= i < |a| && 0 <= j < |b| :: a[i] != b[j]
  }

  predicate IsGap(c: char) {
    IsSpace(c) || c == '-'
  }

  predicate IsWord(w: string) {
    w != [] && forall i | 0 <= i < |w| :: !IsGap(w[i])
  }

  ghost predicate AreWords(words: seq<string>) {
    forall i | 0 <= i < |words| :: IsWord(words[i])
  }

  ghost predicate Distinct(words: seq<string>) {
    forall i, j | 0 <= i < j < |words| :: words[i] != words[j]
  }

  ghost predicate Good(v: Vocabulary) {
    && |v.small| == 20 && |v.tens| == 8
    && Distinct(v.small) && Distinct(v.tens)
    && Apart(v.small, v.tens) && Apart(v.small, OTHERS) && Apart(v.tens, OTHERS)
    && AreWords(v.small) && AreWords(v.tens)
  }

  lemma EnglishIsDistinct()
    ensures Distinct(DIGITS) && Distinct(TEENS) && Distinct(TENS)
  {
  }

  lemma EnglishIsApart()
    ensures Apart(DIGITS, TEENS) && Apart(DIGITS, TENS) && Apart(TEENS, TENS)
    ensures Apart(DIGITS, OTHERS) && Apart(TEENS, OTHERS) && Apart(TENS, OTHERS)
  {
  }

  lemma TeensAreWords()
    ensures AreWords(TEENS)
  {
  }

  lemma TensAreWords()
    ensures AreWords(TENS)
  {
  }

  lemma EnglishIsGood()
    ensures Good(ENGLISH)
  {
    EnglishIsDistinct();
    EnglishIsApart();
    TeensAreWords();
    TensAreWords();
  }

  function Lookup(words: seq<string>, token: string): (r: Option<nat>)
    ensures r.Some? ==> r.value < |words| && words[r.value] == token
    ensures r.None? <==> token !in words
  {
    if words == [] then None
    else if words[0] == token then Some(0)
    else match Lookup(words[1..], token)
      case None => None
      case Some(k) => Some(k + 1)
  }

  // ----- Splitting -----

  // replace("-", " ")
  function Dashless(s: string): string {
    seq(|s|, i requires 0 <= i < |s| => if s[i] == '-' then ' ' else s[i])
  }

  function WithoutAnd(tokens: seq<string>): seq<string> {
    if tokens == [] then []
    else (if tokens[0] == "and" then [] else [tokens[0]]) + WithoutAnd(tokens[1..])
  }

  function Tokens(raw: string): seq<string> {
    WithoutAnd(Split(Dashless(raw), []))
  }

  // ----- Adding up -----

  function Plain(v: Vocabulary, token: string): Option<nat> {
    if token == "a" || token == "an" then Some(1)
    else match Lookup(v.small, token)
      case Some(k) => Some(k)
      case None =>
        match Lookup(v.tens, token)
        case Some(k) => Some(20 + 10 * k)
        case None => None
  }

  function Sum(v: Vocabulary, tokens: seq<string>, current: nat): Option<nat> {
    if tokens == [] then Some(current)
    else match Plain(v, tokens[0])
      case Some(n) => Sum(v, tokens[1..], current + n)
      case None =>
        if tokens[0] == "hundred" then Sum(v, tokens[1..], (if current == 0 then 1 else current) * 100) else None
  }

  function Value(v: Vocabulary, raw: string): Option<nat> {
    if Tokens(raw) == [] then None else Sum(v, Tokens(raw), 0)
  }

  lemma {:induction false} SumOne(v: Vocabulary, tokens: seq<string>)
    requires tokens == ["a"] || tokens == ["an"]
    ensures Sum(v, tokens, 0) == Some(1)
  {
    assert tokens[1..] == [];
  }

  /** `_words_to_number` */
  method WordsToNumber(v: Vocabulary, raw: string) returns (r: Option<nat>)
    ensures r == Value(v, raw)
  {
    var tokens := Tokens(raw);
    if tokens == [] {
      return None;
    }
    if tokens == ["a"] || tokens == ["an"] {
      SumOne(v, tokens);
      return Some(1);
    }
    var current: nat := 0;
    assert tokens[0..] == tokens;
    for k := 0 to |tokens|
      invariant Sum(v, tokens[k..], current) == Sum(v, tokens, 0)
    {
      var token := tokens[k];
      if token == "a" || token == "an" {
        current := current + 1;
        continue;
      }
      var small := Lookup(v.small, token);
      if small.Some? {
        current := current + small.value;
        continue;
      }
      var tens := Lookup(v.tens, token);
      if tens.Some? {
        current := current + (20 + 10 * tens.value);
        continue;
      }
      if token == "hundred" {
        if current == 0 {
          current := 1;
        }
        current := current * 100;
        continue;
      }
      return None;
    }
    assert tokens[|tokens|..] == [];
    return Some(current);
  }

  lemma {:induction false} NoSum(v: Vocabulary, tokens: seq<string>, current: nat)
    ensures Sum(v, tokens, current) == None <==> exists t :: t in tokens && Plain(v, t) == None && t != "hundred"
    decreases tokens
  {
    if tokens != [] {
      var n := Plain(v, tokens[0]);
      assert forall t :: t in tokens <==> t == tokens[0] || t in tokens[1..];
      if n.Some? {
        NoSum(v, tokens[1..], current + n.value);
      } else if tokens[0] == "hundred" {
        NoSum(v, tokens[1..], (if current == 0 then 1 else current) * 100);
      }
    }
  }

  /** A text has no value exactly when it holds no number word, or a word that is none. */
  lemma {:induction false} NoValue(v: Vocabulary, raw: string)
    ensures Value(v, raw) == None <==>
            Tokens(raw) == [] || exists t :: t in Tokens(raw) && Plain(v, t) == None && t != "hundred"
  {
    NoSum(v, Tokens(raw), 0);
  }

  // ----- How numbers are said -----

  // The words of a number, in hundreds of hundreds where it has to be: "twenty five hundred six" for 2506.
  function Words(v: Vocabulary, n: nat): (r: seq<string>)
    requires |v.small| == 20 && |v.tens| == 8
    ensures r != []
  {
    if n < 20 then [v.small[n]]
    else if n < 100 then [v.tens[n / 10 - 2]] + if n % 10 == 0 then [] else [v.small[n % 10]]
    else Words(v, n / 100) + ["hundred"] + if n % 100 == 0 then [] else Words(v, n % 100)
  }

  // Runs of blanks and hyphens, with "and" between them.
  function JoinAnd(runs: seq<string>): string
    requires runs != []
  {
    if |runs| == 1 then runs[0] else runs[0] + ("and" + JoinAnd(runs[1..]))
  }

  predicate AreRuns(runs: seq<string>) {
    runs != [] && forall i | 0 <= i < |runs| :: runs[i] != [] && AllIn(runs[i], IsGap)
  }

  // What may stand between two words: blanks, hyphens, and any number of "and" set off by them.
  ghost predicate Separates(gap: string) {
    exists runs :: AreRuns(runs) && gap == JoinAnd(runs)
  }

  function Say(words: seq<string>, gaps: seq<string>): string
    requires |gaps| + 1 == |words|
  {
    if gaps == [] then words[0] else words[0] + (gaps[0] + Say(words[1..], gaps[1..]))
  }

  // ----- Reading them back -----

  lemma {:induction false} SmallIsPlain(v: Vocabulary, n: nat)
    requires Good(v) && n < 20
    ensures Plain(v, v.small[n]) == Some(n) && v.small[n] != "and"
  {
    assert OTHERS[0] == "a" && OTHERS[1] == "an" && OTHERS[2] == "and";
  }

  lemma {:induction false} TensIsPlain(v: Vocabulary, n: nat)
    requires Good(v) && n < 8
    ensures Plain(v, v.tens[n]) == Some(20 + 10 * n) && v.tens[n] != "and"
  {
    assert OTHERS[0] == "a" && OTHERS[1] == "an" && OTHERS[2] == "and";
  }

  lemma {:induction false} HundredIsNotPlain(v: Vocabulary)
    requires Good(v)
    ensures Plain(v, "hundred") == None
  {
    assert OTHERS[3] == "hundred";
  }

  lemma {:induction false} SumPlain(v: Vocabulary, w: string, rest: seq<string>, current: nat)
    requires Plain(v, w).Some?
    ensures Sum(v, [w] + rest, current) == Sum(v, rest, current + Plain(v, w).value)
  {
    assert ([w] + rest)[1..] == rest;
  }

  lemma {:induction false} SumHundred(v: Vocabulary, rest: seq<string>, current: nat)
    requires Good(v) && current > 0
    ensures Sum(v, ["hundred"] + rest, current) == Sum(v, rest, current * 100)
  {
    HundredIsNotPlain(v);
    assert (["hundred"] + rest)[1..] == rest;
  }

  // Below a hundred the words add up.
  lemma {:induction false} SumBelowHundred(v: Vocabulary, n: nat, rest: seq<string>, current: nat)
    requires Good(v) && n < 100
    ensures Sum(v, Words(v, n) + rest, current) == Sum(v, rest, current + n)
  {
    if n < 20 {
      SmallIsPlain(v, n);
      SumPlain(v, v.small[n], rest, current);
    } else {
      var ten, unit := n / 10 - 2, n % 10;
      TensIsPlain(v, ten);
      if unit == 0 {
        SumPlain(v, v.tens[ten], rest, current);
      } else {
        SmallIsPlain(v, unit);
        SumPlain(v, v.tens[ten], [v.small[unit]] + rest, current);
        SumPlain(v, v.small[unit], rest, current + (20 + 10 * ten));
        assert Words(v, n) + rest == [v.tens[ten]] + ([v.small[unit]] + rest);
      }
    }
  }

  lemma {:induction false} SumOfLast(v: Vocabulary, tail: seq<string>, r: nat, rest: seq<string>, current: nat)
    requires Good(v) && r < 100 && (tail == Words(v, r) || (tail == [] && r == 0))
    ensures Sum(v, tail + rest, current) == Sum(v, rest, current + r)
  {
    if tail == [] {
      assert tail + rest == rest;
    } else {
      SumBelowHundred(v, r, rest, current);
    }
  }

  lemma {:induction false} WordsSplit(v: Vocabulary, n: nat, tail: seq<string>, rest: seq<string>)
    requires Good(v) && n >= 100 && tail == if n % 100 == 0 then [] else Words(v, n % 100)
    ensures Words(v, n) + rest == Words(v, n / 100) + (["hundred"] + (tail + rest))
  {
  }

  lemma {:induction false} SumOfTail(v: Vocabulary, h: nat, tail: seq<string>, r: nat, rest: seq<string>)
    requires Good(v) && h > 0 && r < 100 && (tail == Words(v, r) || (tail == [] && r == 0))
    ensures Sum(v, ["hundred"] + (tail + rest), h) == Sum(v, rest, h * 100 + r)
  {
    SumHundred(v, tail + rest, h);
    SumOfLast(v, tail, r, rest, h * 100);
  }

  // The words of a number add up to it, whatever follows.
  lemma {:induction false} SumOfFirst(v: Vocabulary, n: nat, rest: seq<string>)
    requires Good(v)
    ensures Sum(v, Words(v, n) + rest, 0) == Sum(v, rest, n)
    decreases n
  {
    if n < 100 {
      SumBelowHundred(v, n, rest, 0);
    } else {
      var tail := if n % 100 == 0 then [] else Words(v, n % 100);
      WordsSplit(v, n, tail, rest);
      SumOfFirst(v, n / 100, ["hundred"] + (tail + rest));
      SumOfTail(v, n / 100, tail, n % 100, rest);
      assert n / 100 * 100 + n % 100 == n;
    }
  }

  /** The words of every number add up to it. */
  lemma {:induction false} SumOfWords(v: Vocabulary, n: nat)
    requires Good(v)
    ensures Sum(v, Words(v, n), 0) == Some(n)
  {
    SumOfFirst(v, n, []);
    assert Words(v, n) + [] == Words(v, n);
  }

  // ----- Splitting what was said -----

  lemma {:induction false} WithoutAndConcat(a: seq<string>, b: seq<string>)
    ensures WithoutAnd(a + b) == WithoutAnd(a) + WithoutAnd(b)
  {
    if a == [] {
      assert a + b == b;
    } else {
      assert (a + b)[1..] == a[1..] + b;
      WithoutAndConcat(a[1..], b);
    }
  }

  lemma {:induction false} TokensOfWord(w: string)
    requires IsWord(w) && w != "and"
    ensures Tokens(w) == [w]
  {
    assert Dashless(w) == w;
    SplitWord(w, []);
    assert [] + w == w;
    assert WithoutAnd([w][1..]) == [];
  }

  // It ends one word and starts the next, and has none of its own.
  predicate ReadsAsGap(gap: string) {
    gap != [] && IsGap(gap[0]) && IsGap(gap[|gap| - 1]) && Tokens(gap) == []
  }

  lemma {:induction false} TokensSeparated(w: string, gap: string, rest: string)
    requires ReadsAsGap(gap)
    ensures Tokens(w + (gap + rest)) == Tokens(w) + Tokens(rest)
  {
    var w', gap', rest' := Dashless(w), Dashless(gap), Dashless(rest);
    assert Dashless(w + (gap + rest)) == w' + (gap' + rest');
    SplitBeforeBlank(w', gap' + rest', []);
    SplitAfterBlank(gap', rest', []);
    WithoutAndConcat(Split(w', []), Split(gap', []) + Split(rest', []));
    WithoutAndConcat(Split(gap', []), Split(rest', []));
  }

  lemma {:induction false} SplitOfBlanks(s: string)
    requires AllIn(s, IsSpace)
    ensures Split(s, []) == []
  {
    if s != [] {
      SplitOfBlanks(s[1..]);
    }
  }

  lemma {:induction false} RunReadsAsGap(run: string)
    requires run != [] && AllIn(run, IsGap)
    ensures ReadsAsGap(run)
  {
    assert AllIn(Dashless(run), IsSpace);
    SplitOfBlanks(Dashless(run));
  }

  lemma {:induction false} AndHasNoToken()
    ensures Tokens("and") == [] && Tokens("") == []
  {
    assert Dashless("and") == "and" && Dashless("") == "";
    SplitWord("and", []);
    assert [] + "and" == "and" && Split("and", []) == ["and"];
    assert WithoutAnd(["and"]) == [] + WithoutAnd(["and"][1..]);
  }

  lemma {:induction false} SeparatorReadsAsGap(runs: seq<string>)
    requires AreRuns(runs)
    ensures ReadsAsGap(JoinAnd(runs))
  {
    RunReadsAsGap(runs[0]);
    if |runs| > 1 {
      var rest := JoinAnd(runs[1..]);
      SeparatorReadsAsGap(runs[1..]);
      AndHasNoToken();
      TokensSeparated("and", rest, "");
      assert rest + "" == rest;
      TokensSeparated("", runs[0], "and" + rest);
      assert "" + (runs[0] + ("and" + rest)) == runs[0] + ("and" + rest);
      var gap := JoinAnd(runs);
      assert gap[0] == runs[0][0] && gap[|gap| - 1] == rest[|rest| - 1];
    }
  }

  lemma {:induction false} TokensOfSaid(words: seq<string>, gaps: seq<string>)
    requires |gaps| + 1 == |words|
    requires forall w | w in words :: IsWord(w) && w != "and"
    requires forall g | g in gaps :: Separates(g)
    ensures Tokens(Say(words, gaps)) == words
  {
    TokensOfWord(words[0]);
    if gaps == [] {
      assert words == [words[0]];
    } else {
      assert gaps[0] in gaps && Separates(gaps[0]);
      var runs :| AreRuns(runs) && gaps[0] == JoinAnd(runs);
      SeparatorReadsAsGap(runs);
      TokensSeparated(words[0], gaps[0], Say(words[1..], gaps[1..]));
      TokensOfSaid(words[1..], gaps[1..]);
    }
  }

  lemma {:induction false} WordsAreWords(v: Vocabulary, n: nat, w: string)
    requires Good(v) && w in Words(v, n)
    ensures IsWord(w) && w != "and"
  {
    assert IsWord("hundred");
    if n < 20 {
      SmallIsPlain(v, n);
    } else if n < 100 {
      TensIsPlain(v, n / 10 - 2);
      SmallIsPlain(v, n % 10);
    } else if w in Words(v, n / 100) {
      WordsAreWords(v, n / 100, w);
    } else if w != "hundred" {
      WordsAreWords(v, n % 100, w);
    }
  }

  lemma {:induction false} SaidIsRead(v: Vocabulary, n: nat, gaps: seq<string>)
    requires Good(v)
    requires |gaps| + 1 == |Words(v, n)| && forall g | g in gaps :: Separates(g)
    ensures Value(v, Say(Words(v, n), gaps)) == Some(n)
  {
    var words := Words(v, n);
    forall w | w in words
      ensures IsWord(w) && w != "and"
    {
      WordsAreWords(v, n, w);
    }
    TokensOfSaid(words, gaps);
    SumOfWords(v, n);
  }

  // Blanks at the end do not matter.
  lemma {:induction false} TokensBeforeBlanks(raw: string, blanks: string)
    requires AllIn(blanks, IsSpace)
    ensures Tokens(raw + blanks) == Tokens(raw)
  {
    if blanks == [] {
      assert raw + blanks == raw;
    } else {
      assert !IsSpace('-');
      assert Dashless(blanks) == blanks;
      assert Dashless(raw + blanks) == Dashless(raw) + blanks;
      SplitBeforeBlank(Dashless(raw), blanks, []);
      SplitOfBlanks(blanks);
      assert Split(Dashless(raw), []) + [] == Split(Dashless(raw), []);
    }
  }

  // raw says n, with the given separators between its words and blanks behind.
  ghost predicate Spells(raw: string, n: nat, gaps: seq<string>, blanks: string) {
    && |gaps| + 1 == |Words(ENGLISH, n)| && (forall g | g in gaps :: Separates(g)) && AllIn(blanks, IsSpace)
    && raw == Say(Words(ENGLISH, n), gaps) + blanks
  }

  /** However a number is said, with hyphens, blanks and "and" between its words, it is read back. */
  lemma {:induction false} SaidNumberIsRead(raw: string, n: nat, gaps: seq<string>, blanks: string)
    requires Spells(raw, n, gaps, blanks)
    ensures Value(ENGLISH, raw) == Some(n)
  {
    EnglishIsGood();
    SaidIsRead(ENGLISH, n, gaps);
    TokensBeforeBlanks(Say(Words(ENGLISH, n), gaps), blanks);
  }
}
