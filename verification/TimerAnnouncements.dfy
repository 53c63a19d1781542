/** What a completed countdown says, and which of two such lines in a row the voice drops. */
module TimerAnnouncements {
  import opened Text
  import opened Activity
  import opened Duration
  import opened DurationTheorems
  import opened TimerModel

  function NoticeBody(n: Notice): string {
    "Your " + Humanize(n.seconds) + " timer" + (if n.name == "Timer" then "" else " for " + n.name) + " is complete"
  }

  /** The line that `format_due_timer` makes of a notice. */
  function NoticeText(n: Notice): string {
    NoticeBody(n) + "."
  }

  lemma LastDotGoes(s: string)
    requires s != [] && s[|s| - 1] != '.'
    ensures StripDots(s) == s && StripDots(s + ".") == s
  {
    assert (s + ".")[..|s + "."| - 1] == s;
  }

  // A notice always has something to say: all of it but the full stop.
  lemma NoticeIsSpoken(n: Notice)
    ensures SpokenLine(NoticeText(n)) == Some(NoticeBody(n))
    ensures StripDots(Strip(NoticeBody(n))) == NoticeBody(n)
  {
    var body := NoticeBody(n);
    assert body[0] == 'Y' && body[|body| - 1] == 'e';
    StripKeeps(body);
    StripKeeps(body + ".");
    LastDotGoes(body);
  }

  // ----- The words of a notice -----

  lemma {:induction false} KeptConcat(a: seq<string>, b: seq<string>)
    ensures Kept(a + b) == Kept(a) + Kept(b)
  {
    if a == [] {
      assert a + b == b;
    } else {
      assert (a + b)[1..] == a[1..] + b;
      KeptConcat(a[1..], b);
    }
  }

  // The words of a piece of text in lower case, without articles.
  function PieceWords(s: string): seq<string> {
    Kept(Split(Lower(s), []))
  }

  lemma {:induction false} PieceThen(a: string, b: string)
    requires b != [] && b[0] == ' '
    ensures PieceWords(a + b) == PieceWords(a) + PieceWords(b)
  {
    LowerConcat(a, b);
    SplitBeforeBlank(Lower(a), Lower(b), []);
    KeptConcat(Split(Lower(a), []), Split(Lower(b), []));
  }

  lemma {:induction false} BlankFirst(s: string)
    ensures PieceWords(" " + s) == PieceWords(s)
  {
    var t := Lower(" " + s);
    assert t[0] == ' ' && t[1..] == Lower(s);
    assert Split(t, []) == Word([]) + Split(Lower(s), []) == Split(Lower(s), []);
  }

  // A word in lower case that is no article.
  predicate IsPlainWord(w: string) {
    w != [] && w != "the" && w != "a" && forall k | 0 <= k < |w| :: !IsSpace(w[k]) && LowerChar(w[k]) == w[k]
  }

  lemma {:induction false} OneWord(w: string)
    requires IsPlainWord(w)
    ensures PieceWords(w) == [w]
  {
    assert Lower(w) == w;
    SplitWord(w, []);
    assert [] + w == w && Split(w, []) == [w];
    assert Kept([w][1..]) == [];
  }

  lemma {:induction false} WordThen(w: string, s: string)
    requires IsPlainWord(w)
    ensures PieceWords(w + (" " + s)) == [w] + PieceWords(s)
  {
    PieceThen(w, " " + s);
    OneWord(w);
    BlankFirst(s);
  }

  // The words of a printed duration.
  function PartWords(ps: seq<Part>): seq<string> {
    if ps == [] then []
    else [Decimal(ps[0].amount), UnitText(ps[0].amount, ps[0].unit)]
         + if |ps| == 1 then [] else ["and"] + PartWords(ps[1..])
  }

  lemma {:induction false} AmountIsPlain(amount: nat, unit: Unit)
    ensures IsPlainWord(Decimal(amount)) && IsPlainWord(UnitText(amount, unit))
  {
    var d, u := Decimal(amount), UnitText(amount, unit);
    UnitIsLetters(amount, unit);
    assert forall k | 0 <= k < |d| :: IsDigit(d[k]);
    assert u[0] == 's' || u[0] == 'm' || u[0] == 'h';
    assert "the"[0] == 't' && "a"[0] == 'a';
  }

  lemma {:induction false} FormatWords(amount: nat, unit: Unit)
    ensures PieceWords(FormatUnit(amount, unit)) == [Decimal(amount), UnitText(amount, unit)]
  {
    AmountIsPlain(amount, unit);
    WordThen(Decimal(amount), UnitText(amount, unit));
    OneWord(UnitText(amount, unit));
  }

  lemma {:induction false} AndThen(a: string, joint: string, b: string)
    requires IsPlainWord(joint)
    ensures PieceWords(a + (" " + joint + " " + b)) == PieceWords(a) + ([joint] + PieceWords(b))
  {
    assert " " + joint + " " + b == " " + (joint + (" " + b));
    PieceThen(a, " " + (joint + (" " + b)));
    BlankFirst(joint + (" " + b));
    WordThen(joint, b);
  }

  lemma {:induction false} JoinWords(ps: seq<Part>)
    ensures PieceWords(JoinParts(ps)) == PartWords(ps)
  {
    if ps != [] {
      FormatWords(ps[0].amount, ps[0].unit);
      if |ps| > 1 {
        JoinWords(ps[1..]);
        AndThen(FormatUnit(ps[0].amount, ps[0].unit), "and", JoinParts(ps[1..]));
        assert " and " == " " + "and" + " ";
      }
    }
  }

  lemma {:induction false} ThenPiece(s: string, t: string)
    ensures PieceWords(s + " " + t) == PieceWords(s) + PieceWords(t)
  {
    assert s + " " + t == s + (" " + t);
    PieceThen(s, " " + t);
    BlankFirst(t);
  }

  lemma {:induction false} FirstWord()
    ensures PieceWords("Your") == ["your"]
  {
    assert Lower("Your") == "your";
    SplitWord("your", []);
    assert [] + "your" == "your" && Split("your", []) == ["your"];
    assert Kept(["your"]) == ["your"] + Kept(["your"][1..]);
  }

  lemma {:induction false} BlankWord(w: string)
    requires IsPlainWord(w)
    ensures PieceWords(" " + w) == [w]
  {
    BlankFirst(w);
    OneWord(w);
  }

  lemma {:induction false} TimerWord()
    ensures PieceWords(" timer") == ["timer"]
  {
    BlankWord("timer");
    assert " timer" == " " + "timer";
  }

  lemma {:induction false} EndWords()
    ensures PieceWords(" is complete") == ["is", "complete"]
  {
    assert " is complete" == " is" + " " + "complete" && " is" == " " + "is";
    BlankWord("is");
    ThenPiece(" is", "complete");
    OneWord("complete");
  }

  function NameWords(n: Notice): seq<string> {
    if n.name == "Timer" then [] else ["for"] + PieceWords(n.name)
  }

  lemma {:induction false} NameIsRead(n: Notice)
    ensures PieceWords(if n.name == "Timer" then "" else " for " + n.name) == NameWords(n)
  {
    if n.name != "Timer" {
      assert " for " + n.name == " " + ("for" + (" " + n.name));
      BlankFirst("for" + (" " + n.name));
      WordThen("for", n.name);
    }
  }

  lemma {:induction false} Pieces(a: string, h: string, timer: string, x: string, end: string)
    requires timer != [] && timer[0] == ' ' && end != [] && end[0] == ' ' && (x != [] ==> x[0] == ' ')
    ensures PieceWords(a + " " + h + timer + x + end)
         == PieceWords(a) + PieceWords(h) + PieceWords(timer) + PieceWords(x) + PieceWords(end)
  {
    ThenPiece(a, h);
    PieceThen(a + " " + h, timer);
    var front := a + " " + h + timer;
    if x == [] {
      assert front + x == front;
    } else {
      PieceThen(front, x);
    }
    PieceThen(front + x, end);
  }

  lemma {:induction false} NoticeIsRead(n: Notice)
    ensures SaidWords(NoticeBody(n))
         == ["your"] + PieceWords(Humanize(n.seconds)) + ["timer"] + NameWords(n) + ["is", "complete"]
  {
    var h, x := Humanize(n.seconds), if n.name == "Timer" then "" else " for " + n.name;
    NoticeIsSpoken(n);
    Pieces("Your", h, " timer", x, " is complete");
    assert "Your" + " " == "Your ";
    assert NoticeBody(n) == "Your" + " " + h + " timer" + x + " is complete";
    FirstWord();
    TimerWord();
    EndWords();
    NameIsRead(n);
  }

  // ----- Printed durations are told apart by their words -----

  lemma {:induction false} ArticleGoes(s: string, article: string)
    requires article == "a"
    ensures PieceWords(s + " " + article) == PieceWords(s)
  {
    ThenPiece(s, article);
    assert Lower(article) == article && [] + article == article;
    SplitWord(article, []);
    assert Split(article, []) == [article] && Kept([article]) == [] + Kept([article][1..]);
  }

  lemma {:induction false} ThreeWords(u: string, v: string, w: string)
    requires IsPlainWord(u) && IsPlainWord(v) && IsPlainWord(w)
    ensures PieceWords(u + " " + v + " " + "a" + " " + w) == [u, v, w]
  {
    OneWord(u);
    OneWord(v);
    OneWord(w);
    ThenPiece(u, v);
    ArticleGoes(u + " " + v, "a");
    ThenPiece(u + " " + v + " " + "a", w);
  }

  lemma {:induction false} HumanWords(n: int)
    ensures PieceWords(Humanize(n)) == if n <= 0 then ["less", "than", "second"]
                                       else PartWords(Parts(n / 3600, n % 3600 / 60, n % 3600 % 60))
  {
    if n <= 0 {
      assert "less than a second" == "less" + " " + "than" + " " + "a" + " " + "second";
      ThreeWords("less", "than", "second");
    } else {
      JoinWords(Parts(n / 3600, n % 3600 / 60, n % 3600 % 60));
    }
  }

  predicate ComeApart(a: seq<string>, word: string) {
    forall k | 0 <= k < |a| :: a[k] != word
  }

  lemma {:induction false} AmountIsNotTimer(amount: nat, unit: Unit)
    ensures Decimal(amount) != "timer" && UnitText(amount, unit) != "timer"
  {
    assert IsDigit(Decimal(amount)[0]) && "timer"[0] == 't';
    var u := UnitText(amount, unit);
    assert u[0] == 's' || u[0] == 'm' || u[0] == 'h';
  }

  lemma {:induction false} PartsComeApart(ps: seq<Part>)
    requires 1 <= |ps| <= 2
    ensures |PartWords(ps)| == (if |ps| == 1 then 2 else 5) && ComeApart(PartWords(ps), "timer")
  {
    AmountIsNotTimer(ps[0].amount, ps[0].unit);
    if |ps| == 2 {
      AmountIsNotTimer(ps[1].amount, ps[1].unit);
    }
  }

  lemma {:induction false} SamePartWords(ps: seq<Part>, qs: seq<Part>)
    requires 1 <= |ps| <= 2 && 1 <= |qs| <= 2 && PartWords(ps) == PartWords(qs)
    ensures JoinParts(ps) == JoinParts(qs)
  {
    PartsComeApart(ps);
    PartsComeApart(qs);
    var v, w := PartWords(ps), PartWords(qs);
    assert v[0] == w[0] && v[1] == w[1];
    if |ps| == 2 {
      assert v[3] == w[3] && v[4] == w[4];
    }
  }

  /** A printed duration is determined by its words, none of which is "timer". */
  lemma {:induction false} SameHumanWords(a: int, b: int)
    ensures ComeApart(PieceWords(Humanize(a)), "timer")
    ensures PieceWords(Humanize(a)) == PieceWords(Humanize(b)) ==> Humanize(a) == Humanize(b)
  {
    HumanWords(a);
    HumanWords(b);
    if a > 0 {
      PartsComeApart(Parts(a / 3600, a % 3600 / 60, a % 3600 % 60));
    }
    if b > 0 {
      PartsComeApart(Parts(b / 3600, b % 3600 / 60, b % 3600 % 60));
    }
    if a > 0 && b > 0 && PieceWords(Humanize(a)) == PieceWords(Humanize(b)) {
      SamePartWords(Parts(a / 3600, a % 3600 / 60, a % 3600 % 60), Parts(b / 3600, b % 3600 / 60, b % 3600 % 60));
    }
  }

  // Lists that are framed alike are equal exactly when their parts are.
  lemma {:induction false} FramedAlike<T>(first: seq<T>, a: seq<T>, t: T, b: seq<T>, c: seq<T>, d: seq<T>, end: seq<T>)
    requires forall k | 0 <= k < |a| :: a[k] != t
    requires forall k | 0 <= k < |c| :: c[k] != t
    requires first + a + [t] + b + end == first + c + [t] + d + end
    ensures a == c && b == d
  {
    var u, v := first + a + [t] + b + end, first + c + [t] + d + end;
    assert u[|first|..] == a + [t] + b + end && v[|first|..] == c + [t] + d + end;
    var s, r := a + [t] + b + end, c + [t] + d + end;
    assert s[|a|] == t && r[|c|] == t;
    assert |a| == |c| by {
      assert forall k | 0 <= k < |a| :: s[k] == a[k];
      assert forall k | 0 <= k < |c| :: r[k] == c[k];
    }
    assert a == s[..|a|] && c == r[..|c|];
    assert b == s[|a| + 1..|s| - |end|] && d == r[|c| + 1..|r| - |end|];
  }

  lemma {:induction false} SameWordsExactly(m: Notice, n: Notice)
    ensures SaidWords(NoticeBody(m)) == SaidWords(NoticeBody(n)) <==>
              Humanize(m.seconds) == Humanize(n.seconds) && NameWords(m) == NameWords(n)
  {
    NoticeIsRead(m);
    NoticeIsRead(n);
    SameHumanWords(m.seconds, n.seconds);
    SameHumanWords(n.seconds, m.seconds);
    if SaidWords(NoticeBody(m)) == SaidWords(NoticeBody(n)) {
      FramedAlike(["your"], PieceWords(Humanize(m.seconds)), "timer", NameWords(m),
                  PieceWords(Humanize(n.seconds)), NameWords(n), ["is", "complete"]);
    }
  }

  // ----- Which notices are heard -----

  /**
   Every announcement is logged, but not every one is heard: of two that come one after the other the second
   is silent exactly when its duration prints the same and its name has the same words, up to case, blanks and
   the words "the" and "a".
   */
  lemma {:induction false} SecondNoticeHeardExactly(before: seq<string>, m: Notice, n: Notice, last: Option<string>)
    ensures Heard(before + [NoticeText(m)] + [NoticeText(n)], last)
         == Heard(before + [NoticeText(m)], last)
            + if Humanize(m.seconds) == Humanize(n.seconds) && NameWords(m) == NameWords(n) then []
              else [NoticeBody(n)]
  {
    NoticeIsSpoken(m);
    NoticeIsSpoken(n);
    HeardExactly(before + [NoticeText(m)], NoticeText(n), last);
    assert (before + [NoticeText(m)])[|before|] == NoticeText(m);
    SameFormExactly(NoticeBody(m), NoticeBody(n));
    SameWordsExactly(m, n);
  }

  // So of countdowns with the same name and duration only the first is heard.
  lemma {:induction false} TwinsHeardOnce(before: seq<string>, m: Notice, n: Notice, last: Option<string>)
    requires m.name == n.name && m.seconds == n.seconds
    ensures Heard(before + [NoticeText(m)] + [NoticeText(n)], last) == Heard(before + [NoticeText(m)], last)
  {
    SecondNoticeHeardExactly(before, m, n, last);
  }
}
