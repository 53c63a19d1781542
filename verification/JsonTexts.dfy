/**
 How the scanner's automaton reads rendered JSON: a value leaves the state as it found it, and an
 object closes exactly at its last character.  It follows that object texts are prefix-free and
 suffix-free.
 */
module JsonTexts {
  import opened Text
  import opened JsonGrammar
  import opened JsonScanner

  // The strict reading of one character: a backslash occurs only inside a string, and only the
  // grammar's escape letters follow it.
  predicate StepOk(s: Scan, c: char) {
    if s.escape then c in "\"\\/bfnrtu" else s.inString || c != '\\'
  }

  // Every character of text is read strictly from s, and the depth never falls below d.
  ghost predicate Safe(s: Scan, text: string, d: int)
    decreases text
  {
    && s.depth >= d
    && (text != [] ==> StepOk(s, text[0]) && Safe(Step(s, text[0]), text[1..], d))
  }

  // Reading text from outside any string comes back to where it started and never goes below.
  ghost predicate Neutral(text: string, d: int) {
    Safe(Outside(d), text, d) && Run(Outside(d), text) == Outside(d)
  }

  lemma {:induction false} SafeConcat(s: Scan, a: string, b: string, d: int)
    ensures Safe(s, a + b, d) <==> Safe(s, a, d) && Safe(Run(s, a), b, d)
    decreases a
  {
    if a == [] {
      assert a + b == b;
    } else {
      assert (a + b)[1..] == a[1..] + b;
      SafeConcat(Step(s, a[0]), a[1..], b, d);
    }
  }

  lemma {:induction false} SafeDepth(s: Scan, text: string, d: int, k: nat)
    requires Safe(s, text, d) && k <= |text|
    ensures Run(s, text[..k]).depth >= d
    decreases k
  {
    if k > 0 {
      assert text[..k][1..] == text[1..][..k - 1];
      SafeDepth(Step(s, text[0]), text[1..], d, k - 1);
    }
  }

  lemma {:induction false} SafeLower(s: Scan, text: string, d: int, e: int)
    requires Safe(s, text, d) && e <= d
    ensures Safe(s, text, e)
    decreases text
  {
    if text != [] {
      SafeLower(Step(s, text[0]), text[1..], d, e);
    }
  }

  lemma NeutralConcat(a: string, b: string, d: int)
    requires Neutral(a, d) && Neutral(b, d)
    ensures Neutral(a + b, d)
  {
    SafeConcat(Outside(d), a, b, d);
    RunConcat(Outside(d), a, b);
  }

  predicate IsNeutralChar(c: char) {
    c != '"' && c != '\\' && c != '{' && c != '}'
  }

  lemma {:induction false} NeutralChars(text: string, d: int)
    requires AllIn(text, IsNeutralChar)
    ensures Neutral(text, d)
  {
    if text != [] {
      NeutralChars(text[1..], d);
    }
  }

  // ----- Strings -----

  lemma {:induction false} CharsStayInside(text: string, d: int)
    requires forall i | 0 <= i < |text| :: text[i] != '"' && text[i] != '\\'
    ensures Safe(Inside(d), text, d) && Run(Inside(d), text) == Inside(d)
  {
    if text != [] {
      CharsStayInside(text[1..], d);
    }
  }

  lemma CharStaysInside(c: StrChar, d: int)
    requires GoodChar(c)
    ensures Safe(Inside(d), RenderChar(c), d) && Run(Inside(d), RenderChar(c)) == Inside(d)
  {
    match c
    case Plain(ch) =>
      CharsStayInside([ch], d);
    case Escape(ch) =>
      assert [ch][1..] == [];
      assert ['\\', ch][1..] == [ch];
      assert Safe(Inside(d), [], d);
      assert Run(Inside(d), []) == Inside(d);
    case Unicode(hex) =>
      CharsStayInside(hex, d);
      assert (['\\', 'u'] + hex)[1..] == ['u'] + hex;
      assert (['u'] + hex)[1..] == hex;
  }

  lemma {:induction false} CharsAreSafe(cs: seq<StrChar>, d: int)
    requires GoodChars(cs)
    ensures Safe(Inside(d), RenderChars(cs), d) && Run(Inside(d), RenderChars(cs)) == Inside(d)
  {
    if cs != [] {
      CharStaysInside(cs[0], d);
      CharsAreSafe(cs[1..], d);
      SafeConcat(Inside(d), RenderChar(cs[0]), RenderChars(cs[1..]), d);
      RunConcat(Inside(d), RenderChar(cs[0]), RenderChars(cs[1..]));
    }
  }

  lemma StrIsNeutral(cs: seq<StrChar>, d: int)
    requires GoodChars(cs)
    ensures Neutral(RenderStr(cs), d)
  {
    var body := RenderChars(cs);
    CharsAreSafe(cs, d);
    SafeConcat(Inside(d), body, ['"'], d);
    RunConcat(Inside(d), body, ['"']);
    assert ['"'][1..] == [];
    assert Safe(Outside(d), [], d) && Run(Outside(d), []) == Outside(d);
    assert RenderStr(cs)[1..] == body + ['"'];
  }

  // ----- Values -----

  lemma ObjectSplit(t: Tree, d: int)
    requires t.Obj? && |Render(t)| >= 2 && Render(t)[0] == '{' && Render(t)[|Render(t)| - 1] == '}'
    requires Safe(Outside(d + 1), Render(t)[1..|Render(t)| - 1], d)
    requires Run(Outside(d + 1), Render(t)[1..|Render(t)| - 1]) == Outside(d + 1)
    ensures Neutral(Render(t), d)
  {
    var body := Render(t)[1..|Render(t)| - 1];
    assert Render(t)[1..] == body + ['}'];
    SafeConcat(Outside(d + 1), body, ['}'], d);
    RunConcat(Outside(d + 1), body, ['}']);
    assert ['}'][1..] == [];
    assert Safe(Outside(d), [], d) && Run(Outside(d), []) == Outside(d);
    assert Step(Outside(d), '{') == Outside(d + 1);
  }

  lemma {:induction false} ValueIsNeutral(t: Tree, d: int)
    requires Good(t)
    ensures Neutral(Render(t), d)
    decreases t, 1
  {
    match t
    case Scalar(text) =>
      ScalarIsToken(text);
      NeutralChars(text, d);
    case Str(cs) =>
      StrIsNeutral(cs, d);
    case Arr(blank, es) =>
      NeutralChars(['['], d);
      NeutralChars([']'], d);
      NeutralChars(blank, d);
      if es != [] {
        ElementsAreNeutral(es, d);
      }
      var body := if es == [] then blank else RenderElements(es);
      NeutralConcat(['['], body, d);
      NeutralConcat(['['] + body, [']'], d);
    case Obj(blank, ms) =>
      ObjectBody(t, d);
      SafeLower(Outside(d + 1), Render(t)[1..|Render(t)| - 1], d + 1, d);
      ObjectSplit(t, d);
  }

  // Between its braces an object's text is neutral one level deeper.
  lemma {:induction false} ObjectBody(t: Tree, d: int)
    requires IsObject(t)
    ensures |Render(t)| >= 2 && Render(t)[0] == '{' && Render(t)[|Render(t)| - 1] == '}'
    ensures Neutral(Render(t)[1..|Render(t)| - 1], d + 1)
    decreases t, 0
  {
    var body := if t.members == [] then t.blank else RenderMembers(t.members);
    assert Render(t)[1..|Render(t)| - 1] == body;
    NeutralChars(t.blank, d + 1);
    if t.members != [] {
      MembersAreNeutral(t.members, d + 1);
    }
  }

  lemma {:induction false} ElementIsNeutral(e: Element, d: int)
    requires GoodElement(e)
    ensures Neutral(RenderElement(e), d)
    decreases e, 2
  {
    NeutralChars(e.before, d);
    ValueIsNeutral(e.value, d);
    NeutralChars(e.after, d);
    NeutralConcat(e.before, Render(e.value), d);
    NeutralConcat(e.before + Render(e.value), e.after, d);
  }

  lemma {:induction false} ElementsAreNeutral(es: seq<Element>, d: int)
    requires es != [] && GoodElements(es)
    ensures Neutral(RenderElements(es), d)
    decreases es, 0
  {
    ElementIsNeutral(es[0], d);
    if |es| > 1 {
      NeutralChars([','], d);
      ElementsAreNeutral(es[1..], d);
      NeutralConcat(RenderElement(es[0]), [','], d);
      NeutralConcat(RenderElement(es[0]) + [','], RenderElements(es[1..]), d);
    }
  }

  lemma {:induction false} MembersAreNeutral(ms: seq<Member>, d: int)
    requires ms != [] && GoodMembers(ms)
    ensures Neutral(RenderMembers(ms), d)
    decreases ms, 0
  {
    var m := ms[0];
    NeutralChars(m.beforeKey, d);
    StrIsNeutral(m.key, d);
    NeutralChars(m.afterKey, d);
    NeutralChars([':'], d);
    ElementIsNeutral(m.elem, d);
    NeutralConcat(m.beforeKey, RenderStr(m.key), d);
    NeutralConcat(m.beforeKey + RenderStr(m.key), m.afterKey, d);
    NeutralConcat(m.beforeKey + RenderStr(m.key) + m.afterKey, [':'], d);
    NeutralConcat(m.beforeKey + RenderStr(m.key) + m.afterKey + [':'], RenderElement(m.elem), d);
    if |ms| > 1 {
      NeutralChars([','], d);
      MembersAreNeutral(ms[1..], d);
      NeutralConcat(RenderMember(m), [','], d);
      NeutralConcat(RenderMember(m) + [','], RenderMembers(ms[1..]), d);
    }
  }

  // ----- Object texts -----

  /** Inside an object text the depth stays at one or more until the closing brace brings it to zero. */
  lemma ObjectCloses(t: Tree)
    requires IsObject(t)
    ensures ShortestClosed(Render(t), Render(t))
    ensures forall k | 0 < k < |Render(t)| :: Depth(Render(t)[..k]) >= 1
  {
    var p := Render(t);
    ObjectBody(t, 0);
    ValueIsNeutral(t, 0);
    var body := p[1..|p| - 1];
    forall k | 0 < k < |p|
      ensures Depth(p[..k]) >= 1
    {
      assert p[..k][1..] == body[..k - 1];
      assert Step(Outside(0), '{') == Outside(1);
      SafeDepth(Outside(1), body, 1, k - 1);
    }
    assert p[..|p|] == p;
  }

  /** No object text is a proper prefix of another. */
  lemma ObjectTextsArePrefixFree(t: Tree, u: Tree, rest: string)
    requires IsObject(t) && IsObject(u)
    requires Render(u) == Render(t) + rest
    ensures rest == []
  {
    ObjectCloses(t);
    ObjectCloses(u);
    assert Render(u)[..|Render(t)|] == Render(t);
  }

  // Read strictly from opposite sides of a quote, a text without escapes ends on opposite sides.
  lemma {:induction false} QuoteParity(a: Scan, b: Scan, text: string, d: int, e: int)
    requires !a.escape && !b.escape && a.inString != b.inString
    requires Safe(a, text, d) && Safe(b, text, e)
    ensures Run(a, text).inString != Run(b, text).inString
    decreases text
  {
    if text != [] {
      QuoteParity(Step(a, text[0]), Step(b, text[0]), text[1..], d, e);
    }
  }

  /**
   No object text is a proper suffix of another: the scanner would meet it either one level too deep,
   or from inside a string, and then quote parity or a stray backslash gives the mistake away.
   */
  lemma ObjectTextsAreSuffixFree(t: Tree, u: Tree, lead: string)
    requires IsObject(t) && IsObject(u)
    requires Render(u) == lead + Render(t)
    ensures lead == []
  {
    var p := Render(t);
    var q := Render(u);
    if lead != [] {
      ObjectCloses(u);
      assert q[..|lead|] == lead;
      ObjectBody(t, 0);
      ValueIsNeutral(u, 0);
      SafeConcat(Outside(0), lead, p, 0);
      RunConcat(Outside(0), lead, p);
      var s := Run(Outside(0), lead);
      assert s.depth >= 1;
      assert StepOk(s, '{');
      if s.inString {
        ValueIsNeutral(t, 0);
        QuoteParity(s, Outside(0), p, 0, 0);
      } else {
        ValueIsNeutral(t, s.depth);
      }
      assert false;
    }
  }
}
