/** A JSON text determines its tree: the grammar of `JsonGrammar` is unambiguous. */
module JsonUnambiguous {
  import opened Text
  import opened JsonGrammar

  // Where a run of p-characters ends is visible in the text.
  lemma {:induction false} SpanCancel(p: char -> bool, a: string, b: string, x: string, y: string)
    requires AllIn(a, p) && AllIn(b, p)
    requires (x == [] || !p(x[0])) && (y == [] || !p(y[0]))
    requires a + x == b + y
    ensures a == b && x == y
    decreases |a| + |b|
  {
    if a == [] || b == [] {
      assert [] + x == x && [] + y == y;
    } else {
      assert (a + x)[0] == a[0] && (b + y)[0] == b[0];
      assert (a + x)[1..] == a[1..] + x && (b + y)[1..] == b[1..] + y;
      SpanCancel(p, a[1..], b[1..], x, y);
    }
  }

  lemma CharCancel(c: StrChar, d: StrChar, x: string, y: string)
    requires GoodChar(c) && GoodChar(d)
    requires RenderChar(c) + x == RenderChar(d) + y
    ensures c == d && x == y
  {
    var t := RenderChar(c) + x;
    assert t[0] == RenderChar(c)[0] && t[0] == RenderChar(d)[0];
    if !c.Plain? {
      assert t[1] == RenderChar(c)[1] && t[1] == RenderChar(d)[1];
      if c.Unicode? {
        assert t[2..6] == c.hex && t[2..6] == d.hex;
      }
    }
    assert |RenderChar(c)| == |RenderChar(d)|;
    assert t[|RenderChar(c)|..] == x && t[|RenderChar(d)|..] == y;
  }

  lemma UnfoldChars(cs: seq<StrChar>, x: string)
    requires cs != []
    ensures RenderChars(cs) + ['"'] + x == RenderChar(cs[0]) + (RenderChars(cs[1..]) + ['"'] + x)
  {
    assert RenderChars(cs) == RenderChar(cs[0]) + RenderChars(cs[1..]);
  }

  // The closing quote is not the first character of a string character.
  lemma StringEnds(cs: seq<StrChar>, x: string, y: string)
    requires GoodChars(cs)
    requires RenderChars(cs) + ['"'] + x == ['"'] + y
    ensures cs == [] && x == y
  {
    if cs != [] {
      var t := RenderChar(cs[0]) + (RenderChars(cs[1..]) + ['"'] + x);
      assert t[0] == RenderChar(cs[0])[0] != '"';
      UnfoldChars(cs, x);
      assert false;
    }
    assert RenderChars([]) + ['"'] + x == ['"'] + x;
    assert (['"'] + x)[1..] == x && (['"'] + y)[1..] == y;
  }

  lemma {:induction false} CharsCancel(cs: seq<StrChar>, ds: seq<StrChar>, x: string, y: string)
    requires GoodChars(cs) && GoodChars(ds)
    requires RenderChars(cs) + ['"'] + x == RenderChars(ds) + ['"'] + y
    ensures cs == ds && x == y
    decreases |cs| + |ds|
  {
    if cs == [] {
      assert RenderChars(cs) + ['"'] + x == ['"'] + x;
      StringEnds(ds, y, x);
    } else if ds == [] {
      assert RenderChars(ds) + ['"'] + y == ['"'] + y;
      StringEnds(cs, x, y);
    } else {
      UnfoldChars(cs, x);
      UnfoldChars(ds, y);
      CharCancel(cs[0], ds[0], RenderChars(cs[1..]) + ['"'] + x, RenderChars(ds[1..]) + ['"'] + y);
      CharsCancel(cs[1..], ds[1..], x, y);
      assert cs == [cs[0]] + cs[1..] && ds == [ds[0]] + ds[1..];
    }
  }

  lemma StrCancel(cs: seq<StrChar>, ds: seq<StrChar>, x: string, y: string)
    requires GoodChars(cs) && GoodChars(ds)
    requires RenderStr(cs) + x == RenderStr(ds) + y
    ensures cs == ds && x == y
  {
    assert (RenderStr(cs) + x)[1..] == RenderChars(cs) + ['"'] + x;
    assert (RenderStr(ds) + y)[1..] == RenderChars(ds) + ['"'] + y;
    CharsCancel(cs, ds, x, y);
  }

  // Text that can follow a value: it starts with a structural character or a blank, or is empty.
  predicate Delimited(x: string) {
    x == [] || (!IsTokenChar(x[0]) && x[0] != '"')
  }

  // Text that can follow a value and its blanks inside a container.
  predicate Closing(x: string) {
    x != [] && (x[0] == ',' || x[0] == ']' || x[0] == '}')
  }

  lemma HeadIsNotBlank(t: Tree)
    requires Good(t)
    ensures Render(t) != [] && !IsBlankChar(Render(t)[0])
    ensures t.Scalar? <==> IsTokenChar(Render(t)[0])
    ensures t.Str? <==> Render(t)[0] == '"'
    ensures t.Arr? <==> Render(t)[0] == '['
    ensures t.Obj? <==> Render(t)[0] == '{'
    ensures Render(t)[0] != ']'
  {
    if t.Scalar? {
      ScalarIsToken(t.text);
    }
  }

  /** Equal texts, each a value followed by something that delimits it, hold equal values. */
  lemma {:induction false} ValueCancel(t: Tree, u: Tree, x: string, y: string)
    requires Good(t) && Good(u) && Delimited(x) && Delimited(y)
    requires Render(t) + x == Render(u) + y
    ensures t == u && x == y
    decreases t, 1
  {
    HeadIsNotBlank(t);
    HeadIsNotBlank(u);
    assert (Render(t) + x)[0] == Render(t)[0] && (Render(u) + y)[0] == Render(u)[0];
    match t
    case Scalar(text) =>
      ScalarIsToken(t.text);
      ScalarIsToken(u.text);
      SpanCancel(IsTokenChar, t.text, u.text, x, y);
    case Str(cs) =>
      StrCancel(t.chars, u.chars, x, y);
    case Arr(_, _) =>
      ArrCancel(t, u, x, y);
    case Obj(_, _) =>
      ObjCancel(t, u, x, y);
  }

  lemma {:induction false} Inner(open: char, body: string, close: char, x: string)
    ensures ([open] + body + [close] + x)[1..] == body + ([close] + x)
  {
  }

  // An empty array's text is never that of an array with elements.
  lemma EmptyOrNot(blank: string, x: string, es: seq<Element>, y: string)
    requires IsBlank(blank) && x != [] && x[0] == ']'
    requires es != [] && GoodElements(es)
    ensures blank + x != RenderElements(es) + y
  {
    HeadIsNotBlank(es[0].value);
    var tail := if |es| == 1 then y else [','] + RenderElements(es[1..]) + y;
    var z := Render(es[0].value) + (es[0].after + tail);
    assert RenderElements(es) + y == es[0].before + z;
    assert z[0] == Render(es[0].value)[0];
    if blank + x == RenderElements(es) + y {
      SpanCancel(IsBlankChar, blank, es[0].before, x, z);
      assert false;
    }
  }

  lemma {:induction false} ArrCancel(t: Tree, u: Tree, x: string, y: string)
    requires t.Arr? && u.Arr? && Good(t) && Good(u)
    requires Render(t) + x == Render(u) + y
    ensures t == u && x == y
    decreases t, 0
  {
    var es, fs := t.elements, u.elements;
    var x', y' := [']'] + x, [']'] + y;
    Inner('[', if es == [] then t.blank else RenderElements(es), ']', x);
    Inner('[', if fs == [] then u.blank else RenderElements(fs), ']', y);
    if es != [] && fs != [] {
      ElementsCancel(es, fs, x', y');
    } else if es != [] {
      EmptyOrNot(u.blank, y', es, x');
    } else if fs != [] {
      EmptyOrNot(t.blank, x', fs, y');
    } else {
      SpanCancel(IsBlankChar, t.blank, u.blank, x', y');
    }
    assert x == x'[1..] && y == y'[1..];
  }

  // What follows a member's key.
  function AfterKey(m: Member, x: string): string {
    m.afterKey + ([':'] + (RenderElement(m.elem) + x))
  }

  lemma {:induction false} UnfoldMember(m: Member, x: string)
    ensures RenderMember(m) + x == m.beforeKey + (RenderStr(m.key) + AfterKey(m, x))
  {
  }

  function MembersTail(ms: seq<Member>, x: string): string
    requires ms != []
  {
    if |ms| == 1 then x else [','] + (RenderMembers(ms[1..]) + x)
  }

  lemma UnfoldMembers(ms: seq<Member>, x: string)
    requires ms != []
    ensures RenderMembers(ms) + x == RenderMember(ms[0]) + MembersTail(ms, x)
  {
  }

  lemma {:induction false} NoMembersOrSome(blank: string, x: string, ms: seq<Member>, y: string)
    requires IsBlank(blank) && x != [] && x[0] == '}'
    requires ms != [] && GoodMembers(ms)
    ensures blank + x != RenderMembers(ms) + y
  {
    var m := ms[0];
    UnfoldMembers(ms, y);
    UnfoldMember(m, MembersTail(ms, y));
    var z := RenderStr(m.key) + AfterKey(m, MembersTail(ms, y));
    assert z[0] == '"';
    if blank + x == RenderMembers(ms) + y {
      SpanCancel(IsBlankChar, blank, m.beforeKey, x, z);
      assert false;
    }
  }

  lemma {:induction false} ObjCancel(t: Tree, u: Tree, x: string, y: string)
    requires t.Obj? && u.Obj? && Good(t) && Good(u)
    requires Render(t) + x == Render(u) + y
    ensures t == u && x == y
    decreases t, 0
  {
    var ms, ns := t.members, u.members;
    var x', y' := ['}'] + x, ['}'] + y;
    Inner('{', if ms == [] then t.blank else RenderMembers(ms), '}', x);
    Inner('{', if ns == [] then u.blank else RenderMembers(ns), '}', y);
    if ms != [] && ns != [] {
      MembersCancel(ms, ns, x', y');
    } else if ms != [] {
      NoMembersOrSome(u.blank, y', ms, x');
    } else if ns != [] {
      NoMembersOrSome(t.blank, x', ns, y');
    } else {
      SpanCancel(IsBlankChar, t.blank, u.blank, x', y');
    }
    assert x == x'[1..] && y == y'[1..];
  }

  lemma {:induction false} ElementCancel(e: Element, f: Element, x: string, y: string)
    requires GoodElement(e) && GoodElement(f) && Closing(x) && Closing(y)
    requires RenderElement(e) + x == RenderElement(f) + y
    ensures e == f && x == y
    decreases e, 2
  {
    HeadIsNotBlank(e.value);
    HeadIsNotBlank(f.value);
    var x1, y1 := e.after + x, f.after + y;
    var x0, y0 := Render(e.value) + x1, Render(f.value) + y1;
    assert RenderElement(e) + x == e.before + x0;
    assert RenderElement(f) + y == f.before + y0;
    SpanCancel(IsBlankChar, e.before, f.before, x0, y0);
    ValueCancel(e.value, f.value, x1, y1);
    SpanCancel(IsBlankChar, e.after, f.after, x, y);
  }

  // What follows the first element of a list: the next elements or what follows the list.
  function ElementsTail(es: seq<Element>, x: string): string
    requires es != []
  {
    if |es| == 1 then x else [','] + (RenderElements(es[1..]) + x)
  }

  lemma UnfoldElements(es: seq<Element>, x: string)
    requires es != []
    ensures RenderElements(es) + x == RenderElement(es[0]) + ElementsTail(es, x)
  {
  }

  lemma {:induction false} ElementsCancel(es: seq<Element>, fs: seq<Element>, x: string, y: string)
    requires es != [] && fs != [] && GoodElements(es) && GoodElements(fs)
    requires x != [] && y != [] && x[0] == ']' && y[0] == ']'
    requires RenderElements(es) + x == RenderElements(fs) + y
    ensures es == fs && x == y
    decreases es, 0
  {
    var x', y' := ElementsTail(es, x), ElementsTail(fs, y);
    UnfoldElements(es, x);
    UnfoldElements(fs, y);
    ElementCancel(es[0], fs[0], x', y');
    assert |es| == 1 <==> x'[0] == ']';
    assert |fs| == 1 <==> y'[0] == ']';
    if |es| > 1 {
      assert x'[1..] == RenderElements(es[1..]) + x;
      assert y'[1..] == RenderElements(fs[1..]) + y;
      ElementsCancel(es[1..], fs[1..], x, y);
    }
    assert es == [es[0]] + es[1..] && fs == [fs[0]] + fs[1..];
  }

  lemma {:induction false} MemberCancel(m: Member, n: Member, x: string, y: string)
    requires GoodMember(m) && GoodMember(n) && Closing(x) && Closing(y)
    requires RenderMember(m) + x == RenderMember(n) + y
    ensures m == n && x == y
    decreases m, 3
  {
    var x1, y1 := [':'] + (RenderElement(m.elem) + x), [':'] + (RenderElement(n.elem) + y);
    UnfoldMember(m, x);
    UnfoldMember(n, y);
    SpanCancel(IsBlankChar, m.beforeKey, n.beforeKey,
               RenderStr(m.key) + AfterKey(m, x), RenderStr(n.key) + AfterKey(n, y));
    StrCancel(m.key, n.key, AfterKey(m, x), AfterKey(n, y));
    SpanCancel(IsBlankChar, m.afterKey, n.afterKey, x1, y1);
    assert x1[1..] == RenderElement(m.elem) + x && y1[1..] == RenderElement(n.elem) + y;
    ElementCancel(m.elem, n.elem, x, y);
  }

  lemma {:induction false} MembersCancel(ms: seq<Member>, ns: seq<Member>, x: string, y: string)
    requires ms != [] && ns != [] && GoodMembers(ms) && GoodMembers(ns)
    requires x != [] && y != [] && x[0] == '}' && y[0] == '}'
    requires RenderMembers(ms) + x == RenderMembers(ns) + y
    ensures ms == ns && x == y
    decreases ms, 0
  {
    var x', y' := MembersTail(ms, x), MembersTail(ns, y);
    UnfoldMembers(ms, x);
    UnfoldMembers(ns, y);
    MemberCancel(ms[0], ns[0], x', y');
    assert |ms| == 1 <==> x'[0] == '}';
    assert |ns| == 1 <==> y'[0] == '}';
    if |ms| > 1 {
      assert x'[1..] == RenderMembers(ms[1..]) + x;
      assert y'[1..] == RenderMembers(ns[1..]) + y;
      MembersCancel(ms[1..], ns[1..], x, y);
    }
    assert ms == [ms[0]] + ms[1..] && ns == [ns[0]] + ns[1..];
  }

  /** Two well-formed trees with the same text are the same tree. */
  lemma TextDeterminesTree(t: Tree, u: Tree)
    requires Good(t) && Good(u) && Render(t) == Render(u)
    ensures t == u
  {
    assert Render(t) + [] == Render(u) + [];
    ValueCancel(t, u, [], []);
  }
}
