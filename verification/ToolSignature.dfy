/**
 `tool_signature` (app/assistant/rules/tools.py): the tool's name, a colon, and its arguments printed
 as JSON with sorted keys.  Two calls get one signature exactly when they are the same call.
 */
module ToolSignature {
  import opened JsonGrammar
  import opened JsonTexts
  import opened JsonUnambiguous

  // Decoded JSON.  A number is identified with its printed text; a dictionary keeps insertion order.
  datatype Json =
    | Atom(text: string)
    | Text(s: string)
    | List(items: seq<Json>)
    | Dict(entries: seq<Entry>)

  datatype Entry = Entry(key: string, value: Json)

  ghost predicate DistinctKeys(es: seq<Entry>) {
    forall i, j | 0 <= i < j < |es| :: es[i].key != es[j].key
  }

  ghost predicate Valid(v: Json)
    decreases v
  {
    match v
    case Atom(text) => IsScalar(text)
    case Text(_) => true
    case List(items) => forall i | 0 <= i < |items| :: Valid(items[i])
    case Dict(es) => DistinctKeys(es) && forall i | 0 <= i < |es| :: Valid(es[i].value)
  }

  /** The same JSON value up to the order of dictionary keys, at every depth. */
  ghost predicate Same(v: Json, w: Json)
    decreases v
  {
    match v
    case Atom(text) => w.Atom? && w.text == text
    case Text(s) => w.Text? && w.s == s
    case List(items) =>
      && w.List? && |w.items| == |items|
      && forall i | 0 <= i < |items| :: Same(items[i], w.items[i])
    case Dict(es) =>
      w.Dict? && Covers(es, w.entries) && CoveredBy(es, w.entries)
  }

  ghost predicate Covers(es: seq<Entry>, fs: seq<Entry>)
    decreases es
  {
    forall i | 0 <= i < |es| :: exists j :: 0 <= j < |fs| && SameEntry(es[i], fs[j])
  }

  ghost predicate CoveredBy(es: seq<Entry>, fs: seq<Entry>)
    decreases es
  {
    forall j | 0 <= j < |fs| :: exists i :: 0 <= i < |es| && SameEntry(es[i], fs[j])
  }

  ghost predicate SameEntry(e: Entry, f: Entry)
    decreases e
  {
    e.key == f.key && Same(e.value, f.value)
  }

  // ----- json.dumps(args, sort_keys=True, ensure_ascii=False) -----

  function HexDigit(n: nat): char
    requires n < 16
  {
    "0123456789abcdef"[n]
  }

  function DumpChar(c: char): StrChar {
    match c
    case '"' => Escape('"')
    case '\\' => Escape('\\')
    case '\U{8}' => Escape('b')
    case '\U{c}' => Escape('f')
    case '\n' => Escape('n')
    case '\r' => Escape('r')
    case '\t' => Escape('t')
    case _ => if c < ' ' then Unicode("00" + [HexDigit(c as int / 16), HexDigit(c as int % 16)]) else Plain(c)
  }

  function DumpString(s: string): seq<StrChar> {
    seq(|s|, i requires 0 <= i < |s| => DumpChar(s[i]))
  }

  datatype Pair = Pair(key: string, tree: Tree)

  // Python compares strings by code point.
  predicate Less(a: string, b: string) {
    b != [] && (a == [] || a[0] < b[0] || (a[0] == b[0] && Less(a[1..], b[1..])))
  }

  function Insert(p: Pair, ps: seq<Pair>): seq<Pair> {
    if ps == [] || Less(p.key, ps[0].key) then [p] + ps else [ps[0]] + Insert(p, ps[1..])
  }

  function Sort(ps: seq<Pair>): seq<Pair> {
    if ps == [] then [] else Insert(ps[0], Sort(ps[1..]))
  }

  function Blank(i: nat): string {
    if i == 0 then "" else " "
  }

  function MakeElements(ts: seq<Tree>): seq<Element> {
    seq(|ts|, i requires 0 <= i < |ts| => Element(Blank(i), ts[i], ""))
  }

  function MakeMembers(ps: seq<Pair>): seq<Member> {
    seq(|ps|, i requires 0 <= i < |ps| =>
      Member(Blank(i), DumpString(ps[i].key), "", Element(" ", ps[i].tree, "")))
  }

  function Dump(v: Json): Tree
    decreases v, 1
  {
    match v
    case Atom(text) => Scalar(text)
    case Text(s) => Str(DumpString(s))
    case List(items) => Arr("", MakeElements(DumpItems(items)))
    case Dict(es) => Obj("", MakeMembers(Sort(DumpEntries(es))))
  }

  function DumpItems(items: seq<Json>): (ts: seq<Tree>)
    ensures |ts| == |items|
    ensures forall i | 0 <= i < |items| :: ts[i] == Dump(items[i])
    decreases items, 0
  {
    if items == [] then [] else [Dump(items[0])] + DumpItems(items[1..])
  }

  function DumpEntries(es: seq<Entry>): (ps: seq<Pair>)
    ensures |ps| == |es|
    ensures forall i | 0 <= i < |es| :: ps[i] == Pair(es[i].key, Dump(es[i].value))
    decreases es, 0
  {
    if es == [] then [] else [Pair(es[0].key, Dump(es[0].value))] + DumpEntries(es[1..])
  }

  function Signature(toolName: string, args: seq<Entry>): string {
    toolName + ":" + Render(Dump(Dict(args)))
  }

  // ----- Dumps are object texts -----

  lemma DumpStringGood(s: string)
    ensures GoodChars(DumpString(s))
  {
    assert forall i | 0 <= i < |s| :: GoodChar(DumpString(s)[i]);
  }

  lemma {:induction false} AllElementsGood(es: seq<Element>)
    requires forall i | 0 <= i < |es| :: GoodElement(es[i])
    ensures GoodElements(es)
  {
    if es != [] {
      AllElementsGood(es[1..]);
    }
  }

  lemma {:induction false} AllMembersGood(ms: seq<Member>)
    requires forall i | 0 <= i < |ms| :: GoodMember(ms[i])
    ensures GoodMembers(ms)
  {
    if ms != [] {
      AllMembersGood(ms[1..]);
    }
  }

  lemma {:induction false} InsertKeeps(p: Pair, ps: seq<Pair>)
    ensures forall q :: q in Insert(p, ps) <==> q == p || q in ps
  {
    if !(ps == [] || Less(p.key, ps[0].key)) {
      InsertKeeps(p, ps[1..]);
      assert ps == [ps[0]] + ps[1..];
    }
  }

  lemma {:induction false} SortKeeps(ps: seq<Pair>)
    ensures forall q :: q in Sort(ps) <==> q in ps
  {
    if ps != [] {
      SortKeeps(ps[1..]);
      InsertKeeps(ps[0], Sort(ps[1..]));
      assert ps == [ps[0]] + ps[1..];
    }
  }

  lemma {:induction false} DumpGood(v: Json)
    requires Valid(v)
    ensures Good(Dump(v))
  {
    match v
    case Atom(_) =>
    case Text(s) =>
      DumpStringGood(s);
    case List(items) =>
      var es := MakeElements(DumpItems(items));
      forall i | 0 <= i < |es|
        ensures GoodElement(es[i])
      {
        DumpGood(items[i]);
      }
      AllElementsGood(es);
    case Dict(es) =>
      var ps := DumpEntries(es);
      var ms := MakeMembers(Sort(ps));
      SortKeeps(ps);
      forall i | 0 <= i < |ms|
        ensures GoodMember(ms[i])
      {
        var p := Sort(ps)[i];
        assert p in ps;
        var j :| 0 <= j < |ps| && ps[j] == p;
        DumpGood(es[j].value);
        DumpStringGood(p.key);
      }
      AllMembersGood(ms);
  }

  // ----- Strings -----

  lemma DumpCharInjective(c: char, d: char)
    requires DumpChar(c) == DumpChar(d)
    ensures c == d
  {
    if DumpChar(c).Unicode? {
      assert c as int / 16 < 2 && d as int / 16 < 2;
      var h, k := DumpChar(c).hex, DumpChar(d).hex;
      assert h[2] == HexDigit(c as int / 16) && h[3] == HexDigit(c as int % 16);
      assert k[2] == HexDigit(d as int / 16) && k[3] == HexDigit(d as int % 16);
    }
  }

  lemma DumpStringInjective(s: string, t: string)
    requires DumpString(s) == DumpString(t)
    ensures s == t
  {
    assert |DumpString(s)| == |DumpString(t)|;
    forall i | 0 <= i < |s|
      ensures s[i] == t[i]
    {
      assert DumpString(s)[i] == DumpString(t)[i];
      DumpCharInjective(s[i], t[i]);
    }
  }

  // ----- Sorting by key -----

  lemma {:induction false} LessTransitive(a: string, b: string, c: string)
    requires Less(a, b) && Less(b, c)
    ensures Less(a, c)
  {
    if a != [] && a[0] == b[0] && b[0] == c[0] {
      LessTransitive(a[1..], b[1..], c[1..]);
    }
  }

  lemma {:induction false} LessTotal(a: string, b: string)
    ensures Less(a, b) || Less(b, a) || a == b
  {
    if a != [] && b != [] && a[0] == b[0] {
      LessTotal(a[1..], b[1..]);
      assert a == [a[0]] + a[1..] && b == [b[0]] + b[1..];
    }
  }

  lemma {:induction false} LessIrreflexive(a: string)
    ensures !Less(a, a)
  {
    if a != [] {
      LessIrreflexive(a[1..]);
    }
  }

  ghost predicate Ascending(ps: seq<Pair>) {
    forall i, j | 0 <= i < j < |ps| :: Less(ps[i].key, ps[j].key)
  }

  lemma {:induction false} InsertAscending(p: Pair, ps: seq<Pair>)
    requires Ascending(ps)
    requires forall q | q in ps :: q.key != p.key
    ensures Ascending(Insert(p, ps))
  {
    if ps == [] {
    } else if Less(p.key, ps[0].key) {
      forall j | 0 < j < |ps|
        ensures Less(p.key, ps[j].key)
      {
        LessTransitive(p.key, ps[0].key, ps[j].key);
      }
    } else {
      LessTotal(p.key, ps[0].key);
      assert ps[0] in ps;
      InsertAscending(p, ps[1..]);
      InsertKeeps(p, ps[1..]);
      var rest := Insert(p, ps[1..]);
      forall j | 0 <= j < |rest|
        ensures Less(ps[0].key, rest[j].key)
      {
        assert rest[j] in rest;
        if rest[j] != p {
          var k :| 0 <= k < |ps[1..]| && ps[1..][k] == rest[j];
          assert ps[k + 1] == rest[j];
        }
      }
    }
  }

  lemma {:induction false} SortAscending(ps: seq<Pair>)
    requires forall i, j | 0 <= i < j < |ps| :: ps[i].key != ps[j].key
    ensures Ascending(Sort(ps))
  {
    if ps != [] {
      SortAscending(ps[1..]);
      SortKeeps(ps[1..]);
      forall q | q in Sort(ps[1..])
        ensures q.key != ps[0].key
      {
        var k :| 0 <= k < |ps[1..]| && ps[1..][k] == q;
        assert ps[k + 1] == q;
      }
      InsertAscending(ps[0], Sort(ps[1..]));
    }
  }

  lemma HeadOccursOnce(ps: seq<Pair>)
    requires Ascending(ps) && ps != []
    ensures ps[0] !in ps[1..]
  {
    if ps[0] in ps[1..] {
      var k :| 0 <= k < |ps[1..]| && ps[1..][k] == ps[0];
      assert Less(ps[0].key, ps[k + 1].key);
      LessIrreflexive(ps[0].key);
      assert false;
    }
  }

  // An ascending list is determined by its elements.
  lemma {:induction false} AscendingIsUnique(ps: seq<Pair>, qs: seq<Pair>)
    requires Ascending(ps) && Ascending(qs)
    requires forall q :: q in ps <==> q in qs
    ensures ps == qs
  {
    assert qs != [] ==> qs[0] in qs;
    if ps != [] {
      assert ps[0] in ps && ps[0] in qs;
      assert qs[0] in qs && qs[0] in ps;
      var i :| 0 <= i < |ps| && ps[i] == qs[0];
      var j :| 0 <= j < |qs| && qs[j] == ps[0];
      if i > 0 {
        assert Less(ps[0].key, ps[i].key);
        LessIrreflexive(ps[0].key);
        if j > 0 {
          assert Less(qs[0].key, qs[j].key);
          LessTransitive(ps[0].key, qs[0].key, ps[0].key);
        }
        assert false;
      }
      assert ps == [ps[0]] + ps[1..] && qs == [qs[0]] + qs[1..];
      HeadOccursOnce(ps);
      HeadOccursOnce(qs);
      assert forall q :: q in ps <==> q == ps[0] || q in ps[1..];
      assert forall q :: q in qs <==> q == qs[0] || q in qs[1..];
      AscendingIsUnique(ps[1..], qs[1..]);
    }
  }

  // ----- Equal dumps are the same value -----

  lemma {:induction false} DumpInjective(v: Json, w: Json)
    requires Dump(v) == Dump(w)
    ensures Same(v, w)
    decreases v
  {
    match v
    case Atom(_) =>
    case Text(s) =>
      DumpStringInjective(v.s, w.s);
    case List(items) =>
      var es, fs := MakeElements(DumpItems(items)), MakeElements(DumpItems(w.items));
      assert |es| == |fs|;
      forall i | 0 <= i < |items|
        ensures Same(items[i], w.items[i])
      {
        assert es[i] == fs[i];
        DumpInjective(items[i], w.items[i]);
      }
    case Dict(_) =>
      DictInjective(v.entries, w.entries);
  }

  lemma MembersInjective(ps: seq<Pair>, qs: seq<Pair>)
    requires MakeMembers(ps) == MakeMembers(qs)
    ensures ps == qs
  {
    assert |MakeMembers(ps)| == |MakeMembers(qs)|;
    forall i | 0 <= i < |ps|
      ensures ps[i] == qs[i]
    {
      assert MakeMembers(ps)[i] == MakeMembers(qs)[i];
      DumpStringInjective(ps[i].key, qs[i].key);
    }
  }

  lemma SamePairs(es: seq<Entry>, fs: seq<Entry>)
    requires Dump(Dict(es)) == Dump(Dict(fs))
    ensures forall p :: p in DumpEntries(es) <==> p in DumpEntries(fs)
  {
    var ps, qs := DumpEntries(es), DumpEntries(fs);
    assert MakeMembers(Sort(ps)) == Dump(Dict(es)).members;
    assert MakeMembers(Sort(qs)) == Dump(Dict(fs)).members;
    MembersInjective(Sort(ps), Sort(qs));
    SortKeeps(ps);
    SortKeeps(qs);
  }

  lemma {:induction false} DictInjective(es: seq<Entry>, fs: seq<Entry>)
    requires Dump(Dict(es)) == Dump(Dict(fs))
    ensures Covers(es, fs) && CoveredBy(es, fs)
    decreases es
  {
    var ps, qs := DumpEntries(es), DumpEntries(fs);
    SamePairs(es, fs);
    forall i | 0 <= i < |es|
      ensures exists j :: 0 <= j < |fs| && SameEntry(es[i], fs[j])
    {
      assert ps[i] in qs;
      var j :| 0 <= j < |qs| && qs[j] == ps[i];
      DumpInjective(es[i].value, fs[j].value);
      assert SameEntry(es[i], fs[j]);
    }
    forall j | 0 <= j < |fs|
      ensures exists i :: 0 <= i < |es| && SameEntry(es[i], fs[j])
    {
      assert qs[j] in ps;
      var i :| 0 <= i < |ps| && ps[i] == qs[j];
      DumpInjective(es[i].value, fs[j].value);
      assert SameEntry(es[i], fs[j]);
    }
  }

  lemma SortIsCanonical(ps: seq<Pair>, qs: seq<Pair>)
    requires forall i, j | 0 <= i < j < |ps| :: ps[i].key != ps[j].key
    requires forall i, j | 0 <= i < j < |qs| :: qs[i].key != qs[j].key
    requires forall p :: p in ps <==> p in qs
    ensures Sort(ps) == Sort(qs)
  {
    SortKeeps(ps);
    SortKeeps(qs);
    SortAscending(ps);
    SortAscending(qs);
    AscendingIsUnique(Sort(ps), Sort(qs));
  }

  lemma {:induction false} SameDump(v: Json, w: Json)
    requires Valid(v) && Valid(w) && Same(v, w)
    ensures Dump(v) == Dump(w)
    decreases v
  {
    match v
    case Atom(_) =>
    case Text(_) =>
    case List(items) =>
      forall i | 0 <= i < |items|
        ensures Dump(items[i]) == Dump(w.items[i])
      {
        SameDump(items[i], w.items[i]);
      }
      assert DumpItems(items) == DumpItems(w.items);
    case Dict(_) =>
      PairsCovered(v.entries, w.entries);
      PairsCover(v.entries, w.entries);
      SortIsCanonical(DumpEntries(v.entries), DumpEntries(w.entries));
  }

  lemma {:induction false} PairsCovered(es: seq<Entry>, fs: seq<Entry>)
    requires forall i | 0 <= i < |es| :: Valid(es[i].value)
    requires forall j | 0 <= j < |fs| :: Valid(fs[j].value)
    requires Covers(es, fs)
    ensures forall p | p in DumpEntries(es) :: p in DumpEntries(fs)
    decreases es
  {
    forall i | 0 <= i < |es|
      ensures DumpEntries(es)[i] in DumpEntries(fs)
    {
      var j :| 0 <= j < |fs| && SameEntry(es[i], fs[j]);
      SameDump(es[i].value, fs[j].value);
      assert DumpEntries(fs)[j] == DumpEntries(es)[i];
    }
  }

  lemma {:induction false} PairsCover(es: seq<Entry>, fs: seq<Entry>)
    requires forall i | 0 <= i < |es| :: Valid(es[i].value)
    requires forall j | 0 <= j < |fs| :: Valid(fs[j].value)
    requires CoveredBy(es, fs)
    ensures forall p | p in DumpEntries(fs) :: p in DumpEntries(es)
    decreases es
  {
    forall j | 0 <= j < |fs|
      ensures DumpEntries(fs)[j] in DumpEntries(es)
    {
      var i :| 0 <= i < |es| && SameEntry(es[i], fs[j]);
      SameDump(es[i].value, fs[j].value);
      assert DumpEntries(es)[i] == DumpEntries(fs)[j];
    }
  }

  lemma NamesAgree(n: string, v: Json, m: string, w: Json)
    requires v.Dict? && w.Dict? && Valid(v) && Valid(w)
    requires n + ":" + Render(Dump(v)) == m + ":" + Render(Dump(w))
    ensures n == m && Render(Dump(v)) == Render(Dump(w))
    ensures Good(Dump(v)) && Good(Dump(w))
  {
    DumpGood(v);
    DumpGood(w);
    var p, q := Render(Dump(v)), Render(Dump(w));
    var t := n + ":" + p;
    assert t[|t| - |p|..] == p && t[|t| - |q|..] == q;
    if |p| <= |q| {
      assert q[|q| - |p|..] == p;
      assert q == q[..|q| - |p|] + p;
      ObjectTextsAreSuffixFree(Dump(v), Dump(w), q[..|q| - |p|]);
    } else {
      assert p[|p| - |q|..] == q;
      assert p == p[..|p| - |q|] + q;
      ObjectTextsAreSuffixFree(Dump(w), Dump(v), p[..|p| - |q|]);
    }
    assert t[..|t| - |p| - 1] == n && t[..|t| - |q| - 1] == m;
  }

  /**
   Two calls have the same signature exactly when they name the same tool and their arguments are the
   same JSON value up to key order.  No restriction on names: a name may contain colons or braces.
   */
  lemma SignaturesIdentifyCalls(n: string, a: seq<Entry>, m: string, b: seq<Entry>)
    requires Valid(Dict(a)) && Valid(Dict(b))
    ensures Signature(n, a) == Signature(m, b) <==> n == m && Same(Dict(a), Dict(b))
  {
    if n == m && Same(Dict(a), Dict(b)) {
      SameDump(Dict(a), Dict(b));
    }
    if Signature(n, a) == Signature(m, b) {
      NamesAgree(n, Dict(a), m, Dict(b));
      TextDeterminesTree(Dump(Dict(a)), Dump(Dict(b)));
      DumpInjective(Dict(a), Dict(b));
    }
  }
}
