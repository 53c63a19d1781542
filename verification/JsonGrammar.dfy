/**
 Concrete syntax of JSON texts, after sections 2 to 7 of RFC 8259.

 A `Tree` records every choice the grammar leaves open (blanks, escapes), so the object texts are
 exactly the strings `Render(o)` for a well-formed tree `o` with `o.Obj?`.  Beside the RFC's scalars
 the grammar admits the three non-finite literals that Python's json module reads and writes.
 */
module JsonGrammar {
  import opened Text

  datatype StrChar =
    | Plain(c: char)
    | Escape(c: char)
    | Unicode(hex: string)

  datatype Element = Element(before: string, value: Tree, after: string)

  datatype Member = Member(beforeKey: string, key: seq<StrChar>, afterKey: string, elem: Element)

  datatype Tree =
    | Scalar(text: string)
    | Str(chars: seq<StrChar>)
    | Arr(blank: string, elements: seq<Element>)
    | Obj(blank: string, members: seq<Member>)

  // ----- Rendering -----

  function RenderChar(c: StrChar): string {
    match c
    case Plain(ch) => [ch]
    case Escape(ch) => ['\\', ch]
    case Unicode(hex) => ['\\', 'u'] + hex
  }

  function RenderChars(cs: seq<StrChar>): string {
    if cs == [] then [] else RenderChar(cs[0]) + RenderChars(cs[1..])
  }

  function RenderStr(cs: seq<StrChar>): string {
    ['"'] + RenderChars(cs) + ['"']
  }

  function Render(t: Tree): string
    decreases t, 1
  {
    match t
    case Scalar(text) => text
    case Str(cs) => RenderStr(cs)
    case Arr(blank, es) => ['['] + (if es == [] then blank else RenderElements(es)) + [']']
    case Obj(blank, ms) => ['{'] + (if ms == [] then blank else RenderMembers(ms)) + ['}']
  }

  function RenderElement(e: Element): string
    decreases e, 2
  {
    e.before + Render(e.value) + e.after
  }

  function RenderElements(es: seq<Element>): string
    requires es != []
    decreases es, 0
  {
    if |es| == 1 then RenderElement(es[0])
    else RenderElement(es[0]) + [','] + RenderElements(es[1..])
  }

  function RenderMember(m: Member): string
    decreases m, 3
  {
    m.beforeKey + RenderStr(m.key) + m.afterKey + [':'] + RenderElement(m.elem)
  }

  function RenderMembers(ms: seq<Member>): string
    requires ms != []
    decreases ms, 0
  {
    if |ms| == 1 then RenderMember(ms[0])
    else RenderMember(ms[0]) + [','] + RenderMembers(ms[1..])
  }

  // ----- Well-formedness -----

  predicate IsBlankChar(c: char) {
    c == ' ' || c == '\t' || c == '\n' || c == '\r'
  }

  predicate IsBlank(s: string) {
    AllIn(s, IsBlankChar)
  }

  predicate IsHexDigit(c: char) {
    '0' <= c <= '9' || 'a' <= c <= 'f' || 'A' <= c <= 'F'
  }

  predicate GoodChar(c: StrChar) {
    match c
    case Plain(ch) => ch >= ' ' && ch != '"' && ch != '\\'
    case Escape(ch) => ch in "\"\\/bfnrt"
    case Unicode(hex) => |hex| == 4 && forall i | 0 <= i < 4 :: IsHexDigit(hex[i])
  }

  predicate GoodChars(cs: seq<StrChar>) {
    forall i | 0 <= i < |cs| :: GoodChar(cs[i])
  }

  // The number grammar of section 6 as a finite automaton over the number's characters.
  datatype NumState = Start | Minus | Zero | Whole | Point | Fraction | E | ESign | Exponent | Reject

  function NumStep(s: NumState, c: char): NumState {
    match s
    case Start =>
      if c == '-' then Minus else if c == '0' then Zero else if IsDigit(c) then Whole else Reject
    case Minus =>
      if c == '0' then Zero else if IsDigit(c) then Whole else Reject
    case Zero =>
      if c == '.' then Point else if c == 'e' || c == 'E' then E else Reject
    case Whole =>
      if IsDigit(c) then Whole else if c == '.' then Point else if c == 'e' || c == 'E' then E else Reject
    case Point =>
      if IsDigit(c) then Fraction else Reject
    case Fraction =>
      if IsDigit(c) then Fraction else if c == 'e' || c == 'E' then E else Reject
    case E =>
      if c == '+' || c == '-' then ESign else if IsDigit(c) then Exponent else Reject
    case ESign =>
      if IsDigit(c) then Exponent else Reject
    case Exponent =>
      if IsDigit(c) then Exponent else Reject
    case Reject =>
      Reject
  }

  function NumRun(s: NumState, text: string): NumState
    decreases text
  {
    if text == [] then s else NumRun(NumStep(s, text[0]), text[1..])
  }

  predicate IsNumber(text: string) {
    var s := NumRun(Start, text);
    s == Zero || s == Whole || s == Fraction || s == Exponent
  }

  predicate IsScalar(text: string) {
    || text == "true" || text == "false" || text == "null" || IsNumber(text)
    || text == "NaN" || text == "Infinity" || text == "-Infinity"
  }

  predicate Good(t: Tree)
    decreases t, 1
  {
    match t
    case Scalar(text) => IsScalar(text)
    case Str(cs) => GoodChars(cs)
    case Arr(blank, es) => IsBlank(blank) && (es != [] ==> blank == []) && GoodElements(es)
    case Obj(blank, ms) => IsBlank(blank) && (ms != [] ==> blank == []) && GoodMembers(ms)
  }

  predicate GoodElement(e: Element)
    decreases e, 2
  {
    IsBlank(e.before) && Good(e.value) && IsBlank(e.after)
  }

  predicate GoodElements(es: seq<Element>)
    decreases es, 0
  {
    es == [] || (GoodElement(es[0]) && GoodElements(es[1..]))
  }

  predicate GoodMember(m: Member)
    decreases m, 3
  {
    IsBlank(m.beforeKey) && GoodChars(m.key) && IsBlank(m.afterKey) && GoodElement(m.elem)
  }

  predicate GoodMembers(ms: seq<Member>)
    decreases ms, 0
  {
    ms == [] || (GoodMember(ms[0]) && GoodMembers(ms[1..]))
  }

  predicate IsObject(t: Tree) {
    t.Obj? && Good(t)
  }

  // ----- Scalars are non-empty runs of token characters -----

  predicate IsTokenChar(c: char) {
    IsDigit(c) || 'a' <= c <= 'z' || 'A' <= c <= 'Z' || c == '+' || c == '-' || c == '.'
  }

  predicate IsToken(s: string) {
    s != [] && forall i | 0 <= i < |s| :: IsTokenChar(s[i])
  }

  lemma {:induction false} RejectIsFinal(text: string)
    ensures NumRun(Reject, text) == Reject
  {
    if text != [] {
      RejectIsFinal(text[1..]);
    }
  }

  lemma {:induction false} NumberChars(s: NumState, text: string)
    requires NumRun(s, text) != Reject
    ensures forall i | 0 <= i < |text| :: IsTokenChar(text[i])
    decreases text
  {
    if text != [] {
      if NumStep(s, text[0]) == Reject {
        RejectIsFinal(text[1..]);
        assert false;
      }
      NumberChars(NumStep(s, text[0]), text[1..]);
      assert forall i | 1 <= i < |text| :: text[i] == text[1..][i - 1];
    }
  }

  lemma ScalarIsToken(text: string)
    requires IsScalar(text)
    ensures IsToken(text)
  {
    if IsNumber(text) {
      NumberChars(Start, text);
    }
  }
}
