/**
 The scanner that pulls one JSON object out of free model text (app/common/json_parsing.py), and its
 agreement with the RFC 8259 grammar.
 */
module JsonScanner {
  import opened Text

  // The scanner's three loop variables.
  datatype Scan = Scan(depth: int, inString: bool, escape: bool)

  function Outside(d: int): Scan { Scan(d, false, false) }

  function Inside(d: int): Scan { Scan(d, true, false) }

  function Step(s: Scan, c: char): Scan {
    if s.inString then
      if s.escape then s.(escape := false)
      else if c == '\\' then s.(escape := true)
      else if c == '"' then s.(inString := false)
      else s
    else if c == '"' then s.(inString := true)
    else if c == '{' then s.(depth := s.depth + 1)
    else if c == '}' then s.(depth := s.depth - 1)
    else s
  }

  function Run(s: Scan, text: string): Scan
    decreases text
  {
    if text == [] then s else Run(Step(s, text[0]), text[1..])
  }

  function Depth(text: string): int {
    Run(Outside(0), text).depth
  }

  // p is the shortest non-empty prefix of text after which every brace is closed again.
  ghost predicate ShortestClosed(text: string, p: string) {
    && p != []
    && StartsWith(text, p)
    && Depth(p) == 0
    && forall k | 0 < k < |p| :: Depth(text[..k]) != 0
  }

  ghost predicate NeverCloses(text: string) {
    forall k | 0 < k <= |text| :: Depth(text[..k]) != 0
  }

  lemma {:induction false} RunConcat(s: Scan, a: string, b: string)
    ensures Run(s, a + b) == Run(Run(s, a), b)
    decreases a
  {
    if a == [] {
      assert a + b == b;
    } else {
      assert (a + b)[1..] == a[1..] + b;
      RunConcat(Step(s, a[0]), a[1..], b);
    }
  }

  lemma RunExtend(s: Scan, text: string, k: nat)
    requires k < |text|
    ensures Run(s, text[..k + 1]) == Step(Run(s, text[..k]), text[k])
  {
    assert text[..k + 1] == text[..k] + [text[k]];
    RunConcat(s, text[..k], [text[k]]);
    assert Run(Run(s, text[..k]), [text[k]]) == Step(Run(s, text[..k]), text[k]);
  }

  // The length of the shortest closed prefix of text that is at least k long.
  function FirstClosed(text: string, k: nat): (r: Option<nat>)
    ensures r.None? ==> forall j | k <= j <= |text| :: Depth(text[..j]) != 0
    ensures r.Some? ==> k <= r.value <= |text| && Depth(text[..r.value]) == 0
    ensures r.Some? ==> forall j | k <= j < r.value :: Depth(text[..j]) != 0
    decreases |text| - k
  {
    if k > |text| then None
    else if Depth(text[..k]) == 0 then Some(k)
    else FirstClosed(text, k + 1)
  }

  // What the scanner looks for: the shortest closed text that starts at the first brace.
  function Balanced(text: string): (r: Option<string>)
    ensures '{' !in text ==> r.None?
    ensures '{' in text && r.None? ==> NeverCloses(text[Find(text, '{').value..])
    ensures r.Some? ==> '{' in text && ShortestClosed(text[Find(text, '{').value..], r.value)
  {
    match Find(text, '{')
    case None => None
    case Some(start) =>
      var rest := text[start..];
      match FirstClosed(rest, 1)
      case None => None
      case Some(n) =>
        assert forall k | 0 < k < n :: rest[..n][..k] == rest[..k];
        Some(rest[..n])
  }

  lemma BalancedIsUnique(text: string, p: string)
    requires '{' in text && ShortestClosed(text[Find(text, '{').value..], p)
    ensures Balanced(text) == Some(p)
  {
    var rest := text[Find(text, '{').value..];
    assert rest[..|p|] == p;
    assert forall k | 0 < k < |p| :: rest[..k] == p[..k];
    var r := Balanced(text);
    if r.Some? {
      assert rest[..|r.value|] == r.value;
    }
  }

  /** `_find_balanced_json_object`: the character loop. */
  method FindBalancedJsonObject(text: string) returns (r: Option<string>)
    ensures r == Balanced(text)
  {
    var found := Find(text, '{');
    if found.None? {
      return None;
    }
    var start := found.value;
    ghost var rest := text[start..];
    var depth := 0;
    var inString := false;
    var escape := false;
    for index := start to |text|
      invariant Scan(depth, inString, escape) == Run(Outside(0), rest[..index - start])
      invariant escape ==> inString
      invariant if index == start then depth == 0 && !inString else depth > 0
      invariant forall k | 0 < k <= index - start :: Depth(rest[..k]) != 0
    {
      var c := text[index];
      ghost var k := index - start;
      RunExtend(Outside(0), rest, k);
      assert index == start ==> c == '{';
      if inString {
        if escape {
          escape := false;
        } else if c == '\\' {
          escape := true;
        } else if c == '"' {
          inString := false;
        }
        continue;
      }
      if c == '"' {
        inString := true;
      } else if c == '{' {
        depth := depth + 1;
      } else if c == '}' {
        depth := depth - 1;
        if depth == 0 {
          r := Some(text[start..index + 1]);
          assert r.value == rest[..k + 1];
          assert forall j | 0 < j < k + 1 :: r.value[..j] == rest[..j];
          BalancedIsUnique(text, r.value);
          return;
        }
      }
    }
    assert rest[..|rest|] == rest;
    return None;
  }
}
