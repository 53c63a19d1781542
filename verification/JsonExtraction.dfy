/**
 `extract_json` and `looks_like_truncated_json` (app/common/json_parsing.py): stripping blanks and a
 Markdown fence, then scanning for the first object.
 */
module JsonExtraction {
  import opened Text
  import opened JsonGrammar
  import opened JsonScanner
  import opened JsonTexts

  const FENCE := "```"

  predicate IsTick(c: char) {
    c == '`'
  }

  /** `_strip_markdown_fence` */
  function StripMarkdownFence(text: string): string {
    if StartsWith(text, FENCE) then
      var stripped := RStrip(LStrip(text, IsTick), IsTick);
      match Find(stripped, '\n')
      case Some(i) => stripped[i + 1..]
      case None => stripped
    else
      text
  }

  /** `looks_like_truncated_json` */
  predicate LooksLikeTruncatedJson(raw: string) {
    var text := StripMarkdownFence(Strip(raw));
    '{' in text && Balanced(text).None?
  }

  /** The text that `extract_json` hands to the JSON decoder. */
  function ExtractTarget(raw: string): string {
    var text := StripMarkdownFence(Strip(raw));
    match Balanced(text)
    case Some(balanced) => balanced
    case None =>
      match (Find(text, '{'), RFind(text, '}'))
      case (Some(start), Some(end)) => if end > start then text[start..end + 1] else text
      case _ => text
  }

  /** The scanner finds exactly the first object, whatever precedes and follows it. */
  lemma ScannerFindsObject(lead: string, o: Tree, tail: string)
    requires '{' !in lead && IsObject(o)
    ensures Balanced(lead + Render(o) + tail) == Some(Render(o))
  {
    var p := Render(o);
    var text := lead + p + tail;
    assert text == lead + (p + tail);
    FindAfter(lead, '{', p + tail);
    ObjectCloses(o);
    assert text[|lead|..] == p + tail;
    assert (p + tail)[..|p|] == p;
    assert forall k | 0 < k < |p| :: (p + tail)[..k] == p[..k];
    BalancedIsUnique(text, p);
  }

  /** The scanner finds nothing in an object that is cut off. */
  lemma ScannerFindsNoPrefix(lead: string, o: Tree, k: nat)
    requires '{' !in lead && IsObject(o) && 0 < k < |Render(o)|
    ensures '{' in lead + Render(o)[..k]
    ensures Balanced(lead + Render(o)[..k]).None?
  {
    var p := Render(o);
    var q := p[..k];
    ObjectCloses(o);
    FindAfter(lead, '{', q);
    assert (lead + q)[|lead|] == '{';
    assert (lead + q)[|lead|..] == q;
    var r := Balanced(lead + q);
    if r.Some? {
      assert forall j | 0 < j <= |q| :: q[..j] == p[..j];
      assert false;
    }
  }

  // ----- Around the object: blanks and fences -----

  lemma LStripKeepsAbsence(s: string, p: char -> bool, c: char)
    requires c !in s
    ensures c !in LStrip(s, p)
  {
    LStripSplits(s, p);
  }

  lemma NotFenced(lead: string, rest: string)
    requires !StartsWith(lead, FENCE) && rest != [] && rest[0] == '{'
    ensures !StartsWith(lead + rest, FENCE)
  {
    var text := lead + rest;
    assert text[|lead|] == '{';
    assert |lead| >= 3 ==> text[..3] == lead[..3];
    assert |lead| < 3 && |text| >= 3 ==> text[..3][|lead|] == '{';
  }

  // Stripping backticks around a text that begins and ends with other characters.
  lemma {:induction false} StripTicks(open: string, middle: string, tail: string)
    requires middle != [] && middle[0] != '`' && middle[|middle| - 1] != '`'
    ensures RStrip(LStrip(open + (middle + tail), IsTick), IsTick)
         == LStrip(open, IsTick) + (middle + RStrip(tail, IsTick))
  {
    LStripConcat(open, middle + tail, IsTick);
    var front := LStrip(open, IsTick) + middle;
    assert LStrip(open, IsTick) + (middle + tail) == front + tail;
    assert front[|front| - 1] == middle[|middle| - 1];
    RStripConcat(front, tail, IsTick);
    assert front + RStrip(tail, IsTick) == LStrip(open, IsTick) + (middle + RStrip(tail, IsTick));
  }

  lemma FenceBody(text: string, head: string, rest: string)
    requires StartsWith(text, FENCE)
    requires RStrip(LStrip(text, IsTick), IsTick) == head + rest
    requires '\n' !in head && rest != [] && rest[0] == '\n'
    ensures StripMarkdownFence(text) == rest[1..]
  {
    FindAfter(head, '\n', rest);
    assert (head + rest)[|head| + 1..] == rest[1..];
  }

  lemma {:induction false} StripOpened(open: string, middle: string, tail: string)
    requires StartsWith(open, FENCE) && '\n' !in open
    requires middle != [] && middle[0] == '\n' && middle[|middle| - 1] != '`'
    ensures StripMarkdownFence(open + (middle + tail)) == middle[1..] + RStrip(tail, IsTick)
  {
    var text, rest := open + (middle + tail), middle + RStrip(tail, IsTick);
    assert text[..|FENCE|] == open[..|FENCE|];
    LStripKeepsAbsence(open, IsTick, '\n');
    StripTicks(open, middle, tail);
    FenceBody(text, LStrip(open, IsTick), rest);
    assert rest[1..] == middle[1..] + RStrip(tail, IsTick);
  }

  // What a fenced text that ends in a character other than a backtick is reduced to.
  lemma {:induction false} StripFenced(tag: string, body: string, tail: string)
    requires '\n' !in tag
    requires body != [] && body[|body| - 1] != '`'
    ensures StripMarkdownFence(FENCE + tag + "\n" + body + tail) == body + RStrip(tail, IsTick)
  {
    var open, middle := FENCE + tag, "\n" + body;
    assert FENCE + tag + "\n" + body + tail == open + (middle + tail);
    assert open[..|FENCE|] == FENCE && middle[1..] == body;
    StripOpened(open, middle, tail);
  }

  // ----- extract_json -----

  lemma ExtractStripped(lead: string, p: string, tail: string)
    requires !StartsWith(lead, FENCE) && p != [] && p[0] == '{'
    ensures StripMarkdownFence(lead + p + tail) == lead + p + tail
  {
    assert lead + p + tail == lead + (p + tail);
    NotFenced(lead, p + tail);
  }

  /** An object in unfenced text reaches the decoder unchanged, whatever surrounds it, and is not taken for cut off. */
  lemma ExtractUnfenced(lead: string, o: Tree, tail: string)
    requires '{' !in lead && !StartsWith(LStrip(lead, IsSpace), FENCE)
    requires IsObject(o)
    ensures ExtractTarget(lead + Render(o) + tail) == Render(o) && !LooksLikeTruncatedJson(lead + Render(o) + tail)
  {
    var p := Render(o);
    StripAround(lead, p, tail);
    var lead', tail' := LStrip(lead, IsSpace), RStrip(tail, IsSpace);
    LStripKeepsAbsence(lead, IsSpace, '{');
    ExtractStripped(lead', p, tail');
    ScannerFindsObject(lead', o, tail');
  }

  /**
   An object inside a Markdown fence reaches the decoder unchanged, whatever the tag on the opening
   line is, whatever follows the object, and whether or not the fence is closed.
   */
  lemma ExtractFenced(blank: string, tag: string, lead: string, o: Tree, tail: string)
    requires AllIn(blank, IsSpace) && '\n' !in tag && '{' !in lead
    requires IsObject(o)
    ensures ExtractTarget(blank + FENCE + tag + "\n" + lead + Render(o) + tail) == Render(o)
    ensures !LooksLikeTruncatedJson(blank + FENCE + tag + "\n" + lead + Render(o) + tail)
  {
    var p := Render(o);
    var front := FENCE + tag + "\n" + lead + p;
    assert blank + FENCE + tag + "\n" + lead + p + tail == blank + front + tail;
    assert front[0] == '`' && front[|front| - 1] == p[|p| - 1];
    StripAround(blank, front, tail);
    LStripBlank(blank);
    var tail' := RStrip(tail, IsSpace);
    assert [] + front + tail' == FENCE + tag + "\n" + (lead + p) + tail';
    assert (lead + p)[|lead + p| - 1] == p[|p| - 1];
    StripFenced(tag, lead + p, tail');
    ScannerFindsObject(lead, o, RStrip(tail', IsTick));
  }

  /** Where nothing closes, the decoder gets what stands from the first "{" to the last "}" behind it. */
  lemma {:induction false} FallbackSpans(raw: string, before: string, middle: string, after: string)
    requires StripMarkdownFence(Strip(raw)) == before + ("{" + middle + "}") + after
    requires '{' !in before && '}' !in after && Balanced(StripMarkdownFence(Strip(raw))).None?
    ensures ExtractTarget(raw) == "{" + middle + "}"
  {
    var text, span := StripMarkdownFence(Strip(raw)), "{" + middle + "}";
    assert text == before + (span + after) == (before + ("{" + middle)) + (['}'] + after);
    FindAfter(before, '{', span + after);
    RFindBefore(before + ("{" + middle), '}', after);
    var last := |before| + |span| - 1;
    assert text[|before|..last + 1] == span;
  }

  // And the whole of it where there is no such pair.
  lemma {:induction false} FallbackWhole(raw: string)
    requires Balanced(StripMarkdownFence(Strip(raw))).None?
    requires var text := StripMarkdownFence(Strip(raw));
             forall i, j | 0 <= i < j < |text| :: !(text[i] == '{' && text[j] == '}')
    ensures ExtractTarget(raw) == StripMarkdownFence(Strip(raw))
  {
  }

  // ----- looks_like_truncated_json -----

  // Stripping the right of a cut-off object, after any lead-in, leaves a cut-off object.
  lemma CutStaysCut(lead: string, q: string, p: char -> bool)
    requires q != [] && !p(q[0])
    ensures exists j :: 0 < j <= |q| && RStrip(lead + q, p) == lead + q[..j]
  {
    var front, rest := lead + [q[0]], q[1..];
    assert lead + q == front + rest;
    RStripConcat(front, rest, p);
    RStripSplits(rest, p);
    var j := |RStrip(rest, p)| + 1;
    assert front + rest[..j - 1] == lead + q[..j];
  }

  /** An unfenced object that is cut off anywhere is reported as truncated. */
  lemma {:induction false} TruncatedUnfenced(lead: string, o: Tree, k: nat)
    requires '{' !in lead && !StartsWith(LStrip(lead, IsSpace), FENCE)
    requires IsObject(o) && 0 < k < |Render(o)|
    ensures LooksLikeTruncatedJson(lead + Render(o)[..k])
  {
    var q := Render(o)[..k];
    LStripConcat(lead, q, IsSpace);
    LStripKeepsAbsence(lead, IsSpace, '{');
    var lead' := LStrip(lead, IsSpace);
    CutStaysCut(lead', q, IsSpace);
    var j :| 0 < j <= |q| && RStrip(lead' + q, IsSpace) == lead' + q[..j];
    assert q[..j] == Render(o)[..j];
    NotFenced(lead', q[..j]);
    ScannerFindsNoPrefix(lead', o, j);
  }

  lemma StripFencedCut(tag: string, lead: string, r: string)
    requires '\n' !in tag && r != [] && r[0] == '{'
    ensures StripMarkdownFence(FENCE + tag + "\n" + lead + r) == RStrip(lead + r, IsTick)
  {
    var body := lead + [r[0]];
    assert FENCE + tag + "\n" + lead + r == FENCE + tag + "\n" + body + r[1..];
    StripFenced(tag, body, r[1..]);
    assert lead + r == body + r[1..];
    RStripConcat(body, r[1..], IsTick);
  }

  // Blanks in front of a fence do not matter.
  lemma {:induction false} BlanksBeforeFence(blank: string, text: string)
    requires AllIn(blank, IsSpace) && text != [] && text[0] == '`'
    ensures Strip(blank + text) == Strip(text)
  {
    LStripConcat(blank, text, IsSpace);
    LStripBlank(blank);
    assert [] + text == text;
    assert LStrip(text, IsSpace) == text;
  }

  lemma {:induction false} CutAfterOpening(tag: string, lead: string, o: Tree, k: nat)
    requires '\n' !in tag && '{' !in lead
    requires IsObject(o) && 0 < k < |Render(o)|
    ensures LooksLikeTruncatedJson(FENCE + tag + "\n" + lead + Render(o)[..k])
  {
    var q := Render(o)[..k];
    var open := FENCE + tag + "\n" + lead;
    assert LStrip(open + q, IsSpace) == open + q;
    CutStaysCut(open, q, IsSpace);
    var j :| 0 < j <= |q| && RStrip(open + q, IsSpace) == open + q[..j];
    var r := q[..j];
    StripFencedCut(tag, lead, r);
    CutStaysCut(lead, r, IsTick);
    var i :| 0 < i <= |r| && RStrip(lead + r, IsTick) == lead + r[..i];
    assert r[..i] == Render(o)[..i];
    ScannerFindsNoPrefix(lead, o, i);
  }

  /** So is an object cut off after the opening line of a fence, with any blanks before the fence. */
  lemma {:induction false} TruncatedFenced(blank: string, tag: string, lead: string, o: Tree, k: nat)
    requires AllIn(blank, IsSpace) && '\n' !in tag && '{' !in lead
    requires IsObject(o) && 0 < k < |Render(o)|
    ensures LooksLikeTruncatedJson(blank + (FENCE + tag + "\n" + lead + Render(o)[..k]))
  {
    BlanksBeforeFence(blank, FENCE + tag + "\n" + lead + Render(o)[..k]);
    CutAfterOpening(tag, lead, o, k);
  }

  // ----- A fence without a line break -----

  // What is left of a cut-off object at the end of a fenced text.
  function CutLeft(q: string): string {
    RStrip(RStrip(q, IsSpace), IsTick)
  }

  lemma {:induction false} StripInlineBlanks(tag: string, q: string)
    requires q != [] && q[0] == '{'
    ensures var q1 := RStrip(q, IsSpace);
            && q1 != [] && q1[0] == '{' && q1 <= q
            && Strip(FENCE + tag + q) == FENCE + tag + q1 && StartsWith(FENCE + tag + q1, FENCE)
  {
    assert LStrip(FENCE + tag + q, IsSpace) == FENCE + tag + q;
    RStripAfter(FENCE + tag, q, IsSpace);
    assert (FENCE + tag + RStrip(q, IsSpace))[..3] == FENCE;
  }

  lemma {:induction false} FindFirst(open: string, q: string, c: char, i: nat)
    requires i < |q| && q[i] == c && c !in open && c !in q[..i]
    ensures Find(open + q, c) == Some(|open| + i) && (open + q)[|open| + i + 1..] == q[i + 1..]
  {
    FindAfter(open + q[..i], c, q[i..]);
    assert open + q[..i] + q[i..] == open + q;
  }

  lemma {:induction false} FindBehind(open: string, q: string, c: char)
    requires c !in open
    ensures c !in q ==> Find(open + q, c) == None
    ensures c in q ==> var i := Find(q, c).value;
                       Find(open + q, c) == Some(|open| + i) && (open + q)[|open| + i + 1..] == q[i + 1..]
  {
    if c in q {
      FindFirst(open, q, c, Find(q, c).value);
    }
  }

  // The first line break of the object is taken for the end of the fence's opening line.
  lemma {:induction false} StripInlineFence(tag: string, q: string)
    requires '\n' !in tag && q != [] && q[0] == '{'
    ensures CutLeft(q) != [] && CutLeft(q) <= q
    ensures StripMarkdownFence(Strip(FENCE + tag + q)) ==
            match Find(CutLeft(q), '\n')
            case None => LStrip(FENCE + tag, IsTick) + CutLeft(q)
            case Some(i) => CutLeft(q)[i + 1..]
  {
    var open, q1 := LStrip(FENCE + tag, IsTick), RStrip(q, IsSpace);
    StripInlineBlanks(tag, q);
    LStripConcat(FENCE + tag, q1, IsTick);
    RStripAfter(open, q1, IsTick);
    LStripKeepsAbsence(FENCE + tag, IsTick, '\n');
    FindBehind(open, CutLeft(q), '\n');
  }

  // The text behind the first line break of q.
  function Behind(q: string): string
    requires '\n' in q
  {
    q[Find(q, '\n').value + 1..]
  }

  // Some brace opens after the first line break, and nothing from there on closes it.
  ghost predicate OpensAfterBreak(q: string)
    requires '\n' in q
  {
    var body := Behind(q);
    '{' in body && NeverCloses(body[Find(body, '{').value..])
  }

  lemma {:induction false} ReportedBody(raw: string, body: string)
    requires StripMarkdownFence(Strip(raw)) == body
    ensures LooksLikeTruncatedJson(raw) <==> '{' in body && Balanced(body).None?
  {
  }

  lemma {:induction false} ReportedAfterBreak(tag: string, p: string)
    requires '\n' !in tag && p != [] && p[0] == '{' && '\n' in CutLeft(p)
    ensures LooksLikeTruncatedJson(FENCE + tag + p) <==> OpensAfterBreak(CutLeft(p))
  {
    var body := Behind(CutLeft(p));
    StripInlineFence(tag, p);
    ReportedBody(FENCE + tag + p, body);
  }

  lemma {:induction false} CutFromLeadIsOpen(lead: string, o: Tree, q: string)
    requires '{' !in lead && IsObject(o) && q != [] && q <= Render(o) && |q| < |Render(o)|
    ensures '{' in lead + q && Balanced(lead + q).None?
  {
    assert q == Render(o)[..|q|];
    ScannerFindsNoPrefix(lead, o, |q|);
  }

  /**
   An object cut off in a fence without a line break of its own is reported exactly when no line break of
   the object is left, or a brace opens after the first one and nothing closes it.
   */
  lemma {:induction false} TruncatedInlineFence(blank: string, tag: string, o: Tree, k: nat)
    requires AllIn(blank, IsSpace) && '\n' !in tag && '{' !in tag
    requires IsObject(o) && 0 < k < |Render(o)|
    ensures var q := CutLeft(Render(o)[..k]);
            LooksLikeTruncatedJson(blank + (FENCE + tag + Render(o)[..k])) <==> '\n' !in q || OpensAfterBreak(q)
  {
    BlanksBeforeFence(blank, FENCE + tag + Render(o)[..k]);
    var q := CutLeft(Render(o)[..k]);
    StripInlineFence(tag, Render(o)[..k]);
    if '\n' in q {
      ReportedAfterBreak(tag, Render(o)[..k]);
    } else {
      LStripKeepsAbsence(FENCE + tag, IsTick, '{');
      CutFromLeadIsOpen(LStrip(FENCE + tag, IsTick), o, q);
    }
  }

  /** So a fence on one line is always reported... */
  lemma {:induction false} TruncatedOnOneLine(blank: string, tag: string, o: Tree, k: nat)
    requires AllIn(blank, IsSpace) && '\n' !in tag && '{' !in tag
    requires IsObject(o) && 0 < k < |Render(o)| && '\n' !in Render(o)[..k]
    ensures LooksLikeTruncatedJson(blank + (FENCE + tag + Render(o)[..k]))
  {
    StripInlineFence(tag, Render(o)[..k]);
    TruncatedInlineFence(blank, tag, o, k);
  }

  lemma {:induction false} AfterBreak(head: string, rest: string)
    requires '\n' !in head
    ensures var q := head + ("\n" + rest);
            '\n' in q && q[Find(q, '\n').value + 1..] == rest
  {
    FindAfter(head, '\n', "\n" + rest);
    assert (head + ("\n" + rest))[|head| + 1..] == rest;
  }

  /** ... one whose object breaks the line with no brace behind it never is... */
  lemma {:induction false} TruncatedWithoutBrace(blank: string, tag: string, o: Tree, k: nat,
                                                 head: string, rest: string)
    requires AllIn(blank, IsSpace) && '\n' !in tag && '{' !in tag && IsObject(o) && 0 < k < |Render(o)|
    requires CutLeft(Render(o)[..k]) == head + ("\n" + rest) && '\n' !in head && '{' !in rest
    ensures !LooksLikeTruncatedJson(blank + (FENCE + tag + Render(o)[..k]))
  {
    TruncatedInlineFence(blank, tag, o, k);
    AfterBreak(head, rest);
  }

  /** ... and one with a nested object behind the break is, exactly when that object is cut off too. */
  lemma {:induction false} TruncatedBeforeNested(blank: string, tag: string, o: Tree, k: nat,
                                                 head: string, lead: string,
                                                 inner: Tree, j: nat, tail: string)
    requires AllIn(blank, IsSpace) && '\n' !in tag && '{' !in tag && IsObject(o) && 0 < k < |Render(o)|
    requires IsObject(inner) && 0 < j <= |Render(inner)| && (j < |Render(inner)| ==> tail == "")
    requires '\n' !in head && '{' !in lead
    requires CutLeft(Render(o)[..k]) == head + ("\n" + (lead + Render(inner)[..j] + tail))
    ensures LooksLikeTruncatedJson(blank + (FENCE + tag + Render(o)[..k])) <==> j < |Render(inner)|
  {
    var body := lead + Render(inner)[..j] + tail;
    TruncatedInlineFence(blank, tag, o, k);
    AfterBreak(head, body);
    if j < |Render(inner)| {
      ScannerFindsNoPrefix(lead, inner, j);
      assert body == lead + Render(inner)[..j];
    } else {
      ScannerFindsObject(lead, inner, tail);
      assert Render(inner)[..j] == Render(inner);
    }
  }

  // The object {"": <newline> []}, and its text up to the opening bracket.
  const SPLIT_OBJECT := Obj("", [Member("", [], "", Element("\n", Arr("", []), ""))])

  const SPLIT_TEXT := "{\"\":\n["

  // An input that goes unnoticed.
  lemma TruncatedFenceWithoutLineBreak()
    ensures IsObject(SPLIT_OBJECT) && 6 < |Render(SPLIT_OBJECT)|
    ensures !LooksLikeTruncatedJson(FENCE + Render(SPLIT_OBJECT)[..6])
  {
    assert SPLIT_TEXT == "{\"\":" + ("\n" + "[");
    assert CutLeft(SPLIT_TEXT) == SPLIT_TEXT;
    assert "" + (FENCE + "" + SPLIT_TEXT) == FENCE + SPLIT_TEXT;
    TruncatedWithoutBrace("", "", SPLIT_OBJECT, 6, "{\"\":", "[");
  }
}
