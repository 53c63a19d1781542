/**
 The rename commands for timers and stopwatches (app/timers/parsing.py): normalising the message, then
 three patterns in turn.  The patterns need no backtracking: what follows a greedy run can never begin
 with one of its characters.  Matching is case-insensitive on ASCII letters.
 */
module Rename {
  import opened Text

  // ----- normalize_rename_command_message -----

  function PlainQuote(c: char): char {
    if c == '\U{201c}' || c == '\U{201d}' then '"'
    else if c == '\U{2018}' || c == '\U{2019}' then '\''
    else c
  }

  function PlainQuotes(s: string): string {
    seq(|s|, i requires 0 <= i < |s| => PlainQuote(s[i]))
  }

  predicate IsStop(c: char) {
    c == '.' || c == '!'
  }

  function TrimStops(s: string): string
    decreases |s|
  {
    if s == [] || !IsStop(s[|s| - 1]) then s
    else
      RStripSplits(s[..|s| - 1], IsSpace);
      TrimStops(RStrip(s[..|s| - 1], IsSpace))
  }

  function Normalize(message: string): string {
    TrimStops(PlainQuotes(Strip(message)))
  }

  method NormalizeRenameCommand(message: string) returns (normalized: string)
    ensures normalized == Normalize(message)
  {
    normalized := PlainQuotes(Strip(message));
    while normalized != [] && IsStop(normalized[|normalized| - 1])
      invariant TrimStops(normalized) == Normalize(message)
      decreases |normalized|
    {
      RStripSplits(normalized[..|normalized| - 1], IsSpace);
      normalized := RStrip(normalized[..|normalized| - 1], IsSpace);
    }
  }

  // ----- The patterns -----

  datatype Piece =
    | Lit(text: string)   // the letters of text, in either case
    | Gap                 // \s+
    | OptGap              // \s*
    | Num                 // (\d+)
    | Body                // ([^"]+)
    | Rest                // (.+?)\s*

  function SpanLength(s: string, p: char -> bool): (n: nat)
    ensures n <= |s| && AllIn(s[..n], p)
    ensures n < |s| ==> !p(s[n])
  {
    if s != [] && p(s[0]) then
      assert s == [s[0]] + s[1..];
      1 + SpanLength(s[1..], p)
    else 0
  }

  predicate NotQuote(c: char) {
    c != '"'
  }

  // The groups captured when the pieces match all of s.
  function Match(ps: seq<Piece>, s: string): Option<seq<string>>
    decreases ps
  {
    if ps == [] then (if s == [] then Some([]) else None)
    else match ps[0]
      case Lit(text) =>
        if |text| <= |s| && Lower(s[..|text|]) == text then Match(ps[1..], s[|text|..]) else None
      case Gap =>
        var n := SpanLength(s, IsSpace);
        if n > 0 then Match(ps[1..], s[n..]) else None
      case OptGap =>
        Match(ps[1..], s[SpanLength(s, IsSpace)..])
      case Num =>
        Capture(ps, s, SpanLength(s, IsDigit))
      case Body =>
        Capture(ps, s, SpanLength(s, NotQuote))
      case Rest =>
        var rest := RStrip(s, IsSpace);
        if rest != [] && '\n' !in rest && ps[1..] == [] then Some([rest]) else None
  }

  function Capture(ps: seq<Piece>, s: string, n: nat): Option<seq<string>>
    requires ps != [] && n <= |s|
    decreases ps, 0
  {
    if n == 0 then None
    else match Match(ps[1..], s[n..])
      case None => None
      case Some(groups) => Some([s[..n]] + groups)
  }

  const QUOTED: seq<Piece> := [Lit("\""), Body, Lit("\""), OptGap]

  function Prefix(noun: string): seq<Piece> {
    [Lit("rename"), Gap, Lit(noun), Gap, Num, Gap, Lit("to"), Gap]
  }

  function ByIdQuoted(noun: string): seq<Piece> {
    Prefix(noun) + QUOTED
  }

  function ByIdUnquoted(noun: string): seq<Piece> {
    Prefix(noun) + [Rest]
  }

  const LABELS: seq<Piece> := [Lit("\""), Body, Lit("\"")] + ([Gap, Lit("to"), Gap] + QUOTED)

  function ByLabel(noun: string): seq<Piece> {
    [Lit("rename"), Gap, Lit("the"), Gap, Lit(noun), Gap] + LABELS
  }

  datatype Args =
    | ForId(id: nat, newName: string)
    | ForName(name: string, newName: string)

  function IdArgs(groups: seq<string>): Option<Args> {
    if |groups| == 2 && AllIn(groups[0], IsDigit) then Some(ForId(ParseDecimal(groups[0]), Strip(groups[1]))) else None
  }

  function NameArgs(groups: seq<string>): Option<Args> {
    if |groups| == 2 then Some(ForName(Strip(groups[0]), Strip(groups[1]))) else None
  }

  // The patterns in turn.
  function ParseNormalized(normalized: string, noun: string): Option<Args> {
    match Match(ByIdQuoted(noun), normalized)
    case Some(groups) => IdArgs(groups)
    case None =>
      match Match(ByIdUnquoted(noun), normalized)
      case Some(groups) => IdArgs(groups)
      case None =>
        match Match(ByLabel(noun), normalized)
        case Some(groups) => NameArgs(groups)
        case None => None
  }

  /** `parse_timer_rename_args` and `parse_stopwatch_rename_args` */
  function ParseRename(message: string, noun: string): Option<Args> {
    ParseNormalized(Normalize(message), noun)
  }

  // ----- One matching step at a time -----

  lemma {:induction false} StepLit(ps: seq<Piece>, a: string, b: string)
    requires ps != [] && ps[0].Lit? && Lower(a) == ps[0].text
    ensures Match(ps, a + b) == Match(ps[1..], b)
  {
    assert |Lower(a)| == |a|;
    assert (a + b)[..|a|] == a && (a + b)[|a|..] == b;
  }

  lemma {:induction false} StepGap(ps: seq<Piece>, b: string)
    requires ps != [] && ps[0].Gap? && (b == [] || !IsSpace(b[0]))
    ensures Match(ps, " " + b) == Match(ps[1..], b)
  {
    assert (" " + b)[1..] == b;
  }

  // The groups of a match, with one more in front.
  function Before(group: string, groups: Option<seq<string>>): Option<seq<string>> {
    if groups.None? then None else Some([group] + groups.value)
  }

  lemma {:induction false} StepNum(ps: seq<Piece>, a: string, b: string)
    requires ps != [] && ps[0].Num? && a != [] && AllIn(a, IsDigit) && (b == [] || !IsDigit(b[0]))
    ensures Match(ps, a + b) == Before(a, Match(ps[1..], b))
  {
    assert (a + b)[..|a|] == a && (a + b)[|a|..] == b;
  }

  lemma {:induction false} StepBody(ps: seq<Piece>, a: string, b: string)
    requires ps != [] && ps[0].Body? && a != [] && AllIn(a, NotQuote) && (b == [] || !NotQuote(b[0]))
    requires Match(ps[1..], b).Some?
    ensures Match(ps, a + b) == Some([a] + Match(ps[1..], b).value)
  {
    assert (a + b)[..|a|] == a && (a + b)[|a|..] == b;
  }

  // ----- The command's text -----

  function Quoted(name: string): string {
    "\"" + (name + "\"")
  }

  // What precedes the new label: to x, <id> to x, Rename <noun> <id> to x.
  function ToText(x: string): string {
    " " + ("to" + (" " + x))
  }

  function IdToText(id: nat, x: string): string {
    " " + (Decimal(id) + ToText(x))
  }

  function Command(noun: string, id: nat, x: string): string {
    "Rename" + (" " + (noun + IdToText(id, x)))
  }

  // Rename the <noun> x to y
  function LabelCommand(noun: string, x: string, y: string): string {
    "Rename" + (" " + ("the" + (" " + (noun + (" " + (x + ToText(y)))))))
  }

  predicate IsLowerLetter(c: char) {
    'a' <= c <= 'z'
  }

  // The quote characters that end a label or are rewritten before matching.
  predicate IsQuoteMark(c: char) {
    c == '"' || PlainQuote(c) != c
  }

  ghost predicate GoodName(name: string) {
    name != [] && forall i | 0 <= i < |name| :: !IsQuoteMark(name[i])
  }

  lemma {:induction false} MatchQuoted(name: string)
    requires GoodName(name)
    ensures Match(QUOTED, Quoted(name)) == Some([name])
  {
    var ps := [Lit("\""), Body, Lit("\""), OptGap];
    assert ps[1..] == [Body, Lit("\""), OptGap] && ps[1..][1..] == [Lit("\""), OptGap];
    assert [Lit("\""), OptGap][1..] == [OptGap] && [OptGap][1..] == [];
    assert Match([], "") == Some([]);
    assert Match([OptGap], "") == Match([], "") by {
      assert ""[SpanLength("", IsSpace)..] == "";
    }
    assert Lower("\"") == "\"";
    assert "\"" + "" == "\"";
    StepLit([Lit("\""), OptGap], "\"", "");
    StepBody(ps[1..], name, "\"");
    StepLit(ps, "\"", name + "\"");
    assert [name] + [] == [name];
  }

  lemma {:induction false} StepGapLit(ps: seq<Piece>, a: string, b: string)
    requires |ps| >= 2 && ps[0].Gap? && ps[1].Lit? && Lower(a) == ps[1].text
    requires a != [] && !IsSpace(a[0])
    ensures Match(ps, " " + (a + b)) == Match(ps[2..], b)
  {
    StepGap(ps, a + b);
    StepLit(ps[1..], a, b);
    assert ps[1..][1..] == ps[2..];
  }

  lemma {:induction false} MatchTo(qs: seq<Piece>, x: string)
    requires x != [] && !IsSpace(x[0])
    ensures Match([Gap, Lit("to"), Gap] + qs, ToText(x)) == Match(qs, x)
  {
    var ps := [Gap, Lit("to"), Gap] + qs;
    assert Lower("to") == "to";
    StepGapLit(ps, "to", " " + x);
    StepGap(ps[2..], x);
    assert ps[2..][1..] == qs;
  }

  lemma {:induction false} MatchIdTo(ps: seq<Piece>, qs: seq<Piece>, id: nat, x: string)
    requires x != [] && !IsSpace(x[0]) && ps == [Gap, Num] + ([Gap, Lit("to"), Gap] + qs)
    ensures Match(ps, IdToText(id, x)) == Before(Decimal(id), Match(qs, x))
  {
    var d := Decimal(id);
    assert ps[1..][1..] == [Gap, Lit("to"), Gap] + qs;
    MatchTo(qs, x);
    StepNum(ps[1..], d, ToText(x));
    assert IsDigit(d[0]);
    StepGap(ps, d + ToText(x));
  }

  lemma {:induction false} StepTwoWords(ps: seq<Piece>, a: string, b: string, rest: string)
    requires |ps| >= 3 && ps[0].Lit? && ps[1].Gap? && ps[2].Lit? && Lower(a) == ps[0].text && Lower(b) == ps[2].text
    requires b != [] && !IsSpace(b[0])
    ensures Match(ps, a + (" " + (b + rest))) == Match(ps[3..], rest)
  {
    StepLit(ps, a, " " + (b + rest));
    StepGapLit(ps[1..], b, rest);
    assert ps[1..][2..] == ps[3..];
  }

  lemma NounIsLower(noun: string)
    requires noun != [] && AllIn(noun, IsLowerLetter)
    ensures Lower(noun) == noun && !IsSpace(noun[0]) && Lower("Rename") == "rename" && Lower("the") == "the"
  {
    assert IsLowerLetter(noun[0]);
  }

  // A command is matched as far as its new label, and the rest decides.
  lemma {:induction false} MatchCommand(noun: string, qs: seq<Piece>, id: nat, x: string)
    requires x != [] && !IsSpace(x[0]) && noun != [] && AllIn(noun, IsLowerLetter)
    ensures Match(Prefix(noun) + qs, Command(noun, id, x)) == Before(Decimal(id), Match(qs, x))
  {
    var ps := Prefix(noun) + qs;
    assert ps[3..] == [Gap, Num] + ([Gap, Lit("to"), Gap] + qs);
    MatchIdTo(ps[3..], qs, id, x);
    NounIsLower(noun);
    StepTwoWords(ps, "Rename", noun, IdToText(id, x));
  }

  // ----- Normalising -----

  predicate IsTail(c: char) {
    c == '.' || c == '!' || IsSpace(c)
  }

  lemma {:induction false} TrimOnce(front: string, t: string)
    requires t != [] && IsStop(t[|t| - 1])
    ensures TrimStops(front + t) == TrimStops(RStrip(front + t[..|t| - 1], IsSpace))
  {
    assert (front + t)[|front + t| - 1] == t[|t| - 1];
    assert (front + t)[..|front + t| - 1] == front + t[..|t| - 1];
  }

  // Trailing stops and blanks in any mix disappear, once the last blanks are gone.
  lemma {:induction false} TrimTail(front: string, tail: string)
    requires front != [] && !IsTail(front[|front| - 1]) && AllIn(tail, IsTail)
    ensures TrimStops(front + RStrip(tail, IsSpace)) == front
    decreases |tail|
  {
    RStripSplits(tail, IsSpace);
    var t := RStrip(tail, IsSpace);
    if t == [] {
      assert front + t == front;
    } else {
      assert t[|t| - 1] == tail[|t| - 1];
      TrimOnce(front, t);
      RStripConcat(front, t[..|t| - 1], IsSpace);
      TrimTail(front, t[..|t| - 1]);
    }
  }

  predicate IsPlainQuoted(c: char) {
    PlainQuote(c) == c
  }

  lemma {:induction false} PlainStays(s: string)
    requires AllIn(s, IsPlainQuoted)
    ensures PlainQuotes(s) == s
  {
  }

  lemma {:induction false} PlainConcat(a: string, b: string)
    ensures PlainQuotes(a + b) == PlainQuotes(a) + PlainQuotes(b)
  {
  }

  // Plain text in front stays.
  lemma {:induction false} PlainFront(a: string, b: string)
    requires AllIn(a, IsPlainQuoted)
    ensures PlainQuotes(a + b) == a + PlainQuotes(b)
  {
    PlainConcat(a, b);
    PlainStays(a);
  }

  lemma {:induction false} StripCommand(blank: string, c: string, tail: string)
    requires AllIn(blank, IsSpace)
    requires c != [] && !IsSpace(c[0]) && !IsSpace(c[|c| - 1])
    ensures Strip(blank + c + tail) == c + RStrip(tail, IsSpace)
  {
    StripAround(blank, c, tail);
    LStripBlank(blank);
    assert [] + c + RStrip(tail, IsSpace) == c + RStrip(tail, IsSpace);
  }

  lemma {:induction false} TailIsPlain(tail: string)
    requires AllIn(tail, IsTail)
    ensures AllIn(RStrip(tail, IsSpace), IsPlainQuoted)
  {
    RStripSplits(tail, IsSpace);
    var t := RStrip(tail, IsSpace);
    assert forall i | 0 <= i < |t| :: t[i] == tail[i];
  }

  // Normalising drops what stands around a command and makes its quotes plain.
  lemma {:induction false} NormalizeCommand(blank: string, c: string, tail: string)
    requires AllIn(blank, IsSpace) && AllIn(tail, IsTail)
    requires c != [] && !IsSpace(c[0]) && !IsTail(c[|c| - 1])
    ensures Normalize(blank + c + tail) == PlainQuotes(c)
  {
    StripCommand(blank, c, tail);
    TailIsPlain(tail);
    PlainConcat(c, RStrip(tail, IsSpace));
    PlainStays(RStrip(tail, IsSpace));
    TrimTail(PlainQuotes(c), tail);
  }

  lemma {:induction false} EndsLike(a: string, b: string)
    requires b != []
    ensures (a + b)[|a + b| - 1] == b[|b| - 1]
  {
  }

  lemma {:induction false} ToTextNormal(x: string)
    requires x != []
    ensures PlainQuotes(ToText(x)) == ToText(PlainQuotes(x)) && ToText(x)[|ToText(x)| - 1] == x[|x| - 1]
  {
    PlainFront(" ", x);
    PlainFront("to", " " + x);
    PlainFront(" ", "to" + (" " + x));
    EndsLike(" ", x);
    EndsLike("to", " " + x);
    EndsLike(" ", "to" + (" " + x));
  }

  lemma {:induction false} CommandNormal(noun: string, id: nat, x: string)
    requires x != [] && AllIn(noun, IsLowerLetter)
    ensures var c := Command(noun, id, x);
            PlainQuotes(c) == Command(noun, id, PlainQuotes(x)) && c[0] == 'R' && c[|c| - 1] == x[|x| - 1]
  {
    var d, end := Decimal(id), ToText(x);
    ToTextNormal(x);
    assert AllIn(d, IsPlainQuoted) && AllIn(noun, IsPlainQuoted);
    PlainFront(d, end);
    PlainFront(" ", d + end);
    PlainFront(noun, IdToText(id, x));
    PlainFront(" ", noun + IdToText(id, x));
    PlainFront("Rename", " " + (noun + IdToText(id, x)));
    EndsLike(d, end);
    EndsLike(" ", d + end);
    EndsLike(noun, IdToText(id, x));
    EndsLike(" ", noun + IdToText(id, x));
    EndsLike("Rename", " " + (noun + IdToText(id, x)));
  }

  lemma {:induction false} CommandIsNormal(noun: string, id: nat, x: string, blank: string, tail: string)
    requires AllIn(noun, IsLowerLetter) && AllIn(blank, IsSpace) && AllIn(tail, IsTail)
    requires x != [] && !IsTail(x[|x| - 1])
    ensures Normalize(blank + Command(noun, id, x) + tail) == Command(noun, id, PlainQuotes(x))
  {
    CommandNormal(noun, id, x);
    NormalizeCommand(blank, Command(noun, id, x), tail);
  }

  // x puts a label in double quotes, straight or curly; single curly quotes inside are read as straight ones.
  ghost predicate QuotedAs(x: string, name: string) {
    && name != [] && |x| == |name| + 2
    && x[0] in {'"', '\U{201c}', '\U{201d}'} && x[|x| - 1] in {'"', '\U{201c}', '\U{201d}'}
    && forall i | 0 <= i < |name| ::
         && x[i + 1] !in {'"', '\U{201c}', '\U{201d}'}
         && name[i] == if x[i + 1] in {'\U{2018}', '\U{2019}'} then '\'' else x[i + 1]
  }

  lemma {:induction false} QuotedNormal(x: string, name: string)
    requires QuotedAs(x, name)
    ensures PlainQuotes(x) == Quoted(name) && GoodName(name) && !IsTail(x[|x| - 1])
  {
    var p := PlainQuotes(x);
    assert p[0] == '"' && p[|p| - 1] == '"';
    assert p[1..|p| - 1] == name;
    assert p == [p[0]] + (p[1..|p| - 1] + [p[|p| - 1]]);
  }

  lemma {:induction false} ParseQuoted(noun: string, id: nat, name: string)
    requires GoodName(name) && noun != [] && AllIn(noun, IsLowerLetter)
    ensures ParseNormalized(Command(noun, id, Quoted(name)), noun) == Some(ForId(id, Strip(name)))
  {
    MatchQuoted(name);
    MatchCommand(noun, QUOTED, id, Quoted(name));
    DecimalRoundTrip(id);
  }

  /**
   A rename command gives back its id and its trimmed label: for every id, every label without double
   quotes, in straight or curly quotes, blanks in front, and any mix of ".", "!" and blanks behind.
   */
  lemma RenameRoundTrip(noun: string, id: nat, x: string, name: string, blank: string, tail: string)
    requires noun == "timer" || noun == "stopwatch"
    requires QuotedAs(x, name) && AllIn(blank, IsSpace) && AllIn(tail, IsTail)
    ensures ParseRename(blank + Command(noun, id, x) + tail, noun) == Some(ForId(id, Strip(name)))
  {
    QuotedNormal(x, name);
    CommandIsNormal(noun, id, x, blank, tail);
    ParseQuoted(noun, id, name);
  }

  // A label that needs no quotes: trimmed, on one line, not in quotes, and not ending in a stop.
  ghost predicate BareName(name: string) {
    && name != [] && !IsSpace(name[0]) && name[0] != '"' && !IsTail(name[|name| - 1])
    && forall i | 0 <= i < |name| :: name[i] !in {'\n', '\U{201c}', '\U{201d}', '\U{2018}', '\U{2019}'}
  }

  lemma {:induction false} MatchBare(name: string)
    requires BareName(name)
    ensures Match(QUOTED, name).None? && Match([Rest], name) == Some([name])
  {
    assert Lower(name[..1])[0] == LowerChar(name[0]);
    assert "\""[0] == '"';
    assert RStrip(name, IsSpace) == name;
    assert [Rest][1..] == [];
  }

  lemma {:induction false} ParseUnquoted(noun: string, id: nat, name: string)
    requires BareName(name) && noun != [] && AllIn(noun, IsLowerLetter)
    ensures ParseNormalized(Command(noun, id, name), noun) == Some(ForId(id, name))
  {
    MatchBare(name);
    MatchCommand(noun, QUOTED, id, name);
    MatchCommand(noun, [Rest], id, name);
    DecimalRoundTrip(id);
    StripKeeps(name);
  }

  /** The same without quotes, where the label is all that follows. */
  lemma RenameUnquotedRoundTrip(noun: string, id: nat, name: string, blank: string, tail: string)
    requires noun == "timer" || noun == "stopwatch"
    requires BareName(name) && AllIn(blank, IsSpace) && AllIn(tail, IsTail)
    ensures ParseRename(blank + Command(noun, id, name) + tail, noun) == Some(ForId(id, name))
  {
    CommandIsNormal(noun, id, name, blank, tail);
    PlainStays(name);
    ParseUnquoted(noun, id, name);
  }

  // ----- Renaming by label -----

  lemma {:induction false} MatchLabels(given: string, name: string)
    requires GoodName(given) && GoodName(name)
    ensures Match(LABELS, Quoted(given) + ToText(Quoted(name))) == Some([given, name])
  {
    var ps := LABELS;
    var rest := ToText(Quoted(name));
    assert ps[1..][1..][1..] == [Gap, Lit("to"), Gap] + QUOTED;
    MatchQuoted(name);
    MatchTo(QUOTED, Quoted(name));
    assert Lower("\"") == "\"";
    StepLit(ps[1..][1..], "\"", rest);
    StepBody(ps[1..], given, "\"" + rest);
    StepLit(ps, "\"", given + ("\"" + rest));
    assert Quoted(given) + rest == "\"" + (given + ("\"" + rest));
    assert [given] + [name] == [given, name];
  }

  lemma {:induction false} MatchTheNoun(noun: string, qs: seq<Piece>, rest: string)
    requires noun != [] && AllIn(noun, IsLowerLetter) && rest != [] && !IsSpace(rest[0])
    ensures Match([Lit("rename"), Gap, Lit("the"), Gap, Lit(noun), Gap] + qs,
                  "Rename" + (" " + ("the" + (" " + (noun + (" " + rest)))))) == Match(qs, rest)
  {
    var ps := [Lit("rename"), Gap, Lit("the"), Gap, Lit(noun), Gap] + qs;
    NounIsLower(noun);
    StepTwoWords(ps, "Rename", "the", " " + (noun + (" " + rest)));
    StepGapLit(ps[3..], noun, " " + rest);
    StepGap(ps[3..][2..], rest);
    assert ps[3..][2..][1..] == qs;
  }

  lemma {:induction false} MatchLabelCommand(noun: string, given: string, name: string)
    requires GoodName(given) && GoodName(name) && noun != [] && AllIn(noun, IsLowerLetter)
    ensures Match(ByLabel(noun), LabelCommand(noun, Quoted(given), Quoted(name))) == Some([given, name])
  {
    MatchLabels(given, name);
    MatchTheNoun(noun, LABELS, Quoted(given) + ToText(Quoted(name)));
  }

  // The patterns by id ask for the noun where this command has "the".
  lemma {:induction false} NotById(ps: seq<Piece>, noun: string, rest: string)
    requires |ps| >= 3 && ps[0] == Lit("rename") && ps[1] == Gap && ps[2] == Lit(noun)
    requires noun == "timer" || noun == "stopwatch"
    ensures Match(ps, "Rename" + (" " + ("the" + rest))).None?
  {
    var text := "the" + rest;
    assert Lower("Rename") == "rename" && text[0] == 't' && text[1] == 'h';
    StepLit(ps, "Rename", " " + text);
    StepGap(ps[1..], text);
    if |noun| <= |text| {
      assert Lower(text[..|noun|])[0] == 't' && Lower(text[..|noun|])[1] == 'h';
      assert noun[0] == 's' || noun[1] == 'i';
    }
    assert ps[1..][1..][0] == Lit(noun);
  }

  lemma {:induction false} LabelCommandNormal(noun: string, x: string, y: string)
    requires y != [] && AllIn(noun, IsLowerLetter)
    ensures var c := LabelCommand(noun, x, y);
            && PlainQuotes(c) == LabelCommand(noun, PlainQuotes(x), PlainQuotes(y))
            && c[0] == 'R' && c[|c| - 1] == y[|y| - 1]
  {
    assert AllIn(noun, IsPlainQuoted);
    ToTextNormal(y);
    var labels := x + ToText(y);
    PlainConcat(x, ToText(y));
    PlainFront(" ", labels);
    PlainFront(noun, " " + labels);
    PlainFront(" ", noun + (" " + labels));
    PlainFront("the", " " + (noun + (" " + labels)));
    PlainFront(" ", "the" + (" " + (noun + (" " + labels))));
    PlainFront("Rename", " " + ("the" + (" " + (noun + (" " + labels)))));
    EndsLike(x, ToText(y));
    EndsLike(" ", labels);
    EndsLike(noun, " " + labels);
    EndsLike(" ", noun + (" " + labels));
    EndsLike("the", " " + (noun + (" " + labels)));
    EndsLike(" ", "the" + (" " + (noun + (" " + labels))));
    EndsLike("Rename", " " + ("the" + (" " + (noun + (" " + labels)))));
  }

  lemma {:induction false} NeitherById(noun: string, given: string, name: string)
    requires noun == "timer" || noun == "stopwatch"
    ensures Match(ByIdQuoted(noun), LabelCommand(noun, Quoted(given), Quoted(name))).None?
    ensures Match(ByIdUnquoted(noun), LabelCommand(noun, Quoted(given), Quoted(name))).None?
  {
    var rest := " " + (noun + (" " + (Quoted(given) + ToText(Quoted(name)))));
    NotById(ByIdQuoted(noun), noun, rest);
    NotById(ByIdUnquoted(noun), noun, rest);
  }

  lemma {:induction false} ParseThird(c: string, noun: string, given: string, name: string)
    requires Match(ByIdQuoted(noun), c).None? && Match(ByIdUnquoted(noun), c).None?
    requires Match(ByLabel(noun), c) == Some([given, name])
    ensures ParseNormalized(c, noun) == Some(ForName(Strip(given), Strip(name)))
  {
  }

  lemma {:induction false} ParseLabels(noun: string, given: string, name: string)
    requires noun == "timer" || noun == "stopwatch"
    requires GoodName(given) && GoodName(name)
    ensures ParseNormalized(LabelCommand(noun, Quoted(given), Quoted(name)), noun)
         == Some(ForName(Strip(given), Strip(name)))
  {
    NeitherById(noun, given, name);
    MatchLabelCommand(noun, given, name);
    ParseThird(LabelCommand(noun, Quoted(given), Quoted(name)), noun, given, name);
  }

  /** A command that names the timer by its label gives back both labels, the present one first. */
  lemma RenameByLabelRoundTrip(noun: string, x: string, given: string, y: string, name: string,
                               blank: string, tail: string)
    requires noun == "timer" || noun == "stopwatch"
    requires QuotedAs(x, given) && QuotedAs(y, name) && AllIn(blank, IsSpace) && AllIn(tail, IsTail)
    ensures ParseRename(blank + LabelCommand(noun, x, y) + tail, noun) == Some(ForName(Strip(given), Strip(name)))
  {
    QuotedNormal(x, given);
    QuotedNormal(y, name);
    LabelCommandNormal(noun, x, y);
    NormalizeCommand(blank, LabelCommand(noun, x, y), tail);
    ParseLabels(noun, given, name);
  }

  // ----- Matching without backtracking is matching -----

  // The text can stand for the piece.  The gap before a bare label is greedy, so the label starts behind it.
  predicate CanBe(p: Piece, x: string) {
    match p
    case Lit(text) => Lower(x) == text
    case Gap => x != [] && AllIn(x, IsSpace)
    case OptGap => AllIn(x, IsSpace)
    case Num => x != [] && AllIn(x, IsDigit)
    case Body => x != [] && AllIn(x, NotQuote)
    case Rest => x != [] && '\n' !in x && !IsSpace(x[0])
  }

  predicate Captures(p: Piece) {
    p.Num? || p.Body? || p.Rest?
  }

  // The text can be cut into pieces, and these are the captured ones.
  ghost predicate Fits(ps: seq<Piece>, s: string, groups: seq<string>)
    decreases ps
  {
    if ps == [] then s == [] && groups == []
    else exists k: nat | k <= |s| :: FitsAt(ps, s, groups, k)
  }

  ghost predicate FitsAt(ps: seq<Piece>, s: string, groups: seq<string>, k: nat)
    requires ps != [] && k <= |s|
    decreases ps, 0
  {
    CanBe(ps[0], s[..k])
    && if Captures(ps[0]) then groups != [] && groups[0] == s[..k] && Fits(ps[1..], s[k..], groups[1..])
       else Fits(ps[1..], s[k..], groups)
  }

  // No piece can begin with what the run before it could still take.
  predicate Separate(p: Piece, q: Piece) {
    match p
    case Gap => (q.Lit? && q.text != [] && !IsSpace(q.text[0])) || q.Num? || q.Rest?
    case Num => q.Gap?
    case Body => q.Lit? && q.text == "\""
    case OptGap => false
    case Rest => false
    case Lit(_) => !q.Rest?
  }

  predicate SeparatePieces(ps: seq<Piece>) {
    forall i | 0 < i < |ps| :: Separate(ps[i - 1], ps[i])
  }

  // What follows a run does not begin with one of its characters.
  lemma {:induction false} RunStops(p: Piece, ps: seq<Piece>, s: string, groups: seq<string>)
    requires ps != [] && Separate(p, ps[0]) && Fits(ps, s, groups)
    ensures p.Gap? ==> s != [] && !IsSpace(s[0])
    ensures p.Num? ==> s != [] && !IsDigit(s[0])
    ensures p.Body? ==> s != [] && s[0] == '"'
  {
    var k: nat :| k <= |s| && FitsAt(ps, s, groups, k);
    var x := s[..k];
    if ps[0].Lit? {
      assert |Lower(x)| == |x|;
      assert p.Gap? || p.Body? ==> x != [] && Lower(x)[0] == LowerChar(x[0]);
    }
    assert x != [] ==> s[0] == x[0];
  }

  lemma {:induction false} SpanIs(s: string, k: nat, p: char -> bool)
    requires k <= |s| && AllIn(s[..k], p) && (k < |s| ==> !p(s[k]))
    ensures SpanLength(s, p) == k
  {
    var n := SpanLength(s, p);
    assert forall j | 0 <= j < k :: s[..k][j] == s[j];
    assert forall j | 0 <= j < n :: s[..n][j] == s[j];
  }

  // The end of a text that is not blank.
  predicate Trimmed(s: string) {
    s != [] ==> !IsSpace(s[|s| - 1])
  }

  lemma {:induction false} NothingLeft(ps: seq<Piece>, s: string, groups: seq<string>, k: nat)
    requires |ps| == 1 && k <= |s| && FitsAt(ps, s, groups, k)
    ensures k == |s|
  {
    assert Fits(ps[1..], s[k..], if Captures(ps[0]) then groups[1..] else groups);
  }

  // How far a piece reaches is how far the greedy matcher goes.
  lemma {:induction false} GreedyLength(ps: seq<Piece>, s: string, groups: seq<string>, k: nat)
    requires ps != [] && SeparatePieces(ps) && k <= |s| && FitsAt(ps, s, groups, k)
    ensures ps[0].Lit? ==> k == |ps[0].text| && Lower(s[..k]) == ps[0].text
    ensures (ps[0].Gap? || ps[0].OptGap?) ==> k == SpanLength(s, IsSpace)
    ensures ps[0].Num? ==> k == SpanLength(s, IsDigit)
    ensures ps[0].Body? ==> k == SpanLength(s, NotQuote)
    ensures ps[0].Rest? ==> k == |s| && |ps| == 1
  {
    if |ps| == 1 {
      NothingLeft(ps, s, groups, k);
    } else {
      assert Separate(ps[0], ps[1]);
      RunStops(ps[0], ps[1..], s[k..], if Captures(ps[0]) then groups[1..] else groups);
    }
    match ps[0]
    case Gap => SpanIs(s, k, IsSpace);
    case OptGap => SpanIs(s, k, IsSpace);
    case Num => SpanIs(s, k, IsDigit);
    case Body => SpanIs(s, k, NotQuote);
    case Lit(text) => assert |Lower(s[..k])| == k;
    case Rest =>
  }

  lemma {:induction false} RestSeparate(ps: seq<Piece>)
    requires SeparatePieces(ps) && ps != []
    ensures SeparatePieces(ps[1..])
  {
    forall i | 0 < i < |ps[1..]|
      ensures Separate(ps[1..][i - 1], ps[1..][i])
    {
      assert Separate(ps[i], ps[i + 1]);
    }
  }

  lemma {:induction false} FittingMatches(ps: seq<Piece>, s: string, groups: seq<string>)
    requires SeparatePieces(ps) && Trimmed(s) && Fits(ps, s, groups)
    ensures Match(ps, s) == Some(groups)
    decreases ps
  {
    if ps != [] {
      var k: nat :| k <= |s| && FitsAt(ps, s, groups, k);
      GreedyLength(ps, s, groups, k);
      RestSeparate(ps);
      FittingMatches(ps[1..], s[k..], if Captures(ps[0]) then groups[1..] else groups);
      assert Captures(ps[0]) ==> groups == [groups[0]] + groups[1..];
      if ps[0].Rest? {
        assert s[..k] == s && s[k..] == [] && ps[1..] == [] && groups[1..] == [];
        assert RStrip(s, IsSpace) == s && groups == [s];
      }
    }
  }

  // How far the matcher goes with the first piece.
  function Reach(p: Piece, s: string): nat {
    match p
    case Lit(text) => |text|
    case Gap => SpanLength(s, IsSpace)
    case OptGap => SpanLength(s, IsSpace)
    case Num => SpanLength(s, IsDigit)
    case Body => SpanLength(s, NotQuote)
    case Rest => |s|
  }

  lemma {:induction false} MatchStep(ps: seq<Piece>, s: string, groups: seq<string>)
    requires ps != [] && Trimmed(s) && Match(ps, s) == Some(groups) && (ps[0].Rest? && s != [] ==> !IsSpace(s[0]))
    ensures var k := Reach(ps[0], s);
            && k <= |s| && CanBe(ps[0], s[..k])
            && if Captures(ps[0])
               then groups != [] && groups[0] == s[..k] && Match(ps[1..], s[k..]) == Some(groups[1..])
               else Match(ps[1..], s[k..]) == Some(groups)
  {
    var k := Reach(ps[0], s);
    if ps[0].Rest? {
      assert RStrip(s, IsSpace) == s && s[..k] == s && s[k..] == [] && groups[1..] == [];
    }
    assert ps[0].Num? || ps[0].Body? ==> ([s[..k]] + groups[1..])[1..] == groups[1..];
  }

  lemma {:induction false} MatchingFits(ps: seq<Piece>, s: string, groups: seq<string>)
    requires SeparatePieces(ps) && Trimmed(s) && Match(ps, s) == Some(groups)
    requires ps != [] && ps[0].Rest? && s != [] ==> !IsSpace(s[0])
    ensures Fits(ps, s, groups)
    decreases ps
  {
    if ps != [] {
      var k := Reach(ps[0], s);
      MatchStep(ps, s, groups);
      RestSeparate(ps);
      if |ps| > 1 {
        assert Separate(ps[0], ps[1]);
      }
      MatchingFits(ps[1..], s[k..], if Captures(ps[0]) then groups[1..] else groups);
      assert FitsAt(ps, s, groups, k);
    }
  }

  // ----- The normaliser is idempotent -----

  lemma {:induction false} TrimStopsResult(s: string)
    requires s == [] || !IsSpace(s[|s| - 1])
    ensures var r := TrimStops(s);
            && |r| <= |s| && r == s[..|r|]
            && (r != [] ==> !IsSpace(r[|r| - 1]) && !IsStop(r[|r| - 1]))
    decreases |s|
  {
    if s != [] && IsStop(s[|s| - 1]) {
      var front := s[..|s| - 1];
      RStripSplits(front, IsSpace);
      var t := RStrip(front, IsSpace);
      TrimStopsResult(t);
      var r := TrimStops(t);
      assert t[..|r|] == front[..|r|] == s[..|r|];
    }
  }

  lemma {:induction false} StripShape(message: string)
    ensures var s := Strip(message);
            s != [] ==> !IsSpace(s[0]) && !IsSpace(s[|s| - 1])
  {
    var lead := LStrip(message, IsSpace);
    LStripSplits(message, IsSpace);
    RStripSplits(lead, IsSpace);
    assert Strip(message) != [] ==> Strip(message)[0] == lead[0];
  }

  lemma {:induction false} SpaceIsNoQuote(s: string)
    ensures forall i | 0 <= i < |s| :: IsSpace(PlainQuote(s[i])) <==> IsSpace(s[i])
  {
  }

  // A normalised message has no blanks at its ends, no stop at its end, and plain quotes.
  lemma {:induction false} NormalizedShape(message: string)
    ensures var r := Normalize(message);
            && AllIn(r, IsPlainQuoted)
            && (r != [] ==> !IsSpace(r[0]) && !IsTail(r[|r| - 1]))
  {
    StripShape(message);
    var stripped := Strip(message);
    var plain := PlainQuotes(stripped);
    SpaceIsNoQuote(stripped);
    TrimStopsResult(plain);
    var r := Normalize(message);
    assert forall i | 0 <= i < |r| :: r[i] == PlainQuote(stripped[i]);
  }

  /** Normalising twice is normalising once. */
  lemma {:induction false} NormalizeIdempotent(message: string)
    ensures Normalize(Normalize(message)) == Normalize(message)
  {
    var r := Normalize(message);
    NormalizedShape(message);
    if r != [] {
      StripKeeps(r);
      PlainStays(r);
    }
  }

  lemma PatternsAreSeparate(noun: string)
    requires noun == "timer" || noun == "stopwatch"
    ensures SeparatePieces(ByIdQuoted(noun)) && SeparatePieces(ByIdUnquoted(noun)) && SeparatePieces(ByLabel(noun))
  {
  }

  /** The three patterns match what a text can be cut into, and nothing else: going greedily loses no match. */
  lemma PatternsMatchExactly(noun: string, message: string, ps: seq<Piece>, groups: seq<string>)
    requires noun == "timer" || noun == "stopwatch"
    requires ps == ByIdQuoted(noun) || ps == ByIdUnquoted(noun) || ps == ByLabel(noun)
    ensures Match(ps, Normalize(message)) == Some(groups) <==> Fits(ps, Normalize(message), groups)
  {
    PatternsAreSeparate(noun);
    NormalizedShape(message);
    if Match(ps, Normalize(message)) == Some(groups) {
      MatchingFits(ps, Normalize(message), groups);
    }
    if Fits(ps, Normalize(message), groups) {
      FittingMatches(ps, Normalize(message), groups);
    }
  }
}
