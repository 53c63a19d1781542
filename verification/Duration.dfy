/**
 Printing and parsing durations (app/common/duration.py).  The digit pattern is matched character by
 character.  The matches of the number-word pattern are any list that finditer could return: in order,
 disjoint, each ending in a unit word at a word boundary.
 */
module Duration {
  import opened Text
  import opened NumberWords

  datatype Unit = Seconds | Minutes | Hours

  datatype Segment = Segment(value: nat, unit: Unit, start: nat, end: nat)

  // A match of the number-word pattern: its number words, its unit word and where it is.
  datatype WordMatch = WordMatch(numberWords: string, unitWord: string, start: nat, end: nat)

  /** `_normalize_unit` */
  function UnitOf(word: string): Option<Unit> {
    if word in {"s", "sec", "secs", "second", "seconds"} then Some(Seconds)
    else if word in {"m", "min", "mins", "minute", "minutes"} then Some(Minutes)
    else if word in {"h", "hr", "hrs", "hour", "hours"} then Some(Hours)
    else None
  }

  /** `_segment_to_seconds` */
  function ToSeconds(value: nat, unit: Unit): nat {
    match unit
    case Seconds => value
    case Minutes => value * 60
    case Hours => value * 3600
  }

  function Total(segments: seq<Segment>): nat {
    if segments == [] then 0 else ToSeconds(segments[0].value, segments[0].unit) + Total(segments[1..])
  }

  // ----- Matching: \b(\d+)\s*(unit)\b -----

  predicate IsWordChar(c: char) {
    IsDigit(c) || 'a' <= c <= 'z' || 'A' <= c <= 'Z' || c == '_'
  }

  predicate WordAt(s: string, i: int) {
    0 <= i < |s| && IsWordChar(s[i])
  }

  predicate Boundary(s: string, i: nat) {
    WordAt(s, i - 1) != WordAt(s, i)
  }

  // The end of the run of p-characters that starts at i.
  function SpanEnd(s: string, i: nat, p: char -> bool): (j: nat)
    requires i <= |s|
    ensures i <= j <= |s|
    ensures forall k | i <= k < j :: p(s[k])
    ensures j < |s| ==> !p(s[j])
    decreases |s| - i
  {
    if i < |s| && p(s[i]) then SpanEnd(s, i + 1, p) else i
  }

  // The digits are all that follow i, the blanks all that follow them, and, since a unit word has to end
  // at a word boundary, the unit is the whole run of word characters after that.
  function DigitMatch(s: string, i: nat): (m: Option<Segment>)
    requires i <= |s|
    ensures m.Some? ==> m.value.start == i < m.value.end <= |s|
  {
    if !(Boundary(s, i) && i < |s| && IsDigit(s[i])) then None
    else
      var d := SpanEnd(s, i, IsDigit);
      var b := SpanEnd(s, d, IsSpace);
      var e := SpanEnd(s, b, IsWordChar);
      match UnitOf(s[b..e])
      case Some(unit) => Some(Segment(ParseDecimal(s[i..d]), unit, i, e))
      case None => None
  }

  // finditer: the leftmost match, then on from its end.
  function DigitMatches(s: string, i: nat): seq<Segment>
    requires i <= |s|
    decreases |s| - i
  {
    if i == |s| then []
    else match DigitMatch(s, i)
      case Some(m) => [m] + DigitMatches(s, m.end)
      case None => DigitMatches(s, i + 1)
  }

  predicate EndsWith(s: string, suffix: string) {
    |suffix| <= |s| && s[|s| - |suffix|..] == suffix
  }

  // What finditer guarantees of the number-word matches in s.
  ghost predicate PossibleWordMatches(s: string, words: seq<WordMatch>) {
    && (forall i | 0 <= i < |words| ::
          && words[i].start < words[i].end <= |s|
          && UnitOf(words[i].unitWord).Some? && EndsWith(s[..words[i].end], words[i].unitWord)
          && Boundary(s, words[i].end))
    && (forall i, j | 0 <= i < j < |words| :: words[i].end <= words[j].start)
  }

  // ----- Collecting the segments -----

  predicate Overlaps(start: nat, end: nat, seg: Segment) {
    !(end <= seg.start || start >= seg.end)
  }

  predicate OverlapsAny(start: nat, end: nat, segments: seq<Segment>) {
    exists i :: 0 <= i < |segments| && Overlaps(start, end, segments[i])
  }

  function AddWords(segments: seq<Segment>, words: seq<WordMatch>): seq<Segment>
    decreases words
  {
    if words == [] then segments
    else
      var w := words[0];
      var value := Value(ENGLISH, w.numberWords);
      if OverlapsAny(w.start, w.end, segments) || value.None? || UnitOf(w.unitWord).None?
      then AddWords(segments, words[1..])
      else AddWords(segments + [Segment(value.value, UnitOf(w.unitWord).value, w.start, w.end)], words[1..])
  }

  function Insert(x: Segment, s: seq<Segment>): seq<Segment> {
    if s == [] || x.start <= s[0].start then [x] + s else [s[0]] + Insert(x, s[1..])
  }

  function SortByStart(s: seq<Segment>): seq<Segment> {
    if s == [] then [] else Insert(s[0], SortByStart(s[1..]))
  }

  function Segments(message: string, words: seq<WordMatch>): seq<Segment> {
    SortByStart(AddWords(DigitMatches(Lower(message), 0), words))
  }

  /** `_iter_duration_segments` */
  method IterDurationSegments(message: string, words: seq<WordMatch>) returns (segments: seq<Segment>)
    ensures segments == Segments(message, words)
  {
    segments := DigitMatches(Lower(message), 0);
    ghost var digits := segments;
    for k := 0 to |words|
      invariant AddWords(segments, words[k..]) == AddWords(digits, words)
    {
      var w := words[k];
      assert words[k..][1..] == words[k + 1..];
      if OverlapsAny(w.start, w.end, segments) {
        continue;
      }
      var value := WordsToNumber(ENGLISH, w.numberWords);
      var unit := UnitOf(w.unitWord);
      if value.Some? && unit.Some? {
        segments := segments + [Segment(value.value, unit.value, w.start, w.end)];
      }
    }
    segments := SortByStart(segments);
  }

  predicate IsUnitLetter(c: char) {
    c == 's' || c == 'm' || c == 'h'
  }

  // search(\b(s|m|h)\b)
  function LoneUnit(s: string, i: nat): Option<Unit>
    requires i <= |s|
    decreases |s| - i
  {
    if i == |s| then None
    else if IsUnitLetter(s[i]) && Boundary(s, i) && Boundary(s, i + 1) then UnitOf([s[i]])
    else LoneUnit(s, i + 1)
  }

  /** `extract_duration_seconds` */
  function ExtractSeconds(message: string, words: seq<WordMatch>, bareMinutes: bool): Option<nat> {
    var segments := Segments(message, words);
    if segments != [] then Some(Total(segments))
    else if LoneUnit(Lower(message), 0).Some? then Some(ToSeconds(1, LoneUnit(Lower(message), 0).value))
    else if bareMinutes && Strip(message) != [] && AllIn(Strip(message), IsDigit) then
      Some(ParseDecimal(Strip(message)) * 60)
    else None
  }

  // ----- Printing -----

  function UnitName(unit: Unit): string {
    match unit
    case Seconds => "second"
    case Minutes => "minute"
    case Hours => "hour"
  }

  function UnitText(amount: nat, unit: Unit): string {
    UnitName(unit) + if amount == 1 then "" else "s"
  }

  /** `_format_unit` */
  function FormatUnit(amount: nat, unit: Unit): string {
    Decimal(amount) + (" " + UnitText(amount, unit))
  }

  datatype Part = Part(amount: nat, unit: Unit)

  // The parts that are printed: the first two of hours, minutes and seconds that are not zero.
  function Parts(h: nat, m: nat, s: nat): (ps: seq<Part>)
    ensures 1 <= |ps| <= 2
  {
    var ps := (if h != 0 then [Part(h, Hours)] else []) + (if m != 0 then [Part(m, Minutes)] else []);
    var all := if s != 0 || ps == [] then ps + [Part(s, Seconds)] else ps;
    if |all| > 2 then all[..2] else all
  }

  function JoinParts(ps: seq<Part>): string {
    if ps == [] then ""
    else if |ps| == 1 then FormatUnit(ps[0].amount, ps[0].unit)
    else FormatUnit(ps[0].amount, ps[0].unit) + (" and " + JoinParts(ps[1..]))
  }

  /** `humanize_duration_seconds` */
  function Humanize(totalSeconds: int): string {
    if totalSeconds <= 0 then "less than a second"
    else
      var hours, remainder := totalSeconds / 3600, totalSeconds % 3600;
      JoinParts(Parts(hours, remainder / 60, remainder % 60))
  }
}
