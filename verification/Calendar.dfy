/**
 Merging the upcoming events of several calendars (app/integrations/google_calendar/client.py,
 `list_upcoming_events`): fetch the first K of each, tag, concatenate, sort by start, keep K.
 Instants are integers (microseconds, UTC).
 */
module Calendar {
  import opened Text

  // A dateTime that could be parsed: the clock time it gives, and its offset from UTC if it has one.
  datatype DateTime = DateTime(clock: int, offset: Option<int>)

  // An event's start: a dateTime, a date (as a count of days), or neither that could be parsed.
  datatype Start = Start(dateTime: Option<DateTime>, date: Option<int>)

  // The rest of the event is kept as its name.
  datatype Event = Event(start: Start, name: string)

  datatype Tagged = Tagged(event: Event, calendar: string, summary: string)

  datatype Source = Source(id: string, summary: string, events: seq<Event>)

  const DAY: int := 86_400_000_000

  // datetime.max, 9999-12-31T23:59:59.999999Z.
  const LAST_INSTANT: int := 253_402_300_799_999_999

  /** `_parse_event_start_for_sort`: a time without an offset is taken as UTC, a date as midnight UTC. */
  function SortKey(start: Start): int {
    match start
    case Start(Some(t), _) => t.clock - (if t.offset.Some? then t.offset.value else 0)
    case Start(None, Some(day)) => day * DAY
    case Start(None, None) => LAST_INSTANT
  }

  function Key(x: Tagged): int {
    SortKey(x.event.start)
  }

  function Take<T>(s: seq<T>, k: nat): seq<T> {
    if |s| <= k then s else s[..k]
  }

  predicate Sorted(s: seq<Tagged>) {
    forall i, j | 0 <= i < j < |s| :: Key(s[i]) <= Key(s[j])
  }

  function Tag(events: seq<Event>, c: Source): seq<Tagged> {
    seq(|events|, i requires 0 <= i < |events| => Tagged(events[i], c.id, c.summary))
  }

  /** The key is the instant: an offset is taken off, none is UTC, a date is its midnight, an unreadable start last. */
  lemma SortKeyIsTheInstant(clock: int, offset: int, day: int, date: Option<int>)
    ensures SortKey(Start(Some(DateTime(clock + offset, Some(offset))), date))
         == SortKey(Start(Some(DateTime(clock, None)), date)) == clock
    ensures SortKey(Start(None, Some(day))) == SortKey(Start(Some(DateTime(day * DAY, None)), date))
    ensures clock <= LAST_INSTANT ==>
              SortKey(Start(Some(DateTime(clock, None)), date)) <= SortKey(Start(None, None))
  {
  }

  // ----- list.sort(key=...): the stable sort -----

  function Insert(x: Tagged, s: seq<Tagged>): seq<Tagged> {
    if s == [] || Key(x) <= Key(s[0]) then [x] + s else [s[0]] + Insert(x, s[1..])
  }

  function StableSort(s: seq<Tagged>): seq<Tagged> {
    if s == [] then [] else Insert(s[0], StableSort(s[1..]))
  }

  // The elements of s that start at t, in their order in s.
  function StartingAt(s: seq<Tagged>, t: int): seq<Tagged> {
    if s == [] then []
    else (if Key(s[0]) == t then [s[0]] else []) + StartingAt(s[1..], t)
  }

  // What pins the sort down: sorted, and for every start the same elements in the same order.
  ghost predicate IsStableSortOf(r: seq<Tagged>, s: seq<Tagged>) {
    Sorted(r) && forall t :: StartingAt(r, t) == StartingAt(s, t)
  }

  lemma {:induction false} InsertSorts(x: Tagged, s: seq<Tagged>)
    requires Sorted(s)
    ensures Sorted(Insert(x, s))
    ensures forall y | y in Insert(x, s) :: y == x || y in s
  {
    if !(s == [] || Key(x) <= Key(s[0])) {
      InsertSorts(x, s[1..]);
      var rest := Insert(x, s[1..]);
      forall j | 0 <= j < |rest|
        ensures Key(s[0]) <= Key(rest[j])
      {
        assert rest[j] in rest;
      }
    }
  }

  lemma StartingAtCons(x: Tagged, s: seq<Tagged>, t: int)
    ensures StartingAt([x] + s, t) == (if Key(x) == t then [x] else []) + StartingAt(s, t)
  {
    assert ([x] + s)[1..] == s;
  }

  lemma {:induction false} InsertIsStable(x: Tagged, s: seq<Tagged>, t: int)
    requires Sorted(s)
    ensures StartingAt(Insert(x, s), t) == (if Key(x) == t then [x] else []) + StartingAt(s, t)
  {
    if s == [] || Key(x) <= Key(s[0]) {
      StartingAtCons(x, s, t);
    } else {
      InsertIsStable(x, s[1..], t);
      StartingAtCons(s[0], Insert(x, s[1..]), t);
      StartingAtCons(s[0], s[1..], t);
      assert s == [s[0]] + s[1..];
    }
  }

  /** Insertion in this order is the stable sort. */
  lemma {:induction false} StableSortIsStable(s: seq<Tagged>)
    ensures IsStableSortOf(StableSort(s), s)
  {
    if s != [] {
      StableSortIsStable(s[1..]);
      InsertSorts(s[0], StableSort(s[1..]));
      forall t
        ensures StartingAt(StableSort(s), t) == StartingAt(s, t)
      {
        InsertIsStable(s[0], StableSort(s[1..]), t);
      }
    }
  }

  lemma {:induction false} StartingAtFinds(s: seq<Tagged>, t: int)
    ensures StartingAt(s, t) == [] <==> forall x | x in s :: Key(x) != t
    ensures StartingAt(s, t) != [] ==> StartingAt(s, t)[0] in s && Key(StartingAt(s, t)[0]) == t
  {
    if s != [] {
      StartingAtFinds(s[1..], t);
      assert s == [s[0]] + s[1..];
    }
  }

  lemma SameTail(a: seq<Tagged>, b: seq<Tagged>, c: seq<Tagged>)
    requires a + b == a + c
    ensures b == c
  {
    assert (a + b)[|a|..] == b && (a + c)[|a|..] == c;
  }

  lemma HeadsAgree(r: seq<Tagged>, q: seq<Tagged>)
    requires r != [] && q != [] && Sorted(r) && Sorted(q)
    requires forall t :: StartingAt(r, t) == StartingAt(q, t)
    ensures Key(r[0]) >= Key(q[0])
    ensures Key(r[0]) == Key(q[0]) ==> r[0] == q[0]
  {
    StartingAtFinds(q, Key(r[0]));
    assert StartingAt(r, Key(r[0]))[0] == r[0];
    assert StartingAt(q, Key(q[0]))[0] == q[0];
  }

  /** There is only one stable sort of a list. */
  lemma {:induction false} StableSortIsUnique(r: seq<Tagged>, q: seq<Tagged>, s: seq<Tagged>)
    requires IsStableSortOf(r, s) && IsStableSortOf(q, s)
    ensures r == q
    decreases |r|
  {
    if r == [] || q == [] {
      if r != [] {
        StartingAtFinds(q, Key(r[0]));
        StartingAtFinds(r, Key(r[0]));
      }
      if q != [] {
        StartingAtFinds(r, Key(q[0]));
        StartingAtFinds(q, Key(q[0]));
      }
    } else {
      HeadsAgree(r, q);
      HeadsAgree(q, r);
      assert r[0] == q[0];
      assert r == [r[0]] + r[1..] && q == [q[0]] + q[1..];
      forall t
        ensures StartingAt(r[1..], t) == StartingAt(q[1..], t)
      {
        StartingAtCons(r[0], r[1..], t);
        StartingAtCons(q[0], q[1..], t);
        SameTail(if Key(r[0]) == t then [r[0]] else [], StartingAt(r[1..], t), StartingAt(q[1..], t));
      }
      StableSortIsUnique(r[1..], q[1..], r[1..]);
    }
  }

  // ----- Merging sorted lists, the left one first among equals -----

  function Merge(a: seq<Tagged>, b: seq<Tagged>): seq<Tagged>
    decreases |a| + |b|
  {
    if a == [] then b
    else if b == [] then a
    else if Key(a[0]) <= Key(b[0]) then [a[0]] + Merge(a[1..], b)
    else [b[0]] + Merge(a, b[1..])
  }

  lemma {:induction false} InsertIntoMerge(x: Tagged, a: seq<Tagged>, b: seq<Tagged>)
    requires Sorted(a) && Sorted(b)
    ensures Insert(x, Merge(a, b)) == Merge(Insert(x, a), b)
    decreases |a| + |b|
  {
    if a == [] {
      if b != [] && !(Key(x) <= Key(b[0])) {
        InsertIntoMerge(x, a, b[1..]);
        assert Merge([x], b) == [b[0]] + Merge([x], b[1..]);
        assert b == [b[0]] + b[1..];
      } else {
        assert [x][1..] == [];
        assert Merge([x], b) == [x] + b;
      }
    } else if b == [] {
    } else if Key(a[0]) <= Key(b[0]) {
      if Key(x) <= Key(a[0]) {
        assert ([x] + a)[1..] == a;
      } else {
        InsertIntoMerge(x, a[1..], b);
        assert ([a[0]] + Insert(x, a[1..]))[1..] == Insert(x, a[1..]);
        assert ([a[0]] + Merge(a[1..], b))[1..] == Merge(a[1..], b);
      }
    } else {
      if Key(x) <= Key(b[0]) {
        assert ([x] + a)[1..] == a;
      } else {
        InsertIntoMerge(x, a, b[1..]);
        assert ([b[0]] + Merge(a, b[1..]))[1..] == Merge(a, b[1..]);
      }
    }
  }

  lemma {:induction false} SortIsSorted(s: seq<Tagged>)
    ensures Sorted(StableSort(s))
  {
    StableSortIsStable(s);
  }

  /** Sorting a concatenation is merging the sorted parts. */
  lemma {:induction false} SortConcat(a: seq<Tagged>, b: seq<Tagged>)
    ensures StableSort(a + b) == Merge(StableSort(a), StableSort(b))
  {
    if a == [] {
      assert a + b == b;
    } else {
      assert (a + b)[1..] == a[1..] + b;
      SortConcat(a[1..], b);
      SortIsSorted(a[1..]);
      SortIsSorted(b);
      InsertIntoMerge(a[0], StableSort(a[1..]), StableSort(b));
    }
  }

  lemma {:induction false} TakeRest(s: seq<Tagged>, k: nat)
    requires k > 0 && s != []
    ensures var t := Take(s, k);
            t != [] && t[0] == s[0] && Take(t[1..], k - 1) == Take(s[1..], k - 1)
  {
  }

  lemma TakeCons(x: Tagged, s: seq<Tagged>, k: nat)
    requires k > 0
    ensures Take([x] + s, k) == [x] + Take(s, k - 1)
  {
  }

  /** The first k of a merge need only the first k of each side. */
  lemma {:induction false} TakeMerge(a: seq<Tagged>, b: seq<Tagged>, k: nat)
    ensures Take(Merge(a, b), k) == Take(Merge(Take(a, k), Take(b, k)), k)
    decreases k, |a| + |b|
  {
    var a', b' := Take(a, k), Take(b, k);
    if k == 0 || a == [] || b == [] {
      assert Take(a', k) == a' && Take(b', k) == b';
    } else if Key(a[0]) <= Key(b[0]) {
      TakeRest(a, k);
      TakeMerge(a[1..], b, k - 1);
      TakeMerge(a'[1..], b', k - 1);
      assert Take(b', k - 1) == Take(b, k - 1);
      TakeCons(a[0], Merge(a[1..], b), k);
      TakeCons(a[0], Merge(a'[1..], b'), k);
    } else {
      TakeRest(b, k);
      TakeMerge(a, b[1..], k - 1);
      TakeMerge(a', b'[1..], k - 1);
      assert Take(a', k - 1) == Take(a, k - 1);
      TakeCons(b[0], Merge(a, b[1..]), k);
      TakeCons(b[0], Merge(a', b'[1..]), k);
    }
  }

  // ----- Cutting a list before it is sorted -----

  lemma {:induction false} InsertKeepsElements(x: Tagged, s: seq<Tagged>)
    ensures multiset(Insert(x, s)) == multiset{x} + multiset(s)
  {
    if !(s == [] || Key(x) <= Key(s[0])) {
      InsertKeepsElements(x, s[1..]);
      assert s == [s[0]] + s[1..];
    }
  }

  lemma {:induction false} SortKeepsElements(s: seq<Tagged>)
    ensures multiset(StableSort(s)) == multiset(s)
  {
    if s != [] {
      SortKeepsElements(s[1..]);
      InsertKeepsElements(s[0], StableSort(s[1..]));
      assert s == [s[0]] + s[1..];
    }
  }

  ghost predicate AllBefore(a: seq<Tagged>, b: seq<Tagged>) {
    forall x, y | x in a && y in b :: Key(x) <= Key(y)
  }

  lemma {:induction false} MergeOfOrdered(a: seq<Tagged>, b: seq<Tagged>)
    requires AllBefore(a, b)
    ensures Merge(a, b) == a + b
    decreases a
  {
    if a == [] {
      assert a + b == b;
    } else if b != [] {
      assert a[0] in a && b[0] in b;
      MergeOfOrdered(a[1..], b);
      assert a + b == [a[0]] + (a[1..] + b);
    }
  }

  lemma {:induction false} SameElements(s: seq<Tagged>, t: seq<Tagged>, x: Tagged)
    requires multiset(s) == multiset(t)
    ensures x in s <==> x in t
  {
    assert x in s <==> x in multiset(s);
  }

  lemma {:induction false} ApartByElements(a: seq<Tagged>, b: seq<Tagged>, c: seq<Tagged>, d: seq<Tagged>)
    requires AllBefore(a, b) && multiset(a) == multiset(c) && multiset(b) == multiset(d)
    ensures AllBefore(c, d)
  {
    forall x, y | x in c && y in d
      ensures Key(x) <= Key(y)
    {
      SameElements(a, c, x);
      SameElements(b, d, y);
    }
  }

  lemma {:induction false} SortedPartsStayApart(a: seq<Tagged>, b: seq<Tagged>)
    requires AllBefore(a, b)
    ensures AllBefore(StableSort(a), StableSort(b))
  {
    SortKeepsElements(a);
    SortKeepsElements(b);
    ApartByElements(a, b, StableSort(a), StableSort(b));
  }

  lemma {:induction false} SortLength(s: seq<Tagged>)
    ensures |StableSort(s)| == |s|
  {
    SortKeepsElements(s);
    assert |multiset(StableSort(s))| == |StableSort(s)| && |multiset(s)| == |s|;
  }

  // No loss when nothing that is cut away belongs before something that is kept.
  lemma {:induction false} CutKeepsFirst(s: seq<Tagged>, k: nat)
    requires k <= |s| && AllBefore(s[..k], s[k..])
    ensures Take(StableSort(s), k) == StableSort(s[..k])
  {
    assert s == s[..k] + s[k..];
    SortConcat(s[..k], s[k..]);
    SortedPartsStayApart(s[..k], s[k..]);
    MergeOfOrdered(StableSort(s[..k]), StableSort(s[k..]));
    SortLength(s[..k]);
    SortLength(s[k..]);
  }

  lemma {:induction false} SortedSplits(r: seq<Tagged>, k: nat)
    requires Sorted(r) && k <= |r|
    ensures AllBefore(r[..k], r[k..])
  {
    forall x, y | x in r[..k] && y in r[k..]
      ensures Key(x) <= Key(y)
    {
      var i :| 0 <= i < k && r[..k][i] == x;
      var j :| 0 <= j < |r[k..]| && r[k..][j] == y;
      assert r[i] == x && r[k + j] == y;
    }
  }

  lemma {:induction false} SameRest(a: seq<Tagged>, b: seq<Tagged>, c: seq<Tagged>, d: seq<Tagged>)
    requires multiset(a) == multiset(c) && multiset(a + b) == multiset(c + d)
    ensures multiset(b) == multiset(d)
  {
    assert multiset(a + b) == multiset(a) + multiset(b);
    assert multiset(c + d) == multiset(c) + multiset(d);
    assert multiset(b) == multiset(a) + multiset(b) - multiset(a);
    assert multiset(d) == multiset(c) + multiset(d) - multiset(c);
  }

  lemma {:induction false} TakeIsPrefix(r: seq<Tagged>, k: nat)
    requires k <= |r|
    ensures Take(r, k) == r[..k]
  {
  }

  // And no other way.
  lemma {:induction false} FirstKeptOnlyIf(s: seq<Tagged>, k: nat)
    requires k <= |s| && Take(StableSort(s), k) == StableSort(s[..k])
    ensures AllBefore(s[..k], s[k..])
  {
    var r := StableSort(s);
    SortLength(s);
    SortIsSorted(s);
    SortedSplits(r, k);
    SortKeepsElements(s);
    SortKeepsElements(s[..k]);
    TakeIsPrefix(r, k);
    assert s == s[..k] + s[k..] && r == r[..k] + r[k..];
    SameRest(r[..k], r[k..], s[..k], s[k..]);
    ApartByElements(r[..k], r[k..], s[..k], s[k..]);
  }

  // ----- list_upcoming_events -----

  // All events of all calendars, in the order the calendars are listed.
  function Everything(cs: seq<Source>): seq<Tagged> {
    if cs == [] then [] else Tag(cs[0].events, cs[0]) + Everything(cs[1..])
  }

  // What the loop collects: the first k of each calendar.
  function Fetched(cs: seq<Source>, k: nat): seq<Tagged> {
    if cs == [] then [] else Tag(Take(cs[0].events, k), cs[0]) + Fetched(cs[1..], k)
  }

  lemma FetchedStep(cs: seq<Source>, i: nat, k: nat)
    requires i < |cs|
    ensures Fetched(cs[i..], k) == Tag(Take(cs[i].events, k), cs[i]) + Fetched(cs[i + 1..], k)
  {
    assert cs[i..][1..] == cs[i + 1..];
  }

  method AppendTagged(merged: seq<Tagged>, events: seq<Event>, c: Source) returns (r: seq<Tagged>)
    ensures r == merged + Tag(events, c)
  {
    r := merged;
    for j := 0 to |events|
      invariant r == merged + Tag(events, c)[..j]
    {
      r := r + [Tagged(events[j], c.id, c.summary)];
    }
  }

  // The loop over the calendars.
  method CollectEvents(cs: seq<Source>, maximumResults: nat) returns (merged: seq<Tagged>)
    ensures merged == Fetched(cs, maximumResults)
  {
    merged := [];
    for i := 0 to |cs|
      invariant merged + Fetched(cs[i..], maximumResults) == Fetched(cs, maximumResults)
    {
      FetchedStep(cs, i, maximumResults);
      merged := AppendTagged(merged, Take(cs[i].events, maximumResults), cs[i]);
    }
  }

  // No event of a calendar that the cut drops starts before one that it keeps.
  ghost predicate CutIsSafe(events: seq<Event>, k: nat) {
    forall i, j | 0 <= i < k <= j < |events| :: SortKey(events[i].start) <= SortKey(events[j].start)
  }

  lemma {:induction false} SafeMeansApart(c: Source, k: nat)
    requires k <= |c.events|
    ensures var all := Tag(c.events, c);
            CutIsSafe(c.events, k) <==> AllBefore(all[..k], all[k..])
  {
    var all := Tag(c.events, c);
    if AllBefore(all[..k], all[k..]) {
      forall i, j | 0 <= i < k <= j < |c.events|
        ensures SortKey(c.events[i].start) <= SortKey(c.events[j].start)
      {
        assert all[..k][i] in all[..k] && all[k..][j - k] in all[k..];
      }
    }
  }

  // One calendar's first k events are the first k of the cut list exactly when the cut is safe.
  lemma {:induction false} FirstOfOne(c: Source, k: nat)
    ensures var all, some := Tag(c.events, c), Tag(Take(c.events, k), c);
            Take(StableSort(some), k) == Take(StableSort(all), k) <==> CutIsSafe(c.events, k)
  {
    var all, some := Tag(c.events, c), Tag(Take(c.events, k), c);
    if k < |c.events| {
      assert some == all[..k];
      SortLength(some);
      SortLength(all);
      SafeMeansApart(c, k);
      if CutIsSafe(c.events, k) {
        CutKeepsFirst(all, k);
      } else if Take(StableSort(some), k) == Take(StableSort(all), k) {
        FirstKeptOnlyIf(all, k);
      }
    } else {
      assert some == all;
    }
  }

  // The first k of what was fetched are the first k of all events.
  ghost predicate NothingLost(cs: seq<Source>, k: nat) {
    Take(StableSort(Fetched(cs, k)), k) == Take(StableSort(Everything(cs)), k)
  }

  /** If every calendar's cut is safe, nothing is lost, for any number of calendars. */
  lemma {:induction false} FirstOfEachSuffice(cs: seq<Source>, k: nat)
    requires forall i | 0 <= i < |cs| :: CutIsSafe(cs[i].events, k)
    ensures NothingLost(cs, k)
  {
    if cs != [] {
      var all, some := Tag(cs[0].events, cs[0]), Tag(Take(cs[0].events, k), cs[0]);
      var rest, restSome := StableSort(Everything(cs[1..])), StableSort(Fetched(cs[1..], k));
      SortConcat(all, Everything(cs[1..]));
      SortConcat(some, Fetched(cs[1..], k));
      FirstOfEachSuffice(cs[1..], k);
      FirstOfOne(cs[0], k);
      TakeMerge(StableSort(all), rest, k);
      TakeMerge(StableSort(some), restSome, k);
    }
  }

  /** For one calendar nothing is lost exactly when its cut is safe. */
  lemma {:induction false} OneCalendarExactly(c: Source, k: nat)
    ensures NothingLost([c], k) <==> CutIsSafe(c.events, k)
  {
    assert [c][1..] == [];
    assert Everything([c]) == Tag(c.events, c) + [] == Tag(c.events, c);
    assert Fetched([c], k) == Tag(Take(c.events, k), c) + [] == Tag(Take(c.events, k), c);
    FirstOfOne(c, k);
  }

  /** Nothing is lost, whichever of some calendars are asked for, exactly when each one's cut is safe. */
  lemma {:induction false} AnyChoiceExactly(cs: set<Source>, k: nat)
    ensures (forall chosen: seq<Source> :: (forall c | c in chosen :: c in cs) ==> NothingLost(chosen, k))
            <==> forall c | c in cs :: CutIsSafe(c.events, k)
  {
    if forall c | c in cs :: CutIsSafe(c.events, k) {
      forall chosen: seq<Source> | forall c | c in chosen :: c in cs
        ensures NothingLost(chosen, k)
      {
        FirstOfEachSuffice(chosen, k);
      }
    }
    if forall chosen: seq<Source> :: (forall c | c in chosen :: c in cs) ==> NothingLost(chosen, k) {
      forall c | c in cs
        ensures CutIsSafe(c.events, k)
      {
        assert NothingLost([c], k);
        OneCalendarExactly(c, k);
      }
    }
  }

  // An event of one of the calendars, with that calendar's id and summary.
  ghost predicate ComesFrom(x: Tagged, cs: seq<Source>) {
    exists c :: c in cs && x.event in c.events && x.calendar == c.id && x.summary == c.summary
  }

  lemma {:induction false} FetchedComesFrom(cs: seq<Source>, k: nat, x: Tagged)
    requires x in Fetched(cs, k)
    ensures ComesFrom(x, cs)
  {
    var first := Tag(Take(cs[0].events, k), cs[0]);
    if x in first {
      var i :| 0 <= i < |first| && first[i] == x;
      assert x.event == cs[0].events[i] && cs[0] in cs;
    } else {
      FetchedComesFrom(cs[1..], k, x);
    }
  }

  // Nothing is listed that is not in a calendar, and nothing under another calendar's name.
  lemma {:induction false} ListedComesFrom(cs: seq<Source>, k: nat)
    ensures forall x | x in Take(StableSort(Fetched(cs, k)), k) :: ComesFrom(x, cs)
  {
    forall x | x in Take(StableSort(Fetched(cs, k)), k)
      ensures ComesFrom(x, cs)
    {
      SortKeepsElements(Fetched(cs, k));
      assert x in multiset(StableSort(Fetched(cs, k)));
      FetchedComesFrom(cs, k, x);
    }
  }

  /** `list_upcoming_events` */
  method ListUpcomingEvents(cs: seq<Source>, maximumResults: nat) returns (r: seq<Tagged>)
    ensures r == Take(StableSort(Fetched(cs, maximumResults)), maximumResults)
    ensures Sorted(r) && |r| <= maximumResults && forall x | x in r :: ComesFrom(x, cs)
    ensures (forall i | 0 <= i < |cs| :: CutIsSafe(cs[i].events, maximumResults)) ==>
              r == Take(StableSort(Everything(cs)), maximumResults)
  {
    var merged := CollectEvents(cs, maximumResults);
    if forall i | 0 <= i < |cs| :: CutIsSafe(cs[i].events, maximumResults) {
      FirstOfEachSuffice(cs, maximumResults);
    }
    SortIsSorted(merged);
    ListedComesFrom(cs, maximumResults);
    merged := StableSort(merged);
    return Take(merged, maximumResults);
  }

  // ----- Calendars that list their events by start -----

  // When an event starts in a calendar that is `zone` ahead of UTC: a date starts at local midnight.
  function LocalStart(start: Start, zone: int): int {
    if start.dateTime.None? && start.date.Some? then start.date.value * DAY - zone else SortKey(start)
  }

  ghost predicate ListsByStart(events: seq<Event>, zone: int) {
    forall i, j | 0 <= i < j < |events| :: LocalStart(events[i].start, zone) <= LocalStart(events[j].start, zone)
  }

  ghost predicate AllTimed(events: seq<Event>) {
    forall i | 0 <= i < |events| :: events[i].start.dateTime.Some?
  }

  ghost predicate AllDays(events: seq<Event>) {
    forall i | 0 <= i < |events| :: events[i].start.dateTime.None? && events[i].start.date.Some?
  }

  /** Such a calendar's cut is safe if it keeps UTC, or has no timed events, or no all-day ones. */
  lemma {:induction false} ListedCutIsSafe(events: seq<Event>, zone: int, k: nat)
    requires ListsByStart(events, zone) && (zone == 0 || AllTimed(events) || AllDays(events))
    ensures CutIsSafe(events, k)
  {
    forall i, j | 0 <= i < k <= j < |events|
      ensures SortKey(events[i].start) <= SortKey(events[j].start)
    {
      assert LocalStart(events[i].start, zone) <= LocalStart(events[j].start, zone);
    }
  }

  /**
   It can lose an event otherwise.  Eight hours behind UTC a timed event at eight in the evening comes
   before the next day's all-day event, and its sort key after it.
   */
  lemma AllDayEventLost(day: int, id: string, summary: string)
    ensures var zone := -(DAY / 3);
            var evening := Event(Start(Some(DateTime(day * DAY + 20 * (DAY / 24), Some(zone))), None), "evening");
            var holiday := Event(Start(None, Some(day + 1)), "holiday");
            var c := Source(id, summary, [evening, holiday]);
            && ListsByStart(c.events, zone) && !CutIsSafe(c.events, 1) && !NothingLost([c], 1)
  {
    var zone := -(DAY / 3);
    var evening := Event(Start(Some(DateTime(day * DAY + 20 * (DAY / 24), Some(zone))), None), "evening");
    var holiday := Event(Start(None, Some(day + 1)), "holiday");
    var c := Source(id, summary, [evening, holiday]);
    assert SortKey(c.events[0].start) > SortKey(c.events[1].start);
    OneCalendarExactly(c, 1);
  }
}
