/**
 Following one run, `emitEvents` of `src/cli-events.ts`: each poll reads the end of the log and
 writes what comes after the last event it has seen.
 */
module RunFeed {
  import opened Wrappers
  import opened Sequences
  import opened LogTail

  datatype Row = Row(run: string, event: Event)

  // ----- One poll of one run

  /** `lastIndexOf`, and -1 where there is none. */
  function LastIndex(events: seq<Event>, e: Event): (n: int)
    ensures -1 <= n < |events|
    ensures n >= 0 ==> events[n] == e
    ensures forall m | n < m < |events| :: events[m] != e
  {
    if events == [] then -1
    else if events[|events| - 1] == e then |events| - 1 else LastIndex(events[..|events| - 1], e)
  }

  function Next(events: seq<Event>, prior: Option<Event>, initial: bool, limit: nat): seq<Event> {
    if initial then Last(events, limit)
    else if prior.None? then events
    else events[LastIndex(events, prior.value) + 1..]
  }

  function Moved(events: seq<Event>, prior: Option<Event>): Option<Event> {
    if events == [] then prior else Some(events[|events| - 1])
  }

  function RowsOf(run: string, events: seq<Event>, matches: Event -> bool): seq<Row> {
    if events == [] then []
    else
      var e := events[|events| - 1];
      RowsOf(run, events[..|events| - 1], matches) + if matches(e) then [Row(run, e)] else []
  }

  function ByTime(le: Order<string>): Order<Row> {
    (a: Row, b: Row) => le(a.event.at, b.event.at)
  }

  lemma {:induction false} ByTimeIsPreorder(le: Order<string>)
    requires TotalPreorder(le)
    ensures TotalPreorder(ByTime(le))
  {
    forall a: Row, b: Row ensures ByTime(le)(a, b) || ByTime(le)(b, a) {
      assert le(a.event.at, b.event.at) || le(b.event.at, a.event.at);
    }
    forall a: Row, b: Row, c: Row | ByTime(le)(a, b) && ByTime(le)(b, c) ensures ByTime(le)(a, c) {
      assert le(a.event.at, b.event.at) && le(b.event.at, c.event.at);
    }
  }

  // ----- Following one run

  /** What a poll finds of a run: its log, and the part of its end that was read, none where it was not selected. */
  datatype Poll = Poll(log: seq<Event>, window: seq<Event>)

  /** The log only grows, and each window is its end. */
  ghost predicate Grows(before: seq<Event>, polls: seq<Poll>) {
    forall n | 0 <= n < |polls| :: GrowsAt(before, polls, n)
  }

  ghost predicate GrowsAt(before: seq<Event>, polls: seq<Poll>, n: nat)
    requires n < |polls|
  {
    IsSuffix(polls[n].window, polls[n].log) && (if n == 0 then before else polls[n - 1].log) <= polls[n].log
  }

  function LogAfter(before: seq<Event>, polls: seq<Poll>): seq<Event> {
    if polls == [] then before else polls[|polls| - 1].log
  }

  function CursorAfter(start: Option<Event>, polls: seq<Poll>): Option<Event> {
    if polls == [] then start
    else Moved(polls[|polls| - 1].window, CursorAfter(start, polls[..|polls| - 1]))
  }

  /** How much of the log has been seen. */
  function Seen(seen: nat, polls: seq<Poll>): nat {
    if polls == [] then seen else SeenAfter(Seen(seen, polls[..|polls| - 1]), polls[|polls| - 1])
  }

  function SeenAfter(was: nat, p: Poll): nat {
    if p.window == [] then was else |p.log|
  }

  function Part(log: seq<Event>, from: nat, to: nat): seq<Event> {
    if from <= to <= |log| then log[from..to] else []
  }

  ghost predicate CursorAt(cursor: Option<Event>, log: seq<Event>, seen: nat) {
    seen <= |log| && cursor == if seen == 0 then None else Some(log[seen - 1])
  }

  /** The rows of one run that the polls write, batch after batch. */
  function FollowedRows(run: string, start: Option<Event>, polls: seq<Poll>, matches: Event -> bool,
                        le: Order<string>): seq<Row> {
    if polls == [] then []
    else
      var earlier := polls[..|polls| - 1];
      FollowedRows(run, start, earlier, matches, le)
      + Sort(RowsOf(run, Next(polls[|polls| - 1].window, CursorAfter(start, earlier), false, 0), matches), ByTime(le))
  }

  /** Within each batch the run's times never go back. */
  ghost predicate InTime(run: string, start: Option<Event>, polls: seq<Poll>, matches: Event -> bool,
                         le: Order<string>) {
    polls != [] ==>
      var earlier := polls[..|polls| - 1];
      && InTime(run, start, earlier, matches, le)
      && Sorted(RowsOf(run, Next(polls[|polls| - 1].window, CursorAfter(start, earlier), false, 0), matches),
                ByTime(le))
  }

  ghost predicate Fits(p: Poll, was: nat) {
    was <= |p.log| && IsSuffix(p.window, p.log)
  }

  /**
   Where a poll goes on: after the last occurrence of what was seen last, or where its window begins
   if that is later.
   */
  function Resume(p: Poll, was: nat): (n: nat)
    requires Fits(p, was)
    ensures was <= n <= |p.log|
  {
    var start := |p.log| - |p.window|;
    if was == 0 then start
    else
      var again := LastIndex(p.log, p.log[was - 1]) + 1;
      if again < start then start else again
  }

  ghost function MissedAt(p: Poll, was: nat): seq<Event> {
    if p.window == [] || !Fits(p, was) then [] else Part(p.log, was, Resume(p, was))
  }

  /** What the polls skip of the log. */
  ghost function Missed(seen: nat, polls: seq<Poll>): seq<Event> {
    if polls == [] then []
    else Missed(seen, polls[..|polls| - 1]) + MissedAt(polls[|polls| - 1], Seen(seen, polls[..|polls| - 1]))
  }

  /** The poll reads nothing, or it reads back to what had been seen, and what was seen last does not come again. */
  ghost predicate Reaches(was: nat, p: Poll) {
    && Fits(p, was)
    && (p.window == [] || (|p.log| - |p.window| <= was && (was > 0 ==> p.log[was - 1] !in p.log[was..])))
  }

  ghost predicate Covers(seen: nat, polls: seq<Poll>) {
    forall n | 0 <= n < |polls| :: Reaches(Seen(seen, polls[..n]), polls[n])
  }

  lemma {:induction false} LastIndexInEnd(log: seq<Event>, window: seq<Event>, e: Event)
    requires IsSuffix(window, log)
    ensures var start := |log| - |window|;
            LastIndex(window, e) == if LastIndex(log, e) >= start then LastIndex(log, e) - start else -1
  {
    hide LastIndex;
    var start := |log| - |window|;
    assert forall k | 0 <= k < |window| :: window[k] == log[start + k];
    var inWindow, inLog := LastIndex(window, e), LastIndex(log, e);
    if inLog >= start { assert window[inLog - start] == e; }
    if inWindow >= 0 { assert log[start + inWindow] == e; }
  }

  lemma {:induction false} EndOfEnd(log: seq<Event>, window: seq<Event>, k: nat)
    requires IsSuffix(window, log) && k <= |window|
    ensures window[k..] == log[|log| - |window| + k..]
  {
    assert window == log[|log| - |window|..];
  }

  lemma {:induction false} NextResumes(p: Poll, cursor: Option<Event>, was: nat)
    requires Fits(p, was) && CursorAt(cursor, p.log, was) && p.window != []
    ensures Next(p.window, cursor, false, 0) == p.log[Resume(p, was)..]
  {
    hide LastIndex, IsSuffix;
    if was > 0 { LastIndexInEnd(p.log, p.window, cursor.value); }
    EndOfEnd(p.log, p.window, if was == 0 then 0 else LastIndex(p.window, cursor.value) + 1);
  }

  lemma {:induction false} LastMeansNoneLater(log: seq<Event>, was: nat)
    requires 0 < was <= |log|
    ensures LastIndex(log, log[was - 1]) == was - 1 <==> log[was - 1] !in log[was..]
  {
    hide LastIndex;
    var e := log[was - 1];
    var last := LastIndex(log, e);
    if last >= was { assert log[was..][last - was] == e; }
    if e in log[was..] {
      var k :| 0 <= k < |log| - was && log[was..][k] == e;
      assert log[was + k] == e;
    }
  }

  lemma {:induction false} MissesNothing(p: Poll, was: nat)
    requires Fits(p, was)
    ensures MissedAt(p, was) == [] <==> Reaches(was, p)
  {
    hide LastIndex;
    if p.window != [] {
      assert |Part(p.log, was, Resume(p, was))| == Resume(p, was) - was;
      if was > 0 { LastMeansNoneLater(p.log, was); }
    }
  }

  /** An event that is logged again word for word hides what was logged in between. */
  lemma {:induction false} RepeatedEventHides(a: Event, b: Event)
    ensures Next([a, b, a], Some(a), false, 0) == []
  {
    assert [a, b, a][LastIndex([a, b, a], a)] == a;
  }

  lemma {:induction false} OnePollMore(before: seq<Event>, polls: seq<Poll>)
    requires Grows(before, polls) && polls != []
    ensures Grows(before, polls[..|polls| - 1]) && GrowsAt(before, polls, |polls| - 1)
    ensures LogAfter(before, polls[..|polls| - 1]) <= polls[|polls| - 1].log
  {
    var earlier := polls[..|polls| - 1];
    forall n | 0 <= n < |earlier| ensures GrowsAt(before, earlier, n) {
      assert GrowsAt(before, polls, n);
    }
    assert GrowsAt(before, polls, |polls| - 1);
  }

  lemma {:induction false} CoversOneMore(seen: nat, polls: seq<Poll>)
    requires polls != []
    ensures Covers(seen, polls) <==>
              Covers(seen, polls[..|polls| - 1]) && Reaches(Seen(seen, polls[..|polls| - 1]), polls[|polls| - 1])
  {
    var earlier := polls[..|polls| - 1];
    assert forall n | 0 <= n < |earlier| :: polls[..n] == earlier[..n];
  }

  lemma {:induction false} SeenFits(before: seq<Event>, seen: nat, polls: seq<Poll>)
    requires seen <= |before| && Grows(before, polls)
    ensures seen <= Seen(seen, polls) <= |LogAfter(before, polls)|
    ensures before <= LogAfter(before, polls)
    ensures polls != [] ==> Fits(polls[|polls| - 1], Seen(seen, polls[..|polls| - 1]))
  {
    if polls != [] {
      OnePollMore(before, polls);
      SeenFits(before, seen, polls[..|polls| - 1]);
    }
  }

  /** Nothing is missed exactly if every poll reaches. */
  lemma {:induction false} CoversMissesNothing(before: seq<Event>, seen: nat, polls: seq<Poll>)
    requires seen <= |before| && Grows(before, polls)
    ensures Missed(seen, polls) == [] <==> Covers(seen, polls)
  {
    if polls != [] {
      OnePollMore(before, polls);
      CoversMissesNothing(before, seen, polls[..|polls| - 1]);
      CoversOneMore(seen, polls);
      SeenFits(before, seen, polls);
      MissesNothing(polls[|polls| - 1], Seen(seen, polls[..|polls| - 1]));
    }
  }

  lemma {:induction false} RowsOfConcat(run: string, a: seq<Event>, b: seq<Event>, matches: Event -> bool)
    ensures RowsOf(run, a + b, matches) == RowsOf(run, a, matches) + RowsOf(run, b, matches)
  {
    if b == [] {
      assert a + b == a;
    } else {
      assert (a + b)[..|a + b| - 1] == a + b[..|b| - 1];
      RowsOfConcat(run, a, b[..|b| - 1], matches);
    }
  }

  lemma {:induction false} CursorFollows(before: seq<Event>, start: Option<Event>, seen: nat, polls: seq<Poll>)
    requires CursorAt(start, before, seen) && Grows(before, polls)
    ensures CursorAt(CursorAfter(start, polls), LogAfter(before, polls), Seen(seen, polls))
  {
    if polls != [] {
      OnePollMore(before, polls);
      CursorFollows(before, start, seen, polls[..|polls| - 1]);
    }
  }

  /** What was written of the events `all`, where `missed` were skipped: every row is accounted for once. */
  ghost predicate Accounted(all: seq<Row>, emitted: seq<Row>, missed: seq<Row>, inTime: bool) {
    && multiset(emitted) + multiset(missed) == multiset(all)
    && (emitted == all <==> missed == [] && inTime)
  }

  /** One batch more. */
  lemma {:induction false} AccountedFurther(le: Order<string>, all: seq<Row>, emitted: seq<Row>, missed: seq<Row>,
                                            inTime: bool, skipped: seq<Row>, rows: seq<Row>, allNow: seq<Row>,
                                            missedNow: seq<Row>)
    requires TotalPreorder(le) && Accounted(all, emitted, missed, inTime)
    requires allNow == all + skipped + rows && missedNow == missed + skipped
    ensures Accounted(allNow, emitted + Sort(rows, ByTime(le)), missedNow, inTime && Sorted(rows, ByTime(le)))
  {
    ByTimeIsPreorder(le);
    SortKeeps(rows, ByTime(le));
    SortedIsFixed(rows, ByTime(le));
    hide Sorted, Sort, ByTime, TotalPreorder;
    SameLength(all, emitted, missed);
    SameLength(rows, Sort(rows, ByTime(le)), []);
    ConcatParts(all, skipped, rows, emitted, Sort(rows, ByTime(le)), missed);
  }

  lemma {:induction false} SameLength(all: seq<Row>, emitted: seq<Row>, missed: seq<Row>)
    requires multiset(emitted) + multiset(missed) == multiset(all)
    ensures |emitted| + |missed| == |all|
  {
    assert |multiset(emitted) + multiset(missed)| == |emitted| + |missed|;
  }

  lemma {:induction false} ConcatParts(all: seq<Row>, skipped: seq<Row>, rows: seq<Row>, emitted: seq<Row>,
                                       sorted: seq<Row>, missed: seq<Row>)
    requires |emitted| + |missed| == |all| && |sorted| == |rows|
    ensures emitted + sorted == all + skipped + rows && missed + skipped == [] <==>
              emitted == all && sorted == rows && missed == [] && skipped == []
    ensures emitted + sorted == all + skipped + rows ==> missed + skipped == []
  {
    if emitted + sorted == all + skipped + rows {
      assert |emitted + sorted| == |all + skipped + rows|;
      assert emitted == (emitted + sorted)[..|emitted|] && sorted == (emitted + sorted)[|emitted|..];
      assert all == (all + skipped + rows)[..|all|] && rows == (all + skipped + rows)[|all|..];
    }
  }

  lemma {:induction false} SliceParts(before: seq<Event>, log: seq<Event>, seen: nat, was: nat, r: nat, now: nat)
    requires before <= log && seen <= was <= |before| && was <= r <= now <= |log|
    ensures Part(log, seen, now) == Part(before, seen, was) + Part(log, was, r) + Part(log, r, now)
  {
  }

  lemma {:induction false} SkipsAndReads(p: Poll, was: nat, cursor: Option<Event>) returns (r: nat)
    requires Fits(p, was) && CursorAt(cursor, p.log, was)
    ensures was <= r <= |p.log|
    ensures MissedAt(p, was) == Part(p.log, was, r)
    ensures Next(p.window, cursor, false, 0) == Part(p.log, r, SeenAfter(was, p))
    ensures r <= SeenAfter(was, p)
  {
    hide LastIndex, Resume;
    if p.window == [] {
      r := was;
    } else {
      NextResumes(p, cursor, was);
      hide Next;
      r := Resume(p, was);
    }
  }

  /** The log up to the last event seen is what was seen before, what is skipped and what is read. */
  lemma {:induction false} LogParts(before: seq<Event>, p: Poll, seen: nat, was: nat, cursor: Option<Event>)
    requires Fits(p, was) && CursorAt(cursor, p.log, was)
    requires before <= p.log && seen <= was <= |before|
    ensures Part(p.log, seen, SeenAfter(was, p)) == Part(before, seen, was) + MissedAt(p, was)
              + Next(p.window, cursor, false, 0)
  {
    hide CursorAt, Next, MissedAt, Part, Fits;
    var r := SkipsAndReads(p, was, cursor);
    SliceParts(before, p.log, seen, was, r, SeenAfter(was, p));
  }

  lemma {:induction false} OnePollEmits(run: string, before: seq<Event>, p: Poll, seen: nat, was: nat,
                                        cursor: Option<Event>, matches: Event -> bool, le: Order<string>,
                                        emitted: seq<Row>, missed: seq<Event>, inTime: bool)
    requires TotalPreorder(le) && Fits(p, was) && CursorAt(cursor, p.log, was)
    requires before <= p.log && seen <= was <= |before|
    requires Accounted(RowsOf(run, Part(before, seen, was), matches), emitted, RowsOf(run, missed, matches), inTime)
    ensures var now := SeenAfter(was, p);
            var rows := RowsOf(run, Next(p.window, cursor, false, 0), matches);
            Accounted(RowsOf(run, Part(p.log, seen, now), matches), emitted + Sort(rows, ByTime(le)),
                      RowsOf(run, missed + MissedAt(p, was), matches), inTime && Sorted(rows, ByTime(le)))
  {
    hide *;
    var unseen, skipped, all := Next(p.window, cursor, false, 0), MissedAt(p, was), Part(before, seen, was);
    LogParts(before, p, seen, was, cursor);
    RowsOfConcat(run, missed, skipped, matches);
    RowsOfParts(run, all, skipped, unseen, matches);
    AccountedFurther(le, RowsOf(run, all, matches), emitted, RowsOf(run, missed, matches), inTime,
                     RowsOf(run, skipped, matches), RowsOf(run, unseen, matches),
                     RowsOf(run, Part(p.log, seen, SeenAfter(was, p)), matches),
                       RowsOf(run, missed + skipped, matches));
  }

  lemma {:induction false} RowsOfParts(run: string, a: seq<Event>, b: seq<Event>, c: seq<Event>, matches: Event -> bool)
    ensures RowsOf(run, a + b + c, matches) == RowsOf(run, a, matches) + RowsOf(run, b, matches)
              + RowsOf(run, c, matches)
  {
    hide RowsOf;
    RowsOfConcat(run, a + b, c, matches);
    RowsOfConcat(run, a, b, matches);
  }

  /**
   Following a run whose log has been seen up to `seen`: each matching event appended up to the last
   one seen is written exactly once or is one of the missed ones, and the rows are those events in
   log order exactly if none was missed and no batch's times go back.
   */
  lemma {:induction false} FollowEmitsOnce(run: string, before: seq<Event>, start: Option<Event>, seen: nat,
                                           polls: seq<Poll>, matches: Event -> bool, le: Order<string>)
    requires CursorAt(start, before, seen) && Grows(before, polls) && TotalPreorder(le)
    ensures var log, now := LogAfter(before, polls), Seen(seen, polls);
            && seen <= now <= |log|
            && Accounted(RowsOf(run, Part(log, seen, now), matches), FollowedRows(run, start, polls, matches, le),
                         RowsOf(run, Missed(seen, polls), matches), InTime(run, start, polls, matches, le))
  {
    hide Grows, CursorAt, Fits, Part, SeenAfter, RowsOf, Accounted, TotalPreorder, Sorted, Sort, ByTime, Next, MissedAt;
    if polls == [] {
      NothingFollowed(run, before, start, seen, matches, le);
    } else {
      var earlier, p := polls[..|polls| - 1], polls[|polls| - 1];
      var middle, was, cursor := LogAfter(before, earlier), Seen(seen, earlier), CursorAfter(start, earlier);
      SeenIsBounded(before, start, seen, polls);
      OnePollMore(before, polls);
      FollowEmitsOnce(run, before, start, seen, earlier, matches, le);
      CursorFollows(before, start, seen, earlier);
      CursorIsKept(middle, p.log, cursor, was);
      OnePollEmits(run, middle, p, seen, was, cursor, matches, le, FollowedRows(run, start, earlier, matches, le),
                   Missed(seen, earlier), InTime(run, start, earlier, matches, le));
    }
  }

  lemma {:induction false} SeenIsBounded(before: seq<Event>, start: Option<Event>, seen: nat, polls: seq<Poll>)
    requires CursorAt(start, before, seen) && Grows(before, polls) && polls != []
    ensures seen <= Seen(seen, polls) <= |LogAfter(before, polls)|
    ensures Fits(polls[|polls| - 1], Seen(seen, polls[..|polls| - 1]))
  {
    SeenFits(before, seen, polls);
  }

  lemma {:induction false} NothingFollowed(run: string, before: seq<Event>, start: Option<Event>, seen: nat,
                                           matches: Event -> bool, le: Order<string>)
    requires CursorAt(start, before, seen)
    ensures seen <= |before|
    ensures Accounted(RowsOf(run, Part(before, seen, seen), matches), FollowedRows(run, start, [], matches, le),
                      RowsOf(run, Missed(seen, []), matches), InTime(run, start, [], matches, le))
  {
  }

  lemma {:induction false} CursorIsKept(log: seq<Event>, longer: seq<Event>, cursor: Option<Event>, seen: nat)
    requires log <= longer && CursorAt(cursor, log, seen)
    ensures CursorAt(cursor, longer, seen)
  {
  }

  /** A poll that reads back to what was seen adds nothing missed, and has seen the log to its end. */
  lemma {:induction false} CoveredFurther(before: seq<Event>, seen: nat, polls: seq<Poll>)
    requires polls != [] && seen <= |before| && Grows(before, polls) && Distinct(polls[|polls| - 1].log)
    requires var earlier, p := polls[..|polls| - 1], polls[|polls| - 1];
             var was := |LogAfter(before, earlier)|;
             && Missed(seen, earlier) == [] && Seen(seen, earlier) == was
             && |p.log| - |p.window| <= was && (p.window == [] ==> |p.log| <= was)
    ensures Missed(seen, polls) == [] && Seen(seen, polls) == |LogAfter(before, polls)|
  {
    var earlier, p := polls[..|polls| - 1], polls[|polls| - 1];
    var was := |LogAfter(before, earlier)|;
    OnePollMore(before, polls);
    SeenFits(before, seen, polls);
    MissesNothing(p, was);
    assert was > 0 ==> forall k | was <= k < |p.log| :: p.log[k] != p.log[was - 1];
  }

  /** Times that never go back over all the rows go back in no batch. */
  lemma {:induction false} SortedIsInTime(run: string, before: seq<Event>, start: Option<Event>, seen: nat,
                                          polls: seq<Poll>, matches: Event -> bool, le: Order<string>)
    requires CursorAt(start, before, seen) && Grows(before, polls)
    requires seen <= Seen(seen, polls) <= |LogAfter(before, polls)|
    requires Sorted(RowsOf(run, Part(LogAfter(before, polls), seen, Seen(seen, polls)), matches), ByTime(le))
    ensures InTime(run, start, polls, matches, le)
  {
    hide RowsOf, Sorted, ByTime, Grows, CursorAt, Next, Part, MissedAt, Fits;
    if polls != [] {
      var earlier, p := polls[..|polls| - 1], polls[|polls| - 1];
      var middle, was, cursor := LogAfter(before, earlier), Seen(seen, earlier), CursorAfter(start, earlier);
      OnePollMore(before, polls);
      SeenIsBounded(before, start, seen, polls);
      CursorFollows(before, start, seen, earlier);
      CursorIsKept(middle, p.log, cursor, was);
      SeenOfEarlier(before, start, seen, earlier);
      LogParts(before := middle, p := p, seen := seen, was := was, cursor := cursor);
      RowsOfParts(run, Part(middle, seen, was), MissedAt(p, was), Next(p.window, cursor, false, 0), matches);
      SortedParts(RowsOf(run, Part(middle, seen, was), matches), RowsOf(run, MissedAt(p, was), matches),
                  RowsOf(run, Next(p.window, cursor, false, 0), matches), ByTime(le));
      SortedIsInTime(run, before, start, seen, earlier, matches, le);
    }
  }

  lemma {:induction false} SeenOfEarlier(before: seq<Event>, start: Option<Event>, seen: nat, polls: seq<Poll>)
    requires CursorAt(start, before, seen) && Grows(before, polls)
    ensures seen <= Seen(seen, polls) <= |LogAfter(before, polls)|
  {
    SeenFits(before, seen, polls);
  }

  lemma {:induction false} SortedParts(a: seq<Row>, b: seq<Row>, c: seq<Row>, le: Order<Row>)
    requires Sorted(a + b + c, le)
    ensures Sorted(a, le) && Sorted(c, le)
  {
    var all := a + b + c;
    forall i, j | 0 <= i < j < |a| ensures le(a[i], a[j]) {
      assert a[i] == all[i] && a[j] == all[j];
    }
    forall i, j | 0 <= i < j < |c| ensures le(c[i], c[j]) {
      var k := |a| + |b|;
      assert c[i] == all[k + i] && c[j] == all[k + j];
    }
  }
}
