/**
 The event feed of `src/cli-events.ts`: each poll reads the end of every selected run's log and
 writes what it has not written before, oldest first.
 */
module FollowFeed {
  import opened Wrappers
  import opened Sequences
  import opened LogTail
  import opened RunFeed

  // ----- One poll of all runs

  function Prior(cursors: map<string, Event>, run: string): Option<Event> {
    if run in cursors then Some(cursors[run]) else None
  }

  function Collected(runs: seq<string>, windows: string -> seq<Event>, cursors: map<string, Event>,
                     matches: Event -> bool, initial: bool, limit: nat): seq<Row> {
    if runs == [] then []
    else
      var run := runs[|runs| - 1];
      Collected(runs[..|runs| - 1], windows, cursors, matches, initial, limit)
      + RowsOf(run, Next(windows(run), Prior(cursors, run), initial, limit), matches)
  }

  class Feed {
    /** The last event seen of each run. */
    var cursors: map<string, Event>

    constructor ()
      ensures cursors == map[]
    {
      cursors := map[];
    }

    /** `emitEvents`: `windows` is what each run's log reads as now; `le` is the comparison of the locale. */
    method EmitEvents(runs: seq<string>, windows: string -> seq<Event>, matches: Event -> bool, initial: bool,
                      limit: nat, le: Order<string>)
      returns (emitted: seq<Row>)
      requires Distinct(runs)
      modifies this
      ensures var rows := Sort(Collected(runs, windows, old(cursors), matches, initial, limit), ByTime(le));
              emitted == if initial then Last(rows, limit) else rows
      ensures forall run: string ::
                Prior(cursors, run) == if run in runs then Moved(windows(run), Prior(old(cursors), run))
                  else Prior(old(cursors), run)
    {
      hide Next, RowsOf, Sort, ByTime;
      var rows := [];
      for n := 0 to |runs|
        invariant rows == Collected(runs[..n], windows, old(cursors), matches, initial, limit)
        invariant forall run: string ::
                    Prior(cursors, run) == if run in runs[..n] then Moved(windows(run), Prior(old(cursors), run))
                      else Prior(old(cursors), run)
      {
        var run := runs[n];
        var events := windows(run);
        assert run !in runs[..n];
        var unseen := Next(events, Prior(cursors, run), initial, limit);
        if events != [] { cursors := cursors[run := events[|events| - 1]]; }
        var matching := Select(run, unseen, matches);
        rows := rows + matching;
        assert runs[..n + 1] == runs[..n] + [run] && runs[..n + 1][..n] == runs[..n];
      }
      assert runs[..|runs|] == runs;
      rows := Sort(rows, ByTime(le));
      emitted := if initial then Last(rows, limit) else rows;
    }

    /** `cmdEventsWithDeps` with `--follow`: the last events there are, then poll after poll. */
    method Follow(first: Reading, readings: seq<Reading>, reader: Reader, matches: Event -> bool, limit: nat,
                  le: Order<string>)
      returns (initial: seq<Row>, emitted: seq<Row>)
      requires cursors == map[]
      requires TotalPreorder(le) && reader.parse("").None? && LogsGrow(first, readings, reader)
      modifies this
      ensures forall run: string :: Followed(run, first, readings, reader, matches, limit, le, initial, emitted)
    {
      hide *;
      RunsAreDistinct(first, readings, reader);
      initial := EmitFirst(first, reader, matches, limit, le);
      emitted := [];
      forall run: string
        ensures FollowedTo(run, StartOf(run, first, reader, limit), PollsOf(run, readings[..0], reader), matches, le,
                           cursors, emitted)
      {
        assert readings[..0] == [];
        NothingPolled(run, StartOf(run, first, reader, limit), reader, matches, le, cursors);
      }
      for n := 0 to |readings|
        invariant forall run: string ::
                    FollowedTo(run, StartOf(run, first, reader, limit), PollsOf(run, readings[..n], reader), matches,
                               le, cursors, emitted)
      {
        ghost var was := cursors;
        var batch := EmitMore(readings[n], reader, matches, limit, le);
        forall run: string
          ensures FollowedTo(run, StartOf(run, first, reader, limit), PollsOf(run, readings[..n + 1], reader), matches,
                             le, cursors, emitted + batch)
        {
          OneReadingMore(run, readings, n, reader);
          OnePollMoreOf(run, StartOf(run, first, reader, limit), PollsOf(run, readings[..n], reader),
                        ReadRun(readings[n], run, reader, WINDOW), matches, le, was, emitted, cursors, batch);
        }
        emitted := emitted + batch;
      }
      assert readings[..|readings|] == readings;
      forall run: string ensures Followed(run, first, readings, reader, matches, limit, le, initial, emitted) {
        FollowedIsAccounted(run, first, readings, reader, matches, limit, le, cursors, initial, emitted);
      }
    }

    /** The first call of `emitEvents`. */
    method EmitFirst(first: Reading, reader: Reader, matches: Event -> bool, limit: nat, le: Order<string>)
      returns (initial: seq<Row>)
      requires cursors == map[] && Distinct(first.runs) && TotalPreorder(le)
      modifies this
      ensures forall run: string ::
                && Prior(cursors, run) == StartOf(run, first, reader, limit)
                && FirstRows(run, first, reader, matches, limit, initial)
    {
      hide Collected, Sort, ByTime, TotalPreorder, Last, Filter, RowsOf, Moved, Distinct;
      var windows := Windows(first, reader, InitialEvents(limit));
      initial := EmitEvents(first.runs, windows, matches, true, limit, le);
      forall run: string
        ensures Prior(cursors, run) == StartOf(run, first, reader, limit)
                && FirstRows(run, first, reader, matches, limit, initial)
      {
        CursorOfRun(first, run, reader, InitialEvents(limit), None);
        FirstBatchOfRun(first, run, reader, matches, limit, le);
      }
    }

    /** A later call of `emitEvents`. */
    method EmitMore(r: Reading, reader: Reader, matches: Event -> bool, limit: nat, le: Order<string>)
      returns (batch: seq<Row>)
      requires Distinct(r.runs) && TotalPreorder(le)
      modifies this
      ensures forall run: string ::
                var window, prior := ReadRun(r, run, reader, WINDOW).window, Prior(old(cursors), run);
                && Prior(cursors, run) == Moved(window, prior)
                && Filter(batch, InRun(run)) == Sort(RowsOf(run, Next(window, prior, false, 0), matches), ByTime(le))
    {
      hide Collected, Sort, ByTime, TotalPreorder, Last, Filter, RowsOf, Moved, Distinct, Next, Prior;
      var windows := Windows(r, reader, WINDOW);
      batch := EmitEvents(r.runs, windows, matches, false, limit, le);
      forall run: string
        ensures var window, prior := ReadRun(r, run, reader, WINDOW).window, Prior(old(cursors), run);
                && Prior(cursors, run) == Moved(window, prior)
                && Filter(batch, InRun(run)) == Sort(RowsOf(run, Next(window, prior, false, 0), matches), ByTime(le))
      {
        CursorOfRun(r, run, reader, WINDOW, Prior(old(cursors), run));
        BatchOfRun(r, run, reader, old(cursors), matches, limit, le);
      }
    }

    method Select(run: string, events: seq<Event>, matches: Event -> bool) returns (rows: seq<Row>)
      ensures rows == RowsOf(run, events, matches)
    {
      rows := [];
      for n := 0 to |events|
        invariant rows == RowsOf(run, events[..n], matches)
      {
        assert events[..n + 1][..n] == events[..n];
        if matches(events[n]) { rows := rows + [Row(run, events[n])]; }
      }
      assert events[..|events|] == events;
    }
  }

  // ----- Order within a batch

  function InRun(run: string): Row -> bool {
    (r: Row) => r.run == run
  }

  lemma {:induction false} RowsOfRun(run: string, other: string, events: seq<Event>, matches: Event -> bool)
    ensures Filter(RowsOf(run, events, matches), InRun(other)) == if run == other then RowsOf(run, events, matches)
              else []
  {
    if events != [] {
      var rest, e := events[..|events| - 1], events[|events| - 1];
      RowsOfRun(run, other, rest, matches);
      hide Filter;
      if matches(e) {
        FilterOfOneMore(RowsOf(run, rest, matches), Row(run, e), InRun(other));
      } else {
        assert RowsOf(run, events, matches) == RowsOf(run, rest, matches);
      }
    }
  }

  lemma {:induction false} CollectedOfRun(runs: seq<string>, windows: string -> seq<Event>, cursors: map<string, Event>,
                                          matches: Event -> bool, initial: bool, limit: nat, run: string)
    requires Distinct(runs)
    ensures Filter(Collected(runs, windows, cursors, matches, initial, limit), InRun(run)) ==
              if run in runs then RowsOf(run, Next(windows(run), Prior(cursors, run), initial, limit), matches) else []
  {
    hide Filter, RowsOf, Next, Prior;
    if runs == [] {
      NothingInRun(run);
    } else {
      var rest, last := runs[..|runs| - 1], runs[|runs| - 1];
      assert runs == rest + [last] && last !in rest;
      CollectedOfRun(rest, windows, cursors, matches, initial, limit, run);
      var events := Next(windows(last), Prior(cursors, last), initial, limit);
      FilterOfConcat(Collected(rest, windows, cursors, matches, initial, limit), RowsOf(last, events, matches),
                     InRun(run));
      RowsOfRun(last, run, events, matches);
    }
  }

  lemma {:induction false} NothingInRun(run: string)
    ensures Filter([], InRun(run)) == []
  {
  }

  /**
   A batch holds each run's new matching events, and no others; the batch is in time order, and a
   run's events keep their order in the log exactly when their own times never go back.
   */
  lemma {:induction false} BatchKeepsLogOrder(runs: seq<string>, windows: string -> seq<Event>,
                                              cursors: map<string, Event>, matches: Event -> bool, le: Order<string>,
                                              run: string)
    requires Distinct(runs) && TotalPreorder(le) && run in runs
    ensures var batch := Sort(Collected(runs, windows, cursors, matches, false, 0), ByTime(le));
            var rows := RowsOf(run, Next(windows(run), Prior(cursors, run), false, 0), matches);
            && Sorted(batch, ByTime(le))
            && Filter(batch, InRun(run)) == Sort(rows, ByTime(le))
            && multiset(Filter(batch, InRun(run))) == multiset(rows)
            && (Filter(batch, InRun(run)) == rows <==> Sorted(rows, ByTime(le)))
  {
    var rows := RowsOf(run, Next(windows(run), Prior(cursors, run), false, 0), matches);
    var all := Collected(runs, windows, cursors, matches, false, 0);
    ByTimeIsPreorder(le);
    SortSorts(all, ByTime(le));
    FilterOfSort(all, ByTime(le), InRun(run));
    CollectedOfRun(runs, windows, cursors, matches, false, 0, run);
    SortKeeps(rows, ByTime(le));
    SortedIsFixed(rows, ByTime(le));
  }

  /** A clock that was set back between two events of one run makes the later one come first. */
  lemma {:induction false} EarlierTimeComesFirst(le: Order<string>, first: Row, second: Row)
    requires first.run == second.run && !le(first.event.at, second.event.at)
    ensures Sort([first, second], ByTime(le)) == [second, first]
  {
    var none: seq<Row> := [];
    assert [first, second] == none + [first] + [second];
    SortOfOneMore(none, first, ByTime(le));
    SortOfOneMore(none + [first], second, ByTime(le));
    InsertIntoOneMore(none, first, second, ByTime(le));
  }

  // ----- Following all runs

  /** What one poll finds: the selected runs, and the text of each run's log, empty where there is none. */
  datatype Reading = Reading(runs: seq<string>, logs: string -> string)

  function ReadRun(r: Reading, run: string, reader: Reader, maxEvents: nat): Poll {
    Poll(Events(r.logs(run), reader.parse), if run in r.runs then reader.Read(r.logs(run), maxEvents) else [])
  }

  function Windows(r: Reading, reader: Reader, maxEvents: nat): string -> seq<Event> {
    (run: string) => reader.Read(r.logs(run), maxEvents)
  }

  function PollsOf(run: string, readings: seq<Reading>, reader: Reader): seq<Poll> {
    if readings == [] then []
    else PollsOf(run, readings[..|readings| - 1], reader) + [ReadRun(readings[|readings| - 1], run, reader, WINDOW)]
  }

  function InitialEvents(limit: nat): nat {
    if limit < WINDOW then WINDOW else limit
  }

  /** No run is listed twice, and the events of each log stay while more are appended. */
  ghost predicate LogsGrow(first: Reading, readings: seq<Reading>, reader: Reader) {
    && Distinct(first.runs)
    && forall n | 0 <= n < |readings| :: LogsGrowAt(first, readings, n, reader)
  }

  ghost predicate LogsGrowAt(first: Reading, readings: seq<Reading>, n: nat, reader: Reader)
    requires n < |readings|
  {
    && Distinct(readings[n].runs)
    && var before := if n == 0 then first else readings[n - 1];
       forall run: string :: Events(before.logs(run), reader.parse) <= Events(readings[n].logs(run), reader.parse)
  }

  /** What following one run amounts to, from its first poll on. */
  ghost predicate Followed(run: string, first: Reading, readings: seq<Reading>, reader: Reader, matches: Event -> bool,
                           limit: nat, le: Order<string>, initial: seq<Row>, emitted: seq<Row>) {
    var start, polls := ReadRun(first, run, reader, InitialEvents(limit)), PollsOf(run, readings, reader);
    var was, log := SeenAfter(0, start), LogAfter(start.log, polls);
    var now := Seen(was, polls);
    && was <= now <= |log|
    && multiset(Filter(initial, InRun(run))) <= multiset(RowsOf(run, Part(log, 0, was), matches))
    && Accounted(RowsOf(run, Part(log, was, now), matches), Filter(emitted, InRun(run)),
                 RowsOf(run, Missed(was, polls), matches),
                 InTime(run, Moved(start.window, None), polls, matches, le))
  }

  /** Writing one batch advances the record of a run by one poll, whether the run was selected or not. */
  lemma {:induction false} BatchOfRun(r: Reading, run: string, reader: Reader, cursors: map<string, Event>,
                                      matches: Event -> bool, limit: nat, le: Order<string>)
    requires Distinct(r.runs) && TotalPreorder(le)
    ensures Filter(Sort(Collected(r.runs, Windows(r, reader, WINDOW), cursors, matches, false, limit), ByTime(le)),
                   InRun(run))
            == Sort(RowsOf(run, Next(ReadRun(r, run, reader, WINDOW).window, Prior(cursors, run), false, 0), matches),
                    ByTime(le))
  {
    hide Sorted, TotalPreorder, Sort, Filter, Window;
    ByTimeIsPreorder(le);
    var all := Collected(r.runs, Windows(r, reader, WINDOW), cursors, matches, false, limit);
    FilterOfSort(all, ByTime(le), InRun(run));
    CollectedOfRun(r.runs, Windows(r, reader, WINDOW), cursors, matches, false, limit, run);
  }

  lemma {:induction false} LastOfRun(rows: seq<Row>, limit: nat, run: string)
    ensures multiset(Filter(Last(rows, limit), InRun(run))) <= multiset(Filter(rows, InRun(run)))
  {
    hide Filter;
    if limit < |rows| {
      var before := rows[..|rows| - limit];
      assert rows == before + Last(rows, limit);
      FilterOfConcat(before, Last(rows, limit), InRun(run));
    }
  }

  lemma {:induction false} RowsOfLast(run: string, events: seq<Event>, limit: nat, matches: Event -> bool)
    ensures multiset(RowsOf(run, Last(events, limit), matches)) <= multiset(RowsOf(run, events, matches))
  {
    hide RowsOf;
    if limit < |events| {
      var before := events[..|events| - limit];
      assert events == before + Last(events, limit);
      RowsOfConcat(run, before, Last(events, limit), matches);
    }
  }

  /** The first batch holds events of the windows only, each at most once. */
  lemma {:induction false} FirstBatchOfRun(r: Reading, run: string, reader: Reader, matches: Event -> bool, limit: nat,
                                           le: Order<string>)
    requires Distinct(r.runs) && TotalPreorder(le)
    ensures var rows := Sort(Collected(r.runs, Windows(r, reader, InitialEvents(limit)), map[], matches, true, limit),
                             ByTime(le));
            multiset(Filter(Last(rows, limit), InRun(run)))
            <= multiset(RowsOf(run, ReadRun(r, run, reader, InitialEvents(limit)).window, matches))
  {
    hide Sorted, TotalPreorder, Sort, Filter, Window, Last, RowsOf;
    var windows := Windows(r, reader, InitialEvents(limit));
    var all := Collected(r.runs, windows, map[], matches, true, limit);
    ByTimeIsPreorder(le);
    FilterOfSort(all, ByTime(le), InRun(run));
    SortKeeps(Filter(all, InRun(run)), ByTime(le));
    CollectedOfRun(r.runs, windows, map[], matches, true, limit, run);
    RowsOfLast(run, windows(run), limit, matches);
    LastOfRun(Sort(all, ByTime(le)), limit, run);
  }

  lemma {:induction false} LogsGrowBefore(first: Reading, readings: seq<Reading>, reader: Reader)
    requires LogsGrow(first, readings, reader) && readings != []
    ensures LogsGrow(first, readings[..|readings| - 1], reader) && LogsGrowAt(first, readings, |readings| - 1, reader)
  {
    var earlier := readings[..|readings| - 1];
    forall n | 0 <= n < |earlier| ensures LogsGrowAt(first, earlier, n, reader) {
      assert LogsGrowAt(first, readings, n, reader);
    }
  }

  /** The polls of one run see a growing log, and ends of it. */
  lemma {:induction false} PollsGrow(run: string, first: Reading, readings: seq<Reading>, reader: Reader)
    requires LogsGrow(first, readings, reader) && reader.parse("").None?
    ensures var polls := PollsOf(run, readings, reader);
            && |polls| == |readings|
            && Grows(Events(first.logs(run), reader.parse), polls)
            && (readings != [] ==> polls[|polls| - 1].log == Events(readings[|readings| - 1].logs(run), reader.parse))
  {
    hide Events, Window;
    if readings != [] {
      var earlier, last := readings[..|readings| - 1], readings[|readings| - 1];
      LogsGrowBefore(first, readings, reader);
      PollsGrow(run, first, earlier, reader);
      var before, polls := PollsOf(run, earlier, reader), PollsOf(run, readings, reader);
      ReadsAnEnd(last, run, reader, WINDOW);
      assert polls == before + [ReadRun(last, run, reader, WINDOW)];
      hide PollsOf, ReadRun;
      forall n | 0 <= n < |polls| ensures GrowsAt(Events(first.logs(run), reader.parse), polls, n) {
        if n < |before| { assert GrowsAt(Events(first.logs(run), reader.parse), before, n); }
      }
    }
  }

  lemma {:induction false} ReadsAnEnd(r: Reading, run: string, reader: Reader, maxEvents: nat)
    requires reader.parse("").None?
    ensures var p := ReadRun(r, run, reader, maxEvents);
            p.log == Events(r.logs(run), reader.parse) && IsSuffix(p.window, p.log)
  {
    TailIsSuffix(r.logs(run), reader.parse, reader.maxBytes);
  }

  /** The cursor a run has after the first poll. */
  function StartOf(run: string, first: Reading, reader: Reader, limit: nat): Option<Event> {
    Moved(ReadRun(first, run, reader, InitialEvents(limit)).window, None)
  }

  /** The first batch holds events of the run's window only, none more often than the window does. */
  ghost predicate FirstRows(run: string, first: Reading, reader: Reader, matches: Event -> bool, limit: nat,
                            initial: seq<Row>) {
    multiset(Filter(initial, InRun(run)))
      <= multiset(RowsOf(run, ReadRun(first, run, reader, InitialEvents(limit)).window, matches))
  }

  lemma {:induction false} RunsAreDistinct(first: Reading, readings: seq<Reading>, reader: Reader)
    requires LogsGrow(first, readings, reader)
    ensures Distinct(first.runs) && forall n | 0 <= n < |readings| :: Distinct(readings[n].runs)
  {
    forall n | 0 <= n < |readings| ensures Distinct(readings[n].runs) {
      assert LogsGrowAt(first, readings, n, reader);
    }
  }

  lemma {:induction false} FollowedIsAccounted(run: string, first: Reading, readings: seq<Reading>, reader: Reader,
                                               matches: Event -> bool, limit: nat, le: Order<string>,
                                               cursors: map<string, Event>, initial: seq<Row>, emitted: seq<Row>)
    requires LogsGrow(first, readings, reader) && reader.parse("").None? && TotalPreorder(le)
    requires FirstRows(run, first, reader, matches, limit, initial)
    requires FollowedTo(run, StartOf(run, first, reader, limit), PollsOf(run, readings, reader), matches, le, cursors,
                        emitted)
    ensures Followed(run, first, readings, reader, matches, limit, le, initial, emitted)
  {
    hide LogsGrow, TotalPreorder, Accounted, RowsOf, Filter, FollowedRows, Missed, InTime, Events, Window, ReadRun,
      PollsOf;
    var start, polls := ReadRun(first, run, reader, InitialEvents(limit)), PollsOf(run, readings, reader);
    var was := SeenAfter(0, start);
    ReadsAnEnd(first, run, reader, InitialEvents(limit));
    PollsGrow(run, first, readings, reader);
    FollowEmitsOnce(run, start.log, Moved(start.window, None), was, polls, matches, le);
    SeenFits(start.log, was, polls);
    hide Grows;
    FirstPart(run, LogAfter(start.log, polls), start, matches);
  }

  lemma {:induction false} FirstPart(run: string, log: seq<Event>, start: Poll, matches: Event -> bool)
    requires start.log <= log && IsSuffix(start.window, start.log)
    ensures multiset(RowsOf(run, start.window, matches))
              <= multiset(RowsOf(run, Part(log, 0, SeenAfter(0, start)), matches))
  {
    hide RowsOf;
    if start.window == [] {
      assert Part(log, 0, 0) == [];
    } else {
      assert Part(log, 0, |start.log|) == start.log;
      var before := start.log[..|start.log| - |start.window|];
      assert start.log == before + start.window;
      RowsOfConcat(run, before, start.window, matches);
    }
  }

  /** The state of one run after some polls of the feed. */
  ghost predicate FollowedTo(run: string, start: Option<Event>, polls: seq<Poll>, matches: Event -> bool,
                             le: Order<string>, cursors: map<string, Event>, emitted: seq<Row>) {
    && Prior(cursors, run) == CursorAfter(start, polls)
    && Filter(emitted, InRun(run)) == FollowedRows(run, start, polls, matches, le)
  }

  lemma {:induction false} NothingPolled(run: string, start: Option<Event>, reader: Reader, matches: Event -> bool,
                                         le: Order<string>, cursors: map<string, Event>)
    requires Prior(cursors, run) == start
    ensures FollowedTo(run, start, PollsOf(run, [], reader), matches, le, cursors, [])
  {
  }

  lemma {:induction false} OnePollMoreOf(run: string, start: Option<Event>, polls: seq<Poll>, p: Poll,
                                         matches: Event -> bool, le: Order<string>, cursors: map<string, Event>,
                                         emitted: seq<Row>, cursorsNow: map<string, Event>, batch: seq<Row>)
    requires FollowedTo(run, start, polls, matches, le, cursors, emitted)
    requires Prior(cursorsNow, run) == Moved(p.window, Prior(cursors, run))
    requires Filter(batch, InRun(run))
               == Sort(RowsOf(run, Next(p.window, Prior(cursors, run), false, 0), matches), ByTime(le))
    ensures FollowedTo(run, start, polls + [p], matches, le, cursorsNow, emitted + batch)
  {
    hide Moved, Filter, Sort, RowsOf, Next, ByTime, InRun;
    assert (polls + [p])[..|polls|] == polls;
    FilterOfConcat(emitted, batch, InRun(run));
  }

  lemma {:induction false} OneReadingMore(run: string, readings: seq<Reading>, n: nat, reader: Reader)
    requires n < |readings|
    ensures PollsOf(run, readings[..n + 1], reader) == PollsOf(run, readings[..n], reader)
              + [ReadRun(readings[n], run, reader, WINDOW)]
  {
    assert readings[..n + 1][..n] == readings[..n];
  }

  /** The cursor moves as over the window of a run that is read, and over an empty one otherwise. */
  lemma {:induction false} CursorOfRun(r: Reading, run: string, reader: Reader, maxEvents: nat, prior: Option<Event>)
    ensures Moved(ReadRun(r, run, reader, maxEvents).window, prior)
            == if run in r.runs then Moved(Windows(r, reader, maxEvents)(run), prior) else prior
  {
  }

  // ----- When exactly the matching events are written

  /** From poll to poll the run is selected and what changed of its log fits into both limits. */
  ghost predicate ChangesFit(run: string, first: Reading, readings: seq<Reading>, reader: Reader) {
    forall n | 0 <= n < |readings| :: ChangeFits(run, first, readings, n, reader)
  }

  ghost predicate ChangeFits(run: string, first: Reading, readings: seq<Reading>, n: nat, reader: Reader)
    requires n < |readings|
  {
    run in readings[n].runs && Near((if n == 0 then first else readings[n - 1]).logs(run), readings[n].logs(run),
                                    reader)
  }

  /**
   Within the limits nothing is missed: if the first poll saw the log to its end, what changes
   between two polls fits, and no event is logged twice, then the polls cover the log to its end.
   */
  lemma {:induction false} ChangesThatFitAreCovered(run: string, first: Reading, readings: seq<Reading>, reader: Reader)
    requires LogsGrow(first, readings, reader) && reader.parse("").None? && ChangesFit(run, first, readings, reader)
    requires Distinct(LogAfter(Events(first.logs(run), reader.parse), PollsOf(run, readings, reader)))
    ensures var log, polls := Events(first.logs(run), reader.parse), PollsOf(run, readings, reader);
            Missed(|log|, polls) == [] && Seen(|log|, polls) == |LogAfter(log, polls)|
  {
    hide Events, Window, Distinct, Missed, Grows, LogsGrow, LogsGrowAt, ChangesFit, Near, Seen;
    if readings == [] {
      NothingToCover(|Events(first.logs(run), reader.parse)|);
    } else {
      var log, n := Events(first.logs(run), reader.parse), |readings| - 1;
      var earlier := readings[..n];
      LogsGrowBefore(first, readings, reader);
      EarlierFit(run, first, readings, reader);
      var before, p := PollsOf(run, earlier, reader), ReadRun(readings[n], run, reader, WINDOW);
      var polls := PollsOf(run, readings, reader);
      assert polls == before + [p] && polls[..|polls| - 1] == before;
      PollsGrow(run, first, earlier, reader);
      PollsGrow(run, first, readings, reader);
      OnePollMore(log, polls);
      PartIsDistinct(LogAfter(log, before), p.log);
      ChangesThatFitAreCovered(run, first, earlier, reader);
      NearReaches((if n == 0 then first else readings[n - 1]).logs(run), readings[n].logs(run), reader);
      hide PollsOf;
      CoveredFurther(log, |log|, polls);
    }
  }

  lemma {:induction false} NothingToCover(seen: nat)
    ensures Missed(seen, []) == [] && Seen(seen, []) == seen
  {
  }

  lemma {:induction false} EarlierFit(run: string, first: Reading, readings: seq<Reading>, reader: Reader)
    requires ChangesFit(run, first, readings, reader) && readings != []
    ensures ChangesFit(run, first, readings[..|readings| - 1], reader)
            && ChangeFits(run, first, readings, |readings| - 1, reader)
  {
    var earlier := readings[..|readings| - 1];
    forall n | 0 <= n < |earlier| ensures ChangeFits(run, first, earlier, n, reader) {
      assert ChangeFits(run, first, readings, n, reader);
    }
  }

  lemma {:induction false} PartIsDistinct(part: seq<Event>, log: seq<Event>)
    requires part <= log && Distinct(log)
    ensures Distinct(part)
  {
  }

  /** No row is written more often than its event is in the log. */
  lemma {:induction false} NoRowTwice(run: string, first: Reading, readings: seq<Reading>, reader: Reader,
                                      matches: Event -> bool, limit: nat, le: Order<string>, initial: seq<Row>,
                                      emitted: seq<Row>, e: Event)
    requires Followed(run, first, readings, reader, matches, limit, le, initial, emitted)
    ensures var log := LogAfter(Events(first.logs(run), reader.parse), PollsOf(run, readings, reader));
            multiset(initial + emitted)[Row(run, e)] <= multiset(log)[e]
  {
    hide Missed, InTime, Window, Events, RowsOf, Filter, Accounted, Part;
    var start, polls := ReadRun(first, run, reader, InitialEvents(limit)), PollsOf(run, readings, reader);
    var was, log := SeenAfter(0, start), LogAfter(start.log, polls);
    var now, r := Seen(was, polls), Row(run, e);
    CountInRun(initial, r);
    CountInRun(emitted, r);
    AccountedBounds(RowsOf(run, Part(log, was, now), matches), Filter(emitted, InRun(run)),
                    RowsOf(run, Missed(was, polls), matches),
                    InTime(run, Moved(start.window, None), polls, matches, le), r);
    RowCount(run, Part(log, 0, was), matches, e);
    RowCount(run, Part(log, was, now), matches, e);
    PartsCount(log, was, now, e);
  }

  lemma {:induction false} PartsCount(log: seq<Event>, was: nat, now: nat, e: Event)
    requires was <= now <= |log|
    ensures multiset(Part(log, 0, was))[e] + multiset(Part(log, was, now))[e] <= multiset(log)[e]
  {
    assert log == Part(log, 0, was) + Part(log, was, now) + log[now..];
  }

  lemma {:induction false} AccountedBounds(all: seq<Row>, emitted: seq<Row>, missed: seq<Row>, inTime: bool, r: Row)
    requires Accounted(all, emitted, missed, inTime)
    ensures multiset(emitted)[r] <= multiset(all)[r]
  {
    assert (multiset(emitted) + multiset(missed))[r] == multiset(all)[r];
  }

  lemma {:induction false} CountInRun(rows: seq<Row>, r: Row)
    ensures multiset(rows)[r] == multiset(Filter(rows, InRun(r.run)))[r]
  {
    if rows != [] {
      CountInRun(rows[..|rows| - 1], r);
      assert rows == rows[..|rows| - 1] + [rows[|rows| - 1]];
    }
  }

  lemma {:induction false} RowCount(run: string, events: seq<Event>, matches: Event -> bool, e: Event)
    ensures multiset(RowsOf(run, events, matches))[Row(run, e)] <= multiset(events)[e]
  {
    if events != [] {
      RowCount(run, events[..|events| - 1], matches, e);
      assert events == events[..|events| - 1] + [events[|events| - 1]];
    }
  }

  /**
   Within the limits, a followed run's rows are exactly the matching events appended since the
   first poll, in log order, if their times do not go back.
   */
  lemma {:induction false} ExactlyTheMatching(run: string, first: Reading, readings: seq<Reading>, reader: Reader,
                                              matches: Event -> bool, limit: nat, le: Order<string>, initial: seq<Row>,
                                              emitted: seq<Row>)
    requires Followed(run, first, readings, reader, matches, limit, le, initial, emitted)
    requires LogsGrow(first, readings, reader) && reader.parse("").None? && ChangesFit(run, first, readings, reader)
    requires var start := ReadRun(first, run, reader, InitialEvents(limit));
             var log := LogAfter(start.log, PollsOf(run, readings, reader));
             && (start.window == [] ==> start.log == [])
             && Distinct(log) && Sorted(RowsOf(run, log[|start.log|..], matches), ByTime(le))
    ensures var before := Events(first.logs(run), reader.parse);
            Filter(emitted, InRun(run)) == RowsOf(run, LogAfter(before, PollsOf(run, readings, reader))[|before|..],
                                                  matches)
  {
    hide InTime, Window, Events, RowsOf, Filter, Distinct, Sorted, ByTime, TotalPreorder, ChangesFit, LogsGrow, PollsOf,
      Missed, Seen;
    var start, polls := ReadRun(first, run, reader, InitialEvents(limit)), PollsOf(run, readings, reader);
    var log := LogAfter(start.log, polls);
    ChangesThatFitAreCovered(run, first, readings, reader);
    PollsGrow(run, first, readings, reader);
    ReadsAnEnd(first, run, reader, InitialEvents(limit));
    assert Part(log, |start.log|, |log|) == log[|start.log|..];
    SortedIsInTime(run, start.log, Moved(start.window, None), |start.log|, polls, matches, le);
    NoRows(run, matches);
  }

  lemma {:induction false} NoRows(run: string, matches: Event -> bool)
    ensures RowsOf(run, [], matches) == []
  {
  }
}