/**
 Reading the end of a run's log, `readOperatorEvents` of `src/cli-events.ts`: at most so many bytes
 of the file and at most so many events of those.
 */
module LogTail {
  import opened Wrappers
  import opened Splitting

  /** An event by its serialized text, and the time it carries. */
  datatype Event = Event(text: string, at: string)

  /** How many events a poll reads of one log. */
  const WINDOW: nat := 500

  function Last<T>(xs: seq<T>, n: nat): seq<T> {
    if n < |xs| then xs[|xs| - n..] else xs
  }

  // ----- The tail of a file

  const NEWLINE := '\n'

  function Lines(text: string): seq<string> {
    Split(text, NEWLINE)
  }

  function AfterFirstNewline(text: string): string {
    if text == "" then "" else if text[0] == NEWLINE then text[1..] else AfterFirstNewline(text[1..])
  }

  /** `readTail`: the last bytes of the file, from the first line that starts among them. */
  function ReadTail(text: string, maxBytes: nat): string {
    if |text| <= maxBytes then text else AfterFirstNewline(text[|text| - maxBytes..])
  }

  /** `parseJsonl`: the records that are events; a torn or blank line is none. */
  function Events(text: string, parse: string -> Option<Event>): seq<Event> {
    EventsOf(Lines(text), parse)
  }

  function EventsOf(lines: seq<string>, parse: string -> Option<Event>): seq<Event> {
    if lines == [] then []
    else (match parse(lines[0]) case Some(e) => [e] case None => []) + EventsOf(lines[1..], parse)
  }

  /** `readOperatorEvents` */
  function Window(text: string, parse: string -> Option<Event>, maxBytes: nat, maxEvents: nat): seq<Event> {
    Last(Events(ReadTail(text, maxBytes), parse), maxEvents)
  }

  /** How records are read, and how many bytes of a log's end. */
  datatype Reader = Reader(parse: string -> Option<Event>, maxBytes: nat) {
    function Read(text: string, maxEvents: nat): seq<Event> {
      Window(text, parse, maxBytes, maxEvents)
    }
  }

  ghost predicate IsSuffix<T>(s: seq<T>, xs: seq<T>) {
    |s| <= |xs| && xs[|xs| - |s|..] == s
  }

  lemma {:induction false} EventsOfConcat(a: seq<string>, b: seq<string>, parse: string -> Option<Event>)
    ensures EventsOf(a + b, parse) == EventsOf(a, parse) + EventsOf(b, parse)
  {
    if a == [] {
      assert a + b == b;
    } else {
      assert (a + b)[1..] == a[1..] + b;
      EventsOfConcat(a[1..], b, parse);
    }
  }

  /** What the tail drops ends with a newline, unless it drops everything. */
  lemma {:induction false} DroppedBeforeNewline(text: string) returns (dropped: string)
    ensures NEWLINE in text ==> text == dropped + [NEWLINE] + AfterFirstNewline(text) && NEWLINE !in dropped
    ensures NEWLINE !in text ==> AfterFirstNewline(text) == ""
  {
    if text == "" || text[0] == NEWLINE {
      dropped := "";
    } else {
      var rest := DroppedBeforeNewline(text[1..]);
      dropped := [text[0]] + rest;
      if NEWLINE in text {
        assert NEWLINE in text[1..];
        assert text == [text[0]] + text[1..];
      }
    }
  }

  /** Where the cut falls has no influence: the events read are the last ones of the log, whole and in order. */
  lemma {:induction false} TailIsSuffix(text: string, parse: string -> Option<Event>, maxBytes: nat)
    requires parse("").None?
    ensures IsSuffix(Events(ReadTail(text, maxBytes), parse), Events(text, parse))
  {
    if |text| > maxBytes {
      var cut := text[|text| - maxBytes..];
      if NEWLINE in cut {
        var dropped := DroppedBeforeNewline(cut);
        var before := text[..|text| - maxBytes] + dropped;
        assert text == before + [NEWLINE] + AfterFirstNewline(cut);
        SplitAt(before, AfterFirstNewline(cut), NEWLINE);
        EventsOfConcat(Lines(before), Lines(AfterFirstNewline(cut)), parse);
      } else {
        var _ := DroppedBeforeNewline(cut);
        assert EventsOf([""][1..], parse) == [];
      }
    }
  }

  lemma {:induction false} EventsEndWith(before: string, appended: string, parse: string -> Option<Event>)
    ensures IsSuffix(Events(appended, parse), Events(before + [NEWLINE] + appended, parse))
  {
    SplitAt(before, appended, NEWLINE);
    EventsOfConcat(Lines(before), Lines(appended), parse);
  }

  /** A tail longer than what was appended after a line end contains all of it. */
  lemma {:induction false} TailCovers(before: string, appended: string, parse: string -> Option<Event>, maxBytes: nat)
    requires |appended| < maxBytes
    ensures var text := before + [NEWLINE] + appended;
            IsSuffix(Events(appended, parse), Events(ReadTail(text, maxBytes), parse))
  {
    hide Events;
    var text := before + [NEWLINE] + appended;
    if |text| <= maxBytes {
      EventsEndWith(before, appended, parse);
    } else {
      var start := before[|text| - maxBytes..];
      assert text[|text| - maxBytes..] == start + [NEWLINE] + appended;
      TailOfStart(start, appended, parse);
    }
  }

  lemma {:induction false} TailOfStart(start: string, appended: string, parse: string -> Option<Event>)
    ensures IsSuffix(Events(appended, parse), Events(AfterFirstNewline(start + [NEWLINE] + appended), parse))
  {
    hide Events;
    if NEWLINE in start {
      AfterNewlineOfConcat(start, [NEWLINE] + appended);
      assert start + ([NEWLINE] + appended) == start + [NEWLINE] + appended;
      assert AfterFirstNewline(start) + ([NEWLINE] + appended) == AfterFirstNewline(start) + [NEWLINE] + appended;
      EventsEndWith(AfterFirstNewline(start), appended, parse);
    } else {
      SkipsTo(start, appended);
    }
  }

  lemma {:induction false} AfterNewlineOfConcat(a: string, b: string)
    requires NEWLINE in a
    ensures AfterFirstNewline(a + b) == AfterFirstNewline(a) + b
  {
    assert (a + b)[1..] == a[1..] + b;
    if a[0] != NEWLINE { AfterNewlineOfConcat(a[1..], b); }
  }

  lemma {:induction false} SkipsTo(a: string, b: string)
    requires NEWLINE !in a
    ensures AfterFirstNewline(a + [NEWLINE] + b) == b
  {
    if a == "" {
      assert (a + [NEWLINE] + b)[1..] == b;
    } else {
      assert (a + [NEWLINE] + b)[1..] == a[1..] + [NEWLINE] + b;
      SkipsTo(a[1..], b);
    }
  }

  // ----- Limits within which nothing is missed

  /** A window covers what was appended if it is short enough for both limits. */
  lemma {:induction false} WindowCovers(before: string, appended: string, parse: string -> Option<Event>, maxBytes: nat,
                                        maxEvents: nat)
    requires |appended| < maxBytes && parse("").None?
    ensures var log := Events(before + [NEWLINE] + appended, parse);
            var window := Window(before + [NEWLINE] + appended, parse, maxBytes, maxEvents);
            && IsSuffix(window, log)
            && (|Events(appended, parse)| <= maxEvents ==> |log| - |window| <= |Events(before, parse)|)
  {
    hide ReadTail;
    var text := before + [NEWLINE] + appended;
    TailIsSuffix(text, parse, maxBytes);
    TailCovers(before, appended, parse, maxBytes);
    SplitAt(before, appended, NEWLINE);
    EventsOfConcat(Lines(before), Lines(appended), parse);
  }

  /** Where a line may begin. */
  ghost predicate LineStart(text: string, k: nat) {
    k <= |text| && (k == 0 || text[k - 1] == NEWLINE)
  }

  lemma {:induction false} EventsAtCut(text: string, k: nat, parse: string -> Option<Event>)
    requires LineStart(text, k) && parse("").None?
    ensures Events(text, parse) == Events(text[..k], parse) + Events(text[k..], parse)
  {
    assert text[..k] + text[k..] == text;
    NoEvent("", parse);
    if k == 0 {
      assert text[..k] == "" && text[k..] == text;
    } else {
      var before, rest := text[..k - 1], text[k..];
      assert text == before + [NEWLINE] + rest && text[..k] == before + [NEWLINE] + "";
      SplitAt(before, rest, NEWLINE);
      SplitAt(before, "", NEWLINE);
      EventsOfConcat(Lines(before), Lines(rest), parse);
      EventsOfConcat(Lines(before), Lines(""), parse);
    }
  }

  lemma {:induction false} NoEvent(line: string, parse: string -> Option<Event>)
    requires NEWLINE !in line && parse(line).None?
    ensures Events(line, parse) == []
  {
    Unsplit(line, NEWLINE);
    assert EventsOf([line][1..], parse) == [];
  }

  /** Appending keeps the events read so far if the last line, from `k` on, is ended first or is no event yet. */
  lemma {:induction false} AppendingKeepsEvents(text: string, k: nat, appended: string, parse: string -> Option<Event>)
    requires LineStart(text, k) && NEWLINE !in text[k..] && parse("").None?
    requires parse(text[k..]).None? || appended == "" || appended[0] == NEWLINE
    ensures Events(text, parse) <= Events(text + appended, parse)
  {
    hide Events;
    if appended == "" {
      assert text + appended == text;
    } else if appended[0] == NEWLINE {
      var all := text + appended;
      assert text + [NEWLINE] + appended[1..] == all;
      EventsEndAt(text, appended[1..], parse);
    } else {
      EventsAtCut(text, k, parse);
      NoEvent(text[k..], parse);
      EventsAtCut(text + appended, k, parse);
      assert (text + appended)[..k] == text[..k];
    }
  }

  lemma {:induction false} EventsEndAt(before: string, appended: string, parse: string -> Option<Event>)
    ensures Events(before + [NEWLINE] + appended, parse) == Events(before, parse) + Events(appended, parse)
  {
    SplitAt(before, appended, NEWLINE);
    EventsOfConcat(Lines(before), Lines(appended), parse);
  }

  /** From `a` to `b`, the lines that changed fit into both limits of a poll. */
  ghost predicate Near(a: string, b: string, reader: Reader) {
    exists k: nat :: NearFrom(a, b, k, reader)
  }

  ghost predicate NearFrom(a: string, b: string, k: nat, reader: Reader) {
    && k <= |a| && LineStart(b, k) && a[..k] == b[..k]
    && |b| - k < reader.maxBytes && |Events(b[k..], reader.parse)| <= WINDOW
  }

  lemma {:induction false} RecentIsRead(b: string, k: nat, reader: Reader)
    requires LineStart(b, k) && |b| - k < reader.maxBytes && |Events(b[k..], reader.parse)| <= WINDOW
             && reader.parse("").None?
    ensures |Events(b[k..], reader.parse)| <= |reader.Read(b, WINDOW)|
  {
    hide Events, Window;
    if k == 0 {
      assert b[k..] == b;
      WholeIsRead(b, reader);
    } else {
      assert b == b[..k - 1] + [NEWLINE] + b[k..];
      WindowCovers(b[..k - 1], b[k..], reader.parse, reader.maxBytes, WINDOW);
      EventsEndAt(b[..k - 1], b[k..], reader.parse);
    }
  }

  lemma {:induction false} WholeIsRead(b: string, reader: Reader)
    requires |b| < reader.maxBytes && |Events(b, reader.parse)| <= WINDOW
    ensures reader.Read(b, WINDOW) == Events(b, reader.parse)
  {
  }

  /** A poll whose changes fit reads back to the events of the poll before. */
  lemma {:induction false} NearReaches(a: string, b: string, reader: Reader)
    requires Near(a, b, reader) && reader.parse("").None?
    ensures |Events(b, reader.parse)| - |reader.Read(b, WINDOW)| <= |Events(a, reader.parse)|
    ensures reader.Read(b, WINDOW) == [] ==> |Events(b, reader.parse)| <= |Events(a, reader.parse)|
  {
    hide Events, Window;
    var k: nat :| NearFrom(a, b, k, reader);
    EventsAtCut(b, k, reader.parse);
    assert LineStart(a, k) by { assert k > 0 ==> a[k - 1] == a[..k][k - 1] && b[k - 1] == b[..k][k - 1]; }
    EventsAtCut(a, k, reader.parse);
    RecentIsRead(b, k, reader);
  }
}
