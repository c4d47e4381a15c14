/**
 `CommandActivityTracker` of `src/command-activity.ts`: the commands an agent's output
 stream reports, read from chunks cut anywhere.
 */
module CommandActivity {
  const CR := '\r'
  const LF := '\n'

  datatype Command = Started(id: string) | Completed(id: string)

  /** The identifiers seen, and the callbacks made in order. */
  datatype Tracked = Tracked(active: set<string>, startedIds: set<string>, completedIds: set<string>,
                             completedCount: nat, calls: seq<Command>)

  const NOTHING := Tracked({}, {}, {}, 0, [])

  // ----- Lines

  /** The stream cut at every line feed, a carriage return before it included in the break. */
  function SplitLines(text: string): (pieces: seq<string>)
    ensures pieces != []
    decreases |text|
  {
    if text == "" then [""]
    else if text[0] == LF then [""] + SplitLines(text[1..])
    else if text[0] == CR && |text| > 1 && text[1] == LF then [""] + SplitLines(text[2..])
    else
      var rest := SplitLines(text[1..]);
      [[text[0]] + rest[0]] + rest[1..]
  }

  /** The piece no line break has ended yet. */
  function Rest(text: string): string {
    var pieces := SplitLines(text);
    pieces[|pieces| - 1]
  }

  /** The lines that have ended. */
  function Ended(text: string): seq<string> {
    var pieces := SplitLines(text);
    pieces[..|pieces| - 1]
  }

  lemma {:induction false} UnbrokenLine(text: string)
    requires |SplitLines(text)| == 1
    ensures SplitLines(text) == [text]
    decreases |text|
  {
    if text != "" {
      UnbrokenLine(text[1..]);
      assert [text[0]] + text[1..] == text;
    }
  }

  lemma {:induction false} AfterBreak(text: string, rest: string)
    requires SplitLines(text) == [""] + SplitLines(rest)
    ensures Ended(text) == [""] + Ended(rest) && Rest(text) == Rest(rest)
  {
    assert ([""] + SplitLines(rest))[..|SplitLines(rest)|] == [""] + Ended(rest);
  }

  lemma {:induction false} AfterCharacter(c: char, text: string, rest: string)
    requires |SplitLines(rest)| > 1 && SplitLines(text) == [[c] + SplitLines(rest)[0]] + SplitLines(rest)[1..]
    ensures Ended(rest) != [] && Ended(text) == [[c] + Ended(rest)[0]] + Ended(rest)[1..] && Rest(text) == Rest(rest)
  {
    var first, pieces := [[c] + SplitLines(rest)[0]], SplitLines(rest);
    assert (first + pieces[1..])[..|pieces| - 1] == first + pieces[1..|pieces| - 1];
    assert pieces[..|pieces| - 1][1..] == pieces[1..|pieces| - 1];
  }

  /** Splitting goes on from the unfinished piece, also where the cut is between the two characters of a line break. */
  lemma {:induction false} SplitGoesOn(a: string, b: string)
    ensures SplitLines(a + b) == Ended(a) + SplitLines(Rest(a) + b)
    decreases |a|
  {
    hide Ended, Rest;
    if |SplitLines(a)| == 1 {
      Unfinished(a, b);
    } else if a[0] == LF {
      assert (a + b)[1..] == a[1..] + b;
      SplitGoesOn(a[1..], b);
      AfterBreak(a, a[1..]);
    } else if a[0] == CR && |a| > 1 && a[1] == LF {
      assert (a + b)[2..] == a[2..] + b;
      SplitGoesOn(a[2..], b);
      AfterBreak(a, a[2..]);
    } else {
      assert |a| > 1 && (a + b)[1..] == a[1..] + b && (a + b)[1] == a[1];
      SplitGoesOn(a[1..], b);
      AfterCharacter(a[0], a, a[1..]);
      CharacterBefore(a[0], Ended(a[1..]), SplitLines(Rest(a) + b));
    }
  }

  lemma {:induction false} CharacterBefore(c: char, pieces: seq<string>, more: seq<string>)
    requires pieces != []
    ensures [[c] + (pieces + more)[0]] + (pieces + more)[1..] == [[c] + pieces[0]] + pieces[1..] + more
  {
  }

  lemma {:induction false} Unfinished(a: string, b: string)
    requires |SplitLines(a)| == 1
    ensures SplitLines(a + b) == Ended(a) + SplitLines(Rest(a) + b)
  {
    UnbrokenLine(a);
    assert Rest(a) == a && Ended(a) == [];
  }

  lemma {:induction false} EndedGoesOn(a: string, b: string)
    ensures Ended(a + b) == Ended(a) + Ended(Rest(a) + b) && Rest(a + b) == Rest(Rest(a) + b)
  {
    SplitGoesOn(a, b);
    var more := SplitLines(Rest(a) + b);
    assert (Ended(a) + more)[..|Ended(a)| + |more| - 1] == Ended(a) + more[..|more| - 1];
  }

  // ----- Commands

  function OnCommand(s: Tracked, c: Command): Tracked {
    if c.id == "" then s
    else match c
      case Started(id) =>
        if id in s.startedIds then s
        else s.(startedIds := s.startedIds + {id}, active := s.active + {id}, calls := s.calls + [c])
      case Completed(id) =>
        if id in s.completedIds then s
        else
          var s := s.(completedIds := s.completedIds + {id});
          if id !in s.active then s
          else s.(active := s.active - {id}, completedCount := s.completedCount + 1, calls := s.calls + [c])
  }

  function After(s: Tracked, commands: seq<Command>): Tracked {
    if commands == [] then s else OnCommand(After(s, commands[..|commands| - 1]), commands[|commands| - 1])
  }

  lemma {:induction false} AfterConcat(s: Tracked, a: seq<Command>, b: seq<Command>)
    ensures After(s, a + b) == After(After(s, a), b)
  {
    if b == [] {
      assert a + b == a;
    } else {
      assert (a + b)[..|a + b| - 1] == a + b[..|b| - 1];
      AfterConcat(s, a, b[..|b| - 1]);
    }
  }

  /** The commands of the lines that are not blank. */
  function CommandsOf(lines: seq<string>, read: string -> seq<Command>): seq<Command> {
    if lines == [] then [] else CommandsOf(lines[..|lines| - 1], read) + read(lines[|lines| - 1])
  }

  lemma {:induction false} CommandsOfConcat(a: seq<string>, b: seq<string>, read: string -> seq<Command>)
    ensures CommandsOf(a + b, read) == CommandsOf(a, read) + CommandsOf(b, read)
  {
    if b == [] {
      assert a + b == a;
    } else {
      assert (a + b)[..|a + b| - 1] == a + b[..|b| - 1];
      CommandsOfConcat(a, b[..|b| - 1], read);
    }
  }

  lemma {:induction false} OneMoreLine(s: Tracked, lines: seq<string>, line: string, read: string -> seq<Command>)
    ensures After(s, CommandsOf(lines + [line], read)) == After(After(s, CommandsOf(lines, read)), read(line))
  {
    assert (lines + [line])[..|lines|] == lines;
    AfterConcat(s, CommandsOf(lines, read), read(line));
  }

  lemma {:induction false} MoreLines(s: Tracked, a: seq<string>, b: seq<string>, read: string -> seq<Command>)
    ensures After(s, CommandsOf(a + b, read)) == After(After(s, CommandsOf(a, read)), CommandsOf(b, read))
  {
    CommandsOfConcat(a, b, read);
    AfterConcat(s, CommandsOf(a, read), CommandsOf(b, read));
  }

  /** What a whole stream says: the lines that ended, and a last one without a line break. */
  function Whole(stream: string, blank: string -> bool, read: string -> seq<Command>): Tracked {
    After(After(NOTHING, CommandsOf(Ended(stream), read)), if blank(Rest(stream)) then [] else read(Rest(stream)))
  }

  class Tracker {
    /** Which lines are blank, and the commands a line reports, with identifiers trimmed; a blank line reports none. */
    const blank: string -> bool
    const read: string -> seq<Command>
    var carry: string
    var active: set<string>
    var startedIds: set<string>
    var completedIds: set<string>
    var completedCount: nat
    var calls: seq<Command>
    var streamClosed: bool
    ghost var fed: string

    constructor (blank: string -> bool, read: string -> seq<Command>)
      ensures Open() && fed == "" && this.blank == blank && this.read == read
    {
      this.blank, this.read := blank, read;
      carry, active, startedIds, completedIds, completedCount, calls, streamClosed, fed := "", {}, {}, {}, 0, [], false,
        "";
      new;
      assert Ended("") == [] && Rest("") == "";
    }

    ghost function View(): Tracked
      reads this
    {
      Tracked(active, startedIds, completedIds, completedCount, calls)
    }

    /** Before closing: the tracker stands where the lines that have ended lead. */
    ghost predicate Open()
      reads this
    {
      && !streamClosed && carry == Rest(fed)
      && View() == After(NOTHING, CommandsOf(Ended(fed), read))
    }

    method Apply(c: Command)
      modifies this`active, this`startedIds, this`completedIds, this`completedCount, this`calls
      ensures View() == OnCommand(old(View()), c)
    {
      if c.id == "" { return; }
      match c {
        case Started(id) =>
          if id in startedIds { return; }
          startedIds, active, calls := startedIds + {id}, active + {id}, calls + [c];
        case Completed(id) =>
          if id in completedIds { return; }
          completedIds := completedIds + {id};
          if id !in active { return; }
          active, completedCount, calls := active - {id}, completedCount + 1, calls + [c];
      }
    }

    method ConsumeLine(line: string)
      modifies this`active, this`startedIds, this`completedIds, this`completedCount, this`calls
      ensures View() == After(old(View()), read(line))
    {
      var commands := read(line);
      for n := 0 to |commands|
        invariant View() == After(old(View()), commands[..n])
      {
        assert commands[..n + 1][..n] == commands[..n];
        Apply(commands[n]);
      }
      assert commands[..|commands|] == commands;
    }

    method ConsumeLines(lines: seq<string>)
      modifies this`active, this`startedIds, this`completedIds, this`completedCount, this`calls
      ensures View() == After(old(View()), CommandsOf(lines, read))
    {
      hide OnCommand, View;
      ghost var start := View();
      for n := 0 to |lines|
        invariant View() == After(start, CommandsOf(lines[..n], read))
      {
        assert lines[..n + 1] == lines[..n] + [lines[n]];
        ConsumeLine(lines[n]);
        OneMoreLine(start, lines[..n], lines[n], read);
      }
      assert lines[..|lines|] == lines;
    }

    /** `feed` */
    method Feed(chunk: string)
      requires Open()
      modifies this
      ensures Open() && fed == old(fed) + chunk
    {
      hide OnCommand, SplitLines, After, CommandsOf;
      EndedGoesOn(fed, chunk);
      MoreLines(NOTHING, Ended(fed), Ended(carry + chunk), read);
      var pieces := SplitLines(carry + chunk);
      carry := pieces[|pieces| - 1];
      fed := fed + chunk;
      ConsumeLines(pieces[..|pieces| - 1]);
    }

    /** `close`: what the tracker then stands at depends on the stream, and not on how it was cut. */
    method Close()
      requires Open()
      modifies this
      ensures streamClosed && carry == "" && fed == old(fed)
      ensures View() == Whole(fed, blank, read).(active := {})
    {
      if !blank(carry) { ConsumeLine(carry); }
      carry, active, streamClosed := "", {}, true;
    }
  }

  // ----- What the callbacks say

  predicate Starts(commands: seq<Command>, id: string) {
    id != "" && Started(id) in commands
  }

  predicate Completes(commands: seq<Command>, id: string) {
    id != "" && Completed(id) in commands
  }

  /** The first completion was reported before any start. */
  ghost predicate CompletesEarly(commands: seq<Command>, id: string) {
    exists n | 0 <= n < |commands| :: commands[n] == Completed(id) && !Starts(commands[..n], id)
  }

  function Calls(calls: seq<Command>, c: Command): nat {
    if calls == [] then 0 else Calls(calls[..|calls| - 1], c) + if calls[|calls| - 1] == c then 1 else 0
  }

  /** No completion is called back before its start. */
  ghost predicate InOrder(calls: seq<Command>) {
    forall n | 0 <= n < |calls| && calls[n].Completed? :: Started(calls[n].id) in calls[..n]
  }

  lemma {:induction false} CallsOfOneMore(calls: seq<Command>, last: Command, c: Command)
    ensures Calls(calls + [last], c) == Calls(calls, c) + if last == c then 1 else 0
  {
    assert (calls + [last])[..|calls|] == calls;
  }

  lemma {:induction false} OneMoreCommand(commands: seq<Command>, c: Command, id: string)
    requires id != ""
    ensures Starts(commands + [c], id) <==> Starts(commands, id) || c == Started(id)
    ensures Completes(commands + [c], id) <==> Completes(commands, id) || c == Completed(id)
    ensures CompletesEarly(commands + [c], id) <==>
              CompletesEarly(commands, id) || (c == Completed(id) && !Starts(commands, id))
  {
    var more := commands + [c];
    assert forall n | 0 <= n < |commands| :: more[..n] == commands[..n];
    assert more[..|commands|] == commands && more[|commands|] == c;
    if CompletesEarly(commands, id) {
      var n :| 0 <= n < |commands| && commands[n] == Completed(id) && !Starts(commands[..n], id);
      assert more[n] == Completed(id) && !Starts(more[..n], id);
    }
    if c == Completed(id) && !Starts(commands, id) {
      assert more[|commands|] == Completed(id) && !Starts(more[..|commands|], id);
    }
  }

  /** What the tracker knows of one identifier after a run of commands. */
  ghost predicate Knows(s: Tracked, commands: seq<Command>, id: string) {
    var done := Completes(commands, id) && !CompletesEarly(commands, id);
    && (id in s.startedIds <==> Starts(commands, id))
    && (id in s.completedIds <==> Completes(commands, id))
    && (id in s.active <==> Starts(commands, id) && !done)
    && Calls(s.calls, Started(id)) == (if Starts(commands, id) then 1 else 0)
    && Calls(s.calls, Completed(id)) == (if Starts(commands, id) && done then 1 else 0)
  }

  lemma {:induction false} CommandIsKnown(s: Tracked, commands: seq<Command>, c: Command, id: string)
    requires id != "" && Knows(s, commands, id)
    ensures Knows(OnCommand(s, c), commands + [c], id)
  {
    hide Starts, Completes, CompletesEarly, Calls;
    OneMoreCommand(commands, c, id);
    CallsOfOneMore(s.calls, c, Started(id));
    CallsOfOneMore(s.calls, c, Completed(id));
    EarlyCompletes(commands, id);
  }

  lemma {:induction false} EarlyCompletes(commands: seq<Command>, id: string)
    requires id != ""
    ensures CompletesEarly(commands, id) ==> Completes(commands, id)
    ensures Completes(commands, id) && !Starts(commands, id) ==> CompletesEarly(commands, id)
  {
    if Completes(commands, id) && !Starts(commands, id) {
      var n :| 0 <= n < |commands| && commands[n] == Completed(id);
      assert !Starts(commands[..n], id);
    }
  }

  /**
   Each identifier gets one callback when it starts, and one when it completes unless its first
   completion was reported before its start: then it stays active until the stream closes.
   */
  lemma {:induction false} CallbacksAreOnce(commands: seq<Command>, id: string)
    requires id != ""
    ensures Knows(After(NOTHING, commands), commands, id)
  {
    if commands != [] {
      var rest, c := commands[..|commands| - 1], commands[|commands| - 1];
      CallbacksAreOnce(rest, id);
      CommandIsKnown(After(NOTHING, rest), rest, c, id);
      assert commands == rest + [c];
    }
  }

  /** Completed and active commands together are those started, and no completion precedes its start. */
  lemma {:induction false} CountsAgree(commands: seq<Command>)
    ensures var s := After(NOTHING, commands);
            && s.active <= s.startedIds && s.completedCount + |s.active| == |s.startedIds|
            && InOrder(s.calls) && forall id | id in s.startedIds :: Started(id) in s.calls
  {
    if commands != [] {
      var rest, c := commands[..|commands| - 1], commands[|commands| - 1];
      CountsAgree(rest);
      CommandCounts(After(NOTHING, rest), c);
    }
  }

  lemma {:induction false} CommandCounts(s: Tracked, c: Command)
    requires s.active <= s.startedIds && s.completedCount + |s.active| == |s.startedIds|
    requires InOrder(s.calls) && forall id | id in s.startedIds :: Started(id) in s.calls
    ensures var next := OnCommand(s, c);
            && next.active <= next.startedIds && next.completedCount + |next.active| == |next.startedIds|
            && InOrder(next.calls) && forall id | id in next.startedIds :: Started(id) in next.calls
  {
    var calls := s.calls + [c];
    assert forall n | 0 <= n < |s.calls| :: calls[..n] == s.calls[..n];
    assert calls[..|s.calls|] == s.calls;
  }
}
