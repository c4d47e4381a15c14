/**
 `appendTextRecord` of `src/append-boundary.ts`: records appended to a file whose last
 append may have been torn at any byte. One writer at a time.
 */
module AppendBoundary {
  import opened Splitting

  type Bytes = seq<int>

  const LF := 0x0a

  function WithoutEmpty(pieces: seq<Bytes>): seq<Bytes> {
    if pieces == [] then []
    else (if pieces[0] == [] then [] else [pieces[0]]) + WithoutEmpty(pieces[1..])
  }

  /** The lines of a file that are not empty, a last one without a line end included. */
  function Lines(file: Bytes): seq<Bytes> {
    WithoutEmpty(Split(file, LF))
  }

  predicate EndsLine(file: Bytes) {
    file == [] || file[|file| - 1] == LF
  }

  lemma {:induction false} WithoutEmptyConcat(a: seq<Bytes>, b: seq<Bytes>)
    ensures WithoutEmpty(a + b) == WithoutEmpty(a) + WithoutEmpty(b)
  {
    if a == [] {
      assert a + b == b;
    } else {
      assert (a + b)[1..] == a[1..] + b;
      WithoutEmptyConcat(a[1..], b);
    }
  }

  /** A line end keeps what is before it and what is after it apart. */
  lemma {:induction false} LinesApart(a: Bytes, b: Bytes)
    ensures Lines(a + [LF] + b) == Lines(a) + Lines(b)
  {
    SplitAt(a, b, LF);
    WithoutEmptyConcat(Split(a, LF), Split(b, LF));
  }

  lemma {:induction false} LinesOfNothing()
    ensures Lines([]) == []
  {
    var none: Bytes := [];
    assert Split(none, LF) == [none] && [none][1..] == [];
    assert WithoutEmpty([none]) == WithoutEmpty([none][1..]) == [];
  }

  /** What is added to a file whose last line has ended does not join an earlier line. */
  lemma {:induction false} LinesAfterEnd(a: Bytes, b: Bytes)
    requires EndsLine(a)
    ensures Lines(a + b) == Lines(a) + Lines(b)
  {
    if a == [] {
      LinesOfNothing();
      assert a + b == b && [] + Lines(b) == Lines(b);
    } else {
      var rest := a[..|a| - 1];
      assert a == rest + [LF] && a + b == rest + [LF] + b && a == rest + [LF] + [];
      LinesApart(rest, b);
      LinesApart(rest, []);
      LinesOfNothing();
    }
  }

  /** One record written whole is one line. */
  lemma {:induction false} RecordIsOneLine(record: Bytes)
    requires LF !in record && record != []
    ensures Lines(record) == [record] && Lines(record + [LF]) == [record]
  {
    Unsplit(record, LF);
    assert [record][1..] == [];
    assert WithoutEmpty([record][1..]) == [];
    assert record + [LF] == record + [LF] + [];
    LinesApart(record, []);
    LinesOfNothing();
  }

  lemma {:induction false} PartIsOneLine(record: Bytes, kept: nat)
    requires LF !in record && kept <= |record| + 1
    ensures var part := (record + [LF])[..kept];
            Lines(part) == if kept == 0 || record == [] then []
              else [record[..if kept > |record| then |record| else kept]]
  {
    var part := (record + [LF])[..kept];
    LinesOfNothing();
    if kept > |record| {
      assert part == record + [LF];
      if record == [] {
        LinesApart([], []);
        assert [] + [LF] + [] == [LF] && part == [LF];
      } else {
        RecordIsOneLine(record);
        assert record[..|record|] == record;
      }
    } else if kept > 0 {
      assert part == record[..kept];
      RecordIsOneLine(record[..kept]);
    } else {
      assert part == [];
    }
  }

  /** An append: the record with its line end, and how many of its bytes reached the file. */
  datatype Attempt = Attempt(record: Bytes, kept: nat)

  function Completed(record: Bytes): Bytes {
    if record != [] && record[|record| - 1] == LF then record else record + [LF]
  }

  /** The lines the appends leave, in order. */
  ghost function Contributions(log: seq<Attempt>): seq<Bytes> {
    if log == [] then []
    else
      var last := log[|log| - 1];
      var whole := Completed(last.record);
      Contributions(log[..|log| - 1]) + Lines(whole[..if last.kept < |whole| then last.kept else |whole|])
  }

  lemma {:induction false} OneMoreAttempt(log: seq<Attempt>, record: Bytes, kept: nat)
    requires kept <= |Completed(record)|
    ensures Contributions(log + [Attempt(record, kept)]) == Contributions(log) + Lines(Completed(record)[..kept])
  {
    assert (log + [Attempt(record, kept)])[..|log|] == log;
  }

  /** A record without its line end, which it may have or not. */
  function Body(record: Bytes): (body: Bytes)
    ensures Completed(record) == body + [LF]
  {
    if record != [] && record[|record| - 1] == LF then record[..|record| - 1] else record
  }

  /** What was kept of each record, from the first byte on, where it has any. */
  function KeptRecords(log: seq<Attempt>): seq<Bytes> {
    if log == [] then []
    else
      var kept, body := log[|log| - 1].kept, Body(log[|log| - 1].record);
      KeptRecords(log[..|log| - 1]) + if kept == 0 || body == [] then []
        else [body[..if kept < |body| then kept else |body|]]
  }

  /**
   Of records of one line each, ended or not, each completed one is exactly one line, and each torn
   one at most one, in order.
   */
  lemma {:induction false} EachRecordIsOneLine(log: seq<Attempt>)
    requires forall n | 0 <= n < |log| :: LF !in Body(log[n].record)
    ensures Contributions(log) == KeptRecords(log)
  {
    if log != [] {
      var kept, body := log[|log| - 1].kept, Body(log[|log| - 1].record);
      EachRecordIsOneLine(log[..|log| - 1]);
      PartIsOneLine(body, if kept <= |body| then kept else |body| + 1);
    }
  }

  /** With the boundary where it is needed, whatever part of an append is written stands on lines of its own. */
  lemma {:induction false} LinesOfAppend(before: Bytes, boundary: bool, whole: Bytes, written: nat)
    requires !boundary ==> EndsLine(before)
    requires var data := (if boundary then [LF] else []) + whole; written <= |data|
    ensures var data := (if boundary then [LF] else []) + whole;
            var kept := if boundary then if written == 0 then 0 else written - 1 else written;
            Lines(before + data[..written]) == Lines(before) + Lines(whole[..kept])
  {
    var data := (if boundary then [LF] else []) + whole;
    if boundary && written > 0 {
      assert data[..written] == [LF] + whole[..written - 1];
      assert before + data[..written] == before + [LF] + whole[..written - 1];
      LinesApart(before, whole[..written - 1]);
    } else if boundary {
      LinesOfNothing();
      assert before + data[..written] == before && whole[..0] == [];
      assert Lines(before) + [] == Lines(before);
    } else {
      assert data == whole;
      LinesAfterEnd(before, whole[..written]);
    }
  }

  class RecordFile {
    var bytes: Bytes
    ghost const initial: Bytes
    ghost var log: seq<Attempt>

    constructor (bytes: Bytes)
      ensures Valid() && this.bytes == bytes && initial == bytes && log == []
    {
      this.bytes, this.initial, this.log := bytes, bytes, [];
    }

    /** Old bytes stay, and each append has left its own lines after them: no line holds bytes of two records. */
    ghost predicate Valid()
      reads this
    {
      initial <= bytes && Lines(bytes) == Lines(initial) + Contributions(log)
    }

    /** `writeSync`: some of the bytes asked for, or none where it fails; `false` where the process ends. */
    method Write(data: Bytes) returns (count: nat, alive: bool)
      modifies this`bytes
      ensures count <= |data| && bytes == old(bytes) + data[..count]
    {
      var wish: int := *;
      alive := *;
      count := if wish < 0 then 0 else if wish > |data| then |data| else wish;
      bytes := bytes + data[..count];
    }

    /** The loop ends because each write makes progress. */
    method WriteAll(data: Bytes) returns (written: nat, ok: bool)
      modifies this`bytes
      ensures written <= |data| && bytes == old(bytes) + data[..written]
      ensures ok ==> written == |data|
    {
      written := 0;
      while written < |data|
        invariant written <= |data| && bytes == old(bytes) + data[..written]
      {
        var count, alive := Write(data[written..]);
        assert data[..written] + data[written..][..count] == data[..written + count];
        written := written + count;
        if count == 0 || !alive { return written, false; }
      }
      ok := true;
    }

    /** `appendTextRecord`; `sure` is false where the last byte cannot be read. */
    method AppendTextRecord(record: Bytes, sure: bool) returns (ok: bool, ghost kept: nat)
      requires Valid()
      modifies this
      ensures Valid() && old(bytes) <= bytes
      ensures log == old(log) + [Attempt(record, kept)] && kept <= |Completed(record)|
      ensures ok ==> kept == |Completed(record)|
    {
      hide Lines, Contributions, Completed;
      var needsBoundary := bytes != [] && (!sure || bytes[|bytes| - 1] != LF);
      var completeRecord := Completed(record);
      var data := (if needsBoundary then [LF] else []) + completeRecord;
      ghost var before := bytes;
      var written;
      written, ok := WriteAll(data);
      kept := if needsBoundary then if written == 0 then 0 else written - 1 else written;
      OneMoreAttempt(log, record, kept);
      LinesOfAppend(before, needsBoundary, completeRecord, written);
      log := log + [Attempt(record, kept)];
    }
  }
}
