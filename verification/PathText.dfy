/** Slash-separated path text and its segments. */
module PathText {
  import opened Splitting

  function Segments(path: string): (parts: seq<string>)
    ensures parts != []
  {
    Split(path, '/')
  }

  function Join(parts: seq<string>): string
    requires parts != []
  {
    if |parts| == 1 then parts[0] else parts[0] + "/" + Join(parts[1..])
  }

  lemma {:induction false} JoinSegments(path: string)
    ensures Join(Segments(path)) == path
  {
    if path != "" {
      JoinSegments(path[1..]);
      var rest := Segments(path[1..]);
      if path[0] == '/' {
        assert Segments(path)[1..] == rest;
      } else {
        assert Segments(path)[1..] == rest[1..];
      }
    }
  }

  lemma {:induction false} SegmentsOfConcat(p: string, q: string)
    ensures Segments(p + "/" + q) == Segments(p) + Segments(q)
  {
    SplitAt(p, q, '/');
    assert p + "/" + q == p + ['/'] + q;
  }

  /** The text test for "inside the directory" is the test on segments. */
  lemma {:induction false} PrefixTest(p: string, q: string)
    ensures p + "/" <= q <==> Segments(p) < Segments(q)
  {
    JoinSegments(q);
    if p + "/" <= q {
      var tail := q[|p| + 1..];
      assert q == p + "/" + tail;
      SegmentsOfConcat(p, tail);
    }
    if Segments(p) < Segments(q) {
      JoinSegments(p);
      var rest := Segments(q)[|Segments(p)|..];
      assert Segments(q) == Segments(p) + rest;
      JoinConcat(Segments(p), rest);
    }
  }

  lemma {:induction false} JoinConcat(a: seq<string>, b: seq<string>)
    requires a != [] && b != []
    ensures Join(a + b) == Join(a) + "/" + Join(b)
  {
    if |a| == 1 {
      assert (a + b)[1..] == b;
    } else {
      assert (a + b)[1..] == a[1..] + b;
      JoinConcat(a[1..], b);
    }
  }

  lemma {:induction false} SegmentsInjective(p: string, q: string)
    requires Segments(p) == Segments(q)
    ensures p == q
  {
    JoinSegments(p);
    JoinSegments(q);
  }
}
