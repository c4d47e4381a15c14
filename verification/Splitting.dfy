/** Cutting a sequence at every separator, as `split` does: n separators give n + 1 pieces. */
module Splitting {
  function Split<T(==)>(text: seq<T>, sep: T): (pieces: seq<seq<T>>)
    ensures pieces != []
  {
    if text == [] then [[]]
    else
      var rest := Split(text[1..], sep);
      if text[0] == sep then [[]] + rest else [[text[0]] + rest[0]] + rest[1..]
  }

  lemma {:induction false} SplitCons<T>(x: T, text: seq<T>, sep: T)
    ensures var rest := Split(text, sep);
            Split([x] + text, sep) == if x == sep then [[]] + rest else [[x] + rest[0]] + rest[1..]
  {
    assert ([x] + text)[1..] == text;
  }

  /** A text splits at any separator into the pieces before and the pieces after it. */
  lemma {:induction false} SplitAt<T>(a: seq<T>, b: seq<T>, sep: T)
    ensures Split(a + [sep] + b, sep) == Split(a, sep) + Split(b, sep)
  {
    if a == [] {
      assert a + [sep] + b == [sep] + b;
      SplitCons(sep, b, sep);
    } else {
      var x, rest := a[0], a[1..];
      SplitAt(rest, b, sep);
      SplitMore(x, rest, b, sep);
      assert [x] + rest == a;
    }
  }

  lemma {:induction false} SplitMore<T>(x: T, a: seq<T>, b: seq<T>, sep: T)
    requires Split(a + [sep] + b, sep) == Split(a, sep) + Split(b, sep)
    ensures Split([x] + a + [sep] + b, sep) == Split([x] + a, sep) + Split(b, sep)
  {
    hide Split;
    assert [x] + a + [sep] + b == [x] + (a + [sep] + b);
    SplitCons(x, a + [sep] + b, sep);
    SplitCons(x, a, sep);
    ConcatFirst(x, Split(a, sep), Split(b, sep));
  }

  lemma {:induction false} ConcatFirst<T>(x: T, first: seq<seq<T>>, last: seq<seq<T>>)
    requires first != []
    ensures [[]] + (first + last) == [[]] + first + last
    ensures [[x] + (first + last)[0]] + (first + last)[1..] == [[x] + first[0]] + first[1..] + last
  {
    assert (first + last)[1..] == first[1..] + last;
  }

  lemma {:induction false} Unsplit<T>(text: seq<T>, sep: T)
    requires sep !in text
    ensures Split(text, sep) == [text]
  {
    if text != [] {
      Unsplit(text[1..], sep);
      assert [text[0]] + text[1..] == text;
    }
  }
}
