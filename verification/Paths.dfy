/** Absolute or relative paths as sequences of names, and what a directory holds. */
module Paths {
  type Path = seq<string>

  function Parent(p: Path): Path
    requires p != []
  {
    p[..|p| - 1]
  }

  function Last(p: Path): string
    requires p != []
  {
    p[|p| - 1]
  }

  /** Names of the entries of directory `d`. */
  function Names<T>(tree: map<Path, T>, d: Path): (names: set<string>)
    ensures forall n :: n in names <==> d + [n] in tree
  {
    var names := set q | q in tree.Keys && |q| == |d| + 1 && d < q :: q[|d|];
    assert forall n :: n in names <==> d + [n] in tree by {
      forall n ensures n in names <==> d + [n] in tree {
        if n in names {
          var q :| q in tree.Keys && |q| == |d| + 1 && d < q && q[|d|] == n;
          assert q == d + [n];
        }
        if d + [n] in tree { assert (d + [n])[|d|] == n; }
      }
    }
    names
  }
}
