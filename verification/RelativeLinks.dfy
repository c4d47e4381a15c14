/**
 Links that are written as a relative text, as `reconcileInputs` of `src/cli-ship-setup.ts` does:
 the text is computed on paths as they are spelled, and read from where the link really lies.
 */
module RelativeLinks {
  import opened Wrappers
  import opened Paths
  import opened WorktreeFiles

  /** A relative text: how often it goes up, and what it goes down then. */
  datatype Route = Route(ups: nat, down: Path)

  /** How many names two paths have in common, from the top. */
  function Common(a: Path, b: Path): (n: nat)
    ensures n <= |a| && n <= |b| && a[..n] == b[..n]
    ensures n < |a| && n < |b| ==> a[n] != b[n]
  {
    if a == [] || b == [] || a[0] != b[0] then 0
    else
      var n := 1 + Common(a[1..], b[1..]);
      assert a[..n] == [a[0]] + a[1..][..n - 1] && b[..n] == [b[0]] + b[1..][..n - 1];
      n
  }

  /** The directory `n` levels above; the top is above itself. */
  function Up(d: Path, n: nat): Path {
    if n <= |d| then d[..|d| - n] else []
  }

  /** `path.relative`: read where it was computed, the text names `to`. */
  function Relative(from: Path, to: Path): (route: Route)
    ensures route.ups <= |from| && Named(from, route) == to
  {
    var n := Common(from, to);
    Route(|from| - n, to[n..])
  }

  /** What the text names for a link that lies in `d`. */
  function Named(d: Path, route: Route): Path {
    Up(d, route.ups) + route.down
  }

  /** Going up from where the text was computed, and from where it is read, reaches one directory. */
  ghost predicate OneDirectory(fs: Files, from: Path, d: Path, ups: nat) {
    Real(fs, Up(from, ups)) == Some(Up(d, ups))
  }

  /** No link on the way down. */
  ghost predicate Linkless(fs: Files, d: Path, down: Path) {
    forall k | 0 < k <= |down| && d + down[..k] in fs :: !fs[d + down[..k]].Link?
  }

  lemma {:induction false} SameFrom(fs: Files, a: Path, b: Path, down: Path, n: nat)
    requires RealWithin(fs, a, n) == RealWithin(fs, b, n)
    ensures RealWithin(fs, a + down, n) == RealWithin(fs, b + down, n)
  {
    if down == [] {
      assert a + down == a && b + down == b;
    } else {
      SameFrom(fs, a, b, Parent(down), n);
      assert Parent(a + down) == a + Parent(down) && Parent(b + down) == b + Parent(down);
    }
  }

  lemma {:induction false} UpIsReal(fs: Files, d: Path, n: nat)
    requires WellFormed(fs) && d in fs && fs[d].Directory?
    ensures Up(d, n) in fs && fs[Up(d, n)].Directory? && Real(fs, Up(d, n)) == Some(Up(d, n))
  {
    AncestorExists(fs, Up(d, n), d);
    PhysicalIsReal(fs, Up(d, n), MAX_LINKS);
  }

  lemma {:induction false} PlaceBelow(fs: Files, a: Path, d: Path, down: Path)
    requires Place(fs, a) == Some(d) && Linkless(fs, d, down)
    ensures Place(fs, a + down) == Some(d + down)
  {
    if down == [] {
      assert a + down == a && d + down == d;
    } else {
      var rest := Parent(down);
      forall k | 0 < k <= |rest| && d + rest[..k] in fs ensures !fs[d + rest[..k]].Link? {
        assert rest[..k] == down[..k];
      }
      PlaceBelow(fs, a, d, rest);
      assert Parent(a + down) == a + rest && d + down == d + rest + [Last(down)];
      assert down[..|down|] == down;
    }
  }

  lemma {:induction false} SameSuffix(a: Path, b: Path, down: Path)
    ensures a + down == b + down <==> a == b
  {
    if a + down == b + down {
      assert |a| == |b| && a == (a + down)[..|a|] && b == (b + down)[..|a|];
    }
  }

  /**
   The text names what `to` names, looked up from the same directory, exactly if going up reaches
   one directory; it then leads where `to` leads, and otherwise to another place, unless a link on
   the way down leads back.
   */
  lemma {:induction false} TextLeadsRight(fs: Files, from: Path, d: Path, to: Path)
    requires WellFormed(fs) && Real(fs, from) == Some(d) && d in fs && fs[d].Directory?
    ensures var route := Relative(from, to);
            && Exists(fs, Up(from, route.ups))
            && var top, read := Real(fs, Up(from, route.ups)).value, Up(d, route.ups);
            && (OneDirectory(fs, from, d, route.ups) <==> Named(d, route) == top + route.down)
            && (OneDirectory(fs, from, d, route.ups) ==> Real(fs, Named(d, route)) == Real(fs, to))
            && (Linkless(fs, top, route.down) && Linkless(fs, read, route.down) ==>
                  (OneDirectory(fs, from, d, route.ups) <==> Place(fs, Named(d, route)) == Place(fs, to)))
            && (d == from ==> OneDirectory(fs, from, d, route.ups))
  {
    hide RealWithin, PlaceWithin, WellFormed;
    var route := Relative(from, to);
    AncestorResolves(fs, from, |from| - route.ups);
    UpIsReal(fs, d, route.ups);
    var spelled, read := Up(from, route.ups), Up(d, route.ups);
    var top := Real(fs, spelled).value;
    SameSuffix(top, read, route.down);
    if top == read { SameFrom(fs, spelled, read, route.down, MAX_LINKS); }
    if Linkless(fs, top, route.down) && Linkless(fs, read, route.down) {
      RealIsPlace(fs, spelled, MAX_LINKS);
      RealIsPlace(fs, read, MAX_LINKS);
      PlaceBelow(fs, spelled, top, route.down);
      PlaceBelow(fs, read, read, route.down);
    }
  }
}
