/**
 `envAliases` of `spec/purity.ts`: which variables may hold the value of which
 environment keys. The loop runs until nothing changes.
 */
module EnvAliases {
  type Name = string
  type Key = string
  type Aliases = map<Name, set<Key>>

  /** A variable declaration: the keys its initializer reads itself, and the names it mentions. */
  datatype Declaration = Declaration(name: Name, direct: set<Key>, mentions: set<Name>)

  /** `const { KEY: name } = process.env`. */
  datatype Destructured = Destructured(name: Name, key: Key)

  function KeysOf(aliases: Aliases, name: Name): set<Key> {
    if name in aliases then aliases[name] else {}
  }

  function KeysInside(d: Declaration, aliases: Aliases): set<Key> {
    d.direct + set m, k | m in d.mentions && k in KeysOf(aliases, m) :: k
  }

  /** A later pattern with the same local name replaces the earlier one. */
  function Initial(patterns: seq<Destructured>): Aliases {
    if patterns == [] then map[]
    else var last := patterns[|patterns| - 1]; Initial(patterns[..|patterns| - 1])[last.name := {last.key}]
  }

  /** Every pattern's key is remembered for its name, exactly if no name is bound to two keys. */
  lemma {:induction false} PatternsAreKept(patterns: seq<Destructured>)
    ensures (forall p | p in patterns :: KeysOf(Initial(patterns), p.name) == {p.key}) <==>
            (forall p, q | p in patterns && q in patterns && p.name == q.name :: p.key == q.key)
  {
    if forall p, q | p in patterns && q in patterns && p.name == q.name :: p.key == q.key {
      forall p | p in patterns ensures KeysOf(Initial(patterns), p.name) == {p.key} {
        LastPatternIsKept(patterns, p.name);
      }
    }
    if forall p | p in patterns :: KeysOf(Initial(patterns), p.name) == {p.key} {
      forall p, q | p in patterns && q in patterns && p.name == q.name ensures p.key == q.key {
        assert KeysOf(Initial(patterns), p.name) == {p.key} && KeysOf(Initial(patterns), q.name) == {q.key};
        assert p.key in {q.key};
      }
    }
  }

  lemma {:induction false} LastPatternIsKept(patterns: seq<Destructured>, name: Name)
    requires exists p | p in patterns :: p.name == name
    ensures exists p | p in patterns :: p.name == name && KeysOf(Initial(patterns), name) == {p.key}
  {
    var rest, last := patterns[..|patterns| - 1], patterns[|patterns| - 1];
    assert patterns == rest + [last];
    if last.name != name {
      LastPatternIsKept(rest, name);
    }
  }

  ghost predicate Below(a: Aliases, b: Aliases) {
    forall n | n in a :: a[n] <= KeysOf(b, n)
  }

  /** Every declaration owns the keys its initializer can see. */
  ghost predicate Closed(ds: seq<Declaration>, aliases: Aliases) {
    forall i | 0 <= i < |ds| :: KeysInside(ds[i], aliases) <= KeysOf(aliases, ds[i].name)
  }

  ghost predicate Least(ds: seq<Declaration>, initial: Aliases, aliases: Aliases) {
    forall other: Aliases | Closed(ds, other) && Below(initial, other) :: Below(aliases, other)
  }

  // ----- Termination: entries come from a finite universe and are only added

  function Pairs(aliases: Aliases): set<(Name, Key)> {
    set n, k | n in aliases && k in aliases[n] :: (n, k)
  }

  function AllNames(ds: seq<Declaration>, initial: Aliases): set<Name> {
    initial.Keys + set d | d in ds :: d.name
  }

  function AllKeys(ds: seq<Declaration>, initial: Aliases): set<Key> {
    (set n, k | n in initial && k in initial[n] :: k) + set d, k | d in ds && k in d.direct :: k
  }

  function Universe(ds: seq<Declaration>, initial: Aliases): set<(Name, Key)> {
    set n, k | n in AllNames(ds, initial) && k in AllKeys(ds, initial) :: (n, k)
  }

  lemma {:induction false} KeysInsideStay(ds: seq<Declaration>, initial: Aliases, aliases: Aliases, d: Declaration)
    requires Pairs(aliases) <= Universe(ds, initial) && d in ds
    ensures KeysInside(d, aliases) <= AllKeys(ds, initial)
  {
    forall k | k in KeysInside(d, aliases) ensures k in AllKeys(ds, initial) {
      if k !in d.direct {
        var m :| m in d.mentions && k in KeysOf(aliases, m);
        assert (m, k) in Pairs(aliases);
      }
    }
  }

  lemma {:induction false} KeysInsideMonotone(d: Declaration, a: Aliases, b: Aliases)
    requires Below(a, b)
    ensures KeysInside(d, a) <= KeysInside(d, b)
  {
  }

  /** Adding what one declaration can see stays below every closed solution. */
  lemma {:induction false} StepStaysLeast(ds: seq<Declaration>, initial: Aliases, aliases: Aliases, d: Declaration,
                                          next: Aliases)
    requires Least(ds, initial, aliases) && d in ds
    requires next == aliases[d.name := KeysOf(aliases, d.name) + KeysInside(d, aliases)]
    ensures Least(ds, initial, next)
  {
    forall other: Aliases | Closed(ds, other) && Below(initial, other) ensures Below(next, other) {
      assert Below(aliases, other);
      KeysInsideMonotone(d, aliases, other);
      var i :| 0 <= i < |ds| && ds[i] == d;
      assert KeysInside(ds[i], other) <= KeysOf(other, d.name);
      assert KeysOf(aliases, d.name) <= KeysOf(other, d.name);
    }
  }

  lemma {:induction false} StepStaysInUniverse(ds: seq<Declaration>, initial: Aliases, aliases: Aliases, d: Declaration,
                                               next: Aliases)
    requires Pairs(aliases) <= Universe(ds, initial) && d in ds
    requires next == aliases[d.name := KeysOf(aliases, d.name) + KeysInside(d, aliases)]
    ensures Pairs(aliases) <= Pairs(next) <= Universe(ds, initial)
    ensures next[d.name] != KeysOf(aliases, d.name) ==> Pairs(aliases) < Pairs(next)
  {
    KeysInsideStay(ds, initial, aliases, d);
    forall n, k | (n, k) in Pairs(next) ensures (n, k) in Universe(ds, initial) {
      if n != d.name || k in KeysOf(aliases, d.name) {
        assert (n, k) in Pairs(aliases);
      }
    }
    forall n, k | (n, k) in Pairs(aliases) ensures (n, k) in Pairs(next) {
      assert k in next[n];
    }
    if next[d.name] != KeysOf(aliases, d.name) {
      var k :| k in next[d.name] && k !in KeysOf(aliases, d.name);
      assert (d.name, k) in Pairs(next) && (d.name, k) !in Pairs(aliases);
    }
  }

  /** The loop ends, and its result is the least closed set of aliases. */
  method Closure(ds: seq<Declaration>, patterns: seq<Destructured>) returns (aliases: Aliases)
    ensures Below(Initial(patterns), aliases) && Closed(ds, aliases)
    ensures Least(ds, Initial(patterns), aliases)
  {
    ghost var initial := Initial(patterns);
    aliases := Initial(patterns);
    var changed := true;
    while changed
      invariant Below(initial, aliases) && Least(ds, initial, aliases)
      invariant Pairs(aliases) <= Universe(ds, initial)
      invariant !changed ==> Closed(ds, aliases)
      decreases Universe(ds, initial) - Pairs(aliases), changed
    {
      changed := false;
      ghost var before := aliases;
      for i := 0 to |ds|
        invariant Below(initial, aliases) && Least(ds, initial, aliases)
        invariant Pairs(before) <= Pairs(aliases) <= Universe(ds, initial)
        invariant changed ==> Pairs(before) < Pairs(aliases)
        invariant !changed ==> aliases == before && forall j | 0 <= j < i ::
                    KeysInside(ds[j], aliases) <= KeysOf(aliases, ds[j].name)
      {
        var d := ds[i];
        var keys := KeysInside(d, aliases);
        if keys != {} {
          var previous := KeysOf(aliases, d.name);
          var next := aliases[d.name := previous + keys];
          StepStaysLeast(ds, initial, aliases, d, next);
          StepStaysInUniverse(ds, initial, aliases, d, next);
          if previous + keys != previous {
            changed := true;
          } else if !changed {
            assert d.name in aliases by { var k :| k in keys; assert k in previous; }
            assert next == aliases;
          }
          aliases := next;
        }
      }
    }
  }

  // ----- What the closure means

  /** The value of `name` can be traced to a read of `key`, through mentions of variables. */
  ghost predicate Traces(ds: seq<Declaration>, initial: Aliases, name: Name, key: Key, depth: nat)
    decreases depth
  {
    || key in KeysOf(initial, name)
    || exists i | 0 <= i < |ds| :: ds[i].name == name &&
         (key in ds[i].direct || (depth > 0 && exists m | m in ds[i].mentions ::
                                  Traces(ds, initial, m, key, depth - 1)))
  }

  lemma {:induction false} TracedKeysAreKept(ds: seq<Declaration>, initial: Aliases, aliases: Aliases, name: Name,
                                             key: Key, depth: nat)
    requires Below(initial, aliases) && Closed(ds, aliases) && Traces(ds, initial, name, key, depth)
    ensures key in KeysOf(aliases, name)
    decreases depth
  {
    if key !in KeysOf(initial, name) {
      var i :| 0 <= i < |ds| && ds[i].name == name &&
        (key in ds[i].direct || (depth > 0 && exists m | m in ds[i].mentions ::
                                 Traces(ds, initial, m, key, depth - 1)));
      if key !in ds[i].direct {
        var m :| m in ds[i].mentions && Traces(ds, initial, m, key, depth - 1);
        TracedKeysAreKept(ds, initial, aliases, m, key, depth - 1);
      }
      assert key in KeysInside(ds[i], aliases);
    }
  }

  ghost predicate Traced(ds: seq<Declaration>, initial: Aliases, name: Name, key: Key) {
    exists depth: nat :: Traces(ds, initial, name, key, depth)
  }

  ghost function TracedAliases(ds: seq<Declaration>, initial: Aliases): Aliases {
    map n | n in AllNames(ds, initial) :: set k | k in AllKeys(ds, initial) && Traced(ds, initial, n, k)
  }

  lemma {:induction false} TracedIsClosed(ds: seq<Declaration>, initial: Aliases)
    ensures Closed(ds, TracedAliases(ds, initial)) && Below(initial, TracedAliases(ds, initial))
  {
    var traced := TracedAliases(ds, initial);
    forall i | 0 <= i < |ds| ensures KeysInside(ds[i], traced) <= KeysOf(traced, ds[i].name) {
      var d := ds[i];
      assert d.name in AllNames(ds, initial);
      forall k | k in KeysInside(d, traced) ensures k in traced[d.name] {
        if k in d.direct {
          assert Traces(ds, initial, d.name, k, 0);
        } else {
          var m :| m in d.mentions && k in KeysOf(traced, m);
          var depth: nat :| Traces(ds, initial, m, k, depth);
          assert Traces(ds, initial, d.name, k, depth + 1);
        }
      }
    }
    forall n, k | n in initial && k in initial[n] ensures k in KeysOf(traced, n) {
      assert Traces(ds, initial, n, k, 0);
    }
  }

  /** The closure holds exactly the keys a name can be traced to. */
  lemma {:induction false} ClosureIsTracing(ds: seq<Declaration>, initial: Aliases, aliases: Aliases, name: Name,
                                            key: Key)
    requires Below(initial, aliases) && Closed(ds, aliases) && Least(ds, initial, aliases)
    ensures key in KeysOf(aliases, name) <==> Traced(ds, initial, name, key)
  {
    TracedIsClosed(ds, initial);
    assert Below(aliases, TracedAliases(ds, initial));
    if depth: nat :| Traces(ds, initial, name, key, depth) {
      TracedKeysAreKept(ds, initial, aliases, name, key, depth);
    }
  }
}
