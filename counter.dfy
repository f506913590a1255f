/** Python's `collections.Counter` as the knowledge graph uses it: a count
    per key, where counts may reach zero or go negative and a key, once
    created, is never dropped. */
module Counter {

  import opened Types

  type Counter = map<Pattern, int>

  /** `c[k]`: a missing key counts as zero. */
  function Get(c: Counter, k: Pattern): int
  {
    if k in c then c[k] else 0
  }

  /** Adds d to the count of k, creating the key if it is new. */
  function Bump(c: Counter, k: Pattern, d: int): (r: Counter)
    ensures r.Keys == c.Keys + {k}
    ensures Get(r, k) == Get(c, k) + d
    ensures forall j :: j != k ==> Get(r, j) == Get(c, j)
  {
    c[k := Get(c, k) + d]
  }

  /** `c.update(d)` for a mapping d: adds every count of d, keeping the keys
      of both. */
  function Update(c: Counter, d: Counter): (r: Counter)
    ensures r.Keys == c.Keys + d.Keys
    ensures forall k :: Get(r, k) == Get(c, k) + Get(d, k)
  {
    map k | k in c.Keys + d.Keys :: Get(c, k) + Get(d, k)
  }

  /** `c.update(ks)` for a list ks: one more for every element. */
  function AddAll(c: Counter, ks: seq<Pattern>): (r: Counter)
    ensures r.Keys == c.Keys + set k | k in ks
    decreases |ks|
  {
    if ks == [] then c
    else
      var r := Bump(AddAll(c, ks[..|ks| - 1]), ks[|ks| - 1], 1);
      InLast(ks);
      r
  }

  /** Counting a list adds to each key exactly its number of occurrences. */
  lemma {:induction false} AddAllGet(c: Counter, ks: seq<Pattern>, k: Pattern)
    ensures Get(AddAll(c, ks), k) == Get(c, k) + multiset(ks)[k]
    decreases |ks|
  {
    if ks != [] {
      var init := ks[..|ks| - 1];
      AddAllGet(c, init, k);
      assert ks == init + [ks[|ks| - 1]];
    }
  }

  /** A sequence of (key, delta) moves applied one after another. */
  function ApplyMoves(c: Counter, ms: seq<(Pattern, int)>): (r: Counter)
    ensures r.Keys == c.Keys + set m | m in ms :: m.0
    decreases |ms|
  {
    if ms == [] then c
    else
      var last := ms[|ms| - 1];
      var r := Bump(ApplyMoves(c, ms[..|ms| - 1]), last.0, last.1);
      InLast(ms);
      r
  }

  /** The relation labels the counter has a key for (`relations()`). */
  function Rels(c: Counter): set<Relation>
  {
    set p | p in c :: p.rel
  }

  /** Counting a list creates a key for each of its elements. */
  lemma AddAllHas(c: Counter, ks: seq<Pattern>, k: Pattern)
    requires k in ks
    ensures k in AddAll(c, ks) && k.rel in Rels(AddAll(c, ks))
  {
  }

  /** Counting a list keeps every relation label the counter had. */
  lemma RelsKeptByAddAll(c: Counter, ks: seq<Pattern>)
    ensures Rels(c) <= Rels(AddAll(c, ks))
  {
    forall r | r in Rels(c) ensures r in Rels(AddAll(c, ks)) {
      var p :| p in c && p.rel == r;
      assert p in AddAll(c, ks);
    }
  }

  /** A bump adds its key's relation label. */
  lemma RelsBump(c: Counter, k: Pattern, d: int)
    ensures Rels(Bump(c, k, d)) == Rels(c) + {k.rel}
  {
    assert k in Bump(c, k, d);
  }

  /** The sum of the deltas of a sequence of moves. */
  function SumMoves(ms: seq<(Pattern, int)>): int
    decreases |ms|
  {
    if ms == [] then 0 else SumMoves(ms[..|ms| - 1]) + ms[|ms| - 1].1
  }

  /** The sum of the counts of the keys ks. */
  ghost function SumOver(c: Counter, ks: set<Pattern>): int
    requires ks <= c.Keys
    decreases ks
  {
    if ks == {} then 0 else var k :| k in ks; c[k] + SumOver(c, ks - {k})
  }

  /** `sum(c.values())` */
  ghost function Total(c: Counter): int
  {
    SumOver(c, c.Keys)
  }

  lemma {:induction false} SumOverRemove(c: Counter, ks: set<Pattern>, k: Pattern)
    requires ks <= c.Keys && k in ks
    ensures SumOver(c, ks) == c[k] + SumOver(c, ks - {k})
    decreases ks
  {
    var j :| j in ks && SumOver(c, ks) == c[j] + SumOver(c, ks - {j});
    if j != k {
      SumOverRemove(c, ks - {j}, k);
      SumOverRemove(c, ks - {k}, j);
      assert ks - {j} - {k} == ks - {k} - {j};
    }
  }

  lemma {:induction false} SumOverFrame(c: Counter, c': Counter, ks: set<Pattern>)
    requires ks <= c.Keys && ks <= c'.Keys
    requires forall k :: k in ks ==> c[k] == c'[k]
    ensures SumOver(c, ks) == SumOver(c', ks)
    decreases ks
  {
    if ks != {} {
      var k :| k in ks;
      SumOverRemove(c, ks, k);
      SumOverRemove(c', ks, k);
      SumOverFrame(c, c', ks - {k});
    }
  }

  /** One bump moves the total by exactly its delta. */
  lemma TotalBump(c: Counter, k: Pattern, d: int)
    ensures Total(Bump(c, k, d)) == Total(c) + d
  {
    var r := Bump(c, k, d);
    if k in c {
      assert r.Keys == c.Keys && r[k] == c[k] + d;
      SumOverRemove(r, r.Keys, k);
      SumOverRemove(c, c.Keys, k);
      SumOverFrame(r, c, c.Keys - {k});
    } else {
      SumOverRemove(r, r.Keys, k);
      assert r.Keys - {k} == c.Keys;
      SumOverFrame(r, c, c.Keys);
    }
  }

  /** Counting a list raises the total by its length. */
  lemma {:induction false} TotalAddAll(c: Counter, ks: seq<Pattern>)
    ensures Total(AddAll(c, ks)) == Total(c) + |ks|
    decreases |ks|
  {
    if ks != [] {
      TotalAddAll(c, ks[..|ks| - 1]);
      TotalBump(AddAll(c, ks[..|ks| - 1]), ks[|ks| - 1], 1);
    }
  }

  /** Applying moves raises the total by the sum of their deltas. */
  lemma {:induction false} TotalApplyMoves(c: Counter, ms: seq<(Pattern, int)>)
    ensures Total(ApplyMoves(c, ms)) == Total(c) + SumMoves(ms)
    decreases |ms|
  {
    if ms != [] {
      TotalApplyMoves(c, ms[..|ms| - 1]);
      TotalBump(ApplyMoves(c, ms[..|ms| - 1]), ms[|ms| - 1].0, ms[|ms| - 1].1);
    }
  }

  lemma {:induction false} SumMovesAppend(a: seq<(Pattern, int)>, b: seq<(Pattern, int)>)
    ensures SumMoves(a + b) == SumMoves(a) + SumMoves(b)
    decreases |b|
  {
    if b != [] {
      assert (a + b)[..|a + b| - 1] == a + b[..|b| - 1];
      SumMovesAppend(a, b[..|b| - 1]);
    } else {
      assert a + b == a;
    }
  }

  lemma {:induction false} AddAllAppend(c: Counter, a: seq<Pattern>, b: seq<Pattern>)
    ensures AddAll(c, a + b) == AddAll(AddAll(c, a), b)
    decreases |b|
  {
    if b != [] {
      assert (a + b)[..|a + b| - 1] == a + b[..|b| - 1];
      AddAllAppend(c, a, b[..|b| - 1]);
    } else {
      assert a + b == a;
    }
  }

  lemma {:induction false} ApplyMovesAppend(c: Counter, a: seq<(Pattern, int)>, b: seq<(Pattern, int)>)
    ensures ApplyMoves(c, a + b) == ApplyMoves(ApplyMoves(c, a), b)
    decreases |b|
  {
    if b != [] {
      assert (a + b)[..|a + b| - 1] == a + b[..|b| - 1];
      ApplyMovesAppend(c, a, b[..|b| - 1]);
    } else {
      assert a + b == a;
    }
  }

  /** A bump made first can equally be made last. */
  lemma {:induction false} ApplyMovesBump(c: Counter, k: Pattern, d: int, ms: seq<(Pattern, int)>)
    ensures ApplyMoves(Bump(c, k, d), ms) == Bump(ApplyMoves(c, ms), k, d)
    decreases |ms|
  {
    if ms != [] {
      var last := ms[|ms| - 1];
      ApplyMovesBump(c, k, d, ms[..|ms| - 1]);
      BumpSwap(ApplyMoves(c, ms[..|ms| - 1]), k, d, last.0, last.1);
    }
  }

  lemma BumpSwap(c: Counter, k: Pattern, d: int, k': Pattern, d': int)
    ensures Bump(Bump(c, k, d), k', d') == Bump(Bump(c, k', d'), k, d)
  {
    var lhs, rhs := Bump(Bump(c, k, d), k', d'), Bump(Bump(c, k', d'), k, d);
    assert lhs.Keys == rhs.Keys;
    assert forall j | j in lhs :: lhs[j] == Get(lhs, j) == Get(rhs, j) == rhs[j];
  }

  lemma MultisetCancel(ms: seq<(Pattern, int)>, a: seq<(Pattern, int)>, last: (Pattern, int), b: seq<(Pattern, int)>)
    requires |ms| > 0 && ms[|ms| - 1] == last
    requires multiset(ms) == multiset(a + [last] + b)
    ensures multiset(ms[..|ms| - 1]) == multiset(a + b)
  {
    assert ms == ms[..|ms| - 1] + [last];
    assert multiset(ms) == multiset(ms[..|ms| - 1]) + multiset{last};
    assert multiset(a + [last] + b) == multiset(a) + multiset{last} + multiset(b);
    assert multiset(a + b) == multiset(a) + multiset(b);
    assert forall x :: multiset(ms[..|ms| - 1])[x] == multiset(a + b)[x] by {
      forall x ensures multiset(ms[..|ms| - 1])[x] == multiset(a + b)[x] {
        assert multiset(ms)[x] == multiset(ms[..|ms| - 1])[x] + multiset{last}[x];
        assert multiset(a + [last] + b)[x] == multiset(a)[x] + multiset{last}[x] + multiset(b)[x];
      }
    }
  }

  /** Moving one move from the middle of a sequence to its end. */
  lemma MoveToEnd(c: Counter, a: seq<(Pattern, int)>, last: (Pattern, int), b: seq<(Pattern, int)>)
    ensures ApplyMoves(c, a + [last] + b) == Bump(ApplyMoves(c, a + b), last.0, last.1)
  {
    ApplyMovesAppend(c, a + [last], b);
    assert (a + [last])[..|a|] == a;
    assert ApplyMoves(c, a + [last]) == Bump(ApplyMoves(c, a), last.0, last.1);
    ApplyMovesBump(ApplyMoves(c, a), last.0, last.1, b);
    ApplyMovesAppend(c, a, b);
  }

  /** The result of a batch of moves does not depend on their order: counts
      and keys alike. */
  lemma {:induction false} ApplyMovesPermutation(c: Counter, ms: seq<(Pattern, int)>, ns: seq<(Pattern, int)>)
    requires multiset(ms) == multiset(ns)
    ensures ApplyMoves(c, ms) == ApplyMoves(c, ns)
    decreases |ms|
  {
    if ms != [] {
      var last := ms[|ms| - 1];
      assert last in multiset(ms);
      var i :| 0 <= i < |ns| && ns[i] == last;
      var a, b := ns[..i], ns[i + 1..];
      assert ns == a + [last] + b;
      MultisetCancel(ms, a, last, b);
      ApplyMovesPermutation(c, ms[..|ms| - 1], a + b);
      MoveToEnd(c, a, last, b);
    } else {
      assert |ns| == |multiset(ns)| == 0;
    }
  }

  /** Accumulating moves into an empty Counter and then adding it to c is
      the same as applying the moves to c directly. */
  lemma {:induction false} UpdateApplyMoves(c: Counter, ms: seq<(Pattern, int)>)
    ensures Update(c, ApplyMoves(map[], ms)) == ApplyMoves(c, ms)
    decreases |ms|
  {
    if ms == [] {
      UpdateEmpty(c);
    } else {
      var init, last := ms[..|ms| - 1], ms[|ms| - 1];
      UpdateApplyMoves(c, init);
      UpdateBump(c, ApplyMoves(map[], init), last.0, last.1);
    }
  }

  lemma UpdateEmpty(c: Counter)
    ensures Update(c, map[]) == c
  {
    var r := Update(c, map[]);
    assert r.Keys == c.Keys;
    forall k | k in r ensures r[k] == c[k] {
      assert Get(r, k) == Get(c, k);
    }
  }

  /** Adding a Counter with one more bump is bumping the sum. */
  lemma UpdateBump(c: Counter, d: Counter, k: Pattern, x: int)
    ensures Update(c, Bump(d, k, x)) == Bump(Update(c, d), k, x)
  {
    var lhs, rhs := Update(c, Bump(d, k, x)), Bump(Update(c, d), k, x);
    assert lhs.Keys == rhs.Keys;
    forall j | j in lhs ensures lhs[j] == rhs[j] {
      assert lhs[j] == Get(lhs, j) && rhs[j] == Get(rhs, j);
    }
  }

  lemma ApplyTwoMoves(c: Counter, m: (Pattern, int), n: (Pattern, int))
    ensures ApplyMoves(c, [m, n]) == Bump(Bump(c, m.0, m.1), n.0, n.1)
  {
    var ms := [m, n];
    assert ms[..1] == [m];
    var none: seq<(Pattern, int)> := [];
    assert [m][..0] == none;
    assert ApplyMoves(c, none) == c;
    assert ApplyMoves(c, [m]) == Bump(ApplyMoves(c, none), m.0, m.1);
    assert ApplyMoves(c, ms) == Bump(ApplyMoves(c, [m]), n.0, n.1);
  }

  /** `update({a: -1, b: 1})` with a and b distinct is two moves. */
  lemma UpdatePair(c: Counter, a: Pattern, b: Pattern)
    requires a != b
    ensures Update(c, map[a := -1, b := 1]) == ApplyMoves(c, [(a, -1), (b, 1)])
  {
    calc {
      Update(c, map[a := -1, b := 1]);
      { PairAsBumps(a, b); }
      Update(c, Bump(Bump(map[], a, -1), b, 1));
      { UpdateBump(c, Bump(map[], a, -1), b, 1); }
      Bump(Update(c, Bump(map[], a, -1)), b, 1);
      { UpdateBump(c, map[], a, -1); UpdateEmpty(c); }
      Bump(Bump(c, a, -1), b, 1);
      { ApplyTwoMoves(c, (a, -1), (b, 1)); }
      ApplyMoves(c, [(a, -1), (b, 1)]);
    }
  }

  lemma PairAsBumps(a: Pattern, b: Pattern)
    requires a != b
    ensures map[a := -1, b := 1] == Bump(Bump(map[], a, -1), b, 1)
  {
  }

}
