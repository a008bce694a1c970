/**
 * `SELECT key, COUNT(*) AS count ... GROUP BY key ORDER BY count DESC`
 * over a sequence of keys: grouping by exact equality, groups listed in order
 * of first appearance, then ranked by count, largest first.
 */
module Tally {
  import opened Wrappers
  import opened Sorting

  /** One row of the grouped result. */
  datatype Group<K> = Group(key: K, count: nat)

  function CountOf<K>(g: Group<K>): int { g.count }

  predicate DistinctKeys<K(==)>(gs: seq<Group<K>>)
  {
    forall i, j :: 0 <= i < j < |gs| ==> gs[i].key != gs[j].key
  }

  /** The position of the group for `x`, if there is one. */
  function Find<K(==)>(gs: seq<Group<K>>, x: K): (r: Option<nat>)
    ensures r.None? <==> forall i :: 0 <= i < |gs| ==> gs[i].key != x
    ensures r.Some? ==> r.value < |gs| && gs[r.value].key == x
  {
    if gs == [] then None
    else if gs[0].key == x then Some(0)
    else
      match Find(gs[1..], x)
      case None => None
      case Some(j) => Some(j + 1)
  }

  /** Counts one more occurrence of `x`, opening a group for it when it has none. */
  function Bump<K(==)>(gs: seq<Group<K>>, x: K): seq<Group<K>>
  {
    match Find(gs, x)
    case Some(j) => gs[j := Group(x, gs[j].count + 1)]
    case None => gs + [Group(x, 1)]
  }

  /** The groups of `xs`, in order of each key's first appearance. */
  function Tally<K(==)>(xs: seq<K>): seq<Group<K>>
  {
    if xs == [] then [] else Bump(Tally(xs[..|xs| - 1]), xs[|xs| - 1])
  }

  /** The groups of `xs` ranked by count, largest first (ties in order of first appearance). */
  function Ranked<K(==)>(xs: seq<K>): seq<Group<K>>
  {
    SortDesc(Tally(xs), CountOf)
  }

  /** The sum of the counts. */
  function Total<K>(gs: seq<Group<K>>): nat
  {
    if gs == [] then 0 else gs[0].count + Total(gs[1..])
  }

  /**
   * `gs` is a correct grouping of `xs`: one group per distinct key, each
   * count the number of occurrences of its key, and every key of `xs` present.
   */
  ghost predicate Tallies<K>(gs: seq<Group<K>>, xs: seq<K>)
  {
    && DistinctKeys(gs)
    && (forall i :: 0 <= i < |gs| ==> 0 < gs[i].count == multiset(xs)[gs[i].key])
    && (forall x :: x in xs ==> exists i :: 0 <= i < |gs| && gs[i].key == x)
  }

  lemma {:induction false} TotalAppend<K>(gs: seq<Group<K>>, g: Group<K>)
    ensures Total(gs + [g]) == Total(gs) + g.count
  {
    if gs != [] {
      assert (gs + [g])[1..] == gs[1..] + [g];
      TotalAppend(gs[1..], g);
    }
  }

  lemma {:induction false} TotalUpdate<K>(gs: seq<Group<K>>, j: nat, g: Group<K>)
    requires j < |gs|
    ensures Total(gs[j := g]) == Total(gs) - gs[j].count + g.count
  {
    if j == 0 {
      assert gs[j := g][1..] == gs[1..];
    } else {
      assert gs[j := g][1..] == gs[1..][j - 1 := g];
      TotalUpdate(gs[1..], j - 1, g);
    }
  }

  lemma {:induction false} TotalPrefix<K>(gs: seq<Group<K>>, k: nat)
    requires k <= |gs|
    ensures Total(gs[..k]) <= Total(gs)
  {
    if k > 0 {
      assert gs[..k][1..] == gs[1..][..k - 1];
      TotalPrefix(gs[1..], k - 1);
    }
  }

  /** Grouping is correct and conserves the number of rows. */
  lemma {:induction false} TallyCorrect<K>(xs: seq<K>)
    ensures Tallies(Tally(xs), xs)
    ensures Total(Tally(xs)) == |xs|
  {
    if xs != [] {
      var ys, x := xs[..|xs| - 1], xs[|xs| - 1];
      assert xs == ys + [x];
      assert multiset(xs) == multiset(ys) + multiset{x};
      TallyCorrect(ys);
      var gs := Tally(ys);
      match Find(gs, x)
      case Some(j) =>
        var hs := gs[j := Group(x, gs[j].count + 1)];
        assert Tally(xs) == hs;
        TotalUpdate(gs, j, Group(x, gs[j].count + 1));
        forall y | y in xs ensures exists i :: 0 <= i < |hs| && hs[i].key == y {
          if y != x {
            assert y in ys;
            var i :| 0 <= i < |gs| && gs[i].key == y;
            assert hs[i].key == y;
          } else {
            assert hs[j].key == y;
          }
        }
      case None =>
        var hs := gs + [Group(x, 1)];
        assert Tally(xs) == hs;
        TotalAppend(gs, Group(x, 1));
        assert x !in ys;
        forall y | y in xs ensures exists i :: 0 <= i < |hs| && hs[i].key == y {
          if y != x {
            assert y in ys;
            var i :| 0 <= i < |gs| && gs[i].key == y;
            assert hs[i].key == y;
          } else {
            assert hs[|gs|].key == y;
          }
        }
    }
  }

  lemma {:induction false} TotalInsert<K>(g: Group<K>, gs: seq<Group<K>>)
    requires SortedDesc(gs, CountOf)
    ensures Total(InsertDesc(g, gs, CountOf)) == g.count + Total(gs)
  {
    if gs != [] && CountOf(g) < CountOf(gs[0]) {
      var rest := InsertDesc(g, gs[1..], CountOf);
      assert InsertDesc(g, gs, CountOf) == [gs[0]] + rest;
      assert ([gs[0]] + rest)[1..] == rest;
      TotalInsert(g, gs[1..]);
    } else {
      assert ([g] + gs)[1..] == gs;
    }
  }

  lemma {:induction false} TotalSort<K>(gs: seq<Group<K>>)
    ensures Total(SortDesc(gs, CountOf)) == Total(gs)
  {
    if gs != [] {
      TotalSort(gs[1..]);
      TotalInsert(gs[0], SortDesc(gs[1..], CountOf));
    }
  }

  /** Reordering a correct grouping leaves it correct. */
  lemma PermutationTallies<K>(gs: seq<Group<K>>, rs: seq<Group<K>>, xs: seq<K>)
    requires Tallies(gs, xs) && multiset(gs) == multiset(rs)
    ensures Tallies(rs, xs)
  {
    assert NoDuplicates(gs);
    PermutationNoDuplicates(gs, rs);
    forall i | 0 <= i < |rs| ensures rs[i] in gs {
      assert rs[i] in multiset(rs);
    }
    forall x | x in xs ensures exists i :: 0 <= i < |rs| && rs[i].key == x {
      var k :| 0 <= k < |gs| && gs[k].key == x;
      assert gs[k] in multiset(rs);
      var i :| 0 <= i < |rs| && rs[i] == gs[k];
    }
  }

  /** Ranking keeps the grouping correct and the row count conserved, and orders it by count. */
  lemma RankedCorrect<K>(xs: seq<K>)
    ensures Tallies(Ranked(xs), xs)
    ensures Total(Ranked(xs)) == |xs|
    ensures SortedDesc(Ranked(xs), CountOf)
  {
    TallyCorrect(xs);
    TotalSort(Tally(xs));
    PermutationTallies(Tally(xs), Ranked(xs), xs);
  }
}
