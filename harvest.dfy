/** Harvesting: reading every chain of units back into a flat strand once the
    enzyme has run. The harvest repeatedly takes the first registered unit,
    walks left to the end of its chain, then walks right reading bases and
    dropping each unit it visits from the registry. */
module Harvesting {
  import opened Wrappers
  import opened Nucleotides
  import opened Arena
  import opened Engine

  /** The left end of the chain through `h`. */
  function LeftEnd(us: seq<Unit>, h: Handle, ghost lay: Layout): (e: Handle)
    requires Oriented(us, lay) && h < |us|
    ensures e < |us| && us[e].left.Null?
    ensures lay.upper[e] == lay.upper[h] && Rank(lay, e) <= Rank(lay, h)
    decreases Span(lay.place) + Rank(lay, h)
  {
    if us[h].left.Null? then h
    else
      assert Placed(us, lay, h);
      RankWithinSpan(lay, us[h].left.h);
      LeftEnd(us, us[h].left.h, lay)
  }

  /** The measure of a rightward walk that is at `l`. */
  ghost function Remaining(us: seq<Unit>, l: Link, lay: Layout): nat
    requires Oriented(us, lay) && LinkIn(l, |us|)
  {
    if l.Null? then 0 else RankWithinSpan(lay, l.h); Span(lay.place) - Rank(lay, l.h) + 1
  }

  lemma RightShrinks(us: seq<Unit>, h: Handle, lay: Layout)
    requires Oriented(us, lay) && h < |us|
    ensures Remaining(us, us[h].right, lay) < Remaining(us, To(h), lay)
  {
    assert Placed(us, lay, h);
    if us[h].right.To? { RankWithinSpan(lay, us[h].right.h); }
  }

  /** The units met walking right from `l`, in order. */
  function Chain(us: seq<Unit>, l: Link, ghost lay: Layout): (c: seq<Handle>)
    requires Oriented(us, lay) && LinkIn(l, |us|)
    ensures Registered(us, c) && forall i :: 0 <= i < |c| ==> c[i] < |us|
    decreases Remaining(us, l, lay)
  {
    if l.Null? then []
    else
      RightShrinks(us, l.h, lay);
      [l.h] + Chain(us, us[l.h].right, lay)
  }

  /** The bases of units `hs`, in order. */
  function Bases(us: seq<Unit>, hs: seq<Handle>): (s: Strand)
    requires Registered(us, hs)
    ensures |s| == |hs|
  {
    if hs == [] then []
    else
      RegisteredCons(us, hs);
      [us[hs[0]].base] + Bases(us, hs[1..])
  }

  lemma RegisteredCons(us: seq<Unit>, hs: seq<Handle>)
    requires Registered(us, hs) && hs != []
    ensures hs[0] < |us| && Registered(us, hs[1..])
  {
    assert hs[0] in hs;
    forall x | x in hs[1..] ensures x < |us| {
      assert x in [hs[0]] + hs[1..];
      assert [hs[0]] + hs[1..] == hs;
    }
  }

  /** The registry once each of `hs` has been removed in turn. */
  function RemoveAll(ops: seq<Handle>, hs: seq<Handle>): (r: seq<Handle>)
    ensures |r| <= |ops| && forall y :: y in r ==> y in ops
    decreases |hs|
  {
    if hs == [] then ops else RemoveAll(RemoveFirst(ops, hs[0]), hs[1..])
  }

  /** The inner walk: from `l` rightwards, appending each base to `acc` and
      removing each unit from the registry `ops`. */
  function Collect(us: seq<Unit>, l: Link, ops: seq<Handle>, acc: Strand, ghost lay: Layout): (r: (Strand, seq<Handle>))
    requires Oriented(us, lay) && LinkIn(l, |us|)
    ensures |r.1| <= |ops| && forall y :: y in r.1 ==> y in ops
    decreases Remaining(us, l, lay)
  {
    if l.Null? then (acc, ops)
    else
      RightShrinks(us, l.h, lay);
      Collect(us, us[l.h].right, RemoveFirst(ops, l.h), acc + [us[l.h].base], lay)
  }

  /** The walk reads the bases along the chain and removes the chain's units. */
  lemma {:induction false} CollectReadsChain(us: seq<Unit>, l: Link, ops: seq<Handle>, acc: Strand, lay: Layout)
    requires Oriented(us, lay) && LinkIn(l, |us|)
    ensures Collect(us, l, ops, acc, lay) == (acc + Bases(us, Chain(us, l, lay)), RemoveAll(ops, Chain(us, l, lay)))
    decreases Remaining(us, l, lay)
  {
    if l.To? {
      RightShrinks(us, l.h, lay);
      var rt := us[l.h].right;
      var b := us[l.h].base;
      CollectReadsChain(us, rt, RemoveFirst(ops, l.h), acc + [b], lay);
      var c := Chain(us, l, lay);
      assert c == [l.h] + Chain(us, rt, lay);
      assert c[1..] == Chain(us, rt, lay);
      RegisteredCons(us, c);
      assert Bases(us, c) == [b] + Bases(us, c[1..]);
      assert RemoveAll(ops, c) == RemoveAll(RemoveFirst(ops, l.h), c[1..]);
      assert acc + [b] + Bases(us, c[1..]) == acc + Bases(us, c);
    } else {
      assert acc + [] == acc;
    }
  }

  /** The outer loop: strands found so far in `acc`; `None` when an iteration
      removes nothing, where the engine's loop would run forever. */
  function Harvest(us: seq<Unit>, ops: seq<Handle>, acc: seq<Strand>, ghost lay: Layout): (r: Option<seq<Strand>>)
    requires Oriented(us, lay) && Registered(us, ops)
    ensures r.Some? ==> |r.value| >= |acc| && r.value[..|acc|] == acc
    decreases |ops|
  {
    if ops == [] then Some(acc)
    else
      assert ops[0] in ops;
      var e := LeftEnd(us, ops[0], lay);
      var (s, rest) := Collect(us, To(e), ops, [], lay);
      if |rest| < |ops| then
        assert Registered(us, rest);
        var r := Harvest(us, rest, acc + [s], lay);
        assert r.Some? ==> r.value[..|acc|] == (r.value[..|acc| + 1])[..|acc|];
        r
      else None
  }

  /** A walk over a chain of one unit, or of two. */
  lemma CollectOne(us: seq<Unit>, h: Handle, ops: seq<Handle>, lay: Layout)
    requires Oriented(us, lay) && h < |us| && us[h].right.Null?
    ensures Collect(us, To(h), ops, [], lay) == ([us[h].base], RemoveFirst(ops, h))
  {
    RightShrinks(us, h, lay);
    assert [] + [us[h].base] == [us[h].base];
  }

  lemma CollectTwo(us: seq<Unit>, h: Handle, ops: seq<Handle>, lay: Layout)
    requires Oriented(us, lay) && h < |us| && us[h].right.To? && us[h].right.h < |us| && us[us[h].right.h].right.Null?
    ensures Collect(us, To(h), ops, [], lay) == ([us[h].base, us[us[h].right.h].base], RemoveFirst(RemoveFirst(ops, h), us[h].right.h))
  {
    var k := us[h].right.h;
    RightShrinks(us, h, lay);
    assert [] + [us[h].base] == [us[h].base];
    RightShrinks(us, k, lay);
    assert [us[h].base] + [us[k].base] == [us[h].base, us[k].base];
    assert Collect(us, To(h), ops, [], lay) == Collect(us, To(k), RemoveFirst(ops, h), [us[h].base], lay);
    assert Collect(us, To(k), RemoveFirst(ops, h), [us[h].base], lay) == Collect(us, Null, RemoveFirst(RemoveFirst(ops, h), k), [us[h].base, us[k].base], lay);
  }

  /** One pass of the harvest. */
  lemma HarvestPass(us: seq<Unit>, ops: seq<Handle>, acc: seq<Strand>, lay: Layout, s: Strand, rest: seq<Handle>)
    requires Oriented(us, lay) && Registered(us, ops) && ops != [] && ops[0] < |us|
    requires Collect(us, To(LeftEnd(us, ops[0], lay)), ops, [], lay) == (s, rest)
    ensures |rest| < |ops| ==> Registered(us, rest) && Harvest(us, ops, acc, lay) == Harvest(us, rest, acc + [s], lay)
    ensures |rest| >= |ops| ==> Harvest(us, ops, acc, lay) == None
  {
  }

  /** The strands laid end to end. */
  function Flatten(ss: seq<Strand>): (s: Strand)
    ensures ss == [] ==> s == []
  {
    if ss == [] then [] else Flatten(ss[..|ss| - 1]) + ss[|ss| - 1]
  }

  // ---------------------------------------------------------------------------
  // A registry that harvests

  ghost predicate NoDup(hs: seq<Handle>) {
    forall h :: multiset(hs)[h] <= 1
  }

  /** The registry holds distinct units, and every left or right pointer of a
      registered unit names a registered unit that points back. */
  ghost predicate Harvestable(us: seq<Unit>, ops: seq<Handle>) {
    && Closed(us) && Registered(us, ops) && NoDup(ops)
    && forall h :: h in ops ==>
         && (us[h].left.To? ==> us[h].left.h in ops && us[us[h].left.h].right == To(h))
         && (us[h].right.To? ==> us[h].right.h in ops && us[us[h].right.h].left == To(h))
  }

  lemma {:induction false} LeftEndRegistered(us: seq<Unit>, ops: seq<Handle>, h: Handle, lay: Layout)
    requires Oriented(us, lay) && Harvestable(us, ops) && h in ops
    ensures LeftEnd(us, h, lay) in ops
    decreases Span(lay.place) + Rank(lay, h)
  {
    if us[h].left.To? {
      assert Placed(us, lay, h);
      RankWithinSpan(lay, us[h].left.h);
      LeftEndRegistered(us, ops, us[h].left.h, lay);
    }
  }

  /** A chain from a registered unit: registered, distinct, linked left to right,
      with no right neighbour at its end. */
  lemma {:induction false} ChainShape(us: seq<Unit>, ops: seq<Handle>, h: Handle, lay: Layout)
    requires Oriented(us, lay) && Harvestable(us, ops) && h in ops
    ensures var c := Chain(us, To(h), lay);
      && |c| >= 1 && c[0] == h && us[c[|c| - 1]].right.Null?
      && (forall i :: 0 <= i < |c| ==> c[i] in ops)
      && (forall i :: 0 <= i < |c| - 1 ==> us[c[i]].right == To(c[i + 1]))
      && (forall i :: 0 <= i < |c| ==> lay.upper[c[i]] == lay.upper[h] && Rank(lay, c[i]) >= Rank(lay, h))
      && (forall i, j :: 0 <= i < j < |c| ==> c[i] != c[j])
    decreases Remaining(us, To(h), lay)
  {
    RightShrinks(us, h, lay);
    assert Placed(us, lay, h);
    var c := Chain(us, To(h), lay);
    var rt := us[h].right;
    if rt.To? {
      ChainShape(us, ops, rt.h, lay);
      var c' := Chain(us, rt, lay);
      assert c == [h] + c';
      forall i, j | 0 <= i < j < |c| ensures c[i] != c[j] {
        if i == 0 { assert Rank(lay, c[j]) >= Rank(lay, rt.h); }
        else { assert c[i] == c'[i - 1] && c[j] == c'[j - 1]; }
      }
    }
  }

  lemma RemoveFirstNoDup(s: seq<Handle>, x: Handle)
    requires NoDup(s)
    ensures NoDup(RemoveFirst(s, x)) && x !in RemoveFirst(s, x)
  {
    var r := RemoveFirst(s, x);
    RemoveFirstCount(s, x);
    if x in s {
      var ms, mr: multiset<Handle> := multiset(s), multiset(r);
      assert mr == ms - multiset{x};
      assert ms[x] == 1;
    }
  }

  lemma {:induction false} RemoveFirstBases(us: seq<Unit>, s: seq<Handle>, x: Handle)
    requires Registered(us, s) && x in s
    ensures Registered(us, RemoveFirst(s, x))
    ensures multiset(Bases(us, s)) == multiset(Bases(us, RemoveFirst(s, x))) + multiset{us[x].base}
  {
    var r := RemoveFirst(s, x);
    assert Registered(us, r);
    RegisteredCons(us, s);
    assert s == [s[0]] + s[1..];
    assert Bases(us, s) == [us[s[0]].base] + Bases(us, s[1..]);
    if s[0] != x {
      RemoveFirstBases(us, s[1..], x);
      assert r == [s[0]] + RemoveFirst(s[1..], x);
      RegisteredCons(us, r);
      assert r[1..] == RemoveFirst(s[1..], x);
      assert Bases(us, r) == [us[s[0]].base] + Bases(us, RemoveFirst(s[1..], x));
    }
  }

  /** What the recursive step of `RemoveChain` needs about the rest of the chain. */
  lemma ChainTail(us: seq<Unit>, ops: seq<Handle>, c: seq<Handle>)
    requires Registered(us, ops) && NoDup(ops) && c != []
    requires (forall y :: y in c ==> y in ops) && (forall i, j :: 0 <= i < j < |c| ==> c[i] != c[j])
    ensures var rf := RemoveFirst(ops, c[0]);
      && c[0] in ops && Registered(us, rf) && NoDup(rf) && |rf| == |ops| - 1
      && (forall y :: y in rf <==> y in ops && y != c[0])
      && (forall y :: y in c[1..] ==> y in rf) && (forall i, j :: 0 <= i < j < |c[1..]| ==> c[1..][i] != c[1..][j])
  {
    var c0, c' := c[0], c[1..];
    assert c0 in c;
    var rf := RemoveFirst(ops, c0);
    RemoveFirstNoDup(ops, c0);
    forall y | y in c' ensures y in rf {
      var j :| 0 <= j < |c'| && c'[j] == y;
      assert c[j + 1] == y;
    }
    forall i, j | 0 <= i < j < |c'| ensures c'[i] != c'[j] {
      assert c[i + 1] == c'[i] && c[j + 1] == c'[j];
    }
  }

  /** Removing a chain of distinct registered units from a registry without
      duplicates removes exactly those units. */
  lemma {:induction false} RemoveChain(us: seq<Unit>, ops: seq<Handle>, c: seq<Handle>)
    requires Registered(us, ops) && NoDup(ops)
    requires (forall y :: y in c ==> y in ops) && (forall i, j :: 0 <= i < j < |c| ==> c[i] != c[j])
    ensures var rest := RemoveAll(ops, c);
      && Registered(us, rest) && NoDup(rest) && |rest| == |ops| - |c|
      && (forall y :: y in rest <==> y in ops && y !in c)
    decreases |c|
  {
    if c != [] {
      ChainTail(us, ops, c);
      RemoveChain(us, RemoveFirst(ops, c[0]), c[1..]);
      assert c == [c[0]] + c[1..];
    }
  }

  /** ... and exactly their bases. */
  lemma {:induction false} RemoveChainBases(us: seq<Unit>, ops: seq<Handle>, c: seq<Handle>)
    requires Registered(us, ops) && NoDup(ops)
    requires (forall y :: y in c ==> y in ops) && (forall i, j :: 0 <= i < j < |c| ==> c[i] != c[j])
    ensures Registered(us, c) && Registered(us, RemoveAll(ops, c))
    ensures multiset(Bases(us, ops)) == multiset(Bases(us, RemoveAll(ops, c))) + multiset(Bases(us, c))
    decreases |c|
  {
    assert Registered(us, c);
    if c == [] {
      assert Bases(us, c) == [];
    } else {
      var c0, c' := c[0], c[1..];
      var rf := RemoveFirst(ops, c0);
      ChainTail(us, ops, c);
      RemoveChainBases(us, rf, c');
      RemoveFirstBases(us, ops, c0);
      RegisteredCons(us, c);
      assert Bases(us, c) == [us[c0].base] + Bases(us, c');
    }
  }

  /** Removing the chain through a harvestable registry's first unit, read from
      its left end, leaves a registry whose pointers stay inside it: a unit
      pointing into the chain would be pointed at by the chain, so it is on it. */
  lemma RestClosed(us: seq<Unit>, ops: seq<Handle>, c: seq<Handle>, rest: seq<Handle>)
    requires Harvestable(us, ops) && |c| >= 1
    requires forall i :: 0 <= i < |c| ==> c[i] in ops && c[i] < |us|
    requires us[c[0]].left.Null? && us[c[|c| - 1]].right.Null?
    requires forall i :: 0 <= i < |c| - 1 ==> us[c[i]].right == To(c[i + 1])
    requires forall y :: y in rest <==> y in ops && y !in c
    ensures forall h :: h in rest ==>
      && (us[h].left.To? ==> us[h].left.h in rest)
      && (us[h].right.To? ==> us[h].right.h in rest)
  {
    forall h | h in rest
      ensures us[h].left.To? ==> us[h].left.h in rest
      ensures us[h].right.To? ==> us[h].right.h in rest
    {
      assert h in ops && h !in c;
      var g := us[h].left;
      if g.To? {
        assert g.h in ops && us[g.h].right == To(h);
        forall i | 0 <= i < |c| ensures c[i] != g.h {
          if i < |c| - 1 {
            assert us[c[i]].right == To(c[i + 1]);
            assert c[i + 1] in c;
          }
        }
      }
      var k := us[h].right;
      if k.To? {
        assert k.h in ops && us[k.h].left == To(h);
        forall i | 0 <= i < |c| ensures c[i] != k.h {
          if i > 0 {
            assert us[c[i - 1]].right == To(c[i]);
            assert c[i - 1] in ops && c[i - 1] in c;
          }
        }
      }
    }
  }

  /** One round of the outer loop keeps the registry harvestable and removes at
      least one unit: the units of the chain it read. */
  lemma HarvestStep(us: seq<Unit>, ops: seq<Handle>, lay: Layout)
    requires Oriented(us, lay) && Harvestable(us, ops) && ops != []
    ensures ops[0] in ops
    ensures var e := LeftEnd(us, ops[0], lay);
      var c := Chain(us, To(e), lay);
      var rest := RemoveAll(ops, c);
      && Harvestable(us, rest) && |rest| < |ops| && |c| >= 1
      && multiset(Bases(us, ops)) == multiset(Bases(us, rest)) + multiset(Bases(us, c))
  {
    assert ops[0] in ops;
    var e := LeftEnd(us, ops[0], lay);
    LeftEndRegistered(us, ops, ops[0], lay);
    ChainShape(us, ops, e, lay);
    var c := Chain(us, To(e), lay);
    assert forall y :: y in c ==> y in ops;
    RemoveChain(us, ops, c);
    RemoveChainBases(us, ops, c);
    RestClosed(us, ops, c, RemoveAll(ops, c));
  }

  /** A harvestable registry always harvests: the strands hold every registered
      unit's base once, so their total length is the registry's size, and no
      strand is empty. */
  lemma {:induction false} HarvestSound(us: seq<Unit>, ops: seq<Handle>, acc: seq<Strand>, lay: Layout)
    requires Oriented(us, lay) && Harvestable(us, ops)
    ensures var r := Harvest(us, ops, acc, lay);
      && r.Some?
      && multiset(Flatten(r.value)) == multiset(Flatten(acc)) + multiset(Bases(us, ops))
      && |Flatten(r.value)| == |Flatten(acc)| + |ops|
      && forall i :: |acc| <= i < |r.value| ==> r.value[i] != []
    decreases |ops|
  {
    if ops == [] {
      assert Bases(us, ops) == [];
    } else {
      assert ops[0] in ops;
      var e := LeftEnd(us, ops[0], lay);
      var c := Chain(us, To(e), lay);
      CollectReadsChain(us, To(e), ops, [], lay);
      HarvestStep(us, ops, lay);
      var s, rest := Bases(us, c), RemoveAll(ops, c);
      assert [] + s == s;
      HarvestSound(us, rest, acc + [s], lay);
      assert Flatten(acc + [s]) == Flatten(acc) + s by {
        assert (acc + [s])[..|acc|] == acc;
      }
      var r := Harvest(us, rest, acc + [s], lay);
      forall i | |acc| <= i < |r.value| ensures r.value[i] != [] {
        if i == |acc| { assert r.value[..|acc| + 1][i] == s; }
      }
    }
  }

  // ---------------------------------------------------------------------------
  // A harvest that stays on registered units

  /** The left walk, stopping before a unit that is no longer registered. */
  function GuardedLeftEnd(us: seq<Unit>, ops: seq<Handle>, h: Handle, ghost lay: Layout): (e: Handle)
    requires Oriented(us, lay) && h < |us|
    ensures e < |us| && (h in ops ==> e in ops)
    ensures us[e].left.Null? || us[e].left.h !in ops
    decreases Span(lay.place) + Rank(lay, h)
  {
    if us[h].left.Null? || us[h].left.h !in ops then h
    else
      assert Placed(us, lay, h);
      RankWithinSpan(lay, us[h].left.h);
      GuardedLeftEnd(us, ops, us[h].left.h, lay)
  }

  /** The right walk, reading and unregistering units while they are still
      registered: every base read comes out of the registry, so nothing is read
      twice and nothing is lost. */
  function GuardedCollect(us: seq<Unit>, l: Link, ops: seq<Handle>, acc: Strand): (r: (Strand, seq<Handle>))
    requires Closed(us) && LinkIn(l, |us|) && Registered(us, ops)
    ensures Registered(us, r.1)
    ensures multiset(r.0) + multiset(Bases(us, r.1)) == multiset(acc) + multiset(Bases(us, ops))
    ensures |r.0| + |r.1| == |acc| + |ops|
    ensures l.To? && l.h in ops ==> |r.1| < |ops|
    decreases |ops|
  {
    if l.Null? || l.h !in ops then (acc, ops)
    else
      RemoveFirstBases(us, ops, l.h);
      GuardedCollect(us, us[l.h].right, RemoveFirst(ops, l.h), acc + [us[l.h].base])
  }

  /** The harvest with both walks kept on registered units. Each pass reads at
      least the unit it starts from, so the loop ends on every arena. */
  function GuardedHarvest(us: seq<Unit>, ops: seq<Handle>, acc: seq<Strand>, ghost lay: Layout): seq<Strand>
    requires Oriented(us, lay) && Registered(us, ops)
    decreases |ops|
  {
    if ops == [] then acc
    else
      assert ops[0] in ops;
      var c := GuardedCollect(us, To(GuardedLeftEnd(us, ops, ops[0], lay)), ops, []);
      GuardedHarvest(us, c.1, acc + [c.0], lay)
  }

  /** The guarded harvest keeps the strands found so far and adds only
      non-empty strands. */
  lemma {:induction false} GuardedHarvestExtends(us: seq<Unit>, ops: seq<Handle>, acc: seq<Strand>, lay: Layout)
    requires Oriented(us, lay) && Registered(us, ops)
    ensures var r := GuardedHarvest(us, ops, acc, lay);
      && |r| >= |acc| && r[..|acc|] == acc
      && forall i :: |acc| <= i < |r| ==> r[i] != []
    decreases |ops|
  {
    if ops != [] {
      GuardedHarvestStep(us, ops, acc, lay);
      var c := GuardedCollect(us, To(GuardedLeftEnd(us, ops, ops[0], lay)), ops, []);
      var s := c.0;
      assert |s| >= 1;
      GuardedHarvestExtends(us, c.1, acc + [s], lay);
      var r := GuardedHarvest(us, c.1, acc + [s], lay);
      GuardedPass(acc, s, r);
      forall i | |acc| <= i < |r| ensures r[i] != [] {
        if i == |acc| { assert r[i] == s; }
      }
    }
  }

  /** The guarded harvest is lossless: the strands it adds hold every
      registered unit's base exactly once. */
  lemma {:induction false} GuardedHarvestLossless(us: seq<Unit>, ops: seq<Handle>, acc: seq<Strand>, lay: Layout)
    requires Oriented(us, lay) && Registered(us, ops)
    ensures var r := GuardedHarvest(us, ops, acc, lay);
      && multiset(Flatten(r)) == multiset(Flatten(acc)) + multiset(Bases(us, ops))
      && |Flatten(r)| == |Flatten(acc)| + |ops|
    decreases |ops|
  {
    if ops == [] {
      assert Bases(us, ops) == [];
    } else {
      GuardedHarvestStep(us, ops, acc, lay);
      var c := GuardedCollect(us, To(GuardedLeftEnd(us, ops, ops[0], lay)), ops, []);
      var s, rest := c.0, c.1;
      FlattenSnoc(acc, s);
      GuardedHarvestLossless(us, rest, acc + [s], lay);
      var fa, bo, br := multiset(Flatten(acc)), multiset(Bases(us, ops)), multiset(Bases(us, rest));
      assert multiset(s) + br == bo by { assert multiset([] + s) == multiset(s); }
      assert multiset(Flatten(acc + [s])) == fa + multiset(s);
    }
  }

  /** One pass of the guarded harvest. */
  lemma GuardedHarvestStep(us: seq<Unit>, ops: seq<Handle>, acc: seq<Strand>, lay: Layout)
    requires Oriented(us, lay) && Registered(us, ops) && ops != []
    ensures ops[0] in ops
    ensures var e := GuardedLeftEnd(us, ops, ops[0], lay);
      var c := GuardedCollect(us, To(e), ops, []);
      GuardedHarvest(us, ops, acc, lay) == GuardedHarvest(us, c.1, acc + [c.0], lay)
  {
    assert ops[0] in ops;
  }

  lemma FlattenSnoc(ss: seq<Strand>, s: Strand)
    ensures Flatten(ss + [s]) == Flatten(ss) + s
  {
    assert (ss + [s])[..|ss|] == ss;
  }

  /** The strands before and at position |acc| of a result that extends `acc + [s]`. */
  lemma GuardedPass(acc: seq<Strand>, s: Strand, r: seq<Strand>)
    requires |r| >= |acc| + 1 && r[..|acc| + 1] == acc + [s]
    ensures r[..|acc|] == acc && r[|acc|] == s
  {
    assert r[..|acc|] == r[..|acc| + 1][..|acc|];
    assert r[|acc|] == r[..|acc| + 1][|acc|];
  }

  ghost predicate Distinct(hs: seq<Handle>) {
    forall i, j :: 0 <= i < j < |hs| ==> hs[i] != hs[j]
  }

  /** On a chain of distinct registered units the guarded walk reads what the
      engine's walk reads. */
  lemma {:induction false} CollectGuarded(us: seq<Unit>, l: Link, ops: seq<Handle>, acc: Strand, lay: Layout)
    requires Oriented(us, lay) && LinkIn(l, |us|) && Registered(us, ops) && NoDup(ops)
    requires forall y :: y in Chain(us, l, lay) ==> y in ops
    requires Distinct(Chain(us, l, lay))
    ensures Collect(us, l, ops, acc, lay) == GuardedCollect(us, l, ops, acc)
    decreases Remaining(us, l, lay)
  {
    if l.To? {
      var c := Chain(us, l, lay);
      RightShrinks(us, l.h, lay);
      assert c == [l.h] + Chain(us, us[l.h].right, lay);
      assert c[1..] == Chain(us, us[l.h].right, lay);
      ChainTail(us, ops, c);
      assert Distinct(c[1..]);
      CollectGuarded(us, us[l.h].right, RemoveFirst(ops, l.h), acc + [us[l.h].base], lay);
    }
  }

  /** In a harvestable registry every left neighbour is registered, so the
      guarded left walk goes as far as the engine's. */
  lemma {:induction false} LeftEndGuarded(us: seq<Unit>, ops: seq<Handle>, h: Handle, lay: Layout)
    requires Oriented(us, lay) && Harvestable(us, ops) && h in ops
    ensures GuardedLeftEnd(us, ops, h, lay) == LeftEnd(us, h, lay)
    decreases Span(lay.place) + Rank(lay, h)
  {
    if us[h].left.To? {
      assert Placed(us, lay, h);
      RankWithinSpan(lay, us[h].left.h);
      LeftEndGuarded(us, ops, us[h].left.h, lay);
    }
  }

  /** Where the engine's harvest is sound, the guarded harvest returns exactly
      its strands: the guards only matter on the arenas where it goes wrong. */
  lemma {:induction false} GuardedAgrees(us: seq<Unit>, ops: seq<Handle>, acc: seq<Strand>, lay: Layout)
    requires Oriented(us, lay) && Harvestable(us, ops)
    ensures Harvest(us, ops, acc, lay) == Some(GuardedHarvest(us, ops, acc, lay))
    decreases |ops|
  {
    if ops != [] {
      assert ops[0] in ops;
      var e := LeftEnd(us, ops[0], lay);
      var c := Chain(us, To(e), lay);
      HarvestStep(us, ops, lay);
      LeftEndRegistered(us, ops, ops[0], lay);
      ChainShape(us, ops, e, lay);
      LeftEndGuarded(us, ops, ops[0], lay);
      CollectGuarded(us, To(e), ops, [], lay);
      CollectReadsChain(us, To(e), ops, [], lay);
      GuardedHarvestStep(us, ops, acc, lay);
      var s, rest := Bases(us, c), RemoveAll(ops, c);
      assert [] + s == s;
      GuardedAgrees(us, rest, acc + [s], lay);
    }
  }
}
