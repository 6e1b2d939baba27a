/** The units an enzyme works on, held in an arena: a unit is a record in a
    sequence, and a pointer to a unit is its index there. Each unit carries a base
    and three optional pointers, to its left and right neighbours and to its
    complementary partner. Nothing ties the pointers to each other: the engine
    writes them one at a time, and some of its writes are one-way. */
module Arena {
  import opened Nucleotides

  type Handle = nat

  /** An optional pointer to a unit: `Null` is the absent reference. */
  datatype Link = Null | To(h: Handle)

  datatype Unit = Unit(base: Nucleotide, left: Link, right: Link, comp: Link)

  /** A freshly created unit: the base is the enum's zero value, A, and no pointer is set. */
  const Fresh: Unit := Unit(A, Null, Null, Null)

  predicate LinkIn(l: Link, n: nat) {
    l.To? ==> l.h < n
  }

  predicate LinksIn(u: Unit, n: nat) {
    LinkIn(u.left, n) && LinkIn(u.right, n) && LinkIn(u.comp, n)
  }

  /** Every pointer in the arena points into the arena. */
  predicate Closed(us: seq<Unit>) {
    forall h :: 0 <= h < |us| ==> LinksIn(us[h], |us|)
  }

  // ---------------------------------------------------------------------------
  // The four field writes the engine performs

  function SetBase(us: seq<Unit>, h: Handle, b: Nucleotide): (r: seq<Unit>)
    requires h < |us|
    ensures |r| == |us| && (Closed(us) ==> Closed(r))
  {
    us[h := us[h].(base := b)]
  }

  function SetLeft(us: seq<Unit>, h: Handle, l: Link): (r: seq<Unit>)
    requires h < |us|
    ensures |r| == |us| && (Closed(us) && LinkIn(l, |us|) ==> Closed(r))
  {
    us[h := us[h].(left := l)]
  }

  function SetRight(us: seq<Unit>, h: Handle, l: Link): (r: seq<Unit>)
    requires h < |us|
    ensures |r| == |us| && (Closed(us) && LinkIn(l, |us|) ==> Closed(r))
  {
    us[h := us[h].(right := l)]
  }

  function SetComp(us: seq<Unit>, h: Handle, l: Link): (r: seq<Unit>)
    requires h < |us|
    ensures |r| == |us| && (Closed(us) && LinkIn(l, |us|) ==> Closed(r))
  {
    us[h := us[h].(comp := l)]
  }

  lemma FreshClosed(us: seq<Unit>)
    requires Closed(us)
    ensures Closed(us + [Fresh])
  {
    assert forall h :: 0 <= h < |us| ==> (us + [Fresh])[h] == us[h];
  }

  /** `List.Remove`: drops the first occurrence, if there is one. */
  function RemoveFirst(s: seq<Handle>, x: Handle): (r: seq<Handle>)
    ensures x in s ==> |r| == |s| - 1
    ensures x !in s ==> r == s
    ensures forall y :: y in r ==> y in s
    ensures forall y :: y in s && y != x ==> y in r
  {
    if s == [] then []
    else
      assert s == [s[0]] + s[1..];
      if s[0] == x then s[1..] else [s[0]] + RemoveFirst(s[1..], x)
  }

  /** Exactly one occurrence goes. */
  lemma {:induction false} RemoveFirstCount(s: seq<Handle>, x: Handle)
    ensures multiset(RemoveFirst(s, x)) == multiset(s) - multiset{x}
  {
    if s != [] {
      assert s == [s[0]] + s[1..];
      RemoveFirstCount(s[1..], x);
    }
  }

  /** The occurrence removed is the first one. */
  lemma {:induction false} RemoveFirstAt(s: seq<Handle>, x: Handle, i: nat)
    requires i < |s| && s[i] == x && forall j :: 0 <= j < i ==> s[j] != x
    ensures RemoveFirst(s, x) == s[..i] + s[i + 1..]
  {
    if i > 0 {
      RemoveFirstAt(s[1..], x, i - 1);
      assert s[1..][..i - 1] == s[1..i] && s[1..][i..] == s[i + 1..];
      assert [s[0]] + s[1..i] == s[..i];
    }
  }

  lemma RemoveFirstCons(h: Handle, t: seq<Handle>, x: Handle)
    ensures RemoveFirst([h] + t, x) == if h == x then t else [h] + RemoveFirst(t, x)
  {
    assert ([h] + t)[0] == h && ([h] + t)[1..] == t;
  }

  // ---------------------------------------------------------------------------
  // Layouts: where each unit sits on the double strand

  /** A unit's column and whether it is on the upper or the lower strand. The
      lower strand runs antiparallel, so its rank, the position in its own
      reading direction, is the negated column. */
  datatype Layout = Layout(place: seq<int>, upper: seq<bool>)

  predicate Fits(lay: Layout, n: nat) {
    |lay.place| == n && |lay.upper| == n
  }

  function Rank(lay: Layout, h: Handle): int
    requires h < |lay.place| && h < |lay.upper|
  {
    if lay.upper[h] then lay.place[h] else -lay.place[h]
  }

  /** The pointers out of unit `h` respect the layout: a left neighbour sits on the
      same strand at a lower rank, a right neighbour at a higher rank, and a
      partner on the other strand in the same column. */
  predicate Placed(us: seq<Unit>, lay: Layout, h: Handle)
    requires h < |us| && Fits(lay, |us|) && LinksIn(us[h], |us|)
  {
    var u := us[h];
    && (u.left.To? ==> lay.upper[u.left.h] == lay.upper[h] && Rank(lay, u.left.h) < Rank(lay, h))
    && (u.right.To? ==> lay.upper[u.right.h] == lay.upper[h] && Rank(lay, u.right.h) > Rank(lay, h))
    && (u.comp.To? ==> lay.upper[u.comp.h] != lay.upper[h] && lay.place[u.comp.h] == lay.place[h])
  }

  /** Every pointer in the arena respects the layout. Such an arena has no cycle
      of left pointers and none of right pointers. */
  predicate Oriented(us: seq<Unit>, lay: Layout) {
    && Closed(us)
    && Fits(lay, |us|)
    && forall h :: 0 <= h < |us| ==> Placed(us, lay, h)
  }

  /** The widest column in use, a bound on every rank. */
  function Span(place: seq<int>): (s: int)
    ensures s >= 0
    ensures forall i :: 0 <= i < |place| ==> -s <= place[i] <= s
  {
    if place == [] then 0
    else
      var p := place[|place| - 1];
      var s := Span(place[..|place| - 1]);
      var a := if p < 0 then -p else p;
      if a > s then a else s
  }

  lemma {:induction false} SpanGrows(place: seq<int>, p: int)
    ensures Span(place + [p]) >= Span(place)
    ensures -Span(place) <= p <= Span(place) ==> Span(place + [p]) == Span(place)
  {
    assert (place + [p])[..|place|] == place;
  }

  lemma RankWithinSpan(lay: Layout, h: Handle)
    requires h < |lay.place| && h < |lay.upper|
    ensures -Span(lay.place) <= Rank(lay, h) <= Span(lay.place)
  {
  }

  /** A layout with one more unit, in column `p` on the given strand. */
  function Grow(lay: Layout, p: int, up: bool): (r: Layout)
    ensures |r.place| == |lay.place| + 1 && |r.upper| == |lay.upper| + 1
    ensures r.place[..|lay.place|] == lay.place && r.upper[..|lay.upper|] == lay.upper
  {
    Layout(lay.place + [p], lay.upper + [up])
  }

  /** `big` places the units of `small` where `small` does. */
  predicate Extends(big: Layout, small: Layout) {
    && |small.place| <= |big.place| && big.place[..|small.place|] == small.place
    && |small.upper| <= |big.upper| && big.upper[..|small.upper|] == small.upper
  }

  lemma ExtendsRank(big: Layout, small: Layout, h: Handle)
    requires Extends(big, small) && h < |small.place| && h < |small.upper|
    ensures big.place[h] == small.place[h] && big.upper[h] == small.upper[h]
    ensures Rank(big, h) == Rank(small, h)
  {
    assert big.place[..|small.place|][h] == big.place[h];
    assert big.upper[..|small.upper|][h] == big.upper[h];
  }

  lemma ExtendsTrans(a: Layout, b: Layout, c: Layout)
    requires Extends(a, b) && Extends(b, c)
    ensures Extends(a, c)
  {
    assert a.place[..|c.place|] == a.place[..|b.place|][..|c.place|];
    assert a.upper[..|c.upper|] == a.upper[..|b.upper|][..|c.upper|];
  }

  // ---------------------------------------------------------------------------
  // Which writes keep an arena oriented

  /** Partners sit at opposite ranks. */
  lemma CompRank(us: seq<Unit>, lay: Layout, h: Handle)
    requires Oriented(us, lay) && h < |us| && us[h].comp.To?
    ensures Rank(lay, us[h].comp.h) == -Rank(lay, h)
    ensures lay.upper[us[h].comp.h] != lay.upper[h]
  {
    assert Placed(us, lay, h);
  }

  lemma FreshOriented(us: seq<Unit>, lay: Layout, p: int, up: bool)
    requires Oriented(us, lay)
    ensures Oriented(us + [Fresh], Grow(lay, p, up))
  {
    var us', lay' := us + [Fresh], Grow(lay, p, up);
    FreshClosed(us);
    forall h | 0 <= h < |us'|
      ensures Placed(us', lay', h)
    {
      if h < |us| {
        assert Placed(us, lay, h);
        assert us'[h] == us[h];
        var u := us[h];
        if u.left.To? { ExtendsRank(lay', lay, u.left.h); }
        if u.right.To? { ExtendsRank(lay', lay, u.right.h); }
        if u.comp.To? { ExtendsRank(lay', lay, u.comp.h); }
        ExtendsRank(lay', lay, h);
      }
    }
  }

  lemma BaseOriented(us: seq<Unit>, lay: Layout, h: Handle, b: Nucleotide)
    requires Oriented(us, lay) && h < |us|
    ensures Oriented(SetBase(us, h, b), lay)
  {
    var us' := SetBase(us, h, b);
    forall k | 0 <= k < |us'| ensures Placed(us', lay, k) {
      assert Placed(us, lay, k);
    }
  }

  lemma LeftOriented(us: seq<Unit>, lay: Layout, h: Handle, l: Link)
    requires Oriented(us, lay) && h < |us| && LinkIn(l, |us|)
    requires l.To? ==> lay.upper[l.h] == lay.upper[h] && Rank(lay, l.h) < Rank(lay, h)
    ensures Oriented(SetLeft(us, h, l), lay)
  {
    var us' := SetLeft(us, h, l);
    forall k | 0 <= k < |us'| ensures Placed(us', lay, k) {
      assert Placed(us, lay, k);
    }
  }

  lemma RightOriented(us: seq<Unit>, lay: Layout, h: Handle, l: Link)
    requires Oriented(us, lay) && h < |us| && LinkIn(l, |us|)
    requires l.To? ==> lay.upper[l.h] == lay.upper[h] && Rank(lay, l.h) > Rank(lay, h)
    ensures Oriented(SetRight(us, h, l), lay)
  {
    var us' := SetRight(us, h, l);
    forall k | 0 <= k < |us'| ensures Placed(us', lay, k) {
      assert Placed(us, lay, k);
    }
  }

  lemma CompOriented(us: seq<Unit>, lay: Layout, h: Handle, l: Link)
    requires Oriented(us, lay) && h < |us| && LinkIn(l, |us|)
    requires l.To? ==> lay.upper[l.h] != lay.upper[h] && lay.place[l.h] == lay.place[h]
    ensures Oriented(SetComp(us, h, l), lay)
  {
    var us' := SetComp(us, h, l);
    forall k | 0 <= k < |us'| ensures Placed(us', lay, k) {
      assert Placed(us, lay, k);
    }
  }
}
