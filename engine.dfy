/** What one enzyme instruction does to the units and the enzyme's own state,
    written as functions from the state before to the state after. Each function
    performs the engine's reads and writes in the engine's order, one pointer at
    a time, including the writes that leave pointers one-way or stale. */
module Engine {
  import opened Nucleotides
  import opened AminoAcids
  import opened Arena
  import opened Wrappers
  import opened Selection

  /** The part of an enzyme that changes while it runs: the arena of units, the
      registry of units it operates on (in registration order), the unit it is
      bound to, and the copy-mode and finished flags. */
  datatype State = State(units: seq<Unit>, operated: seq<Handle>, bound: Link, copyMode: bool, finished: bool)

  predicate Registered(us: seq<Unit>, ops: seq<Handle>) {
    forall h :: h in ops ==> h < |us|
  }

  lemma RegisteredSplit(us: seq<Unit>, init: seq<Handle>, h: Handle)
    requires Registered(us, init + [h])
    ensures Registered(us, init) && h < |us|
  {
    assert h in init + [h];
    forall x | x in init ensures x < |us| { assert x in init + [h]; }
  }

  /** Every pointer and every registry entry names a unit, and the enzyme is bound. */
  predicate Wired(m: State) {
    Closed(m.units) && Registered(m.units, m.operated) && m.bound.To? && m.bound.h < |m.units|
  }

  /** Wired, with every pointer respecting `lay`. */
  predicate Sound(m: State, lay: Layout) {
    Wired(m) && Oriented(m.units, lay)
  }

  /** The two classes a search looks for. */
  datatype Kind = Pyrimidine | Purine

  predicate Is(k: Kind, n: Nucleotide) {
    if k.Pyrimidine? then IsPyrimidine(n) else IsPurine(n)
  }

  // ---------------------------------------------------------------------------
  // Copy

  /** A fresh unit `c` at the end of the arena, paired both ways with unit `b`. */
  function Pair(us: seq<Unit>, b: Handle): (r: seq<Unit>)
    requires Closed(us) && b < |us|
    ensures |r| == |us| + 1 && Closed(r)
    ensures r[b] == us[b].(comp := To(|us|)) && r[|us|] == Unit(A, Null, Null, To(b))
    ensures forall h :: 0 <= h < |us| && h != b ==> r[h] == us[h]
  {
    FreshClosed(us);
    SetComp(SetComp(us + [Fresh], b, To(|us|)), |us|, To(b))
  }

  /** When the left neighbour of `b` has a partner `x`, `c` points right at `x`
      and `x` left at `c`. */
  function SpliceLeft(us: seq<Unit>, b: Handle, c: Handle): (r: seq<Unit>)
    requires Closed(us) && b < |us| && c < |us| && b != c
    ensures |r| == |us| && Closed(r)
    ensures r[b].base == us[b].base && r[b].comp == us[b].comp && r[b].right == us[b].right
  {
    var l := us[b].left;
    if l.To? && us[l.h].comp.To? then
      var x := us[l.h].comp.h;
      SetLeft(SetRight(us, c, To(x)), x, To(c))
    else us
  }

  /** When the right neighbour of `b` has a partner `y`, `c` points left at `y`
      and `y` right at `c`. */
  function SpliceRight(us: seq<Unit>, b: Handle, c: Handle): (r: seq<Unit>)
    requires Closed(us) && b < |us| && c < |us| && b != c
    ensures |r| == |us| && Closed(r)
    ensures r[b].base == us[b].base && r[b].comp == us[b].comp
  {
    var rt := us[b].right;
    if rt.To? && us[rt.h].comp.To? then
      var y := us[rt.h].comp.h;
      SetRight(SetLeft(us, c, To(y)), y, To(c))
    else us
  }

  lemma RegisteredGrow(us: seq<Unit>, ops: seq<Handle>, n: nat)
    requires Registered(us, ops) && |us| <= n
    ensures forall h :: h in ops + [n] ==> h <= n
  {
  }

  /** Gives the unpaired bound unit a fresh partner, linked both ways, spliced
      between the partners of the bound unit's neighbours, and registered. */
  function Attach(m: State): (r: State)
    requires Wired(m)
    ensures Wired(r) && r.bound == m.bound && r.copyMode == m.copyMode && r.finished == m.finished
    ensures |r.units| == |m.units| + 1 && r.operated == m.operated + [|m.units|]
    ensures r.units[m.bound.h].comp == To(|m.units|) && r.units[m.bound.h].base == m.units[m.bound.h].base
  {
    var b, c := m.bound.h, |m.units|;
    RegisteredGrow(m.units, m.operated, c);
    var us := SpliceRight(SpliceLeft(Pair(m.units, b), b, c), b, c);
    m.(units := us, operated := m.operated + [c])
  }

  /** The bound unit's partner, created if missing, takes the complement of its base. */
  function Copy(m: State): (r: State)
    requires Wired(m)
    ensures Wired(r) && r.bound == m.bound && r.copyMode == m.copyMode && r.finished == m.finished
    ensures r.units[m.bound.h].comp.To?
  {
    var b := m.bound.h;
    var m1 := if m.units[b].comp.Null? then Attach(m) else m;
    var p := m1.units[b].comp.h;
    m1.(units := SetBase(m1.units, p, Complementary(m1.units[b].base)))
  }

  function TurnCopyOn(m: State): (r: State)
    requires Wired(m)
    ensures Wired(r)
  {
    Copy(m.(copyMode := true))
  }

  function TurnCopyOff(m: State): (r: State)
    requires Wired(m)
    ensures Wired(r)
  {
    m.(copyMode := false)
  }

  // ---------------------------------------------------------------------------
  // Moves

  /** Steps to the right neighbour, copying there in copy mode; with no right
      neighbour the enzyme finishes where it is. */
  function MoveRight(m: State): (r: State)
    requires Wired(m)
    ensures Wired(r)
  {
    var right := m.units[m.bound.h].right;
    if right.Null? then m.(finished := true)
    else
      var m1 := m.(bound := right);
      if m1.copyMode then Copy(m1) else m1
  }

  function MoveLeft(m: State): (r: State)
    requires Wired(m)
    ensures Wired(r)
  {
    var left := m.units[m.bound.h].left;
    if left.Null? then m.(finished := true)
    else
      var m1 := m.(bound := left);
      if m1.copyMode then Copy(m1) else m1
  }

  /** Switches to the partner strand; with no partner the enzyme finishes. */
  function Switch(m: State): (r: State)
    requires Wired(m)
    ensures Wired(r)
  {
    var comp := m.units[m.bound.h].comp;
    if comp.Null? then m.(finished := true) else m.(bound := comp)
  }

  // ---------------------------------------------------------------------------
  // Insert, Delete, Cut

  /** A new right neighbour for a bound unit without one: linked both ways to the
      bound unit, linked one way to the left neighbour of the bound unit's
      partner, and registered. */
  function Extend(m: State): (r: State)
    requires Wired(m)
    ensures Wired(r) && r.bound == m.bound && r.copyMode == m.copyMode && r.finished == m.finished
    ensures |r.units| == |m.units| + 1 && r.operated == m.operated + [|m.units|]
    ensures r.units[m.bound.h].right == To(|m.units|)
  {
    var b, n := m.bound.h, |m.units|;
    FreshClosed(m.units);
    var us := SetLeft(SetRight(m.units + [Fresh], b, To(n)), n, To(b));
    var q := if us[b].comp.To? then us[us[b].comp.h].left else Null;
    m.(units := SetComp(us, n, q), operated := m.operated + [n])
  }

  /** Writes base `n` into the right neighbour, creating it if missing, and moves there. */
  function Insert(m: State, n: Nucleotide): (r: State)
    requires Wired(m)
    ensures Wired(r)
  {
    var b := m.bound.h;
    var m1 := if m.units[b].right.Null? then Extend(m) else m;
    var m2 := m1.(units := SetBase(m1.units, m1.units[b].right.h, n));
    MoveRight(m2)
  }

  /** Detaches unit `b`: its left neighbour loses its right pointer, its right
      neighbour its left pointer, and its partner its partner pointer. The unit's
      own pointers stay as they were. */
  function Unlink(us: seq<Unit>, b: Handle): (r: seq<Unit>)
    requires Closed(us) && b < |us|
    ensures |r| == |us| && Closed(r)
  {
    var us := if us[b].left.To? then SetRight(us, us[b].left.h, Null) else us;
    var us := if us[b].right.To? then SetLeft(us, us[b].right.h, Null) else us;
    if us[b].comp.To? then SetComp(us, us[b].comp.h, Null) else us
  }

  /** Detaches the bound unit and drops it from the registry; the binding stays. */
  function Detach(m: State): (r: State)
    requires Wired(m)
    ensures Wired(r) && r.bound == m.bound && r.copyMode == m.copyMode && r.finished == m.finished
  {
    var b := m.bound.h;
    m.(units := Unlink(m.units, b), operated := RemoveFirst(m.operated, b))
  }

  /** Moves to `l`, copying there in copy mode, or finishes where it is when `l`
      is absent. */
  function StepTo(m: State, l: Link): (r: State)
    requires Wired(m) && LinkIn(l, |m.units|)
    ensures Wired(r)
  {
    if l.Null? then m.(finished := true)
    else
      var m1 := m.(bound := l);
      if m1.copyMode then Copy(m1) else m1
  }

  /** Detaches the bound unit, drops it from the registry, and moves to its former
      right neighbour (copying there in copy mode), finishing if there is none. */
  function Delete(m: State): (r: State)
    requires Wired(m)
    ensures Wired(r)
  {
    StepTo(Detach(m), m.units[m.bound.h].right)
  }

  /** Cuts the strand to the right of the bound unit, and the partner strand at
      the same place. The binding does not move. */
  function Cut(m: State): (r: State)
    requires Wired(m)
    ensures Wired(r)
  {
    var b := m.bound.h;
    m.(units := SeverPartner(SeverRight(m.units, b), b))
  }

  /** Unit `b` and its right neighbour stop pointing at each other. */
  function SeverRight(us: seq<Unit>, b: Handle): (r: seq<Unit>)
    requires Closed(us) && b < |us|
    ensures |r| == |us| && Closed(r)
  {
    if us[b].right.To? then SetRight(SetLeft(us, us[b].right.h, Null), b, Null) else us
  }

  /** The partner of unit `b` and that partner's left neighbour stop pointing at
      each other. */
  function SeverPartner(us: seq<Unit>, b: Handle): (r: seq<Unit>)
    requires Closed(us) && b < |us|
    ensures |r| == |us| && Closed(r)
  {
    if us[b].comp.To? && us[us[b].comp.h].left.To? then
      var c := us[b].comp.h;
      SetLeft(SetRight(us, us[c].left.h, Null), c, Null)
    else us
  }

  // ---------------------------------------------------------------------------
  // Layouts after each step

  ghost function CopyLayout(m: State, lay: Layout): Layout
    requires Wired(m) && Fits(lay, |m.units|)
  {
    var b := m.bound.h;
    if m.units[b].comp.Null? then Grow(lay, lay.place[b], !lay.upper[b]) else lay
  }

  ghost function MoveRightLayout(m: State, lay: Layout): Layout
    requires Wired(m) && Fits(lay, |m.units|)
  {
    var right := m.units[m.bound.h].right;
    if right.Null? || !m.copyMode then lay else CopyLayout(m.(bound := right), lay)
  }

  ghost function MoveLeftLayout(m: State, lay: Layout): Layout
    requires Wired(m) && Fits(lay, |m.units|)
  {
    var left := m.units[m.bound.h].left;
    if left.Null? || !m.copyMode then lay else CopyLayout(m.(bound := left), lay)
  }

  /** The column of a new right neighbour: that of the partner's left neighbour
      when there is one, or one step further along the bound unit's strand. */
  ghost function ExtendLayout(m: State, lay: Layout): Layout
    requires Wired(m) && Fits(lay, |m.units|)
  {
    var b := m.bound.h;
    var c := m.units[b].comp;
    var q := if c.To? then m.units[c.h].left else Null;
    var p := if q.To? then lay.place[q.h] else if lay.upper[b] then lay.place[b] + 1 else lay.place[b] - 1;
    Grow(lay, p, lay.upper[b])
  }

  ghost function InsertLayout(m: State, n: Nucleotide, lay: Layout): Layout
    requires Wired(m) && Fits(lay, |m.units|)
  {
    var b := m.bound.h;
    var m1 := if m.units[b].right.Null? then Extend(m) else m;
    var lay1 := if m.units[b].right.Null? then ExtendLayout(m, lay) else lay;
    var m2 := m1.(units := SetBase(m1.units, m1.units[b].right.h, n));
    MoveRightLayout(m2, lay1)
  }

  ghost function StepLayout(m: State, l: Link, lay: Layout): Layout
    requires Wired(m) && LinkIn(l, |m.units|) && Fits(lay, |m.units|)
  {
    if l.Null? || !m.copyMode then lay else CopyLayout(m.(bound := l), lay)
  }

  ghost function DeleteLayout(m: State, lay: Layout): Layout
    requires Wired(m) && Fits(lay, |m.units|)
  {
    StepLayout(Detach(m), m.units[m.bound.h].right, lay)
  }

  // ---------------------------------------------------------------------------
  // Every step keeps the state sound, under a layout that extends the old one

  lemma AttachSound(m: State, lay: Layout)
    requires Sound(m, lay) && m.units[m.bound.h].comp.Null?
    ensures Sound(Attach(m), CopyLayout(m, lay)) && Extends(CopyLayout(m, lay), lay)
  {
    var b, c := m.bound.h, |m.units|;
    var lay' := CopyLayout(m, lay);
    var us := PairSound(m.units, b, lay);
    var us3 := SpliceLeftSound(us, b, c, lay');
    SpliceRightSound(us3, b, c, lay');
  }

  /** The fresh partner sits in the bound unit's column on the other strand. */
  lemma PairSound(us: seq<Unit>, b: Handle, lay: Layout) returns (r: seq<Unit>)
    requires Oriented(us, lay) && b < |us| && us[b].comp.Null?
    ensures r == Pair(us, b)
    ensures Oriented(r, Grow(lay, lay.place[b], !lay.upper[b]))
  {
    var c := |us|;
    var lay' := Grow(lay, lay.place[b], !lay.upper[b]);
    FreshOriented(us, lay, lay.place[b], !lay.upper[b]);
    ExtendsRank(lay', lay, b);
    var us0 := us + [Fresh];
    CompOriented(us0, lay', b, To(c));
    var us1 := SetComp(us0, b, To(c));
    CompOriented(us1, lay', c, To(b));
    r := SetComp(us1, c, To(b));
  }

  lemma SpliceLeftSound(us: seq<Unit>, b: Handle, c: Handle, lay: Layout) returns (r: seq<Unit>)
    requires Oriented(us, lay) && b < |us| && c < |us| && b != c && us[b].comp == To(c)
    ensures r == SpliceLeft(us, b, c) && Oriented(r, lay)
  {
    var l := us[b].left;
    r := us;
    if l.To? && us[l.h].comp.To? {
      var x := us[l.h].comp.h;
      assert Placed(us, lay, b);
      CompRank(us, lay, l.h);
      CompRank(us, lay, b);
      RightOriented(us, lay, c, To(x));
      var us2 := SetRight(us, c, To(x));
      LeftOriented(us2, lay, x, To(c));
      r := SetLeft(us2, x, To(c));
    }
  }

  lemma SpliceRightSound(us: seq<Unit>, b: Handle, c: Handle, lay: Layout)
    requires Oriented(us, lay) && b < |us| && c < |us| && b != c && us[b].comp == To(c)
    ensures Oriented(SpliceRight(us, b, c), lay)
  {
    var rt := us[b].right;
    if rt.To? && us[rt.h].comp.To? {
      var y := us[rt.h].comp.h;
      assert Placed(us, lay, b);
      CompRank(us, lay, rt.h);
      CompRank(us, lay, b);
      LeftOriented(us, lay, c, To(y));
      var us4 := SetLeft(us, c, To(y));
      RightOriented(us4, lay, y, To(c));
    }
  }

  lemma CopySound(m: State, lay: Layout)
    requires Sound(m, lay)
    ensures Sound(Copy(m), CopyLayout(m, lay)) && Extends(CopyLayout(m, lay), lay)
    ensures Span(CopyLayout(m, lay).place) == Span(lay.place)
  {
    var b := m.bound.h;
    var m1 := if m.units[b].comp.Null? then Attach(m) else m;
    if m.units[b].comp.Null? {
      AttachSound(m, lay);
      SpanGrows(lay.place, lay.place[b]);
    }
    BaseOriented(m1.units, CopyLayout(m, lay), m1.units[b].comp.h, Complementary(m1.units[b].base));
  }

  lemma MoveRightSound(m: State, lay: Layout)
    requires Sound(m, lay)
    ensures var r, lay' := MoveRight(m), MoveRightLayout(m, lay);
      && Sound(r, lay') && Extends(lay', lay) && Span(lay'.place) == Span(lay.place)
      && (!r.finished ==> Rank(lay', r.bound.h) > Rank(lay, m.bound.h))
  {
    var right := m.units[m.bound.h].right;
    assert Placed(m.units, lay, m.bound.h);
    if right.To? {
      var m1 := m.(bound := right);
      if m.copyMode {
        CopySound(m1, lay);
        ExtendsRank(CopyLayout(m1, lay), lay, right.h);
      }
    }
  }

  lemma MoveLeftSound(m: State, lay: Layout)
    requires Sound(m, lay)
    ensures var r, lay' := MoveLeft(m), MoveLeftLayout(m, lay);
      && Sound(r, lay') && Extends(lay', lay) && Span(lay'.place) == Span(lay.place)
      && (!r.finished ==> Rank(lay', r.bound.h) < Rank(lay, m.bound.h))
  {
    var left := m.units[m.bound.h].left;
    assert Placed(m.units, lay, m.bound.h);
    if left.To? {
      var m1 := m.(bound := left);
      if m.copyMode {
        CopySound(m1, lay);
        ExtendsRank(CopyLayout(m1, lay), lay, left.h);
      }
    }
  }

  lemma ExtendSound(m: State, lay: Layout)
    requires Sound(m, lay) && m.units[m.bound.h].right.Null?
    ensures Sound(Extend(m), ExtendLayout(m, lay)) && Extends(ExtendLayout(m, lay), lay)
  {
    var b, n := m.bound.h, |m.units|;
    var lay' := ExtendLayout(m, lay);
    var c := m.units[b].comp;
    var q := if c.To? then m.units[c.h].left else Null;
    var p := if q.To? then lay.place[q.h] else if lay.upper[b] then lay.place[b] + 1 else lay.place[b] - 1;
    FreshOriented(m.units, lay, p, lay.upper[b]);
    ExtendsRank(lay', lay, b);
    if q.To? {
      assert Placed(m.units, lay, c.h);
      CompRank(m.units, lay, b);
      ExtendsRank(lay', lay, q.h);
      ExtendsRank(lay', lay, c.h);
    }
    var us0 := m.units + [Fresh];
    RightOriented(us0, lay', b, To(n));
    var us1 := SetRight(us0, b, To(n));
    LeftOriented(us1, lay', n, To(b));
    var us := SetLeft(us1, n, To(b));
    CompOriented(us, lay', n, q);
  }

  lemma InsertSound(m: State, n: Nucleotide, lay: Layout)
    requires Sound(m, lay)
    ensures Sound(Insert(m, n), InsertLayout(m, n, lay)) && Extends(InsertLayout(m, n, lay), lay)
  {
    var b := m.bound.h;
    var m1 := if m.units[b].right.Null? then Extend(m) else m;
    var lay1 := if m.units[b].right.Null? then ExtendLayout(m, lay) else lay;
    if m.units[b].right.Null? {
      ExtendSound(m, lay);
    }
    var m2 := m1.(units := SetBase(m1.units, m1.units[b].right.h, n));
    BaseOriented(m1.units, lay1, m1.units[b].right.h, n);
    MoveRightSound(m2, lay1);
    ExtendsTrans(InsertLayout(m, n, lay), lay1, lay);
  }

  lemma UnlinkOriented(us: seq<Unit>, lay: Layout, b: Handle)
    requires Oriented(us, lay) && b < |us|
    ensures Oriented(Unlink(us, b), lay)
  {
    var us := us;
    if us[b].left.To? {
      RightOriented(us, lay, us[b].left.h, Null);
      us := SetRight(us, us[b].left.h, Null);
    }
    if us[b].right.To? {
      LeftOriented(us, lay, us[b].right.h, Null);
      us := SetLeft(us, us[b].right.h, Null);
    }
    if us[b].comp.To? {
      CompOriented(us, lay, us[b].comp.h, Null);
    }
  }

  lemma DeleteSound(m: State, lay: Layout)
    requires Sound(m, lay)
    ensures Sound(Delete(m), DeleteLayout(m, lay)) && Extends(DeleteLayout(m, lay), lay)
  {
    var right := m.units[m.bound.h].right;
    UnlinkOriented(m.units, lay, m.bound.h);
    if right.To? && m.copyMode {
      CopySound(Detach(m).(bound := right), lay);
    }
  }

  lemma CutSound(m: State, lay: Layout)
    requires Sound(m, lay)
    ensures Sound(Cut(m), lay)
  {
    var us := SeverRightWrites(m.units, lay, m.bound.h);
    var _ := SeverPartnerWrites(us, lay, m.bound.h);
  }

  lemma SeverRightWrites(us: seq<Unit>, lay: Layout, b: Handle) returns (r: seq<Unit>)
    requires Oriented(us, lay) && b < |us|
    ensures r == SeverRight(us, b) && Oriented(r, lay)
    ensures r[b] == us[b].(right := Null)
    ensures us[b].right.To? ==> r[us[b].right.h] == us[us[b].right.h].(left := Null)
    ensures forall h :: 0 <= h < |us| && h != b && To(h) != us[b].right ==> r[h] == us[h]
  {
    r := us;
    assert Placed(us, lay, b);
    if us[b].right.To? {
      LeftOriented(us, lay, us[b].right.h, Null);
      RightOriented(SetLeft(us, us[b].right.h, Null), lay, b, Null);
      r := SetRight(SetLeft(us, us[b].right.h, Null), b, Null);
    }
  }

  lemma SeverPartnerWrites(us: seq<Unit>, lay: Layout, b: Handle) returns (r: seq<Unit>)
    requires Oriented(us, lay) && b < |us|
    ensures r == SeverPartner(us, b) && Oriented(r, lay)
    ensures var c := us[b].comp;
      var q := if c.To? then us[c.h].left else Null;
      && (c.To? ==> r[c.h] == us[c.h].(left := Null))
      && (q.To? ==> r[q.h] == us[q.h].(right := Null))
      && forall h :: 0 <= h < |us| && To(h) != c && To(h) != q ==> r[h] == us[h]
  {
    r := us;
    if us[b].comp.To? {
      var c := us[b].comp.h;
      assert Placed(us, lay, c);
      if us[c].left.To? {
        RightOriented(us, lay, us[c].left.h, Null);
        LeftOriented(SetRight(us, us[c].left.h, Null), lay, c, Null);
        r := SetLeft(SetRight(us, us[c].left.h, Null), c, Null);
      }
    }
  }

  // ---------------------------------------------------------------------------
  // What Copy, Insert and Cut do to the pointers

  /** The partner of a possibly absent unit. */
  function PartnerOf(us: seq<Unit>, l: Link): Link
    requires Closed(us) && LinkIn(l, |us|)
  {
    if l.To? then us[l.h].comp else Null
  }

  /** The pointer facts `Attach` relies on: the bound unit's neighbours and their
      partners are distinct from each other and from the bound unit. */
  predicate Apart(m: State)
    requires Wired(m)
  {
    var b := m.bound.h;
    var u := m.units[b];
    var x, y := PartnerOf(m.units, u.left), PartnerOf(m.units, u.right);
    && u.left != To(b) && u.right != To(b)
    && (x.To? ==> x.h != b) && (y.To? ==> y.h != b && To(u.right.h) != x)
    && (x.To? && y.To? ==> x.h != y.h)
  }

  lemma SoundApart(m: State, lay: Layout)
    requires Sound(m, lay)
    ensures Apart(m)
  {
    var u := m.units[m.bound.h];
    assert Placed(m.units, lay, m.bound.h);
    if u.left.To? { assert Placed(m.units, lay, u.left.h); }
    if u.right.To? { assert Placed(m.units, lay, u.right.h); }
  }

  /** A new partner `c` of the bound unit `b` points back at `b`; on its right is
      the partner of `b`'s left neighbour and on its left the partner of `b`'s
      right neighbour, and each of those points back at `c`. Nothing else changes. */
  lemma AttachSplices(m: State)
    requires Wired(m) && m.units[m.bound.h].comp.Null? && Apart(m)
    ensures var r, b, c := Attach(m), m.bound.h, |m.units|;
      var x, y := PartnerOf(m.units, m.units[b].left), PartnerOf(m.units, m.units[b].right);
      && r.units[b] == m.units[b].(comp := To(c))
      && r.units[c] == Unit(A, y, x, To(b))
      && (x.To? ==> r.units[x.h] == m.units[x.h].(left := To(c)))
      && (y.To? ==> r.units[y.h] == m.units[y.h].(right := To(c)))
      && forall h :: 0 <= h < c && h != b && To(h) != x && To(h) != y ==> r.units[h] == m.units[h]
  {
    var b, c := m.bound.h, |m.units|;
    var u := m.units[b];
    var x, y := PartnerOf(m.units, u.left), PartnerOf(m.units, u.right);
    var us := Pair(m.units, b);
    var us3 := SpliceLeft(us, b, c);
    assert us3 == if x.To? then SetLeft(SetRight(us, c, To(x.h)), x.h, To(c)) else us;
    assert us3[b] == u.(comp := To(c)) && us3[c] == Unit(A, Null, x, To(b));
    assert x.To? ==> us3[x.h] == m.units[x.h].(left := To(c));
    assert forall h :: 0 <= h < c && h != b && To(h) != x ==> us3[h] == m.units[h];
    var us4 := SpliceRight(us3, b, c);
    assert us4 == if y.To? then SetRight(SetLeft(us3, c, To(y.h)), y.h, To(c)) else us3;
  }

  /** After Copy the bound unit has a partner holding the complement of its base.
      An existing partner only takes the new base. A missing one is created,
      registered and spliced in as `AttachSplices` describes. Copy writes nothing
      on the bound unit's own strand but the bound unit's partner pointer. */
  lemma CopyPairs(m: State, lay: Layout)
    requires Sound(m, lay)
    ensures var r, b := Copy(m), m.bound.h;
      var p := r.units[b].comp.h;
      var x, y := PartnerOf(m.units, m.units[b].left), PartnerOf(m.units, m.units[b].right);
      && r.units[p].base == Complementary(m.units[b].base)
      && r.units[b] == m.units[b].(comp := To(p))
      && (forall h :: 0 <= h < |m.units| && lay.upper[h] == lay.upper[b] && h != b ==> r.units[h] == m.units[h])
      && (m.units[b].comp.To? ==>
            && p == m.units[b].comp.h && r.operated == m.operated && |r.units| == |m.units|
            && r.units[p] == m.units[p].(base := Complementary(m.units[b].base))
            && forall h :: 0 <= h < |m.units| && h != p ==> r.units[h] == m.units[h])
      && (m.units[b].comp.Null? ==>
            && p == |m.units| && r.operated == m.operated + [p]
            && r.units[p] == Unit(Complementary(m.units[b].base), y, x, To(b))
            && (x.To? ==> r.units[x.h] == m.units[x.h].(left := To(p)))
            && (y.To? ==> r.units[y.h] == m.units[y.h].(right := To(p)))
            && forall h :: 0 <= h < |m.units| && h != b && To(h) != x && To(h) != y ==> r.units[h] == m.units[h])
  {
    var b := m.bound.h;
    assert Placed(m.units, lay, b);
    if m.units[b].comp.Null? {
      CopyCreates(m, lay);
    }
  }

  /** The `Copy` of an unpaired bound unit, as `CopyPairs` states it. */
  lemma CopyCreates(m: State, lay: Layout)
    requires Sound(m, lay) && m.units[m.bound.h].comp.Null?
    ensures var r, b, p := Copy(m), m.bound.h, |m.units|;
      var x, y := PartnerOf(m.units, m.units[b].left), PartnerOf(m.units, m.units[b].right);
      && r.units[b] == m.units[b].(comp := To(p)) && r.operated == m.operated + [p]
      && r.units[p] == Unit(Complementary(m.units[b].base), y, x, To(b))
      && (x.To? ==> r.units[x.h] == m.units[x.h].(left := To(p)))
      && (y.To? ==> r.units[y.h] == m.units[y.h].(right := To(p)))
      && (x.To? ==> lay.upper[x.h] != lay.upper[b]) && (y.To? ==> lay.upper[y.h] != lay.upper[b])
      && forall h :: 0 <= h < |m.units| && h != b && To(h) != x && To(h) != y ==> r.units[h] == m.units[h]
  {
    var u := m.units[m.bound.h];
    SoundApart(m, lay);
    AttachSplices(m);
    assert Placed(m.units, lay, m.bound.h);
    if u.left.To? && m.units[u.left.h].comp.To? { assert Placed(m.units, lay, u.left.h); }
    if u.right.To? && m.units[u.right.h].comp.To? { assert Placed(m.units, lay, u.right.h); }
  }

  /** The new right neighbour `n` of the bound unit `b` points left at `b` and,
      one way only, at the left neighbour of `b`'s partner. */
  lemma ExtendAppends(m: State)
    requires Wired(m) && m.units[m.bound.h].right.Null?
    ensures var r, b := Extend(m), m.bound.h;
      var c := m.units[b].comp;
      && r.units[b] == m.units[b].(right := To(|m.units|))
      && r.units[|m.units|] == Unit(A, To(b), Null, if c.To? then m.units[c.h].left else Null)
      && forall h :: 0 <= h < |m.units| && h != b ==> r.units[h] == m.units[h]
  {
  }

  /** Insert binds the enzyme to the bound unit's right neighbour, which it
      creates and registers if there is none, and which ends up holding `n`. */
  lemma InsertBinds(m: State, n: Nucleotide, lay: Layout)
    requires Sound(m, lay)
    ensures var r, b := Insert(m, n), m.bound.h;
      var u := m.units[b];
      var t := if u.right.To? then u.right.h else |m.units|;
      var ops := if u.right.To? then m.operated else m.operated + [|m.units|];
      && r.bound == To(t) && r.units[t].base == n && r.units[b].right == To(t)
      && r.finished == m.finished && r.copyMode == m.copyMode
      && ops <= r.operated && (!m.copyMode ==> r.operated == ops)
      && (u.right.Null? ==> r.units[t].left == To(b))
      && (u.right.Null? && !m.copyMode ==> r.units[t].comp == (if u.comp.To? then m.units[u.comp.h].left else Null))
      && (m.copyMode ==> r.units[r.units[t].comp.h].base == Complementary(n))
  {
    var b := m.bound.h;
    var u := m.units[b];
    var m1 := if u.right.Null? then Extend(m) else m;
    var lay1 := if u.right.Null? then ExtendLayout(m, lay) else lay;
    if u.right.Null? {
      ExtendSound(m, lay);
      ExtendAppends(m);
    }
    var t := m1.units[b].right.h;
    var m2 := m1.(units := SetBase(m1.units, t, n));
    BaseOriented(m1.units, lay1, t, n);
    assert Placed(m2.units, lay1, b);
    var m3 := m2.(bound := To(t));
    assert MoveRight(m2) == if m.copyMode then Copy(m3) else m3;
    if m.copyMode {
      CopyPairs(m3, lay1);
    }
  }

  /** Cut leaves the binding where it is. The bound unit and its right neighbour
      no longer point at each other, and neither do the bound unit's partner and
      that partner's left neighbour. No other pointer and no base changes. */
  lemma CutSevers(m: State, lay: Layout)
    requires Sound(m, lay)
    ensures var r, b := Cut(m), m.bound.h;
      var u := m.units[b];
      var q := if u.comp.To? then m.units[u.comp.h].left else Null;
      && r.bound == m.bound && r.operated == m.operated && r.copyMode == m.copyMode && r.finished == m.finished
      && |r.units| == |m.units|
      && r.units[b] == u.(right := Null)
      && (u.right.To? ==> r.units[u.right.h] == m.units[u.right.h].(left := Null))
      && (u.comp.To? ==> r.units[u.comp.h] == m.units[u.comp.h].(left := Null))
      && (q.To? ==> r.units[q.h] == m.units[q.h].(right := Null))
      && forall h :: 0 <= h < |m.units| && To(h) != m.bound && To(h) != u.right && To(h) != u.comp && To(h) != q ==>
           r.units[h] == m.units[h]
  {
    var b := m.bound.h;
    var u := m.units[b];
    assert Placed(m.units, lay, b);
    var us := SeverRightWrites(m.units, lay, b);
    if u.comp.To? {
      var c := u.comp.h;
      assert Placed(m.units, lay, c);
      assert us[c] == m.units[c];
      var q := m.units[c].left;
      if q.To? {
        assert Placed(m.units, lay, q.h);
        assert us[q.h] == m.units[q.h];
      }
    }
    var _ := SeverPartnerWrites(us, lay, b);
  }

  predicate PointsTo(u: Unit, h: Handle) {
    u.left == To(h) || u.right == To(h) || u.comp == To(h)
  }

  /** Every pointer is matched by one back: left by right, right by left, and
      partner by partner. */
  predicate Mutual(us: seq<Unit>)
    requires Closed(us)
  {
    forall h :: 0 <= h < |us| ==>
      && (us[h].left.To? ==> us[us[h].left.h].right == To(h))
      && (us[h].right.To? ==> us[us[h].right.h].left == To(h))
      && (us[h].comp.To? ==> us[us[h].comp.h].comp == To(h))
  }

  /** Unlinking `b` clears exactly three pointers: its left neighbour's right
      pointer, its right neighbour's left pointer and its partner's partner pointer. */
  lemma UnlinkWrites(us: seq<Unit>, lay: Layout, b: Handle)
    requires Oriented(us, lay) && b < |us|
    ensures var r, u := Unlink(us, b), us[b];
      && (u.left.To? ==> r[u.left.h] == us[u.left.h].(right := Null))
      && (u.right.To? ==> r[u.right.h] == us[u.right.h].(left := Null))
      && (u.comp.To? ==> r[u.comp.h] == us[u.comp.h].(comp := Null))
      && forall h :: 0 <= h < |us| && To(h) != u.left && To(h) != u.right && To(h) != u.comp ==> r[h] == us[h]
  {
    assert Placed(us, lay, b);
    var u := us[b];
    if u.left.To? { assert Placed(us, lay, u.left.h); }
    if u.right.To? { assert Placed(us, lay, u.right.h); }
    if u.comp.To? { assert Placed(us, lay, u.comp.h); }
    var us1 := if u.left.To? then SetRight(us, u.left.h, Null) else us;
    assert us1[b] == u;
    var us2 := if u.right.To? then SetLeft(us1, u.right.h, Null) else us1;
    assert us2[b] == u;
    assert Unlink(us, b) == if u.comp.To? then SetComp(us2, u.comp.h, Null) else us2;
  }

  /** Unlinking `b` keeps every base and `b`'s own pointers. When all pointers
      were mutual, no unit points at `b` any more. */
  lemma UnlinkDetaches(us: seq<Unit>, lay: Layout, b: Handle)
    requires Oriented(us, lay) && b < |us|
    ensures var r := Unlink(us, b);
      && r[b] == us[b]
      && (forall h :: 0 <= h < |us| ==> r[h].base == us[h].base)
      && (Mutual(us) ==> forall h :: 0 <= h < |us| ==> !PointsTo(r[h], b))
  {
    assert Placed(us, lay, b);
    UnlinkWrites(us, lay, b);
    var r, u := Unlink(us, b), us[b];
    assert forall h :: 0 <= h < |us| ==>
      && (r[h].left == us[h].left || r[h].left == Null)
      && (r[h].right == us[h].right || r[h].right == Null)
      && (r[h].comp == us[h].comp || r[h].comp == Null);
    if Mutual(us) {
      forall h | 0 <= h < |us| ensures !PointsTo(r[h], b) {
        if us[h].left == To(b) {
          assert u.right == To(h);
        }
        if us[h].right == To(b) {
          assert u.left == To(h);
        }
        if us[h].comp == To(b) {
          assert u.comp == To(h);
        }
      }
    }
  }

  /** Copy makes no pointer to a unit other than the bound one that nothing pointed to. */
  lemma CopyKeepsDetached(m: State, lay: Layout, d: Handle)
    requires Sound(m, lay) && d < |m.units| && d != m.bound.h
    requires forall h :: 0 <= h < |m.units| ==> !PointsTo(m.units[h], d)
    ensures forall h :: 0 <= h < |Copy(m).units| ==> !PointsTo(Copy(m).units[h], d)
  {
    CopyPairs(m, lay);
  }

  /** Delete drops one registration of the bound unit and binds the enzyme to its
      former right neighbour, or finishes if there is none. When all pointers
      were mutual, no unit points at the deleted one afterwards. */
  lemma DeleteDetaches(m: State, lay: Layout)
    requires Sound(m, lay)
    ensures var r, b := Delete(m), m.bound.h;
      var right := m.units[b].right;
      && (right.Null? ==> r.finished && r.bound == m.bound)
      && (right.To? ==> r.finished == m.finished && r.bound == right)
      && r.copyMode == m.copyMode
      && RemoveFirst(m.operated, b) <= r.operated
      && multiset(r.operated)[b] == multiset(m.operated)[b] - (if b in m.operated then 1 else 0)
      && (Mutual(m.units) ==> forall h :: 0 <= h < |r.units| ==> !PointsTo(r.units[h], b))
  {
    var b := m.bound.h;
    var right := m.units[b].right;
    var m1 := Detach(m);
    UnlinkDetaches(m.units, lay, b);
    UnlinkOriented(m.units, lay, b);
    RemoveFirstCount(m.operated, b);
    if right.To? && m.copyMode {
      assert Placed(m.units, lay, b);
      DetachedCopy(m1.(bound := right), lay, b, Mutual(m.units));
    }
  }

  /** Copy at the new binding registers at most a fresh unit, so the count of
      `b` stays, and it leaves a detached `b` detached. */
  lemma DetachedCopy(m: State, lay: Layout, b: Handle, detached: bool)
    requires Sound(m, lay) && b < |m.units| && b != m.bound.h
    requires detached ==> forall h :: 0 <= h < |m.units| ==> !PointsTo(m.units[h], b)
    ensures m.operated <= Copy(m).operated && multiset(Copy(m).operated)[b] == multiset(m.operated)[b]
    ensures detached ==> forall h :: 0 <= h < |Copy(m).units| ==> !PointsTo(Copy(m).units[h], b)
  {
    CopyPairs(m, lay);
    var ops := Copy(m).operated;
    assert ops == m.operated || ops == m.operated + [|m.units|];
    if detached {
      CopyKeepsDetached(m, lay, b);
    }
  }

  // ---------------------------------------------------------------------------
  // Searches

  /** The two directions an enzyme moves along its strand. */
  datatype Way = Rightward | Leftward

  function Move(m: State, w: Way): (r: State)
    requires Wired(m)
    ensures Wired(r)
  {
    if w.Rightward? then MoveRight(m) else MoveLeft(m)
  }

  ghost function MoveLayout(m: State, w: Way, lay: Layout): Layout
    requires Wired(m) && Fits(lay, |m.units|)
  {
    if w.Rightward? then MoveRightLayout(m, lay) else MoveLeftLayout(m, lay)
  }

  /** A rank as seen looking along `w`. */
  function Ahead(w: Way, x: int): int {
    if w.Rightward? then x else -x
  }

  lemma MoveSound(m: State, w: Way, lay: Layout)
    requires Sound(m, lay)
    ensures var r, lay' := Move(m, w), MoveLayout(m, w, lay);
      && Sound(r, lay') && Extends(lay', lay) && Span(lay'.place) == Span(lay.place)
      && (!r.finished ==> Ahead(w, Rank(lay', r.bound.h)) > Ahead(w, Rank(lay, m.bound.h)))
  {
    if w.Rightward? { MoveRightSound(m, lay); } else { MoveLeftSound(m, lay); }
  }

  /** Moves along `w` at least once, and on until the bound unit is of kind `k`
      or the enzyme finishes. */
  function Search(m: State, w: Way, k: Kind, ghost lay: Layout): (r: State)
    requires Sound(m, lay)
    ensures Wired(r)
    decreases Span(lay.place) - Ahead(w, Rank(lay, m.bound.h))
  {
    var m1 := Move(m, w);
    if m1.finished || Is(k, m1.units[m1.bound.h].base) then m1
    else
      MoveSound(m, w, lay);
      RankWithinSpan(lay, m.bound.h);
      Search(m1, w, k, MoveLayout(m, w, lay))
  }

  ghost function SearchLayout(m: State, w: Way, k: Kind, lay: Layout): Layout
    requires Sound(m, lay)
    decreases Span(lay.place) - Ahead(w, Rank(lay, m.bound.h))
  {
    var m1 := Move(m, w);
    MoveSound(m, w, lay);
    if m1.finished || Is(k, m1.units[m1.bound.h].base) then MoveLayout(m, w, lay)
    else
      RankWithinSpan(lay, m.bound.h);
      SearchLayout(m1, w, k, MoveLayout(m, w, lay))
  }

  lemma {:induction false} SearchSound(m: State, w: Way, k: Kind, lay: Layout)
    requires Sound(m, lay)
    ensures Sound(Search(m, w, k, lay), SearchLayout(m, w, k, lay))
    ensures Extends(SearchLayout(m, w, k, lay), lay)
    decreases Span(lay.place) - Ahead(w, Rank(lay, m.bound.h))
  {
    var m1 := Move(m, w);
    MoveSound(m, w, lay);
    if !(m1.finished || Is(k, m1.units[m1.bound.h].base)) {
      RankWithinSpan(lay, m.bound.h);
      var lay1 := MoveLayout(m, w, lay);
      SearchSound(m1, w, k, lay1);
      ExtendsTrans(SearchLayout(m1, w, k, lay1), lay1, lay);
    }
  }

  /** `j` moves along `w`. */
  function Walk(m: State, w: Way, j: nat): (r: State)
    requires Wired(m)
    ensures Wired(r)
    decreases j
  {
    if j == 0 then m else Walk(Move(m, w), w, j - 1)
  }

  /** A state a search moves on from: still running, and bound to a unit not of kind `k`. */
  predicate Passes(m: State, k: Kind)
    requires Wired(m)
  {
    !m.finished && !Is(k, m.units[m.bound.h].base)
  }

  /** The number of moves a search makes. */
  ghost function SearchLength(m: State, w: Way, k: Kind, lay: Layout): nat
    requires Sound(m, lay)
    decreases Span(lay.place) - Ahead(w, Rank(lay, m.bound.h))
  {
    var m1 := Move(m, w);
    if !Passes(m1, k) then 1
    else
      MoveSound(m, w, lay);
      RankWithinSpan(lay, m.bound.h);
      1 + SearchLength(m1, w, k, MoveLayout(m, w, lay))
  }

  /** Every state the walk meets before its `j`-th move passes. */
  predicate PassesFor(m: State, w: Way, k: Kind, j: nat)
    requires Wired(m)
    decreases j
  {
    j <= 1 || (Passes(Move(m, w), k) && PassesFor(Move(m, w), w, k, j - 1))
  }

  lemma {:induction false} PassesForAll(m: State, w: Way, k: Kind, j: nat)
    requires Wired(m) && PassesFor(m, w, k, j)
    ensures forall i :: 1 <= i < j ==> Passes(Walk(m, w, i), k)
    decreases j
  {
    if j > 1 {
      var m1 := Move(m, w);
      PassesForAll(m1, w, k, j - 1);
      forall i | 1 <= i < j
        ensures Passes(Walk(m, w, i), k)
      {
        assert Walk(m, w, i) == Walk(m1, w, i - 1);
      }
    }
  }

  lemma {:induction false} SearchWalks(m: State, w: Way, k: Kind, lay: Layout)
    requires Sound(m, lay)
    ensures 1 <= SearchLength(m, w, k, lay)
    ensures Search(m, w, k, lay) == Walk(m, w, SearchLength(m, w, k, lay))
    ensures !Passes(Search(m, w, k, lay), k)
    ensures PassesFor(m, w, k, SearchLength(m, w, k, lay))
    decreases Span(lay.place) - Ahead(w, Rank(lay, m.bound.h))
  {
    var m1 := Move(m, w);
    assert Walk(m, w, 1) == m1 by { assert Walk(m1, w, 0) == m1; }
    if !Passes(m1, k) {
      assert Search(m, w, k, lay) == m1 && SearchLength(m, w, k, lay) == 1;
    } else {
      var lay1 := MoveLayout(m, w, lay);
      SearchOn(m, w, k, lay);
      SearchWalks(m1, w, k, lay1);
      var j := SearchLength(m1, w, k, lay1);
      assert Walk(m, w, j + 1) == Walk(m1, w, j);
    }
  }

  /** A search whose first move passes goes on as a search from there. */
  lemma SearchOn(m: State, w: Way, k: Kind, lay: Layout)
    requires Sound(m, lay) && Passes(Move(m, w), k)
    ensures var m1, lay1 := Move(m, w), MoveLayout(m, w, lay);
      && Sound(m1, lay1)
      && 0 <= Span(lay1.place) - Ahead(w, Rank(lay1, m1.bound.h)) < Span(lay.place) - Ahead(w, Rank(lay, m.bound.h))
      && Search(m, w, k, lay) == Search(m1, w, k, lay1)
      && SearchLength(m, w, k, lay) == 1 + SearchLength(m1, w, k, lay1)
  {
    MoveSound(m, w, lay);
    RankWithinSpan(lay, m.bound.h);
    RankWithinSpan(MoveLayout(m, w, lay), Move(m, w).bound.h);
  }

  /** A search is a walk of at least one move that stops at the first state that
      has finished or is bound to a unit of kind `k`. */
  lemma SearchStops(m: State, w: Way, k: Kind, lay: Layout)
    requires Sound(m, lay)
    ensures var r, j := Search(m, w, k, lay), SearchLength(m, w, k, lay);
      && 1 <= j && r == Walk(m, w, j) && !Passes(r, k)
      && forall i :: 1 <= i < j ==> Passes(Walk(m, w, i), k)
  {
    SearchWalks(m, w, k, lay);
    PassesForAll(m, w, k, SearchLength(m, w, k, lay));
  }

  /** A move binds the enzyme to the neighbour along `w`, where in copy mode the
      neighbour's partner ends up holding its complement; with no neighbour there
      the enzyme finishes and nothing else changes. */
  lemma MoveSteps(m: State, w: Way, lay: Layout)
    requires Sound(m, lay)
    ensures var r, u := Move(m, w), m.units[m.bound.h];
      var next := if w.Rightward? then u.right else u.left;
      && (next.Null? ==> r == m.(finished := true))
      && (next.To? && !m.copyMode ==> r == m.(bound := next))
      && (next.To? && m.copyMode ==>
            && r.bound == next && r.finished == m.finished && r.copyMode
            && r.units[next.h].base == m.units[next.h].base && r.units[next.h].comp.To?
            && r.units[r.units[next.h].comp.h].base == Complementary(m.units[next.h].base))
  {
    var u := m.units[m.bound.h];
    var next := if w.Rightward? then u.right else u.left;
    if next.To? && m.copyMode {
      assert Placed(m.units, lay, m.bound.h);
      CopyPairs(m.(bound := next), lay);
    }
  }

  /** `cop` turns copy mode on and gives the bound unit a partner holding its complement. */
  lemma CopyModeOn(m: State, lay: Layout)
    requires Sound(m, lay)
    ensures var r, b := TurnCopyOn(m), m.bound.h;
      && r.copyMode && r.bound == m.bound && r.finished == m.finished
      && r.units[b].base == m.units[b].base && r.units[b].comp.To?
      && r.units[r.units[b].comp.h].base == Complementary(m.units[b].base)
  {
    CopyPairs(m.(copyMode := true), lay);
  }

  // ---------------------------------------------------------------------------
  // Commands

  /** The dispatch from amino acid to instruction. */
  function Execute(m: State, a: AminoAcid, ghost lay: Layout): (r: State)
    requires Sound(m, lay)
    ensures Wired(r)
  {
    match a
    case Cut => Cut(m)
    case Del => Delete(m)
    case Swi => Switch(m)
    case Mvr => MoveRight(m)
    case Mvl => MoveLeft(m)
    case Cop => TurnCopyOn(m)
    case Off => TurnCopyOff(m)
    case Ina => Insert(m, A)
    case Inc => Insert(m, C)
    case Ing => Insert(m, G)
    case Int => Insert(m, T)
    case Rpy => Search(m, Rightward, Pyrimidine, lay)
    case Rpu => Search(m, Rightward, Purine, lay)
    case Lpy => Search(m, Leftward, Pyrimidine, lay)
    case Lpu => Search(m, Leftward, Purine, lay)
  }

  ghost function ExecuteLayout(m: State, a: AminoAcid, lay: Layout): Layout
    requires Sound(m, lay)
  {
    match a
    case Cut => lay
    case Del => DeleteLayout(m, lay)
    case Swi => lay
    case Mvr => MoveRightLayout(m, lay)
    case Mvl => MoveLeftLayout(m, lay)
    case Cop => CopyLayout(m.(copyMode := true), lay)
    case Off => lay
    case Ina => InsertLayout(m, A, lay)
    case Inc => InsertLayout(m, C, lay)
    case Ing => InsertLayout(m, G, lay)
    case Int => InsertLayout(m, T, lay)
    case Rpy => SearchLayout(m, Rightward, Pyrimidine, lay)
    case Rpu => SearchLayout(m, Rightward, Purine, lay)
    case Lpy => SearchLayout(m, Leftward, Pyrimidine, lay)
    case Lpu => SearchLayout(m, Leftward, Purine, lay)
  }

  lemma ExecuteSound(m: State, a: AminoAcid, lay: Layout)
    requires Sound(m, lay)
    ensures Sound(Execute(m, a, lay), ExecuteLayout(m, a, lay))
    ensures Extends(ExecuteLayout(m, a, lay), lay)
  {
    match a
    case Cut => CutSound(m, lay);
    case Del => DeleteSound(m, lay);
    case Swi =>
    case Mvr => MoveRightSound(m, lay);
    case Mvl => MoveLeftSound(m, lay);
    case Cop => CopySound(m.(copyMode := true), lay);
    case Off =>
    case Ina => InsertSound(m, A, lay);
    case Inc => InsertSound(m, C, lay);
    case Ing => InsertSound(m, G, lay);
    case Int => InsertSound(m, T, lay);
    case Rpy => SearchSound(m, Rightward, Pyrimidine, lay);
    case Rpu => SearchSound(m, Rightward, Purine, lay);
    case Lpy => SearchSound(m, Leftward, Pyrimidine, lay);
    case Lpu => SearchSound(m, Leftward, Purine, lay);
  }

  /** The commands in order, stopping before the first one that finds the enzyme finished. */
  function ExecuteAll(m: State, cmds: seq<AminoAcid>, ghost lay: Layout): (r: State)
    requires Sound(m, lay)
    ensures Wired(r)
    decreases |cmds|
  {
    if cmds == [] || m.finished then m
    else
      ExecuteSound(m, cmds[0], lay);
      ExecuteAll(Execute(m, cmds[0], lay), cmds[1..], ExecuteLayout(m, cmds[0], lay))
  }

  ghost function ExecuteAllLayout(m: State, cmds: seq<AminoAcid>, lay: Layout): Layout
    requires Sound(m, lay)
    decreases |cmds|
  {
    if cmds == [] || m.finished then lay
    else
      ExecuteSound(m, cmds[0], lay);
      ExecuteAllLayout(Execute(m, cmds[0], lay), cmds[1..], ExecuteLayout(m, cmds[0], lay))
  }

  lemma {:induction false} ExecuteAllSound(m: State, cmds: seq<AminoAcid>, lay: Layout)
    requires Sound(m, lay)
    ensures Sound(ExecuteAll(m, cmds, lay), ExecuteAllLayout(m, cmds, lay))
    decreases |cmds|
  {
    if cmds != [] && !m.finished {
      ExecuteSound(m, cmds[0], lay);
      ExecuteAllSound(Execute(m, cmds[0], lay), cmds[1..], ExecuteLayout(m, cmds[0], lay));
    }
  }

  /** Running `xs ++ ys` runs `xs` and then `ys` from where `xs` left off. */
  lemma {:induction false} ExecuteAllConcat(m: State, xs: seq<AminoAcid>, ys: seq<AminoAcid>, lay: Layout)
    requires Sound(m, lay)
    ensures Sound(ExecuteAll(m, xs, lay), ExecuteAllLayout(m, xs, lay))
    ensures ExecuteAll(m, xs + ys, lay) == ExecuteAll(ExecuteAll(m, xs, lay), ys, ExecuteAllLayout(m, xs, lay))
    decreases |xs|
  {
    ExecuteAllSound(m, xs, lay);
    if xs != [] && !m.finished {
      ExecuteSound(m, xs[0], lay);
      assert (xs + ys)[0] == xs[0] && (xs + ys)[1..] == xs[1..] + ys;
      ExecuteAllConcat(Execute(m, xs[0], lay), xs[1..], ys, ExecuteLayout(m, xs[0], lay));
    } else if xs == [] {
      assert xs + ys == ys;
    }
  }

  /** Once the enzyme has finished, the commands that remain change nothing. */
  lemma FinishedStops(m: State, xs: seq<AminoAcid>, ys: seq<AminoAcid>, lay: Layout)
    requires Sound(m, lay) && ExecuteAll(m, xs, lay).finished
    ensures ExecuteAll(m, xs + ys, lay) == ExecuteAll(m, xs, lay)
  {
    ExecuteAllConcat(m, xs, ys, lay);
  }

  // ---------------------------------------------------------------------------
  // Loading a strand and binding to it

  /** The chain of units a strand loads into when the arena already holds `o`
      units: one unit per base, in order, each linked both ways to its neighbours. */
  function LoadUnits(s: Strand, o: nat): (us: seq<Unit>)
    ensures |us| == |s|
  {
    if s == [] then []
    else
      var k := |s| - 1;
      var us := LoadUnits(s[..k], o);
      var us := if k > 0 then us[k - 1 := us[k - 1].(right := To(o + k))] else us;
      us + [Unit(s[k], if k > 0 then To(o + k - 1) else Null, Null, Null)]
  }

  /** The neighbour `i` of a unit in a loaded strand of length `n` at offset `o`, if it is in range. */
  function Neighbour(o: nat, i: int, n: nat): Link {
    if 0 <= i < n then To(o + i) else Null
  }

  lemma {:induction false} LoadChains(s: Strand, o: nat)
    ensures var us := LoadUnits(s, o);
      forall i :: 0 <= i < |s| ==> us[i] == Unit(s[i], Neighbour(o, i - 1, |s|), Neighbour(o, i + 1, |s|), Null)
  {
    if s != [] {
      var s0 := s[..|s| - 1];
      LoadChains(s0, o);
      var us := LoadUnits(s, o);
      forall i | 0 <= i < |s|
        ensures us[i] == Unit(s[i], Neighbour(o, i - 1, |s|), Neighbour(o, i + 1, |s|), Null)
      {
        if i < |s0| { assert s[i] == s0[i]; }
      }
    }
  }

  /** The handles `o`, `o + 1`, …, `o + n - 1`. */
  function Handles(o: nat, n: nat): (r: seq<Handle>)
    ensures |r| == n && forall i :: 0 <= i < n ==> r[i] == o + i
  {
    if n == 0 then [] else Handles(o, n - 1) + [o + n - 1]
  }

  /** A loaded strand lies in columns 0, 1, … on the upper strand. */
  ghost function LineLayout(n: nat): (lay: Layout)
    ensures Fits(lay, n)
  {
    Layout(Handles(0, n), seq(n, _ => true))
  }

  /** A strand loaded into an empty arena is closed and lies along the upper strand. */
  lemma LoadOriented(s: Strand)
    ensures Oriented(LoadUnits(s, 0), LineLayout(|s|))
  {
    LoadChains(s, 0);
    var us, lay := LoadUnits(s, 0), LineLayout(|s|);
    assert Closed(us);
    forall h | 0 <= h < |us| ensures Placed(us, lay, h) {
      assert lay.upper[h] && lay.place[h] == h;
    }
  }

  /** ... and is linked both ways. */
  lemma LoadMutual(s: Strand)
    ensures Closed(LoadUnits(s, 0)) && Mutual(LoadUnits(s, 0))
  {
    LoadChains(s, 0);
  }

  /** Handles in strictly increasing order, as a registry of a loaded strand is. */
  predicate Increasing(hs: seq<Handle>) {
    forall i, j :: 0 <= i < j < |hs| ==> hs[i] < hs[j]
  }

  /** The registered units holding base `ib`, in registry order. */
  function Candidates(us: seq<Unit>, ops: seq<Handle>, ib: Nucleotide): (r: seq<Handle>)
    requires Registered(us, ops)
    ensures forall h :: h in r <==> h in ops && us[h].base == ib
    ensures |r| <= |ops|
  {
    if ops == [] then []
    else
      var h := ops[|ops| - 1];
      assert ops == ops[..|ops| - 1] + [h];
      RegisteredSplit(us, ops[..|ops| - 1], h);
      Candidates(us, ops[..|ops| - 1], ib) + (if us[h].base == ib then [h] else [])
  }

  /** Filtering keeps registry order: the candidates of an increasing registry
      are increasing. */
  lemma {:induction false} CandidatesOrdered(us: seq<Unit>, ops: seq<Handle>, ib: Nucleotide)
    requires Registered(us, ops) && Increasing(ops)
    ensures Increasing(Candidates(us, ops, ib))
    decreases |ops|
  {
    if ops != [] {
      var init, h := ops[..|ops| - 1], ops[|ops| - 1];
      assert ops == init + [h];
      RegisteredSplit(us, init, h);
      assert Increasing(init);
      CandidatesOrdered(us, init, ib);
      var c := Candidates(us, init, ib);
      forall x | x in c ensures x < h {
        var k :| 0 <= k < |init| && init[k] == x;
        assert ops[k] == x;
      }
      var r := Candidates(us, ops, ib);
      assert r == c + (if us[h].base == ib then [h] else []);
      forall i, j | 0 <= i < j < |r| ensures r[i] < r[j] {
        if j < |c| { assert r[i] == c[i] && r[j] == c[j]; }
        else { assert r[i] == c[i] && c[i] in c; }
      }
    }
  }

  /** FindStart: with no unit carrying `ib` the enzyme finishes unbound; one such
      unit is bound directly; among several the selection rule picks one, and
      its error is the run's error. */
  function Bind(m: State, ib: Nucleotide, mode: Mode, n: int, draw: nat): (r: Result<State, string>)
    requires Registered(m.units, m.operated)
    requires Drawable(mode, |Candidates(m.units, m.operated, ib)|, draw)
    ensures var cs := Candidates(m.units, m.operated, ib);
      && (r.Failure? <==> |cs| > 1 && !Selectable(mode, n, |cs|))
      && (r.Success? ==> r.value.units == m.units && r.value.operated == m.operated && r.value.copyMode == m.copyMode)
      && (r.Success? ==> (r.value.finished <==> m.finished || cs == []))
      && (r.Success? && cs != [] ==> r.value.bound.To? && r.value.bound.h in m.operated && m.units[r.value.bound.h].base == ib)
      && (|cs| == 1 ==> r == Success(m.(bound := To(cs[0]))))
      && (|cs| > 1 && r.Success? ==> Pick(mode, n, cs, draw).Success? && r.value.bound == To(Pick(mode, n, cs, draw).value))
  {
    var cs := Candidates(m.units, m.operated, ib);
    if cs == [] then Success(m.(finished := true))
    else if |cs| == 1 then Success(m.(bound := To(cs[0])))
    else
      match Pick(mode, n, cs, draw)
      case Success(h) => Success(m.(bound := To(h)))
      case Failure(e) => Failure(e)
  }
}
