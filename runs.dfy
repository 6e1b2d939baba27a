/** A whole run of an enzyme over a strand: load the strand into a fresh arena,
    bind, execute the commands, and harvest the strands that result. */
module Runs {
  import opened Wrappers
  import opened Nucleotides
  import opened AminoAcids
  import opened Arena
  import opened Selection
  import opened Engine
  import opened Harvesting
  import opened Programs

  /** The state right after loading `s` into an empty arena, still bound to `bound`. */
  function Loaded(s: Strand, bound: Link): (m: State)
    ensures Registered(m.units, m.operated) && |m.units| == |s| && |m.operated| == |s|
    ensures !m.finished && !m.copyMode
    ensures Oriented(m.units, LineLayout(|s|))
  {
    LoadOriented(s);
    State(LoadUnits(s, 0), Handles(0, |s|), bound, false, false)
  }

  /** The units that the enzyme could bind to on a freshly loaded strand. */
  function Sites(ib: Nucleotide, s: Strand): (r: seq<Handle>)
    ensures forall h: Handle :: h in r <==> h < |s| && s[h] == ib
    ensures ib !in s ==> r == []
    ensures Increasing(r)
  {
    LoadChains(s, 0);
    var m := Loaded(s, Null);
    CandidatesOrdered(m.units, m.operated, ib);
    assert forall h: Handle :: h in m.operated <==> h < |s| by {
      forall h: Handle | h < |s| ensures h in m.operated { assert m.operated[h] == h; }
    }
    var r := Candidates(m.units, m.operated, ib);
    assert ib !in s ==> r == [] by {
      if r != [] {
        assert r[0] in r && s[r[0]] == ib;
      }
    }
    r
  }

  /** The first binding site is the leftmost unit holding the binding base, and
      the last is the rightmost. */
  lemma SitesEnds(ib: Nucleotide, s: Strand)
    requires ib in s
    ensures var r := Sites(ib, s);
      && r != []
      && r[0] < |s| && s[r[0]] == ib && (forall j :: 0 <= j < r[0] ==> s[j] != ib)
      && r[|r| - 1] < |s| && s[r[|r| - 1]] == ib && (forall j :: r[|r| - 1] < j < |s| ==> s[j] != ib)
  {
    var r := Sites(ib, s);
    var i :| 0 <= i < |s| && s[i] == ib;
    assert i in r;
    assert r[0] in r && r[|r| - 1] in r;
    forall x | x in r ensures r[0] <= x <= r[|r| - 1] {
      var k :| 0 <= k < |r| && r[k] == x;
      assert k == 0 || r[0] < r[k];
      assert k == |r| - 1 || r[k] < r[|r| - 1];
    }
    forall j | 0 <= j < r[0] ensures s[j] != ib {
      assert j !in r;
    }
    forall j | r[|r| - 1] < j < |s| ensures s[j] != ib {
      assert j !in r;
    }
  }

  /** On a freshly loaded strand, always-first binds the leftmost unit holding
      the binding base and always-last the rightmost, whatever unit the enzyme
      was bound to before. */
  lemma FixedModesBindEnds(s: Strand, ib: Nucleotide, n: int, draw: nat, bound: Link)
    requires ib in s
    ensures Drawable(AlwaysFirst, |Sites(ib, s)|, draw) && Drawable(AlwaysLast, |Sites(ib, s)|, draw)
    ensures var cs := Candidates(Loaded(s, bound).units, Loaded(s, bound).operated, ib);
      Drawable(AlwaysFirst, |cs|, draw) && Drawable(AlwaysLast, |cs|, draw)
    ensures var r := Bind(Loaded(s, bound), ib, AlwaysFirst, n, draw);
      && r.Success? && r.value.bound.To? && r.value.bound.h < |s|
      && s[r.value.bound.h] == ib && (forall j :: 0 <= j < r.value.bound.h ==> s[j] != ib)
    ensures var r := Bind(Loaded(s, bound), ib, AlwaysLast, n, draw);
      && r.Success? && r.value.bound.To? && r.value.bound.h < |s|
      && s[r.value.bound.h] == ib && (forall j :: r.value.bound.h < j < |s| ==> s[j] != ib)
  {
    var m := Loaded(s, bound);
    assert Candidates(m.units, m.operated, ib) == Sites(ib, s);
    SitesEnds(ib, s);
    var cs := Sites(ib, s);
    if |cs| > 1 {
      FixedModes(cs, n, draw);
    }
  }

  /** After binding: execute the commands unless the enzyme already finished. */
  function Perform(m: State, cmds: seq<AminoAcid>, ghost lay: Layout): (r: State)
    requires Registered(m.units, m.operated) && Oriented(m.units, lay)
    requires !m.finished ==> Sound(m, lay)
  {
    if m.finished then m else ExecuteAll(m, cmds, lay)
  }

  ghost function PerformLayout(m: State, cmds: seq<AminoAcid>, lay: Layout): (r: Layout)
    requires Registered(m.units, m.operated) && Oriented(m.units, lay)
    requires !m.finished ==> Sound(m, lay)
    ensures Oriented(Perform(m, cmds, lay).units, r) && Registered(Perform(m, cmds, lay).units, Perform(m, cmds, lay).operated)
  {
    if m.finished then lay
    else
      ExecuteAllSound(m, cmds, lay);
      ExecuteAllLayout(m, cmds, lay)
  }

  /** The state once the enzyme has bound and executed its commands, or the
      selection's error. */
  function Executed(p: Program, s: Strand, mode: Mode, n: int, draw: nat): (r: Result<State, string>)
    requires Drawable(mode, |Sites(p.initialBinding, s)|, draw)
  {
    match Bind(Loaded(s, Null), p.initialBinding, mode, n, draw)
    case Failure(e) => Failure(e)
    case Success(m1) =>
      LoadOriented(s);
      Success(Perform(m1, p.commands, LineLayout(|s|)))
  }

  ghost function ExecutedLayout(p: Program, s: Strand, mode: Mode, n: int, draw: nat): (lay: Layout)
    requires Drawable(mode, |Sites(p.initialBinding, s)|, draw)
    requires Executed(p, s, mode, n, draw).Success?
    ensures var m := Executed(p, s, mode, n, draw).value;
      Oriented(m.units, lay) && Registered(m.units, m.operated)
  {
    var m1 := Bind(Loaded(s, Null), p.initialBinding, mode, n, draw).value;
    LoadOriented(s);
    PerformLayout(m1, p.commands, LineLayout(|s|))
  }

  /** The outcome of running enzyme `p` on `s`: the selection's error, the
      harvested strands, or `None` when the harvest would not terminate. */
  function Run(p: Program, s: Strand, mode: Mode, n: int, draw: nat): (r: Option<Result<seq<Strand>, string>>)
    requires Drawable(mode, |Sites(p.initialBinding, s)|, draw)
    ensures Executed(p, s, mode, n, draw).Failure? ==> r == Some(Failure(Executed(p, s, mode, n, draw).error))
  {
    match Executed(p, s, mode, n, draw)
    case Failure(e) => Some(Failure(e))
    case Success(m) =>
      match Harvest(m.units, m.operated, [], ExecutedLayout(p, s, mode, n, draw))
      case None => None
      case Some(strands) => Some(Success(strands))
  }

  /** The run ends for every draw the random generator could produce. */
  ghost predicate Terminates(p: Program, s: Strand, mode: Mode, n: int) {
    forall draw: nat :: Drawable(mode, |Sites(p.initialBinding, s)|, draw) ==> Run(p, s, mode, n, draw).Some?
  }

  // ---------------------------------------------------------------------------
  // Properties of whole runs

  /** Along a line of units that hold the bases of `s`, each linked rightwards to
      the next, walking right from unit `i` meets `i`, `i + 1`, … to the end. */
  lemma LineChain(us: seq<Unit>, lay: Layout, s: Strand, i: nat)
    requires Oriented(us, lay) && |us| == |s| && i < |s|
    requires forall j :: 0 <= j < |s| ==> us[j].base == s[j] && us[j].right == Neighbour(0, j + 1, |s|)
    ensures Chain(us, To(i), lay) == Handles(i, |s| - i)
    ensures Bases(us, Handles(i, |s| - i)) == s[i..]
  {
    LineWalk(us, lay, |s|, i);
    LineBases(us, s, i);
  }

  lemma {:induction false} LineWalk(us: seq<Unit>, lay: Layout, n: nat, i: nat)
    requires Oriented(us, lay) && |us| == n && i < n
    requires forall j :: 0 <= j < n ==> us[j].right == Neighbour(0, j + 1, n)
    ensures Chain(us, To(i), lay) == Handles(i, n - i)
    decreases n - i
  {
    assert Chain(us, To(i), lay) == [i] + Chain(us, us[i].right, lay);
    var hs := Handles(i, n - i);
    if i + 1 < n {
      LineWalk(us, lay, n, i + 1);
      assert hs == [i] + Handles(i + 1, n - i - 1);
    } else {
      assert hs == [i];
    }
  }

  lemma {:induction false} LineBases(us: seq<Unit>, s: Strand, i: nat)
    requires |us| == |s| && i <= |s|
    requires forall j :: 0 <= j < |s| ==> us[j].base == s[j]
    ensures Registered(us, Handles(i, |s| - i)) && Bases(us, Handles(i, |s| - i)) == s[i..]
    decreases |s| - i
  {
    var hs := Handles(i, |s| - i);
    assert forall x :: x in hs ==> x < |us|;
    if i < |s| {
      RegisteredCons(us, hs);
      LineBases(us, s, i + 1);
      assert hs[1..] == Handles(i + 1, |s| - i - 1);
      assert s[i..] == [s[i]] + s[i + 1..];
    }
  }

  /** Removing a registry's own entries, front to back, empties it. */
  lemma {:induction false} RemoveAllSelf(hs: seq<Handle>)
    ensures RemoveAll(hs, hs) == []
    decreases |hs|
  {
    if hs != [] {
      assert RemoveFirst(hs, hs[0]) == hs[1..];
      RemoveAllSelf(hs[1..]);
    }
  }

  /** Harvesting a line of units registered from left to right reads `s` back. */
  lemma HarvestLine(us: seq<Unit>, lay: Layout, s: Strand)
    requires Oriented(us, lay) && |us| == |s| && s != []
    requires forall j :: 0 <= j < |s| ==> us[j].base == s[j] && us[j].right == Neighbour(0, j + 1, |s|)
    requires us[0].left.Null?
    ensures Registered(us, Handles(0, |s|))
    ensures Harvest(us, Handles(0, |s|), [], lay) == Some([s])
  {
    var ops := Handles(0, |s|);
    assert ops[0] == 0 && ops[0] in ops;
    assert LeftEnd(us, 0, lay) == 0;
    LineChain(us, lay, s, 0);
    CollectReadsChain(us, To(0), ops, [], lay);
    RemoveAllSelf(ops);
    assert s[0..] == s && [] + s == s;
    var r := Collect(us, To(0), ops, [], lay);
    assert r == (s, []);
    assert Harvest(us, [], [s], lay) == Some([s]);
  }

  /** Harvesting a freshly loaded strand reads it back unchanged. */
  lemma HarvestLoaded(s: Strand)
    ensures Oriented(LoadUnits(s, 0), LineLayout(|s|)) && Registered(LoadUnits(s, 0), Handles(0, |s|))
    ensures Harvest(LoadUnits(s, 0), Handles(0, |s|), [], LineLayout(|s|)) == Some(if s == [] then [] else [s])
  {
    LoadOriented(s);
    if s != [] {
      LoadChains(s, 0);
      HarvestLine(LoadUnits(s, 0), LineLayout(|s|), s);
    }
  }

  /** With no unit carrying the initial-binding base no command runs, and the
      run gives back the input strand as it was, or nothing for an empty strand. */
  lemma NoBindingSite(p: Program, s: Strand, mode: Mode, n: int, draw: nat)
    requires p.initialBinding !in s
    ensures Drawable(mode, |Sites(p.initialBinding, s)|, draw)
    ensures Executed(p, s, mode, n, draw) == Success(Loaded(s, Null).(finished := true))
    ensures Run(p, s, mode, n, draw) == Some(Success(if s == [] then [] else [s]))
  {
    var m0 := Loaded(s, Null);
    var m1 := m0.(finished := true);
    assert Sites(p.initialBinding, s) == Candidates(m0.units, m0.operated, p.initialBinding) == [];
    assert Bind(m0, p.initialBinding, mode, n, draw) == Success(m1);
    LoadOriented(s);
    assert Perform(m1, p.commands, LineLayout(|s|)) == m1;
    assert Executed(p, s, mode, n, draw) == Success(m1);
    assert ExecutedLayout(p, s, mode, n, draw) == LineLayout(|s|);
    HarvestLoaded(s);
  }

  /** The bound unit left over from an earlier run does not change the outcome:
      binding either overwrites it or finishes the enzyme, and a finished
      enzyme runs no command. The next three lemmas give the run in each case. */
  lemma BindFailsAlike(p: Program, s: Strand, mode: Mode, n: int, draw: nat, bound: Link)
    requires Drawable(mode, |Sites(p.initialBinding, s)|, draw)
    ensures Drawable(mode, |Candidates(LoadUnits(s, 0), Handles(0, |s|), p.initialBinding)|, draw)
    ensures var b1 := Bind(Loaded(s, bound), p.initialBinding, mode, n, draw);
      b1.Failure? ==> Executed(p, s, mode, n, draw) == Failure(b1.error)
  {
    BindIgnoresBound(s, p.initialBinding, mode, n, draw, bound);
    ExecutedUnfolds(p, s, mode, n, draw);
  }

  lemma BindRunsAlike(p: Program, s: Strand, mode: Mode, n: int, draw: nat, bound: Link)
    requires Drawable(mode, |Sites(p.initialBinding, s)|, draw)
    ensures Drawable(mode, |Candidates(LoadUnits(s, 0), Handles(0, |s|), p.initialBinding)|, draw)
    ensures var b1 := Bind(Loaded(s, bound), p.initialBinding, mode, n, draw);
      b1.Success? && !b1.value.finished ==>
        && Sound(b1.value, LineLayout(|s|))
        && Executed(p, s, mode, n, draw) == Success(Perform(b1.value, p.commands, LineLayout(|s|)))
        && ExecutedLayout(p, s, mode, n, draw) == PerformLayout(b1.value, p.commands, LineLayout(|s|))
  {
    BindLoadedSound(s, p.initialBinding, mode, n, draw, bound);
    BindIgnoresBound(s, p.initialBinding, mode, n, draw, bound);
    ExecutedUnfolds(p, s, mode, n, draw);
  }

  lemma BindFinishesAlike(p: Program, s: Strand, mode: Mode, n: int, draw: nat, bound: Link)
    requires Drawable(mode, |Sites(p.initialBinding, s)|, draw)
    ensures Drawable(mode, |Candidates(LoadUnits(s, 0), Handles(0, |s|), p.initialBinding)|, draw)
    ensures var b1 := Bind(Loaded(s, bound), p.initialBinding, mode, n, draw);
      b1.Success? && b1.value.finished ==>
        && Executed(p, s, mode, n, draw).Success?
        && Executed(p, s, mode, n, draw).value.units == b1.value.units
        && Executed(p, s, mode, n, draw).value.operated == b1.value.operated
        && ExecutedLayout(p, s, mode, n, draw) == LineLayout(|s|)
  {
    BindLoadedSound(s, p.initialBinding, mode, n, draw, bound);
    BindIgnoresBound(s, p.initialBinding, mode, n, draw, bound);
    ExecutedUnfolds(p, s, mode, n, draw);
  }

  /** `Executed` and `ExecutedLayout` in terms of the binding on a strand loaded unbound. */
  lemma ExecutedUnfolds(p: Program, s: Strand, mode: Mode, n: int, draw: nat)
    requires Drawable(mode, |Sites(p.initialBinding, s)|, draw)
    ensures var b0 := Bind(Loaded(s, Null), p.initialBinding, mode, n, draw);
      && (b0.Failure? ==> Executed(p, s, mode, n, draw) == Failure(b0.error))
      && (b0.Success? ==> Executed(p, s, mode, n, draw) == Success(Perform(b0.value, p.commands, LineLayout(|s|))))
      && (b0.Success? ==> ExecutedLayout(p, s, mode, n, draw) == PerformLayout(b0.value, p.commands, LineLayout(|s|)))
  {
  }

  /** Binding on a freshly loaded strand keeps the arena oriented along the
      line and, unless it finishes, binds a registered unit. */
  lemma BindLoadedSound(s: Strand, ib: Nucleotide, mode: Mode, n: int, draw: nat, bound: Link)
    requires Drawable(mode, |Sites(ib, s)|, draw)
    ensures Drawable(mode, |Candidates(LoadUnits(s, 0), Handles(0, |s|), ib)|, draw)
    ensures var b1 := Bind(Loaded(s, bound), ib, mode, n, draw);
      (b1.Success? ==>
        && Registered(b1.value.units, b1.value.operated) && Oriented(b1.value.units, LineLayout(|s|))
        && (!b1.value.finished ==> Sound(b1.value, LineLayout(|s|))))
  {
    BindIgnoresBound(s, ib, mode, n, draw, bound);
    var m := Loaded(s, bound);
    var b1 := Bind(m, ib, mode, n, draw);
    if b1.Success? && !b1.value.finished {
      assert Candidates(m.units, m.operated, ib) != [];
      assert b1.value.bound.h in m.operated;
      assert Wired(b1.value);
    }
  }

  /** Binding on a freshly loaded strand overwrites the bound unit, unless it
      finishes the enzyme, and then only the bound unit differs. */
  lemma BindIgnoresBound(s: Strand, ib: Nucleotide, mode: Mode, n: int, draw: nat, bound: Link)
    requires Drawable(mode, |Sites(ib, s)|, draw)
    ensures Drawable(mode, |Candidates(LoadUnits(s, 0), Handles(0, |s|), ib)|, draw)
    ensures var b0 := Bind(Loaded(s, Null), ib, mode, n, draw);
      var b1 := Bind(Loaded(s, bound), ib, mode, n, draw);
      && (b1.Failure? ==> b0 == b1)
      && (b1.Success? ==> b0.Success? && b0.value.finished == b1.value.finished)
      && (b1.Success? && !b1.value.finished ==> b0 == b1)
      && (b1.Success? && b1.value.finished ==> b0.value == b1.value.(bound := Null))
  {
    var cs := Candidates(LoadUnits(s, 0), Handles(0, |s|), ib);
    if cs == [] {
      assert Bind(Loaded(s, Null), ib, mode, n, draw) == Success(Loaded(s, Null).(finished := true));
      assert Bind(Loaded(s, bound), ib, mode, n, draw) == Success(Loaded(s, bound).(finished := true));
    }
  }

  /** A run whose final state is harvestable ends, and its strands hold the
      bases of exactly the registered units: none is lost and none is read twice. */
  lemma RunHarvests(p: Program, s: Strand, mode: Mode, n: int, draw: nat)
    requires Drawable(mode, |Sites(p.initialBinding, s)|, draw)
    requires Executed(p, s, mode, n, draw).Success?
    requires var m := Executed(p, s, mode, n, draw).value; Harvestable(m.units, m.operated)
    ensures var m := Executed(p, s, mode, n, draw).value;
      var r := Run(p, s, mode, n, draw);
      && r.Some? && r.value.Success?
      && multiset(Flatten(r.value.value)) == multiset(Bases(m.units, m.operated))
      && |Flatten(r.value.value)| == |m.operated|
      && forall i :: 0 <= i < |r.value.value| ==> r.value.value[i] != []
  {
    var m := Executed(p, s, mode, n, draw).value;
    HarvestSound(m.units, m.operated, [], ExecutedLayout(p, s, mode, n, draw));
  }

  // ---------------------------------------------------------------------------
  // A harvest that never ends

  /** An enzyme binding A and running eighteen commands, applied to the strand ACC:
      cop mvr mvr off mvl del swi mvr mvr swi ina swi del swi mvr swi cut ina. */
  const Looping: Program := Program(A, seq(18, LoopingCommand))

  function LoopingCommand(i: int): AminoAcid {
    match i
    case 0 => Cop
    case 1 => Mvr
    case 2 => Mvr
    case 3 => Off
    case 4 => Mvl
    case 5 => Del
    case 6 => Swi
    case 7 => Mvr
    case 8 => Mvr
    case 9 => Swi
    case 10 => Ina
    case 11 => Swi
    case 12 => Del
    case 13 => Swi
    case 14 => Mvr
    case 15 => Swi
    case 16 => Cut
    case _ => Ina
  }

  /** The states after each command; `Looped0` is the binding at the first unit. */
  const Looped0: State := State([Unit(A, Null, To(1), Null), Unit(C, To(0), To(2), Null), Unit(C, To(1), Null, Null)], [0, 1, 2], To(0), false, false)
  const Looped1: State := State([Unit(A, Null, To(1), To(3)), Unit(C, To(0), To(2), Null), Unit(C, To(1), Null, Null), Unit(T, Null, Null, To(0))], [0, 1, 2, 3], To(0), true, false)
  const Looped2: State := State([Unit(A, Null, To(1), To(3)), Unit(C, To(0), To(2), To(4)), Unit(C, To(1), Null, Null), Unit(T, To(4), Null, To(0)), Unit(G, Null, To(3), To(1))], [0, 1, 2, 3, 4], To(1), true, false)
  const Looped3: State := State([Unit(A, Null, To(1), To(3)), Unit(C, To(0), To(2), To(4)), Unit(C, To(1), Null, To(5)), Unit(T, To(4), Null, To(0)), Unit(G, To(5), To(3), To(1)), Unit(G, Null, To(4), To(2))], [0, 1, 2, 3, 4, 5], To(2), true, false)
  const Looped4: State := State([Unit(A, Null, To(1), To(3)), Unit(C, To(0), To(2), To(4)), Unit(C, To(1), Null, To(5)), Unit(T, To(4), Null, To(0)), Unit(G, To(5), To(3), To(1)), Unit(G, Null, To(4), To(2))], [0, 1, 2, 3, 4, 5], To(2), false, false)
  const Looped5: State := State([Unit(A, Null, To(1), To(3)), Unit(C, To(0), To(2), To(4)), Unit(C, To(1), Null, To(5)), Unit(T, To(4), Null, To(0)), Unit(G, To(5), To(3), To(1)), Unit(G, Null, To(4), To(2))], [0, 1, 2, 3, 4, 5], To(1), false, false)
  const Looped6: State := State([Unit(A, Null, Null, To(3)), Unit(C, To(0), To(2), To(4)), Unit(C, Null, Null, To(5)), Unit(T, To(4), Null, To(0)), Unit(G, To(5), To(3), Null), Unit(G, Null, To(4), To(2))], [0, 2, 3, 4, 5], To(2), false, false)
  const Looped7: State := State([Unit(A, Null, Null, To(3)), Unit(C, To(0), To(2), To(4)), Unit(C, Null, Null, To(5)), Unit(T, To(4), Null, To(0)), Unit(G, To(5), To(3), Null), Unit(G, Null, To(4), To(2))], [0, 2, 3, 4, 5], To(5), false, false)
  const Looped8: State := State([Unit(A, Null, Null, To(3)), Unit(C, To(0), To(2), To(4)), Unit(C, Null, Null, To(5)), Unit(T, To(4), Null, To(0)), Unit(G, To(5), To(3), Null), Unit(G, Null, To(4), To(2))], [0, 2, 3, 4, 5], To(4), false, false)
  const Looped9: State := State([Unit(A, Null, Null, To(3)), Unit(C, To(0), To(2), To(4)), Unit(C, Null, Null, To(5)), Unit(T, To(4), Null, To(0)), Unit(G, To(5), To(3), Null), Unit(G, Null, To(4), To(2))], [0, 2, 3, 4, 5], To(3), false, false)
  const Looped10: State := State([Unit(A, Null, Null, To(3)), Unit(C, To(0), To(2), To(4)), Unit(C, Null, Null, To(5)), Unit(T, To(4), Null, To(0)), Unit(G, To(5), To(3), Null), Unit(G, Null, To(4), To(2))], [0, 2, 3, 4, 5], To(0), false, false)
  const Looped11: State := State([Unit(A, Null, To(6), To(3)), Unit(C, To(0), To(2), To(4)), Unit(C, Null, Null, To(5)), Unit(T, To(4), Null, To(0)), Unit(G, To(5), To(3), Null), Unit(G, Null, To(4), To(2)), Unit(A, To(0), Null, To(4))], [0, 2, 3, 4, 5, 6], To(6), false, false)
  const Looped12: State := State([Unit(A, Null, To(6), To(3)), Unit(C, To(0), To(2), To(4)), Unit(C, Null, Null, To(5)), Unit(T, To(4), Null, To(0)), Unit(G, To(5), To(3), Null), Unit(G, Null, To(4), To(2)), Unit(A, To(0), Null, To(4))], [0, 2, 3, 4, 5, 6], To(4), false, false)
  const Looped13: State := State([Unit(A, Null, To(6), To(3)), Unit(C, To(0), To(2), To(4)), Unit(C, Null, Null, To(5)), Unit(T, Null, Null, To(0)), Unit(G, To(5), To(3), Null), Unit(G, Null, Null, To(2)), Unit(A, To(0), Null, To(4))], [0, 2, 3, 5, 6], To(3), false, false)
  const Looped14: State := State([Unit(A, Null, To(6), To(3)), Unit(C, To(0), To(2), To(4)), Unit(C, Null, Null, To(5)), Unit(T, Null, Null, To(0)), Unit(G, To(5), To(3), Null), Unit(G, Null, Null, To(2)), Unit(A, To(0), Null, To(4))], [0, 2, 3, 5, 6], To(0), false, false)
  const Looped15: State := State([Unit(A, Null, To(6), To(3)), Unit(C, To(0), To(2), To(4)), Unit(C, Null, Null, To(5)), Unit(T, Null, Null, To(0)), Unit(G, To(5), To(3), Null), Unit(G, Null, Null, To(2)), Unit(A, To(0), Null, To(4))], [0, 2, 3, 5, 6], To(6), false, false)
  const Looped16: State := State([Unit(A, Null, To(6), To(3)), Unit(C, To(0), To(2), To(4)), Unit(C, Null, Null, To(5)), Unit(T, Null, Null, To(0)), Unit(G, To(5), To(3), Null), Unit(G, Null, Null, To(2)), Unit(A, To(0), Null, To(4))], [0, 2, 3, 5, 6], To(4), false, false)
  const Looped17: State := State([Unit(A, Null, To(6), To(3)), Unit(C, To(0), To(2), To(4)), Unit(C, Null, Null, To(5)), Unit(T, Null, Null, To(0)), Unit(G, To(5), Null, Null), Unit(G, Null, Null, To(2)), Unit(A, To(0), Null, To(4))], [0, 2, 3, 5, 6], To(4), false, false)
  const Looped18: State := State([Unit(A, Null, To(6), To(3)), Unit(C, To(0), To(2), To(4)), Unit(C, Null, Null, To(5)), Unit(T, Null, Null, To(0)), Unit(G, To(5), To(7), Null), Unit(G, Null, Null, To(2)), Unit(A, To(0), Null, To(4)), Unit(A, To(4), Null, Null)], [0, 2, 3, 5, 6, 7], To(7), false, false)

  /** One command of the run, with the layout that the step leaves. */
  lemma LoopingStep(m: State, k: nat, lay: Layout, m': State) returns (lay': Layout)
    requires k < 18 && Sound(m, lay) && !m.finished && Execute(m, LoopingCommand(k), lay) == m'
    ensures Sound(m', lay')
    ensures ExecuteAll(m, Looping.commands[k..], lay) == ExecuteAll(m', Looping.commands[k + 1..], lay')
  {
    var cmds := Looping.commands[k..];
    assert cmds[0] == LoopingCommand(k) && cmds[1..] == Looping.commands[k + 1..];
    ExecuteSound(m, cmds[0], lay);
    lay' := ExecuteLayout(m, cmds[0], lay);
  }

  /** Each command of the program turns one state into the next, and the
      remaining commands take it to the last. */
  lemma LoopingFrom0(m: State, lay: Layout)
    requires m == Looped0 && Sound(m, lay)
    ensures ExecuteAll(m, Looping.commands[0..], lay) == Looped18
  {
    assert Execute(m, Cop, lay) == Looped1 by { assert TurnCopyOn(m) == Looped1; }
    var lay' := LoopingStep(m, 0, lay, Looped1);
    LoopingFrom1(Looped1, lay');
  }

  lemma LoopingFrom1(m: State, lay: Layout)
    requires m == Looped1 && Sound(m, lay)
    ensures ExecuteAll(m, Looping.commands[1..], lay) == Looped18
  {
    assert Execute(m, Mvr, lay) == Looped2 by { assert MoveRight(m) == Looped2; }
    var lay' := LoopingStep(m, 1, lay, Looped2);
    LoopingFrom2(Looped2, lay');
  }

  lemma LoopingFrom2(m: State, lay: Layout)
    requires m == Looped2 && Sound(m, lay)
    ensures ExecuteAll(m, Looping.commands[2..], lay) == Looped18
  {
    assert Execute(m, Mvr, lay) == Looped3 by { assert MoveRight(m) == Looped3; }
    var lay' := LoopingStep(m, 2, lay, Looped3);
    LoopingFrom3(Looped3, lay');
  }

  lemma LoopingFrom3(m: State, lay: Layout)
    requires m == Looped3 && Sound(m, lay)
    ensures ExecuteAll(m, Looping.commands[3..], lay) == Looped18
  {
    assert Execute(m, Off, lay) == Looped4 by { assert TurnCopyOff(m) == Looped4; }
    var lay' := LoopingStep(m, 3, lay, Looped4);
    LoopingFrom4(Looped4, lay');
  }

  lemma LoopingFrom4(m: State, lay: Layout)
    requires m == Looped4 && Sound(m, lay)
    ensures ExecuteAll(m, Looping.commands[4..], lay) == Looped18
  {
    assert Execute(m, Mvl, lay) == Looped5 by { assert MoveLeft(m) == Looped5; }
    var lay' := LoopingStep(m, 4, lay, Looped5);
    LoopingFrom5(Looped5, lay');
  }

  lemma LoopingFrom5(m: State, lay: Layout)
    requires m == Looped5 && Sound(m, lay)
    ensures ExecuteAll(m, Looping.commands[5..], lay) == Looped18
  {
    LoopingDeleted5(m, lay);
    var lay' := LoopingStep(m, 5, lay, Looped6);
    LoopingFrom6(Looped6, lay');
  }

  lemma LoopingFrom6(m: State, lay: Layout)
    requires m == Looped6 && Sound(m, lay)
    ensures ExecuteAll(m, Looping.commands[6..], lay) == Looped18
  {
    assert Execute(m, Swi, lay) == Looped7 by { assert Switch(m) == Looped7; }
    var lay' := LoopingStep(m, 6, lay, Looped7);
    LoopingFrom7(Looped7, lay');
  }

  lemma LoopingFrom7(m: State, lay: Layout)
    requires m == Looped7 && Sound(m, lay)
    ensures ExecuteAll(m, Looping.commands[7..], lay) == Looped18
  {
    assert Execute(m, Mvr, lay) == Looped8 by { assert MoveRight(m) == Looped8; }
    var lay' := LoopingStep(m, 7, lay, Looped8);
    LoopingFrom8(Looped8, lay');
  }

  lemma LoopingFrom8(m: State, lay: Layout)
    requires m == Looped8 && Sound(m, lay)
    ensures ExecuteAll(m, Looping.commands[8..], lay) == Looped18
  {
    assert Execute(m, Mvr, lay) == Looped9 by { assert MoveRight(m) == Looped9; }
    var lay' := LoopingStep(m, 8, lay, Looped9);
    LoopingFrom9(Looped9, lay');
  }

  lemma LoopingFrom9(m: State, lay: Layout)
    requires m == Looped9 && Sound(m, lay)
    ensures ExecuteAll(m, Looping.commands[9..], lay) == Looped18
  {
    assert Execute(m, Swi, lay) == Looped10 by { assert Switch(m) == Looped10; }
    var lay' := LoopingStep(m, 9, lay, Looped10);
    LoopingFrom10(Looped10, lay');
  }

  lemma LoopingFrom10(m: State, lay: Layout)
    requires m == Looped10 && Sound(m, lay)
    ensures ExecuteAll(m, Looping.commands[10..], lay) == Looped18
  {
    assert Execute(m, Ina, lay) == Looped11 by { assert Insert(m, A) == Looped11; }
    var lay' := LoopingStep(m, 10, lay, Looped11);
    LoopingFrom11(Looped11, lay');
  }

  lemma LoopingFrom11(m: State, lay: Layout)
    requires m == Looped11 && Sound(m, lay)
    ensures ExecuteAll(m, Looping.commands[11..], lay) == Looped18
  {
    assert Execute(m, Swi, lay) == Looped12 by { assert Switch(m) == Looped12; }
    var lay' := LoopingStep(m, 11, lay, Looped12);
    LoopingFrom12(Looped12, lay');
  }

  lemma LoopingFrom12(m: State, lay: Layout)
    requires m == Looped12 && Sound(m, lay)
    ensures ExecuteAll(m, Looping.commands[12..], lay) == Looped18
  {
    LoopingDeleted12(m, lay);
    var lay' := LoopingStep(m, 12, lay, Looped13);
    LoopingFrom13(Looped13, lay');
  }

  lemma LoopingFrom13(m: State, lay: Layout)
    requires m == Looped13 && Sound(m, lay)
    ensures ExecuteAll(m, Looping.commands[13..], lay) == Looped18
  {
    assert Execute(m, Swi, lay) == Looped14 by { assert Switch(m) == Looped14; }
    var lay' := LoopingStep(m, 13, lay, Looped14);
    LoopingFrom14(Looped14, lay');
  }

  lemma LoopingFrom14(m: State, lay: Layout)
    requires m == Looped14 && Sound(m, lay)
    ensures ExecuteAll(m, Looping.commands[14..], lay) == Looped18
  {
    assert Execute(m, Mvr, lay) == Looped15 by { assert MoveRight(m) == Looped15; }
    var lay' := LoopingStep(m, 14, lay, Looped15);
    LoopingFrom15(Looped15, lay');
  }

  lemma LoopingFrom15(m: State, lay: Layout)
    requires m == Looped15 && Sound(m, lay)
    ensures ExecuteAll(m, Looping.commands[15..], lay) == Looped18
  {
    assert Execute(m, Swi, lay) == Looped16 by { assert Switch(m) == Looped16; }
    var lay' := LoopingStep(m, 15, lay, Looped16);
    LoopingFrom16(Looped16, lay');
  }

  lemma LoopingFrom16(m: State, lay: Layout)
    requires m == Looped16 && Sound(m, lay)
    ensures ExecuteAll(m, Looping.commands[16..], lay) == Looped18
  {
    assert Execute(m, Cut, lay) == Looped17 by { assert Engine.Cut(m) == Looped17; }
    var lay' := LoopingStep(m, 16, lay, Looped17);
    LoopingFrom17(Looped17, lay');
  }

  lemma LoopingFrom17(m: State, lay: Layout)
    requires m == Looped17 && Sound(m, lay)
    ensures ExecuteAll(m, Looping.commands[17..], lay) == Looped18
  {
    assert Execute(m, Ina, lay) == Looped18 by { assert Insert(m, A) == Looped18; }
    var lay' := LoopingStep(m, 17, lay, Looped18);
  }

  /** The two deletions, unit 1 in the sixth command and unit 4 in the thirteenth. */
  lemma LoopingDeleted5(m: State, lay: Layout)
    requires m == Looped5 && Sound(m, lay)
    ensures Execute(m, LoopingCommand(5), lay) == Looped6
  {
    assert LoopingCommand(5) == Del;
    LoopingDeletes5(m);
  }

  lemma LoopingDeletes5(m: State)
    requires m == Looped5 && Wired(m)
    ensures Delete(m) == Looped6
  {
    LoopingUnlinked5(m.units);
    LoopingUnregistered5(m.operated);
  }

  lemma LoopingUnregistered5(ops: seq<Handle>)
    requires ops == [0, 1, 2, 3, 4, 5]
    ensures RemoveFirst(ops, 1) == [0, 2, 3, 4, 5]
  {
    RemoveFirstAt(ops, 1, 1);
    assert ops[..1] + ops[2..] == [0, 2, 3, 4, 5];
  }

  lemma LoopingUnlinked5(us: seq<Unit>)
    requires us == Looped5.units && Closed(us)
    ensures Unlink(us, 1) == Looped6.units
  {
  }

  lemma LoopingDeleted12(m: State, lay: Layout)
    requires m == Looped12 && Sound(m, lay)
    ensures Execute(m, LoopingCommand(12), lay) == Looped13
  {
    assert LoopingCommand(12) == Del;
    LoopingDeletes12(m);
  }

  lemma LoopingDeletes12(m: State)
    requires m == Looped12 && Wired(m)
    ensures Delete(m) == Looped13
  {
    LoopingUnlinked12(m.units);
    LoopingUnregistered12(m.operated);
  }

  lemma LoopingUnregistered12(ops: seq<Handle>)
    requires ops == [0, 2, 3, 4, 5, 6]
    ensures RemoveFirst(ops, 4) == [0, 2, 3, 5, 6]
  {
    RemoveFirstAt(ops, 4, 3);
    assert ops[..3] + ops[4..] == [0, 2, 3, 5, 6];
  }

  lemma LoopingUnlinked12(us: seq<Unit>)
    requires us == Looped12.units && Closed(us)
    ensures Unlink(us, 4) == Looped13.units
  {
  }

  /** The first walk reads units 0 and 6. */
  lemma LoopingFirstWalk(ops: seq<Handle>, lay: Layout)
    requires ops == [0, 2, 3, 5, 6, 7] && Oriented(Looped18.units, lay)
    ensures Collect(Looped18.units, To(0), ops, [], lay) == ([A, A], [2, 3, 5, 7])
  {
    var us := Looped18.units;
    CollectTwo(us, 0, ops, lay);
    assert us[0].right == To(6) && us[0].base == A && us[6].base == A;
    assert RemoveFirst(ops, 0) == ops[1..];
    RemoveFirstAt(ops[1..], 6, 3);
    assert ops[1..][..3] + ops[1..][4..] == [2, 3, 5, 7];
  }

  /** The first four passes of the harvest read AA, C, T and G. */
  lemma LoopingPass1(lay: Layout)
    requires Oriented(Looped18.units, lay) && Registered(Looped18.units, [0, 2, 3, 5, 6, 7])
    ensures Registered(Looped18.units, [2, 3, 5, 7])
    ensures Harvest(Looped18.units, [0, 2, 3, 5, 6, 7], [], lay) == Harvest(Looped18.units, [2, 3, 5, 7], [[A, A]], lay)
  {
    var us := Looped18.units;
    assert LeftEnd(us, 0, lay) == 0;
    LoopingFirstWalk([0, 2, 3, 5, 6, 7], lay);
    assert [] + [[A, A]] == [[A, A]];
    HarvestPass(us, [0, 2, 3, 5, 6, 7], [], lay, [A, A], [2, 3, 5, 7]);
  }

  lemma LoopingPass2(lay: Layout)
    requires Oriented(Looped18.units, lay) && Registered(Looped18.units, [2, 3, 5, 7])
    ensures Registered(Looped18.units, [3, 5, 7])
    ensures Harvest(Looped18.units, [2, 3, 5, 7], [[A, A]], lay) == Harvest(Looped18.units, [3, 5, 7], [[A, A], [C]], lay)
  {
    var us := Looped18.units;
    assert LeftEnd(us, 2, lay) == 2;
    CollectOne(us, 2, [2, 3, 5, 7], lay);
    assert us[2].base == C && RemoveFirst([2, 3, 5, 7], 2) == [3, 5, 7];
    assert [[A, A]] + [[C]] == [[A, A], [C]];
    HarvestPass(us, [2, 3, 5, 7], [[A, A]], lay, [C], [3, 5, 7]);
  }

  lemma LoopingPass3(lay: Layout)
    requires Oriented(Looped18.units, lay) && Registered(Looped18.units, [3, 5, 7])
    ensures Registered(Looped18.units, [5, 7])
    ensures Harvest(Looped18.units, [3, 5, 7], [[A, A], [C]], lay) == Harvest(Looped18.units, [5, 7], [[A, A], [C], [T]], lay)
  {
    var us := Looped18.units;
    assert LeftEnd(us, 3, lay) == 3;
    CollectOne(us, 3, [3, 5, 7], lay);
    assert us[3].base == T && RemoveFirst([3, 5, 7], 3) == [5, 7];
    assert [[A, A], [C]] + [[T]] == [[A, A], [C], [T]];
    HarvestPass(us, [3, 5, 7], [[A, A], [C]], lay, [T], [5, 7]);
  }

  lemma LoopingPass4(lay: Layout)
    requires Oriented(Looped18.units, lay) && Registered(Looped18.units, [5, 7])
    ensures Registered(Looped18.units, [7])
    ensures Harvest(Looped18.units, [5, 7], [[A, A], [C], [T]], lay) == Harvest(Looped18.units, [7], [[A, A], [C], [T], [G]], lay)
  {
    var us := Looped18.units;
    assert LeftEnd(us, 5, lay) == 5;
    CollectOne(us, 5, [5, 7], lay);
    assert us[5].base == G && RemoveFirst([5, 7], 5) == [7];
    assert [[A, A], [C], [T]] + [[G]] == [[A, A], [C], [T], [G]];
    HarvestPass(us, [5, 7], [[A, A], [C], [T]], lay, [G], [7]);
  }

  /** Unit 7 hangs off the unregistered unit 4, whose stale left pointer leads
      to unit 5, which the fourth pass has already taken: walking left from 7
      ends at 5, and the walk right from 5 never reaches 7, so the fifth pass
      removes nothing. */
  lemma LoopingHarvest(lay: Layout)
    requires Oriented(Looped18.units, lay) && Registered(Looped18.units, Looped18.operated)
    ensures Harvest(Looped18.units, Looped18.operated, [], lay) == None
  {
    var us := Looped18.units;
    LoopingPass1(lay);
    LoopingPass2(lay);
    LoopingPass3(lay);
    LoopingPass4(lay);
    assert LeftEnd(us, 4, lay) == 5;
    assert LeftEnd(us, 7, lay) == 5;
    CollectOne(us, 5, [7], lay);
    HarvestPass(us, [7], [[A, A], [C], [T], [G]], lay, [G], [7]);
  }

  /** Loading ACC gives three units, and only the first holds A. */
  lemma LoopingLoads()
    ensures Loaded([A, C, C], Null).(bound := To(0)) == Looped0
    ensures Sites(A, [A, C, C]) == [0]
  {
    LoopingUnits([A, C, C]);
    assert Handles(0, 3) == [0, 1, 2];
    LoopingCandidates([0, 1, 2]);
  }

  lemma LoopingUnits(s: Strand)
    requires s == [A, C, C]
    ensures LoadUnits(s, 0) == Looped0.units
  {
    assert s[..2] == [A, C] && [A, C][..1] == [A] && [A][..0] == [];
    assert LoadUnits([A], 0) == [Unit(A, Null, Null, Null)];
    assert LoadUnits([A, C], 0) == [Unit(A, Null, To(1), Null), Unit(C, To(0), Null, Null)];
  }

  lemma LoopingCandidates(ops: seq<Handle>)
    requires ops == [0, 1, 2]
    ensures Registered(Looped0.units, ops) && Candidates(Looped0.units, ops, A) == [0]
  {
    assert ops[..2] == [0, 1] && [0, 1][..1] == [0] && [0][..0] == [];
    assert Candidates(Looped0.units, [0], A) == [0];
    assert Candidates(Looped0.units, [0, 1], A) == [0];
  }

  /** The enzyme binds unit 0 whatever the selection mode, and its commands
      leave the last of the states above. */
  lemma LoopingExecuted(mode: Mode, n: int)
    ensures Drawable(mode, |Sites(A, [A, C, C])|, 0)
    ensures Executed(Looping, [A, C, C], mode, n, 0) == Success(Looped18)
  {
    LoopingLoads();
    LoadOriented([A, C, C]);
    var lay := LineLayout(3);
    assert Sound(Looped0, lay);
    assert Looping.commands[0..] == Looping.commands;
    LoopingFrom0(Looped0, lay);
  }

  /** On ACC the program leaves a registered unit whose chain never unregisters
      it, so the harvest would loop forever. */
  lemma LoopingNeverHarvests(mode: Mode, n: int)
    ensures Drawable(mode, |Sites(A, [A, C, C])|, 0)
    ensures Run(Looping, [A, C, C], mode, n, 0) == None
  {
    LoopingExecuted(mode, n);
    LoopingHarvest(ExecutedLayout(Looping, [A, C, C], mode, n, 0));
  }

  // ---------------------------------------------------------------------------
  // The run with a harvest that always ends

  /** A run whose harvest keeps both walks on registered units. */
  function GuardedRun(p: Program, s: Strand, mode: Mode, n: int, draw: nat): (r: Result<seq<Strand>, string>)
    requires Drawable(mode, |Sites(p.initialBinding, s)|, draw)
  {
    match Executed(p, s, mode, n, draw)
    case Failure(e) => Failure(e)
    case Success(m) => Success(GuardedHarvest(m.units, m.operated, [], ExecutedLayout(p, s, mode, n, draw)))
  }

  /** The guarded run fails only when the selection does, and otherwise its
      strands hold the base of every registered unit exactly once. */
  lemma GuardedRunLossless(p: Program, s: Strand, mode: Mode, n: int, draw: nat)
    requires Drawable(mode, |Sites(p.initialBinding, s)|, draw)
    ensures var x := Executed(p, s, mode, n, draw);
      var r := GuardedRun(p, s, mode, n, draw);
      && (x.Failure? ==> r == Failure(x.error))
      && (x.Success? ==>
        && r.Success?
        && multiset(Flatten(r.value)) == multiset(Bases(x.value.units, x.value.operated))
        && |Flatten(r.value)| == |x.value.operated|
        && forall i :: 0 <= i < |r.value| ==> r.value[i] != [])
  {
    var x := Executed(p, s, mode, n, draw);
    if x.Success? {
      var lay := ExecutedLayout(p, s, mode, n, draw);
      GuardedHarvestLossless(x.value.units, x.value.operated, [], lay);
      GuardedHarvestExtends(x.value.units, x.value.operated, [], lay);
    }
  }

  /** Where the engine's harvest is sound, the guarded run is the engine's run. */
  lemma GuardedRunAgrees(p: Program, s: Strand, mode: Mode, n: int, draw: nat)
    requires Drawable(mode, |Sites(p.initialBinding, s)|, draw)
    requires Executed(p, s, mode, n, draw).Success?
    requires var m := Executed(p, s, mode, n, draw).value; Harvestable(m.units, m.operated)
    ensures Run(p, s, mode, n, draw) == Some(GuardedRun(p, s, mode, n, draw))
  {
    var m := Executed(p, s, mode, n, draw).value;
    GuardedAgrees(m.units, m.operated, [], ExecutedLayout(p, s, mode, n, draw));
  }

  /** On the looping example the guarded run ends, with the six registered
      units' bases: A, C, T, G, A and A. */
  lemma LoopingGuarded(mode: Mode, n: int)
    ensures Drawable(mode, |Sites(A, [A, C, C])|, 0)
    ensures var r := GuardedRun(Looping, [A, C, C], mode, n, 0);
      r.Success? && multiset(Flatten(r.value)) == multiset{A, A, A, C, G, T}
  {
    LoopingExecuted(mode, n);
    GuardedRunLossless(Looping, [A, C, C], mode, n, 0);
    LoopingBases();
  }

  lemma LoopingBases()
    ensures Registered(Looped18.units, Looped18.operated)
    ensures multiset(Bases(Looped18.units, Looped18.operated)) == multiset{A, A, A, C, G, T}
  {
    var us := Looped18.units;
    assert Bases(us, [7]) == [A];
    assert Bases(us, [6, 7]) == [A, A];
    assert Bases(us, [5, 6, 7]) == [G, A, A];
    assert Bases(us, [3, 5, 6, 7]) == [T, G, A, A];
    assert Bases(us, [2, 3, 5, 6, 7]) == [C, T, G, A, A];
    assert Bases(us, Looped18.operated) == [A, C, T, G, A, A];
  }
}
