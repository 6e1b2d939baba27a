/** The enzyme as an object: its program is fixed at construction, and running
    it over a strand updates the arena of units, the registry of operated units,
    the bound unit and the two flags in place, instruction by instruction. Each
    method is proved to leave the state that the matching function of `Engine`
    describes. */
module Enzymes {
  import opened Wrappers
  import opened Nucleotides
  import opened AminoAcids
  import opened Arena
  import opened Selection
  import opened Engine
  import opened Harvesting
  import opened Programs
  import opened Runs

  class Enzyme {
    const name: string
    const initialBinding: Nucleotide
    const commands: seq<AminoAcid>

    var isCopyMode: bool
    var finished: bool
    var boundBase: Link
    /** Every unit allocated since the arena was last cleared. */
    var units: seq<Unit>
    var operatedUnits: seq<Handle>
    /** Where each unit sits on the double strand; it only justifies termination. */
    ghost var layout: Layout

    function Current(): State
      reads this
    {
      State(units, operatedUnits, boundBase, isCopyMode, finished)
    }

    /** The invariant of a run in progress: between a successful binding and the
        harvest the enzyme is bound, the arena is closed, and every pointer agrees
        with the layout. It does not hold for a fresh, cleaned or loaded enzyme,
        which is not bound yet. */
    ghost predicate Running()
      reads this
    {
      Sound(Current(), layout)
    }

    constructor(initialBinding: Nucleotide, commands: seq<AminoAcid>)
      ensures this.initialBinding == initialBinding && this.commands == commands
      ensures name == NameOf(Program(initialBinding, commands))
      ensures units == [] && operatedUnits == [] && boundBase.Null? && !isCopyMode && !finished
    {
      this.initialBinding := initialBinding;
      this.commands := commands;
      name := NameOf(Program(initialBinding, commands));
      units := [];
      operatedUnits := [];
      boundBase := Null;
      isCopyMode := false;
      finished := false;
      layout := Layout([], []);
    }

    /** Runs the program over `strand`; `draw` names what the random selection
        drew, if it was used. */
    method Process(strand: Strand, mode: Mode, n: int) returns (r: Result<seq<Strand>, string>, ghost draw: nat)
      requires Terminates(Program(initialBinding, commands), strand, mode, n)
      modifies this
      ensures Drawable(mode, |Sites(initialBinding, strand)|, draw)
      ensures Run(Program(initialBinding, commands), strand, mode, n, draw) == Some(r)
    {
      ghost var p := Program(initialBinding, commands);
      Clean();
      LoadStrand(strand);
      LoadOriented(strand);
      layout := LineLayout(|strand|);
      ghost var m0 := Current();
      assert m0 == Loaded(strand, boundBase);
      var found;
      found, draw := FindStart(mode, n);
      BindFailsAlike(p, strand, mode, n, draw, m0.bound);
      BindRunsAlike(p, strand, mode, n, draw, m0.bound);
      BindFinishesAlike(p, strand, mode, n, draw, m0.bound);
      BindLoadedSound(strand, initialBinding, mode, n, draw, m0.bound);
      assert Run(p, strand, mode, n, draw).Some?;
      if found.Failure? {
        r := Failure(found.error);
        return;
      }
      ghost var m1 := Current();
      ExecuteAllCommands();
      if m1.finished {
        assert Current() == m1 && layout == LineLayout(|strand|);
      }
      var strands := ConstructStrands();
      r := Success(strands);
    }

    /** Empties the registry and clears both flags. The units of an earlier run
        are unreachable from here on, so the arena starts empty too; the bound
        unit is left as it was. */
    method Clean()
      modifies this
      ensures units == [] && operatedUnits == [] && !isCopyMode && !finished
      ensures boundBase == old(boundBase) && layout == old(layout)
    {
      units := [];
      operatedUnits := [];
      isCopyMode := false;
      finished := false;
    }

    /** Appends one unit per base, each linked to the one before it, and registers them. */
    method LoadStrand(strand: Strand)
      modifies this
      ensures units == old(units) + LoadUnits(strand, |old(units)|)
      ensures operatedUnits == old(operatedUnits) + Handles(|old(units)|, |strand|)
      ensures boundBase == old(boundBase) && isCopyMode == old(isCopyMode) && finished == old(finished)
      ensures layout == old(layout)
    {
      ghost var o := |units|;
      var unit: Link := Null;
      var i := 0;
      while i < |strand|
        invariant 0 <= i <= |strand|
        invariant units == old(units) + LoadUnits(strand[..i], o)
        invariant operatedUnits == old(operatedUnits) + Handles(o, i)
        invariant unit == if i == 0 then Null else To(o + i - 1)
        invariant boundBase == old(boundBase) && isCopyMode == old(isCopyMode) && finished == old(finished)
        invariant layout == old(layout)
      {
        var newUnit := |units|;
        units := units + [Fresh];
        if unit.To? {
          units := SetRight(units, unit.h, To(newUnit));
        }
        units := SetLeft(units, newUnit, unit);
        units := SetBase(units, newUnit, strand[i]);
        unit := To(newUnit);
        operatedUnits := operatedUnits + [newUnit];
        assert strand[..i + 1][..i] == strand[..i];
        i := i + 1;
      }
      assert strand[..|strand|] == strand;
    }

    /** Binds to a registered unit carrying the initial-binding base, or
        finishes when there is none. The selection's error is returned. */
    method FindStart(mode: Mode, n: int) returns (r: Result<(), string>, ghost draw: nat)
      requires Registered(units, operatedUnits)
      modifies this
      ensures Drawable(mode, |Candidates(old(units), old(operatedUnits), initialBinding)|, draw)
      ensures match Bind(old(Current()), initialBinding, mode, n, draw)
        case Success(m) => r.Success? && Current() == m
        case Failure(e) => r == Failure(e) && Current() == old(Current())
      ensures layout == old(layout)
    {
      var acceptable := Candidates(units, operatedUnits, initialBinding);
      draw := 0;
      r := Success(());
      if acceptable == [] {
        finished := true;
        return;
      }
      if |acceptable| == 1 {
        boundBase := To(acceptable[0]);
      } else {
        var picked;
        picked, draw := Select(mode, n, acceptable);
        match picked
        case Success(h) => boundBase := To(h);
        case Failure(e) => r := Failure(e);
      }
    }

    /** Executes the commands in order until one leaves the enzyme finished. */
    method ExecuteAllCommands()
      requires Oriented(units, layout) && Registered(units, operatedUnits) && (!finished ==> Running())
      modifies this
      ensures Current() == Perform(old(Current()), commands, old(layout))
      ensures layout == PerformLayout(old(Current()), commands, old(layout))
      ensures Oriented(units, layout) && Registered(units, operatedUnits)
    {
      var i := 0;
      while i < |commands|
        invariant 0 <= i <= |commands|
        invariant Oriented(units, layout) && Registered(units, operatedUnits) && (!finished ==> Running())
        invariant Perform(Current(), commands[i..], layout) == Perform(old(Current()), commands, old(layout))
        invariant PerformLayout(Current(), commands[i..], layout) == PerformLayout(old(Current()), commands, old(layout))
      {
        if finished {
          return;
        }
        assert commands[i..][0] == commands[i] && commands[i..][1..] == commands[i + 1..];
        ghost var m, lay := Current(), layout;
        ExecuteSound(m, commands[i], lay);
        ExecuteCommand(commands[i]);
        assert Perform(m, commands[i..], lay) == ExecuteAll(Current(), commands[i + 1..], layout);
        assert PerformLayout(m, commands[i..], lay) == ExecuteAllLayout(Current(), commands[i + 1..], layout);
        i := i + 1;
      }
    }

    /** Reads the chains back: take the first registered unit, walk to the left
        end of its chain, then walk right collecting bases and unregistering
        each unit visited. */
    method ConstructStrands() returns (r: seq<Strand>)
      requires Oriented(units, layout) && Registered(units, operatedUnits)
      requires Harvest(units, operatedUnits, [], layout).Some?
      modifies this
      ensures Some(r) == old(Harvest(units, operatedUnits, [], layout))
      ensures operatedUnits == []
      ensures units == old(units) && boundBase == old(boundBase) && layout == old(layout)
      ensures isCopyMode == old(isCopyMode) && finished == old(finished)
    {
      r := [];
      while operatedUnits != []
        invariant Registered(units, operatedUnits) && units == old(units) && layout == old(layout)
        invariant boundBase == old(boundBase) && isCopyMode == old(isCopyMode) && finished == old(finished)
        invariant Harvest(units, operatedUnits, r, layout) == old(Harvest(units, operatedUnits, [], layout))
        decreases |operatedUnits|
      {
        assert operatedUnits[0] in operatedUnits;
        ghost var ops0 := operatedUnits;
        var aUnit: Handle := operatedUnits[0];
        while units[aUnit].left.To?
          invariant units == old(units) && layout == old(layout) && operatedUnits == ops0
          invariant boundBase == old(boundBase) && isCopyMode == old(isCopyMode) && finished == old(finished)
          invariant aUnit < |units|
          invariant LeftEnd(units, aUnit, layout) == LeftEnd(units, ops0[0], layout)
          decreases Span(layout.place) + Rank(layout, aUnit)
        {
          assert Placed(units, layout, aUnit);
          RankWithinSpan(layout, units[aUnit].left.h);
          aUnit := units[aUnit].left.h;
        }
        var strand: Strand := [];
        var cursor: Link := To(aUnit);
        while cursor.To?
          invariant units == old(units) && layout == old(layout)
          invariant boundBase == old(boundBase) && isCopyMode == old(isCopyMode) && finished == old(finished)
          invariant LinkIn(cursor, |units|)
          invariant Collect(units, cursor, operatedUnits, strand, layout) == Collect(units, To(aUnit), ops0, [], layout)
          decreases Remaining(units, cursor, layout)
        {
          RightShrinks(units, cursor.h, layout);
          strand := strand + [units[cursor.h].base];
          operatedUnits := RemoveFirst(operatedUnits, cursor.h);
          cursor := units[cursor.h].right;
        }
        assert Registered(units, operatedUnits);
        r := r + [strand];
      }
    }

    /** The dispatch from amino acid to instruction. */
    method ExecuteCommand(command: AminoAcid)
      requires Running()
      modifies this
      ensures Running()
      ensures Current() == Execute(old(Current()), command, old(layout))
      ensures layout == ExecuteLayout(old(Current()), command, old(layout))
    {
      match command
      case Cut => Cut();
      case Del => Delete();
      case Swi => Switch();
      case Mvr => MoveRight();
      case Mvl => MoveLeft();
      case Cop => TurnCopyOn();
      case Off => TurnCopyOff();
      case Ina => Insert(A);
      case Inc => Insert(C);
      case Ing => Insert(G);
      case Int => Insert(T);
      case Rpy => Search(Rightward, Pyrimidine);
      case Rpu => Search(Rightward, Purine);
      case Lpy => Search(Leftward, Pyrimidine);
      case Lpu => Search(Leftward, Purine);
    }

    method MoveRight()
      requires Running()
      modifies this
      ensures Running()
      ensures Current() == Engine.MoveRight(old(Current()))
      ensures layout == MoveRightLayout(old(Current()), old(layout))
    {
      var right := units[boundBase.h].right;
      if right.Null? {
        finished := true;
        return;
      }
      boundBase := right;
      if isCopyMode {
        Copy();
      }
    }

    method MoveLeft()
      requires Running()
      modifies this
      ensures Running()
      ensures Current() == Engine.MoveLeft(old(Current()))
      ensures layout == MoveLeftLayout(old(Current()), old(layout))
    {
      var left := units[boundBase.h].left;
      if left.Null? {
        finished := true;
        return;
      }
      boundBase := left;
      if isCopyMode {
        Copy();
      }
    }

    method Insert(n: Nucleotide)
      requires Running()
      modifies this
      ensures Running()
      ensures Current() == Engine.Insert(old(Current()), n)
      ensures layout == InsertLayout(old(Current()), n, old(layout))
    {
      ghost var m0, lay0 := Current(), layout;
      var b := boundBase.h;
      if units[b].right.Null? {
        ExtendSound(m0, lay0);
        var r := |units|;
        FreshClosed(units);
        units := units + [Fresh];
        units := SetRight(units, b, To(r));
        units := SetLeft(units, r, To(b));
        var q := if units[b].comp.To? then units[units[b].comp.h].left else Null;
        units := SetComp(units, r, q);
        operatedUnits := operatedUnits + [r];
        layout := ExtendLayout(m0, lay0);
      }
      BaseOriented(units, layout, units[b].right.h, n);
      units := SetBase(units, units[b].right.h, n);
      MoveRight();
    }

    method Delete()
      requires Running()
      modifies this
      ensures Running()
      ensures Current() == Engine.Delete(old(Current()))
      ensures layout == DeleteLayout(old(Current()), old(layout))
    {
      var right := units[boundBase.h].right;
      Detach();
      if right.Null? {
        finished := true;
      } else {
        boundBase := right;
        if isCopyMode {
          Copy();
        }
      }
    }

    /** The first half of Delete: the bound unit is unlinked from its neighbours
        and its partner, and one registration of it is dropped. */
    method Detach()
      requires Running()
      modifies this
      ensures Running() && Current() == Engine.Detach(old(Current())) && layout == old(layout)
    {
      var b := boundBase.h;
      UnlinkOriented(units, layout, b);
      ghost var unlinked := Unlink(units, b);
      if units[b].left.To? {
        units := SetRight(units, units[b].left.h, Null);
      }
      if units[b].right.To? {
        units := SetLeft(units, units[b].right.h, Null);
      }
      if units[b].comp.To? {
        units := SetComp(units, units[b].comp.h, Null);
      }
      assert units == unlinked;
      operatedUnits := RemoveFirst(operatedUnits, b);
    }

    method Cut()
      requires Running()
      modifies this
      ensures Running()
      ensures Current() == Engine.Cut(old(Current())) && layout == old(layout)
    {
      CutSound(Current(), layout);
      var b := boundBase.h;
      if units[b].right.To? {
        units := SetLeft(units, units[b].right.h, Null);
        units := SetRight(units, b, Null);
      }
      if units[b].comp.To? && units[units[b].comp.h].left.To? {
        var c := units[b].comp.h;
        units := SetRight(units, units[c].left.h, Null);
        units := SetLeft(units, c, Null);
      }
    }

    method Switch()
      requires Running()
      modifies this
      ensures Running()
      ensures Current() == Engine.Switch(old(Current())) && layout == old(layout)
    {
      var comp := units[boundBase.h].comp;
      if comp.Null? {
        finished := true;
        return;
      }
      boundBase := comp;
    }

    /** One step along `w`: MoveRight or MoveLeft. */
    method Move(w: Way)
      requires Running()
      modifies this
      ensures Running()
      ensures Current() == Engine.Move(old(Current()), w)
      ensures layout == MoveLayout(old(Current()), w, old(layout))
    {
      if w.Rightward? {
        MoveRight();
      } else {
        MoveLeft();
      }
    }

    /** The four searches: move along `w` once, and on while the enzyme runs and
        the bound unit is not of kind `k`. */
    method Search(w: Way, k: Kind)
      requires Running()
      modifies this
      ensures Running()
      ensures Current() == Engine.Search(old(Current()), w, k, old(layout))
      ensures layout == SearchLayout(old(Current()), w, k, old(layout))
    {
      ghost var m0, lay0 := Current(), layout;
      MoveSound(m0, w, lay0);
      Move(w);
      while !finished && !Is(k, units[boundBase.h].base)
        invariant Running()
        invariant Passes(Current(), k) ==> Engine.Search(m0, w, k, lay0) == Engine.Search(Current(), w, k, layout)
        invariant Passes(Current(), k) ==> SearchLayout(m0, w, k, lay0) == SearchLayout(Current(), w, k, layout)
        invariant !Passes(Current(), k) ==> Engine.Search(m0, w, k, lay0) == Current()
        invariant !Passes(Current(), k) ==> SearchLayout(m0, w, k, lay0) == layout
        decreases !finished, Span(layout.place) - Ahead(w, Rank(layout, boundBase.h))
      {
        MoveSound(Current(), w, layout);
        RankWithinSpan(layout, boundBase.h);
        Move(w);
      }
    }

    method TurnCopyOn()
      requires Running()
      modifies this
      ensures Running()
      ensures Current() == Engine.TurnCopyOn(old(Current()))
      ensures layout == CopyLayout(old(Current()).(copyMode := true), old(layout))
    {
      isCopyMode := true;
      Copy();
    }

    method TurnCopyOff()
      requires Running()
      modifies this
      ensures Running()
      ensures Current() == Engine.TurnCopyOff(old(Current())) && layout == old(layout)
    {
      isCopyMode := false;
    }

    /** Gives the bound unit a partner if it has none, then writes the
        complement of the bound base into the partner. */
    method Copy()
      requires Running()
      modifies this
      ensures Running()
      ensures Current() == Engine.Copy(old(Current()))
      ensures layout == CopyLayout(old(Current()), old(layout))
    {
      ghost var m0, lay0 := Current(), layout;
      CopySound(m0, lay0);
      var b := boundBase.h;
      if units[b].comp.Null? {
        Attach();
      }
      var p := units[b].comp.h;
      units := SetBase(units, p, Complementary(units[b].base));
      layout := CopyLayout(m0, lay0);
    }

    /** The first half of Copy, for an unpaired bound unit: a new partner,
        linked both ways and spliced between the neighbours' partners. */
    method Attach()
      requires Wired(Current()) && units[boundBase.h].comp.Null?
      modifies this
      ensures Current() == Engine.Attach(old(Current())) && layout == old(layout)
    {
      var b := boundBase.h;
      var c := |units|;
      FreshClosed(units);
      units := units + [Fresh];
      units := SetComp(units, b, To(c));
      units := SetComp(units, c, To(b));
      var left := units[b].left;
      if left.To? && units[left.h].comp.To? {
        var x := units[left.h].comp.h;
        units := SetRight(units, c, To(x));
        units := SetLeft(units, x, To(c));
      }
      var right := units[b].right;
      if right.To? && units[right.h].comp.To? {
        var y := units[right.h].comp.h;
        units := SetLeft(units, c, To(y));
        units := SetRight(units, y, To(c));
      }
      operatedUnits := operatedUnits + [c];
    }
  }
}
