/** Translation of a strand into enzymes: the strand is read in non-overlapping
    two-base codons through a fixed table; punctuation separates enzymes, and each
    enzyme's binding base comes from the turns of its inner amino acids. */
module Ribosome {
  import opened Nucleotides
  import opened AminoAcids
  import opened Codons
  import opened Programs

  /** Packs two bases into one table index. */
  function BasesToIndex(firstBase: Nucleotide, secondBase: Nucleotide): (i: nat)
    ensures i < 16
    ensures i / 4 == firstBase && i % 4 == secondBase
  {
    4 * firstBase + secondBase
  }

  lemma BasesToIndexInjective(f1: Nucleotide, s1: Nucleotide, f2: Nucleotide, s2: Nucleotide)
    requires BasesToIndex(f1, s1) == BasesToIndex(f2, s2)
    ensures f1 == f2 && s1 == s2
  {
  }

  /** The genetic code, one cell per ordered pair of bases, in index order. */
  function Cell(i: nat): Codon
    requires i < 16
  {
    match i
    case 0 => Punctuation(A, A)
    case 1 => Instruction(A, C, Straight, Cut)
    case 2 => Instruction(A, G, Straight, Del)
    case 3 => Instruction(A, T, Right, Swi)
    case 4 => Instruction(C, A, Straight, Mvr)
    case 5 => Instruction(C, C, Straight, Mvl)
    case 6 => Instruction(C, G, Right, Cop)
    case 7 => Instruction(C, T, Left, Off)
    case 8 => Instruction(G, A, Straight, Ina)
    case 9 => Instruction(G, C, Right, Inc)
    case 10 => Instruction(G, G, Right, Ing)
    case 11 => Instruction(G, T, Left, Int)
    case 12 => Instruction(T, A, Right, Rpy)
    case 13 => Instruction(T, C, Left, Rpu)
    case 14 => Instruction(T, G, Left, Lpy)
    case _ => Instruction(T, T, Left, Lpu)
  }

  /** The cell for a codon. */
  function Lookup(firstBase: Nucleotide, secondBase: Nucleotide): Codon {
    Cell(BasesToIndex(firstBase, secondBase))
  }

  /** Each cell sits at the index of its own two bases. */
  lemma TableIndexed(f: Nucleotide, s: Nucleotide)
    ensures Lookup(f, s).firstBase == f && Lookup(f, s).secondBase == s
  {
    assert f == 0 || f == 1 || f == 2 || f == 3;
    assert s == 0 || s == 1 || s == 2 || s == 3;
  }

  /** AA is the one punctuation codon. */
  lemma OnlyPunctuationIsAA(f: Nucleotide, s: Nucleotide)
    ensures Lookup(f, s).Punctuation? <==> f == A && s == A
  {
    assert f == 0 || f == 1 || f == 2 || f == 3;
    assert s == 0 || s == 1 || s == 2 || s == 3;
  }

  /** The codon that codes for an amino acid. */
  function CodonFor(a: AminoAcid): (c: (Nucleotide, Nucleotide))
    ensures Lookup(c.0, c.1).Instruction? && Lookup(c.0, c.1).aminoAcid == a
  {
    match a
    case Cut => (A, C) case Del => (A, G) case Swi => (A, T)
    case Mvr => (C, A) case Mvl => (C, C) case Cop => (C, G) case Off => (C, T)
    case Ina => (G, A) case Inc => (G, C) case Ing => (G, G) case Int => (G, T)
    case Rpy => (T, A) case Rpu => (T, C) case Lpy => (T, G) case Lpu => (T, T)
  }

  /** Each of the fifteen amino acids has exactly one codon. */
  lemma CodonsCodeUniquely(f: Nucleotide, s: Nucleotide)
    requires Lookup(f, s).Instruction?
    ensures CodonFor(Lookup(f, s).aminoAcid) == (f, s)
  {
    assert f == 0 || f == 1 || f == 2 || f == 3;
    assert s == 0 || s == 1 || s == 2 || s == 3;
  }

  /** The base an enzyme binds to, from its total turn: the C# remainder, lifted into
      0..3 when negative, then looked up in A, C, T, G. */
  function DirectionToNucleotide(totalDirection: int): (n: Nucleotide)
    ensures n == [A, C, T, G][totalDirection % 4]
  {
    var r := TruncatedRemainder(totalDirection, 4);
    var r' := if r < 0 then r + 4 else r;
    [A, C, T, G][r']
  }

  /** `%` by 4 as C# computes it: the sign follows the dividend. */
  function TruncatedRemainder(a: int, b: int): (r: int)
    requires b == 4
    ensures -4 < r < 4
    ensures (a - r) % 4 == 0
    ensures a >= 0 ==> r >= 0
    ensures a < 0 ==> r <= 0
  {
    if a >= 0 then a % 4 else -((-a) % 4)
  }

  lemma DirectionPeriodic(t: int)
    ensures DirectionToNucleotide(t + 4) == DirectionToNucleotide(t)
  {
  }

  lemma DirectionTable()
    ensures DirectionToNucleotide(0) == A && DirectionToNucleotide(1) == C
    ensures DirectionToNucleotide(2) == T && DirectionToNucleotide(3) == G
    ensures DirectionToNucleotide(-1) == G
  {
  }

  // ---------------------------------------------------------------------------
  // Reference definition of translation

  /** The codons of a strand: pairs at 0, 2, 4, ...; a trailing single base is ignored. */
  function CodonsOf(strand: Strand): (cs: seq<Codon>)
    ensures 2 * |cs| <= |strand| < 2 * |cs| + 2
    decreases |strand|
  {
    if |strand| < 2 then [] else [Lookup(strand[0], strand[1])] + CodonsOf(strand[2..])
  }

  lemma {:induction false} CodonsOfAt(strand: Strand, i: nat)
    requires 2 * i + 1 < |strand|
    ensures CodonsOf(strand)[i] == Lookup(strand[2 * i], strand[2 * i + 1])
    decreases |strand|
  {
    if i > 0 {
      CodonsOfAt(strand[2..], i - 1);
    }
  }

  lemma CodonsOfFrom(strand: Strand, i: nat)
    requires i + 1 < |strand|
    ensures CodonsOf(strand[i..]) == [Lookup(strand[i], strand[i + 1])] + CodonsOf(strand[i + 2..])
  {
    assert strand[i..][2..] == strand[i + 2..];
  }

  /** A run holds instruction codons only. */
  predicate Instructions(g: seq<Codon>) {
    forall j :: 0 <= j < |g| ==> g[j].Instruction?
  }

  predicate Runs(gs: seq<seq<Codon>>) {
    forall i :: 0 <= i < |gs| ==> Instructions(gs[i])
  }

  /** The runs of codons between punctuation marks (and the strand ends), in order;
      runs may be empty. A punctuation mark opens a new run, an instruction joins
      the last one. */
  function Segments(cs: seq<Codon>): (gs: seq<seq<Codon>>)
    ensures |gs| >= 1
    ensures Runs(gs)
  {
    if cs == [] then [[]]
    else
      var gs := Segments(cs[..|cs| - 1]);
      var c := cs[|cs| - 1];
      if c.Punctuation? then gs + [[]]
      else gs[..|gs| - 1] + [gs[|gs| - 1] + [c]]
  }

  /** The instruction codons of a sequence, in order. */
  function InstructionsOf(cs: seq<Codon>): (g: seq<Codon>)
    ensures Instructions(g)
  {
    if cs == [] then []
    else InstructionsOf(cs[..|cs| - 1]) + (if cs[|cs| - 1].Punctuation? then [] else [cs[|cs| - 1]])
  }

  function Concat(gs: seq<seq<Codon>>): seq<Codon> {
    if gs == [] then [] else Concat(gs[..|gs| - 1]) + gs[|gs| - 1]
  }

  function Punctuations(cs: seq<Codon>): nat {
    if cs == [] then 0 else Punctuations(cs[..|cs| - 1]) + (if cs[|cs| - 1].Punctuation? then 1 else 0)
  }

  lemma {:induction false} ConcatSnocLast(gs: seq<seq<Codon>>, g: seq<Codon>, c: Codon)
    ensures Concat(gs + [g + [c]]) == Concat(gs + [g]) + [c]
  {
    assert (gs + [g + [c]])[..|gs|] == gs;
    assert (gs + [g])[..|gs|] == gs;
  }

  /** Segmentation loses no instruction and adds none: the runs, joined, are the
      instruction codons in order, and there is one more run than punctuation marks. */
  lemma {:induction false} SegmentsPartition(cs: seq<Codon>)
    ensures Concat(Segments(cs)) == InstructionsOf(cs)
    ensures |Segments(cs)| == Punctuations(cs) + 1
  {
    if cs != [] {
      var init := cs[..|cs| - 1];
      var c := cs[|cs| - 1];
      SegmentsPartition(init);
      var gs := Segments(init);
      if c.Punctuation? {
        assert (gs + [[]])[..|gs|] == gs;
      } else {
        var n := |gs|;
        assert gs == gs[..n - 1] + [gs[n - 1]];
        ConcatSnocLast(gs[..n - 1], gs[n - 1], c);
      }
    }
  }

  function AminoAcidsOf(g: seq<Codon>): (r: seq<AminoAcid>)
    requires Instructions(g)
    ensures |r| == |g|
  {
    if g == [] then [] else AminoAcidsOf(g[..|g| - 1]) + [g[|g| - 1].aminoAcid]
  }

  lemma {:induction false} AminoAcidsOfAt(g: seq<Codon>, j: nat)
    requires Instructions(g)
    requires j < |g|
    ensures AminoAcidsOf(g)[j] == g[j].aminoAcid
  {
    if j < |g| - 1 {
      AminoAcidsOfAt(g[..|g| - 1], j);
    }
  }

  /** The total of the turns of a run, +1 per left and -1 per right. */
  function TurnSum(g: seq<Codon>): int
    requires Instructions(g)
  {
    if g == [] then 0 else TurnSum(g[..|g| - 1]) + Turn(g[|g| - 1].direction)
  }

  /** The turns of all amino acids but the first and the last. */
  function InnerTurn(g: seq<Codon>): (t: int)
    requires Instructions(g)
    ensures |g| <= 2 ==> t == 0
  {
    if |g| <= 2 then 0 else TurnSum(g[1..|g| - 1])
  }

  /** The enzyme one run of instruction codons folds into. */
  function ProgramOf(g: seq<Codon>): (p: Program)
    requires Instructions(g)
    ensures p.commands == AminoAcidsOf(g)
  {
    Program(DirectionToNucleotide(InnerTurn(g)), AminoAcidsOf(g))
  }

  /** One enzyme per non-empty run, in order. */
  function ProgramsOf(gs: seq<seq<Codon>>): (ps: seq<Program>)
    requires Runs(gs)
    ensures |ps| <= |gs|
  {
    if gs == [] then []
    else
      var g := gs[|gs| - 1];
      ProgramsOf(gs[..|gs| - 1]) + (if g == [] then [] else [ProgramOf(g)])
  }

  lemma {:induction false} ProgramsOfNonEmpty(gs: seq<seq<Codon>>, k: nat)
    requires Runs(gs)
    requires k < |ProgramsOf(gs)|
    ensures ProgramsOf(gs)[k].commands != []
  {
    var g := gs[|gs| - 1];
    if k < |ProgramsOf(gs[..|gs| - 1])| {
      ProgramsOfNonEmpty(gs[..|gs| - 1], k);
    }
  }

  /** What the ribosome makes of a strand. */
  function Translate(strand: Strand): seq<Program> {
    ProgramsOf(Segments(CodonsOf(strand)))
  }

  /** No enzyme the ribosome makes is empty. */
  lemma TranslateNonEmpty(strand: Strand, k: nat)
    requires k < |Translate(strand)|
    ensures Translate(strand)[k].commands != []
  {
    ProgramsOfNonEmpty(Segments(CodonsOf(strand)), k);
  }

  lemma ShortStrandsMakeNothing(strand: Strand)
    requires |strand| < 2
    ensures Translate(strand) == []
  {
  }

  // ---------------------------------------------------------------------------
  // The translation loop, as a left fold over the codons

  /** The loop's local variables between two codons. */
  datatype Accumulator = Accumulator(r: seq<Program>, aminoAcids: seq<AminoAcid>,
                                     direction: int, lastDirection: int, isFirstAmino: bool)

  /** What the loop emits when it closes a run: nothing for an empty one. */
  function Close(r: seq<Program>, aminoAcids: seq<AminoAcid>, direction: int, lastDirection: int): seq<Program> {
    if aminoAcids == [] then r
    else
      var d := if |aminoAcids| > 1 then direction - lastDirection else direction;
      r + [Program(DirectionToNucleotide(d), aminoAcids)]
  }

  /** One pass of the loop body: punctuation closes the run, an instruction extends it. */
  function Feed(acc: Accumulator, c: Codon): Accumulator {
    if c.Punctuation? then Accumulator(Close(acc.r, acc.aminoAcids, acc.direction, acc.lastDirection), [], 0, 0, true)
    else
      var t := Turn(c.direction);
      Accumulator(acc.r, acc.aminoAcids + [c.aminoAcid],
                  if acc.isFirstAmino then acc.direction else acc.direction + t, t, false)
  }

  function Fold(cs: seq<Codon>): Accumulator {
    if cs == [] then Accumulator([], [], 0, 0, true)
    else Feed(Fold(cs[..|cs| - 1]), cs[|cs| - 1])
  }

  /** The same fold, continued from `acc` over the codons still to come. */
  function FoldFrom(acc: Accumulator, cs: seq<Codon>): Accumulator
    decreases |cs|
  {
    if cs == [] then acc else FoldFrom(Feed(acc, cs[0]), cs[1..])
  }

  lemma {:induction false} FoldFromFold(xs: seq<Codon>, ys: seq<Codon>)
    ensures FoldFrom(Fold(xs), ys) == Fold(xs + ys)
    decreases |ys|
  {
    if ys == [] {
      assert xs + ys == xs;
    } else {
      assert (xs + [ys[0]])[..|xs|] == xs;
      FoldFromFold(xs + [ys[0]], ys[1..]);
      assert xs + [ys[0]] + ys[1..] == xs + ys;
    }
  }

  lemma FoldFromStart(cs: seq<Codon>)
    ensures FoldFrom(Accumulator([], [], 0, 0, true), cs) == Fold(cs)
  {
    FoldFromFold([], cs);
    assert [] + cs == cs;
  }

  /** The accumulator after the codons `done`, in terms of the runs: the closed runs'
      enzymes, and the amino acids and turns of the open run. */
  ghost predicate Accumulated(done: seq<Codon>, acc: Accumulator) {
    var gs := Segments(done);
    var g := gs[|gs| - 1];
    && acc.r == ProgramsOf(gs[..|gs| - 1])
    && acc.aminoAcids == AminoAcidsOf(g)
    && acc.isFirstAmino == (g == [])
    && acc.lastDirection == (if g == [] then 0 else Turn(g[|g| - 1].direction))
    && acc.direction == (if g == [] then 0 else TurnSum(g[1..]))
  }

  /** The turn the loop accumulates for a closed run: everything after the first
      amino acid, minus the last one again when there are at least two. */
  lemma InnerTurnFromAccumulator(g: seq<Codon>)
    requires Instructions(g)
    requires g != []
    ensures InnerTurn(g) == if |g| > 1 then TurnSum(g[1..]) - Turn(g[|g| - 1].direction) else 0
  {
    if |g| > 1 {
      assert g[1..][..|g| - 2] == g[1..|g| - 1];
      if |g| == 2 {
        assert g[1..|g| - 1] == [];
      }
    }
  }

  lemma AccumulatedClose(done: seq<Codon>, acc: Accumulator)
    requires Accumulated(done, acc)
    ensures ProgramsOf(Segments(done)) == Close(acc.r, acc.aminoAcids, acc.direction, acc.lastDirection)
  {
    var gs := Segments(done);
    var g := gs[|gs| - 1];
    assert gs[..|gs| - 1] == gs[..|gs| - 1];
    if g != [] {
      InnerTurnFromAccumulator(g);
    }
  }

  lemma AccumulatedFeed(done: seq<Codon>, acc: Accumulator, c: Codon)
    requires Accumulated(done, acc)
    ensures Accumulated(done + [c], Feed(acc, c))
  {
    var gs := Segments(done);
    var g := gs[|gs| - 1];
    assert (done + [c])[..|done|] == done;
    if c.Punctuation? {
      AccumulatedClose(done, acc);
      assert (gs + [[]])[..|gs|] == gs;
    } else {
      var gs' := gs[..|gs| - 1] + [g + [c]];
      assert gs'[..|gs'| - 1] == gs[..|gs| - 1];
      assert (g + [c])[..|g|] == g;
      if g != [] {
        assert (g + [c])[1..] == g[1..] + [c];
        assert (g[1..] + [c])[..|g| - 1] == g[1..];
      } else {
        assert (g + [c])[1..] == [];
      }
    }
  }

  lemma {:induction false} FoldAccumulated(cs: seq<Codon>)
    ensures Accumulated(cs, Fold(cs))
  {
    if cs != [] {
      var init := cs[..|cs| - 1];
      FoldAccumulated(init);
      AccumulatedFeed(init, Fold(init), cs[|cs| - 1]);
      assert init + [cs[|cs| - 1]] == cs;
    }
  }

  /** The loop's left fold, closed at the end, is the run-by-run translation. */
  lemma FoldTranslates(cs: seq<Codon>)
    ensures var acc := Fold(cs); Close(acc.r, acc.aminoAcids, acc.direction, acc.lastDirection) == ProgramsOf(Segments(cs))
  {
    FoldAccumulated(cs);
    AccumulatedClose(cs, Fold(cs));
  }

  /** Closes the current run: an enzyme from the collected amino acids, bound by
      the total turn (less the last turn when there are several), if there are any. */
  method Emit(r: seq<Program>, aminoAcids: seq<AminoAcid>, direction: int, lastDirection: int)
    returns (r': seq<Program>)
    ensures r' == Close(r, aminoAcids, direction, lastDirection)
  {
    r' := r;
    var d := direction;
    if aminoAcids != [] {
      if |aminoAcids| > 1 {
        d := d - lastDirection;
      }
      r' := r' + [Program(DirectionToNucleotide(d), aminoAcids)];
    }
  }

  /** The ribosome: reads the strand codon by codon, accumulating amino acids and
      turns, and closes an enzyme at each punctuation mark and at the end. */
  method Construct(strand: Strand) returns (r: seq<Program>)
    ensures r == Translate(strand)
  {
    r := [];
    var aminoAcids: seq<AminoAcid> := [];
    var direction := 0;
    if |strand| < 2 {
      return;
    }
    var firstBase := strand[0];
    var secondBase := strand[1];
    var index := 0;
    var lastDirection := 0;
    var isFirstAmino := true;
    ghost var final := Fold(CodonsOf(strand));
    FoldFromStart(CodonsOf(strand));
    while true
      invariant index + 1 < |strand|
      invariant firstBase == strand[index] && secondBase == strand[index + 1]
      invariant FoldFrom(Accumulator(r, aminoAcids, direction, lastDirection, isFirstAmino), CodonsOf(strand[index..])) == final
      decreases |strand| - index
    {
      var instruction := Lookup(firstBase, secondBase);
      CodonsOfFrom(strand, index);
      ghost var rest := CodonsOf(strand[index + 2..]);
      assert ([instruction] + rest)[1..] == rest;
      if instruction.Punctuation? {
        r := Emit(r, aminoAcids, direction, lastDirection);
        direction := 0;
        lastDirection := 0;
        isFirstAmino := true;
        aminoAcids := [];
      } else {
        lastDirection := Turn(instruction.direction);
        if !isFirstAmino {
          direction := direction + lastDirection;
        }
        aminoAcids := aminoAcids + [instruction.aminoAcid];
        isFirstAmino := false;
      }
      index := index + 2;
      if index + 1 >= |strand| {
        assert CodonsOf(strand[index..]) == [];
        assert Accumulator(r, aminoAcids, direction, lastDirection, isFirstAmino) == final;
        FoldTranslates(CodonsOf(strand));
        r := Emit(r, aminoAcids, direction, lastDirection);
        assert r == Close(final.r, final.aminoAcids, final.direction, final.lastDirection);
        return;
      }
      firstBase := strand[index];
      secondBase := strand[index + 1];
    }
  }
}
