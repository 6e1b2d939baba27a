# Typogenetics engine, modelled in Dafny

This project models the engine of a Typogenetics simulator. Typogenetics is the
string-rewriting game from Hofstadter's *Gödel, Escher, Bach*. The model covers
the four things the engine does:

- **Nucleotides.** The four bases A, C, G and T. Pyrimidines and purines are
  told apart by the parity of the ordinal, and a base's complement is 3 minus
  its ordinal.
- **The ribosome.** It reads a strand two bases at a time through the sixteen-cell
  genetic code, and cuts the codon stream at the punctuation codon AA. Each
  non-empty run of instructions becomes an enzyme. The enzyme's initial-binding
  base comes from the sum of the inner turns of its amino acids.
- **Initial-binding selection.** When several units carry an enzyme's binding
  base, a mode picks one of them: first, last, middle, random, or N-th-or-last.
- **The enzyme.** It loads a strand into linked units and binds to one of them.
  It then runs its fifteen instructions, which cut, delete, switch strands, move,
  copy, insert and search, and these rewire the units' left, right and partner
  pointers in place. Finally it reads every registered unit back into strands.

Units are records in an arena (`seq<Unit>`), and handles stand in for object
references. The `Enzyme` class (module `Enzymes`) keeps the source's fields.
Each of its methods is proved to leave exactly the state that a pure step
function of module `Engine` describes, and the properties are proved about
those functions.

A ghost *layout* gives every unit a column and a side (upper or lower strand).
Every instruction keeps each pointer consistent with the layout. This holds even
for the one-way and stale pointers that the engine leaves behind. It is what
makes the searches, the left walk and the right walk of the harvest terminate.

Modules, in dependency order:

- `Wrappers`: `Option` and `Result`.
- `Nucleotides`, `AminoAcids`, `Codons`, `Programs`: an enzyme's binding base,
  its commands and its name.
- `Selection`.
- `Ribosome`.
- `Arena`: units, pointers, `List.Remove` and layouts.
- `Engine`: the instructions as step functions, loading and binding.
- `Harvesting`: reading strands back.
- `Enzymes`: the imperative `Enzyme` class.
- `Runs`: whole runs, and the concrete run behind the finding below.

## Model

| member | source | states |
|---|---|---|
| Nucleotides.Complementary | Typogenetics/Engine/NucleotideEnum.cs:25-28 | a base's complement is never the base itself and is in the other class (pyrimidine ↔ purine) |
| Nucleotides.ComplementInvolutive | Typogenetics/Engine/NucleotideEnum.cs:25-28 | complementing twice gives the base back |
| Nucleotides.ComplementPairs | Typogenetics/Engine/NucleotideEnum.cs:25-28 | A pairs with T and C with G, both ways |
| Nucleotides.ClassesPartition | Typogenetics/Engine/NucleotideEnum.cs:13-23 | every base is a pyrimidine or a purine, never both |
| Nucleotides.ClassMembers | Typogenetics/Engine/NucleotideEnum.cs:13-23 | C and T are the pyrimidines, A and G the purines |
| Nucleotides.Letter | Typogenetics/Engine/NucleotideEnum.cs:3-9 | a base prints as one of the letters A, C, G, T |
| Nucleotides.FromLetter | Typogenetics/Engine/NucleotideEnum.cs:3-9 | exactly the four letters read back, each to the base that prints as it |
| Nucleotides.LetterRoundTrip | Typogenetics/Engine/NucleotideEnum.cs:3-9 | reading a base's letter gives the base |
| AminoAcids.LowerName | Typogenetics/Engine/Enzyme.cs:26 | an amino acid's lower-case name has three letters and reads back to that amino acid |
| Programs.Join | Typogenetics/Engine/Enzyme.cs:26 | the hyphen-joined commands are empty exactly for no commands, and 4n−1 characters long for n commands |
| Programs.NameOf | Typogenetics/Engine/Enzyme.cs:26 | an enzyme's name starts with its binding letter and a colon |
| Programs.JoinRoundTrip | Typogenetics/Engine/Enzyme.cs:26 | the joined command list parses back to the commands |
| Programs.NameRoundTrip | Typogenetics/Engine/Enzyme.cs:26 | the name determines the enzyme: it parses back to its binding base and commands |
| Selection.Index | Typogenetics/Engine/InitialBindingSelectionMechanism.cs:28-39 | the index picked is within the list exactly when the selection returns: a non-empty list, a known mode, and N ≥ 0 for N-th-or-last; otherwise the error that is thrown |
| Selection.Pick | Typogenetics/Engine/InitialBindingSelectionMechanism.cs:28-39 | the unit picked is one of the candidates, under the same success condition |
| Selection.FixedModes | Typogenetics/Engine/InitialBindingSelectionMechanism.cs:32-34 | always-first, always-last and always-middle pick index 0, count−1 and count/2 |
| Selection.NthOrLastClamps | Typogenetics/Engine/InitialBindingSelectionMechanism.cs:36 | N-th-or-last picks the N-th candidate, or the last when there are N or fewer |
| Selection.RandomReachesAll | Typogenetics/Engine/InitialBindingSelectionMechanism.cs:35 | every candidate is a possible outcome of the random mode |
| Selection.Select | Typogenetics/Engine/InitialBindingSelectionMechanism.cs:28-39 | the selection as run returns one of the candidates exactly when it can return at all, and it is the pick for some draw the generator can produce |
| Ribosome.BasesToIndex | Typogenetics/Engine/Ribosome.cs:38-41 | the index is below 16, and its quotient and remainder by 4 are the first and the second base |
| Ribosome.BasesToIndexInjective | Typogenetics/Engine/Ribosome.cs:38-41 | distinct codons get distinct table indices |
| Ribosome.TableIndexed | Typogenetics/Engine/Ribosome.cs:12-28 | each table cell holds the two bases it is indexed by |
| Ribosome.OnlyPunctuationIsAA | Typogenetics/Engine/Ribosome.cs:12-28 | AA is the one punctuation codon |
| Ribosome.CodonFor | Typogenetics/Engine/Ribosome.cs:12-28 | every amino acid has a codon that codes for it |
| Ribosome.CodonsCodeUniquely | Typogenetics/Engine/Ribosome.cs:12-28 | that codon is the only one for the amino acid |
| Ribosome.DirectionToNucleotide | Typogenetics/Engine/Ribosome.cs:135-141 | the truncated remainder corrected to be non-negative is the mathematical remainder: the base is A, C, T, G for a total turn of 0, 1, 2, 3 mod 4 |
| Ribosome.TruncatedRemainder | Typogenetics/Engine/Ribosome.cs:137 | C#'s `%` by 4: differs from the dividend by a multiple of 4, has the dividend's sign and is below 4 in magnitude |
| Ribosome.DirectionPeriodic | Typogenetics/Engine/Ribosome.cs:135-141 | a full turn does not change the binding base |
| Ribosome.DirectionTable | Typogenetics/Engine/Ribosome.cs:127-141 | no turn gives A, a left turn C, a half turn T, a right turn (−1 or 3) G |
| Ribosome.CodonsOf | Typogenetics/Engine/Ribosome.cs:80-123 | a strand reads as ⌊length/2⌋ codons; a trailing odd base is ignored |
| Ribosome.CodonsOfAt | Typogenetics/Engine/Ribosome.cs:80-123 | codon i is the table cell of bases 2i and 2i+1 |
| Ribosome.SegmentsPartition | Typogenetics/Engine/Ribosome.cs:88-99 | the runs between punctuation marks, joined, are exactly the instruction codons in order, and there is one more run than punctuation marks |
| Ribosome.AminoAcidsOfAt | Typogenetics/Engine/Ribosome.cs:109 | an enzyme's j-th command is the amino acid of its run's j-th codon |
| Ribosome.InnerTurnFromAccumulator | Typogenetics/Engine/Ribosome.cs:102-108 | skipping the first turn and subtracting the last, as the loop does, sums the turns of all amino acids but the first and the last |
| Ribosome.ProgramsOfNonEmpty | Typogenetics/Engine/Ribosome.cs:90 | no enzyme is made from an empty run |
| Ribosome.TranslateNonEmpty | Typogenetics/Engine/Ribosome.cs:90-94 | every enzyme the ribosome makes has at least one command |
| Ribosome.ShortStrandsMakeNothing | Typogenetics/Engine/Ribosome.cs:79 | a strand of fewer than two bases makes no enzyme |
| Ribosome.FoldTranslates | Typogenetics/Engine/Ribosome.cs:85-124 | the loop's codon-by-codon fold, closed at the end of the strand, equals one enzyme per non-empty run between punctuation marks |
| Ribosome.Emit | Typogenetics/Engine/Ribosome.cs:90-94 | closing a run appends its enzyme, and appends nothing for an empty run |
| Ribosome.Construct | Typogenetics/Engine/Ribosome.cs:73-125 | the loop returns exactly the run-by-run translation of the strand |
| Arena.RemoveFirst | Typogenetics/Engine/Enzyme.cs:200 | `List.Remove`: one element shorter when the unit is registered, unchanged otherwise, and no other unit added or lost |
| Arena.RemoveFirstCount | Typogenetics/Engine/Enzyme.cs:200 | exactly one registration of the unit goes |
| Arena.RemoveFirstAt | Typogenetics/Engine/Enzyme.cs:106 | the registration removed is the first one |
| Engine.AttachSplices | Typogenetics/Engine/Enzyme.cs:289-305 | a new partner points back at the bound unit; the partner of the left neighbour becomes its right neighbour and the partner of the right neighbour its left, each pointing back; nothing else changes |
| Engine.CopyPairs | Typogenetics/Engine/Enzyme.cs:287-307 | after copying, the bound unit has a partner holding its complement; an existing partner only takes the new base; a missing one is created, registered and spliced in; the bound unit's own strand is untouched but for its partner pointer |
| Engine.CopyCreates | Typogenetics/Engine/Enzyme.cs:289-305 | the unit created for an unpaired bound unit, its pointers, and the only units it rewires |
| Engine.CopyModeOn | Typogenetics/Engine/Enzyme.cs:276-280 | `cop` turns copy mode on and leaves the bound unit with a partner holding its complement |
| Engine.MoveSteps | Typogenetics/Engine/Enzyme.cs:141-169 | a move binds to the neighbour, copying there in copy mode; with no neighbour the enzyme finishes and nothing else changes |
| Engine.ExtendAppends | Typogenetics/Engine/Enzyme.cs:173-180 | a new right neighbour points left at the bound unit and, one way only, at the left neighbour of the bound unit's partner |
| Engine.InsertBinds | Typogenetics/Engine/Enzyme.cs:171-183 | insert binds to the right neighbour, created and registered if missing, which holds the new base; in copy mode its partner holds the complement |
| Engine.CutSevers | Typogenetics/Engine/Enzyme.cs:215-227 | cut unlinks the bound unit from its right neighbour and the partner from its left neighbour, and changes no other pointer, no base and not the binding |
| Engine.UnlinkDetaches | Typogenetics/Engine/Enzyme.cs:187-199 | deleting keeps every base and the deleted unit's own pointers; when all pointers were mutual, nothing points at the deleted unit any more |
| Engine.DeleteDetaches | Typogenetics/Engine/Enzyme.cs:185-213 | delete drops exactly one registration of the bound unit and binds to its former right neighbour, or finishes when there is none |
| Engine.SearchStops | Typogenetics/Engine/Enzyme.cs:239-274 | a search moves at least once and stops at the first unit of the sought class, or when the enzyme finishes |
| Engine.ExecuteSound | Typogenetics/Engine/Enzyme.cs:119-139 | every instruction keeps all pointers and registrations inside the arena and consistent with the layout, which only grows |
| Engine.ExecuteAllConcat | Typogenetics/Engine/Enzyme.cs:77-84 | running two command lists one after the other is running their concatenation |
| Engine.FinishedStops | Typogenetics/Engine/Enzyme.cs:81 | once the enzyme has finished, the remaining commands change nothing |
| Engine.LoadChains | Typogenetics/Engine/Enzyme.cs:45-57 | loading makes one unit per base, in order, linked to its neighbours, with no partner |
| Engine.LoadMutual | Typogenetics/Engine/Enzyme.cs:45-57 | a loaded strand is linked both ways |
| Engine.Candidates | Typogenetics/Engine/Enzyme.cs:61 | the candidates are exactly the registered units holding the binding base |
| Engine.CandidatesOrdered | Typogenetics/Engine/Enzyme.cs:61 | filtering keeps registry order: the candidates of an increasing registry come out increasing |
| Engine.Bind | Typogenetics/Engine/Enzyme.cs:59-75 | no candidate: the enzyme finishes; one: it binds there; several: it binds exactly the unit the selection picks, or the selection's error fails the run; nothing but the binding changes |
| Harvesting.LeftEnd | Typogenetics/Engine/Enzyme.cs:95 | the left walk ends on the same strand at a unit with no left neighbour |
| Harvesting.CollectReadsChain | Typogenetics/Engine/Enzyme.cs:101-109 | the right walk reads the bases of the chain in order and unregisters the chain's units one by one |
| Harvesting.HarvestSound | Typogenetics/Engine/Enzyme.cs:86-117 | on a harvestable registry the loop ends, and its strands are non-empty and hold the bases of exactly the registered units |
| Harvesting.GuardedCollect | Typogenetics/Engine/Enzyme.cs:101-109 | the guarded right walk moves bases from registered units into the strand, losing none |
| Harvesting.GuardedHarvestLossless | Typogenetics/Engine/Enzyme.cs:86-117 | the guarded harvest ends, and its strands hold the bases of exactly the registered units |
| Harvesting.GuardedAgrees | Typogenetics/Engine/Enzyme.cs:86-117 | where the engine's harvest is sound, the guarded harvest returns the same strands |
| Runs.Sites | Typogenetics/Engine/Enzyme.cs:61 | the binding sites of a fresh strand are exactly the positions of the binding base, in left-to-right order |
| Runs.SitesEnds | Typogenetics/Engine/Enzyme.cs:61 | the first binding site is the leftmost position of the binding base and the last is the rightmost |
| Runs.FixedModesBindEnds | Typogenetics/Engine/InitialBindingSelectionMechanism.cs:32-34 | on a freshly loaded strand, always-first binds the leftmost unit holding the binding base and always-last the rightmost, whatever the enzyme was bound to before |
| Runs.HarvestLoaded | Typogenetics/Engine/Enzyme.cs:45-57 | harvesting a freshly loaded strand gives the strand back |
| Runs.NoBindingSite | Typogenetics/Engine/Enzyme.cs:62-66 | without the binding base on the strand, no command runs and the strand comes back unchanged |
| Runs.BindFailsAlike | Typogenetics/Engine/Enzyme.cs:38-43 | a binding left over from an earlier run does not change a failed selection |
| Runs.BindRunsAlike | Typogenetics/Engine/Enzyme.cs:38-43 | nor a run that binds |
| Runs.BindFinishesAlike | Typogenetics/Engine/Enzyme.cs:38-43 | nor a run with no binding site |
| Runs.RunHarvests | Typogenetics/Engine/Enzyme.cs:29-36 | a run whose final registry is harvestable ends, and its strands hold every registered unit's base exactly once |
| Runs.LoopingExecuted | Typogenetics/Engine/Enzyme.cs:29-36 | the eighteen-command enzyme binding A, on ACC, leaves six registered units in a fixed arrangement |
| Runs.LoopingNeverHarvests | Typogenetics/Engine/Enzyme.cs:86-117 | on that run the harvest never ends |
| Runs.GuardedRunLossless | Typogenetics/Engine/Enzyme.cs:86-117 | the guarded run fails only when the selection fails, and otherwise returns non-empty strands holding every registered unit's base exactly once |
| Runs.GuardedRunAgrees | Typogenetics/Engine/Enzyme.cs:86-117 | where the engine's run ends soundly, the guarded run gives the same result |
| Runs.LoopingGuarded | Typogenetics/Engine/Enzyme.cs:86-117 | on the looping example the guarded run ends with the bases A, A, A, C, G, T |
| Enzymes.Enzyme.constructor | Typogenetics/Engine/Enzyme.cs:22-27 | a new enzyme keeps its binding base and commands, is named by them, and holds no units |
| Enzymes.Enzyme.Process | Typogenetics/Engine/Enzyme.cs:29-36 | processing a strand returns the whole run's result for the draw the selection made |
| Enzymes.Enzyme.Clean | Typogenetics/Engine/Enzyme.cs:38-43 | empties the registry and clears both flags; the bound unit is kept |
| Enzymes.Enzyme.LoadStrand | Typogenetics/Engine/Enzyme.cs:45-57 | appends one linked unit per base and registers each one in order |
| Enzymes.Enzyme.FindStart | Typogenetics/Engine/Enzyme.cs:59-75 | leaves the state the binding rule gives, or reports the selection's error |
| Enzymes.Enzyme.ExecuteAllCommands | Typogenetics/Engine/Enzyme.cs:77-84 | runs the commands in order and stops at the first one that finds the enzyme finished |
| Enzymes.Enzyme.ConstructStrands | Typogenetics/Engine/Enzyme.cs:86-117 | returns the strands the harvest describes and empties the registry, leaving every unit as it was |
| Enzymes.Enzyme.ExecuteCommand | Typogenetics/Engine/Enzyme.cs:119-139 | each amino acid runs its instruction |
| Enzymes.Enzyme.MoveRight | Typogenetics/Engine/Enzyme.cs:141-154 | leaves the state of a move to the right |
| Enzymes.Enzyme.MoveLeft | Typogenetics/Engine/Enzyme.cs:156-169 | leaves the state of a move to the left |
| Enzymes.Enzyme.Insert | Typogenetics/Engine/Enzyme.cs:171-183 | leaves the state of an insert |
| Enzymes.Enzyme.Delete | Typogenetics/Engine/Enzyme.cs:185-213 | leaves the state of a delete |
| Enzymes.Enzyme.Detach | Typogenetics/Engine/Enzyme.cs:187-200 | unlinks the bound unit and drops one registration of it |
| Enzymes.Enzyme.Cut | Typogenetics/Engine/Enzyme.cs:215-227 | leaves the state of a cut |
| Enzymes.Enzyme.Switch | Typogenetics/Engine/Enzyme.cs:229-237 | binds to the partner, or finishes when there is none |
| Enzymes.Enzyme.Search | Typogenetics/Engine/Enzyme.cs:239-274 | the four searches: repeated moves, as `SearchStops` describes |
| Enzymes.Enzyme.TurnCopyOn | Typogenetics/Engine/Enzyme.cs:276-280 | copy mode on, then a copy |
| Enzymes.Enzyme.TurnCopyOff | Typogenetics/Engine/Enzyme.cs:282-285 | copy mode off; nothing else changes |
| Enzymes.Enzyme.Copy | Typogenetics/Engine/Enzyme.cs:287-307 | leaves the state of a copy |
| Enzymes.Enzyme.Attach | Typogenetics/Engine/Enzyme.cs:289-305 | creates, registers and splices in the bound unit's partner |

The methods of `Enzymes.Enzyme` are each proved to leave exactly the state that
the `Engine` step function of the same name gives. They also keep `Running()`, the
invariant that holds between a successful binding and the harvest: the enzyme
is bound, the arena is closed, the binding and the registry are inside it, and every
pointer is consistent with the ghost layout. The `Engine` rows above state what
each of those step functions does.

## Left out

- The random generator. The random mode is a nondeterministic choice (`:|`)
  among the candidates' indices. Its outcome, the draw, is a ghost
  out-parameter of `Select` and `Process`.
- The static `CurrentMode` and `N`: they are parameters of the selection and of
  `Process`. The enum's values beyond the five named ones are `Unnamed`.
- The exceptions' types and texts: a failing selection returns `Failure` with a
  short message instead of throwing.
- Parsing of the code table text (`Ribosome.Init`, `ParseDirection`): the
  table is written out cell by cell. On the fixed table `ParseDirection` cannot
  reach its throw.
- The declarations and ordinals of `DirectionEnum` and `AminoAcidEnum`. The
  datatype `AminoAcid` takes `AminoAcidEnum`'s fifteen member names from the
  switch at Typogenetics/Engine/Enzyme.cs:123-137. A direction is replaced by its
  turn: left is +1 and right is −1, as the comment at Ribosome.cs:102-103 says,
  and straight is 0, a turn of nothing.
- Object identity and garbage collection. Units live in an arena and are named
  by handles. `Clean` also starts a fresh arena, because in the engine the old
  units are unreachable after a run.
- Integer width: `int` is unbounded. The ribosome's turn total is bounded by the
  strand length, so no 32-bit overflow is modelled.
- `Enzyme.ToString`: it returns `Name`, which `Programs.NameOf` models.
- The view models, converters and commands of the user interface are not part of
  this model.
- Enzymes.Enzyme.Process: requires that the run terminates for every draw
  (`Runs.Terminates`), because the engine's harvest can loop forever (see
  Findings); it promises nothing for runs that do not end.
- Harvesting.Harvest: returns `None` where the engine's loop would make a pass
  that unregisters nothing and so never end; it stops at the first such pass
  instead of looping.

## Findings

| source | as written | input that shows it | evidently intended | confidence | as-written member | corrected member |
|---|---|---|---|---|---|---|
| Typogenetics/Engine/Enzyme.cs:86-117 | the harvest walks left and right along stale pointers of deleted units; a registered unit can hang off a deleted one, so a pass reads units already taken and unregisters nothing, and the loop never ends | the enzyme binding A with commands cop mvr mvr off mvl del swi mvr mvr swi ina swi del swi mvr swi cut ina, on the strand ACC | the loop ends, and every registered unit is read into exactly one strand, as the comment at Enzyme.cs:105 says | not executed | Runs.LoopingNeverHarvests | Runs.GuardedRunLossless |
