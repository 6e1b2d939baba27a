/** The rule that picks one binding site when several units carry the enzyme's
    initial-binding base. The chosen mode and the number N are parameters here,
    and the random generator's draw is an input of the choice. */
module Selection {
  import opened Wrappers

  /** The selection modes; `Unnamed` is any other ordinal an enum value can hold. */
  datatype Mode = AlwaysFirst | AlwaysLast | AlwaysMiddle | Random | NthOrLast | Unnamed(ordinal: int)

  /** A draw the random generator can produce for `count` candidates. */
  predicate Drawable(mode: Mode, count: nat, draw: nat) {
    mode.Random? && count > 0 ==> draw < count
  }

  /** Whether `Select` returns rather than throws for `count` candidates. */
  predicate Selectable(mode: Mode, n: int, count: nat) {
    count > 0 && !mode.Unnamed? && !(mode.NthOrLast? && n < 0)
  }

  /** The index the rule picks, or the error the selection throws: an empty list
      has no first, middle or last element, a negative N indexes before the
      list, and an unknown mode is refused. */
  function Index(mode: Mode, n: int, count: nat, draw: nat): (r: Result<nat, string>)
    requires Drawable(mode, count, draw)
    ensures r.Success? <==> Selectable(mode, n, count)
    ensures r.Success? ==> r.value < count
  {
    match mode
    case AlwaysFirst => if count == 0 then Failure("sequence contains no elements") else Success(0)
    case AlwaysMiddle => if count == 0 then Failure("index out of range") else Success(count / 2)
    case AlwaysLast => if count == 0 then Failure("sequence contains no elements") else Success(count - 1)
    case Random => if count == 0 then Failure("index out of range") else Success(draw)
    case NthOrLast =>
      var i := if n < count - 1 then n else count - 1;
      if i < 0 || count == 0 then Failure("index out of range") else Success(i)
    case Unnamed(_) => Failure("Unknown selection mode")
  }

  /** The candidate the rule picks. */
  function Pick<T>(mode: Mode, n: int, candidates: seq<T>, draw: nat): (r: Result<T, string>)
    requires Drawable(mode, |candidates|, draw)
    ensures r.Success? <==> Selectable(mode, n, |candidates|)
    ensures r.Success? ==> r.value in candidates
  {
    match Index(mode, n, |candidates|, draw)
    case Success(i) => Success(candidates[i])
    case Failure(e) => Failure(e)
  }

  /** The fixed modes pick the first, the last and the middle candidate. */
  lemma FixedModes<T>(candidates: seq<T>, n: int, draw: nat)
    requires candidates != []
    ensures Pick(AlwaysFirst, n, candidates, draw) == Success(candidates[0])
    ensures Pick(AlwaysLast, n, candidates, draw) == Success(candidates[|candidates| - 1])
    ensures Pick(AlwaysMiddle, n, candidates, draw) == Success(candidates[|candidates| / 2])
  {
  }

  /** NthOrLast picks the N-th candidate, or the last when there are too few. */
  lemma NthOrLastClamps<T>(candidates: seq<T>, n: nat, draw: nat)
    requires candidates != []
    ensures Pick(NthOrLast, n, candidates, draw) ==
      Success(if n < |candidates| then candidates[n] else candidates[|candidates| - 1])
  {
  }

  /** Every candidate is a possible outcome of the random mode. */
  lemma RandomReachesAll<T>(candidates: seq<T>, n: int, i: nat)
    requires i < |candidates|
    ensures Drawable(Random, |candidates|, i) && Pick(Random, n, candidates, i) == Success(candidates[i])
  {
  }

  /** The selection as the engine runs it: the random draw is any index in range,
      reported back as a ghost value so that callers can name the outcome. */
  method Select<T>(mode: Mode, n: int, candidates: seq<T>) returns (r: Result<T, string>, ghost draw: nat)
    ensures r.Success? <==> Selectable(mode, n, |candidates|)
    ensures r.Success? ==> r.value in candidates
    ensures Drawable(mode, |candidates|, draw)
    ensures r == Pick(mode, n, candidates, draw)
  {
    var d: nat := 0;
    if mode.Random? && candidates != [] {
      d :| d < |candidates|;
    }
    r := Pick(mode, n, candidates, d);
    draw := d;
  }
}
