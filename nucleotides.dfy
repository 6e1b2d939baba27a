/** The four-letter alphabet of Typogenetics and its arithmetic. A base is kept as
    the byte ordinal the engine computes with (A = 0, C = 1, G = 2, T = 3). */
module Nucleotides {
  import opened Wrappers

  /** A base, as its ordinal. */
  type Nucleotide = n: int | 0 <= n < 4

  const A: Nucleotide := 0
  const C: Nucleotide := 1
  const G: Nucleotide := 2
  const T: Nucleotide := 3

  /** A strand at rest: a flat, possibly empty sequence of bases. */
  type Strand = seq<Nucleotide>

  /** Pyrimidines are the odd ordinals. */
  predicate IsPyrimidine(n: Nucleotide) {
    n % 2 == 1
  }

  /** Purines are the even ordinals. */
  predicate IsPurine(n: Nucleotide) {
    n % 2 == 0
  }

  /** The pairing partner of a base: 3 minus its ordinal. */
  function Complementary(n: Nucleotide): (m: Nucleotide)
    ensures m != n
    ensures IsPyrimidine(n) <==> IsPurine(m)
  {
    3 - n
  }

  /** The letter the base prints as (its enum name). */
  function Letter(n: Nucleotide): (c: char)
    ensures c in "ACGT"
  {
    if n == A then 'A' else if n == C then 'C' else if n == G then 'G' else 'T'
  }

  /** Reads a letter back; the inverse of Letter. */
  function FromLetter(c: char): (r: Option<Nucleotide>)
    ensures r.Some? <==> c in "ACGT"
    ensures r.Some? ==> Letter(r.value) == c
  {
    if c == 'A' then Some(A) else if c == 'C' then Some(C)
    else if c == 'G' then Some(G) else if c == 'T' then Some(T) else None
  }

  lemma ComplementInvolutive(n: Nucleotide)
    ensures Complementary(Complementary(n)) == n
  {
  }

  lemma ComplementPairs()
    ensures Complementary(A) == T && Complementary(T) == A
    ensures Complementary(C) == G && Complementary(G) == C
  {
  }

  /** Every base is in exactly one of the two classes. */
  lemma ClassesPartition(n: Nucleotide)
    ensures IsPyrimidine(n) != IsPurine(n)
  {
  }

  lemma ClassMembers()
    ensures IsPyrimidine(C) && IsPyrimidine(T)
    ensures IsPurine(A) && IsPurine(G)
  {
  }

  lemma LetterRoundTrip(n: Nucleotide)
    ensures FromLetter(Letter(n)) == Some(n)
  {
  }
}
