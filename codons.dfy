/** One cell of the genetic code table: a punctuation mark, or an amino acid
    together with the turn it contributes to an enzyme's folding. */
module Codons {
  import opened Nucleotides
  import opened AminoAcids

  /** A turn between consecutive amino acids of an enzyme. */
  datatype Direction = Straight | Left | Right

  /** Turns add up as quarter turns: +1 to the left, -1 to the right. */
  function Turn(d: Direction): int
  {
    match d
    case Straight => 0
    case Left => 1
    case Right => -1
  }

  datatype Codon =
    | Punctuation(firstBase: Nucleotide, secondBase: Nucleotide)
    | Instruction(firstBase: Nucleotide, secondBase: Nucleotide, direction: Direction, aminoAcid: AminoAcid)
}
