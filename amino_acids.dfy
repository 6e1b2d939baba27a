/** The fifteen amino acids, i.e. the instructions an enzyme executes. */
module AminoAcids {
  import opened Wrappers

  datatype AminoAcid =
    | Cut | Del | Swi | Mvr | Mvl | Cop | Off
    | Ina | Inc | Ing | Int
    | Rpy | Rpu | Lpy | Lpu

  /** The lower-case enum name, as it appears in an enzyme's name. */
  function LowerName(a: AminoAcid): (s: string)
    ensures |s| == 3
    ensures FromLowerName(s) == Some(a)
  {
    match a
    case Cut => "cut"
    case Del => "del"
    case Swi => "swi"
    case Mvr => "mvr"
    case Mvl => "mvl"
    case Cop => "cop"
    case Off => "off"
    case Ina => "ina"
    case Inc => "inc"
    case Ing => "ing"
    case Int => "int"
    case Rpy => "rpy"
    case Rpu => "rpu"
    case Lpy => "lpy"
    case Lpu => "lpu"
  }

  /** Reads a lower-case name back. */
  function FromLowerName(s: string): Option<AminoAcid> {
    if s == "cut" then Some(Cut)
    else if s == "del" then Some(Del)
    else if s == "swi" then Some(Swi)
    else if s == "mvr" then Some(Mvr)
    else if s == "mvl" then Some(Mvl)
    else if s == "cop" then Some(Cop)
    else if s == "off" then Some(Off)
    else if s == "ina" then Some(Ina)
    else if s == "inc" then Some(Inc)
    else if s == "ing" then Some(Ing)
    else if s == "int" then Some(Int)
    else if s == "rpy" then Some(Rpy)
    else if s == "rpu" then Some(Rpu)
    else if s == "lpy" then Some(Lpy)
    else if s == "lpu" then Some(Lpu)
    else None
  }
}
