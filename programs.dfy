/** The immutable part of an enzyme: the base it binds to and its instruction list,
    and the display name built from them. */
module Programs {
  import opened Wrappers
  import opened Nucleotides
  import opened AminoAcids

  datatype Program = Program(initialBinding: Nucleotide, commands: seq<AminoAcid>)

  /** The lower-case amino-acid names joined by hyphens. */
  function Join(cmds: seq<AminoAcid>): (s: string)
    ensures cmds == [] <==> s == []
    ensures cmds != [] ==> |s| == 4 * |cmds| - 1
  {
    if cmds == [] then ""
    else if |cmds| == 1 then LowerName(cmds[0])
    else LowerName(cmds[0]) + "-" + Join(cmds[1..])
  }

  /** The enzyme's name: its binding letter, a colon, then the joined commands. */
  function NameOf(p: Program): (s: string)
    ensures |s| >= 2 && s[0] == Letter(p.initialBinding) && s[1] == ':'
  {
    [Letter(p.initialBinding)] + ":" + Join(p.commands)
  }

  /** Reads a hyphen-joined command list back; fails on anything Join cannot produce. */
  function ParseCommands(s: string): Option<seq<AminoAcid>>
    decreases |s|
  {
    if s == "" then Some([])
    else if |s| < 3 then None
    else match FromLowerName(s[..3])
      case None => None
      case Some(a) =>
        if |s| == 3 then Some([a])
        else if |s| >= 7 && s[3] == '-' then
          match ParseCommands(s[4..])
          case None => None
          case Some(rest) => Some([a] + rest)
        else None
  }

  function ParseName(s: string): Option<Program> {
    if |s| < 2 || s[1] != ':' then None
    else match (FromLetter(s[0]), ParseCommands(s[2..]))
      case (Some(b), Some(cmds)) => Some(Program(b, cmds))
      case _ => None
  }

  lemma {:induction false} JoinRoundTrip(cmds: seq<AminoAcid>)
    ensures ParseCommands(Join(cmds)) == Some(cmds)
  {
    if |cmds| > 1 {
      var s := Join(cmds);
      var head := LowerName(cmds[0]);
      assert s == head + "-" + Join(cmds[1..]);
      assert s[..3] == head;
      assert s[4..] == Join(cmds[1..]);
      JoinRoundTrip(cmds[1..]);
      assert [cmds[0]] + cmds[1..] == cmds;
    } else if |cmds| == 1 {
      var s := Join(cmds);
      assert s == LowerName(cmds[0]) && s[..3] == s;
      assert FromLowerName(s) == Some(cmds[0]);
      assert [cmds[0]] == cmds;
    }
  }

  /** Distinct programs have distinct names: the name determines the program. */
  lemma NameRoundTrip(p: Program)
    ensures ParseName(NameOf(p)) == Some(p)
  {
    var s := NameOf(p);
    assert s[2..] == Join(p.commands);
    JoinRoundTrip(p.commands);
    LetterRoundTrip(p.initialBinding);
  }
}
