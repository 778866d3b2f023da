/** Which HY-2 satellite a data file comes from, read off its file name. */
module Satellite {

  /** Python's `fname[:3]`: the first three characters, or all of a shorter string. */
  function Prefix3(fname: string): (p: string)
    ensures |p| == if |fname| < 3 then |fname| else 3
    ensures p <= fname
  {
    if |fname| < 3 then fname else fname[..3]
  }

  /** `sate_name`: the satellite label named by the file name's three-character prefix. */
  function SateName(fname: string): (name: string)
    ensures name in {"HY-2A", "HY-2B", "HY-2C", "HY-2"}
    ensures name == "HY-2A" <==> |fname| >= 3 && fname[..3] == "H2A"
    ensures name == "HY-2B" <==> |fname| >= 3 && fname[..3] == "H2B"
    ensures name == "HY-2C" <==> |fname| >= 3 && fname[..3] == "H2C"
    ensures name == "HY-2" <==> |fname| < 3 || fname[..3] !in {"H2A", "H2B", "H2C"}
  {
    var p := Prefix3(fname);
    if p == "H2A" then "HY-2A"
    else if p == "H2B" then "HY-2B"
    else if p == "H2C" then "HY-2C"
    else "HY-2"
  }

  /**
   * The specific labels are exactly the generic label followed by the satellite
   * letter of a file name that starts with "H2" and a letter A, B or C.
   */
  lemma SateNameLetter(fname: string)
    ensures SateName(fname) != "HY-2" <==>
              |fname| >= 3 && fname[..2] == "H2" && fname[2] in "ABC"
    ensures SateName(fname) != "HY-2" ==> SateName(fname) == "HY-2" + [fname[2]]
  {
  }

  /** A file name of fewer than three characters never names a specific satellite. */
  lemma SateNameShort(fname: string)
    requires |fname| < 3
    ensures SateName(fname) == "HY-2"
  {
  }
}
