/** `preprocess` of `ced/extract_unstruct.py`: the note cleaner the others copy. Every
    pattern is case-sensitive, so only the listed spellings are rewritten. */
module CedExtractUnstruct {
  import opened Text
  import opened RegexPasses

  /** The eleven substitutions in order, then `strip()`. */
  function Preprocess(text: string): (r: string)
    ensures r == [] || (r[0] !in Whitespace && r[|r| - 1] !in Whitespace)
  {
    var t1 := RemoveBrackets(text);
    var t2 := RemoveNumbering(t1);
    var t3 := Replace(t2, "dr.", "doctor", false);
    var t4 := Replace(t3, "m.d.", "md", false);
    var t5 := Replace(t4, "admission date:", "", false);
    var t6 := Replace(t5, "Admission Date:", "", false);
    var t7 := Replace(t6, "discharge date:", "", false);
    var t8 := Replace(t7, "Discharge Date:", "", false);
    var t9 := Replace(t8, "Date of Birth:", "", false);
    var t10 := Replace(t9, "date of birth:", "", false);
    var t11 := RemoveDoubles(t10);
    StripWs(t11)
  }

  /** Cleaning a cleaned note a second time strips nothing more at its ends. */
  lemma PreprocessStripped(text: string)
    ensures StripWs(Preprocess(text)) == Preprocess(text)
  {
    var r := Preprocess(text);
    if r != [] {
      StripLeftIdentity(r, Whitespace);
      assert StripRight(r, Whitespace) == r;
    }
  }

  /** Capitalised `Dr.`, which the pattern `dr\.` does not match, survives. */
  lemma CapitalDoctorKept()
    ensures Replace("Dr.", "dr.", "doctor", false) == "Dr."
  {
    assert Fold("Dr."[0], false) != Fold("dr."[0], false);
    assert forall i: nat :: i <= |"Dr."| ==> !MatchesAt("Dr.", "dr.", i, false);
    ReplaceAbsent("Dr.", "dr.", "doctor", false);
  }
}
