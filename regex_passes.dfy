/** The `re.sub` passes the note cleaners are built from, each written as the
    left-to-right scan Python's regular-expression engine performs: at each position
    the pattern is tried; on a match the replacement is emitted and the scan resumes
    after the match, otherwise the character is kept and the scan moves on by one. */
module RegexPasses {
  import opened Wrappers
  import opened Text
  import opened Seqs

  // ---------------------------------------------------------------------------
  // `\[(.*?)\]` -> "": a `[`, as few characters as possible, then `]`; `.` does
  // not match a line break, so the span lies within one line.

  /** No `]` on the first line of `t`. */
  predicate NoCloseOnLine(t: string) {
    forall j :: 0 <= j < |t| && t[j] == ']' ==> '\n' in t[..j]
  }

  /** Where the non-greedy `.*?\]` after a `[` ends: the first `]` of `t`, provided
      no line break comes before it. */
  function CloseOnLine(t: string): (r: Option<nat>)
    ensures r.Some? ==> r.value < |t| && t[r.value] == ']' && '\n' !in t[..r.value]
    ensures r.None? ==> NoCloseOnLine(t)
  {
    if t == [] || t[0] == '\n' then None
    else if t[0] == ']' then Some(0)
    else
      match CloseOnLine(t[1..])
      case None =>
        assert forall j :: 1 <= j < |t| ==> t[1..][..j - 1] == t[1..j];
        None
      case Some(j) =>
        assert t[..j + 1] == [t[0]] + t[1..][..j];
        Some(j + 1)
  }

  function RemoveBrackets(s: string): string
    decreases |s|
  {
    if s == [] then []
    else if s[0] == '[' && CloseOnLine(s[1..]).Some? then
      RemoveBrackets(s[CloseOnLine(s[1..]).value + 2..])
    else [s[0]] + RemoveBrackets(s[1..])
  }

  /** No `[` is followed by a `]` on the same line: the pattern has nothing left to
      match. */
  predicate BracketFree(s: string) {
    forall i :: 0 <= i < |s| && s[i] == '[' ==> NoCloseOnLine(s[i + 1..])
  }

  /** Removing spans creates no `]` on the first line. */
  lemma {:induction false} RemoveBracketsFirstLine(t: string)
    requires NoCloseOnLine(t)
    ensures NoCloseOnLine(RemoveBrackets(t))
    decreases |t|
  {
    if t != [] {
      var rest := RemoveBrackets(t[1..]);
      assert RemoveBrackets(t) == [t[0]] + rest;
      if t[0] != '\n' {
        assert t[0] != ']';
        forall k | 0 <= k < |t| - 1 && t[1..][k] == ']'
          ensures '\n' in t[1..][..k]
        {
          assert t[k + 1] == ']' && '\n' in t[..k + 1];
          assert t[..k + 1] == [t[0]] + t[1..][..k];
        }
        RemoveBracketsFirstLine(t[1..]);
        var r := RemoveBrackets(t);
        forall j | 0 <= j < |r| && r[j] == ']'
          ensures '\n' in r[..j]
        {
          assert j > 0 && r[j] == rest[j - 1];
          assert r[..j] == [t[0]] + rest[..j - 1];
        }
      } else {
        var r := RemoveBrackets(t);
        forall j | 0 <= j < |r| && r[j] == ']'
          ensures '\n' in r[..j]
        {
          assert r[..j][0] == '\n';
        }
      }
    }
  }

  /** After the pass no single-line bracketed span is left. */
  lemma {:induction false} RemoveBracketsFree(s: string)
    ensures BracketFree(RemoveBrackets(s))
    decreases |s|
  {
    if s != [] {
      if s[0] == '[' && CloseOnLine(s[1..]).Some? {
        RemoveBracketsFree(s[CloseOnLine(s[1..]).value + 2..]);
      } else {
        var rest := RemoveBrackets(s[1..]);
        RemoveBracketsFree(s[1..]);
        var r := [s[0]] + rest;
        assert RemoveBrackets(s) == r;
        if s[0] == '[' {
          RemoveBracketsFirstLine(s[1..]);
        }
        forall i | 0 <= i < |r| && r[i] == '['
          ensures NoCloseOnLine(r[i + 1..])
        {
          if i > 0 {
            assert r[i] == rest[i - 1] && r[i + 1..] == rest[i..];
          } else {
            assert r[1..] == rest;
          }
        }
      }
    }
  }

  /** The pass leaves a string without such a span unchanged. */
  lemma {:induction false} RemoveBracketsIdentity(s: string)
    requires BracketFree(s)
    ensures RemoveBrackets(s) == s
    decreases |s|
  {
    if s != [] {
      assert BracketFree(s[1..]) by {
        forall i | 0 <= i < |s[1..]| && s[1..][i] == '['
          ensures NoCloseOnLine(s[1..][i + 1..])
        {
          assert s[i + 1] == '[' && s[1..][i + 1..] == s[i + 2..];
        }
      }
      RemoveBracketsIdentity(s[1..]);
    }
  }

  /** A removed span never holds a line break, so the pass keeps every line break. */
  lemma {:induction false} RemoveBracketsKeepsLines(s: string)
    ensures multiset(RemoveBrackets(s))['\n'] == multiset(s)['\n']
    decreases |s|
  {
    if s != [] {
      if s[0] == '[' && CloseOnLine(s[1..]).Some? {
        var j := CloseOnLine(s[1..]).value;
        var removed := s[..j + 2];
        assert removed == [s[0]] + s[1..][..j] + [']'];
        assert multiset(removed)['\n'] == 0;
        assert s == removed + s[j + 2..];
        RemoveBracketsKeepsLines(s[j + 2..]);
      } else {
        assert RemoveBrackets(s) == [s[0]] + RemoveBrackets(s[1..]);
        RemoveBracketsKeepsLines(s[1..]);
        assert s == [s[0]] + s[1..];
      }
    }
  }

  // ---------------------------------------------------------------------------
  // `[0-9]+\.` -> "": a run of digits followed by a full stop. A run not followed
  // by `.` fails at each of its positions, so its digits are kept.

  /** The pattern matches at the front of `s`. */
  predicate NumberingAt(s: string) {
    s != [] && IsDigit(s[0]) && DigitRun(s) < |s| && s[DigitRun(s)] == '.'
  }

  function RemoveNumbering(s: string): string
    decreases |s|
  {
    if s == [] then []
    else if NumberingAt(s) then RemoveNumbering(s[DigitRun(s) + 1..])
    else [s[0]] + RemoveNumbering(s[1..])
  }

  /** No digit is followed by a full stop. */
  predicate NumberingFree(s: string) {
    forall i :: 0 <= i < |s| - 1 && IsDigit(s[i]) ==> s[i + 1] != '.'
  }

  /** Neither a digit nor a full stop: what the numbering pass never deletes. */
  predicate KeptByNumbering(c: char) { !IsDigit(c) && c != '.' }

  /** A string that starts with a kept character, or with a digit run not followed
      by a full stop, still starts with that character after the pass. */
  lemma RemoveNumberingHead(s: string)
    requires s != [] && !NumberingAt(s)
    ensures RemoveNumbering(s) != [] && RemoveNumbering(s)[0] == s[0]
  {
  }

  lemma {:induction false} RemoveNumberingFree(s: string)
    ensures NumberingFree(RemoveNumbering(s))
    decreases |s|
  {
    if s != [] {
      if NumberingAt(s) {
        RemoveNumberingFree(s[DigitRun(s) + 1..]);
      } else {
        var rest := RemoveNumbering(s[1..]);
        RemoveNumberingFree(s[1..]);
        var r := [s[0]] + rest;
        assert RemoveNumbering(s) == r;
        if IsDigit(s[0]) && |s| > 1 {
          // The run goes on, or it ends in a character that is not a full stop.
          assert DigitRun(s) == 1 + DigitRun(s[1..]);
          assert s[1] != '.';
          if IsDigit(s[1]) {
            assert !NumberingAt(s[1..]);
          }
          RemoveNumberingHead(s[1..]);
        }
        forall i | 0 <= i < |r| - 1 && IsDigit(r[i])
          ensures r[i + 1] != '.'
        {
          if i > 0 {
            assert r[i] == rest[i - 1] && r[i + 1] == rest[i];
          }
        }
      }
    }
  }

  lemma {:induction false} RemoveNumberingIdentity(s: string)
    requires NumberingFree(s)
    ensures RemoveNumbering(s) == s
    decreases |s|
  {
    if s != [] {
      assert NumberingFree(s[1..]) by {
        forall i | 0 <= i < |s[1..]| - 1 && IsDigit(s[1..][i])
          ensures s[1..][i + 1] != '.'
        {
          assert s[1..][i] == s[i + 1] && s[1..][i + 1] == s[i + 2];
        }
      }
      RemoveNumberingIdentity(s[1..]);
    }
  }

  /** The pass deletes only digits and full stops: every other character is kept,
      in order. */
  lemma {:induction false} RemoveNumberingKeepsText(s: string)
    ensures Filter(RemoveNumbering(s), KeptByNumbering) == Filter(s, KeptByNumbering)
    decreases |s|
  {
    if s != [] {
      if NumberingAt(s) {
        RemoveNumberingKeepsText(s[DigitRun(s) + 1..]);
        NumberingDropsNothingKept(s);
      } else {
        var rest := RemoveNumbering(s[1..]);
        RemoveNumberingKeepsText(s[1..]);
        assert RemoveNumbering(s) == [s[0]] + rest;
        assert s == [s[0]] + s[1..];
        FilterCons(s[0], s[1..], KeptByNumbering);
        FilterCons(s[0], rest, KeptByNumbering);
      }
    }
  }

  /** A matched numbering holds no kept character. */
  lemma NumberingDropsNothingKept(s: string)
    requires NumberingAt(s)
    ensures Filter(s, KeptByNumbering) == Filter(s[DigitRun(s) + 1..], KeptByNumbering)
  {
    var n := DigitRun(s);
    var run := s[..n + 1];
    assert s == run + s[n + 1..];
    FilterConcat(run, s[n + 1..], KeptByNumbering);
    forall i | 0 <= i < |run| ensures !KeptByNumbering(run[i]) {
      assert run[i] == s[i];
    }
    FilterNone(run, KeptByNumbering);
  }

  // ---------------------------------------------------------------------------
  // A literal pattern (`dr\.`, `m\.d\.`, `admission date:` …), case-sensitive or
  // with `re.IGNORECASE`.

  /** The character as the matcher compares it. */
  function Fold(c: char, ignoreCase: bool): char {
    if ignoreCase then LowerChar(c) else c
  }

  predicate MatchesAt(s: string, pat: string, i: nat, ignoreCase: bool) {
    i + |pat| <= |s| && forall k :: 0 <= k < |pat| ==> Fold(s[i + k], ignoreCase) == Fold(pat[k], ignoreCase)
  }

  function Replace(s: string, pat: string, rep: string, ignoreCase: bool): string
    requires pat != []
    decreases |s|
  {
    if s == [] then []
    else if MatchesAt(s, pat, 0, ignoreCase) then rep + Replace(s[|pat|..], pat, rep, ignoreCase)
    else [s[0]] + Replace(s[1..], pat, rep, ignoreCase)
  }

  predicate Occurs(s: string, pat: string, ignoreCase: bool) {
    exists i: nat :: i <= |s| && MatchesAt(s, pat, i, ignoreCase)
  }

  lemma MatchesAtTail(s: string, pat: string, i: nat, ignoreCase: bool)
    requires s != [] && MatchesAt(s[1..], pat, i, ignoreCase)
    ensures MatchesAt(s, pat, i + 1, ignoreCase)
  {
    forall k | 0 <= k < |pat|
      ensures Fold(s[i + 1 + k], ignoreCase) == Fold(pat[k], ignoreCase)
    {
      assert s[1..][i + k] == s[i + 1 + k];
    }
  }

  /** Where the pattern does not occur the pass changes nothing. */
  lemma {:induction false} ReplaceAbsent(s: string, pat: string, rep: string, ignoreCase: bool)
    requires pat != [] && !Occurs(s, pat, ignoreCase)
    ensures Replace(s, pat, rep, ignoreCase) == s
    decreases |s|
  {
    if s != [] {
      assert !MatchesAt(s, pat, 0, ignoreCase);
      if Occurs(s[1..], pat, ignoreCase) {
        var i: nat :| i <= |s[1..]| && MatchesAt(s[1..], pat, i, ignoreCase);
        MatchesAtTail(s, pat, i, ignoreCase);
        assert false;
      }
      ReplaceAbsent(s[1..], pat, rep, ignoreCase);
    }
  }

  /** The leftmost occurrence is replaced, the text before it is kept as it is, and
      the scan resumes after it: matches never overlap. */
  lemma {:induction false} ReplaceLeftmost(s: string, pat: string, rep: string, ignoreCase: bool, i: nat)
    requires pat != [] && MatchesAt(s, pat, i, ignoreCase)
    requires forall j :: 0 <= j < i ==> !MatchesAt(s, pat, j, ignoreCase)
    ensures Replace(s, pat, rep, ignoreCase) == s[..i] + rep + Replace(s[i + |pat|..], pat, rep, ignoreCase)
    decreases i
  {
    if i == 0 {
      ReplaceMatchStep(s, pat, rep, ignoreCase);
    } else {
      LeftmostInTail(s, pat, ignoreCase, i);
      ReplaceLeftmost(s[1..], pat, rep, ignoreCase, i - 1);
      LeftmostStep(s, pat, rep, ignoreCase, i);
    }
  }

  /** The step of `ReplaceLeftmost` before the match: the first character is kept
      and the tail's equation carries over. */
  lemma LeftmostStep(s: string, pat: string, rep: string, ignoreCase: bool, i: nat)
    requires pat != [] && 0 < i && i + |pat| <= |s| && !MatchesAt(s, pat, 0, ignoreCase)
    requires Replace(s[1..], pat, rep, ignoreCase) ==
      s[1..][..i - 1] + rep + Replace(s[1..][i - 1 + |pat|..], pat, rep, ignoreCase)
    ensures Replace(s, pat, rep, ignoreCase) == s[..i] + rep + Replace(s[i + |pat|..], pat, rep, ignoreCase)
  {
    ReplaceSkipStep(s, pat, rep, ignoreCase);
    var rest := Replace(s[i + |pat|..], pat, rep, ignoreCase);
    assert s[1..][i - 1 + |pat|..] == s[i + |pat|..];
    ConsPrefix(s, i, rep, rest);
  }

  /** The scan at a match: the replacement, then the rest after the match. */
  lemma ReplaceMatchStep(s: string, pat: string, rep: string, ignoreCase: bool)
    requires pat != [] && MatchesAt(s, pat, 0, ignoreCase)
    ensures Replace(s, pat, rep, ignoreCase) == s[..0] + rep + Replace(s[|pat|..], pat, rep, ignoreCase)
  {
    assert s != [];
    assert s[..0] + rep == rep;
  }

  /** The scan where no match starts: the first character is kept. */
  lemma ReplaceSkipStep(s: string, pat: string, rep: string, ignoreCase: bool)
    requires pat != [] && s != [] && !MatchesAt(s, pat, 0, ignoreCase)
    ensures Replace(s, pat, rep, ignoreCase) == [s[0]] + Replace(s[1..], pat, rep, ignoreCase)
  {
  }

  /** A prefix of `s` of length `i > 0` is its first character followed by a prefix
      of the tail. */
  lemma ConsPrefix<T>(s: seq<T>, i: nat, mid: seq<T>, rest: seq<T>)
    requires 0 < i <= |s|
    ensures [s[0]] + (s[1..][..i - 1] + mid + rest) == s[..i] + mid + rest
  {
    assert s[..i] == [s[0]] + s[1..][..i - 1];
  }

  lemma LeftmostInTail(s: string, pat: string, ignoreCase: bool, i: nat)
    requires 0 < i && MatchesAt(s, pat, i, ignoreCase)
    requires forall j :: 0 <= j < i ==> !MatchesAt(s, pat, j, ignoreCase)
    ensures MatchesAt(s[1..], pat, i - 1, ignoreCase)
    ensures forall j :: 0 <= j < i - 1 ==> !MatchesAt(s[1..], pat, j, ignoreCase)
  {
    var t := s[1..];
    forall k | 0 <= k < |pat|
      ensures Fold(t[i - 1 + k], ignoreCase) == Fold(pat[k], ignoreCase)
    {
      assert t[i - 1 + k] == s[i + k];
    }
    forall j | 0 <= j < i - 1
      ensures !MatchesAt(t, pat, j, ignoreCase)
    {
      if MatchesAt(t, pat, j, ignoreCase) {
        MatchesAtTail(s, pat, j, ignoreCase);
      }
    }
  }

  predicate NoUpper(s: string) {
    forall i :: 0 <= i < |s| ==> !('A' <= s[i] <= 'Z')
  }

  /** On text without capital letters, matching with `re.IGNORECASE` is plain
      matching. */
  lemma {:induction false} ReplaceIgnoreCaseOnLower(s: string, pat: string, rep: string)
    requires pat != [] && NoUpper(s) && NoUpper(pat)
    ensures Replace(s, pat, rep, true) == Replace(s, pat, rep, false)
    decreases |s|
  {
    if s != [] {
      assert MatchesAt(s, pat, 0, true) == MatchesAt(s, pat, 0, false);
      if MatchesAt(s, pat, 0, false) {
        ReplaceIgnoreCaseOnLower(s[|pat|..], pat, rep);
      } else {
        ReplaceIgnoreCaseOnLower(s[1..], pat, rep);
      }
    }
  }

  /** A case-sensitive pattern holding a capital letter never matches text without
      one. */
  lemma UpperPatternAbsent(s: string, pat: string, k: nat)
    requires k < |pat| && 'A' <= pat[k] <= 'Z' && NoUpper(s)
    ensures !Occurs(s, pat, false)
  {
  }

  /** Replacing with text free of capitals keeps text free of capitals. */
  lemma {:induction false} ReplaceNoUpper(s: string, pat: string, rep: string, ignoreCase: bool)
    requires pat != [] && NoUpper(s) && NoUpper(rep)
    ensures NoUpper(Replace(s, pat, rep, ignoreCase))
    decreases |s|
  {
    if s != [] {
      if MatchesAt(s, pat, 0, ignoreCase) {
        ReplaceNoUpper(s[|pat|..], pat, rep, ignoreCase);
      } else {
        ReplaceNoUpper(s[1..], pat, rep, ignoreCase);
      }
    }
  }

  // ---------------------------------------------------------------------------
  // `--|__|==` -> "": the three two-character alternatives, tried at each position.

  predicate IsMark(c: char) { c == '-' || c == '_' || c == '=' }

  predicate DoubleAt(s: string) { |s| >= 2 && IsMark(s[0]) && s[1] == s[0] }

  function RemoveDoubles(s: string): string
    decreases |s|
  {
    if s == [] then []
    else if DoubleAt(s) then RemoveDoubles(s[2..])
    else [s[0]] + RemoveDoubles(s[1..])
  }

  predicate NotMark(c: char) { !IsMark(c) }

  /** The pass deletes only `-`, `_` and `=`: every other character is kept, in
      order. */
  lemma {:induction false} RemoveDoublesKeepsText(s: string)
    ensures Filter(RemoveDoubles(s), NotMark) == Filter(s, NotMark)
    decreases |s|
  {
    if s != [] {
      if DoubleAt(s) {
        RemoveDoublesKeepsText(s[2..]);
        assert s == s[..2] + s[2..];
        FilterConcat(s[..2], s[2..], NotMark);
        FilterNone(s[..2], NotMark);
      } else {
        RemoveDoublesKeepsText(s[1..]);
        assert s == [s[0]] + s[1..];
        FilterConcat([s[0]], s[1..], NotMark);
        FilterConcat([s[0]], RemoveDoubles(s[1..]), NotMark);
      }
    }
  }

  /** Without a doubled mark the pass changes nothing. */
  lemma {:induction false} RemoveDoublesIdentity(s: string)
    requires forall i :: 0 <= i < |s| ==> !DoubleAt(s[i..])
    ensures RemoveDoubles(s) == s
    decreases |s|
  {
    if s != [] {
      assert !DoubleAt(s[0..]) && s[0..] == s;
      assert forall i :: 0 <= i < |s[1..]| ==> s[1..][i..] == s[i + 1..];
      RemoveDoublesIdentity(s[1..]);
    }
  }

  /** One pass, no second look: `---` becomes `-`. */
  lemma RemoveDoublesSinglePass()
    ensures RemoveDoubles("---") == "-"
  {
    assert DoubleAt("---");
    assert "---"[2..] == "-";
    assert RemoveDoubles("-") == "-" by {
      assert !DoubleAt("-");
      assert "-"[1..] == [];
    }
  }

  // ---------------------------------------------------------------------------
  // The deleting passes only ever drop characters, so they introduce no capital.

  lemma {:induction false} RemoveBracketsNoUpper(s: string)
    requires NoUpper(s)
    ensures NoUpper(RemoveBrackets(s))
    decreases |s|
  {
    if s != [] {
      if s[0] == '[' && CloseOnLine(s[1..]).Some? {
        RemoveBracketsNoUpper(s[CloseOnLine(s[1..]).value + 2..]);
      } else {
        RemoveBracketsNoUpper(s[1..]);
      }
    }
  }

  lemma {:induction false} RemoveNumberingNoUpper(s: string)
    requires NoUpper(s)
    ensures NoUpper(RemoveNumbering(s))
    decreases |s|
  {
    if s != [] {
      if NumberingAt(s) {
        RemoveNumberingNoUpper(s[DigitRun(s) + 1..]);
      } else {
        RemoveNumberingNoUpper(s[1..]);
      }
    }
  }

  lemma {:induction false} RemoveDoublesNoUpper(s: string)
    requires NoUpper(s)
    ensures NoUpper(RemoveDoubles(s))
    decreases |s|
  {
    if s != [] {
      if DoubleAt(s) {
        RemoveDoublesNoUpper(s[2..]);
      } else {
        RemoveDoublesNoUpper(s[1..]);
      }
    }
  }

  // ---------------------------------------------------------------------------
  // A cleaner as data: the list of substitutions `uttree/extract_unstruct.py`
  // loops over.

  datatype Rule =
    | Brackets             // `\[(.*?)\]` -> ""
    | Numbering            // `[0-9]+\.` -> ""
    | Literal(pat: Pattern, rep: string, ignoreCase: bool)
    | Doubles              // `--|__|==` -> ""

  /** A literal pattern is never empty. */
  type Pattern = p: string | p != [] witness "-"

  function ApplyRule(r: Rule, s: string): string
  {
    match r
    case Brackets => RemoveBrackets(s)
    case Numbering => RemoveNumbering(s)
    case Literal(pat, rep, ignoreCase) => Replace(s, pat, rep, ignoreCase)
    case Doubles => RemoveDoubles(s)
  }

  /** The rules applied one after another, first rule first. */
  function ApplyRules(rs: seq<Rule>, s: string): string
  {
    if rs == [] then s else ApplyRules(rs[1..], ApplyRule(rs[0], s))
  }

  /** A loop over a list of rules that rebinds the text once per rule. */
  method RunRules(rs: seq<Rule>, text: string) returns (t: string)
    ensures t == ApplyRules(rs, text)
  {
    t := text;
    var k := 0;
    while k < |rs|
      invariant 0 <= k <= |rs|
      invariant ApplyRules(rs[k..], t) == ApplyRules(rs, text)
    {
      assert rs[k..][1..] == rs[k + 1..];
      t := ApplyRule(rs[k], t);
      k := k + 1;
    }
  }
}
