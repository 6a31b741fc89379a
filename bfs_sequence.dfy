/** `generate_bfs_sequence`: the first node of a breadth-first walk from the root is
    the root itself, so the sequence is the root's label, cleaned by three rewrites:
    `-<digits>` node ids removed, runs of `_` collapsed to one, and `_` stripped from
    both ends. */
module BfsSequence {
  import opened Text
  import opened Relabeling

  /** `re.sub(r"(-[0-9]+)", "", s)`: left to right, each `-` followed by digits is
      removed together with all of those digits. */
  function RemoveIds(s: string): string
    decreases |s|
  {
    if s == [] then []
    else if s[0] == '-' && |s| > 1 && IsDigit(s[1]) then RemoveIds(s[1 + DigitRun(s[1..])..])
    else [s[0]] + RemoveIds(s[1..])
  }

  const Underscore: set<char> := {'_'}

  /** `re.sub(r"__+", "_", s)`: every run of underscores becomes one underscore. */
  function Collapse(s: string): string
    decreases |s|
  {
    if s == [] then []
    else if s[0] == '_' then
      var t := StripLeft(s, Underscore);
      "_" + Collapse(t)
    else [s[0]] + Collapse(s[1..])
  }

  /** The three rewrites, in the order the source applies them. */
  function Clean(s: string): string {
    Strip(Collapse(RemoveIds(s)), Underscore)
  }

  /** `generate_bfs_sequence(tree, root)`. */
  function GenerateBfsSequence(r: Relabeled): string {
    Clean(r.root)
  }

  // ---------------------------------------------------------------------------
  // What the cleaned string looks like.

  /** No `-` is followed by a digit. */
  predicate NoIds(s: string) {
    forall i :: 0 <= i < |s| - 1 ==> !(s[i] == '-' && IsDigit(s[i + 1]))
  }

  /** No `_` is followed by `_`. */
  predicate NoDoubleUnderscore(s: string) {
    forall i :: 0 <= i < |s| - 1 ==> !(s[i] == '_' && s[i + 1] == '_')
  }

  predicate NoEdgeUnderscore(s: string) {
    s == [] || (s[0] != '_' && s[|s| - 1] != '_')
  }

  lemma InfixKeeps(s: string, a: nat, b: nat)
    requires a <= b <= |s|
    ensures NoIds(s) ==> NoIds(s[a..b])
    ensures NoDoubleUnderscore(s) ==> NoDoubleUnderscore(s[a..b])
  {
    var t := s[a..b];
    forall i | 0 <= i < |t| - 1
      ensures NoIds(s) ==> !(t[i] == '-' && IsDigit(t[i + 1]))
      ensures NoDoubleUnderscore(s) ==> !(t[i] == '_' && t[i + 1] == '_')
    {
      assert t[i] == s[a + i] && t[i + 1] == s[a + i + 1];
    }
  }

  /** After `RemoveIds` no `-` is followed by a digit; and a string that does not
      start with a digit keeps not starting with one. */
  lemma {:induction false} RemoveIdsProps(s: string)
    ensures NoIds(RemoveIds(s))
    ensures (s == [] || !IsDigit(s[0])) ==> (RemoveIds(s) == [] || !IsDigit(RemoveIds(s)[0]))
    decreases |s|
  {
    if s != [] {
      if s[0] == '-' && |s| > 1 && IsDigit(s[1]) {
        var rest := s[1 + DigitRun(s[1..])..];
        RemoveIdsProps(rest);
      } else {
        var tail := RemoveIds(s[1..]);
        RemoveIdsProps(s[1..]);
        var r := [s[0]] + tail;
        forall i | 0 <= i < |r| - 1
          ensures !(r[i] == '-' && IsDigit(r[i + 1]))
        {
          if i > 0 {
            assert r[i] == tail[i - 1] && r[i + 1] == tail[i];
          }
        }
      }
    }
  }

  /** `RemoveIds` leaves a string without ids unchanged. */
  lemma {:induction false} RemoveIdsIdentity(s: string)
    requires NoIds(s)
    ensures RemoveIds(s) == s
    decreases |s|
  {
    if s != [] {
      InfixKeeps(s, 1, |s|);
      RemoveIdsIdentity(s[1..]);
    }
  }

  /** After `Collapse` no two underscores are adjacent; its first character is the
      input's; and it creates no id. */
  lemma {:induction false} CollapseProps(s: string)
    ensures NoDoubleUnderscore(Collapse(s))
    ensures s != [] ==> Collapse(s) != [] && Collapse(s)[0] == s[0]
    ensures NoIds(s) ==> NoIds(Collapse(s))
    decreases |s|
  {
    if s != [] {
      var c := Collapse(s);
      if s[0] == '_' {
        var t := StripLeft(s, Underscore);
        CollapseProps(t);
        InfixKeeps(s, |s| - |t|, |s|);
        var tail := Collapse(t);
        assert c == "_" + tail;
        forall i | 0 <= i < |c| - 1
          ensures !(c[i] == '_' && c[i + 1] == '_')
          ensures NoIds(s) ==> !(c[i] == '-' && IsDigit(c[i + 1]))
        {
          if i > 0 {
            assert c[i] == tail[i - 1] && c[i + 1] == tail[i];
          }
        }
      } else {
        var tail := Collapse(s[1..]);
        CollapseProps(s[1..]);
        InfixKeeps(s, 1, |s|);
        assert c == [s[0]] + tail;
        forall i | 0 <= i < |c| - 1
          ensures !(c[i] == '_' && c[i + 1] == '_')
          ensures NoIds(s) ==> !(c[i] == '-' && IsDigit(c[i + 1]))
        {
          if i > 0 {
            assert c[i] == tail[i - 1] && c[i + 1] == tail[i];
          }
        }
      }
    }
  }

  /** `Collapse` leaves a string without adjacent underscores unchanged. */
  lemma {:induction false} CollapseIdentity(s: string)
    requires NoDoubleUnderscore(s)
    ensures Collapse(s) == s
    decreases |s|
  {
    if s != [] {
      var rest := s[1..];
      InfixKeeps(s, 1, |s|);
      CollapseIdentity(rest);
      if s[0] == '_' {
        assert rest == [] || rest[0] != '_' by {
          if rest != [] {
            assert s[1] == rest[0];
          }
        }
        StripLeftIdentity(rest, Underscore);
        assert StripLeft(s, Underscore) == StripLeft(rest, Underscore);
      }
      assert s == [s[0]] + rest;
    }
  }

  /** Stripping leaves a string without underscores at its ends unchanged. */
  lemma StripIdentity(s: string)
    requires NoEdgeUnderscore(s)
    ensures Strip(s, Underscore) == s
  {
    StripLeftIdentity(s, Underscore);
  }

  /** Stripping underscores keeps a string free of ids and doubled underscores. */
  lemma StripKeeps(k: string)
    requires NoIds(k) && NoDoubleUnderscore(k)
    ensures var c := Strip(k, Underscore); NoIds(c) && NoDoubleUnderscore(c) && NoEdgeUnderscore(c)
  {
    var a, b := StripInfix(k, Underscore);
    InfixKeeps(k, a, b);
  }

  /** The cleaned sequence holds no node id, no doubled underscore and no underscore
      at either end. */
  lemma CleanProps(s: string)
    ensures var c := Clean(s); NoIds(c) && NoDoubleUnderscore(c) && NoEdgeUnderscore(c)
  {
    var r := RemoveIds(s);
    RemoveIdsProps(s);
    CollapseProps(r);
    StripKeeps(Collapse(r));
  }

  /** Cleaning twice is cleaning once. */
  lemma CleanIdempotent(s: string)
    ensures Clean(Clean(s)) == Clean(s)
  {
    var c := Clean(s);
    CleanProps(s);
    RemoveIdsIdentity(c);
    CollapseIdentity(c);
    StripIdentity(c);
  }
}
