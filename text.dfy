/** The string operations the recipe listing relies on: white-space tests,
    trimming, and ordinal ignore-case comparison. White space and case folding
    are modelled on ASCII only. */
module Text {
  import opened Wrappers

  /** Space, tab, line feed, vertical tab, form feed and carriage return. */
  predicate IsWhiteSpace(c: char) {
    c == ' ' || 9 <= c as int <= 13
  }

  /** `string.IsNullOrWhiteSpace`: null, empty, or white space only. */
  predicate IsNullOrWhiteSpace(s: Option<string>) {
    match s
    case None => true
    case Some(t) => forall i :: 0 <= i < |t| ==> IsWhiteSpace(t[i])
  }

  /** `string.IsNullOrEmpty`. */
  predicate IsNullOrEmpty(s: Option<string>) {
    s.None? || s.value == []
  }

  /** Number of leading white-space characters of `s`. */
  function LeadingWhiteSpace(s: string): (k: nat)
    ensures k <= |s|
    ensures forall i :: 0 <= i < k ==> IsWhiteSpace(s[i])
    ensures k < |s| ==> !IsWhiteSpace(s[k])
  {
    if s == [] || !IsWhiteSpace(s[0]) then 0 else 1 + LeadingWhiteSpace(s[1..])
  }

  /** Length of `s` without its trailing white space. */
  function TrailingEnd(s: string): (k: nat)
    ensures k <= |s|
    ensures forall i :: k <= i < |s| ==> IsWhiteSpace(s[i])
    ensures 0 < k ==> !IsWhiteSpace(s[k - 1])
  {
    if s == [] || !IsWhiteSpace(s[|s| - 1]) then |s| else TrailingEnd(s[..|s| - 1])
  }

  /** `string.Trim()`: `s` without leading and trailing white space. */
  function Trim(s: string): (r: string)
    ensures r == [] <==> IsNullOrWhiteSpace(Some(s))
    ensures r != [] ==> !IsWhiteSpace(r[0]) && !IsWhiteSpace(r[|r| - 1])
    ensures exists i :: && OccursAt(s, r, i)
                        && (forall j :: 0 <= j < i ==> IsWhiteSpace(s[j]))
                        && (forall j :: i + |r| <= j < |s| ==> IsWhiteSpace(s[j]))
  {
    var e := TrailingEnd(s);
    var b := LeadingWhiteSpace(s[..e]);
    assert s[b..e] == s[b..b + (e - b)];
    assert OccursAt(s, s[b..e], b);
    assert forall j :: 0 <= j < b ==> s[j] == s[..e][j];
    assert b < e ==> s[b] == s[..e][b];
    s[b..e]
  }

  /** `r` is the window of `s` starting at index `i`. */
  predicate OccursAt(s: string, r: string, i: int) {
    0 <= i && i + |r| <= |s| && s[i..i + |r|] == r
  }

  /** Ordinal ignore-case folds ASCII letters to upper case. */
  function Fold(c: char): char {
    if 'a' <= c <= 'z' then (c as int - 32) as char else c
  }

  /** `string.Equals(a, b, StringComparison.OrdinalIgnoreCase)` on non-null strings. */
  predicate EqualsIgnoreCase(a: string, b: string) {
    |a| == |b| && forall i :: 0 <= i < |a| ==> Fold(a[i]) == Fold(b[i])
  }

  /** `s.StartsWith(t, StringComparison.OrdinalIgnoreCase)`. */
  predicate StartsWithIgnoreCase(s: string, t: string) {
    |t| <= |s| && EqualsIgnoreCase(s[..|t|], t)
  }

  /** The window of `s` starting at `i` equals `t` up to case. */
  predicate MatchesAtIgnoreCase(s: string, t: string, i: int) {
    0 <= i && i + |t| <= |s| && EqualsIgnoreCase(s[i..i + |t|], t)
  }

  /** `s.Contains(t, StringComparison.OrdinalIgnoreCase)`: some window of `s`
      equals `t` up to case. */
  function ContainsIgnoreCase(s: string, t: string): (r: bool)
    ensures r <==> exists i :: MatchesAtIgnoreCase(s, t, i)
    decreases |s|
  {
    if StartsWithIgnoreCase(s, t) then
      assert s[0..0 + |t|] == s[..|t|];
      assert MatchesAtIgnoreCase(s, t, 0);
      true
    else if s == [] then
      false
    else
      var rest := ContainsIgnoreCase(s[1..], t);
      assert forall i :: MatchesAtIgnoreCase(s, t, i + 1) <==> MatchesAtIgnoreCase(s[1..], t, i) by {
        forall i ensures MatchesAtIgnoreCase(s, t, i + 1) <==> MatchesAtIgnoreCase(s[1..], t, i) {
          if 0 <= i && i + 1 + |t| <= |s| {
            assert s[1..][i..i + |t|] == s[i + 1..i + 1 + |t|];
          }
        }
      }
      assert !MatchesAtIgnoreCase(s, t, 0) by {
        if |t| <= |s| { assert s[0..0 + |t|] == s[..|t|]; }
      }
      assert (exists i :: MatchesAtIgnoreCase(s, t, i)) ==> exists i :: MatchesAtIgnoreCase(s[1..], t, i) by {
        if exists i :: MatchesAtIgnoreCase(s, t, i) {
          var i :| MatchesAtIgnoreCase(s, t, i);
          assert i != 0;
          assert MatchesAtIgnoreCase(s, t, (i - 1) + 1);
          assert MatchesAtIgnoreCase(s[1..], t, i - 1);
        }
      }
      rest
  }
}
