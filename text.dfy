/** The string operations the name filters use: `toLowerCase` restricted to
    ASCII, and `String.prototype.includes`. */
module Text {

  predicate IsUpper(c: char) {
    'A' <= c <= 'Z'
  }

  /** Lower-cases one ASCII letter; every other character is kept. */
  function LowerChar(c: char): (d: char)
    ensures !IsUpper(d)
    ensures !IsUpper(c) ==> d == c
    ensures IsUpper(c) ==> d as int == c as int + ('a' as int - 'A' as int)
  {
    if IsUpper(c) then (c as int - 'A' as int + 'a' as int) as char else c
  }

  /** `s.toLowerCase()`, character by character. */
  function ToLower(s: string): (r: string)
    ensures |r| == |s|
    ensures forall i :: 0 <= i < |s| ==> r[i] == LowerChar(s[i])
    ensures forall i :: 0 <= i < |r| ==> !IsUpper(r[i])
  {
    seq(|s|, i requires 0 <= i < |s| => LowerChar(s[i]))
  }

  /** Lower-casing twice is lower-casing once. */
  lemma ToLowerIdempotent(s: string)
    ensures ToLower(ToLower(s)) == ToLower(s)
  {
    assert forall i :: 0 <= i < |s| ==> ToLower(ToLower(s))[i] == ToLower(s)[i];
  }

  predicate StartsWith(s: string, p: string) {
    |p| <= |s| && s[..|p|] == p
  }

  /** `s.includes(p)`: some position of `s` starts an occurrence of `p`.
      The search tries position 0 first and then the rest of `s`. */
  function Includes(s: string, p: string): (b: bool)
    ensures p == [] ==> b
    ensures |p| > |s| ==> !b
    decreases |s|
  {
    StartsWith(s, p) || (s != [] && Includes(s[1..], p))
  }

  /** `p` occurs in `s` at position `i`. */
  predicate OccursAt(s: string, p: string, i: int) {
    0 <= i && i + |p| <= |s| && s[i..i + |p|] == p
  }

  /** The search in Includes finds an occurrence exactly when one exists. */
  lemma {:induction false} IncludesIffOccurs(s: string, p: string)
    ensures Includes(s, p) <==> exists i :: OccursAt(s, p, i)
    decreases |s|
  {
    if StartsWith(s, p) {
      assert OccursAt(s, p, 0);
    } else if s != [] {
      IncludesIffOccurs(s[1..], p);
      if exists i :: OccursAt(s[1..], p, i) {
        var i :| OccursAt(s[1..], p, i);
        assert s[1..][i..i + |p|] == s[i + 1..i + 1 + |p|];
        assert OccursAt(s, p, i + 1);
      }
      if exists i :: OccursAt(s, p, i) {
        var i :| OccursAt(s, p, i);
        assert i != 0;
        assert s[1..][i - 1..i - 1 + |p|] == s[i..i + |p|];
        assert OccursAt(s[1..], p, i - 1);
      }
    }
  }

  /** Every string contains itself, and every string contains the empty string. */
  lemma IncludesSelfAndEmpty(s: string)
    ensures Includes(s, s) && Includes(s, [])
  {
    assert s[..|s|] == s;
  }

  /** The filter test of every App: `name.toLowerCase().includes(query.toLowerCase())`. */
  function Matches(name: string, query: string): (b: bool)
    ensures b <==> exists i :: OccursAt(ToLower(name), ToLower(query), i)
  {
    IncludesIffOccurs(ToLower(name), ToLower(query));
    Includes(ToLower(name), ToLower(query))
  }

  /** The test ignores the case of the query and of the name, and a name
      always passes the test for itself and for the empty query. */
  lemma MatchesIgnoresCase(name: string, query: string)
    ensures Matches(name, query) == Matches(ToLower(name), query)
    ensures Matches(name, query) == Matches(name, ToLower(query))
    ensures Matches(name, name) && Matches(name, "")
  {
    ToLowerIdempotent(name);
    ToLowerIdempotent(query);
    IncludesSelfAndEmpty(ToLower(name));
  }
}
