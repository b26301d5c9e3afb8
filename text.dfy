/** The two JavaScript string operations the history search uses. */
module Text {
  import opened Wrappers

  /** JavaScript truthiness of an optional string: present and not empty. */
  predicate Truthy(s: Option<string>) {
    s.Some? && s.value != ""
  }

  /** `String.prototype.toLowerCase` on one character, for the ASCII letters. */
  function LowerChar(c: char): (l: char) {
    if 'A' <= c <= 'Z' then (c as int + 32) as char else c
  }

  /** `String.prototype.toLowerCase`, ASCII letters only. */
  function Lower(s: string): (r: string)
    ensures |r| == |s|
    ensures forall i :: 0 <= i < |s| ==> r[i] == LowerChar(s[i])
  {
    seq(|s|, i requires 0 <= i < |s| => LowerChar(s[i]))
  }

  /** Lower-casing leaves no ASCII capital behind, so doing it twice changes nothing. */
  lemma LowerIdempotent(s: string)
    ensures Lower(Lower(s)) == Lower(s)
    ensures forall i :: 0 <= i < |s| ==> !('A' <= Lower(s)[i] <= 'Z')
  {
  }

  predicate StartsWith(s: string, q: string) {
    |q| <= |s| && s[..|q|] == q
  }

  /** `String.prototype.includes`: `q` occurs somewhere in `s`. */
  predicate Contains(s: string, q: string)
    decreases |s|
  {
    StartsWith(s, q) || (s != [] && Contains(s[1..], q))
  }

  /** `q` occurs in `s` starting at position `i`. */
  ghost predicate OccursAt(s: string, q: string, i: int) {
    0 <= i <= |s| - |q| && s[i..i + |q|] == q
  }

  /** `Contains` holds exactly when `q` occurs at some position of `s`. */
  lemma {:induction false} ContainsAt(s: string, q: string)
    ensures Contains(s, q) <==> exists i :: OccursAt(s, q, i)
    decreases |s|
  {
    if StartsWith(s, q) {
      assert OccursAt(s, q, 0);
    } else if s == [] {
    } else {
      ContainsAt(s[1..], q);
      if exists i :: OccursAt(s, q, i) {
        var i :| OccursAt(s, q, i);
        assert i != 0;
        assert s[1..][i - 1..i - 1 + |q|] == q;
        assert OccursAt(s[1..], q, i - 1);
      }
      if exists j :: OccursAt(s[1..], q, j) {
        var j :| OccursAt(s[1..], q, j);
        assert s[j + 1..j + 1 + |q|] == q;
        assert OccursAt(s, q, j + 1);
      }
    }
  }
}
