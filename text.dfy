/**
 * The two string operations the catalog page relies on: `toLowerCase`, modelled on
 * ASCII letters only, and `includes`, the substring test used both by the search
 * box and by the MIME-type checks of the upload form.
 */
module Text {

  predicate IsUpper(c: char) {
    'A' <= c <= 'Z'
  }

  /** One character lower-cased: `A`..`Z` become `a`..`z`, everything else is kept. */
  function LowerChar(c: char): char {
    if IsUpper(c) then (c as int + 32) as char else c
  }

  /** `s.toLowerCase()`, restricted to ASCII letters. */
  function Lower(s: string): (l: string)
    ensures |l| == |s|
    ensures forall i :: 0 <= i < |s| ==> l[i] == LowerChar(s[i])
  {
    seq(|s|, i requires 0 <= i < |s| => LowerChar(s[i]))
  }

  /** Lower-casing leaves no upper-case letter and changes nothing else but letters. */
  lemma LowerHasNoUpper(s: string)
    ensures forall i :: 0 <= i < |s| ==> !IsUpper(Lower(s)[i])
    ensures forall i :: 0 <= i < |s| && !IsUpper(s[i]) ==> Lower(s)[i] == s[i]
  {
  }

  /** Lower-casing twice is lower-casing once. */
  lemma LowerIdempotent(s: string)
    ensures Lower(Lower(s)) == Lower(s)
  {
    LowerHasNoUpper(s);
  }

  /** `q` occurs in `s` starting at offset `i`. */
  ghost predicate OccursAt(s: string, q: string, i: int) {
    0 <= i && i + |q| <= |s| && s[i..i + |q|] == q
  }

  /** `s.includes(q)`: scans `s` from the left for a copy of `q`. */
  function Includes(s: string, q: string): (b: bool)
    ensures |q| == 0 ==> b
    ensures b ==> |q| <= |s|
    decreases |s|
  {
    if |q| > |s| then false
    else if s[..|q|] == q then true
    else Includes(s[1..], q)
  }

  /** The scan finds `q` exactly when `q` occurs somewhere in `s`. */
  lemma {:induction false} IncludesIffOccurs(s: string, q: string)
    ensures Includes(s, q) <==> exists i :: OccursAt(s, q, i)
    decreases |s|
  {
    if |q| > |s| {
    } else if s[..|q|] == q {
      assert OccursAt(s, q, 0);
    } else {
      var t := s[1..];
      IncludesIffOccurs(t, q);
      if Includes(t, q) {
        var j :| OccursAt(t, q, j);
        assert t[j..j + |q|] == s[j + 1..j + 1 + |q|];
        assert OccursAt(s, q, j + 1);
      } else {
        forall i | OccursAt(s, q, i)
          ensures false
        {
          assert i != 0;
          assert t[i - 1..i - 1 + |q|] == s[i..i + |q|];
          assert OccursAt(t, q, i - 1);
        }
      }
    }
  }
}
