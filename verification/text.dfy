/**
 * The string operations the core relies on: `startsWith`, `includes` and
 * an ASCII `toLowerCase` / `toUpperCase`.
 */
module Text {

  /** `s.startsWith(prefix)`. */
  predicate StartsWith(s: string, prefix: string) {
    |prefix| <= |s| && s[..|prefix|] == prefix
  }

  /** `s.includes(part)`: `part` occurs in `s` at some offset. */
  predicate Includes(s: string, part: string)
    decreases |s|
  {
    StartsWith(s, part) || (|s| > 0 && Includes(s[1..], part))
  }

  function LowerChar(c: char): char {
    if 'A' <= c <= 'Z' then (c as int + 32) as char else c
  }

  function UpperChar(c: char): char {
    if 'a' <= c <= 'z' then (c as int - 32) as char else c
  }

  /** `s.toLowerCase()`, restricted to ASCII letters. */
  function Lower(s: string): (r: string)
    ensures |r| == |s|
  {
    seq(|s|, i requires 0 <= i < |s| => LowerChar(s[i]))
  }

  /** `s.toUpperCase()`, restricted to ASCII letters. */
  function Upper(s: string): (r: string)
    ensures |r| == |s|
  {
    seq(|s|, i requires 0 <= i < |s| => UpperChar(s[i]))
  }

  /** An occurrence at a given offset is an inclusion. */
  lemma {:induction false} IncludesAt(s: string, part: string, k: nat)
    requires k + |part| <= |s| && s[k..k + |part|] == part
    ensures Includes(s, part)
    decreases k
  {
    if k == 0 {
      assert s[..|part|] == part;
    } else {
      assert s[1..][k - 1..k - 1 + |part|] == s[k..k + |part|];
      IncludesAt(s[1..], part, k - 1);
    }
  }

  /** `part` occurs in `s` starting at offset `k`. */
  predicate OccursAt(s: string, part: string, k: int) {
    0 <= k <= |s| - |part| && s[k..k + |part|] == part
  }

  /** `includes` holds exactly when `part` occurs in `s` at some offset. */
  lemma {:induction false} IncludesOccurs(s: string, part: string)
    ensures Includes(s, part) <==> exists k :: OccursAt(s, part, k)
    decreases |s|
  {
    if Includes(s, part) {
      if StartsWith(s, part) {
        assert OccursAt(s, part, 0);
      } else {
        IncludesOccurs(s[1..], part);
        var k :| OccursAt(s[1..], part, k);
        assert s[k + 1..k + 1 + |part|] == s[1..][k..k + |part|];
        assert OccursAt(s, part, k + 1);
      }
    } else {
      forall k | OccursAt(s, part, k)
        ensures false
      {
        IncludesAt(s, part, k);
      }
    }
  }

  /** Every string includes the empty string. */
  lemma IncludesEmpty(s: string)
    ensures Includes(s, "")
  {
    assert StartsWith(s, "");
  }

  /** Changing the case of a string does not change its lower-case form. */
  lemma {:induction false} LowerIgnoresCase(s: string)
    ensures Lower(Upper(s)) == Lower(s)
    ensures Lower(Lower(s)) == Lower(s)
  {
    forall i | 0 <= i < |s|
      ensures Lower(Upper(s))[i] == Lower(s)[i]
      ensures Lower(Lower(s))[i] == Lower(s)[i]
    {
      var c := s[i];
      if 'a' <= c <= 'z' {
        assert UpperChar(c) as int == c as int - 32;
      } else if 'A' <= c <= 'Z' {
        assert LowerChar(c) as int == c as int + 32;
      }
    }
  }
}
