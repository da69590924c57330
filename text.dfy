/** String operations the generator relies on: Python's `p in s` on strings
    and `str.lower()`, restricted to ASCII letters. */
module Text {

  /** Concatenation is associative, and appending the empty sequence changes nothing. */
  lemma ConcatAssoc<T>(a: seq<T>, b: seq<T>, c: seq<T>)
    ensures a + b + c == a + (b + c)
    ensures c == [] ==> a + b + c == a + b
  {
  }

  /** `p` is a prefix of `s`. */
  predicate IsPrefix(p: string, s: string) {
    |p| <= |s| && s[..|p|] == p
  }

  /** Python's `p in s` for strings: `p` occurs somewhere in `s`
      (the empty string occurs in every string). */
  predicate Contains(s: string, p: string)
    decreases |s|
  {
    IsPrefix(p, s) || (|s| > 0 && Contains(s[1..], p))
  }

  /** `p` occurs in `s` starting at index `i`. */
  predicate OccursAt(s: string, p: string, i: int) {
    0 <= i && i + |p| <= |s| && s[i..i + |p|] == p
  }

  /** The recursive search finds exactly the strings that occur at some index. */
  lemma {:induction false} ContainsIffOccurs(s: string, p: string)
    ensures Contains(s, p) <==> exists i :: OccursAt(s, p, i)
    decreases |s|
  {
    if IsPrefix(p, s) {
      assert OccursAt(s, p, 0);
    } else if |s| > 0 {
      ContainsIffOccurs(s[1..], p);
      if Contains(s[1..], p) {
        var i :| OccursAt(s[1..], p, i);
        OccursShift(s, p, i + 1);
      } else {
        forall i ensures !OccursAt(s, p, i) {
          if i > 0 {
            OccursShift(s, p, i);
          }
        }
      }
    }
  }

  /** An occurrence at `i > 0` is an occurrence at `i - 1` in the tail. */
  lemma OccursShift(s: string, p: string, i: int)
    requires |s| > 0 && 0 < i
    ensures OccursAt(s, p, i) <==> OccursAt(s[1..], p, i - 1)
  {
    if i + |p| <= |s| {
      assert s[1..][i - 1..i - 1 + |p|] == s[i..i + |p|];
    }
  }

  predicate IsUpper(c: char) {
    'A' <= c <= 'Z'
  }

  /** Lower-cases one ASCII letter; every other character is kept. */
  function LowerChar(c: char): (r: char)
    ensures !IsUpper(r)
    ensures IsUpper(c) ==> r as int == c as int + 32
    ensures !IsUpper(c) ==> r == c
  {
    if IsUpper(c) then (c as int + 32) as char else c
  }

  /** `str.lower()` on ASCII: same length, no upper-case letter left, and every
      character either kept or replaced by its lower-case form. */
  function ToLower(s: string): (r: string)
    ensures |r| == |s|
    ensures forall i :: 0 <= i < |r| ==> !IsUpper(r[i])
    ensures forall i :: 0 <= i < |s| && !IsUpper(s[i]) ==> r[i] == s[i]
    ensures forall i :: 0 <= i < |s| && IsUpper(s[i]) ==> r[i] as int == s[i] as int + 32
  {
    seq(|s|, i requires 0 <= i < |s| => LowerChar(s[i]))
  }
}
