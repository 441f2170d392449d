/** The handful of Go `strings` operations the backup runner relies on,
    restricted to ASCII case mapping. */
module Strings {

  predicate IsUpper(c: char) { 'A' <= c <= 'Z' }

  predicate IsLower(c: char) { 'a' <= c <= 'z' }

  /** No ASCII upper-case letter occurs in `s`. */
  predicate NoUpper(s: string) {
    forall i :: 0 <= i < |s| ==> !IsUpper(s[i])
  }

  /** ASCII case mapping of one character (`unicode.ToLower` on ASCII). */
  function LowerChar(c: char): (r: char)
    ensures !IsUpper(r)
    ensures IsLower(r) <==> IsUpper(c) || IsLower(c)
    ensures !IsUpper(c) ==> r == c
  {
    if IsUpper(c) then (c as int + 32) as char else c
  }

  /** `strings.ToLower`, character by character. */
  function Lower(s: string): (r: string)
    ensures |r| == |s|
    ensures forall i :: 0 <= i < |s| ==> r[i] == LowerChar(s[i])
    ensures NoUpper(r)
  {
    if s == [] then [] else [LowerChar(s[0])] + Lower(s[1..])
  }

  /** `strings.Replace(s, " ", "", -1)`: every ASCII space removed, every
      other character (tabs included) kept in order. */
  function RemoveSpaces(s: string): (r: string)
    ensures |r| <= |s|
    ensures ' ' !in r
  {
    if s == [] then []
    else (if s[0] == ' ' then [] else [s[0]]) + RemoveSpaces(s[1..])
  }

  predicate HasPrefix(s: string, p: string) { p <= s }

  predicate HasSuffix(s: string, x: string) {
    |x| <= |s| && s[|s| - |x|..] == x
  }

  /** `strings.TrimPrefix`: drops `p` once from the front, if it is there. */
  function TrimPrefix(s: string, p: string): (r: string)
    ensures HasPrefix(s, p) ==> p + r == s
    ensures !HasPrefix(s, p) ==> r == s
  {
    if HasPrefix(s, p) then s[|p|..] else s
  }

  /** `strings.TrimSuffix`: drops `x` once from the end, if it is there. */
  function TrimSuffix(s: string, x: string): (r: string)
    ensures HasSuffix(s, x) ==> r + x == s
    ensures !HasSuffix(s, x) ==> r == s
  {
    if HasSuffix(s, x) then s[..|s| - |x|] else s
  }

  /** Lower-casing twice is lower-casing once. */
  lemma LowerIdempotent(s: string)
    ensures Lower(Lower(s)) == Lower(s)
  {
  }

  /** Space removal keeps every character other than `' '` and invents
      none. */
  lemma {:induction false} RemoveSpacesKeeps(s: string)
    ensures forall c :: c in RemoveSpaces(s) <==> c in s && c != ' '
  {
    if s != [] {
      RemoveSpacesKeeps(s[1..]);
      assert s == [s[0]] + s[1..];
    }
  }

  /** Removing spaces and lower-casing commute, so the order the source
      applies them in does not matter. */
  lemma {:induction false} LowerRemoveSpacesCommute(s: string)
    ensures Lower(RemoveSpaces(s)) == RemoveSpaces(Lower(s))
  {
    if s != [] {
      LowerRemoveSpacesCommute(s[1..]);
      assert Lower(s)[1..] == Lower(s[1..]);
      var head := if s[0] == ' ' then [] else [s[0]];
      LowerAppend(head, RemoveSpaces(s[1..]));
    }
  }

  lemma LowerAppend(a: string, b: string)
    ensures Lower(a + b) == Lower(a) + Lower(b)
  {
    var l, r := Lower(a + b), Lower(a) + Lower(b);
    assert |l| == |r|;
    forall i | 0 <= i < |l|
      ensures l[i] == r[i]
    {
      if i < |a| {
        assert (a + b)[i] == a[i];
      } else {
        assert (a + b)[i] == b[i - |a|];
      }
    }
  }

  /** A string that already has no spaces is left alone. */
  lemma {:induction false} RemoveSpacesNoop(s: string)
    requires ' ' !in s
    ensures RemoveSpaces(s) == s
  {
    if s != [] {
      RemoveSpacesNoop(s[1..]);
    }
  }

  /** Space removal works piecewise. */
  lemma {:induction false} RemoveSpacesAppend(a: string, b: string)
    ensures RemoveSpaces(a + b) == RemoveSpaces(a) + RemoveSpaces(b)
  {
    if a != [] {
      var head := if a[0] == ' ' then [] else [a[0]];
      assert (a + b)[0] == a[0];
      assert (a + b)[1..] == a[1..] + b;
      RemoveSpacesAppend(a[1..], b);
      calc {
        RemoveSpaces(a + b);
        head + RemoveSpaces(a[1..] + b);
        head + (RemoveSpaces(a[1..]) + RemoveSpaces(b));
        (head + RemoveSpaces(a[1..])) + RemoveSpaces(b);
      }
    } else {
      assert a + b == b;
    }
  }
}
