/** String helpers standing in for the Python built-ins the core uses:
    `str.lower()`, string comparison and `sorted`, `"c" * n`, `f"{s:<w}"`. */
module Text {

  predicate IsUpper(c: char) {
    'A' <= c <= 'Z'
  }

  /** `str.lower()` on one character, for the ASCII letters. */
  function LowerChar(c: char): (r: char)
    ensures !IsUpper(r)
    ensures !IsUpper(c) ==> r == c
    ensures IsUpper(c) ==> 'a' <= r <= 'z' && r as int - c as int == 'a' as int - 'A' as int
  {
    if IsUpper(c) then (c as int + 32) as char else c
  }

  /** `str.lower()`: every upper-case ASCII letter becomes lower case. */
  function Lower(s: string): (r: string)
    ensures |r| == |s|
    ensures forall i :: 0 <= i < |s| ==> r[i] == LowerChar(s[i])
    ensures forall i :: 0 <= i < |r| ==> !IsUpper(r[i])
  {
    if s == [] then [] else [LowerChar(s[0])] + Lower(s[1..])
  }

  /** A string with no upper-case letter is its own lower-case form. */
  lemma {:induction false} LowerOfLowerCase(s: string)
    requires forall i :: 0 <= i < |s| ==> !IsUpper(s[i])
    ensures Lower(s) == s
  {
    if s != [] {
      LowerOfLowerCase(s[1..]);
    }
  }

  /** Lowering twice is lowering once, so a lowered name is a case-variant
      of the name it came from. */
  lemma LowerIdempotent(s: string)
    ensures Lower(Lower(s)) == Lower(s)
  {
    LowerOfLowerCase(Lower(s));
  }

  /** Python's `str.__le__`: code-point lexicographic order, a proper prefix first. */
  predicate LessEq(a: string, b: string)
    decreases |a|
  {
    a == [] || (b != [] && (a[0] < b[0] || (a[0] == b[0] && LessEq(a[1..], b[1..]))))
  }

  predicate Less(a: string, b: string) {
    LessEq(a, b) && a != b
  }

  lemma {:induction false} LessEqReflexive(a: string)
    ensures LessEq(a, a)
  {
    if a != [] {
      LessEqReflexive(a[1..]);
    }
  }

  lemma {:induction false} LessEqTotal(a: string, b: string)
    ensures LessEq(a, b) || LessEq(b, a)
  {
    if a != [] && b != [] && a[0] == b[0] {
      LessEqTotal(a[1..], b[1..]);
    }
  }

  lemma {:induction false} LessEqAntisymmetric(a: string, b: string)
    requires LessEq(a, b) && LessEq(b, a)
    ensures a == b
  {
    if a != [] && b != [] {
      LessEqAntisymmetric(a[1..], b[1..]);
      assert a == [a[0]] + a[1..];
      assert b == [b[0]] + b[1..];
    }
  }

  lemma {:induction false} LessEqTransitive(a: string, b: string, c: string)
    requires LessEq(a, b) && LessEq(b, c)
    ensures LessEq(a, c)
  {
    if a != [] && b != [] && c != [] && a[0] == b[0] == c[0] {
      LessEqTransitive(a[1..], b[1..], c[1..]);
    }
  }

  /** `m` is the first of the strings in `s`. */
  predicate IsLeast(m: string, s: set<string>) {
    m in s && forall x :: x in s ==> LessEq(m, x)
  }

  lemma {:induction false} LeastExists(s: set<string>)
    requires s != {}
    ensures exists m :: IsLeast(m, s)
    decreases |s|
  {
    var y :| y in s;
    LessEqReflexive(y);
    if s != {y} {
      LeastExists(s - {y});
      var m :| IsLeast(m, s - {y});
      LessEqTotal(m, y);
      if LessEq(m, y) {
        assert IsLeast(m, s);
      } else {
        forall x | x in s
          ensures LessEq(y, x)
        {
          if x != y {
            LessEqTransitive(y, m, x);
          }
        }
        assert IsLeast(y, s);
      }
    } else {
      assert IsLeast(y, s);
    }
  }

  lemma LeastUnique(s: set<string>)
    ensures forall m, n :: IsLeast(m, s) && IsLeast(n, s) ==> m == n
  {
    forall m, n | IsLeast(m, s) && IsLeast(n, s)
      ensures m == n
    {
      LessEqAntisymmetric(m, n);
    }
  }

  /** `sorted(keys)`: every key exactly once (in strictly ascending order,
      by `SortedKeysAscending`). */
  function SortedKeys(s: set<string>): (r: seq<string>)
    ensures |r| == |s|
    ensures forall x :: x in r <==> x in s
    decreases |s|
  {
    if s == {} then []
    else
      LeastExists(s);
      LeastUnique(s);
      var m :| m in s && IsLeast(m, s);
      [m] + SortedKeys(s - {m})
  }

  /** Every string of `r` is smaller than every later one. */
  predicate Ascending(r: seq<string>) {
    forall i, j :: 0 <= i < j < |r| ==> Less(r[i], r[j])
  }

  lemma {:induction false} AscendingCons(m: string, rest: seq<string>)
    requires Ascending(rest)
    requires forall j :: 0 <= j < |rest| ==> Less(m, rest[j])
    ensures Ascending([m] + rest)
  {
    var r := [m] + rest;
    forall i, j | 0 <= i < j < |r|
      ensures Less(r[i], r[j])
    {
      assert r[j] == rest[j - 1];
      if i > 0 {
        assert r[i] == rest[i - 1];
      }
    }
  }

  /** `sorted` puts the keys in strictly ascending order. */
  lemma {:induction false} SortedKeysAscending(s: set<string>)
    ensures Ascending(SortedKeys(s))
    decreases |s|
  {
    if s != {} {
      LeastExists(s);
      LeastUnique(s);
      var m :| m in s && IsLeast(m, s);
      var rest := SortedKeys(s - {m});
      assert SortedKeys(s) == [m] + rest;
      SortedKeysAscending(s - {m});
      forall j | 0 <= j < |rest|
        ensures Less(m, rest[j])
      {
        assert rest[j] in s - {m};
      }
      AscendingCons(m, rest);
    }
  }

  /** `c * n`. */
  function Repeat(c: char, n: nat): (r: string)
    ensures |r| == n
    ensures forall i :: 0 <= i < n ==> r[i] == c
  {
    if n == 0 then "" else Repeat(c, n - 1) + [c]
  }

  /** `f"{s:<width}"`: `s` left-aligned, filled with spaces up to `width`. */
  function PadRight(s: string, width: nat): (r: string)
    ensures s <= r
    ensures |r| == if |s| < width then width else |s|
    ensures forall i :: |s| <= i < |r| ==> r[i] == ' '
  {
    if |s| < width then s + Repeat(' ', width - |s|) else s
  }

  /** `piece in text`, with the position where `piece` starts. */
  predicate OccursAt(piece: string, text: string, k: nat) {
    k + |piece| <= |text| && text[k..k + |piece|] == piece
  }

  /** A piece occurs right after whatever precedes it. */
  lemma OccursBetween(p: string, piece: string, q: string)
    ensures OccursAt(piece, p + piece + q, |p|)
  {
    assert (p + piece + q)[|p|..|p| + |piece|] == piece;
  }

  /** An occurrence inside an occurrence occurs in the whole text. */
  lemma OccursWithin(sub: string, piece: string, text: string, j: nat, k: nat)
    requires OccursAt(sub, piece, j) && OccursAt(piece, text, k)
    ensures OccursAt(sub, text, k + j)
  {
    forall t | 0 <= t < |sub|
      ensures text[k + j + t] == sub[t]
    {
      assert piece[j + t] == sub[t];
      assert text[k..k + |piece|][j + t] == text[k + j + t];
    }
  }

  /** Prepending text moves an occurrence along by its length. */
  lemma OccursShifted(piece: string, text: string, pre: string, k: nat)
    requires OccursAt(piece, text, k)
    ensures OccursAt(piece, pre + text, |pre| + k)
  {
    assert (pre + text)[|pre| + k..|pre| + k + |piece|] == text[k..k + |piece|];
  }

  /** Appending text keeps an occurrence where it was. */
  lemma OccursExtended(piece: string, text: string, rest: string, k: nat)
    requires OccursAt(piece, text, k)
    ensures OccursAt(piece, text + rest, k)
  {
    assert (text + rest)[k..k + |piece|] == text[k..k + |piece|];
  }

  /** An occurrence survives text added on both sides. */
  lemma OccursFramed(piece: string, pre: string, text: string, post: string, k: nat)
    requires OccursAt(piece, text, k)
    ensures OccursAt(piece, pre + text + post, |pre| + k)
  {
    OccursShifted(piece, text, pre, k);
    OccursExtended(piece, pre + text, post, |pre| + k);
  }
}
