/**
 * The handful of JavaScript string operations the portal relies on:
 * `String.prototype.split` with a one-character separator,
 * `String.prototype.includes` and an ASCII `toUpperCase`; and `Join`, the
 * inverse of `split`, which builds dotted translation keys such as "nav.dashboard".
 */
module Strings {

  import opened Wrappers

  /** `s.split(sep)`: the pieces between separators, empty pieces included. */
  function Split(s: string, sep: char): (parts: seq<string>)
    ensures |parts| >= 1
    ensures forall i :: 0 <= i < |parts| ==> sep !in parts[i]
    decreases |s|
  {
    if s == [] then [""]
    else
      var rest := Split(s[1..], sep);
      if s[0] == sep then [""] + rest
      else [[s[0]] + rest[0]] + rest[1..]
  }

  /** `parts.join(sep)`: the string `split` takes apart. */
  function Join(parts: seq<string>, sep: char): (s: string)
    ensures parts != [] ==> parts[0] <= s
    ensures |parts| > 1 ==> |s| > |parts[0]| && s[|parts[0]|] == sep
    ensures |s| >= |parts| - 1
    decreases |parts|
  {
    if |parts| == 0 then ""
    else if |parts| == 1 then parts[0]
    else parts[0] + [sep] + Join(parts[1..], sep)
  }

  /** Joining the pieces of a split with the same separator gives back the string. */
  lemma {:induction false} JoinSplit(s: string, sep: char)
    ensures Join(Split(s, sep), sep) == s
    decreases |s|
  {
    if s != [] {
      var rest := Split(s[1..], sep);
      JoinSplit(s[1..], sep);
      if s[0] == sep {
        assert Split(s, sep) == [""] + rest;
        assert ([""] + rest)[1..] == rest;
      } else if |rest| > 1 {
        var parts := Split(s, sep);
        assert parts[1..] == rest[1..];
        assert Join(rest, sep) == rest[0] + [sep] + Join(rest[1..], sep);
        assert s == [s[0]] + s[1..];
      } else {
        assert s == [s[0]] + s[1..];
      }
    }
  }

  /** A separator splits a string into the pieces of its two sides. */
  lemma {:induction false} SplitConcat(x: string, y: string, sep: char)
    ensures Split(x + [sep] + y, sep) == Split(x, sep) + Split(y, sep)
    decreases |x|
  {
    if x == [] {
      assert (x + [sep] + y)[1..] == y;
    } else {
      var z := x + [sep] + y;
      assert z[0] == x[0];
      assert z[1..] == x[1..] + [sep] + y;
      SplitConcat(x[1..], y, sep);
    }
  }

  /** A piece without separators splits into itself. */
  lemma {:induction false} SplitPiece(w: string, sep: char)
    requires sep !in w
    ensures Split(w, sep) == [w]
    decreases |w|
  {
    if w != [] {
      assert sep !in w[1..] by {
        forall i | 0 <= i < |w[1..]| ensures w[1..][i] != sep { assert w[1..][i] == w[i + 1]; }
      }
      SplitPiece(w[1..], sep);
      assert w == [w[0]] + w[1..];
    }
  }

  /** Splitting a join of separator-free pieces gives back the pieces. */
  lemma {:induction false} SplitJoin(parts: seq<string>, sep: char)
    requires |parts| >= 1
    requires forall i :: 0 <= i < |parts| ==> sep !in parts[i]
    ensures Split(Join(parts, sep), sep) == parts
    decreases |parts|
  {
    if |parts| == 1 {
      SplitPiece(parts[0], sep);
    } else {
      SplitConcat(parts[0], Join(parts[1..], sep), sep);
      SplitPiece(parts[0], sep);
      SplitJoin(parts[1..], sep);
      assert parts == [parts[0]] + parts[1..];
    }
  }

  /** `s.includes(sub)`: `sub` occurs somewhere in `s`. */
  predicate Contains(s: string, sub: string): (found: bool)
    ensures sub <= s ==> found
    ensures found ==> |sub| <= |s|
    decreases |s|
  {
    sub <= s || (s != [] && Contains(s[1..], sub))
  }

  /** `sub` occurs in `s` starting at index `i`. */
  ghost predicate OccursAt(s: string, sub: string, i: int) {
    0 <= i <= |s| - |sub| && s[i..i + |sub|] == sub
  }

  /** `Contains` holds exactly when `sub` occurs at some index of `s`. */
  lemma {:induction false} ContainsIffOccurs(s: string, sub: string)
    ensures Contains(s, sub) <==> exists i :: OccursAt(s, sub, i)
    decreases |s|
  {
    if sub <= s {
      assert s[0..|sub|] == sub;
      assert OccursAt(s, sub, 0);
    } else if s == [] {
    } else {
      ContainsIffOccurs(s[1..], sub);
      if exists i :: OccursAt(s, sub, i) {
        var i :| OccursAt(s, sub, i);
        assert i != 0;
        assert s[1..][i - 1..i - 1 + |sub|] == sub;
        assert OccursAt(s[1..], sub, i - 1);
      }
      if Contains(s[1..], sub) {
        var j :| OccursAt(s[1..], sub, j);
        assert s[j + 1..j + 1 + |sub|] == sub;
        assert OccursAt(s, sub, j + 1);
      }
    }
  }

  /** Text appended after an occurrence does not remove it. */
  lemma {:induction false} ContainsAppend(s: string, sub: string, t: string)
    requires Contains(s, sub)
    ensures Contains(s + t, sub)
    decreases |s|
  {
    if !(sub <= s) {
      assert (s + t)[1..] == s[1..] + t;
      ContainsAppend(s[1..], sub, t);
    }
  }

  /** ASCII `toUpperCase` of one character: only `a`..`z` change. */
  function UpperChar(c: char): (u: char)
    ensures 'a' <= c <= 'z' ==> 'A' <= u <= 'Z' && u as int == c as int - 32
    ensures !('a' <= c <= 'z') ==> u == c
  {
    if 'a' <= c <= 'z' then (c as int - 32) as char else c
  }

  /** ASCII `toUpperCase` of a string, character by character. */
  function Upper(s: string): (u: string)
    ensures |u| == |s|
    ensures forall i :: 0 <= i < |s| ==> u[i] == UpperChar(s[i])
  {
    seq(|s|, i requires 0 <= i < |s| => UpperChar(s[i]))
  }

  /**
   * JavaScript's `v || fallback` on a string that may be `undefined`:
   * both a missing value and the empty string are falsy.
   */
  function OrElse(v: Option<string>, fallback: string): (r: string)
    ensures v.Some? && v.value != "" ==> r == v.value
    ensures v.None? || v.value == "" ==> r == fallback
  {
    if v.Some? && v.value != "" then v.value else fallback
  }
}
