/**
 * The few Python string and sequence operations the numpy helpers rely on:
 * `str.split` on a one-character separator, its inverse `sep.join`,
 * `str.startswith`, and the lexicographic `<` that Python applies both to
 * strings (by code point) and to tuples (element by element).
 */
module Strings {

  /** `s.split(sep)`: the maximal runs between separators, always at least one (possibly empty) part. */
  function Split(s: string, sep: char): (parts: seq<string>)
    ensures |parts| >= 1
    ensures forall i :: 0 <= i < |parts| ==> sep !in parts[i]
    decreases |s|
  {
    if |s| == 0 then
      [""]
    else
      var rest := Split(s[1..], sep);
      if s[0] == sep then [""] + rest
      else [[s[0]] + rest[0]] + rest[1..]
  }

  /** `sep.join(parts)` for a non-empty list of parts. */
  function Join(parts: seq<string>, sep: char): (r: string)
    requires |parts| >= 1
    decreases |parts|
  {
    if |parts| == 1 then parts[0] else parts[0] + [sep] + Join(parts[1..], sep)
  }

  /** Joining the parts of a split with the same separator gives back the original string. */
  lemma {:induction false} JoinSplit(s: string, sep: char)
    ensures Join(Split(s, sep), sep) == s
    decreases |s|
  {
    if |s| > 0 {
      var rest := Split(s[1..], sep);
      JoinSplit(s[1..], sep);
      if s[0] == sep {
        assert Split(s, sep) == [""] + rest;
        assert ([""] + rest)[1..] == rest;
        assert s == [sep] + s[1..];
      } else {
        var parts := [[s[0]] + rest[0]] + rest[1..];
        assert Split(s, sep) == parts;
        if |rest| == 1 {
          assert Join(parts, sep) == [s[0]] + rest[0];
        } else {
          assert parts[1..] == rest[1..];
          assert Join(rest, sep) == rest[0] + [sep] + Join(rest[1..], sep);
          assert Join(parts, sep) == [s[0]] + rest[0] + [sep] + Join(rest[1..], sep);
        }
        assert s == [s[0]] + s[1..];
      }
    }
  }

  /** A string without the separator splits into itself alone. */
  lemma {:induction false} SplitWithoutSeparator(s: string, sep: char)
    requires sep !in s
    ensures Split(s, sep) == [s]
    decreases |s|
  {
    if |s| > 0 {
      assert sep !in s[1..];
      SplitWithoutSeparator(s[1..], sep);
      assert s == [s[0]] + s[1..];
    }
  }

  /** Splitting a separator-free part, a separator, then anything, peels off that part. */
  lemma {:induction false} SplitAfterFirstSeparator(p: string, sep: char, t: string)
    requires sep !in p
    ensures Split(p + [sep] + t, sep) == [p] + Split(t, sep)
    decreases |p|
  {
    var s := p + [sep] + t;
    if |p| == 0 {
      assert s[0] == sep && s[1..] == t;
    } else {
      assert s[0] == p[0] && s[1..] == p[1..] + [sep] + t;
      assert sep !in p[1..];
      SplitAfterFirstSeparator(p[1..], sep, t);
      var rest := Split(s[1..], sep);
      assert rest == [p[1..]] + Split(t, sep);
      assert [s[0]] + rest[0] == p;
      assert rest[1..] == Split(t, sep);
    }
  }

  /** Splitting a join of separator-free parts gives back the parts. */
  lemma {:induction false} SplitJoin(parts: seq<string>, sep: char)
    requires |parts| >= 1
    requires forall i :: 0 <= i < |parts| ==> sep !in parts[i]
    ensures Split(Join(parts, sep), sep) == parts
    decreases |parts|
  {
    if |parts| == 1 {
      SplitWithoutSeparator(parts[0], sep);
    } else {
      assert forall i :: 0 <= i < |parts| - 1 ==> parts[1..][i] == parts[i + 1];
      SplitJoin(parts[1..], sep);
      SplitAfterFirstSeparator(parts[0], sep, Join(parts[1..], sep));
      assert parts == [parts[0]] + parts[1..];
    }
  }

  /** `s.startswith(prefix)`. */
  predicate StartsWith(s: string, prefix: string)
  {
    |prefix| <= |s| && s[..|prefix|] == prefix
  }

  /**
   * Python's `a < b` on sequences ordered element-wise by `less`: the first
   * position where they differ decides, and a proper prefix is smaller.
   */
  predicate LexLess<T(==)>(a: seq<T>, b: seq<T>, less: (T, T) -> bool)
    decreases |a|
  {
    if |a| == 0 then |b| > 0
    else if |b| == 0 then false
    else if a[0] != b[0] then less(a[0], b[0])
    else LexLess(a[1..], b[1..], less)
  }

  /** `a` is a proper prefix of `b`. */
  ghost predicate ProperPrefix<T>(a: seq<T>, b: seq<T>)
  {
    |a| < |b| && a == b[..|a|]
  }

  /** `a` and `b` agree before position `k`, and at `k` the element of `a` is the smaller one. */
  ghost predicate SmallerAt<T>(a: seq<T>, b: seq<T>, less: (T, T) -> bool, k: int)
  {
    0 <= k < |a| && k < |b| && a[..k] == b[..k] && a[k] != b[k] && less(a[k], b[k])
  }

  /** Dropping a common first element keeps the prefix relation. */
  lemma ProperPrefixTail<T>(a: seq<T>, b: seq<T>)
    requires |a| > 0 && |b| > 0 && a[0] == b[0]
    ensures ProperPrefix(a, b) <==> ProperPrefix(a[1..], b[1..])
  {
  }

  /** Dropping a common first element shifts the deciding position by one. */
  lemma SmallerAtTail<T>(a: seq<T>, b: seq<T>, less: (T, T) -> bool, k: int)
    requires |a| > 0 && |b| > 0 && a[0] == b[0] && k > 0
    ensures SmallerAt(a, b, less, k) <==> SmallerAt(a[1..], b[1..], less, k - 1)
  {
    if k <= |a| && k <= |b| {
      assert a[..k] == [a[0]] + a[1..][..k - 1];
      assert b[..k] == [b[0]] + b[1..][..k - 1];
      assert a[..k] == b[..k] <==> a[1..][..k - 1] == b[1..][..k - 1];
    }
  }

  /**
   * The lexicographic order, stated without recursion: `a` is a proper
   * prefix of `b`, or at the first position where they differ `a`'s element
   * is the smaller one.
   */
  lemma {:induction false} LexLessCharacterised<T>(a: seq<T>, b: seq<T>, less: (T, T) -> bool)
    ensures LexLess(a, b, less) <==> ProperPrefix(a, b) || exists k :: SmallerAt(a, b, less, k)
    decreases |a|
  {
    if |a| == 0 {
      if |b| > 0 {
        assert ProperPrefix(a, b);
      }
    } else if |b| == 0 {
    } else if a[0] != b[0] {
      if less(a[0], b[0]) {
        assert a[..0] == b[..0];
        assert SmallerAt(a, b, less, 0);
      }
    } else {
      LexLessCharacterised(a[1..], b[1..], less);
      ProperPrefixTail(a, b);
      if exists k :: SmallerAt(a, b, less, k) {
        var k :| SmallerAt(a, b, less, k);
        SmallerAtTail(a, b, less, k);
      }
      if exists j :: SmallerAt(a[1..], b[1..], less, j) {
        var j :| SmallerAt(a[1..], b[1..], less, j);
        SmallerAtTail(a, b, less, j + 1);
      }
    }
  }

  /** No sequence is smaller than itself, whatever the element order. */
  lemma {:induction false} LexLessIrreflexive<T>(a: seq<T>, less: (T, T) -> bool)
    ensures !LexLess(a, a, less)
    decreases |a|
  {
    if |a| > 0 {
      LexLessIrreflexive(a[1..], less);
    }
  }

  /** Over an asymmetric element order, `a < b` and `b < a` never both hold. */
  lemma {:induction false} LexLessAsymmetric<T>(a: seq<T>, b: seq<T>, less: (T, T) -> bool)
    requires forall x, y :: less(x, y) ==> !less(y, x)
    ensures LexLess(a, b, less) ==> !LexLess(b, a, less)
    decreases |a|
  {
    if |a| > 0 && |b| > 0 && a[0] == b[0] {
      LexLessAsymmetric(a[1..], b[1..], less);
    }
  }

  /** Code-point order on characters. */
  predicate CharLess(x: char, y: char)
  {
    x < y
  }

  /** Python's `<` on strings. */
  predicate StrLess(a: string, b: string)
  {
    LexLess(a, b, CharLess)
  }

  /** Python's `<` on tuples of strings. */
  predicate TupleLess(a: seq<string>, b: seq<string>)
  {
    LexLess(a, b, StrLess)
  }

  /** Python's string `<` is asymmetric, and so therefore is its tuple `<` over strings. */
  lemma TupleLessAsymmetric(a: seq<string>, b: seq<string>)
    ensures TupleLess(a, b) ==> !TupleLess(b, a)
  {
    forall x: string, y: string | StrLess(x, y)
      ensures !StrLess(y, x)
    {
      LexLessAsymmetric(x, y, CharLess);
    }
    LexLessAsymmetric(a, b, StrLess);
  }
}
