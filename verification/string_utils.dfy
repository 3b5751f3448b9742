/**
 * The few JavaScript string operations the core relies on, on `seq<char>`:
 * `String.prototype.split` with a one-character separator, `Array.prototype.join`,
 * ASCII `toLowerCase`, prefix tests and decimal rendering of numbers.
 */
module StringUtils {

  /** ASCII lower-casing of one character. */
  function LowerChar(c: char): char {
    if 'A' <= c <= 'Z' then (c as int + 32) as char else c
  }

  /** `s.toLowerCase()` restricted to ASCII letters. */
  function ToLower(s: string): (r: string)
    ensures |r| == |s|
    ensures forall i :: 0 <= i < |s| ==> r[i] == LowerChar(s[i])
  {
    if s == [] then [] else [LowerChar(s[0])] + ToLower(s[1..])
  }

  predicate IsPrefix(p: string, s: string) {
    |p| <= |s| && s[..|p|] == p
  }

  /** `s.indexOf(t) > -1` */
  predicate Contains(s: string, t: string)
    decreases |s|
  {
    IsPrefix(t, s) || (s != [] && Contains(s[1..], t))
  }

  /** `s.split(sep)` for a one-character separator: the pieces between separators, empty ones included. */
  function Split(s: string, sep: char): (parts: seq<string>)
    ensures |parts| >= 1
    ensures forall k :: 0 <= k < |parts| ==> sep !in parts[k]
    decreases |s|
  {
    if s == [] then [[]]
    else if s[0] == sep then [[]] + Split(s[1..], sep)
    else
      var rest := Split(s[1..], sep);
      [[s[0]] + rest[0]] + rest[1..]
  }

  /** `parts.join(sep)` */
  function Join(parts: seq<string>, sep: char): string {
    if parts == [] then []
    else if |parts| == 1 then parts[0]
    else parts[0] + [sep] + Join(parts[1..], sep)
  }

  /** Joining the pieces of a split gives the original string back. */
  lemma {:induction false} JoinSplit(s: string, sep: char)
    ensures Join(Split(s, sep), sep) == s
    decreases |s|
  {
    if s == [] {
    } else if s[0] == sep {
      var rest := Split(s[1..], sep);
      JoinSplit(s[1..], sep);
      assert Split(s, sep) == [[]] + rest;
      assert Join(Split(s, sep), sep) == [] + [sep] + Join(rest, sep);
    } else {
      var rest := Split(s[1..], sep);
      JoinSplit(s[1..], sep);
      var parts := Split(s, sep);
      assert parts[0] == [s[0]] + rest[0] && parts[1..] == rest[1..];
      if |rest| == 1 {
        assert Join(rest, sep) == rest[0];
      } else {
        assert Join(rest, sep) == rest[0] + [sep] + Join(rest[1..], sep);
        assert Join(parts, sep) == parts[0] + [sep] + Join(parts[1..], sep);
      }
    }
  }

  /** The first piece of a split is a prefix of the string and holds no separator. */
  lemma {:induction false} SplitHeadIsPrefix(s: string, sep: char)
    ensures IsPrefix(Split(s, sep)[0], s)
    decreases |s|
  {
    if s != [] && s[0] != sep {
      SplitHeadIsPrefix(s[1..], sep);
    }
  }

  /** Joining the first `n` pieces of a split gives a prefix of the string. */
  lemma {:induction false} JoinSplitPrefix(s: string, sep: char, n: nat)
    requires n <= |Split(s, sep)|
    ensures IsPrefix(Join(Split(s, sep)[..n], sep), s)
    decreases |s|
  {
    var parts := Split(s, sep);
    if n == 0 || s == [] {
      assert n == 1 ==> parts[..n] == [[]];
    } else if s[0] == sep {
      var rest := Split(s[1..], sep);
      assert parts == [[]] + rest;
      if n == 1 {
        assert parts[..n] == [[]];
      } else {
        JoinSplitPrefix(s[1..], sep, n - 1);
        assert parts[..n] == [[]] + rest[..n - 1];
        PrefixCons(sep, Join(rest[..n - 1], sep), s[1..]);
      }
    } else {
      var rest := Split(s[1..], sep);
      JoinSplitPrefix(s[1..], sep, n);
      assert parts[..n] == [[s[0]] + rest[..n][0]] + rest[..n][1..];
      JoinConsChar(s[0], rest[..n], sep);
      PrefixCons(s[0], Join(rest[..n], sep), s[1..]);
    }
  }

  /** Adding a character to the first piece adds it in front of the joined string. */
  lemma JoinConsChar(c: char, ps: seq<string>, sep: char)
    requires |ps| >= 1
    ensures Join([[c] + ps[0]] + ps[1..], sep) == [c] + Join(ps, sep)
  {
    var qs := [[c] + ps[0]] + ps[1..];
    if |ps| > 1 {
      assert qs[1..] == ps[1..];
    }
  }

  lemma PrefixCons(c: char, p: string, s: string)
    requires IsPrefix(p, s)
    ensures IsPrefix([c] + p, [c] + s)
  {
    assert ([c] + s)[..|p| + 1] == [c] + s[..|p|];
  }

  /** A string without the separator is a single piece. */
  lemma {:induction false} SplitNoSep(a: string, sep: char)
    requires sep !in a
    ensures Split(a, sep) == [a]
    decreases |a|
  {
    if a != [] {
      SplitNoSep(a[1..], sep);
      assert [a[0]] + a[1..] == a;
    }
  }

  /** Splitting at a separator that follows a separator-free piece. */
  lemma {:induction false} SplitAfterPiece(a: string, b: string, sep: char)
    requires sep !in a
    ensures Split(a + [sep] + b, sep) == [a] + Split(b, sep)
    decreases |a|
  {
    if a != [] {
      SplitAfterPiece(a[1..], b, sep);
      assert (a + [sep] + b)[1..] == a[1..] + [sep] + b;
      assert (a + [sep] + b)[0] == a[0];
      assert [a[0]] + a[1..] == a;
    } else {
      assert a + [sep] + b == [sep] + b;
      assert ([sep] + b)[1..] == b;
    }
  }

  /** Splitting at a separator that precedes a separator-free piece. */
  lemma {:induction false} SplitBeforePiece(a: string, b: string, sep: char)
    requires sep !in b
    ensures Split(a + [sep] + b, sep) == Split(a, sep) + [b]
    decreases |a|
  {
    if a == [] {
      assert a + [sep] + b == [sep] + b;
      assert ([sep] + b)[1..] == b;
      SplitNoSep(b, sep);
    } else {
      SplitBeforePiece(a[1..], b, sep);
      assert (a + [sep] + b)[1..] == a[1..] + [sep] + b;
    }
  }

  /** Joining two non-empty lists of pieces puts one separator between them. */
  lemma {:induction false} JoinAppend(xs: seq<string>, ys: seq<string>, sep: char)
    requires xs != [] && ys != []
    ensures Join(xs + ys, sep) == Join(xs, sep) + [sep] + Join(ys, sep)
    decreases |xs|
  {
    if |xs| == 1 {
      assert (xs + ys)[1..] == ys;
    } else {
      JoinAppend(xs[1..], ys, sep);
      assert (xs + ys)[1..] == xs[1..] + ys;
    }
  }

  lemma {:induction false} ContainsInfix(a: string, t: string, b: string)
    ensures Contains(a + t + b, t)
    decreases |a|
  {
    if a == [] {
      assert (a + t + b)[..|t|] == t;
    } else {
      ContainsInfix(a[1..], t, b);
      assert (a + t + b)[1..] == a[1..] + t + b;
    }
  }
}
