/**
 * The Python string builtins that chiki/utils.py relies on, restricted to
 * what its helpers use: ASCII lower-casing, substring search (`in`),
 * `str.replace`, `str.split` and `str.join` on one separator character,
 * `int()` on a run of decimal digits, `str()` of a natural number and
 * `str.strip()` with no argument.
 */
module Text {

  // ---------------------------------------------------------------- case

  function LowerChar(c: char): char {
    if 'A' <= c <= 'Z' then (c as int + 32) as char else c
  }

  /** ASCII lower-casing: same length, no upper-case letter left, others kept. */
  function Lower(s: string): (r: string)
    ensures |r| == |s|
    ensures forall i | 0 <= i < |r| :: !('A' <= r[i] <= 'Z')
    ensures forall i | 0 <= i < |r| :: !('A' <= s[i] <= 'Z') ==> r[i] == s[i]
    ensures forall i | 0 <= i < |r| :: 'A' <= s[i] <= 'Z' ==> r[i] as int == s[i] as int + 32
  {
    seq(|s|, i requires 0 <= i < |s| => LowerChar(s[i]))
  }

  // ------------------------------------------------------- substring test

  predicate StartsWith(s: string, prefix: string) {
    |prefix| <= |s| && s[..|prefix|] == prefix
  }

  /** Python's `pat in s`. */
  predicate Contains(s: string, pat: string)
    ensures Contains(s, pat) ==> |pat| <= |s|
    ensures StartsWith(s, pat) ==> Contains(s, pat)
  {
    assert s[0..] == s;
    exists i | 0 <= i <= |s| :: StartsWith(s[i..], pat)
  }

  lemma ContainsTail(s: string, pat: string)
    requires s != [] && Contains(s[1..], pat)
    ensures Contains(s, pat)
  {
    var i :| 0 <= i <= |s[1..]| && StartsWith(s[1..][i..], pat);
    assert s[1..][i..] == s[i + 1..];
  }

  /** A string that lacks some character of `pat` cannot contain `pat`. */
  lemma NotContainsMissingChar(s: string, pat: string, k: nat)
    requires k < |pat| && pat[k] !in s
    ensures !Contains(s, pat)
  {
    forall i | 0 <= i <= |s| ensures !StartsWith(s[i..], pat) {
      if i + k < |s| {
        assert s[i..][k] == s[i + k];
      }
    }
  }

  // ------------------------------------------------------------- replace

  /** Python's `s.replace(pat, rep)`: left to right, non-overlapping. */
  function Replace(s: string, pat: string, rep: string): (r: string)
    requires pat != []
    ensures |rep| <= |pat| ==> |r| <= |s|
    ensures rep != [] && s != [] ==> r != []
    decreases |s|
  {
    if s == [] then []
    else if StartsWith(s, pat) then rep + Replace(s[|pat|..], pat, rep)
    else [s[0]] + Replace(s[1..], pat, rep)
  }

  /**
   * The first occurrence of `pat` becomes `rep`: the text before it is kept
   * and the rest is replaced in turn.
   */
  lemma {:induction false} ReplaceFirst(a: string, pat: string, rep: string, b: string)
    requires pat != []
    requires forall i | 0 <= i < |a| :: !StartsWith((a + pat + b)[i..], pat)
    ensures Replace(a + pat + b, pat, rep) == a + rep + Replace(b, pat, rep)
    decreases |a|
  {
    var s := a + pat + b;
    if a == [] {
      assert s == pat + b && s[|pat|..] == b;
    } else {
      var t := a[1..] + pat + b;
      assert s == [a[0]] + t;
      assert s[0..] == s;
      ReplaceKeepsHead(a[0], t, pat, rep);
      forall i | 0 <= i < |a| - 1 ensures !StartsWith(t[i..], pat) {
        assert t[i..] == s[i + 1..];
      }
      ReplaceFirst(a[1..], pat, rep, b);
      assert a == [a[0]] + a[1..];
    }
  }

  /** A character that does not start an occurrence is copied. */
  lemma ReplaceKeepsHead(c: char, t: string, pat: string, rep: string)
    requires pat != [] && !StartsWith([c] + t, pat)
    ensures Replace([c] + t, pat, rep) == [c] + Replace(t, pat, rep)
  {
    assert ([c] + t)[1..] == t;
  }

  /** A string without an occurrence of `pat` is left as it is. */
  lemma {:induction false} ReplaceAbsent(s: string, pat: string, rep: string)
    requires pat != [] && !Contains(s, pat)
    ensures Replace(s, pat, rep) == s
    decreases |s|
  {
    if s != [] {
      assert s[0..] == s;
      assert !StartsWith(s, pat);
      if Contains(s[1..], pat) {
        ContainsTail(s, pat);
      }
      ReplaceAbsent(s[1..], pat, rep);
    }
  }

  /**
   * A prefix of the replaced string that avoids the replacement character
   * was already a prefix of the original.
   */
  lemma {:induction false} ReplacePrefixBack(t: string, pat: string, c: char, w: string)
    requires pat != [] && c !in w
    requires StartsWith(Replace(t, pat, [c]), w)
    ensures StartsWith(t, w)
    decreases |t|
  {
    if w != [] {
      var r := Replace(t, pat, [c]);
      assert t != [];
      assert r[0] == (if StartsWith(t, pat) then c else t[0]);
      assert w[0] == r[0] && w[0] in w;
      assert !StartsWith(t, pat);
      var r' := Replace(t[1..], pat, [c]);
      assert r == [t[0]] + r';
      assert r[1..] == r';
      assert r[..|w|] == w;
      assert r[..|w|][1..] == r[1..|w|] == r'[..|w| - 1];
      assert w[1..] == r'[..|w| - 1];
      ReplacePrefixBack(t[1..], pat, c, w[1..]);
      assert t[..|w|] == [t[0]] + t[1..][..|w| - 1];
    }
  }

  /**
   * After replacing every occurrence of `pat` by a single character that
   * does not occur in `pat`, no occurrence of `pat` is left.
   */
  lemma {:induction false} ReplaceRemovesAll(s: string, pat: string, c: char)
    requires pat != [] && c !in pat
    ensures !Contains(Replace(s, pat, [c]), pat)
    decreases |s|
  {
    var r := Replace(s, pat, [c]);
    if s == [] {
      assert r == [];
      assert !StartsWith(r[0..], pat);
    } else {
      var rest := if StartsWith(s, pat) then s[|pat|..] else s[1..];
      var r' := Replace(rest, pat, [c]);
      assert r == (if StartsWith(s, pat) then [c] else [s[0]]) + r';
      ReplaceRemovesAll(rest, pat, c);
      forall i | 0 <= i <= |r| ensures !StartsWith(r[i..], pat) {
        if i == 0 {
          if StartsWith(s, pat) {
            assert r[0] == c && pat[0] in pat;
          } else if StartsWith(r, pat) {
            assert r'[..|pat| - 1] == r[1..|pat|] == pat[1..];
            ReplacePrefixBack(s[1..], pat, c, pat[1..]);
            assert false;
          }
        } else {
          assert r[i..] == r'[i - 1..];
        }
      }
    }
  }

  /** Replacing by a character foreign to the pattern is idempotent. */
  lemma ReplaceIdempotent(s: string, pat: string, c: char)
    requires pat != [] && c !in pat
    ensures Replace(Replace(s, pat, [c]), pat, [c]) == Replace(s, pat, [c])
  {
    ReplaceRemovesAll(s, pat, c);
    ReplaceAbsent(Replace(s, pat, [c]), pat, [c]);
  }

  // ------------------------------------------------------- split and join

  /**
   * Python's `s.split(sep)` for one separator character: always at least
   * one piece, and no piece holds the separator.
   */
  function Split(s: string, sep: char): (parts: seq<string>)
    ensures |parts| >= 1
    ensures forall i | 0 <= i < |parts| :: sep !in parts[i]
    decreases |s|
  {
    if s == [] then [[]]
    else
      var rest := Split(s[1..], sep);
      assert s == [s[0]] + s[1..];
      if s[0] == sep then [[]] + rest
      else [[s[0]] + rest[0]] + rest[1..]
  }

  /** Python's `sep.join(parts)`. */
  function Join(parts: seq<string>, sep: char): (r: string)
    ensures |parts| >= 1 ==> StartsWith(r, parts[0])
    ensures |parts| >= 2 ==> sep in r
  {
    if |parts| == 0 then []
    else if |parts| == 1 then parts[0]
    else parts[0] + [sep] + Join(parts[1..], sep)
  }

  /** Joining the pieces of a split gives back the original string. */
  lemma {:induction false} JoinSplit(s: string, sep: char)
    ensures Join(Split(s, sep), sep) == s
    decreases |s|
  {
    if s != [] {
      var rest := Split(s[1..], sep);
      JoinSplit(s[1..], sep);
      if s[0] == sep {
        assert Join([[]] + rest, sep) == [sep] + Join(rest, sep);
      } else {
        var parts := [[s[0]] + rest[0]] + rest[1..];
        assert parts[1..] == rest[1..];
        if |rest| > 1 {
          assert Join(rest, sep) == rest[0] + [sep] + Join(rest[1..], sep);
        }
      }
    }
  }

  lemma {:induction false} SplitNoSep(p: string, sep: char)
    requires sep !in p
    ensures Split(p, sep) == [p]
    decreases |p|
  {
    if p != [] {
      SplitNoSep(p[1..], sep);
      assert p[0] != sep;
      assert [p[0]] + p[1..] == p;
    }
  }

  lemma {:induction false} SplitAtSep(p: string, sep: char, t: string)
    requires sep !in p
    ensures Split(p + [sep] + t, sep) == [p] + Split(t, sep)
    decreases |p|
  {
    var s := p + [sep] + t;
    if p == [] {
      assert s[1..] == t;
    } else {
      assert s[1..] == p[1..] + [sep] + t;
      SplitAtSep(p[1..], sep, t);
      assert [p[0]] + p[1..] == p;
    }
  }

  /** Splitting a join of separator-free pieces gives back the pieces. */
  lemma {:induction false} SplitJoin(parts: seq<string>, sep: char)
    requires |parts| >= 1
    requires forall i | 0 <= i < |parts| :: sep !in parts[i]
    ensures Split(Join(parts, sep), sep) == parts
    decreases |parts|
  {
    if |parts| == 1 {
      SplitNoSep(parts[0], sep);
    } else {
      SplitJoin(parts[1..], sep);
      SplitAtSep(parts[0], sep, Join(parts[1..], sep));
    }
  }

  /** A character other than the separator and absent from every piece is absent from the join. */
  lemma {:induction false} JoinAvoids(parts: seq<string>, sep: char, c: char)
    requires c != sep
    requires forall i | 0 <= i < |parts| :: c !in parts[i]
    ensures c !in Join(parts, sep)
    decreases |parts|
  {
    if |parts| > 1 {
      JoinAvoids(parts[1..], sep, c);
    }
  }

  /** The last piece of a join of two or more pieces follows the last separator. */
  lemma {:induction false} JoinLast(parts: seq<string>, sep: char)
    requires |parts| >= 2
    ensures Join(parts, sep) == Join(parts[..|parts| - 1], sep) + [sep] + parts[|parts| - 1]
    decreases |parts|
  {
    if |parts| > 2 {
      JoinLast(parts[1..], sep);
      assert parts[1..][..|parts| - 2] == parts[..|parts| - 1][1..];
    }
  }

  // -------------------------------------------------------------- numbers

  predicate IsDigit(c: char) { '0' <= c <= '9' }

  /** A non-empty run of ASCII decimal digits, what the pattern `\d+` accepts. */
  predicate IsDigits(s: string) {
    |s| > 0 && forall i | 0 <= i < |s| :: IsDigit(s[i])
  }

  /** Python's `int()` on a run of decimal digits, as a left-to-right fold. */
  function DecimalValue(s: string): (r: nat)
    requires forall i | 0 <= i < |s| :: IsDigit(s[i])
    ensures r == 0 <==> forall i | 0 <= i < |s| :: s[i] == '0'
  {
    if s == [] then 0
    else
      var last := s[|s| - 1];
      assert IsDigit(last);
      DecimalValue(s[..|s| - 1]) * 10 + (last as int - '0' as int)
  }

  /** Python's `str()` of a non-negative integer. */
  function NatToString(n: nat): (s: string)
    ensures IsDigits(s)
    ensures n > 0 ==> s[0] != '0'
    ensures s[0] == '0' ==> n == 0 && |s| == 1
  {
    if n < 10 then [('0' as int + n) as char]
    else NatToString(n / 10) + [('0' as int + n % 10) as char]
  }

  /** `int(str(n)) == n`. */
  lemma {:induction false} DecimalRoundTrip(n: nat)
    ensures DecimalValue(NatToString(n)) == n
  {
    if n >= 10 {
      var s := NatToString(n);
      assert s[..|s| - 1] == NatToString(n / 10);
      DecimalRoundTrip(n / 10);
    }
  }

  // ---------------------------------------------------------- whitespace

  /** The whitespace `str.strip()` removes, ASCII only. */
  predicate IsSpace(c: char) {
    c == ' ' || c == '\t' || c == '\n' || c == '\r' || c as int == 11 || c as int == 12
  }

  predicate AllSpace(s: string) {
    forall k | 0 <= k < |s| :: IsSpace(s[k])
  }

  /** Neither starts nor ends with whitespace. */
  predicate IsTrimmed(s: string) {
    s == [] || (!IsSpace(s[0]) && !IsSpace(s[|s| - 1]))
  }

  /** Drops leading whitespace: the longest suffix that starts with a non-space. */
  function TrimLeft(s: string): (r: string)
    ensures |r| <= |s| && r == s[|s| - |r|..]
    ensures forall k | 0 <= k < |s| - |r| :: IsSpace(s[k])
    ensures r == [] || !IsSpace(r[0])
  {
    if s != [] && IsSpace(s[0]) then TrimLeft(s[1..]) else s
  }

  /** Drops trailing whitespace: the longest prefix that ends with a non-space. */
  function TrimRight(s: string): (r: string)
    ensures |r| <= |s| && r == s[..|r|]
    ensures forall k | |r| <= k < |s| :: IsSpace(s[k])
    ensures r == [] || !IsSpace(r[|r| - 1])
  {
    if s != [] && IsSpace(s[|s| - 1]) then TrimRight(s[..|s| - 1]) else s
  }

  /**
   * Python's `s.strip()`: the result is a slice of `s` with nothing but
   * whitespace cut from either end, and it is trimmed.
   */
  function Trim(s: string): (r: string)
    ensures IsTrimmed(r)
    ensures exists i | 0 <= i <= |s| ::
      StartsWith(s[i..], r) && AllSpace(s[..i]) && AllSpace(s[i..][|r|..])
  {
    var left := TrimLeft(s);
    var r := TrimRight(left);
    var i := |s| - |left|;
    assert s[i..] == left;
    assert AllSpace(s[..i]);
    assert AllSpace(s[i..][|r|..]);
    r
  }

  /** Stripping a trimmed string changes nothing. */
  lemma TrimTrimmed(s: string)
    requires IsTrimmed(s)
    ensures Trim(s) == s
  {
  }
}
