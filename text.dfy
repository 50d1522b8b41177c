/**
 * The parts of Go's `strings` package that the flake engine relies on, as pure
 * functions over `seq<char>`: splitting on a one-character separator, joining,
 * prefix/suffix tests and trimming, and `ReplaceAll`.
 */
module Text {

  type String = seq<char>

  /** strings.HasPrefix */
  predicate HasPrefix(s: String, p: String) {
    |p| <= |s| && s[..|p|] == p
  }

  /** strings.HasSuffix */
  predicate HasSuffix(s: String, p: String) {
    |p| <= |s| && s[|s| - |p|..] == p
  }

  /** strings.TrimPrefix: drops `p` from the front of `s` when it is there. */
  function TrimPrefix(s: String, p: String): (r: String)
    ensures HasPrefix(s, p) ==> p + r == s
    ensures !HasPrefix(s, p) ==> r == s
  {
    if HasPrefix(s, p) then s[|p|..] else s
  }

  /** strings.TrimSuffix: drops `p` from the end of `s` when it is there. */
  function TrimSuffix(s: String, p: String): (r: String)
    ensures HasSuffix(s, p) ==> r + p == s
    ensures !HasSuffix(s, p) ==> r == s
  {
    if HasSuffix(s, p) then s[..|s| - |p|] else s
  }

  /** unicode.IsSpace: the Latin-1 spaces and the other Unicode White_Space code points. */
  const Spaces: set<char> :=
    {'\t', '\n', '\U{B}', '\U{C}', '\r', ' ', '\U{85}', '\U{A0}', '\U{1680}',
     '\U{2000}', '\U{2001}', '\U{2002}', '\U{2003}', '\U{2004}', '\U{2005}', '\U{2006}',
     '\U{2007}', '\U{2008}', '\U{2009}', '\U{200A}',
     '\U{2028}', '\U{2029}', '\U{202F}', '\U{205F}', '\U{3000}'}

  predicate IsSpace(c: char) {
    c in Spaces
  }

  /** strings.TrimRight(s, cutset): removes the longest suffix made only of `cut` characters. */
  function TrimRightSet(s: String, cut: set<char>): (r: String)
    ensures HasPrefix(s, r)
    ensures r == [] || r[|r| - 1] !in cut
    ensures forall i :: |r| <= i < |s| ==> s[i] in cut
  {
    if s != [] && s[|s| - 1] in cut then TrimRightSet(s[..|s| - 1], cut) else s
  }

  /** The trailing-whitespace half of strings.TrimSpace. */
  function TrimRightSpace(s: String): (r: String)
    ensures HasPrefix(s, r)
    ensures r == [] || !IsSpace(r[|r| - 1])
  {
    if s != [] && IsSpace(s[|s| - 1]) then TrimRightSpace(s[..|s| - 1]) else s
  }

  /** The leading-whitespace half of strings.TrimSpace. */
  function TrimLeftSpace(s: String): (r: String)
    ensures HasSuffix(s, r)
    ensures r == [] || !IsSpace(r[0])
  {
    if s != [] && IsSpace(s[0]) then TrimLeftSpace(s[1..]) else s
  }

  /** strings.TrimSpace: no leading and no trailing white space is left. */
  function TrimSpace(s: String): (r: String)
    ensures r == [] || (!IsSpace(r[0]) && !IsSpace(r[|r| - 1]))
  {
    TrimLeftSpace(TrimRightSpace(s))
  }

  /** A string made only of white space (the empty string included). */
  predicate Blank(s: String) {
    forall k :: 0 <= k < |s| ==> IsSpace(s[k])
  }

  lemma {:induction false} TrimRightSpaceBlank(s: String)
    ensures TrimRightSpace(s) == [] <==> Blank(s)
  {
    if s != [] && IsSpace(s[|s| - 1]) {
      TrimRightSpaceBlank(s[..|s| - 1]);
      if Blank(s[..|s| - 1]) {
        assert forall k :: 0 <= k < |s| ==> IsSpace(s[k]) by {
          forall k | 0 <= k < |s| ensures IsSpace(s[k]) {
            if k < |s| - 1 { assert s[k] == s[..|s| - 1][k]; }
          }
        }
      } else {
        var k :| 0 <= k < |s| - 1 && !IsSpace(s[..|s| - 1][k]);
        assert s[k] == s[..|s| - 1][k];
      }
    }
  }

  /** White space trims away entirely exactly when it is all there is. */
  lemma TrimSpaceBlank(s: String)
    ensures TrimSpace(s) == [] <==> Blank(s)
  {
    TrimRightSpaceBlank(s);
    var r := TrimRightSpace(s);
    if r != [] {
      assert TrimLeftSpace(r) != [] by {
        if TrimLeftSpace(r) == [] {
          assert !IsSpace(r[|r| - 1]);
          TrimLeftKeepsLast(r);
        }
      }
    }
  }

  lemma {:induction false} TrimLeftKeepsLast(s: String)
    requires s != [] && !IsSpace(s[|s| - 1])
    ensures TrimLeftSpace(s) != []
  {
    if IsSpace(s[0]) {
      assert |s| > 1;
      assert s[1..][|s[1..]| - 1] == s[|s| - 1];
      TrimLeftKeepsLast(s[1..]);
    }
  }

  /**
   * strings.Split(s, string(sep)): the pieces between the occurrences of `sep`.
   * There is always one piece more than there are separators; Split("") is [""].
   */
  function Split(s: String, sep: char): (r: seq<String>)
    ensures |r| >= 1
    ensures forall k :: 0 <= k < |r| ==> sep !in r[k]
  {
    if s == [] then [[]]
    else
      var rest := Split(s[1..], sep);
      if s[0] == sep then [[]] + rest
      else [[s[0]] + rest[0]] + rest[1..]
  }

  /** strings.Join(parts, sep). */
  function Join(parts: seq<String>, sep: String): String {
    if |parts| == 0 then []
    else if |parts| == 1 then parts[0]
    else parts[0] + sep + Join(parts[1..], sep)
  }

  /** The concatenation of all pieces (strings.Join with an empty separator). */
  function Concat(parts: seq<String>): String {
    if parts == [] then [] else parts[0] + Concat(parts[1..])
  }

  /** The lines, each followed by a newline: what a writer produces line by line. */
  function Unlines(lines: seq<String>): String {
    if lines == [] then [] else lines[0] + "\n" + Unlines(lines[1..])
  }

  lemma {:induction false} UnlinesAppend(a: seq<String>, b: seq<String>)
    ensures Unlines(a + b) == Unlines(a) + Unlines(b)
  {
    if a == [] {
      assert a + b == b;
    } else {
      assert (a + b)[1..] == a[1..] + b;
      UnlinesAppend(a[1..], b);
    }
  }

  /** Reading newline-terminated lines back: the lines, then the empty piece after the last newline. */
  lemma {:induction false} SplitUnlines(lines: seq<String>)
    requires forall k :: 0 <= k < |lines| ==> '\n' !in lines[k]
    ensures Split(Unlines(lines), '\n') == lines + [[]]
  {
    if lines != [] {
      SplitUnlines(lines[1..]);
      SplitNoSep(lines[0], '\n');
      SplitAround(lines[0], '\n', Unlines(lines[1..]));
      assert lines[0] + "\n" + Unlines(lines[1..]) == lines[0] + ['\n'] + Unlines(lines[1..]);
      assert [lines[0]] + (lines[1..] + [[]]) == lines + [[]];
    }
  }

  /** Concatenation is associative; stated once so that proofs need not rediscover it. */
  lemma AppendAssoc<T>(a: seq<T>, b: seq<T>, c: seq<T>)
    ensures a + b + c == a + (b + c)
  {
  }

  lemma AppendNil<T>(s: seq<T>)
    ensures s + [] == s
  {
  }

  lemma PrefixOfPrefix<T>(s: seq<T>, i: nat)
    requires i < |s|
    ensures |s[..i + 1]| == i + 1 && s[..i + 1][..i] == s[..i] && s[..i + 1][i] == s[i]
  {
  }

  lemma NotInAppend<T>(x: T, a: seq<T>, b: seq<T>)
    requires x !in a && x !in b
    ensures x !in a + b
  {
  }

  lemma PrefixOfLongerAppend<T>(p: seq<T>, a: seq<T>, b: seq<T>, c: seq<T>, d: seq<T>)
    ensures |p| <= |p + a + b + c + d| && (p + a + b + c + d)[..|p|] == p
  {
  }

  /** Lines none of which holds a newline. */
  predicate SingleLines(ls: seq<String>) {
    forall k :: 0 <= k < |ls| ==> '\n' !in ls[k]
  }

  lemma SingleLinesAppend(a: seq<String>, b: seq<String>)
    requires SingleLines(a) && SingleLines(b)
    ensures SingleLines(a + b)
  {
    forall k | 0 <= k < |a + b| ensures '\n' !in (a + b)[k] {
      if k >= |a| {
        assert (a + b)[k] == b[k - |a|];
      }
    }
  }

  lemma TakeAll<T>(s: seq<T>)
    ensures s[..|s|] == s
  {
  }

  /** A sequence is its prefix followed by the rest. */
  lemma TakeDrop<T>(s: seq<T>, k: nat)
    requires k <= |s|
    ensures s[..k] + s[k..] == s
  {
  }

  lemma HeadTail<T>(s: seq<T>)
    requires s != []
    ensures [s[0]] + s[1..] == s
  {
  }

  /** Dropping the last element of a + b, for a non-empty b, drops it from b. */
  lemma DropLastAppend<T>(a: seq<T>, b: seq<T>)
    requires b != []
    ensures (a + b)[..|a + b| - 1] == a + b[..|b| - 1]
    ensures (a + b)[|a + b| - 1] == b[|b| - 1]
  {
    assert (a + b)[..|a + b| - 1] == a + b[..|b| - 1];
  }

  lemma {:induction false} ConcatAppend(a: seq<String>, b: seq<String>)
    ensures Concat(a + b) == Concat(a) + Concat(b)
  {
    if a == [] {
      assert a + b == b;
    } else {
      assert (a + b)[1..] == a[1..] + b;
      ConcatAppend(a[1..], b);
    }
  }

  /** A string without the separator is one piece. */
  lemma {:induction false} SplitNoSep(s: String, sep: char)
    requires sep !in s
    ensures Split(s, sep) == [s]
  {
    if s != [] {
      SplitNoSep(s[1..], sep);
      assert [s[0]] + s[1..] == s;
    }
  }

  /** Splitting distributes over a separator: the pieces of `a` followed by those of `b`. */
  lemma {:induction false} SplitAround(a: String, sep: char, b: String)
    ensures Split(a + [sep] + b, sep) == Split(a, sep) + Split(b, sep)
  {
    var s := a + [sep] + b;
    if a == [] {
      assert s[1..] == b;
    } else {
      assert s[1..] == a[1..] + [sep] + b;
      SplitAround(a[1..], sep, b);
    }
  }

  /** Joining with the separator undoes splitting. */
  lemma {:induction false} JoinSplit(s: String, sep: char)
    ensures Join(Split(s, sep), [sep]) == s
  {
    if s != [] {
      JoinSplit(s[1..], sep);
      var rest := Split(s[1..], sep);
      if s[0] != sep {
        if |rest| > 1 {
          assert ([[s[0]] + rest[0]] + rest[1..])[1..] == rest[1..];
          assert Join(rest, [sep]) == rest[0] + [sep] + Join(rest[1..], [sep]);
        }
      } else {
        assert ([[]] + rest)[1..] == rest;
      }
    }
  }

  /** Splitting undoes joining, provided no piece contains the separator. */
  lemma {:induction false} SplitJoin(parts: seq<String>, sep: char)
    requires |parts| >= 1
    requires forall k :: 0 <= k < |parts| ==> sep !in parts[k]
    ensures Split(Join(parts, [sep]), sep) == parts
  {
    SplitNoSep(parts[0], sep);
    if |parts| > 1 {
      SplitJoin(parts[1..], sep);
      SplitAround(parts[0], sep, Join(parts[1..], [sep]));
    }
  }

  /** Go's strings.Replace with an empty `pat`: `rep` before every character and at the end. */
  function InterleaveAll(s: String, rep: String): String {
    if s == [] then rep else rep + [s[0]] + InterleaveAll(s[1..], rep)
  }

  /**
   * strings.ReplaceAll: scans left to right, replacing each leftmost occurrence of
   * `pat` and resuming after it, so occurrences never overlap.
   */
  function ReplaceAll(s: String, pat: String, rep: String): String
    decreases |s|
  {
    if pat == [] then InterleaveAll(s, rep)
    else if s == [] then []
    else if HasPrefix(s, pat) then rep + ReplaceAll(s[|pat|..], pat, rep)
    else [s[0]] + ReplaceAll(s[1..], pat, rep)
  }

  /** Where no occurrence of `pat` starts before position `j`, that stretch is copied unchanged. */
  lemma {:induction false} ReplaceAllSkip(s: String, pat: String, rep: String, j: nat)
    requires pat != [] && j <= |s|
    requires forall i :: 0 <= i < j ==> !HasPrefix(s[i..], pat)
    ensures ReplaceAll(s, pat, rep) == s[..j] + ReplaceAll(s[j..], pat, rep)
  {
    if j > 0 {
      SkipFirst(s, pat, rep, j);
      ReplaceAllSkip(s[1..], pat, rep, j - 1);
      Reglue(s, j, ReplaceAll(s[j..], pat, rep));
    }
  }

  /** One step of the skip: the head is copied, and no occurrence starts early in the tail. */
  lemma SkipFirst(s: String, pat: String, rep: String, j: nat)
    requires pat != [] && 0 < j <= |s|
    requires forall i :: 0 <= i < j ==> !HasPrefix(s[i..], pat)
    ensures ReplaceAll(s, pat, rep) == [s[0]] + ReplaceAll(s[1..], pat, rep)
    ensures forall i :: 0 <= i < j - 1 ==> !HasPrefix(s[1..][i..], pat)
  {
    assert !HasPrefix(s[0..], pat);
    ReplaceAllCopiesHead(s, pat, rep);
    forall i | 0 <= i < j - 1 ensures !HasPrefix(s[1..][i..], pat) {
      assert s[1..][i..] == s[i + 1..];
    }
  }

  lemma Reglue(s: String, j: nat, x: String)
    requires 0 < j <= |s|
    ensures [s[0]] + (s[1..][..j - 1] + x) == s[..j] + x
    ensures s[1..][j - 1..] == s[j..]
  {
    assert s[..j] == [s[0]] + s[1..][..j - 1];
  }

  lemma ReplaceAllCopiesHead(s: String, pat: String, rep: String)
    requires pat != [] && s != [] && !HasPrefix(s[0..], pat)
    ensures ReplaceAll(s, pat, rep) == [s[0]] + ReplaceAll(s[1..], pat, rep)
  {
    assert s[0..] == s;
  }

  /** A string with no occurrence of `pat` is left as it is. */
  lemma ReplaceAllAbsent(s: String, pat: String, rep: String)
    requires pat != []
    requires forall i :: 0 <= i < |s| ==> !HasPrefix(s[i..], pat)
    ensures ReplaceAll(s, pat, rep) == s
  {
    ReplaceAllSkip(s, pat, rep, |s|);
    assert s[..|s|] == s;
  }
}
