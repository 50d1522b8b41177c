/**
 * Placeholder substitution in the flake template.
 *
 * The engine replaces every `{{NAME}}` token of a fixed table by its value, one
 * token at a time with strings.ReplaceAll (`SubstituteAll`). Its table is a Go map,
 * so the order of those passes is not fixed. `Fill` is the one-pass reading of the
 * same table: scan the template once and replace each token where it stands. The
 * lemmas below show that the sequential passes, in ANY order, agree with `Fill`
 * when the template is `Clean` (every `{{` opens a well-formed token) and no value
 * can create or complete a token (`Inert`), and that `Fill` leaves no token of the
 * table behind.
 */
module Placeholders {
  import opened Text

  /** Characters allowed inside a token name. */
  predicate NameChar(c: char) {
    c != '{' && c != '}'
  }

  /** `{{NAME}}` with a non-empty NAME free of braces. */
  predicate IsToken(t: String) {
    |t| >= 5 && t[..2] == "{{" && t[|t| - 2..] == "}}"
    && forall i :: 2 <= i < |t| - 2 ==> NameChar(t[i])
  }

  /** The length of the longest run of name characters at the front of `s`. */
  function NameRun(s: String): (n: nat)
    ensures n <= |s|
    ensures forall i :: 0 <= i < n ==> NameChar(s[i])
    ensures n < |s| ==> !NameChar(s[n])
  {
    if s == [] || !NameChar(s[0]) then 0 else 1 + NameRun(s[1..])
  }

  /** The length of the well-formed token that `s` starts with, or 0 when it starts with none. */
  function TokenLen(s: String): (k: nat)
    ensures k == 0 || (k <= |s| && IsToken(s[..k]))
    ensures k == 0 || HasPrefix(s, "{{")
  {
    if HasPrefix(s, "{{") then
      var n := NameRun(s[2..]);
      if n > 0 && HasPrefix(s[2 + n..], "}}") then n + 4 else 0
    else 0
  }

  /** A value that can neither hold nor complete a `{{`: no `{{` inside and no `{` at the end. */
  predicate Inert(v: String)
    decreases |v|
  {
    v == [] || ((v[0] == '{' ==> |v| > 1 && v[1] != '{') && Inert(v[1..]))
  }

  /** Scanning left to right, every `{{` opens a well-formed token. */
  predicate Clean(s: String)
    decreases |s|
  {
    s == [] ||
    (var k := TokenLen(s);
     if k > 0 then Clean(s[k..]) else !HasPrefix(s, "{{") && Clean(s[1..]))
  }

  /** Scanning left to right, no token that `table` knows is found. */
  predicate Untouched(s: String, table: map<String, String>)
    decreases |s|
  {
    s == [] ||
    (var k := TokenLen(s);
     if k > 0 then s[..k] !in table && Untouched(s[k..], table) else Untouched(s[1..], table))
  }

  /** One-pass substitution: each token of `table`, where it stands, becomes its value. */
  function Fill(s: String, table: map<String, String>): String
    decreases |s|
  {
    if s == [] then []
    else
      var k := TokenLen(s);
      if k > 0 then (if s[..k] in table then table[s[..k]] else s[..k]) + Fill(s[k..], table)
      else [s[0]] + Fill(s[1..], table)
  }

  /** One entry of the engine's replacement table. */
  datatype Replacement = Replacement(token: String, value: String)

  /** The passes as the engine runs them: strings.ReplaceAll once per entry, in list order. */
  function SubstituteAll(s: String, rs: seq<Replacement>): String
    decreases |rs|
  {
    if rs == [] then s else SubstituteAll(ReplaceAll(s, rs[0].token, rs[0].value), rs[1..])
  }

  /** The replacement list read as a map from token to value. */
  function TableOf(rs: seq<Replacement>): map<String, String>
    decreases |rs|
  {
    if rs == [] then map[] else TableOf(rs[1..])[rs[0].token := rs[0].value]
  }

  /** Tokens are well formed and pairwise distinct, values are inert. */
  predicate WellFormed(rs: seq<Replacement>) {
    (forall i :: 0 <= i < |rs| ==> IsToken(rs[i].token) && Inert(rs[i].value))
    && (forall i, j :: 0 <= i < j < |rs| ==> rs[i].token != rs[j].token)
  }

  // ---------------------------------------------------------------------------
  // Scanning facts

  lemma OpensBrace(s: String)
    ensures HasPrefix(s, "{{") <==> |s| >= 2 && s[0] == '{' && s[1] == '{'
  {
    if |s| >= 2 { assert s[..2] == [s[0], s[1]]; }
  }

  /** Every token starts with `{{`, so a string that starts with a token starts with `{{`. */
  lemma TokenOpensBrace(s: String, t: String)
    requires IsToken(t) && HasPrefix(s, t)
    ensures HasPrefix(s, "{{")
  {
    assert s[..2] == t[..2];
  }

  /** Where no `{{` opens, the scan takes one character. */
  lemma ScanChar(s: String, table: map<String, String>)
    requires s != [] && !HasPrefix(s, "{{")
    ensures TokenLen(s) == 0
    ensures Fill(s, table) == [s[0]] + Fill(s[1..], table)
    ensures Clean(s) <==> Clean(s[1..])
    ensures Untouched(s, table) <==> Untouched(s[1..], table)
  {
  }

  /** Where a token opens, the scan takes it whole. */
  lemma ScanToken(s: String, table: map<String, String>)
    requires TokenLen(s) > 0
    ensures var k := TokenLen(s);
      && Fill(s, table) == (if s[..k] in table then table[s[..k]] else s[..k]) + Fill(s[k..], table)
      && (Clean(s) <==> Clean(s[k..]))
      && (Untouched(s, table) <==> s[..k] !in table && Untouched(s[k..], table))
  {
  }

  /** A string that starts with a token is scanned as that token. */
  lemma TokenAtFront(s: String, t: String)
    requires IsToken(t) && HasPrefix(s, t)
    ensures TokenLen(s) == |t|
  {
    assert s[..2] == t[..2];
    var n := NameRun(s[2..]);
    assert s[2..][|t| - 4] == t[|t| - 2];
    forall i | 0 <= i < |t| - 4 ensures NameChar(s[2..][i]) {
      assert s[2..][i] == t[i + 2];
    }
    assert n == |t| - 4;
    assert s[2 + n..][..2] == t[|t| - 2..];
  }

  /** An inert value is copied by the scan and keeps the rest clean and untouched. */
  lemma InertThenRest(v: String, r: String, table: map<String, String>)
    requires Inert(v)
    ensures Fill(v + r, table) == v + Fill(r, table)
    ensures Clean(r) ==> Clean(v + r)
    ensures Untouched(r, table) ==> Untouched(v + r, table)
  {
    InertFill(v, r, table);
    InertScan(v, r, table);
  }

  /** The first character of an inert value never opens `{{`, even with `r` after it. */
  lemma InertHead(v: String, r: String)
    requires Inert(v) && v != []
    ensures !HasPrefix(v + r, "{{") && (v + r)[1..] == v[1..] + r
  {
    var s := v + r;
    assert s[0] == v[0];
    if v[0] == '{' { assert s[1] == v[1]; }
    OpensBrace(s);
  }

  lemma {:induction false} InertFill(v: String, r: String, table: map<String, String>)
    requires Inert(v)
    ensures Fill(v + r, table) == v + Fill(r, table)
  {
    if v == [] {
      assert v + r == r;
    } else {
      var s := v + r;
      InertHead(v, r);
      ScanChar(s, table);
      InertFill(v[1..], r, table);
      var tail := Fill(r, table);
      assert Fill(s, table) == [v[0]] + (v[1..] + tail);
      Reassociate(v, tail);

    }
  }

  lemma Reassociate(v: String, tail: String)
    requires v != []
    ensures [v[0]] + (v[1..] + tail) == v + tail
  {
    assert [v[0]] + v[1..] == v;
  }

  lemma {:induction false} InertScan(v: String, r: String, table: map<String, String>)
    requires Inert(v)
    ensures Clean(r) ==> Clean(v + r)
    ensures Untouched(r, table) ==> Untouched(v + r, table)
  {
    if v == [] {
      assert v + r == r;
    } else {
      InertHead(v, r);
      ScanChar(v + r, table);
      InertScan(v[1..], r, table);
    }
  }

  /** A token is scanned as one piece: replaced when the table knows it, kept otherwise. */
  lemma TokenThenRest(t: String, r: String, table: map<String, String>)
    requires IsToken(t)
    ensures Fill(t + r, table) == (if t in table then table[t] else t) + Fill(r, table)
    ensures Clean(r) ==> Clean(t + r)
    ensures Untouched(r, table) && t !in table ==> Untouched(t + r, table)
  {
    TokenAtFront(t + r, t);
    assert (t + r)[..|t|] == t;
    assert (t + r)[|t|..] == r;
  }

  /** Inside a token, no other token can start: strings.ReplaceAll passes over it whole. */
  lemma ReplaceSkipsOtherToken(s: String, t: String, v: String)
    requires IsToken(t) && TokenLen(s) > 0 && s[..TokenLen(s)] != t
    ensures ReplaceAll(s, t, v) == s[..TokenLen(s)] + ReplaceAll(s[TokenLen(s)..], t, v)
  {
    var k := TokenLen(s);
    var tok := s[..k];
    forall i | 0 <= i < k ensures !HasPrefix(s[i..], t) {
      if i == 0 {
        assert s[0..] == s;
        if HasPrefix(s, t) { TokenAtFront(s, t); }
      } else {
        var x := s[i..];
        assert x[0] == tok[i];
        if i + 1 < k { assert x[1] == tok[i + 1]; }
        assert 2 < k - 2 && NameChar(tok[2]);
        assert !(x[0] == '{' && |x| >= 2 && x[1] == '{');
        OpensBrace(x);
        if HasPrefix(x, t) { TokenOpensBrace(x, t); }
      }
    }
    ReplaceAllSkip(s, t, v, k);
  }

  /**
   * One strings.ReplaceAll pass on a clean template is the one-pass fill of that one
   * entry: afterwards the string is still clean, and filling it with the other entries
   * equals filling the original with all of them.
   */
  lemma {:induction false} ReplaceIsFillStep(s: String, t: String, v: String, table: map<String, String>)
    requires Clean(s) && IsToken(t) && Inert(v) && t !in table
    ensures Clean(ReplaceAll(s, t, v))
    ensures Fill(ReplaceAll(s, t, v), table) == Fill(s, table[t := v])
    decreases |s|
  {
    if s == [] {
    } else if TokenLen(s) > 0 {
      var k := TokenLen(s);
      ScanToken(s, table[t := v]);
      ReplaceIsFillStep(s[k..], t, v, table);
      if s[..k] == t {
        StepAtOwnToken(s, t, v, table);
      } else {
        StepAtOtherToken(s, t, v, table);
      }
    } else {
      OpensBrace(s);
      ScanChar(s, table[t := v]);
      ReplaceIsFillStep(s[1..], t, v, table);
      StepAtChar(s, t, v, table);
    }
  }

  lemma StepAtOwnToken(s: String, t: String, v: String, table: map<String, String>)
    requires IsToken(t) && Inert(v) && TokenLen(s) > 0 && s[..TokenLen(s)] == t
    requires Clean(s[|t|..])
    requires Clean(ReplaceAll(s[|t|..], t, v))
    requires Fill(ReplaceAll(s[|t|..], t, v), table) == Fill(s[|t|..], table[t := v])
    ensures Clean(ReplaceAll(s, t, v))
    ensures Fill(ReplaceAll(s, t, v), table) == Fill(s, table[t := v])
  {
    var r := ReplaceAll(s[|t|..], t, v);
    assert HasPrefix(s, t);
    assert ReplaceAll(s, t, v) == v + r;
    InertThenRest(v, r, table);
    ScanToken(s, table[t := v]);
  }

  lemma StepAtOtherToken(s: String, t: String, v: String, table: map<String, String>)
    requires IsToken(t) && t !in table && TokenLen(s) > 0 && s[..TokenLen(s)] != t
    requires Clean(s[TokenLen(s)..])
    requires Clean(ReplaceAll(s[TokenLen(s)..], t, v))
    requires Fill(ReplaceAll(s[TokenLen(s)..], t, v), table) == Fill(s[TokenLen(s)..], table[t := v])
    ensures Clean(ReplaceAll(s, t, v))
    ensures Fill(ReplaceAll(s, t, v), table) == Fill(s, table[t := v])
  {
    var k := TokenLen(s);
    var r := ReplaceAll(s[k..], t, v);
    ReplaceSkipsOtherToken(s, t, v);
    TokenThenRest(s[..k], r, table);
    ScanToken(s, table[t := v]);
  }

  lemma StepAtChar(s: String, t: String, v: String, table: map<String, String>)
    requires IsToken(t) && s != [] && !HasPrefix(s, "{{") && Clean(s[1..])
    requires Clean(ReplaceAll(s[1..], t, v))
    requires Fill(ReplaceAll(s[1..], t, v), table) == Fill(s[1..], table[t := v])
    ensures Clean(ReplaceAll(s, t, v))
    ensures Fill(ReplaceAll(s, t, v), table) == Fill(s, table[t := v])
  {
    var r := ReplaceAll(s[1..], t, v);
    assert s[0..] == s;
    if HasPrefix(s, t) { TokenOpensBrace(s, t); }
    ReplaceAllCopiesHead(s, t, v);
    var s' := [s[0]] + r;
    OpensBrace(s);
    if s[0] == '{' && |s| > 1 {
      var x := s[1..];
      assert x[0] == s[1] && s[1] != '{';
      OpensBrace(x);
      if HasPrefix(x, t) { TokenOpensBrace(x, t); }
      assert x[0..] == x;
      ReplaceAllCopiesHead(x, t, v);
      assert s'[1] == s[1];
    }
    OpensBrace(s');
    assert s'[1..] == r;
    ScanChar(s', table);
    ScanChar(s, table[t := v]);
  }

  /** A token that no entry carries is not a key of the table. */
  lemma {:induction false} NotInTable(rs: seq<Replacement>, t: String)
    requires forall i :: 0 <= i < |rs| ==> rs[i].token != t
    ensures t !in TableOf(rs)
    decreases |rs|
  {
    if rs != [] { NotInTable(rs[1..], t); }
  }

  /**
   * The engine's sequential passes give the one-pass result, whatever the order of the
   * entries, provided the template is clean and the entries are well formed.
   */
  lemma {:induction false} SequentialIsOnePass(s: String, rs: seq<Replacement>)
    requires Clean(s) && WellFormed(rs)
    ensures SubstituteAll(s, rs) == Fill(s, TableOf(rs))
    decreases |rs|
  {
    if rs != [] {
      var t, v := rs[0].token, rs[0].value;
      var rest := rs[1..];
      assert WellFormed(rest) by {
        forall i, j | 0 <= i < j < |rest| ensures rest[i].token != rest[j].token {
          assert rest[i] == rs[i + 1] && rest[j] == rs[j + 1];
        }
      }
      forall i | 0 <= i < |rest| ensures rest[i].token != t {
        assert rest[i] == rs[i + 1];
      }
      NotInTable(rest, t);
      ReplaceIsFillStep(s, t, v, TableOf(rest));
      SequentialIsOnePass(ReplaceAll(s, t, v), rest);
      assert TableOf(rs) == TableOf(rest)[t := v];
    } else {
      NothingUntouchedByEmpty(s);
      FillUntouched(s, map[]);
    }
  }

  lemma {:induction false} NothingUntouchedByEmpty(s: String)
    ensures Untouched(s, map[])
    decreases |s|
  {
    if s != [] {
      if TokenLen(s) > 0 { NothingUntouchedByEmpty(s[TokenLen(s)..]); }
      else { NothingUntouchedByEmpty(s[1..]); }
    }
  }

  /** With distinct tokens, the table holds exactly the entries of the list. */
  lemma {:induction false} TableOfHoldsEntries(rs: seq<Replacement>, e: Replacement)
    requires forall i, j :: 0 <= i < j < |rs| ==> rs[i].token != rs[j].token
    ensures e in rs <==> e.token in TableOf(rs) && TableOf(rs)[e.token] == e.value
    decreases |rs|
  {
    if rs != [] {
      TableOfHoldsEntries(rs[1..], e);
      if e.token == rs[0].token && e != rs[0] {
        NotInTable(rs[1..], e.token);
      }
    }
  }

  /** Go's map order does not matter: two listings of the same entries give the same text. */
  lemma OrderIrrelevant(s: String, rs: seq<Replacement>, qs: seq<Replacement>)
    requires Clean(s) && WellFormed(rs) && WellFormed(qs)
    requires forall e :: e in rs <==> e in qs
    ensures SubstituteAll(s, rs) == SubstituteAll(s, qs)
  {
    SequentialIsOnePass(s, rs);
    SequentialIsOnePass(s, qs);
    var a, b := TableOf(rs), TableOf(qs);
    forall t | t in a ensures t in b && b[t] == a[t] {
      TableOfHoldsEntries(rs, Replacement(t, a[t]));
      TableOfHoldsEntries(qs, Replacement(t, a[t]));
    }
    forall t | t in b ensures t in a {
      TableOfHoldsEntries(qs, Replacement(t, b[t]));
      TableOfHoldsEntries(rs, Replacement(t, b[t]));
    }
    assert a == b;
  }

  /** After one pass no token of the table is left, and the result is still clean. */
  lemma {:induction false} FillLeavesNoToken(s: String, table: map<String, String>)
    requires Clean(s)
    requires forall t :: t in table ==> Inert(table[t])
    ensures Clean(Fill(s, table)) && Untouched(Fill(s, table), table)
    decreases |s|
  {
    if s != [] {
      var k := TokenLen(s);
      if k > 0 {
        FillLeavesNoToken(s[k..], table);
        var r := Fill(s[k..], table);
        if s[..k] in table {
          InertThenRest(table[s[..k]], r, table);
        } else {
          TokenThenRest(s[..k], r, table);
        }
      } else {
        FillLeavesNoToken(s[1..], table);
        var r := Fill(s[1..], table);
        if s[0] != '{' {
          InertThenRest([s[0]], r, table);
        } else {
          if |s| > 1 {
            assert s[1..][0] == s[1] && s[1] != '{';
            FillCopiesHead(s[1..], table);
          }
          assert !HasPrefix([s[0]] + r, "{{");
          assert ([s[0]] + r)[1..] == r;
        }
      }
    }
  }

  /** When the scan finds no token at the front, the first character is copied. */
  lemma FillCopiesHead(s: String, table: map<String, String>)
    requires s != [] && !HasPrefix(s, "{{")
    ensures Fill(s, table) == [s[0]] + Fill(s[1..], table)
  {
  }

  /** Text in which the table finds no token is left exactly as it is. */
  lemma {:induction false} FillUntouched(s: String, table: map<String, String>)
    requires Untouched(s, table)
    ensures Fill(s, table) == s
    decreases |s|
  {
    if s != [] {
      var k := TokenLen(s);
      if k > 0 {
        assert s[..k] !in table && Untouched(s[k..], table);
        FillUntouched(s[k..], table);
        assert Fill(s, table) == s[..k] + Fill(s[k..], table);
        TakeDrop(s, k);
      } else {
        assert Untouched(s[1..], table);
        FillUntouched(s[1..], table);
        assert Fill(s, table) == [s[0]] + Fill(s[1..], table);
        HeadTail(s);
      }
    }
  }

  /** Substituting a second time changes nothing. */
  lemma FillIdempotent(s: String, table: map<String, String>)
    requires Clean(s)
    requires forall t :: t in table ==> Inert(table[t])
    ensures Fill(Fill(s, table), table) == Fill(s, table)
  {
    FillLeavesNoToken(s, table);
    FillUntouched(Fill(s, table), table);
  }
}
