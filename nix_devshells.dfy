/**
 * The devShells fragment generated from devshells.json: one mkShell entry per shell,
 * in order, listing its packages one per line and its shell hook when it has one.
 */
module DevShellSnippet {
  import opened Text
  import opened Descriptors

  const BlockOpen: String := "devShells.${system} = {"
  const BlockClose: String := "    };"
  const PackagesOpen: String := "        packages = with pkgs; ["
  const PackagesClose: String := "        ];"
  const HookOpen: String := "        shellHook = ''"
  const HookClose: String := "        '';"
  const EntryClose: String := "      };"

  function EntryHeader(sh: DevShell): String {
    "      \"" + sh.name + "\" = pkgs.mkShell {"
  }

  function PackageLines(packages: seq<String>): seq<String> {
    seq(|packages|, i requires 0 <= i < |packages| => "          " + packages[i])
  }

  /** The shellHook stanza: present only for a non-empty hook, which it writes on one indented line. */
  function HookLines(hook: String): seq<String> {
    if hook == [] then [] else [HookOpen, "          " + hook, HookClose]
  }

  /** The lines of one shell's entry. */
  function EntryLines(sh: DevShell): seq<String> {
    [EntryHeader(sh), PackagesOpen] + PackageLines(sh.packages) + [PackagesClose]
    + HookLines(sh.shellHook) + [EntryClose]
  }

  /** The entries of all shells, in order. */
  function ShellsLines(shells: seq<DevShell>): seq<String> {
    if shells == [] then [] else ShellsLines(shells[..|shells| - 1]) + EntryLines(shells[|shells| - 1])
  }

  /** The whole fragment's lines: nothing at all for no shells. */
  function DevShellsLines(shells: seq<DevShell>): seq<String> {
    if shells == [] then [] else [BlockOpen] + ShellsLines(shells) + [BlockClose]
  }

  lemma UnlinesSnoc(lines: seq<String>, line: String)
    ensures Unlines(lines + [line]) == Unlines(lines) + line + "\n"
  {
    UnlinesAppend(lines, [line]);
  }

  lemma HookText(hook: String)
    requires hook != []
    ensures Unlines(HookLines(hook)) == HookOpen + "\n" + "          " + hook + "\n" + HookClose + "\n"
  {
    var ls := HookLines(hook);
    assert Unlines(ls[2..]) == HookClose + "\n" + Unlines([]);
    assert Unlines(ls[1..]) == ls[1] + "\n" + Unlines(ls[2..]);
    assert Unlines(ls) == HookOpen + "\n" + Unlines(ls[1..]);
  }

  lemma EntryStep(shells: seq<DevShell>, i: nat)
    requires i < |shells|
    ensures [BlockOpen] + ShellsLines(shells[..i]) + EntryLines(shells[i])
         == [BlockOpen] + ShellsLines(shells[..i + 1])
  {
    PrefixOfPrefix(shells, i);
  }

  lemma Regroup<T>(a: seq<T>, b: seq<T>, c: seq<T>, e: seq<T>, f: seq<T>)
    ensures a + b + c + e + f == EntryShape(a, b, c, e, f)
  {
  }

  function EntryShape<T>(a: seq<T>, b: seq<T>, c: seq<T>, e: seq<T>, f: seq<T>): seq<T> {
    a + b + c + e + f
  }

  /** Writes the fragment line by line; the result is the fragment's lines, each newline-terminated. */
  method GenerateDevShellsSnippet(shells: seq<DevShell>) returns (out: String)
    ensures out == Unlines(DevShellsLines(shells))
  {
    if |shells| == 0 {
      return [];
    }
    var sb: String := BlockOpen + "\n";
    assert sb == Unlines([BlockOpen] + ShellsLines(shells[..0]));
    for i := 0 to |shells|
      invariant sb == Unlines([BlockOpen] + ShellsLines(shells[..i]))
    {
      ghost var done := [BlockOpen] + ShellsLines(shells[..i]);
      sb := WriteShellEntry(sb, shells[i]);
      UnlinesAppend(done, EntryLines(shells[i]));
      EntryStep(shells, i);
    }
    assert shells[..|shells|] == shells;
    UnlinesSnoc([BlockOpen] + ShellsLines(shells), BlockClose);
    out := sb + BlockClose + "\n";
  }

  /** Writing one more line after text that already holds `lines`. */
  lemma AppendLine(r: String, sb: String, lines: seq<String>, line: String)
    requires r == sb + Unlines(lines)
    ensures r + line + "\n" == sb + Unlines(lines + [line])
  {
    UnlinesSnoc(lines, line);
  }

  /** Appends one shell's entry: header, package list, optional hook, closing brace. */
  method WriteShellEntry(sb: String, shell: DevShell) returns (r: String)
    ensures r == sb + Unlines(EntryLines(shell))
  {
    var packages := shell.packages;
    AppendLine(sb, sb, [], EntryHeader(shell));
    r := sb + EntryHeader(shell) + "\n";
    AppendLine(r, sb, [EntryHeader(shell)], PackagesOpen);
    r := r + PackagesOpen + "\n";
    ghost var head := [EntryHeader(shell), PackagesOpen];
    assert head + PackageLines(packages[..0]) == head;
    for j := 0 to |packages|
      invariant r == sb + Unlines(head + PackageLines(packages[..j]))
    {
      AppendLine(r, sb, head + PackageLines(packages[..j]), "          " + packages[j]);
      assert head + PackageLines(packages[..j + 1])
        == head + PackageLines(packages[..j]) + ["          " + packages[j]];
      r := r + "          " + packages[j] + "\n";
    }
    assert packages[..|packages|] == packages;
    ghost var pk := head + PackageLines(packages);
    AppendLine(r, sb, pk, PackagesClose);
    r := r + PackagesClose + "\n";
    r := WriteHook(r, sb, pk + [PackagesClose], shell.shellHook);
    ghost var hk := pk + [PackagesClose] + HookLines(shell.shellHook);
    AppendLine(r, sb, hk, EntryClose);
    r := r + EntryClose + "\n";
    Regroup(head, PackageLines(packages), [PackagesClose], HookLines(shell.shellHook), [EntryClose]);
  }

  /** Appends the shellHook stanza when the hook is non-empty. */
  method WriteHook(r0: String, ghost sb: String, ghost lines: seq<String>, hook: String) returns (r: String)
    requires r0 == sb + Unlines(lines)
    ensures r == sb + Unlines(lines + HookLines(hook))
  {
    r := r0;
    ghost var stanza := Unlines(HookLines(hook));
    if hook != [] {
      HookText(hook);
      r := r + HookOpen + "\n" + "          " + hook + "\n" + HookClose + "\n";
    }
    assert r == r0 + stanza;
    UnlinesAppend(lines, HookLines(hook));
    AppendAssoc(sb, Unlines(lines), stanza);
  }

  /** Entries appear in the order of the shells: the entries of a + b are a's then b's. */
  lemma {:induction false} ShellsInOrder(a: seq<DevShell>, b: seq<DevShell>)
    ensures ShellsLines(a + b) == ShellsLines(a) + ShellsLines(b)
  {
    if b == [] {
      assert a + b == a;
    } else {
      var n := |b|;
      DropLastAppend(a, b);
      ShellsInOrder(a, b[..n - 1]);
      assert ShellsLines(a + b) == ShellsLines(a + b[..n - 1]) + EntryLines(b[n - 1]);
      AppendAssoc(ShellsLines(a), ShellsLines(b[..n - 1]), EntryLines(b[n - 1]));
    }
  }

  /** The fragment is empty exactly when there are no shells. */
  lemma DevShellsEmptyIff(shells: seq<DevShell>)
    ensures Unlines(DevShellsLines(shells)) == [] <==> shells == []
  {
    if shells != [] {
      assert Unlines(DevShellsLines(shells))[0] == BlockOpen[0];
    }
  }

  /** A shell's entry holds the shellHook stanza exactly when its hook is non-empty. */
  lemma HookIffNonEmpty(sh: DevShell)
    ensures HookOpen in EntryLines(sh) <==> sh.shellHook != []
  {
    var ls := EntryLines(sh);
    if sh.shellHook == [] {
      forall k | 0 <= k < |ls| ensures ls[k] != HookOpen {
        assert ls[k] == EntryHeader(sh) || ls[k] == PackagesOpen || ls[k] == PackagesClose
          || ls[k] == EntryClose || ls[k] in PackageLines(sh.packages);
        if ls[k] in PackageLines(sh.packages) {
          assert ls[k][8] == ' ';
        }
        if ls[k] == EntryHeader(sh) {
          assert ls[k][6] == '"';
        }
      }
    } else {
      assert ls[|PackageLines(sh.packages)| + 3] == HookOpen;
    }
  }

  /** Every line of the entries is free of newlines when names, packages and hooks are. */
  lemma {:induction false} ShellsLinesOneLine(shells: seq<DevShell>)
    requires forall i :: 0 <= i < |shells| ==> OneLine(shells[i])
    ensures forall k :: 0 <= k < |ShellsLines(shells)| ==> '\n' !in ShellsLines(shells)[k]
  {
    if shells != [] {
      var n := |shells|;
      ShellsLinesOneLine(shells[..n - 1]);
      EntryLinesOneLine(shells[n - 1]);
      assert ShellsLines(shells) == ShellsLines(shells[..n - 1]) + EntryLines(shells[n - 1]);
      SingleLinesAppend(ShellsLines(shells[..n - 1]), EntryLines(shells[n - 1]));
    }
  }

  /** The entry of a shell whose name, packages and hook are single lines is made of single lines. */
  lemma EntryLinesOneLine(sh: DevShell)
    requires OneLine(sh)
    ensures SingleLines(EntryLines(sh))
  {
    EntryTextsOneLine();
    NotInAppend('\n', "      \"", sh.name);
    NotInAppend('\n', "      \"" + sh.name, "\" = pkgs.mkShell {");
    var pl := PackageLines(sh.packages);
    forall k | 0 <= k < |pl| ensures '\n' !in pl[k] {
      assert sh.packages[k] in sh.packages;
      NotInAppend('\n', "          ", sh.packages[k]);
    }
    if sh.shellHook != [] {
      NotInAppend('\n', "          ", sh.shellHook);
    }
    var head := [EntryHeader(sh), PackagesOpen];
    SingleLinesAppend(head, pl);
    SingleLinesAppend(head + pl, [PackagesClose]);
    SingleLinesAppend(head + pl + [PackagesClose], HookLines(sh.shellHook));
    SingleLinesAppend(head + pl + [PackagesClose] + HookLines(sh.shellHook), [EntryClose]);
  }

  lemma EntryTextsOneLine()
    ensures '\n' !in "      \"" && '\n' !in "\" = pkgs.mkShell {" && '\n' !in "          "
    ensures '\n' !in PackagesOpen && '\n' !in PackagesClose && '\n' !in EntryClose
    ensures '\n' !in HookOpen && '\n' !in HookClose
  {
  }

  /** A shell whose name, packages and hook are each a single line. */
  predicate OneLine(sh: DevShell) {
    '\n' !in sh.name && '\n' !in sh.shellHook && forall p :: p in sh.packages ==> '\n' !in p
  }

  lemma FramedOneLine(first: String, body: seq<String>, last: String)
    requires '\n' !in first && '\n' !in last
    requires forall k :: 0 <= k < |body| ==> '\n' !in body[k]
    ensures forall k :: 0 <= k < |body| + 2 ==> '\n' !in ([first] + body + [last])[k]
  {
    var ls := [first] + body + [last];
    forall k | 0 <= k < |ls| ensures '\n' !in ls[k] {
      if 0 < k <= |body| {
        assert ls[k] == body[k - 1];
      }
    }
  }

  /** The fixed lines of the fragment are single lines. */
  lemma FixedLinesOneLine()
    ensures '\n' !in BlockOpen && '\n' !in BlockClose
  {
  }

  /**
   * Read back line by line, a non-empty fragment is its lines (the opening line, each
   * shell's entry in order, the closing line) and the empty piece after the final newline.
   */
  lemma DevShellsReadBack(shells: seq<DevShell>)
    requires shells != []
    requires forall i :: 0 <= i < |shells| ==> OneLine(shells[i])
    ensures Split(Unlines(DevShellsLines(shells)), '\n') == DevShellsLines(shells) + [[]]
  {
    ShellsLinesOneLine(shells);
    FixedLinesOneLine();
    var ls := DevShellsLines(shells);
    FramedOneLine(BlockOpen, ShellsLines(shells), BlockClose);
    SplitUnlines(ls);
  }
}
