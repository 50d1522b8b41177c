/**
 * How the flake builder turns the selected module files into the text injected at the
 * module injection point: each readable file with at least four lines becomes one
 * wrapped entry of the modules list; other selections are skipped.
 */
module ModuleInjection {
  import opened Text
  import opened Files
  import opened Catalog

  /** Eight spaces: the level of the modules list in the template. */
  const Indent: String := "        "
  /** Two more spaces for the body of a wrapped module. */
  const BodyIndent: String := "          "
  const ModuleNamePrefix: String := "# NIXOS-LEGO-MODULE: "
  /** The characters stripped from the end of a module body. */
  const BodyTrailer: set<char> := {'\n', ' '}

  /**
   * The body of a module file: the lines from the fifth on, joined back, without trailing
   * newlines and spaces. The first four lines are the header.
   */
  function ModuleBody(lines: seq<String>): String
    requires |lines| >= 4
  {
    TrimRightSet(Join(lines[4..], "\n"), BodyTrailer)
  }

  /** The banner: the module's declared name and purpose. */
  function BannerLine(name: String, purpose: String): String {
    Indent + "# ── " + name + " ── " + purpose
  }

  /** The wrapper's head: a function of the module parameters returning the body. */
  function OpenLine(wrapperArgs: String): String {
    Indent + "({ " + wrapperArgs + ", ... }: {"
  }

  const CloseLine: String := Indent + "})"

  /** A body line as written: blank lines lose their spaces, others are indented. */
  function BodyOut(l: String): String {
    if Blank(l) then [] else BodyIndent + l
  }

  /** The body lines as written, one for each line of the body. */
  function BodyOuts(ls: seq<String>): (r: seq<String>)
    ensures |r| == |ls|
    ensures forall k :: 0 <= k < |ls| ==> r[k] == BodyOut(ls[k])
  {
    seq(|ls|, k requires 0 <= k < |ls| => BodyOut(ls[k]))
  }

  /** The lines of a wrapped module: banner, head, the body's lines, closer. */
  function WrapLines(name: String, purpose: String, wrapperArgs: String, body: String): seq<String> {
    [BannerLine(name, purpose), OpenLine(wrapperArgs)] + BodyOuts(Split(body, '\n')) + [CloseLine]
  }

  /** The name a module file declares on its first line. */
  function DeclaredName(lines: seq<String>): String
    requires |lines| >= 1
  {
    TrimPrefix(lines[0], ModuleNamePrefix)
  }

  /** The purpose a module file declares on its second line. */
  function DeclaredPurpose(lines: seq<String>): String
    requires |lines| >= 2
  {
    TrimPrefix(lines[1], PurposePrefix)
  }

  /**
   * A wrapped module: an empty line, then its lines, each newline-terminated. Only the
   * first two lines and the body enter it.
   */
  function WrapBlock(lines: seq<String>, wrapperArgs: String): String
    requires |lines| >= 4
  {
    "\n" + Unlines(WrapLines(DeclaredName(lines), DeclaredPurpose(lines), wrapperArgs, ModuleBody(lines)))
  }

  /** What happens to one selected module. */
  datatype ModuleOutcome = Included(block: String) | Unreadable | TooShort {
    /** What the outcome adds to the injected text. */
    function Text(): String {
      if Included? then block else []
    }
  }

  function Outcome(root: String, fs: FileSystem, mod: String, wrapperArgs: String): ModuleOutcome {
    var path := ModulePath(root, mod);
    if path !in fs then Unreadable
    else
      var lines := Split(fs[path], '\n');
      if |lines| < 4 then TooShort else Included(WrapBlock(lines, wrapperArgs))
  }

  /** The blocks of the included modules, in selection order. */
  function Blocks(root: String, fs: FileSystem, mods: seq<String>, wrapperArgs: String): seq<String> {
    if mods == [] then []
    else Blocks(root, fs, mods[..|mods| - 1], wrapperArgs) + BlockOf(root, fs, mods[|mods| - 1], wrapperArgs)
  }

  /** The block one selection contributes: its wrapped text, or nothing when skipped. */
  function BlockOf(root: String, fs: FileSystem, mod: String, wrapperArgs: String): seq<String> {
    var o := Outcome(root, fs, mod, wrapperArgs);
    if o.Included? then [o.block] else []
  }

  /** The skipped selections, in selection order. */
  function Skipped(root: String, fs: FileSystem, mods: seq<String>, wrapperArgs: String): seq<String> {
    if mods == [] then []
    else
      var o := Outcome(root, fs, mods[|mods| - 1], wrapperArgs);
      Skipped(root, fs, mods[..|mods| - 1], wrapperArgs) + (if o.Included? then [] else [mods[|mods| - 1]])
  }

  /** The text injected for the selections. */
  function Injection(root: String, fs: FileSystem, mods: seq<String>, wrapperArgs: String): String {
    Concat(Blocks(root, fs, mods, wrapperArgs))
  }

  /** Writes one wrapped module, its body line by line. */
  method WrapModule(lines: seq<String>, wrapperArgs: String) returns (block: String)
    requires |lines| >= 4
    ensures block == WrapBlock(lines, wrapperArgs)
  {
    var modName := TrimPrefix(lines[0], ModuleNamePrefix);
    var modPurpose := TrimPrefix(lines[1], PurposePrefix);
    var body := TrimRightSet(Join(lines[4..], "\n"), BodyTrailer);
    block := WriteWrapped(modName, modPurpose, wrapperArgs, body);
  }

  /** The writes of one wrapped module: empty line, banner, head, body lines, closer. */
  method WriteWrapped(modName: String, modPurpose: String, wrapperArgs: String, body: String) returns (block: String)
    ensures block == "\n" + Unlines(WrapLines(modName, modPurpose, wrapperArgs, body))
  {
    ghost var head := [BannerLine(modName, modPurpose), OpenLine(wrapperArgs)];
    block := WriteHead(modName, modPurpose, wrapperArgs);
    var bodyLines := Split(body, '\n');
    assert head + BodyOuts(bodyLines[..0]) == head;
    for i := 0 to |bodyLines|
      invariant block == "\n" + Unlines(head + BodyOuts(bodyLines[..i]))
    {
      ghost var done := head + BodyOuts(bodyLines[..i]);
      AppendLine("\n", done, BodyOut(bodyLines[i]));
      block := WriteBodyLine(block, bodyLines[i]);
      PrefixOfPrefix(bodyLines, i);
      assert head + BodyOuts(bodyLines[..i + 1]) == done + [BodyOut(bodyLines[i])];
    }
    assert bodyLines[..|bodyLines|] == bodyLines;
    AppendLine("\n", head + BodyOuts(bodyLines), CloseLine);
    block := block + (Indent + "})\n");
  }

  /** The empty line, the banner and the wrapper head. */
  method WriteHead(modName: String, modPurpose: String, wrapperArgs: String) returns (block: String)
    ensures block == "\n" + Unlines([BannerLine(modName, modPurpose), OpenLine(wrapperArgs)])
  {
    block := "\n";
    assert block == "\n" + Unlines([]);
    AppendLine("\n", [], BannerLine(modName, modPurpose));
    block := block + (Indent + "# ── " + modName + " ── " + modPurpose + "\n");
    AppendLine("\n", [BannerLine(modName, modPurpose)], OpenLine(wrapperArgs));
    block := block + (Indent + "({ " + wrapperArgs + ", ... }: {\n");
    assert [BannerLine(modName, modPurpose)] + [OpenLine(wrapperArgs)]
        == [BannerLine(modName, modPurpose), OpenLine(wrapperArgs)];
  }

  /** One body line: a blank line is written empty, any other indented. */
  method WriteBodyLine(block: String, l: String) returns (r: String)
    ensures r == block + (BodyOut(l) + "\n")
  {
    TrimSpaceBlank(l);
    if TrimSpace(l) == [] {
      r := block + "\n";
    } else {
      r := block + (BodyIndent + l + "\n");
    }
  }

  /** Writing one more line after `lines`. */
  lemma AppendLine(prefix: String, lines: seq<String>, line: String)
    ensures prefix + Unlines(lines) + (line + "\n") == prefix + Unlines(lines + [line])
  {
    UnlinesAppend(lines, [line]);
  }

  /** Reads the selected module files in order, skipping the unreadable and the short ones. */
  method BuildModuleContent(root: String, fs: FileSystem, modules: seq<String>, wrapperArgs: String) returns (content: String)
    ensures content == Injection(root, fs, modules, wrapperArgs)
  {
    content := [];
    for i := 0 to |modules|
      invariant content == Injection(root, fs, modules[..i], wrapperArgs)
    {
      InjectionStep(root, fs, modules, i, wrapperArgs);
      ghost var outcome := Outcome(root, fs, modules[i], wrapperArgs);
      var modPath := ModulePath(root, modules[i]);
      if modPath !in fs {
        assert outcome == Unreadable;
        AppendNil(content);
        continue;
      }
      var lines := Split(fs[modPath], '\n');
      if |lines| < 4 {
        assert outcome == TooShort;
        AppendNil(content);
        continue;
      }
      var block := WrapModule(lines, wrapperArgs);
      assert outcome == Included(block);
      content := content + block;
    }
    assert modules[..|modules|] == modules;
  }

  /** The injection grows by the block of the next selection, if it has one. */
  lemma InjectionStep(root: String, fs: FileSystem, mods: seq<String>, i: nat, wrapperArgs: String)
    requires i < |mods|
    ensures Injection(root, fs, mods[..i + 1], wrapperArgs)
         == Injection(root, fs, mods[..i], wrapperArgs) + Outcome(root, fs, mods[i], wrapperArgs).Text()
  {
    var o := Outcome(root, fs, mods[i], wrapperArgs);
    var pre := mods[..i + 1];
    PrefixOfPrefix(mods, i);
    BlocksLast(root, fs, pre, wrapperArgs);
    var tail := BlockOf(root, fs, mods[i], wrapperArgs);
    ConcatAppend(Blocks(root, fs, mods[..i], wrapperArgs), tail);
    if o.Included? {
      assert Concat(tail) == o.block + Concat([]);
      AppendNil(o.block);
    }
  }

  /** Every selection is either wrapped or skipped: N selections with K skipped give N - K blocks. */
  lemma {:induction false} BlocksCount(root: String, fs: FileSystem, mods: seq<String>, wrapperArgs: String)
    ensures |Blocks(root, fs, mods, wrapperArgs)| + |Skipped(root, fs, mods, wrapperArgs)| == |mods|
  {
    if mods != [] {
      BlocksCount(root, fs, mods[..|mods| - 1], wrapperArgs);
    }
  }

  lemma BlocksLast(root: String, fs: FileSystem, mods: seq<String>, wrapperArgs: String)
    requires mods != []
    ensures Blocks(root, fs, mods, wrapperArgs)
         == Blocks(root, fs, mods[..|mods| - 1], wrapperArgs) + BlockOf(root, fs, mods[|mods| - 1], wrapperArgs)
  {
  }

  /** Blocks follow the selection order: the blocks of a + b are a's then b's. */
  lemma {:induction false} BlocksInOrder(root: String, fs: FileSystem, a: seq<String>, b: seq<String>, wrapperArgs: String)
    ensures Blocks(root, fs, a + b, wrapperArgs) == Blocks(root, fs, a, wrapperArgs) + Blocks(root, fs, b, wrapperArgs)
  {
    if b == [] {
      assert a + b == a;
    } else {
      BlocksInOrder(root, fs, a, b[..|b| - 1], wrapperArgs);
      BlocksAppendStep(root, fs, a, b, wrapperArgs);
    }
  }

  /** The step of BlocksInOrder: from the blocks of a + b without its last selection to all of them. */
  lemma BlocksAppendStep(root: String, fs: FileSystem, a: seq<String>, b: seq<String>, wrapperArgs: String)
    requires b != []
    requires Blocks(root, fs, a + b[..|b| - 1], wrapperArgs)
          == Blocks(root, fs, a, wrapperArgs) + Blocks(root, fs, b[..|b| - 1], wrapperArgs)
    ensures Blocks(root, fs, a + b, wrapperArgs) == Blocks(root, fs, a, wrapperArgs) + Blocks(root, fs, b, wrapperArgs)
  {
    var n := |b|;
    DropLastAppend(a, b);
    BlocksLast(root, fs, a + b, wrapperArgs);
    BlocksLast(root, fs, b, wrapperArgs);
    AppendAssoc(Blocks(root, fs, a, wrapperArgs), Blocks(root, fs, b[..n - 1], wrapperArgs), BlockOf(root, fs, b[n - 1], wrapperArgs));
  }

  /** The third and fourth lines of a module file do not show in its block. */
  lemma WrapIgnoresHeaderTail(lines: seq<String>, other: seq<String>, wrapperArgs: String)
    requires |lines| >= 4 && |other| >= 4
    requires lines[0] == other[0] && lines[1] == other[1] && lines[4..] == other[4..]
    ensures WrapBlock(lines, wrapperArgs) == WrapBlock(other, wrapperArgs)
  {
  }

  /**
   * Read back line by line, a block is an empty line, the banner, the wrapper head, one
   * line per body line, the closer, and the empty piece after the final newline.
   */
  lemma WrapBlockReadBack(name: String, purpose: String, wrapperArgs: String, body: String)
    requires '\n' !in name && '\n' !in purpose && '\n' !in wrapperArgs
    ensures var ls := WrapLines(name, purpose, wrapperArgs, body);
            Split("\n" + Unlines(ls), '\n') == [[]] + ls + [[]]
  {
    var ls := WrapLines(name, purpose, wrapperArgs, body);
    WrapLinesOneLine(name, purpose, wrapperArgs, body);
    SplitUnlines(ls);
    SplitAround([], '\n', Unlines(ls));
    assert "\n" + Unlines(ls) == [] + ['\n'] + Unlines(ls);
  }

  lemma FixedPartsOneLine()
    ensures '\n' !in Indent && '\n' !in BodyIndent && '\n' !in "# ── " && '\n' !in " ── "
    ensures '\n' !in "({ " && '\n' !in ", ... }: {" && '\n' !in CloseLine
  {
  }

  lemma BodyOutOneLine(l: String)
    requires '\n' !in l
    ensures '\n' !in BodyOut(l)
  {
    FixedPartsOneLine();
    NotInAppend('\n', BodyIndent, l);
  }

  lemma WrapLinesOneLine(name: String, purpose: String, wrapperArgs: String, body: String)
    requires '\n' !in name && '\n' !in purpose && '\n' !in wrapperArgs
    ensures var ls := WrapLines(name, purpose, wrapperArgs, body);
            forall k :: 0 <= k < |ls| ==> '\n' !in ls[k]
  {
    var bodyLines := Split(body, '\n');
    FixedPartsOneLine();
    NotInAppend('\n', Indent, "# ── ");
    NotInAppend('\n', Indent + "# ── ", name);
    NotInAppend('\n', Indent + "# ── " + name, " ── ");
    NotInAppend('\n', Indent + "# ── " + name + " ── ", purpose);
    NotInAppend('\n', Indent, "({ ");
    NotInAppend('\n', Indent + "({ ", wrapperArgs);
    NotInAppend('\n', Indent + "({ " + wrapperArgs, ", ... }: {");
    var outs := BodyOuts(bodyLines);
    forall k | 0 <= k < |outs| ensures '\n' !in outs[k] {
      BodyOutOneLine(bodyLines[k]);
    }
    var head := [BannerLine(name, purpose), OpenLine(wrapperArgs)];
    SingleLinesAppend(head, outs);
    SingleLinesAppend(head + outs, [CloseLine]);
  }

  /** A prefix removed from a single line leaves a single line. */
  lemma TrimPrefixOneLine(s: String, p: String)
    requires '\n' !in s
    ensures '\n' !in TrimPrefix(s, p)
  {
    if HasPrefix(s, p) {
      assert TrimPrefix(s, p) == s[|p|..];
    }
  }

  /**
   * A module file's block, read back line by line: the empty line, the banner carrying the
   * declared name and purpose, the head, the body lines, the closer.
   */
  lemma ModuleBlockReadBack(lines: seq<String>, wrapperArgs: String)
    requires |lines| >= 4
    requires '\n' !in wrapperArgs
    requires forall k :: 0 <= k < |lines| ==> '\n' !in lines[k]
    ensures Split(WrapBlock(lines, wrapperArgs), '\n')
         == [[]] + WrapLines(DeclaredName(lines), DeclaredPurpose(lines), wrapperArgs, ModuleBody(lines)) + [[]]
  {
    TrimPrefixOneLine(lines[0], ModuleNamePrefix);
    TrimPrefixOneLine(lines[1], PurposePrefix);
    WrapBlockReadBack(DeclaredName(lines), DeclaredPurpose(lines), wrapperArgs, ModuleBody(lines));
  }
}
