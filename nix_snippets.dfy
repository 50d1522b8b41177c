/**
 * The three flake fragments generated from flake-inputs.json (the inputs block, the
 * output-function arguments and the specialArgs bindings), the alias list, and the
 * parameter list every wrapped module receives.
 */
module FlakeSnippets {
  import opened Text
  import opened Descriptors

  /** The generated fragments and the alias list, in descriptor order. */
  datatype Snippets = Snippets(inputsBlock: String, outputArgs: String, specialArgs: String, moduleArgs: seq<String>)

  /** The parameters every wrapped module takes before the aliases. */
  const BaselineArgs: String := "pkgs, lib, config, pkgs-master"

  function UrlLine(fi: FlakeInput): String {
    "    " + fi.name + ".url = \"" + fi.url + "\";"
  }

  function FollowsLine(fi: FlakeInput): String {
    "    " + fi.name + ".inputs.nixpkgs.follows = \"nixpkgs\";"
  }

  /** A descriptor's entry in the inputs block: its url line, then the follows line when it follows nixpkgs. */
  function InputDecl(fi: FlakeInput): String {
    if fi.followsNixpkgs then UrlLine(fi) + "\n" + FollowsLine(fi) else UrlLine(fi)
  }

  /** A descriptor's argument of the outputs function, with its trailing separator. */
  function OutputArg(fi: FlakeInput): String {
    fi.name + ", "
  }

  /** The specialArgs binding that makes the alias stand for the input's attribute. */
  function BindingLine(fi: FlakeInput): String {
    "        " + fi.arg + " = " + fi.name + "." + fi.attr + ";"
  }

  function InputDecls(inputs: seq<FlakeInput>): seq<String> {
    seq(|inputs|, i requires 0 <= i < |inputs| => InputDecl(inputs[i]))
  }

  function OutputArgs(inputs: seq<FlakeInput>): seq<String> {
    seq(|inputs|, i requires 0 <= i < |inputs| => OutputArg(inputs[i]))
  }

  function BindingLines(inputs: seq<FlakeInput>): seq<String> {
    seq(|inputs|, i requires 0 <= i < |inputs| => BindingLine(inputs[i]))
  }

  function Aliases(inputs: seq<FlakeInput>): seq<String> {
    seq(|inputs|, i requires 0 <= i < |inputs| => inputs[i].arg)
  }

  /** The lines the inputs block consists of: per descriptor its url line, then its follows line if any. */
  function DeclLines(inputs: seq<FlakeInput>): seq<String> {
    if inputs == [] then []
    else
      [UrlLine(inputs[0])] + (if inputs[0].followsNixpkgs then [FollowsLine(inputs[0])] else [])
      + DeclLines(inputs[1..])
  }

  /**
   * The parameter list of every module wrapper: the baseline, then ", " and each alias in
   * order.
   */
  function WrapperArgs(aliases: seq<String>): String {
    if aliases == [] then BaselineArgs
    else WrapperArgs(aliases[..|aliases| - 1]) + ", " + aliases[|aliases| - 1]
  }

  /** The four baseline parameters as Split on ',' yields them. */
  const BaselineParams: seq<String> := ["pkgs", " lib", " config", " pkgs-master"]

  /**
   * The fragments for a list of descriptors; no descriptors gives empty fragments and no
   * aliases, and the aliases are the descriptors' args in order.
   */
  function SnippetsFor(inputs: seq<FlakeInput>): (s: Snippets)
    ensures inputs == [] ==> s == Snippets([], [], [], [])
    ensures |s.moduleArgs| == |inputs|
    ensures forall i :: 0 <= i < |inputs| ==> s.moduleArgs[i] == inputs[i].arg
  {
    Snippets(Join(InputDecls(inputs), "\n"), Concat(OutputArgs(inputs)), Join(BindingLines(inputs), "\n"), Aliases(inputs))
  }

  /** One pass over the descriptors, collecting the three fragments' lines and the aliases. */
  method GenerateFlakeSnippets(inputs: seq<FlakeInput>) returns (s: Snippets)
    ensures s == SnippetsFor(inputs)
  {
    if |inputs| == 0 {
      return Snippets([], [], [], []);
    }
    var inLines: seq<String> := [];
    var outArgs: seq<String> := [];
    var saLines: seq<String> := [];
    var moduleArgList: seq<String> := [];
    for i := 0 to |inputs|
      invariant inLines == InputDecls(inputs[..i])
      invariant outArgs == OutputArgs(inputs[..i])
      invariant saLines == BindingLines(inputs[..i])
      invariant moduleArgList == Aliases(inputs[..i])
    {
      var fi := inputs[i];
      var line := UrlLine(fi);
      if fi.followsNixpkgs {
        line := line + "\n" + FollowsLine(fi);
      }
      inLines := inLines + [line];
      outArgs := outArgs + [OutputArg(fi)];
      saLines := saLines + [BindingLine(fi)];
      moduleArgList := moduleArgList + [fi.arg];
      assert inputs[..i + 1] == inputs[..i] + [fi];
    }
    assert inputs[..|inputs|] == inputs;
    s := Snippets(Join(inLines, "\n"), Concat(outArgs), Join(saLines, "\n"), moduleArgList);
  }

  /**
   * Read back line by line, the inputs block is each descriptor's url line followed by
   * its follows line exactly when it follows nixpkgs.
   */
  lemma {:induction false} InputsBlockLines(inputs: seq<FlakeInput>)
    requires inputs != []
    requires forall i :: 0 <= i < |inputs| ==> '\n' !in inputs[i].name && '\n' !in inputs[i].url
    ensures Split(Join(InputDecls(inputs), "\n"), '\n') == DeclLines(inputs)
  {
    var fi := inputs[0];
    DeclSplit(fi);
    if |inputs| == 1 {
      assert DeclLines(inputs[1..]) == [];
      assert Join(InputDecls(inputs), "\n") == InputDecl(fi);
    } else {
      var decls := InputDecls(inputs);
      assert decls[1..] == InputDecls(inputs[1..]);
      InputsBlockLines(inputs[1..]);
      var rest := Join(decls[1..], "\n");
      assert Join(decls, "\n") == InputDecl(fi) + ['\n'] + rest;
      SplitAround(InputDecl(fi), '\n', rest);
    }
  }

  /** One descriptor's entry reads back as its url line, then its follows line if it has one. */
  lemma DeclSplit(fi: FlakeInput)
    requires '\n' !in fi.name && '\n' !in fi.url
    ensures Split(InputDecl(fi), '\n') == [UrlLine(fi)] + (if fi.followsNixpkgs then [FollowsLine(fi)] else [])
  {
    DeclLinesOneLine(fi);
    SplitNoSep(UrlLine(fi), '\n');
    if fi.followsNixpkgs {
      SplitNoSep(FollowsLine(fi), '\n');
      assert "\n" == ['\n'];
      SplitAround(UrlLine(fi), '\n', FollowsLine(fi));
    }
  }

  /** With a single-line name and url, the url line and the follows line are single lines. */
  lemma DeclLinesOneLine(fi: FlakeInput)
    requires '\n' !in fi.name && '\n' !in fi.url
    ensures '\n' !in UrlLine(fi) && '\n' !in FollowsLine(fi)
  {
    DeclTextsOneLine();
    NotInAppend('\n', "    ", fi.name);
    NotInAppend('\n', "    " + fi.name, ".url = \"");
    NotInAppend('\n', "    " + fi.name + ".url = \"", fi.url);
    NotInAppend('\n', "    " + fi.name + ".url = \"" + fi.url, "\";");
    NotInAppend('\n', "    " + fi.name, ".inputs.nixpkgs.follows = \"nixpkgs\";");
  }

  lemma DeclTextsOneLine()
    ensures '\n' !in "    " && '\n' !in ".url = \"" && '\n' !in "\";"
    ensures '\n' !in ".inputs.nixpkgs.follows = \"nixpkgs\";"
  {
  }

  /** The baseline parameter list splits on ',' into its four parameters. */
  lemma BaselineSplit()
    ensures Split(BaselineArgs, ',') == BaselineParams
  {
    BaselineJoin();
    BaselineParamsPlain();
    SplitJoin(BaselineParams, ',');
  }

  lemma BaselineJoin()
    ensures BaselineArgs == Join(BaselineParams, [','])
  {
    var p := BaselineParams;
    assert Join(p[3..], [',']) == " pkgs-master";
    assert Join(p[2..], [',']) == " config" + [','] + " pkgs-master";
    assert Join(p[1..], [',']) == " lib" + [','] + " config" + [','] + " pkgs-master";
  }

  lemma BaselineParamsPlain()
    ensures forall k :: 0 <= k < |BaselineParams| ==> ',' !in BaselineParams[k]
  {
  }

  /** Each alias with the space that follows the comma before it. */
  function SpacedAliases(aliases: seq<String>): (r: seq<String>)
    ensures |r| == |aliases|
    ensures forall i :: 0 <= i < |aliases| ==> r[i] == " " + aliases[i]
  {
    seq(|aliases|, i requires 0 <= i < |aliases| => " " + aliases[i])
  }

  lemma SpacedAliasesLast(aliases: seq<String>)
    requires aliases != []
    ensures SpacedAliases(aliases) == SpacedAliases(aliases[..|aliases| - 1]) + [" " + aliases[|aliases| - 1]]
  {
  }

  /** The last alias is joined to the others by a comma. */
  lemma WrapperArgsLast(aliases: seq<String>)
    requires aliases != []
    ensures WrapperArgs(aliases) == WrapperArgs(aliases[..|aliases| - 1]) + [','] + (" " + aliases[|aliases| - 1])
  {
    var w := WrapperArgs(aliases[..|aliases| - 1]);
    var last := aliases[|aliases| - 1];
    assert ", " == [',', ' '];
    assert " " == [' '];
    PairRegroup(w, ',', ' ', last);
  }

  lemma PairRegroup<T>(a: seq<T>, x: T, y: T, b: seq<T>)
    ensures a + [x, y] + b == a + [x] + ([y] + b)
  {
  }

  /** The wrapper parameter list, split on ',', is the baseline then one " alias" per alias. */
  lemma {:induction false} WrapperParams(aliases: seq<String>)
    requires forall i :: 0 <= i < |aliases| ==> ',' !in aliases[i]
    ensures Split(WrapperArgs(aliases), ',') == BaselineParams + SpacedAliases(aliases)
  {
    if aliases == [] {
      BaselineSplit();
      AppendNil(BaselineParams);
    } else {
      var n := |aliases|;
      var init := aliases[..n - 1];
      WrapperParams(init);
      var last := aliases[n - 1];
      WrapperArgsLast(aliases);
      SplitAround(WrapperArgs(init), ',', " " + last);
      SplitNoSep(" " + last, ',');
      SpacedAliasesLast(aliases);
      AppendAssoc(BaselineParams, SpacedAliases(init), [" " + last]);
    }
  }

  /**
   * The aliases line up: the i-th specialArgs binding defines the alias that is the
   * (4+i)-th parameter of every module wrapper, so each alias a module may name is bound.
   */
  lemma AliasesLineUp(inputs: seq<FlakeInput>)
    requires inputs != []
    requires forall i :: 0 <= i < |inputs| ==> '\n' !in BindingLine(inputs[i]) && ',' !in inputs[i].arg
    ensures var bindings := Split(Join(BindingLines(inputs), "\n"), '\n');
            var params := Split(WrapperArgs(Aliases(inputs)), ',');
            |bindings| == |inputs| && |params| == |BaselineParams| + |inputs| &&
            forall i :: 0 <= i < |inputs| ==>
              HasPrefix(bindings[i], "        " + inputs[i].arg + " = ") && params[|BaselineParams| + i] == " " + inputs[i].arg
  {
    assert "\n" == ['\n'];
    SplitJoin(BindingLines(inputs), '\n');
    WrapperParams(Aliases(inputs));
    forall i | 0 <= i < |inputs|
      ensures HasPrefix(BindingLine(inputs[i]), "        " + inputs[i].arg + " = ")
    {
      BindingStartsWithAlias(inputs[i]);
    }
  }

  lemma BindingStartsWithAlias(fi: FlakeInput)
    ensures HasPrefix(BindingLine(fi), "        " + fi.arg + " = ")
  {
    var p := "        " + fi.arg + " = ";
    PrefixOfLongerAppend(p, fi.name, ".", fi.attr, ";");
  }
}
