/**
 * Building a flake: the template templates/base-flake.nix gets its 22 placeholders
 * replaced by the preset's values and the generated snippets, and the result is written
 * to flakes/<preset>-<suffix>.nix. On success the preset remembers the selected modules
 * and the name of the flake it produced.
 *
 * The engine keeps its replacements in a Go map and runs one strings.ReplaceAll per
 * entry in the map's iteration order, which Go leaves unspecified. That order is the
 * `visit` parameter: any permutation of the entry indices.
 */
module FlakeBuild {
  import opened Text
  import opened Wrappers
  import opened Files
  import opened Descriptors
  import opened FlakeSnippets
  import opened DevShellSnippet
  import opened ModuleInjection
  import opened Placeholders
  import opened Presets

  function TemplatePath(root: String): String {
    PathJoin(PathJoin(root, "templates"), "base-flake.nix")
  }

  /** The names of the template's placeholders, in the order the engine lists them. */
  const TokenNames: seq<String> := [
    "PRESET_NAME", "HOST_NAME", "STATE_VERSION", "USER_NAME", "USER_DESCRIPTION",
    "TIMEZONE", "DEFAULT_LOCALE", "LC_ADDRESS", "LC_IDENTIFICATION", "LC_MEASUREMENT",
    "LC_MONETARY", "LC_NAME", "LC_NUMERIC", "LC_PAPER", "LC_TELEPHONE", "LC_TIME",
    "KEYMAP", "FLAKE_INPUTS", "FLAKE_OUTPUT_ARGS", "FLAKE_SPECIAL_ARGS",
    "DEVSHELLS_INJECTION", "MODULE_INJECTION_POINT"]

  const TokenCount: nat := 22

  const HostNameIndex: nat := 1
  const ModuleInjectionIndex: nat := 21

  function Token(name: String): String {
    "{{" + name + "}}"
  }

  /**
   * The engine's replacement map, looked up by placeholder name: the preset field or
   * generated snippet that `{{name}}` stands for, or None for a name the map lacks.
   */
  function FieldOf(name: String, rec: PresetRecord, sn: Snippets, devShells: String, modules: String): Option<String> {
    var h, u, l := rec.host, rec.user, rec.locale;
    match name
    case "PRESET_NAME" => Some(h.presetName)
    case "HOST_NAME" => Some(h.hostName)
    case "STATE_VERSION" => Some(h.stateVersion)
    case "USER_NAME" => Some(u.name)
    case "USER_DESCRIPTION" => Some(u.description)
    case "TIMEZONE" => Some(l.timezone)
    case "DEFAULT_LOCALE" => Some(l.defaultLocale)
    case "LC_ADDRESS" => Some(l.lcAddress)
    case "LC_IDENTIFICATION" => Some(l.lcIdentification)
    case "LC_MEASUREMENT" => Some(l.lcMeasurement)
    case "LC_MONETARY" => Some(l.lcMonetary)
    case "LC_NAME" => Some(l.lcName)
    case "LC_NUMERIC" => Some(l.lcNumeric)
    case "LC_PAPER" => Some(l.lcPaper)
    case "LC_TELEPHONE" => Some(l.lcTelephone)
    case "LC_TIME" => Some(l.lcTime)
    case "KEYMAP" => Some(l.keymap)
    case "FLAKE_INPUTS" => Some(sn.inputsBlock)
    case "FLAKE_OUTPUT_ARGS" => Some(sn.outputArgs)
    case "FLAKE_SPECIAL_ARGS" => Some(sn.specialArgs)
    case "DEVSHELLS_INJECTION" => Some(devShells)
    case "MODULE_INJECTION_POINT" => Some(modules)
    case _ => None
  }

  /** The value of each placeholder, in the order of `TokenNames`: the field its name stands for. */
  function Values(rec: PresetRecord, sn: Snippets, devShells: String, modules: String): (v: seq<String>)
    ensures |v| == TokenCount
    ensures forall i :: 0 <= i < TokenCount ==> FieldOf(TokenNames[i], rec, sn, devShells, modules) == Some(v[i])
  {
    var h, u, l := rec.host, rec.user, rec.locale;
    [h.presetName, h.hostName, h.stateVersion, u.name, u.description,
     l.timezone, l.defaultLocale, l.lcAddress, l.lcIdentification, l.lcMeasurement,
     l.lcMonetary, l.lcName, l.lcNumeric, l.lcPaper, l.lcTelephone, l.lcTime,
     l.keymap, sn.inputsBlock, sn.outputArgs, sn.specialArgs,
     devShells, modules]
  }

  /** The replacement table as a list: the i-th placeholder and the i-th value. */
  function Replacements(values: seq<String>): (rs: seq<Replacement>)
    requires |values| == TokenCount
    ensures |rs| == TokenCount
    ensures forall i :: 0 <= i < TokenCount ==> rs[i] == Replacement(Token(TokenNames[i]), values[i])
  {
    seq(TokenCount, i requires 0 <= i < TokenCount => Replacement(Token(TokenNames[i]), values[i]))
  }

  /** A possible iteration order of an n-entry Go map: every index exactly once. */
  predicate IsVisitOrder(visit: seq<nat>, n: nat) {
    |visit| == n
    && (forall k :: 0 <= k < |visit| ==> visit[k] < n)
    && (forall k, m :: 0 <= k < m < |visit| ==> visit[k] != visit[m])
    && (forall j :: 0 <= j < n ==> j in visit)
  }

  /** The entries in visiting order. */
  function Visit(rs: seq<Replacement>, visit: seq<nat>): (q: seq<Replacement>)
    requires forall k :: 0 <= k < |visit| ==> visit[k] < |rs|
    ensures |q| == |visit|
    ensures forall k :: 0 <= k < |visit| ==> q[k] == rs[visit[k]]
  {
    seq(|visit|, k requires 0 <= k < |visit| => rs[visit[k]])
  }

  /** The values of the placeholders for a preset, the descriptors and the selected modules. */
  function FlakeValues(rec: PresetRecord, inputs: seq<FlakeInput>, shells: seq<DevShell>,
                       root: String, fs: FileSystem, modules: seq<String>): seq<String>
  {
    var sn := SnippetsFor(inputs);
    Values(rec, sn, Unlines(DevShellsLines(shells)), Injection(root, fs, modules, WrapperArgs(sn.moduleArgs)))
  }

  /** The flake text as the engine computes it, for one map order. */
  function FlakeText(template: String, rec: PresetRecord, inputs: seq<FlakeInput>, shells: seq<DevShell>,
                     root: String, fs: FileSystem, modules: seq<String>, visit: seq<nat>): String
    requires IsVisitOrder(visit, TokenCount)
  {
    SubstituteAll(template, Visit(Replacements(FlakeValues(rec, inputs, shells, root, fs, modules)), visit))
  }

  /** The flake text with each placeholder of the template replaced where it stands, in one pass. */
  function FlakeTextOnePass(template: String, rec: PresetRecord, inputs: seq<FlakeInput>, shells: seq<DevShell>,
                            root: String, fs: FileSystem, modules: seq<String>): String
  {
    Fill(template, TableOf(Replacements(FlakeValues(rec, inputs, shells, root, fs, modules))))
  }

  /** The output file name: the preset name, the custom name or else the time stamp, `.nix`. */
  function OutName(presetName: String, customName: String, now: String): String {
    presetName + "-" + (if customName == [] then now else customName) + ".nix"
  }

  function OutPath(root: String, outName: String): String {
    PathJoin(PathJoin(root, "flakes"), outName)
  }

  /** The preset after a successful build: the modules it used and the flake it produced. */
  function Applied(rec: PresetRecord, modules: seq<String>, outName: String): (r: PresetRecord)
    ensures r.host == rec.host && r.user == rec.user && r.locale == rec.locale
    ensures r.modules.active == modules
    ensures r.metadata.createdAt == rec.metadata.createdAt
    ensures r.metadata.lastModified == rec.metadata.lastModified
    ensures r.metadata.lastAppliedFlake == outName
  {
    rec.(modules := ModulesConfig(modules), metadata := rec.metadata.(lastAppliedFlake := outName))
  }

  datatype BuildError =
    | TemplateMissing(path: String)
    | InputsFailed(cause: LoadError)
    | ShellsFailed(cause: LoadError)
    | WriteFailed(path: String)

  /** A written flake: where it went and what it holds. */
  datatype Written = Written(path: String, content: String)

  /**
   * Builds a flake. `fs` holds the readable files (template and module files), the two
   * descriptor files come decoded or with their failure, `now` is the clock's time stamp
   * as yyyymmdd-hhmmss, `visit` the map order and `writable` whether the output file can
   * be written. The checks run in the engine's order: template, flake inputs, dev shells,
   * write. Only a successful build changes the preset.
   */
  method BuildFlake(root: String, preset: Preset, modules: seq<String>, customName: String, fs: FileSystem,
                    inputsFile: DescriptorFile<FlakeInput>, shellsFile: DescriptorFile<DevShell>,
                    now: String, visit: seq<nat>, writable: bool)
    returns (r: Result<Written, BuildError>)
    requires IsVisitOrder(visit, TokenCount)
    modifies preset
    ensures TemplatePath(root) !in fs ==> r == Err(TemplateMissing(TemplatePath(root)))
    ensures TemplatePath(root) in fs && LoadFlakeInputs(inputsFile).Err? ==>
              r == Err(InputsFailed(LoadFlakeInputs(inputsFile).error))
    ensures TemplatePath(root) in fs && LoadFlakeInputs(inputsFile).Ok? && LoadDevShells(shellsFile).Err? ==>
              r == Err(ShellsFailed(LoadDevShells(shellsFile).error))
    ensures TemplatePath(root) in fs && LoadFlakeInputs(inputsFile).Ok? && LoadDevShells(shellsFile).Ok? && !writable ==>
              r == Err(WriteFailed(OutPath(root, OutName(old(preset.host.presetName), customName, now))))
    ensures r.Ok? <==> TemplatePath(root) in fs && LoadFlakeInputs(inputsFile).Ok? && LoadDevShells(shellsFile).Ok? && writable
    ensures r.Ok? ==>
              var name := OutName(old(preset.host.presetName), customName, now);
              && r.value.path == OutPath(root, name)
              && r.value.content == FlakeText(fs[TemplatePath(root)], old(preset.Record()),
                                               LoadFlakeInputs(inputsFile).value, LoadDevShells(shellsFile).value,
                                               root, fs, modules, visit)
              && preset.Record() == Applied(old(preset.Record()), modules, name)
    ensures r.Err? ==> preset.Record() == old(preset.Record())
  {
    ghost var before := preset.Record();
    var tmplPath := TemplatePath(root);
    if tmplPath !in fs {
      return Err(TemplateMissing(tmplPath));
    }
    var tmpl := fs[tmplPath];
    var flakeInputs := LoadFlakeInputs(inputsFile);
    if flakeInputs.Err? {
      return Err(InputsFailed(flakeInputs.error));
    }
    var devShells := LoadDevShells(shellsFile);
    if devShells.Err? {
      return Err(ShellsFailed(devShells.error));
    }
    var flake := RenderFlake(tmpl, preset.Record(), flakeInputs.value, devShells.value, root, fs, modules, visit);

    var suffix := customName;
    if suffix == [] {
      suffix := now;
    }
    var outName := preset.host.presetName + "-" + suffix + ".nix";
    assert outName == OutName(before.host.presetName, customName, now);
    var outPath := OutPath(root, outName);
    if !writable {
      return Err(WriteFailed(outPath));
    }
    preset.modules := ModulesConfig(modules);
    preset.metadata := preset.metadata.(lastAppliedFlake := outName);
    assert preset.Record() == Applied(before, modules, outName);
    return Ok(Written(outPath, flake));
  }

  /** The snippets, the wrapped modules and the substitution, as the engine runs them. */
  method RenderFlake(tmpl: String, rec: PresetRecord, inputs: seq<FlakeInput>, shells: seq<DevShell>,
                     root: String, fs: FileSystem, modules: seq<String>, visit: seq<nat>)
    returns (flake: String)
    requires IsVisitOrder(visit, TokenCount)
    ensures flake == FlakeText(tmpl, rec, inputs, shells, root, fs, modules, visit)
  {
    var sn := GenerateFlakeSnippets(inputs);
    var devShellsSnippet := GenerateDevShellsSnippet(shells);
    var wrapperArgs := JoinWrapperArgs(sn.moduleArgs);
    var moduleContent := BuildModuleContent(root, fs, modules, wrapperArgs);
    var rs := Replacements(Values(rec, sn, devShellsSnippet, moduleContent));
    flake := Substitute(tmpl, rs, visit);
  }

  /** The baseline parameters, then ", " and each alias. */
  method JoinWrapperArgs(moduleArgs: seq<String>) returns (wrapperArgs: String)
    ensures wrapperArgs == WrapperArgs(moduleArgs)
  {
    wrapperArgs := BaselineArgs;
    for i := 0 to |moduleArgs|
      invariant wrapperArgs == WrapperArgs(moduleArgs[..i])
    {
      PrefixOfPrefix(moduleArgs, i);
      wrapperArgs := wrapperArgs + ", " + moduleArgs[i];
    }
    assert moduleArgs[..|moduleArgs|] == moduleArgs;
  }

  /** One strings.ReplaceAll per entry, in the map's order. */
  method Substitute(tmpl: String, rs: seq<Replacement>, visit: seq<nat>) returns (flake: String)
    requires forall k :: 0 <= k < |visit| ==> visit[k] < |rs|
    ensures flake == SubstituteAll(tmpl, Visit(rs, visit))
  {
    ghost var order := Visit(rs, visit);
    flake := tmpl;
    for i := 0 to |visit|
      invariant SubstituteAll(flake, order[i..]) == SubstituteAll(tmpl, order)
    {
      var e := rs[visit[i]];
      assert order[i..][1..] == order[i + 1..];
      flake := ReplaceAll(flake, e.token, e.value);
    }
  }

  // ---------------------------------------------------------------------------
  // The replacement table

  /** A non-empty name without braces makes a well-formed placeholder. */
  lemma TokenOf(name: String)
    requires PlainName(name)
    ensures IsToken(Token(name))
  {
    var t := Token(name);
    assert t[..2] == "{{" && t[|t| - 2..] == "}}";
    forall i | 2 <= i < |t| - 2 ensures NameChar(t[i]) {
      assert t[i] == name[i - 2];
    }
  }

  /** Distinct names make distinct placeholders. */
  lemma TokenInjective(a: String, b: String)
    requires Token(a) == Token(b)
    ensures a == b
  {
    assert a == Token(a)[2..|Token(a)| - 2];
    assert b == Token(b)[2..|Token(b)| - 2];
  }

  /** A placeholder name: capital letters and underscores. */
  predicate PlainName(name: String) {
    name != [] && forall k :: 0 <= k < |name| ==> 'A' <= name[k] <= 'Z' || name[k] == '_'
  }

  lemma NamesArePlain()
    ensures |TokenNames| == TokenCount
    ensures forall i :: 0 <= i < TokenCount ==> PlainName(TokenNames[i])
  {
    HostNamesArePlain();
    LocaleNamesArePlain();
    TimeNamesArePlain();
    SnippetNamesArePlain();
  }

  lemma HostNamesArePlain()
    ensures PlainName("PRESET_NAME") && PlainName("HOST_NAME") && PlainName("STATE_VERSION")
    ensures PlainName("USER_NAME") && PlainName("USER_DESCRIPTION") && PlainName("TIMEZONE")
  {
  }

  lemma LocaleNamesArePlain()
    ensures PlainName("DEFAULT_LOCALE") && PlainName("LC_ADDRESS") && PlainName("LC_IDENTIFICATION")
    ensures PlainName("LC_MEASUREMENT") && PlainName("LC_MONETARY") && PlainName("LC_NAME")
  {
  }

  lemma TimeNamesArePlain()
    ensures PlainName("LC_NUMERIC") && PlainName("LC_PAPER") && PlainName("LC_TELEPHONE")
    ensures PlainName("LC_TIME") && PlainName("KEYMAP")
  {
  }

  lemma SnippetNamesArePlain()
    ensures PlainName("FLAKE_INPUTS") && PlainName("FLAKE_OUTPUT_ARGS") && PlainName("FLAKE_SPECIAL_ARGS")
    ensures PlainName("DEVSHELLS_INJECTION") && PlainName("MODULE_INJECTION_POINT")
  {
  }

  lemma NamesAreDistinct()
    ensures forall i, j :: 0 <= i < j < TokenCount ==> TokenNames[i] != TokenNames[j]
  {
  }

  /** The 22 placeholders are well formed and pairwise distinct. */
  lemma TokensWellFormed()
    ensures forall i :: 0 <= i < TokenCount ==> IsToken(Token(TokenNames[i]))
    ensures forall i, j :: 0 <= i < j < TokenCount ==> Token(TokenNames[i]) != Token(TokenNames[j])
  {
    NamesArePlain();
    NamesAreDistinct();
    forall i | 0 <= i < TokenCount ensures IsToken(Token(TokenNames[i])) {
      TokenOf(TokenNames[i]);
    }
    forall i, j | 0 <= i < j < TokenCount ensures Token(TokenNames[i]) != Token(TokenNames[j]) {
      if Token(TokenNames[i]) == Token(TokenNames[j]) {
        TokenInjective(TokenNames[i], TokenNames[j]);
      }
    }
  }

  /** The engine's table is well formed once its values are inert. */
  lemma TableWellFormed(values: seq<String>)
    requires |values| == TokenCount
    requires forall i :: 0 <= i < TokenCount ==> Inert(values[i])
    ensures WellFormed(Replacements(values))
  {
    TokensWellFormed();
  }

  /** Any map order lists the same entries, each once. */
  lemma VisitKeepsEntries(rs: seq<Replacement>, visit: seq<nat>)
    requires IsVisitOrder(visit, |rs|)
    requires WellFormed(rs)
    ensures WellFormed(Visit(rs, visit))
    ensures forall e :: e in Visit(rs, visit) <==> e in rs
  {
    var q := Visit(rs, visit);
    forall e | e in rs ensures e in q {
      var j :| 0 <= j < |rs| && rs[j] == e;
      assert j in visit;
      var k :| 0 <= k < |visit| && visit[k] == j;
      assert q[k] == e;
    }
  }

  /**
   * Whatever order the map yields, the engine's text is the one-pass text, provided the
   * template is clean and no value can form a placeholder.
   */
  lemma BuildIsOnePass(template: String, rec: PresetRecord, inputs: seq<FlakeInput>, shells: seq<DevShell>,
                       root: String, fs: FileSystem, modules: seq<String>, visit: seq<nat>)
    requires IsVisitOrder(visit, TokenCount)
    requires Clean(template)
    requires forall i :: 0 <= i < TokenCount ==> Inert(FlakeValues(rec, inputs, shells, root, fs, modules)[i])
    ensures FlakeText(template, rec, inputs, shells, root, fs, modules, visit)
         == FlakeTextOnePass(template, rec, inputs, shells, root, fs, modules)
  {
    var rs := Replacements(FlakeValues(rec, inputs, shells, root, fs, modules));
    TableWellFormed(FlakeValues(rec, inputs, shells, root, fs, modules));
    VisitKeepsEntries(rs, visit);
    OrderIrrelevant(template, Visit(rs, visit), rs);
    SequentialIsOnePass(template, rs);
  }

  /** Under the same conditions, no placeholder of the table is left in the built flake. */
  lemma BuildLeavesNoPlaceholder(template: String, rec: PresetRecord, inputs: seq<FlakeInput>, shells: seq<DevShell>,
                                 root: String, fs: FileSystem, modules: seq<String>, visit: seq<nat>)
    requires IsVisitOrder(visit, TokenCount)
    requires Clean(template)
    requires forall i :: 0 <= i < TokenCount ==> Inert(FlakeValues(rec, inputs, shells, root, fs, modules)[i])
    ensures var text := FlakeText(template, rec, inputs, shells, root, fs, modules, visit);
            Untouched(text, TableOf(Replacements(FlakeValues(rec, inputs, shells, root, fs, modules))))
  {
    var values := FlakeValues(rec, inputs, shells, root, fs, modules);
    var rs := Replacements(values);
    BuildIsOnePass(template, rec, inputs, shells, root, fs, modules, visit);
    TableWellFormed(values);
    forall t | t in TableOf(rs) ensures Inert(TableOf(rs)[t]) {
      TableOfHoldsEntries(rs, Replacement(t, TableOf(rs)[t]));
    }
    FillLeavesNoToken(template, TableOf(rs));
  }

  /** The flake's name gives back the custom name, or the time stamp when there is none. */
  lemma OutNameRoundTrip(presetName: String, customName: String, now: String)
    ensures var suffix := if customName == [] then now else customName;
            TrimSuffix(TrimPrefix(OutName(presetName, customName, now), presetName + "-"), ".nix") == suffix
  {
    var suffix := if customName == [] then now else customName;
    var name := OutName(presetName, customName, now);
    assert name == (presetName + "-") + (suffix + ".nix");
    assert HasPrefix(name, presetName + "-");
    assert TrimPrefix(name, presetName + "-") == suffix + ".nix";
    assert HasSuffix(suffix + ".nix", ".nix");
  }

  // ---------------------------------------------------------------------------
  // Map order and values that hold placeholders

  /** Every entry index but the host name's and the module injection's, in table order. */
  const OtherEntries: seq<nat> := seq(TokenCount - 2, k => if k == 0 then 0 else k + 1)
  /** A map order that substitutes the modules before the host name. */
  const ModulesFirst: seq<nat> := [ModuleInjectionIndex, HostNameIndex] + OtherEntries
  /** A map order that substitutes the host name before the modules. */
  const HostFirst: seq<nat> := [HostNameIndex, ModuleInjectionIndex] + OtherEntries

  lemma OtherEntriesIncrease()
    ensures |OtherEntries| == TokenCount - 2
    ensures forall k :: 0 <= k < |OtherEntries| ==>
              OtherEntries[k] < TokenCount && OtherEntries[k] != HostNameIndex && OtherEntries[k] != ModuleInjectionIndex
    ensures forall k, m :: 0 <= k < m < |OtherEntries| ==> OtherEntries[k] < OtherEntries[m]
    ensures forall j :: 0 <= j < TokenCount && j != HostNameIndex && j != ModuleInjectionIndex ==> j in OtherEntries
  {
    forall j | 0 <= j < TokenCount && j != HostNameIndex && j != ModuleInjectionIndex ensures j in OtherEntries {
      assert OtherEntries[if j == 0 then 0 else j - 1] == j;
    }
  }

  lemma OrdersAreVisitOrders()
    ensures IsVisitOrder(ModulesFirst, TokenCount) && IsVisitOrder(HostFirst, TokenCount)
  {
    OtherEntriesIncrease();
    TwoThenRest(ModuleInjectionIndex, HostNameIndex, OtherEntries, TokenCount);
    TwoThenRest(HostNameIndex, ModuleInjectionIndex, OtherEntries, TokenCount);
  }

  /** Two distinct indices, then every other index once in increasing order, visit each index once. */
  lemma TwoThenRest(a: nat, b: nat, rest: seq<nat>, n: nat)
    requires a != b && a < n && b < n && |rest| + 2 == n
    requires forall k :: 0 <= k < |rest| ==> rest[k] < n && rest[k] != a && rest[k] != b
    requires forall k, m :: 0 <= k < m < |rest| ==> rest[k] < rest[m]
    requires forall j :: 0 <= j < n && j != a && j != b ==> j in rest
    ensures IsVisitOrder([a, b] + rest, n)
  {
    var v := [a, b] + rest;
    assert forall k :: 0 <= k < |rest| ==> v[k + 2] == rest[k];
    forall j | 0 <= j < n ensures j in v {
      if j != a && j != b {
        assert j in rest;
        var k :| 0 <= k < |rest| && rest[k] == j;
        assert v[k + 2] == j;
      }
    }
  }

  /** A pattern that is the whole text is replaced once. */
  lemma ReplaceWhole(t: String, v: String)
    requires t != []
    ensures ReplaceAll(t, t, v) == v
  {
    assert HasPrefix(t, t);
    assert t[|t|..] == [];
  }

  /** The passes of the other entries, well formed among themselves, distinct from the two. */
  lemma OtherPassesWellFormed(values: seq<String>)
    requires |values| == TokenCount
    requires forall i :: 0 <= i < TokenCount && i != HostNameIndex && i != ModuleInjectionIndex ==> Inert(values[i])
    ensures var q := Visit(Replacements(values), OtherEntries);
            && WellFormed(q)
            && forall k :: 0 <= k < |q| ==> q[k].token != Token(TokenNames[HostNameIndex])
  {
    TokensWellFormed();
    OtherEntriesIncrease();
  }

  /** A token that none of the passes names survives them. */
  lemma PassesKeepToken(t: String, q: seq<Replacement>)
    requires IsToken(t) && WellFormed(q)
    requires forall k :: 0 <= k < |q| ==> q[k].token != t
    ensures SubstituteAll(t, q) == t
  {
    NotInTable(q, t);
    TokenThenRest(t, [], TableOf(q));
    assert t + [] == t;
    SequentialIsOnePass(t, q);
  }

  /** A single character other than a brace survives any passes. */
  lemma PassesKeepChar(c: char, q: seq<Replacement>)
    requires c != '{' && WellFormed(q)
    ensures SubstituteAll([c], q) == [c]
  {
    ScanChar([c], TableOf(q));
    assert [c][1..] == [];
    SequentialIsOnePass([c], q);
  }

  /**
   * A value holding a placeholder makes the text depend on the map order: with the
   * host name "h" and the module text `{{HOST_NAME}}`, the modules placeholder becomes
   * "h" when the modules go first and stays `{{HOST_NAME}}` when the host name goes first.
   */
  lemma SubstitutionOrderMatters(values: seq<String>)
    requires |values| == TokenCount
    requires values[HostNameIndex] == "h" && values[ModuleInjectionIndex] == Token(TokenNames[HostNameIndex])
    requires forall i :: 0 <= i < TokenCount && i != HostNameIndex && i != ModuleInjectionIndex ==> Inert(values[i])
    ensures IsVisitOrder(ModulesFirst, TokenCount) && IsVisitOrder(HostFirst, TokenCount)
    ensures SubstituteAll(Token(TokenNames[ModuleInjectionIndex]), Visit(Replacements(values), ModulesFirst)) == "h"
    ensures SubstituteAll(Token(TokenNames[ModuleInjectionIndex]), Visit(Replacements(values), HostFirst))
         == Token(TokenNames[HostNameIndex])
  {
    OrdersAreVisitOrders();
    ModulesFirstGivesHost(values);
    HostFirstLeavesToken(values);
  }

  lemma ModulesFirstGivesHost(values: seq<String>)
    requires |values| == TokenCount
    requires values[HostNameIndex] == "h" && values[ModuleInjectionIndex] == Token(TokenNames[HostNameIndex])
    requires forall i :: 0 <= i < TokenCount && i != HostNameIndex && i != ModuleInjectionIndex ==> Inert(values[i])
    ensures SubstituteAll(Token(TokenNames[ModuleInjectionIndex]), Visit(Replacements(values), ModulesFirst)) == "h"
  {
    OrdersAreVisitOrders();
    TokensWellFormed();
    var rs := Replacements(values);
    var tm, th := Token(TokenNames[ModuleInjectionIndex]), Token(TokenNames[HostNameIndex]);
    var rest := Visit(rs, OtherEntries);
    OtherPassesWellFormed(values);
    var q := Visit(rs, ModulesFirst);
    assert q[0] == Replacement(tm, th) && q[1] == Replacement(th, "h") && q[2..] == rest;
    ReplaceWhole(tm, th);
    ReplaceWhole(th, "h");
    PassesKeepChar('h', rest);
    assert q[1..][1..] == rest;
  }

  lemma HostFirstLeavesToken(values: seq<String>)
    requires |values| == TokenCount
    requires values[HostNameIndex] == "h" && values[ModuleInjectionIndex] == Token(TokenNames[HostNameIndex])
    requires forall i :: 0 <= i < TokenCount && i != HostNameIndex && i != ModuleInjectionIndex ==> Inert(values[i])
    ensures SubstituteAll(Token(TokenNames[ModuleInjectionIndex]), Visit(Replacements(values), HostFirst))
         == Token(TokenNames[HostNameIndex])
  {
    OrdersAreVisitOrders();
    TokensWellFormed();
    var rs := Replacements(values);
    var tm, th := Token(TokenNames[ModuleInjectionIndex]), Token(TokenNames[HostNameIndex]);
    var rest := Visit(rs, OtherEntries);
    OtherPassesWellFormed(values);
    var p := Visit(rs, HostFirst);
    assert p[0] == Replacement(th, "h") && p[1] == Replacement(tm, th) && p[2..] == rest;
    TokenAtFront(tm, tm);
    assert tm[..|tm|] == tm && tm[|tm|..] == [];
    ReplaceSkipsOtherToken(tm, th, "h");
    ReplaceWhole(tm, th);
    PassesKeepToken(th, rest);
    assert p[1..][1..] == rest;
  }

  /** Only the listed names have a field. */
  lemma FieldNamesListed(name: String, rec: PresetRecord, sn: Snippets, devShells: String, modules: String)
    requires FieldOf(name, rec, sn, devShells, modules).Some?
    ensures name in TokenNames
  {
  }

  /** In one pass `{{name}}` becomes the field the engine's map gives that name. */
  lemma PlaceholderGetsField(name: String, rec: PresetRecord, sn: Snippets, devShells: String, modules: String)
    requires FieldOf(name, rec, sn, devShells, modules).Some?
    ensures Fill(Token(name), TableOf(Replacements(Values(rec, sn, devShells, modules))))
         == FieldOf(name, rec, sn, devShells, modules).value
  {
    FieldNamesListed(name, rec, sn, devShells, modules);
    var i :| 0 <= i < |TokenNames| && TokenNames[i] == name;
    OnePassPlacesValue(Values(rec, sn, devShells, modules), i);
  }

  /** A placeholder whose name the engine's map lacks is left as it is. */
  lemma UnknownPlaceholderKept(name: String, rec: PresetRecord, sn: Snippets, devShells: String, modules: String)
    requires PlainName(name) && FieldOf(name, rec, sn, devShells, modules).None?
    ensures Fill(Token(name), TableOf(Replacements(Values(rec, sn, devShells, modules)))) == Token(name)
  {
    var rs := Replacements(Values(rec, sn, devShells, modules));
    var t := Token(name);
    forall i | 0 <= i < |rs| ensures rs[i].token != t {
      if rs[i].token == t {
        TokenInjective(TokenNames[i], name);
      }
    }
    NotInTable(rs, t);
    TokenOf(name);
    TokenThenRest(t, [], TableOf(rs));
    assert t + [] == t;
  }

  /** In one pass every placeholder of the template gets its own value, as it is. */
  lemma OnePassPlacesValue(values: seq<String>, i: nat)
    requires |values| == TokenCount && i < TokenCount
    ensures Fill(Token(TokenNames[i]), TableOf(Replacements(values))) == values[i]
  {
    TokensWellFormed();
    var rs := Replacements(values);
    var t := Token(TokenNames[i]);
    TableOfHoldsEntries(rs, rs[i]);
    TokenThenRest(t, [], TableOf(rs));
    assert t + [] == t;
  }
}
