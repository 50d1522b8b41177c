/**
 * Module discovery: every `.nix` file directly inside one of the five category
 * directories under modules/ is a module, described by its category, its name, the
 * purpose stated in its header and its path relative to modules/ without `.nix`.
 */
module Catalog {
  import opened Text
  import opened Wrappers
  import opened Files

  /** The category directories, scanned in this order. */
  const Categories: seq<String> := ["system", "hardware", "apps", "services", "overlays"]

  const PurposePrefix: String := "# PURPOSE: "
  const NixSuffix: String := ".nix"

  /** A discovered module. */
  datatype ModuleInfo = ModuleInfo(category: String, name: String, purpose: String, relPath: String, fullPath: String)

  /** A line declares the purpose when, trimmed, it starts with the purpose prefix. */
  predicate IsPurposeLine(line: String) {
    HasPrefix(TrimSpace(line), PurposePrefix)
  }

  /** The declared purpose: the trimmed text after the prefix. */
  function PurposeText(line: String): String {
    TrimSpace(TrimPrefix(TrimSpace(line), PurposePrefix))
  }

  /** For each line, whether it declares the purpose. */
  function PurposeFlags(lines: seq<String>): (flags: seq<bool>)
    ensures |flags| == |lines|
    ensures forall i :: 0 <= i < |lines| ==> flags[i] == IsPurposeLine(lines[i])
  {
    seq(|lines|, i requires 0 <= i < |lines| => IsPurposeLine(lines[i]))
  }

  /** The first set flag at or after `from`, if there is one. */
  function FirstSet(flags: seq<bool>, from: nat): (r: Option<nat>)
    requires from <= |flags|
    ensures r.Some? ==> from <= r.value < |flags| && flags[r.value]
    ensures r.Some? ==> forall j :: from <= j < r.value ==> !flags[j]
    ensures r.None? <==> forall j :: from <= j < |flags| ==> !flags[j]
    decreases |flags| - from
  {
    if from == |flags| then None
    else if flags[from] then Some(from)
    else FirstSet(flags, from + 1)
  }

  /** A set flag with none before it is the first one. */
  lemma {:induction false} FirstSetAt(flags: seq<bool>, from: nat, i: nat)
    requires from <= i < |flags| && flags[i]
    requires forall j :: from <= j < i ==> !flags[j]
    ensures FirstSet(flags, from) == Some(i)
    decreases i - from
  {
    if from < i {
      FirstSetAt(flags, from + 1, i);
    }
  }

  /**
   * The purpose a module file declares: the text of its first purpose line, or nothing
   * when the file cannot be read or has no purpose line.
   */
  function Purpose(fs: FileSystem, path: String): (p: String)
    ensures path !in fs ==> p == []
    ensures p == [] || (!IsSpace(p[0]) && !IsSpace(p[|p| - 1]))
  {
    if path !in fs then [] else PurposeIn(Split(fs[path], '\n'))
  }

  /** The purpose declared among a file's lines: the text of the first purpose line, if any. */
  function PurposeIn(lines: seq<String>): (p: String)
    ensures p == [] || (!IsSpace(p[0]) && !IsSpace(p[|p| - 1]))
  {
    match FirstSet(PurposeFlags(lines), 0)
    case None => []
    case Some(k) => PurposeText(lines[k])
  }

  /** Scans the file's lines and returns at the first purpose line. */
  method ReadPurpose(fs: FileSystem, path: String) returns (purpose: String)
    ensures purpose == Purpose(fs, path)
  {
    if path !in fs {
      return [];
    }
    var lines := Split(fs[path], '\n');
    for i := 0 to |lines|
      invariant forall j :: 0 <= j < i ==> !IsPurposeLine(lines[j])
    {
      if IsPurposeLine(lines[i]) {
        PurposeFound(lines, i);
        return PurposeText(lines[i]);
      }
    }
    PurposeAbsent(lines);
    return [];
  }

  /** The first purpose line found by a scan is the one the purpose is taken from. */
  lemma PurposeFound(lines: seq<String>, i: nat)
    requires i < |lines| && IsPurposeLine(lines[i])
    requires forall j :: 0 <= j < i ==> !IsPurposeLine(lines[j])
    ensures PurposeIn(lines) == PurposeText(lines[i])
  {
    FirstSetAt(PurposeFlags(lines), 0, i);
  }

  /** A scan that finds no purpose line agrees with the absent purpose. */
  lemma PurposeAbsent(lines: seq<String>)
    requires forall j :: 0 <= j < |lines| ==> !IsPurposeLine(lines[j])
    ensures PurposeIn(lines) == []
  {
    assert FirstSet(PurposeFlags(lines), 0) == None;
  }

  /** Directory entries that are modules: regular entries whose name ends in `.nix`. */
  predicate IsModuleEntry(e: DirEntry) {
    !e.isDir && HasSuffix(e.name, NixSuffix)
  }

  function CategoryDir(root: String, cat: String): String {
    PathJoin(PathJoin(root, "modules"), cat)
  }

  /** The module an entry of a category directory describes. */
  function EntryModule(fs: FileSystem, catDir: String, cat: String, e: DirEntry): ModuleInfo {
    var name := TrimSuffix(e.name, NixSuffix);
    var fullPath := PathJoin(catDir, e.name);
    ModuleInfo(cat, name, Purpose(fs, fullPath), cat + "/" + name, fullPath)
  }

  /** The modules of one category directory, in listing order. */
  function ModulesIn(fs: FileSystem, catDir: String, cat: String, entries: seq<DirEntry>): seq<ModuleInfo> {
    if entries == [] then []
    else
      var e := entries[|entries| - 1];
      ModulesIn(fs, catDir, cat, entries[..|entries| - 1])
      + (if IsModuleEntry(e) then [EntryModule(fs, catDir, cat, e)] else [])
  }

  /**
   * The modules of the given categories, in category order; a category whose directory
   * cannot be listed (absent from `dirs`) contributes nothing.
   */
  function ModulesOf(root: String, dirs: map<String, seq<DirEntry>>, fs: FileSystem, cats: seq<String>): seq<ModuleInfo> {
    if cats == [] then []
    else
      var cat := cats[|cats| - 1];
      var catDir := CategoryDir(root, cat);
      ModulesOf(root, dirs, fs, cats[..|cats| - 1])
      + (if catDir in dirs then ModulesIn(fs, catDir, cat, dirs[catDir]) else [])
  }

  /**
   * Scans the category directories in order. `dirs` holds the listing of every directory
   * that can be read; `fs` the readable files.
   */
  method ListModules(root: String, dirs: map<String, seq<DirEntry>>, fs: FileSystem) returns (modules: seq<ModuleInfo>)
    ensures modules == ModulesOf(root, dirs, fs, Categories)
  {
    modules := [];
    for c := 0 to |Categories|
      invariant modules == ModulesOf(root, dirs, fs, Categories[..c])
    {
      var cat := Categories[c];
      var catDir := CategoryDir(root, cat);
      PrefixOfPrefix(Categories, c);
      if catDir !in dirs {
        AppendNil(modules);
        continue;
      }
      var found := ScanCategory(fs, catDir, cat, dirs[catDir]);
      modules := modules + found;
    }
    TakeAll(Categories);
  }

  /** The modules among one category directory's entries, in listing order. */
  method ScanCategory(fs: FileSystem, catDir: String, cat: String, entries: seq<DirEntry>) returns (found: seq<ModuleInfo>)
    ensures found == ModulesIn(fs, catDir, cat, entries)
  {
    found := [];
    for k := 0 to |entries|
      invariant found == ModulesIn(fs, catDir, cat, entries[..k])
    {
      var e := entries[k];
      PrefixOfPrefix(entries, k);
      if e.isDir || !HasSuffix(e.name, NixSuffix) {
        AppendNil(found);
        continue;
      }
      var name := TrimSuffix(e.name, NixSuffix);
      var fullPath := PathJoin(catDir, e.name);
      var purpose := ReadPurpose(fs, fullPath);
      found := found + [ModuleInfo(cat, name, purpose, cat + "/" + name, fullPath)];
    }
    assert entries[..|entries|] == entries;
  }

  /** A module is listed exactly when some module entry of a listable category directory describes it. */
  lemma ModulesInMembers(fs: FileSystem, catDir: String, cat: String, entries: seq<DirEntry>, m: ModuleInfo)
    ensures m in ModulesIn(fs, catDir, cat, entries)
        <==> exists k :: 0 <= k < |entries| && IsModuleEntry(entries[k]) && m == EntryModule(fs, catDir, cat, entries[k])
  {
    if m in ModulesIn(fs, catDir, cat, entries) {
      var k := ListedModuleEntry(fs, catDir, cat, entries, m);
    }
    if exists k :: 0 <= k < |entries| && IsModuleEntry(entries[k]) && m == EntryModule(fs, catDir, cat, entries[k]) {
      var k :| 0 <= k < |entries| && IsModuleEntry(entries[k]) && m == EntryModule(fs, catDir, cat, entries[k]);
      EntryModuleListed(fs, catDir, cat, entries, k);
    }
  }

  /** A listed module comes from a `.nix` entry: the index of that entry. */
  lemma {:induction false} ListedModuleEntry(fs: FileSystem, catDir: String, cat: String, entries: seq<DirEntry>, m: ModuleInfo)
    returns (k: nat)
    requires m in ModulesIn(fs, catDir, cat, entries)
    ensures k < |entries| && IsModuleEntry(entries[k]) && m == EntryModule(fs, catDir, cat, entries[k])
  {
    var n := |entries|;
    var init := entries[..n - 1];
    var e := entries[n - 1];
    var tail := if IsModuleEntry(e) then [EntryModule(fs, catDir, cat, e)] else [];
    assert ModulesIn(fs, catDir, cat, entries) == ModulesIn(fs, catDir, cat, init) + tail;
    if m in ModulesIn(fs, catDir, cat, init) {
      k := ListedModuleEntry(fs, catDir, cat, init, m);
      assert entries[k] == init[k];
    } else {
      assert m in tail;
      k := n - 1;
    }
  }

  /** Every `.nix` entry's module is listed. */
  lemma {:induction false} EntryModuleListed(fs: FileSystem, catDir: String, cat: String, entries: seq<DirEntry>, k: nat)
    requires k < |entries| && IsModuleEntry(entries[k])
    ensures EntryModule(fs, catDir, cat, entries[k]) in ModulesIn(fs, catDir, cat, entries)
  {
    var n := |entries|;
    var init := entries[..n - 1];
    var e := entries[n - 1];
    var tail := if IsModuleEntry(e) then [EntryModule(fs, catDir, cat, e)] else [];
    assert ModulesIn(fs, catDir, cat, entries) == ModulesIn(fs, catDir, cat, init) + tail;
    if k < n - 1 {
      assert init[k] == entries[k];
      EntryModuleListed(fs, catDir, cat, init, k);
    } else {
      assert EntryModule(fs, catDir, cat, entries[k]) in tail;
    }
  }

  /** The path the flake builder reads for a selected module, given its path relative to modules/. */
  function ModulePath(root: String, relPath: String): String {
    PathJoin(PathJoin(root, "modules"), relPath + NixSuffix)
  }

  /**
   * What a listed entry records: its name is the file name without `.nix`, its relative
   * path is category "/" name, and the builder's path for that relative path is the very
   * file that was listed.
   */
  lemma EntryModuleResolves(fs: FileSystem, root: String, cat: String, e: DirEntry)
    requires IsModuleEntry(e) && cat != []
    ensures var m := EntryModule(fs, CategoryDir(root, cat), cat, e);
            m.name + NixSuffix == e.name && m.relPath == cat + "/" + m.name && m.category == cat
            && ModulePath(root, m.relPath) == m.fullPath
  {
    var m := EntryModule(fs, CategoryDir(root, cat), cat, e);
    var dir := PathJoin(root, "modules");
    assert m.name + NixSuffix == e.name;
    Regroup(cat, "/", m.name, NixSuffix);
    PathJoinAssoc(dir, cat, e.name);
  }

  lemma Regroup(a: String, b: String, c: String, d: String)
    ensures a + b + c + d == a + b + (c + d)
  {
  }

  /**
   * Every listed module comes from one of the categories, and the path the flake builder
   * derives from its relative path is the file that was listed.
   */
  lemma {:induction false} ListedModulesResolve(root: String, dirs: map<String, seq<DirEntry>>, fs: FileSystem, cats: seq<String>, m: ModuleInfo)
    requires forall i :: 0 <= i < |cats| ==> cats[i] != []
    requires m in ModulesOf(root, dirs, fs, cats)
    ensures m.category in cats && m.relPath == m.category + "/" + m.name
    ensures ModulePath(root, m.relPath) == m.fullPath
  {
    var n := |cats|;
    var cat := cats[n - 1];
    var catDir := CategoryDir(root, cat);
    if m in ModulesOf(root, dirs, fs, cats[..n - 1]) {
      ListedModulesResolve(root, dirs, fs, cats[..n - 1], m);
    } else {
      assert catDir in dirs && m in ModulesIn(fs, catDir, cat, dirs[catDir]);
      ModulesInMembers(fs, catDir, cat, dirs[catDir], m);
      var k :| 0 <= k < |dirs[catDir]| && IsModuleEntry(dirs[catDir][k]) && m == EntryModule(fs, catDir, cat, dirs[catDir][k]);
      EntryModuleResolves(fs, root, cat, dirs[catDir][k]);
    }
  }
}
