# LEGOFlakes flake engine, in Dafny

LEGOFlakes assembles a NixOS flake from small module files ("LEGO bricks"). This project
models the engine behind its terminal UI and proves properties of that model:

- **the module catalog**: `modules/<category>/*.nix` are listed category by category.
  Each module's purpose is the first `# PURPOSE: ` line of its file.
- **the flake-input and dev-shell descriptors** (`modules/overlays/flake-inputs.json` and
  `devshells.json`). A missing file means an empty list. An unreadable or undecodable
  file is an error.
- **the snippets generated from them**: the `inputs` block, the output arguments, the
  `specialArgs` bindings, the alias list and the `devShells` block.
- **module injection**: every selected module file with at least four lines becomes a
  wrapped entry of the `modules` list. Its parameters are the baseline
  `pkgs, lib, config, pkgs-master` followed by the aliases.
- **the flake build**: the 22 `{{NAME}}` placeholders of `templates/base-flake.nix` are
  replaced and the result goes to `flakes/<preset>-<suffix>.nix`. On success the preset
  records the modules used and the flake produced.
- **presets**: the record, its defaults, saving with a new time stamp, loading, and the
  listing of `presets/*.toml`.
- **the module-selection screen**: cursor movement, toggling one module, toggling all
  modules, the selected paths and their count, resizing and reloading.

Files (one module each):

| file | module | models |
|---|---|---|
| `text.dfy` | `Text` | the Go `strings` functions the engine uses: Split, Join, HasPrefix/HasSuffix, TrimPrefix/TrimSuffix, TrimSpace with `unicode.IsSpace`, TrimRight with a cutset, ReplaceAll |
| `wrappers.dfy` | `Wrappers` | `Option` and `Result` |
| `files.dfy` | `Files` | the file system as a map from path to text, directory entries, `filepath.Join` of two parts |
| `placeholders.dfy` | `Placeholders` | sequential `strings.ReplaceAll` passes compared with a one-pass fill |
| `nix_descriptors.dfy` | `Descriptors` | `FlakeInput`, `DevShell`, `LoadFlakeInputs`, `LoadDevShells` |
| `nix_snippets.dfy` | `FlakeSnippets` | `generateFlakeSnippets` and the wrapper parameter list |
| `nix_devshells.dfy` | `DevShellSnippet` | `generateDevShellsSnippet` |
| `nix_catalog.dfy` | `Catalog` | `ListModules`, `readPurpose` |
| `nix_modules.dfy` | `ModuleInjection` | the module-content loop of `BuildFlake` |
| `nix_build.dfy` | `FlakeBuild` | `BuildFlake`: errors, placeholder table, substitution, output name, preset update |
| `preset.dfy` | `Presets` | the `Preset` records, `NewDefaultPreset`, `LoadPreset`, `SavePreset`, `ListPresets` |
| `selection.dfy` | `Selection` | `SelectionModel` and its `Update`, `GetSelected`, counter, `SetSize`, `Refresh` |

Inputs from the outside world are parameters:

- The readable files are a `map<String, String>` from path to contents.
- Directory listings are a map from directory to its entries, or `Option<seq<DirEntry>>`
  where a listing can fail.
- The two descriptor files arrive already decoded, or as `Missing`, `Unreadable` or
  `Undecodable`.
- The clock is a time-stamp string, already formatted.
- Whether a file can be created or written is a `bool`.
- The iteration order of the engine's replacement map is a permutation `visit`.

The flake build's loops (module wrapping, body lines, alias list, one `ReplaceAll` per
entry) are methods with loop invariants. Each is proved equal to a recursive function, and
the lemmas are stated over those functions. `Preset` and `SelectionModel` are classes
whose methods update their fields in place.

## Model

| member | source | states |
|---|---|---|
| Text.TrimSpaceBlank | cmd/lego-tui/engine/nix.go:192 | a line trims to nothing exactly when all of its characters are white space |
| Text.SplitJoin | cmd/lego-tui/engine/nix.go:274-276 | splitting a join of separator-free parts on the separator gives the parts back |
| Text.JoinSplit | cmd/lego-tui/engine/nix.go:186 | joining the pieces of a split restores the text |
| Text.ReplaceAllAbsent | cmd/lego-tui/engine/nix.go:228 | ReplaceAll leaves a text without occurrences of the pattern unchanged |
| Files.PathJoinAssoc | cmd/lego-tui/engine/nix.go:175 | joining the modules directory with `category/name.nix` names the same path as joining the category directory with `name.nix` |
| Placeholders.SequentialIsOnePass | cmd/lego-tui/engine/nix.go:202-229 | with a clean template and well-formed entries (placeholder tokens, distinct, inert values), the sequential ReplaceAll passes give the one-pass fill, in any list order |
| Placeholders.OrderIrrelevant | cmd/lego-tui/engine/nix.go:227-229 | two listings holding the same entries give the same text |
| Placeholders.TableOfHoldsEntries | cmd/lego-tui/engine/nix.go:203-226 | with distinct tokens, an entry is in the list exactly when the table maps its token to its value |
| Placeholders.FillLeavesNoToken | cmd/lego-tui/engine/nix.go:227-229 | with inert values, the filled text is clean and holds no token of the table |
| Placeholders.FillUntouched | cmd/lego-tui/engine/nix.go:227-229 | a text holding no token of the table is left as it is |
| Placeholders.FillIdempotent | cmd/lego-tui/engine/nix.go:227-229 | filling twice gives the same text as filling once |
| Descriptors.LoadFlakeInputs | cmd/lego-tui/engine/nix.go:42-56 | a missing file gives the empty list, a decoded file its entries, an unreadable file a read error and an undecodable one a parse error, both naming flake-inputs.json |
| Descriptors.LoadDevShells | cmd/lego-tui/engine/nix.go:67-81 | the same classification for devshells.json |
| FlakeSnippets.SnippetsFor | cmd/lego-tui/engine/nix.go:249-278 | no input gives four empty snippets; otherwise the alias list has one alias per input, in input order |
| FlakeSnippets.GenerateFlakeSnippets | cmd/lego-tui/engine/nix.go:249-278 | the loop's three line lists and alias list equal the per-input specification |
| FlakeSnippets.InputsBlockLines | cmd/lego-tui/engine/nix.go:256-262 | read back line by line, the inputs block is each input's `url` line followed by its `follows` line when it follows nixpkgs |
| FlakeSnippets.DeclSplit | cmd/lego-tui/engine/nix.go:257-261 | one input's declaration is one or two lines, the second exactly when it follows nixpkgs |
| FlakeSnippets.BaselineSplit | cmd/lego-tui/engine/nix.go:165 | the baseline wrapper parameters are pkgs, lib, config, pkgs-master |
| FlakeSnippets.WrapperParams | cmd/lego-tui/engine/nix.go:165-168 | the wrapper's parameters are the baseline followed by each alias, in order |
| FlakeSnippets.AliasesLineUp | cmd/lego-tui/engine/nix.go:165-168 | the i-th specialArgs line binds the i-th alias, and the wrapper's (4+i)-th parameter is that same alias: every alias a module may name is bound |
| DevShellSnippet.GenerateDevShellsSnippet | cmd/lego-tui/engine/nix.go:280-302 | the builder's output is the devShells block: nothing for no shell, otherwise the opener, one entry per shell, the closer, each line newline-terminated |
| DevShellSnippet.WriteShellEntry | cmd/lego-tui/engine/nix.go:287-297 | one shell's writes append exactly its entry lines: header, packages one per line, hook stanza when there is a hook, closer |
| DevShellSnippet.WriteHook | cmd/lego-tui/engine/nix.go:294-296 | the hook stanza is written only for a non-empty hook |
| DevShellSnippet.ShellsInOrder | cmd/lego-tui/engine/nix.go:286-298 | the entries of a + b are a's entries followed by b's |
| DevShellSnippet.DevShellsEmptyIff | cmd/lego-tui/engine/nix.go:281-283 | the snippet is empty exactly when there is no shell |
| DevShellSnippet.HookIffNonEmpty | cmd/lego-tui/engine/nix.go:294-296 | a shell's entry holds the shellHook opener exactly when its hook is non-empty |
| DevShellSnippet.ShellsLinesOneLine | cmd/lego-tui/engine/nix.go:286-298 | with single-line names, packages and hooks, every written entry line is a single line |
| DevShellSnippet.EntryLinesOneLine | cmd/lego-tui/engine/nix.go:287-297 | one shell's entry lines are single lines when its name, packages and hook are |
| DevShellSnippet.DevShellsReadBack | cmd/lego-tui/engine/nix.go:284-301 | read back line by line, the snippet gives its lines and the empty piece after the final newline |
| Catalog.FirstSet | cmd/lego-tui/engine/nix.go:118-123 | the first flagged index from a start, or none exactly when no later line is flagged |
| Catalog.FirstSetAt | cmd/lego-tui/engine/nix.go:118-123 | a flagged line with no flagged line before it is the one found |
| Catalog.Purpose | cmd/lego-tui/engine/nix.go:113-126 | an unreadable file has no purpose; a purpose never starts or ends with white space |
| Catalog.PurposeIn | cmd/lego-tui/engine/nix.go:117-125 | the purpose among a file's lines is the trimmed text after the prefix on the first purpose line, or nothing, and never starts or ends with white space |
| Catalog.ReadPurpose | cmd/lego-tui/engine/nix.go:113-126 | the loop with early return yields the text after the prefix on the first purpose line, trimmed, or nothing |
| Catalog.ListModules | cmd/lego-tui/engine/nix.go:84-111 | the modules are those of each category in the fixed category order; an unlistable category contributes none |
| Catalog.ScanCategory | cmd/lego-tui/engine/nix.go:94-108 | one category's modules are its `.nix` regular entries in listing order |
| Catalog.ModulesInMembers | cmd/lego-tui/engine/nix.go:94-108 | a module is listed for a directory exactly when one of its entries is a `.nix` regular file that describes it |
| Catalog.ListedModuleEntry | cmd/lego-tui/engine/nix.go:94-108 | every listed module is described by some `.nix` regular entry, whose index is returned |
| Catalog.EntryModuleListed | cmd/lego-tui/engine/nix.go:94-108 | every `.nix` regular entry's module is listed |
| Catalog.EntryModuleResolves | cmd/lego-tui/engine/nix.go:99-106 | a listed module's relative path is `category/name`, and the path the flake builder derives from it is the path the module was listed under |
| Catalog.ListedModulesResolve | cmd/lego-tui/engine/nix.go:84-111 | every listed module comes from one of the categories, and resolving its relative path in the builder gives its full path |
| ModuleInjection.BuildModuleContent | cmd/lego-tui/engine/nix.go:171-199 | the loop's text is the concatenation of the blocks of the included modules, in selection order; unreadable and short files are skipped |
| ModuleInjection.WrapModule | cmd/lego-tui/engine/nix.go:184-198 | a module's writes are its block: empty line, banner with the declared name and purpose, wrapper head, body lines, closer |
| ModuleInjection.WriteWrapped | cmd/lego-tui/engine/nix.go:188-198 | the writes append exactly the wrapper's lines, one body line per line of the trimmed body |
| ModuleInjection.WriteBodyLine | cmd/lego-tui/engine/nix.go:192-196 | a blank body line is written empty; any other is written indented |
| ModuleInjection.InjectionStep | cmd/lego-tui/engine/nix.go:174-199 | each selection adds its block if it has one, and nothing otherwise |
| ModuleInjection.BlocksCount | cmd/lego-tui/engine/nix.go:174-183 | N selections of which K are skipped give N - K blocks |
| ModuleInjection.BlocksInOrder | cmd/lego-tui/engine/nix.go:174 | the blocks of selections a + b are a's blocks followed by b's |
| ModuleInjection.WrapBlockReadBack | cmd/lego-tui/engine/nix.go:188-198 | with a single-line name, purpose and parameter list, read back line by line a block is an empty line, the banner, the head, one line per body line, the closer |
| ModuleInjection.ModuleBlockReadBack | cmd/lego-tui/engine/nix.go:179-198 | the same for a module file of single lines, with the name and purpose declared on its first two lines |
| FlakeBuild.BuildFlake | cmd/lego-tui/engine/nix.go:138-246 | missing template, then flake-input error, then dev-shell error, then write failure naming `flakes/<preset>-<suffix>.nix`, each pinned to its own error in that order; success exactly when none occurs, giving that path and the substituted text; the preset records the modules and the flake name only on success and is unchanged on every error |
| FlakeBuild.RenderFlake | cmd/lego-tui/engine/nix.go:156-229 | snippets, wrapper parameters, module content and substitution compose into the flake text |
| FlakeBuild.JoinWrapperArgs | cmd/lego-tui/engine/nix.go:165-168 | the loop builds the baseline followed by ", " and each alias |
| FlakeBuild.Substitute | cmd/lego-tui/engine/nix.go:227-229 | one ReplaceAll per map entry, in the map's order, gives the sequential passes over the entries in that order |
| FlakeBuild.Values | cmd/lego-tui/engine/nix.go:203-225 | the value listed for the i-th placeholder is the field the engine's map gives that placeholder's name |
| FlakeBuild.PlaceholderGetsField | cmd/lego-tui/engine/nix.go:203-229 | in one pass, `{{name}}` becomes the preset field or snippet the map gives that name, whatever position it has in the listing |
| FlakeBuild.UnknownPlaceholderKept | cmd/lego-tui/engine/nix.go:203-229 | a well-formed placeholder whose name the map lacks is left unchanged |
| FlakeBuild.Applied | cmd/lego-tui/engine/nix.go:243-244 | a successful build changes the active modules and the last applied flake, and nothing else |
| FlakeBuild.TokensWellFormed | cmd/lego-tui/engine/nix.go:204-225 | the 22 placeholders are well-formed `{{NAME}}` tokens and pairwise distinct |
| FlakeBuild.TableWellFormed | cmd/lego-tui/engine/nix.go:203-226 | with inert values the replacement table is well formed |
| FlakeBuild.VisitKeepsEntries | cmd/lego-tui/engine/nix.go:227 | any map order lists exactly the table's entries |
| FlakeBuild.BuildIsOnePass | cmd/lego-tui/engine/nix.go:227-229 | with a clean template and inert values, the built text is the one-pass text, whatever the map order |
| FlakeBuild.BuildLeavesNoPlaceholder | cmd/lego-tui/engine/nix.go:227-229 | under the same conditions no placeholder of the table survives in the built text |
| FlakeBuild.OutNameRoundTrip | cmd/lego-tui/engine/nix.go:232-236 | removing `<preset>-` and `.nix` from the flake name gives back the custom name, or the time stamp when there is none |
| FlakeBuild.SubstitutionOrderMatters | cmd/lego-tui/engine/nix.go:227-229 | a module text holding `{{HOST_NAME}}` ends up as the host name in one map order and as `{{HOST_NAME}}` in another |
| FlakeBuild.OnePassPlacesValue | cmd/lego-tui/engine/nix.go:203-229 | in one pass every placeholder becomes its own value verbatim, whatever the values hold |
| Presets.DefaultRecord | cmd/lego-tui/engine/preset.go:106-134 | host and preset name both `name`, state version 24.05, user name and description both `userName`, São Paulo time zone, en_US default locale, pt_BR for every category, br-abnt2 keymap, no active module, created = modified = now |
| Presets.NewDefaultPreset | cmd/lego-tui/engine/preset.go:106-135 | a new preset holding the default record |
| Presets.LoadPreset | cmd/lego-tui/engine/preset.go:58-64 | a decodable file gives a new preset with its contents; otherwise an error naming the path |
| Presets.Stamped | cmd/lego-tui/engine/preset.go:68 | stamping changes the last-modified time and nothing else |
| Presets.SavePreset | cmd/lego-tui/engine/preset.go:67-75 | the preset is stamped whether or not the file can be created; success exactly when it can, writing the stamped record |
| Presets.ListPresets | cmd/lego-tui/engine/preset.go:78-97 | an unlistable directory is an error; otherwise the `.toml` regular entries in listing order |
| Presets.PresetsInOrder | cmd/lego-tui/engine/preset.go:84-95 | the presets of listing a + b are a's followed by b's |
| Presets.PresetsInMembers | cmd/lego-tui/engine/preset.go:84-95 | a preset is listed exactly when some `.toml` regular entry describes it |
| Presets.ListedPresetEntry | cmd/lego-tui/engine/preset.go:84-95 | every listed preset is described by some `.toml` regular entry, whose index is returned |
| Presets.EntryPresetListed | cmd/lego-tui/engine/preset.go:84-95 | every `.toml` regular entry's preset is listed |
| Presets.PresetsInBound | cmd/lego-tui/engine/preset.go:84-95 | there are never more presets than entries |
| Presets.InfoNameRoundTrip | cmd/lego-tui/engine/preset.go:89 | a preset's name followed by `.toml` is its file name |
| Selection.SelectionModel.constructor | cmd/lego-tui/views/selection.go:23-32 | a new screen lists the modules, selects nothing, puts the cursor at 0 and is 80 by 24 |
| Selection.SelectionModel.Update | cmd/lego-tui/views/selection.go:36-70 | up/k and down/j move the cursor within the list; space flips the path under the cursor only; "a" toggles all; a resize changes only the size; a space press with the cursor off a non-empty list is the panic; from a cursor on the list, no message panics and the cursor stays on the list |
| Selection.SelectionModel.ToggleAll | cmd/lego-tui/views/selection.go:53-63 | the two loops set every module's path to "not all were selected" |
| Selection.SelectionModel.GetSelected | cmd/lego-tui/views/selection.go:138-146 | exactly the paths mapped to true, each once |
| Selection.SelectionModel.SelectedCount | cmd/lego-tui/views/selection.go:78-83 | the number of paths mapped to true, which is the length of the selected list |
| Selection.SelectionModel.SetSize | cmd/lego-tui/views/selection.go:132-135 | only the size changes |
| Selection.SelectionModel.Refresh | cmd/lego-tui/views/selection.go:149-151 | only the module list changes; the selection and the cursor stay |
| Selection.SelectionModel.RefreshClamped | cmd/lego-tui/views/selection.go:149-151 | the reload that also brings the cursor back onto the new list |
| Selection.CursorStaysInRange | cmd/lego-tui/views/selection.go:40-47 | a cursor on the list stays on it and moves by at most one |
| Selection.ToggleTouchesOne | cmd/lego-tui/views/selection.go:48-52 | space flips the path under the cursor and no other |
| Selection.SetAllLookup | cmd/lego-tui/views/selection.go:61-63 | after the second loop a module's path reads the written value, and every other path is unchanged |
| Selection.PressAllUniform | cmd/lego-tui/views/selection.go:53-63 | after "a" every module has the same value, and paths of other modules are unchanged |
| Selection.PressAllFlips | cmd/lego-tui/views/selection.go:53-63 | all selected: "a" deselects all; otherwise "a" selects all |
| Selection.PressAllTwice | cmd/lego-tui/views/selection.go:53-63 | two presses from "all selected" end with all selected |
| Selection.StaleCursorAfterRefresh | cmd/lego-tui/views/selection.go:48-52 | with two modules, the cursor on the second, and a reload finding only the first, space panics |
| Selection.SpaceAfterClampedRefresh | cmd/lego-tui/views/selection.go:149-151 | the same steps with the clamping reload do not panic |

## Left out

- Reading and writing files, listing directories and the clock are parameters (see above).
  `filepath.Join` is modelled as joining with `/` only. Its cleaning of `..`, doubled
  slashes and trailing slashes is not modelled.
- `encoding/json` and `BurntSushi/toml` are not modelled. Descriptor files and preset files
  arrive decoded or as a failure. The TOML encoder's own error after a successful create in
  `SavePreset` is not modelled: creation succeeding means success.
- `ValidateNixSyntax` and `NixosRebuild` run external programs (`nix-instantiate`, `git`,
  `sudo nixos-rebuild`) and are not modelled.
- Rendering of the selection screen (styles, scrolling window, labels) is not modelled. Only
  its selected counter is.
- Selection.SelectionModel.constructor: takes the module listing as a parameter instead of
  calling `ListModules`. Selection.SelectionModel.Refresh does the same; `Catalog.ListModules`
  computes that listing.
- Presets.ListPresets: `e.Info()` is read with its error ignored. When it fails, Go
  dereferences a nil `FileInfo`. The model treats every entry's modification time as known.
- FlakeBuild.BuildFlake: the file's permission bits (0644) and the error texts are not
  modelled. Errors carry their kind and the path or file they concern.
- FlakeBuild.BuildIsOnePass: states order independence only for a clean template and inert
  values. A value that contains `{{` or ends in `{` is excluded; see the finding below.
- Selection.SelectionModel.GetSelected: the result's order is the map's unspecified order.
  The model picks keys in an arbitrary order and states only the set and the absence of
  duplicates.
- Go's unbounded goroutine and message plumbing of the terminal UI (background builds,
  ignored save errors) is not modelled.

## Findings

| source | as written | input that shows it | evidently intended | confidence | as-written member | corrected member |
|---|---|---|---|---|---|---|
| cmd/lego-tui/engine/nix.go:227-229 | placeholders are replaced one map entry at a time, in Go's unspecified map order, so a value holding a placeholder is replaced or not depending on that order | host name `h` and a module whose text holds `{{HOST_NAME}}`: with the module placeholder replaced first the module text gets `h`, with the host name first it keeps `{{HOST_NAME}}` | one pass over the template, each placeholder replaced by its value verbatim, independent of order | medium, not executed | FlakeBuild.SubstitutionOrderMatters | FlakeBuild.OnePassPlacesValue |
| cmd/lego-tui/views/selection.go:149-151 | `Refresh` replaces the module list but keeps the cursor, and space indexes `modules[cursor]` after checking only that the list is non-empty | two modules, cursor moved to the second, reload finds only the first, press space: index out of range | the cursor is brought back onto the new list on reload | medium, not executed | Selection.StaleCursorAfterRefresh | Selection.SelectionModel.RefreshClamped |
