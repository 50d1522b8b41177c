/**
 * The two optional descriptor files under modules/overlays: flake-inputs.json lists
 * external flakes, devshells.json lists development shells. A missing file means an
 * empty list; a file that cannot be read or decoded is an error naming the file.
 */
module Descriptors {
  import opened Text
  import opened Wrappers

  /** One external flake: its input name, URL, the alias modules receive, and the attribute the alias binds. */
  datatype FlakeInput = FlakeInput(name: String, url: String, arg: String, attr: String, followsNixpkgs: bool)

  /** One development shell: its name, description, packages and optional shell hook. */
  datatype DevShell = DevShell(name: String, description: String, packages: seq<String>, shellHook: String)

  /**
   * What reading and decoding a descriptor file produced. The JSON decoder itself is
   * not modelled: `Decoded` carries the list it returned.
   */
  datatype DescriptorFile<T> = Missing | Unreadable | Undecodable | Decoded(items: seq<T>)

  /** The two failure kinds, each naming the file involved. */
  datatype LoadError = ReadError(file: String) | ParseError(file: String)

  const FlakeInputsFile: String := "flake-inputs.json"
  const DevShellsFile: String := "devshells.json"

  /** A missing flake-inputs.json is an empty list; other read failures and decode failures are errors. */
  function LoadFlakeInputs(f: DescriptorFile<FlakeInput>): (r: Result<seq<FlakeInput>, LoadError>)
    ensures r.Ok? <==> f.Missing? || f.Decoded?
    ensures f.Missing? ==> r.value == []
    ensures f.Decoded? ==> r.value == f.items
    ensures f.Unreadable? ==> r.error == ReadError(FlakeInputsFile)
    ensures f.Undecodable? ==> r.error == ParseError(FlakeInputsFile)
  {
    match f
    case Missing => Ok([])
    case Unreadable => Err(ReadError(FlakeInputsFile))
    case Undecodable => Err(ParseError(FlakeInputsFile))
    case Decoded(items) => Ok(items)
  }

  /** A missing devshells.json is an empty list; other read failures and decode failures are errors. */
  function LoadDevShells(f: DescriptorFile<DevShell>): (r: Result<seq<DevShell>, LoadError>)
    ensures r.Ok? <==> f.Missing? || f.Decoded?
    ensures f.Missing? ==> r.value == []
    ensures f.Decoded? ==> r.value == f.items
    ensures f.Unreadable? ==> r.error == ReadError(DevShellsFile)
    ensures f.Undecodable? ==> r.error == ParseError(DevShellsFile)
  {
    match f
    case Missing => Ok([])
    case Unreadable => Err(ReadError(DevShellsFile))
    case Undecodable => Err(ParseError(DevShellsFile))
    case Decoded(items) => Ok(items)
  }
}
