/**
 * Presets: the machine description a flake is built from (host, user, locale, active
 * modules, metadata), kept as one TOML file per preset under presets/.
 */
module Presets {
  import opened Text
  import opened Wrappers
  import opened Files

  datatype HostConfig = HostConfig(presetName: String, hostName: String, stateVersion: String)

  datatype UserConfig = UserConfig(name: String, description: String)

  datatype LocaleConfig = LocaleConfig(
    timezone: String, defaultLocale: String,
    lcAddress: String, lcIdentification: String, lcMeasurement: String, lcMonetary: String,
    lcName: String, lcNumeric: String, lcPaper: String, lcTelephone: String, lcTime: String,
    keymap: String)

  datatype ModulesConfig = ModulesConfig(active: seq<String>)

  datatype MetadataConfig = MetadataConfig(createdAt: String, lastModified: String, lastAppliedFlake: String)

  /** The contents of a preset as a value: what a preset file holds. */
  datatype PresetRecord = PresetRecord(
    host: HostConfig, user: UserConfig, locale: LocaleConfig,
    modules: ModulesConfig, metadata: MetadataConfig)

  /** Why a preset operation failed, naming the path involved. */
  datatype PresetError = DecodeFailed(path: String) | CreateFailed(path: String) | ListFailed(dir: String)

  /** A listed preset file: its name without `.toml`, its path and its modification time. */
  datatype PresetInfo = PresetInfo(name: String, path: String, modified: String)

  const TomlSuffix: String := ".toml"

  /** The locale every category of the default preset uses, except the default locale. */
  const RegionalLocale: String := "pt_BR.UTF-8"

  /** A preset held by reference: the builder and the saver update its sections in place. */
  class Preset {
    var host: HostConfig
    var user: UserConfig
    var locale: LocaleConfig
    var modules: ModulesConfig
    var metadata: MetadataConfig

    /** The preset's current contents. */
    function Record(): PresetRecord
      reads this
    {
      PresetRecord(host, user, locale, modules, metadata)
    }

    constructor (r: PresetRecord)
      ensures Record() == r
    {
      host := r.host;
      user := r.user;
      locale := r.locale;
      modules := r.modules;
      metadata := r.metadata;
    }
  }

  /**
   * The default preset for a name and a user at time `now`: the host is named after the
   * preset, the user's description is the user name, Brazilian regional settings with an
   * English default locale, no active module, and both timestamps equal to `now`.
   */
  function DefaultRecord(name: String, userName: String, now: String): (r: PresetRecord)
    ensures r.host.presetName == name && r.host.hostName == name && r.host.stateVersion == "24.05"
    ensures r.user.name == userName && r.user.description == userName
    ensures r.locale.timezone == "America/Sao_Paulo" && r.locale.defaultLocale == "en_US.UTF-8"
    ensures r.locale.keymap == "br-abnt2"
    ensures r.locale.lcAddress == r.locale.lcIdentification == r.locale.lcMeasurement
         == r.locale.lcMonetary == r.locale.lcName == r.locale.lcNumeric == r.locale.lcPaper
         == r.locale.lcTelephone == r.locale.lcTime == RegionalLocale
    ensures r.modules.active == []
    ensures r.metadata.createdAt == r.metadata.lastModified == now
    ensures r.metadata.lastAppliedFlake == []
  {
    PresetRecord(
      HostConfig(name, name, "24.05"),
      UserConfig(userName, userName),
      LocaleConfig("America/Sao_Paulo", "en_US.UTF-8",
        RegionalLocale, RegionalLocale, RegionalLocale, RegionalLocale, RegionalLocale,
        RegionalLocale, RegionalLocale, RegionalLocale, RegionalLocale, "br-abnt2"),
      ModulesConfig([]),
      MetadataConfig(now, now, []))
  }

  /** A fresh preset with the defaults; `now` is the formatted current UTC time. */
  method NewDefaultPreset(name: String, userName: String, now: String) returns (p: Preset)
    ensures fresh(p) && p.Record() == DefaultRecord(name, userName, now)
  {
    p := new Preset(DefaultRecord(name, userName, now));
  }

  /**
   * Loads a preset file. `decoded` is what the TOML decoder produced from the file, or
   * None when the file could not be read or decoded; then there is no preset, only an error.
   */
  method LoadPreset(path: String, decoded: Option<PresetRecord>) returns (r: Result<Preset, PresetError>)
    ensures r.Ok? <==> decoded.Some?
    ensures r.Ok? ==> fresh(r.value) && r.value.Record() == decoded.value
    ensures r.Err? ==> r.error == DecodeFailed(path)
  {
    if decoded.None? {
      return Err(DecodeFailed(path));
    }
    var p := new Preset(decoded.value);
    return Ok(p);
  }

  /** A record with its modification stamp set to `now`; every other field is kept. */
  function Stamped(r: PresetRecord, now: String): (s: PresetRecord)
    ensures s.metadata.lastModified == now
    ensures s.host == r.host && s.user == r.user && s.locale == r.locale && s.modules == r.modules
    ensures s.metadata.createdAt == r.metadata.createdAt
    ensures s.metadata.lastAppliedFlake == r.metadata.lastAppliedFlake
  {
    r.(metadata := r.metadata.(lastModified := now))
  }

  /**
   * Saves a preset. The stamp is set before the file is created, so the preset in memory
   * carries it even when creating the file fails (`creatable` false). On success the
   * result is the record written to the file.
   */
  method SavePreset(path: String, p: Preset, now: String, creatable: bool) returns (r: Result<PresetRecord, PresetError>)
    modifies p
    ensures p.Record() == Stamped(old(p.Record()), now)
    ensures r.Ok? <==> creatable
    ensures r.Ok? ==> r.value == p.Record()
    ensures r.Err? ==> r.error == CreateFailed(path)
  {
    p.metadata := p.metadata.(lastModified := now);
    if !creatable {
      return Err(CreateFailed(path));
    }
    return Ok(p.Record());
  }

  /** Directory entries that are preset files: regular entries whose name ends in `.toml`. */
  predicate IsPresetEntry(e: DirEntry) {
    !e.isDir && HasSuffix(e.name, TomlSuffix)
  }

  function InfoOf(dir: String, e: DirEntry): PresetInfo {
    PresetInfo(TrimSuffix(e.name, TomlSuffix), PathJoin(dir, e.name), e.modTime)
  }

  /** The presets among a directory's entries, in listing order. */
  function PresetsIn(dir: String, entries: seq<DirEntry>): seq<PresetInfo> {
    if entries == [] then []
    else
      var e := entries[|entries| - 1];
      PresetsIn(dir, entries[..|entries| - 1]) + (if IsPresetEntry(e) then [InfoOf(dir, e)] else [])
  }

  /**
   * Lists the preset files of a directory. `listing` is the directory's entries, or None
   * when it cannot be read, which is an error.
   */
  method ListPresets(dir: String, listing: Option<seq<DirEntry>>) returns (r: Result<seq<PresetInfo>, PresetError>)
    ensures r.Ok? <==> listing.Some?
    ensures r.Ok? ==> r.value == PresetsIn(dir, listing.value)
    ensures r.Err? ==> r.error == ListFailed(dir)
  {
    if listing.None? {
      return Err(ListFailed(dir));
    }
    var entries := listing.value;
    var result: seq<PresetInfo> := [];
    for k := 0 to |entries|
      invariant result == PresetsIn(dir, entries[..k])
    {
      var e := entries[k];
      PrefixOfPrefix(entries, k);
      if e.isDir || !HasSuffix(e.name, TomlSuffix) {
        AppendNil(result);
        continue;
      }
      var name := TrimSuffix(e.name, TomlSuffix);
      result := result + [PresetInfo(name, PathJoin(dir, e.name), e.modTime)];
    }
    assert entries[..|entries|] == entries;
    return Ok(result);
  }

  /** Listing keeps the directory's order: the presets of a + b are a's then b's. */
  lemma {:induction false} PresetsInOrder(dir: String, a: seq<DirEntry>, b: seq<DirEntry>)
    ensures PresetsIn(dir, a + b) == PresetsIn(dir, a) + PresetsIn(dir, b)
  {
    if b == [] {
      assert a + b == a;
    } else {
      var n := |b|;
      DropLastAppend(a, b);
      PresetsInOrder(dir, a, b[..n - 1]);
      var tail := if IsPresetEntry(b[n - 1]) then [InfoOf(dir, b[n - 1])] else [];
      assert PresetsIn(dir, a + b) == PresetsIn(dir, a + b[..n - 1]) + tail;
      assert PresetsIn(dir, b) == PresetsIn(dir, b[..n - 1]) + tail;
      AppendAssoc(PresetsIn(dir, a), PresetsIn(dir, b[..n - 1]), tail);
    }
  }

  /**
   * A preset is listed exactly when a regular `.toml` entry describes it; its name is the
   * file name without `.toml` and its path is the file's path in the directory.
   */
  lemma PresetsInMembers(dir: String, entries: seq<DirEntry>, info: PresetInfo)
    ensures info in PresetsIn(dir, entries)
        <==> exists k :: 0 <= k < |entries| && IsPresetEntry(entries[k]) && info == InfoOf(dir, entries[k])
  {
    if info in PresetsIn(dir, entries) {
      var k := ListedPresetEntry(dir, entries, info);
    }
    if exists k :: 0 <= k < |entries| && IsPresetEntry(entries[k]) && info == InfoOf(dir, entries[k]) {
      var k :| 0 <= k < |entries| && IsPresetEntry(entries[k]) && info == InfoOf(dir, entries[k]);
      EntryPresetListed(dir, entries, k);
    }
  }

  /** A listed preset comes from a `.toml` entry: the index of that entry. */
  lemma {:induction false} ListedPresetEntry(dir: String, entries: seq<DirEntry>, info: PresetInfo) returns (k: nat)
    requires info in PresetsIn(dir, entries)
    ensures k < |entries| && IsPresetEntry(entries[k]) && info == InfoOf(dir, entries[k])
  {
    var n := |entries|;
    var init := entries[..n - 1];
    var e := entries[n - 1];
    var tail := if IsPresetEntry(e) then [InfoOf(dir, e)] else [];
    assert PresetsIn(dir, entries) == PresetsIn(dir, init) + tail;
    if info in PresetsIn(dir, init) {
      k := ListedPresetEntry(dir, init, info);
      assert entries[k] == init[k];
    } else {
      assert info in tail;
      k := n - 1;
    }
  }

  /** Every `.toml` entry's preset is listed. */
  lemma {:induction false} EntryPresetListed(dir: String, entries: seq<DirEntry>, k: nat)
    requires k < |entries| && IsPresetEntry(entries[k])
    ensures InfoOf(dir, entries[k]) in PresetsIn(dir, entries)
  {
    var n := |entries|;
    var init := entries[..n - 1];
    var e := entries[n - 1];
    var tail := if IsPresetEntry(e) then [InfoOf(dir, e)] else [];
    assert PresetsIn(dir, entries) == PresetsIn(dir, init) + tail;
    if k < n - 1 {
      assert init[k] == entries[k];
      EntryPresetListed(dir, init, k);
    } else {
      assert InfoOf(dir, entries[k]) in tail;
    }
  }

  /** A listed preset's name, with `.toml` put back, is its file name. */
  lemma InfoNameRoundTrip(dir: String, e: DirEntry)
    requires IsPresetEntry(e)
    ensures InfoOf(dir, e).name + TomlSuffix == e.name
  {
  }

  /** At most one preset per entry. */
  lemma {:induction false} PresetsInBound(dir: String, entries: seq<DirEntry>)
    ensures |PresetsIn(dir, entries)| <= |entries|
  {
    if entries != [] {
      PresetsInBound(dir, entries[..|entries| - 1]);
    }
  }
}
