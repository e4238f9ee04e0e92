/**
 * The controller's configuration: a section-keyed store of text options, the
 * defaults written on first start, the repair applied to a store read from
 * disk, and the two lookup helpers every operation reads settings through.
 */
module Config {
  import opened Wrappers
  import opened Text
  import opened Numbers

  /** A parsed configuration: section name to (option name to value). */
  type Config = map<string, map<string, string>>

  const Timing := "Timing"
  const ResetCommands := "ResetCommands"
  const LoadCommands := "LoadCommands"

  const DefaultCommandDelay := "2"
  /** The four reset pulses of the default reset options. */
  const PulseFB1A := "emu:8 cfg_reset_pulse FB1_A"
  const PulseFB1B := "emu:8 cfg_reset_pulse FB1_B"
  const PulseFB1C := "emu:8 cfg_reset_pulse FB1_C"
  const PulseFB1D := "emu:8 cfg_reset_pulse FB1_D"
  /** `haps_master`, `haps_slave` and `haps`: the pulses joined with `;`. */
  const DefaultHapsMaster := Join([PulseFB1A, PulseFB1D], ";")
  const DefaultHapsSlave := Join([PulseFB1B, PulseFB1C], ";")
  const DefaultHaps := Join([PulseFB1A, PulseFB1D, PulseFB1B, PulseFB1C], ";")
  const DefaultLoad := "emu:8 cfg_project_configure \"{bitfile_path}\""

  /** The reset commands the repair fills in, in the order it visits them. */
  const DefaultResetCommands: seq<(string, string)> :=
    [("haps_master", DefaultHapsMaster), ("haps_slave", DefaultHapsSlave), ("haps", DefaultHaps)]

  /** `config[section][key]`, or nothing when the section or the option is missing. */
  function Lookup(c: Config, section: string, key: string): (r: Option<string>)
    ensures r.Some? <==> section in c && key in c[section]
    ensures r.Some? ==> r.value == c[section][key]
  {
    if section in c && key in c[section] then Some(c[section][key]) else None
  }

  /**
   * `get_config_value`: the stored value when the section and the option
   * exist, the caller's default otherwise.
   */
  function GetConfigValue(c: Config, section: string, key: string, default: Option<string>): (r: Option<string>)
    ensures section in c && key in c[section] ==> r == Some(c[section][key])
    ensures !(section in c && key in c[section]) ==> r == default
    ensures default.Some? ==> r.Some?
  {
    match Lookup(c, section, key)
    case Some(v) => Some(v)
    case None => default
  }

  /**
   * `get_int_config_value`: looks the option up with `str(default)` as the
   * fallback text and reads it with `int(text.strip())`; text that is no
   * integer gives the default.
   */
  function GetIntConfigValue(c: Config, section: string, key: string, default: int): (r: int)
    ensures Lookup(c, section, key).None? ==> r == default
    ensures Lookup(c, section, key).Some? ==>
      r == match ParseInt(Strip(c[section][key])) case Some(n) => n case None => default
  {
    var text := GetConfigValue(c, section, key, Some(IntToString(default))).value;
    IntToStringRoundTrip(default);
    StripUnchanged(IntToString(default));
    match ParseInt(Strip(text))
    case Some(n) => n
    case None => default
  }

  /** An option the engine treats as absent: missing, or present but empty. */
  predicate Unset(c: Config, section: string, key: string) {
    Lookup(c, section, key).GetOr("") == ""
  }

  /** The value the repair writes for an option it is responsible for. */
  function DefaultFor(section: string, key: string): Option<string> {
    if section == Timing && key == "command_delay" then Some(DefaultCommandDelay)
    else if section == ResetCommands && key == "haps_master" then Some(DefaultHapsMaster)
    else if section == ResetCommands && key == "haps_slave" then Some(DefaultHapsSlave)
    else if section == ResetCommands && key == "haps" then Some(DefaultHaps)
    else if section == LoadCommands && key == "default" then Some(DefaultLoad)
    else None
  }

  /** `config[section] = {}` when the section is missing. */
  function WithSection(c: Config, section: string): (r: Config)
    ensures r.Keys == c.Keys + {section}
    ensures section in c ==> r == c
    ensures section !in c ==> r[section] == map[]
  {
    if section in c then c else c[section := map[]]
  }

  /** Sets an option to `value` when it is unset, and changes nothing otherwise. */
  function Fill(c: Config, section: string, key: string, value: string): (r: Config)
    requires section in c
    ensures r.Keys == c.Keys
  {
    if Unset(c, section, key) then c[section := c[section][key := value]] else c
  }

  /** Filling one option sets that option if it was unset, and leaves every other as it was. */
  lemma FillAt(c: Config, section: string, key: string, value: string, s: string, k: string)
    requires section in c
    ensures Lookup(Fill(c, section, key, value), s, k) ==
      (if s == section && k == key && Unset(c, section, key) then Some(value) else Lookup(c, s, k))
  {
  }

  /** Fills each of `defaults`, first to last, in one section. */
  function FillAll(c: Config, section: string, defaults: seq<(string, string)>): (r: Config)
    requires section in c
    ensures r.Keys == c.Keys
  {
    if defaults == [] then c
    else
      var last := defaults[|defaults| - 1];
      Fill(FillAll(c, section, defaults[..|defaults| - 1]), section, last.0, last.1)
  }

  /** Adds `section` when it is missing, then fills one option of it. */
  function FillIn(c: Config, section: string, key: string, value: string): (r: Config)
    ensures r.Keys == c.Keys + {section}
  {
    Fill(WithSection(c, section), section, key, value)
  }

  /** Adding the section first does not change which options `FillIn` sets. */
  lemma FillInAt(c: Config, section: string, key: string, value: string, s: string, k: string)
    ensures Lookup(FillIn(c, section, key, value), s, k) ==
      (if s == section && k == key && Unset(c, section, key) then Some(value) else Lookup(c, s, k))
  {
    WithSectionAt(c, section, s, k);
    WithSectionAt(c, section, section, key);
    FillAt(WithSection(c, section), section, key, value, s, k);
  }

  /** The reset-command part of the repair. */
  function FillResetCommands(c: Config): (r: Config)
    ensures r.Keys == c.Keys + {ResetCommands}
  {
    FillAll(WithSection(c, ResetCommands), ResetCommands, DefaultResetCommands)
  }

  /** Filling a list of options leaves every option not on the list as it was. */
  lemma {:induction false} FillAllElsewhere(c: Config, section: string, defaults: seq<(string, string)>, s: string, k: string)
    requires section in c
    requires s != section || forall j :: 0 <= j < |defaults| ==> defaults[j].0 != k
    ensures Lookup(FillAll(c, section, defaults), s, k) == Lookup(c, s, k)
  {
    if defaults != [] {
      var init := defaults[..|defaults| - 1];
      var last := defaults[|defaults| - 1];
      assert forall j :: 0 <= j < |init| ==> init[j] == defaults[j];
      FillAllElsewhere(c, section, init, s, k);
      FillAt(FillAll(c, section, init), section, last.0, last.1, s, k);
    }
  }

  /** What `fix_config` leaves in the store it is given. */
  function Repaired(c: Config): Config {
    var c1 := FillIn(c, Timing, "command_delay", DefaultCommandDelay);
    var c2 := FillResetCommands(c1);
    FillIn(c2, LoadCommands, "default", DefaultLoad)
  }

  /** When `fix_config` reports a timing update. */
  predicate TimingNeedsRepair(c: Config) {
    Unset(c, Timing, "command_delay")
  }

  /** When `fix_config` reports a command update. */
  predicate CommandsNeedRepair(c: Config) {
    Unset(c, ResetCommands, "haps_master") || Unset(c, ResetCommands, "haps_slave") ||
    Unset(c, ResetCommands, "haps") || LoadCommands !in c || Unset(c, LoadCommands, "default")
  }

  lemma FillAllResetCommands(c: Config)
    requires ResetCommands in c
    ensures FillAll(c, ResetCommands, DefaultResetCommands) ==
      Fill(Fill(Fill(c, ResetCommands, "haps_master", DefaultHapsMaster),
                ResetCommands, "haps_slave", DefaultHapsSlave),
           ResetCommands, "haps", DefaultHaps)
  {
    var d := DefaultResetCommands;
    assert |d| == 3 && d[0] == ("haps_master", DefaultHapsMaster) && d[1] == ("haps_slave", DefaultHapsSlave);
    assert d[2] == ("haps", DefaultHaps);
    assert d[..1][..0] == [] && d[..1][0] == d[0];
    assert FillAll(c, ResetCommands, []) == c;
    var f1 := FillAll(c, ResetCommands, d[..1]);
    assert f1 == Fill(c, ResetCommands, "haps_master", DefaultHapsMaster);
    assert d[..2][..1] == d[..1];
    var f2 := FillAll(c, ResetCommands, d[..2]);
    assert f2 == Fill(f1, ResetCommands, "haps_slave", DefaultHapsSlave);
    assert d[..2] == d[..|d| - 1];
  }

  /** The reset stage sets exactly the unset reset command lists. */
  lemma FillResetCommandsAt(c: Config, s: string, k: string)
    ensures Lookup(FillResetCommands(c), s, k) ==
      (if s == ResetCommands && DefaultFor(s, k).Some? && Unset(c, s, k) then DefaultFor(s, k) else Lookup(c, s, k))
  {
    var c2 := WithSection(c, ResetCommands);
    var m1 := Fill(c2, ResetCommands, "haps_master", DefaultHapsMaster);
    var m2 := Fill(m1, ResetCommands, "haps_slave", DefaultHapsSlave);
    FillAllResetCommands(c2);
    WithSectionAt(c, ResetCommands, s, k);
    FillAt(c2, ResetCommands, "haps_master", DefaultHapsMaster, s, k);
    FillAt(m1, ResetCommands, "haps_slave", DefaultHapsSlave, s, k);
    FillAt(m2, ResetCommands, "haps", DefaultHaps, s, k);
    WithSectionAt(c, ResetCommands, ResetCommands, "haps_slave");
    WithSectionAt(c, ResetCommands, ResetCommands, "haps");
    FillAt(c2, ResetCommands, "haps_master", DefaultHapsMaster, ResetCommands, "haps_slave");
    FillAt(c2, ResetCommands, "haps_master", DefaultHapsMaster, ResetCommands, "haps");
    FillAt(m1, ResetCommands, "haps_slave", DefaultHapsSlave, ResetCommands, "haps");
  }

  /**
   * Option by option, the repaired store holds the default wherever the
   * option is one the repair covers and it was unset, and exactly what the
   * original held everywhere else.
   */
  lemma RepairedAt(c: Config, s: string, k: string)
    ensures Lookup(Repaired(c), s, k) ==
      (if DefaultFor(s, k).Some? && Unset(c, s, k) then DefaultFor(s, k) else Lookup(c, s, k))
  {
    var c1 := FillIn(c, Timing, "command_delay", DefaultCommandDelay);
    var c2 := FillResetCommands(c1);
    FillInAt(c, Timing, "command_delay", DefaultCommandDelay, s, k);
    FillResetCommandsAt(c1, s, k);
    FillInAt(c2, LoadCommands, "default", DefaultLoad, s, k);
  }

  lemma WithSectionAt(c: Config, section: string, s: string, k: string)
    ensures Lookup(WithSection(c, section), s, k) == Lookup(c, s, k)
  {
  }

  /** The repair adds the three sections it fills and no other. */
  lemma RepairedSections(c: Config)
    ensures Repaired(c).Keys == c.Keys + {Timing, ResetCommands, LoadCommands}
  {
  }

  /** Two stores that agree on every section and every option are the same store. */
  lemma SameLookups(c1: Config, c2: Config)
    requires c1.Keys == c2.Keys
    requires forall s, k :: Lookup(c1, s, k) == Lookup(c2, s, k)
    ensures c1 == c2
  {
    forall s | s in c1 ensures c1[s] == c2[s] {
      assert forall k :: k in c1[s] <==> Lookup(c1, s, k).Some?;
      assert forall k :: k in c2[s] <==> Lookup(c2, s, k).Some?;
      assert c1[s].Keys == c2[s].Keys;
      forall k | k in c1[s] ensures c1[s][k] == c2[s][k] {
        assert Lookup(c1, s, k) == Lookup(c2, s, k);
      }
    }
  }

  /** After the repair, every option the repair covers is present and non-empty. */
  lemma RepairedHasDefaults(c: Config, s: string, k: string)
    requires DefaultFor(s, k).Some?
    ensures !Unset(Repaired(c), s, k)
  {
    RepairedAt(c, s, k);
    DefaultsNonEmpty(s, k);
  }

  lemma DefaultsNonEmpty(s: string, k: string)
    ensures DefaultFor(s, k).GetOr("") == "" <==> DefaultFor(s, k).None?
  {
  }

  /**
   * The repair never touches an option that was already set, nor any option
   * outside the five it covers.
   */
  lemma RepairedKeepsSettings(c: Config, section: string, key: string)
    requires DefaultFor(section, key).None? || !Unset(c, section, key)
    ensures Lookup(Repaired(c), section, key) == Lookup(c, section, key)
  {
    RepairedAt(c, section, key);
  }

  /** The repair reports an update exactly when it changes the store. */
  lemma RepairChangesIffReported(c: Config)
    ensures Repaired(c) != c <==> TimingNeedsRepair(c) || CommandsNeedRepair(c)
  {
    if TimingNeedsRepair(c) || CommandsNeedRepair(c) {
      RepairChanges(c);
    } else {
      RepairKeeps(c);
    }
  }

  /** A store that needs no repair is left exactly as it was. */
  lemma RepairKeeps(c: Config)
    requires !TimingNeedsRepair(c) && !CommandsNeedRepair(c)
    ensures Repaired(c) == c
  {
    var r := Repaired(c);
    RepairedSections(c);
    forall s, k ensures Lookup(r, s, k) == Lookup(c, s, k) {
      RepairedAt(c, s, k);
    }
    SameLookups(r, c);
  }

  /** A store that needs repair is changed by it. */
  lemma RepairChanges(c: Config)
    requires TimingNeedsRepair(c) || CommandsNeedRepair(c)
    ensures Repaired(c) != c
  {
    if TimingNeedsRepair(c) {
      RepairedHasDefaults(c, Timing, "command_delay");
    } else if LoadCommands !in c {
      RepairedSections(c);
    } else if Unset(c, ResetCommands, "haps_master") {
      RepairedHasDefaults(c, ResetCommands, "haps_master");
    } else if Unset(c, ResetCommands, "haps_slave") {
      RepairedHasDefaults(c, ResetCommands, "haps_slave");
    } else if Unset(c, ResetCommands, "haps") {
      RepairedHasDefaults(c, ResetCommands, "haps");
    } else {
      RepairedHasDefaults(c, LoadCommands, "default");
    }
  }

  /** Repairing a repaired store changes nothing. */
  lemma RepairIdempotent(c: Config)
    ensures Repaired(Repaired(c)) == Repaired(c)
  {
    var r := Repaired(c);
    RepairedSections(r);
    forall s, k ensures Lookup(Repaired(r), s, k) == Lookup(r, s, k) {
      RepairedAt(r, s, k);
      if DefaultFor(s, k).Some? {
        RepairedHasDefaults(c, s, k);
      }
    }
    SameLookups(Repaired(r), r);
  }

  /**
   * A configuration store the engine reads and repairs in place
   * (configparser's `ConfigParser`, as far as the engine uses it).
   */
  class ConfigStore {
    var sections: Config

    constructor (initial: Config)
      ensures sections == initial
    {
      sections := initial;
    }

    /** `config[name] = {}` */
    method AddSection(name: string)
      modifies this
      ensures sections == old(sections)[name := map[]]
    {
      sections := sections[name := map[]];
    }

    /** `config[section][key] = value` */
    method SetOption(section: string, key: string, value: string)
      requires section in sections
      modifies this
      ensures sections == old(sections)[section := old(sections)[section][key := value]]
    {
      sections := sections[section := sections[section][key := value]];
    }
  }

  /** Filling one more option of a list whose names are distinct. */
  lemma FillAllStep(c: Config, section: string, defaults: seq<(string, string)>, i: nat)
    requires section in c && i < |defaults|
    requires forall j :: 0 <= j < i ==> defaults[j].0 != defaults[i].0
    ensures FillAll(c, section, defaults[..i + 1]) ==
      Fill(FillAll(c, section, defaults[..i]), section, defaults[i].0, defaults[i].1)
    ensures Unset(FillAll(c, section, defaults[..i]), section, defaults[i].0) == Unset(c, section, defaults[i].0)
  {
    assert defaults[..i + 1][..i] == defaults[..i];
    assert forall j :: 0 <= j < i ==> defaults[..i][j].0 != defaults[i].0;
    FillAllElsewhere(c, section, defaults[..i], section, defaults[i].0);
  }

  /** No two of `defaults` name the same option. */
  predicate DistinctNames(defaults: seq<(string, string)>) {
    forall i, j :: 0 <= j < i < |defaults| ==> defaults[j].0 != defaults[i].0
  }

  lemma ResetNamesDistinct()
    ensures DistinctNames(DefaultResetCommands)
  {
  }

  /**
   * The loop of `fix_config` over the default reset commands: fills each
   * unset option of the list in order, and reports whether it filled any.
   */
  method FillAllInPlace(config: ConfigStore, section: string, defaults: seq<(string, string)>)
    returns (updated: bool)
    requires section in config.sections && DistinctNames(defaults)
    modifies config
    ensures config.sections == FillAll(old(config.sections), section, defaults)
    ensures updated == exists j :: 0 <= j < |defaults| && Unset(old(config.sections), section, defaults[j].0)
  {
    ghost var c := config.sections;
    updated := false;
    var i := 0;
    while i < |defaults|
      invariant 0 <= i <= |defaults|
      invariant section in config.sections
      invariant config.sections == FillAll(c, section, defaults[..i])
      invariant updated == exists j :: 0 <= j < i && Unset(c, section, defaults[j].0)
    {
      var (name, value) := defaults[i];
      FillAllStep(c, section, defaults, i);
      if Unset(config.sections, section, name) {
        config.SetOption(section, name, value);
        updated := true;
      }
      i := i + 1;
    }
    assert defaults[..i] == defaults;
  }

  /**
   * One block of `fix_config`: adds the section when it is missing, then
   * sets the option when it is unset, and reports whether it set it.
   */
  method FillInInPlace(config: ConfigStore, section: string, key: string, value: string) returns (updated: bool)
    modifies config
    ensures config.sections == FillIn(old(config.sections), section, key, value)
    ensures updated == Unset(old(config.sections), section, key)
  {
    ghost var c := config.sections;
    if section !in config.sections {
      config.AddSection(section);
    }
    WithSectionAt(c, section, section, key);
    updated := false;
    if Unset(config.sections, section, key) {
      config.SetOption(section, key, value);
      updated := true;
    }
  }

  /**
   * `fix_config`: fills in a missing or empty command delay, reset command
   * list or default load command list, and reports which kind it updated.
   */
  method FixConfig(config: ConfigStore) returns (timingUpdated: bool, commandsUpdated: bool)
    modifies config
    ensures config.sections == Repaired(old(config.sections))
    ensures timingUpdated == TimingNeedsRepair(old(config.sections))
    ensures commandsUpdated == CommandsNeedRepair(old(config.sections))
  {
    ghost var c0 := config.sections;
    timingUpdated := FillInInPlace(config, Timing, "command_delay", DefaultCommandDelay);
    if ResetCommands !in config.sections {
      config.AddSection(ResetCommands);
    }
    ResetNamesDistinct();
    commandsUpdated := FillAllInPlace(config, ResetCommands, DefaultResetCommands);
    var loadAdded := LoadCommands !in config.sections;
    var loadUpdated := FillInInPlace(config, LoadCommands, "default", DefaultLoad);
    commandsUpdated := commandsUpdated || loadAdded || loadUpdated;
    StagesReport(c0);
  }

  /** What the blocks of `fix_config` see of the store they were given. */
  lemma StagesReport(c0: Config)
    ensures var c1 := FillIn(c0, Timing, "command_delay", DefaultCommandDelay);
      var c2 := WithSection(c1, ResetCommands);
      var c3 := FillAll(c2, ResetCommands, DefaultResetCommands);
      ((exists j :: 0 <= j < |DefaultResetCommands| && Unset(c2, ResetCommands, DefaultResetCommands[j].0)) <==>
        Unset(c0, ResetCommands, "haps_master") || Unset(c0, ResetCommands, "haps_slave") || Unset(c0, ResetCommands, "haps")) &&
      (LoadCommands in c3 <==> LoadCommands in c0) &&
      Unset(c3, LoadCommands, "default") == Unset(c0, LoadCommands, "default")
  {
    var c1 := FillIn(c0, Timing, "command_delay", DefaultCommandDelay);
    var c2 := WithSection(c1, ResetCommands);
    ResetCommandsUnsetAsBefore(c0, c2);
    FillInAt(c0, Timing, "command_delay", DefaultCommandDelay, LoadCommands, "default");
    FillResetCommandsAt(c1, LoadCommands, "default");
  }

  /** Before the reset stage, the reset options are unset exactly where they were in the original. */
  lemma ResetCommandsUnsetAsBefore(c0: Config, c2: Config)
    requires c2 == WithSection(FillIn(c0, Timing, "command_delay", DefaultCommandDelay), ResetCommands)
    ensures (exists j :: 0 <= j < |DefaultResetCommands| && Unset(c2, ResetCommands, DefaultResetCommands[j].0)) <==>
      Unset(c0, ResetCommands, "haps_master") || Unset(c0, ResetCommands, "haps_slave") || Unset(c0, ResetCommands, "haps")
  {
    var d := DefaultResetCommands;
    assert d[0].0 == "haps_master" && d[1].0 == "haps_slave" && d[2].0 == "haps";
    var c1 := FillIn(c0, Timing, "command_delay", DefaultCommandDelay);
    forall j | 0 <= j < |DefaultResetCommands|
      ensures Unset(c2, ResetCommands, DefaultResetCommands[j].0) == Unset(c0, ResetCommands, DefaultResetCommands[j].0)
    {
      var name := DefaultResetCommands[j].0;
      FillInAt(c0, Timing, "command_delay", DefaultCommandDelay, ResetCommands, name);
      WithSectionAt(c1, ResetCommands, ResetCommands, name);
    }
  }

  /** The two revisions of the controller this model covers. */
  datatype Revision = V6 | V7

  /** The configuration written when no configuration file exists yet. */
  function DefaultConfig(rev: Revision): Config {
    map[
      "Connection" := DefaultConnection,
      ResetCommands := map[
        "haps_master" := DefaultHapsMaster,
        "haps_slave" := DefaultHapsSlave,
        "haps" := DefaultHaps],
      LoadCommands := map["default" := DefaultLoad],
      Timing := map["command_delay" := DefaultCommandDelay],
      "BitFilePaths" := DefaultPresets(rev)
    ]
  }

  /** The connection settings written on first start. */
  const DefaultConnection: map<string, string> := map[
    "confpro_path" := DefaultConfpro,
    "host" := "10.126.8.230",
    "port" := "22",
    "user" := "dell",
    "password" := "Bsp@123",
    "bitfile_info_path" := DefaultInfoPath]
  const DefaultConfpro := @"C:\Synopsys\protocomp-rtQ-2020.03\bin64\mbin\confpro.exe"
  const DefaultInfoPath := @"D:\tools\bitfile.info"

  const Preset1 := @"D:\zxl\mc20l\mc20l_fpga_tag0121_va_rmii_2f_0212\prj\designs\project.conf"
  const Preset2 := @"D:\zxl\mc20l\mc20l_fpga_tag0121_va_rmii_2f_0219\prj\designs\project.conf"
  const Preset3 := @"D:\zxl\mc20l\rtl0p8\mc20l_fpga_tag0301_va_2f_rmii_0307\prj\designs\project.conf"

  /** The three preset artifact paths and the index of the one loaded first. */
  function DefaultPresets(rev: Revision): map<string, string> {
    map["path1" := Preset1, "path2" := Preset2, "path3" := Preset3,
        "default_index" := if rev == V6 then "3" else "1"]
  }

  /** A freshly written default configuration is already repaired. */
  lemma DefaultConfigIsRepaired(rev: Revision)
    ensures Repaired(DefaultConfig(rev)) == DefaultConfig(rev)
  {
    DefaultValuesSet();
    DefaultOptionsStored(rev);
    DefaultResetOptionsStored(rev);
    RepairKeeps(DefaultConfig(rev));
  }

  lemma DefaultOptionsStored(rev: Revision)
    ensures Lookup(DefaultConfig(rev), Timing, "command_delay") == Some(DefaultCommandDelay)
    ensures Lookup(DefaultConfig(rev), LoadCommands, "default") == Some(DefaultLoad)
  {
  }

  lemma DefaultResetOptionsStored(rev: Revision)
    ensures Lookup(DefaultConfig(rev), ResetCommands, "haps_master") == Some(DefaultHapsMaster)
    ensures Lookup(DefaultConfig(rev), ResetCommands, "haps_slave") == Some(DefaultHapsSlave)
    ensures Lookup(DefaultConfig(rev), ResetCommands, "haps") == Some(DefaultHaps)
  {
  }

  lemma DefaultValuesSet()
    ensures DefaultCommandDelay != "" && DefaultLoad != ""
    ensures DefaultHapsMaster != "" && DefaultHapsSlave != "" && DefaultHaps != ""
  {
  }
}
