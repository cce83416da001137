/** The INI configuration the commands read their switches from, and the
    two ways the commands interpret a boolean switch. */
module Config {
  import opened Base

  /** A parsed configuration file: section name to option name to the
      option's text. */
  datatype Config = Config(sections: map<string, map<string, string>>)

  /** The option's text when the section and the option both exist. */
  function Lookup(cfg: Config, section: string, name: string): (r: Option<string>)
    ensures r.Some? <==> section in cfg.sections && name in cfg.sections[section]
  {
    if section in cfg.sections && name in cfg.sections[section]
    then Some(cfg.sections[section][name]) else None
  }

  /** `get_property(section, name, default)`: the option's text, or the
      default when the section or the option is missing. */
  function GetProperty(cfg: Config, section: string, name: string, default: string): (r: string)
    ensures Lookup(cfg, section, name).Some? ==> r == Lookup(cfg, section, name).value
    ensures Lookup(cfg, section, name).None? ==> r == default
  {
    match Lookup(cfg, section, name)
    case Some(v) => v
    case None => default
  }

  /** The backup and the live comparison test a switch with
      `get_property(section, name, 'true') == 'true'`: on when it is
      missing or spelled exactly `true`. */
  predicate Enabled(cfg: Config, section: string, name: string)
  {
    GetProperty(cfg, section, name, "true") == "true"
  }

  /** The schema comparator tests its switches with the truth value of
      `get_property('compare', name, True)`: the default `True` or any
      non-empty option text counts as on. */
  predicate TruthyAsWritten(cfg: Config, section: string, name: string)
  {
    match Lookup(cfg, section, name)
    case None => true
    case Some(v) => v != ""
  }

  /** A switch that is missing is on under both readings. */
  lemma MissingSwitchIsOn(cfg: Config, section: string, name: string)
    requires Lookup(cfg, section, name).None?
    ensures Enabled(cfg, section, name) && TruthyAsWritten(cfg, section, name)
  {
  }

  /** A switch written `false` in the file: the comparator still treats it
      as on, while the reading every other command uses turns it off. */
  lemma FalseSwitchAsWritten(cfg: Config, section: string, name: string)
    requires Lookup(cfg, section, name) == Some("false")
    ensures TruthyAsWritten(cfg, section, name)
    ensures !Enabled(cfg, section, name)
  {
  }

  /** Under the intended reading a switch is on exactly when it is missing
      or says `true`; every other text turns it off. */
  lemma EnabledExactly(cfg: Config, section: string, name: string)
    ensures Enabled(cfg, section, name) <==>
      (Lookup(cfg, section, name).None? || Lookup(cfg, section, name) == Some("true"))
  {
  }

  /** The switches of the schema comparator, read from the `compare`
      section. */
  datatype Toggles = Toggles(
    schemas: bool, tables: bool, views: bool, udfs: bool,
    columns: bool, serdes: bool, location: bool, primaryKey: bool, bucket: bool)

  /** The comparator's switches as the comparator reads them: each is on
      when its option is missing or holds any non-empty text. */
  function ComparatorTogglesAsWritten(cfg: Config): (t: Toggles)
    ensures var o := Lookup(cfg, "compare", "compare_schemas"); t.schemas <==> o.None? || o.value != ""
    ensures var o := Lookup(cfg, "compare", "compare_tables"); t.tables <==> o.None? || o.value != ""
    ensures var o := Lookup(cfg, "compare", "compare_views"); t.views <==> o.None? || o.value != ""
    ensures var o := Lookup(cfg, "compare", "compare_udfs"); t.udfs <==> o.None? || o.value != ""
    ensures var o := Lookup(cfg, "compare", "compare_columns"); t.columns <==> o.None? || o.value != ""
    ensures var o := Lookup(cfg, "compare", "compare_serdes"); t.serdes <==> o.None? || o.value != ""
    ensures var o := Lookup(cfg, "compare", "compare_location"); t.location <==> o.None? || o.value != ""
    ensures var o := Lookup(cfg, "compare", "compare_primary_key"); t.primaryKey <==> o.None? || o.value != ""
    ensures var o := Lookup(cfg, "compare", "compare_bucket"); t.bucket <==> o.None? || o.value != ""
  {
    Toggles(
      TruthyAsWritten(cfg, "compare", "compare_schemas"), TruthyAsWritten(cfg, "compare", "compare_tables"),
      TruthyAsWritten(cfg, "compare", "compare_views"), TruthyAsWritten(cfg, "compare", "compare_udfs"),
      TruthyAsWritten(cfg, "compare", "compare_columns"), TruthyAsWritten(cfg, "compare", "compare_serdes"),
      TruthyAsWritten(cfg, "compare", "compare_location"), TruthyAsWritten(cfg, "compare", "compare_primary_key"),
      TruthyAsWritten(cfg, "compare", "compare_bucket"))
  }

  /** The comparator's switches read the way every other command reads
      its switches: each is on exactly when its option is missing or says
      `true`. */
  function ComparatorToggles(cfg: Config): (t: Toggles)
    ensures var o := Lookup(cfg, "compare", "compare_schemas"); t.schemas <==> o.None? || o == Some("true")
    ensures var o := Lookup(cfg, "compare", "compare_tables"); t.tables <==> o.None? || o == Some("true")
    ensures var o := Lookup(cfg, "compare", "compare_views"); t.views <==> o.None? || o == Some("true")
    ensures var o := Lookup(cfg, "compare", "compare_udfs"); t.udfs <==> o.None? || o == Some("true")
    ensures var o := Lookup(cfg, "compare", "compare_columns"); t.columns <==> o.None? || o == Some("true")
    ensures var o := Lookup(cfg, "compare", "compare_serdes"); t.serdes <==> o.None? || o == Some("true")
    ensures var o := Lookup(cfg, "compare", "compare_location"); t.location <==> o.None? || o == Some("true")
    ensures var o := Lookup(cfg, "compare", "compare_primary_key"); t.primaryKey <==> o.None? || o == Some("true")
    ensures var o := Lookup(cfg, "compare", "compare_bucket"); t.bucket <==> o.None? || o == Some("true")
  {
    Toggles(
      Enabled(cfg, "compare", "compare_schemas"), Enabled(cfg, "compare", "compare_tables"),
      Enabled(cfg, "compare", "compare_views"), Enabled(cfg, "compare", "compare_udfs"),
      Enabled(cfg, "compare", "compare_columns"), Enabled(cfg, "compare", "compare_serdes"),
      Enabled(cfg, "compare", "compare_location"), Enabled(cfg, "compare", "compare_primary_key"),
      Enabled(cfg, "compare", "compare_bucket"))
  }

  /** The concrete configuration `[compare] compare_columns = false`: as
      written the column comparison stays on, as intended it is off. */
  lemma ColumnsSwitchCounterexample()
    ensures ComparatorTogglesAsWritten(Config(map["compare" := map["compare_columns" := "false"]])).columns
    ensures !ComparatorToggles(Config(map["compare" := map["compare_columns" := "false"]])).columns
  {
    var cfg := Config(map["compare" := map["compare_columns" := "false"]]);
    assert Lookup(cfg, "compare", "compare_columns") == Some("false");
  }

  /** The two readings agree on every configuration that only ever writes
      `true` (or nothing) for the comparator's switches. */
  lemma ReadingsAgreeOnTrue(cfg: Config)
    requires forall name :: Lookup(cfg, "compare", name).Some? ==> Lookup(cfg, "compare", name) == Some("true")
    ensures ComparatorToggles(cfg) == ComparatorTogglesAsWritten(cfg)
  {
  }
}
