/** Switching the full-text index on and off when a database is opened (`src/storage/schema.rs`). */
module SystemMeta {
  import opened Prelude
  import opened Strings
  import opened Tables
  import DbPath

  const FTS_ENABLED := "fts_enabled"

  function LowerAscii(s: string): string
  {
    seq(|s|, i requires 0 <= i < |s| => Fold(s[i]))
  }

  /** A configured flag is on when its value reads `1` or `true`. */
  predicate ReadsTrue(raw: string)
  {
    var value := LowerAscii(DbPath.Trim(raw));
    value == "1" || value == "true"
  }

  /** What the configuration says; an absent flag is off. */
  predicate Flag(config: map<string, string>, key: string)
  {
    key in config && ReadsTrue(config[key])
  }

  class Schema {
    var config: map<string, string>
    var tables: Tables

    constructor (config: map<string, string>, tables: Tables)
      ensures this.config == config && this.tables == tables
    {
      this.config, this.tables := config, tables;
    }

    method GetBoolConfig(key: string) returns (r: Option<bool>)
      ensures r == if key in config then Some(ReadsTrue(config[key])) else None
    {
      if key in config {
        return Some(ReadsTrue(config[key]));
      }
      return None;
    }

    method SetBoolConfig(key: string, value: bool)
      modifies this`config
      ensures config == old(config)[key := if value then "1" else "0"]
    {
      config := config[key := if value then "1" else "0"];
    }

    /**
     The index exists afterwards exactly when the server allows it and the database had
     it enabled, and the configuration says so.
     */
    method EnsureSystemMeta(defaultFtsEnabled: bool)
      modifies this
      ensures var enabled := defaultFtsEnabled && Flag(old(config), "fts_enabled");
              && tables == SetFts(old(tables), enabled)
              && (tables.fts.Some? <==> enabled)
              && "fts_enabled" in config && (Flag(config, "fts_enabled") <==> enabled)
              && config == if "fts_enabled" in old(config) && Flag(old(config), "fts_enabled") == enabled
                           then old(config) else old(config)["fts_enabled" := "0"]
    {
      FlagTexts();
      if FTS_ENABLED !in config {
        config := config[FTS_ENABLED := "0"];
      }
      var dbEnabled := GetBoolConfig(FTS_ENABLED);
      var enabled := dbEnabled == Some(true);
      var effective := defaultFtsEnabled && enabled;
      tables := SetFts(tables, effective);
      if enabled != effective {
        SetBoolConfig(FTS_ENABLED, effective);
      }
    }
  }

  /** The flag is on for `1` and for `true` in any case, with any white space around it, and for nothing else. */
  lemma FlagIsOn(raw: string)
    ensures ReadsTrue(raw) <==>
              var v := DbPath.Trim(raw);
              || v == ['1']
              || (|v| == 4 && v[0] in ['t', 'T'] && v[1] in ['r', 'R'] && v[2] in ['u', 'U'] && v[3] in ['e', 'E'])
  {
    var v := DbPath.Trim(raw);
    var value := LowerAscii(v);
    assert |value| == |v| && forall i | 0 <= i < |v| :: value[i] == Fold(v[i]);
    if |v| == 4 {
      assert value == "true" <==> value[0] == 't' && value[1] == 'r' && value[2] == 'u' && value[3] == 'e';
    }
    if |v| == 1 {
      assert value == "1" <==> value[0] == '1';
      assert v == ['1'] <==> v[0] == '1';
    }
  }

  lemma FlagTexts()
    ensures ReadsTrue("1") && !ReadsTrue("0")
  {
    assert DbPath.TrimStart("1") == "1" && DbPath.TrimEnd("1") == "1";
    assert DbPath.TrimStart("0") == "0" && DbPath.TrimEnd("0") == "0";
    assert LowerAscii("1") == "1" && LowerAscii("0") == "0";
  }
}
