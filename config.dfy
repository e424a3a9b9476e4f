/**
 * The settings file config.cfg and how `load_config` completes it from the
 * built-in defaults (monitor.py:31-47, 58-67).
 */
module Config {
  import opened Wrappers

  /** A scalar JSON value as it appears in the settings object. */
  datatype Value = Str(s: string) | Int(i: int) | Num(r: real)

  /** The settings object: key to value, as `json.load` returns it. */
  type Settings = map<string, Value>

  /** What the settings file holds when the program starts. */
  datatype ConfigFile =
    | Absent                      // no config.cfg next to the script
    | Malformed                   // a file `json.load` rejects
    | Object(fields: Settings)    // a JSON object with scalar values

  datatype LoadError = ParseError

  /** The keys of `default_config`, in declaration order (the loop's order). */
  const DefaultKeys: seq<string> := [
    "db_host", "db_name", "db_username", "db_password", "frequency",
    "smtp_host", "smtp_port", "smtp_username", "smtp_password", "recipient",
    "temp_threshold_high", "temp_threshold_low",
    "humidity_threshold_high", "humidity_threshold_low"
  ]

  /** `default_config`. */
  const DefaultConfig: Settings := map[
    "db_host" := Str("localhost"),
    "db_name" := Str("sensor_data"),
    "db_username" := Str("sensor_user"),
    "db_password" := Str(""),
    "frequency" := Int(60),
    "smtp_host" := Str("smtp.example.com"),
    "smtp_port" := Int(587),
    "smtp_username" := Str("user@example.com"),
    "smtp_password" := Str(""),
    "recipient" := Str("alert@example.com"),
    "temp_threshold_high" := Int(27),
    "temp_threshold_low" := Int(18),
    "humidity_threshold_high" := Int(80),
    "humidity_threshold_low" := Int(20)
  ]

  /** The loop of `load_config` visits exactly the default keys. */
  lemma DefaultKeysAreDefaultConfigKeys()
    ensures forall k :: k in DefaultConfig <==> k in DefaultKeys
  {
  }

  /**
   * The file's object completed from the defaults: every key of the file
   * keeps its value, every default key missing from the file is added with
   * its default value, and nothing else is added.
   */
  function Completed(fields: Settings): (c: Settings)
    ensures DefaultConfig.Keys <= c.Keys
    ensures c.Keys == fields.Keys + DefaultConfig.Keys
    ensures forall k :: k in fields ==> c[k] == fields[k]
    ensures forall k :: k in c && k !in fields ==> c[k] == DefaultConfig[k]
  {
    map k | k in fields.Keys + DefaultConfig.Keys ::
      if k in fields then fields[k] else DefaultConfig[k]
  }

  /** What `load_config` returns for a given file. */
  function Loaded(file: ConfigFile): Result<Settings, LoadError>
  {
    match file
    case Absent => Ok(DefaultConfig)
    case Malformed => Err(ParseError)
    case Object(fields) => Ok(Completed(fields))
  }

  /**
   * `load_config`: without a file the defaults are returned as they are; a
   * file that does not parse is an error; otherwise the parsed object is
   * completed in place, one default key at a time.
   */
  method LoadConfig(file: ConfigFile) returns (r: Result<Settings, LoadError>)
    ensures r == Loaded(file)
    ensures r.Err? <==> file.Malformed?
    ensures file.Absent? ==> r == Ok(DefaultConfig)
    ensures r.Ok? ==> DefaultConfig.Keys <= r.value.Keys
  {
    match file {
      case Absent =>
        return Ok(DefaultConfig);
      case Malformed =>
        return Err(ParseError);
      case Object(fields) =>
        var config := CompleteInPlace(fields);
        return Ok(config);
    }
  }

  /** The loop of `load_config`: every default key missing from the object is added with its default value. */
  method CompleteInPlace(fields: Settings) returns (config: Settings)
    ensures config == Completed(fields)
  {
    DefaultKeysAreDefaultConfigKeys();
    config := fields;
    for n := 0 to |DefaultKeys|
      invariant forall j :: 0 <= j < n ==> DefaultKeys[j] in config
      invariant forall k :: k in config ==> k in fields || k in DefaultConfig
      invariant forall k :: k in fields ==> k in config
      invariant forall k :: k in config ==>
        config[k] == if k in fields then fields[k] else DefaultConfig[k]
    {
      var key := DefaultKeys[n];
      if key !in config {
        config := config[key := DefaultConfig[key]];
      }
    }
    LoopCompletes(fields, config);
  }

  /** What the loop of `load_config` leaves behind once it has visited every default key is the completed object. */
  lemma LoopCompletes(fields: Settings, config: Settings)
    requires forall j :: 0 <= j < |DefaultKeys| ==> DefaultKeys[j] in config
    requires forall k :: k in config ==> k in fields || k in DefaultConfig
    requires forall k :: k in fields ==> k in config
    requires forall k :: k in config ==> config[k] == if k in fields then fields[k] else DefaultConfig[k]
    ensures config == Completed(fields)
  {
    DefaultKeysAreDefaultConfigKeys();
    assert forall k :: k in DefaultConfig ==> k in config by {
      forall k | k in DefaultConfig
        ensures k in config
      {
        var j :| 0 <= j < |DefaultKeys| && DefaultKeys[j] == k;
      }
    }
    assert config.Keys == Completed(fields).Keys;
  }

  /**
   * Loading a settings object that already holds every default key gives it
   * back unchanged: what `save_config` writes after `configure` is what the
   * next `load_config` returns (JSON encoding aside).
   */
  lemma LoadSavedIsIdentity(fields: Settings)
    requires DefaultConfig.Keys <= fields.Keys
    ensures Loaded(Object(fields)) == Ok(fields)
  {
    assert Completed(fields) == fields;
  }

  /** Completing twice is completing once. */
  lemma CompletedIdempotent(fields: Settings)
    ensures Completed(Completed(fields)) == Completed(fields)
  {
    LoadSavedIsIdentity(Completed(fields));
  }
}
