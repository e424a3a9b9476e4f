/**
 * One sampling cycle, `process_reading` (monitor.py:266-289), as a decision:
 * given the reading, the settings and the `--console` flag, the ordered
 * effects the cycle has on the outside world. The database insert
 * (`log_data`, monitor.py:99-122) and the alert mail (`send_email`,
 * monitor.py:125-146) are effects here, not performed.
 */
module ProcessReading {
  import opened Wrappers
  import opened Config

  /** One sensor sample: degrees Celsius and percent relative humidity. */
  datatype Reading = Reading(temperature: real, humidity: real)

  const TemperatureAlert: string := "Temperature Alert"
  const HumidityAlert: string := "Humidity Alert"

  /** Something the program does to the outside world. */
  datatype Effect =
    | Persist(reading: Reading)        // one INSERT attempt by `log_data`
    | Email(subject: string)           // one `send_email`
    | FrequencyRaised(requested: Value) // the error-log line written before the loop
    | Sleep(seconds: real)             // `time.sleep` between cycles

  /** An exception that escapes `process_reading` and ends the process. */
  datatype Fault =
    | TypeError          // a setting compared with a number is not a number
    | UnboundConnection  // `log_data`'s `finally` reads `connection` after `connect` raised
    | SensorFault        // the sensor driver raised

  /** How the database library behaves on one `log_data` call. */
  datatype DbOutcome =
    | Inserted       // connected, row inserted and committed
    | QueryFailed    // connected, the INSERT raised a database error
    | ConnectFailed  // `mysql.connector.connect` raised a database error

  /** The effects of one cycle, in order, and the exception that cut it short, if any. */
  datatype Outcome = Outcome(effects: seq<Effect>, fault: Option<Fault>)

  /** A setting as an operand of `<` or `>` against a float: JSON numbers compare, strings raise. */
  function NumberOf(v: Value): Option<real>
  {
    match v
    case Int(i) => Some(i as real)
    case Num(x) => Some(x)
    case Str(_) => None
  }

  predicate HasThresholds(config: Settings)
  {
    && "temp_threshold_high" in config && "temp_threshold_low" in config
    && "humidity_threshold_high" in config && "humidity_threshold_low" in config
  }

  /** Every threshold is a number, so no comparison of a cycle can raise. */
  predicate NumericThresholds(config: Settings)
  {
    && HasThresholds(config)
    && NumberOf(config["temp_threshold_high"]).Some?
    && NumberOf(config["temp_threshold_low"]).Some?
    && NumberOf(config["humidity_threshold_high"]).Some?
    && NumberOf(config["humidity_threshold_low"]).Some?
  }

  /**
   * Python's `x > high or x < low`: an alert is due exactly when the value is
   * strictly above the high bound or strictly below the low bound. `low` is
   * only examined when `x > high` is false, so a non-numeric `low` raises only
   * then.
   */
  function OutOfRange(x: real, high: Value, low: Value): (r: Result<bool, Fault>)
    ensures NumberOf(high).Some? && NumberOf(low).Some? ==>
      r == Ok(x > NumberOf(high).value || x < NumberOf(low).value)
    ensures NumberOf(high).None? ==> r == Err(TypeError)
    ensures NumberOf(high).Some? && x > NumberOf(high).value ==> r == Ok(true)
    ensures NumberOf(high).Some? && x <= NumberOf(high).value && NumberOf(low).None? ==> r == Err(TypeError)
  {
    match NumberOf(high)
    case None => Err(TypeError)
    case Some(h) =>
      if x > h then Ok(true)
      else
        match NumberOf(low)
        case None => Err(TypeError)
        case Some(l) => Ok(x < l)
  }

  /** The subjects of the mails among `effects`, in order. */
  function Emails(effects: seq<Effect>): (subjects: seq<string>)
    ensures |subjects| <= |effects|
  {
    if effects == [] then []
    else (if effects[0].Email? then [effects[0].subject] else []) + Emails(effects[1..])
  }

  lemma {:induction false} EmailsAppend(a: seq<Effect>, b: seq<Effect>)
    ensures Emails(a + b) == Emails(a) + Emails(b)
    decreases |a|
  {
    if a == [] {
      assert a + b == b;
    } else {
      var head := if a[0].Email? then [a[0].subject] else [];
      assert (a + b)[0] == a[0];
      assert (a + b)[1..] == a[1..] + b;
      assert Emails(a + b) == head + Emails(a[1..] + b);
      EmailsAppend(a[1..], b);
      assert head + (Emails(a[1..]) + Emails(b)) == (head + Emails(a[1..])) + Emails(b);
    }
  }

  /** The one-element effect list of an alert that is due, the empty one otherwise. */
  function AlertIf(due: bool, subject: string): seq<Effect>
  {
    if due then [Email(subject)] else []
  }

  /**
   * `process_reading` as the code is written. When `connect` raises, the
   * `except` clause logs the error, and then the `finally` clause reads the
   * local `connection`, which was never bound: the UnboundLocalError escapes
   * the cycle before either threshold is checked.
   */
  function CycleAsWritten(r: Reading, db: DbOutcome, config: Settings, console: bool): (out: Outcome)
    requires HasThresholds(config)
    ensures !console && db == ConnectFailed ==> out == Outcome([Persist(r)], Some(UnboundConnection))
  {
    if !console && db == ConnectFailed then
      Outcome([Persist(r)], Some(UnboundConnection))
    else
      Cycle(r, db, config, console)
  }

  /**
   * `process_reading` with `log_data` keeping every database failure to
   * itself, as its `except` clause intends: persist unless `--console`, then
   * the temperature check, then the humidity check, each mailing on its own.
   * How the insert went does not enter into it.
   */
  function Cycle(r: Reading, db: DbOutcome, config: Settings, console: bool): (out: Outcome)
    requires HasThresholds(config)
    ensures |out.effects| <= 3
    ensures console ==> forall i :: 0 <= i < |out.effects| ==> out.effects[i].Email?
    ensures !console ==> |out.effects| > 0 && out.effects[0] == Persist(r)
    ensures forall i :: 0 < i < |out.effects| ==> out.effects[i].Email?
    ensures NumericThresholds(config) ==> out.fault.None?
  {
    var persisted := if console then [] else [Persist(r)];
    match OutOfRange(r.temperature, config["temp_threshold_high"], config["temp_threshold_low"])
    case Err(f) => Outcome(persisted, Some(f))
    case Ok(hot) =>
      var checked := persisted + AlertIf(hot, TemperatureAlert);
      match OutOfRange(r.humidity, config["humidity_threshold_high"], config["humidity_threshold_low"])
      case Err(f) => Outcome(checked, Some(f))
      case Ok(damp) => Outcome(checked + AlertIf(damp, HumidityAlert), None)
  }

  /**
   * The alert rule: with numeric thresholds a cycle sends the temperature
   * mail exactly when the temperature is strictly outside its bounds, the
   * humidity mail exactly when the humidity is, the two checks independently,
   * and the temperature mail first. So a reading yields zero, one or two
   * mails.
   */
  lemma AlertRule(r: Reading, db: DbOutcome, config: Settings, console: bool)
    requires NumericThresholds(config)
    ensures var tHigh := NumberOf(config["temp_threshold_high"]).value;
            var tLow := NumberOf(config["temp_threshold_low"]).value;
            var hHigh := NumberOf(config["humidity_threshold_high"]).value;
            var hLow := NumberOf(config["humidity_threshold_low"]).value;
            Emails(Cycle(r, db, config, console).effects) ==
              (if r.temperature > tHigh || r.temperature < tLow then [TemperatureAlert] else []) +
              (if r.humidity > hHigh || r.humidity < hLow then [HumidityAlert] else [])
  {
    var persisted := if console then [] else [Persist(r)];
    var hot := r.temperature > NumberOf(config["temp_threshold_high"]).value
            || r.temperature < NumberOf(config["temp_threshold_low"]).value;
    var damp := r.humidity > NumberOf(config["humidity_threshold_high"]).value
             || r.humidity < NumberOf(config["humidity_threshold_low"]).value;
    assert Cycle(r, db, config, console).effects
        == persisted + AlertIf(hot, TemperatureAlert) + AlertIf(damp, HumidityAlert);
    EmailsAppend(persisted + AlertIf(hot, TemperatureAlert), AlertIf(damp, HumidityAlert));
    EmailsAppend(persisted, AlertIf(hot, TemperatureAlert));
    assert Emails(persisted) == [];
  }

  /**
   * A reading on a bound is in range: with `low <= high`, a temperature
   * equal to either temperature bound never sends the temperature mail, and
   * the same for humidity.
   */
  lemma BoundsAreInRange(r: Reading, db: DbOutcome, config: Settings, console: bool)
    requires NumericThresholds(config)
    requires NumberOf(config["temp_threshold_low"]).value <= NumberOf(config["temp_threshold_high"]).value
    requires NumberOf(config["humidity_threshold_low"]).value <= NumberOf(config["humidity_threshold_high"]).value
    ensures r.temperature == NumberOf(config["temp_threshold_low"]).value ||
            r.temperature == NumberOf(config["temp_threshold_high"]).value ==>
              TemperatureAlert !in Emails(Cycle(r, db, config, console).effects)
    ensures r.humidity == NumberOf(config["humidity_threshold_low"]).value ||
            r.humidity == NumberOf(config["humidity_threshold_high"]).value ==>
              HumidityAlert !in Emails(Cycle(r, db, config, console).effects)
  {
    AlertRule(r, db, config, console);
  }

  /**
   * The result of the insert never changes what a cycle does. This holds by
   * construction: the corrected cycle never consults `db`, because
   * `log_data` is meant to keep every database failure to itself. The
   * parameter is there so that `Cycle` and `CycleAsWritten` take the same
   * inputs and can be compared.
   */
  lemma DatabaseOutcomeIrrelevant(r: Reading, db1: DbOutcome, db2: DbOutcome, config: Settings, console: bool)
    requires HasThresholds(config)
    ensures Cycle(r, db1, config, console) == Cycle(r, db2, config, console)
  {
  }

  /** The code as written agrees with the intended cycle except when `connect` raises outside `--console`. */
  lemma AsWrittenDiffersOnlyOnConnectFailure(r: Reading, db: DbOutcome, config: Settings, console: bool)
    requires HasThresholds(config)
    ensures CycleAsWritten(r, db, config, console) == Cycle(r, db, config, console)
        <==> console || db != ConnectFailed
  {
  }

  /**
   * The discrepancy on a concrete input: with the default settings, a 30
   * degree reading and an unreachable database, the code as written sends no
   * mail, while the intended cycle sends the temperature alert.
   */
  lemma ConnectFailureSuppressesAlert()
    ensures var r := Reading(30.0, 50.0);
            && Emails(CycleAsWritten(r, ConnectFailed, DefaultConfig, false).effects) == []
            && Emails(Cycle(r, ConnectFailed, DefaultConfig, false).effects) == [TemperatureAlert]
  {
    var r := Reading(30.0, 50.0);
    AlertRule(r, ConnectFailed, DefaultConfig, false);
    assert Emails([Persist(r)]) == [];
  }
}
