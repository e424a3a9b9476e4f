/**
 * The sampling command (monitor.py:264-306): with `--once`, one cycle and
 * nothing else; otherwise the polling period is raised to at least five
 * seconds and cycles alternate with sleeps until the process is
 * interrupted or a cycle raises.
 */
module Loop {
  import opened Wrappers
  import opened Config
  import opened ProcessReading
  import Configure

  /** The shortest polling period the loop accepts, in seconds. */
  const MinFrequency: int := 5

  /** What one `read_sensor` call gives. */
  datatype Sample =
    | Read(reading: Reading, db: DbOutcome)  // a reading, and how its insert will go
    | SensorFailed                           // the driver raised

  /** How the command ends. */
  datatype Stop =
    | Completed          // `--once` finished its cycle
    | Interrupted        // Ctrl-C (the sample stream ran out)
    | Crashed(fault: Fault)

  /** The effects of a whole run in order, how it ended, and how many cycles were begun. */
  datatype Run = Run(trace: seq<Effect>, stop: Stop, cycles: nat)

  /** Number of sleeps in a trace. */
  function Sleeps(trace: seq<Effect>): (n: nat)
    ensures n <= |trace|
  {
    if trace == [] then 0 else (if trace[0].Sleep? then 1 else 0) + Sleeps(trace[1..])
  }

  lemma {:induction false} SleepsAppend(a: seq<Effect>, b: seq<Effect>)
    ensures Sleeps(a + b) == Sleeps(a) + Sleeps(b)
    decreases |a|
  {
    if a == [] {
      assert a + b == b;
    } else {
      assert (a + b)[1..] == a[1..] + b;
      SleepsAppend(a[1..], b);
    }
  }

  /**
   * The check before the continuous loop: a numeric period below five
   * seconds is logged once and overwritten with 5; a period of five or more
   * is left alone; a period that is a string makes `<` raise.
   */
  function Raised(config: Settings): (r: Result<(Settings, seq<Effect>), Fault>)
    requires "frequency" in config
    ensures NumberOf(config["frequency"]).None? <==> r.Err?
    ensures r.Err? ==> r.error == TypeError
    ensures r.Ok? ==> var (next, log) := r.value;
      && next.Keys == config.Keys
      && (forall k :: k in config && k != "frequency" ==> next[k] == config[k])
      && NumberOf(next["frequency"]).Some?
      && NumberOf(next["frequency"]).value >= MinFrequency as real
      && (NumberOf(config["frequency"]).value >= MinFrequency as real ==> next == config && log == [])
      && (NumberOf(config["frequency"]).value < MinFrequency as real ==>
            next["frequency"] == Int(MinFrequency) && log == [FrequencyRaised(config["frequency"])])
  {
    match NumberOf(config["frequency"])
    case None => Err(TypeError)
    case Some(f) =>
      if f < MinFrequency as real then
        Ok((config["frequency" := Int(MinFrequency)], [FrequencyRaised(config["frequency"])]))
      else Ok((config, []))
  }

  /** The in-place form of the check, as the program runs it on its settings. */
  method RaiseFrequency(config: Settings) returns (r: Result<Settings, Fault>, log: seq<Effect>)
    requires "frequency" in config
    ensures Raised(config).Ok? ==> r == Ok(Raised(config).value.0) && log == Raised(config).value.1
    ensures Raised(config).Err? ==> r == Err(Raised(config).error) && log == []
  {
    log := [];
    var settings := config;
    var requested := settings["frequency"];
    match NumberOf(requested) {
      case None =>
        return Err(TypeError), log;
      case Some(f) =>
        if f < MinFrequency as real {
          log := log + [FrequencyRaised(requested)];
          settings := settings["frequency" := Int(MinFrequency)];
        }
    }
    r := Ok(settings);
  }

  /**
   * The continuous loop from a given sample on: a cycle, then a sleep of
   * `period` seconds, and again, until the samples run out (the interrupt)
   * or a cycle raises.
   */
  function Continuous(config: Settings, console: bool, period: real, samples: seq<Sample>): (run: Run)
    requires HasThresholds(config)
    ensures run.cycles <= |samples|
    ensures run.stop != Completed
    decreases |samples|
  {
    if samples == [] then Run([], Interrupted, 0)
    else
      match samples[0]
      case SensorFailed => Run([], Crashed(SensorFault), 1)
      case Read(r, db) =>
        var out := Cycle(r, db, config, console);
        if out.fault.Some? then Run(out.effects, Crashed(out.fault.value), 1)
        else
          var rest := Continuous(config, console, period, samples[1..]);
          Run(out.effects + [Sleep(period)] + rest.trace, rest.stop, 1 + rest.cycles)
  }

  /** `--once`: a single cycle, no period check and no sleep. */
  function Once(config: Settings, console: bool, samples: seq<Sample>): Run
    requires HasThresholds(config)
  {
    if samples == [] then Run([], Interrupted, 0)
    else
      match samples[0]
      case SensorFailed => Run([], Crashed(SensorFault), 1)
      case Read(r, db) =>
        var out := Cycle(r, db, config, console);
        Run(out.effects, if out.fault.Some? then Crashed(out.fault.value) else Completed, 1)
  }

  /** Without `--once`: the period check, then the continuous loop on the checked settings. */
  function Looping(config: Settings, console: bool, samples: seq<Sample>): Run
    requires HasThresholds(config) && "frequency" in config
  {
    match Raised(config)
    case Err(f) => Run([], Crashed(f), 0)
    case Ok((next, log)) =>
      var rest := Continuous(next, console, NumberOf(next["frequency"]).value, samples);
      Run(log + rest.trace, rest.stop, rest.cycles)
  }

  /** The whole sampling command as a function of its inputs. */
  function Sampling(config: Settings, once: bool, console: bool, samples: seq<Sample>): Run
    requires HasThresholds(config) && "frequency" in config
  {
    if once then Once(config, console, samples) else Looping(config, console, samples)
  }

  /** Prefixes a run with effects already produced and cycles already begun. */
  function After(trace: seq<Effect>, cycles: nat, run: Run): Run
  {
    Run(trace + run.trace, run.stop, cycles + run.cycles)
  }

  /** One step of the continuous loop, unfolded at position `i` of the samples. */
  lemma ContinuousAt(config: Settings, console: bool, period: real, samples: seq<Sample>, i: nat)
    requires HasThresholds(config)
    requires i < |samples|
    ensures samples[i].SensorFailed? ==>
      Continuous(config, console, period, samples[i..]) == Run([], Crashed(SensorFault), 1)
    ensures samples[i].Read? ==>
      var out := Cycle(samples[i].reading, samples[i].db, config, console);
      Continuous(config, console, period, samples[i..]) ==
        if out.fault.Some? then Run(out.effects, Crashed(out.fault.value), 1)
        else After(out.effects + [Sleep(period)], 1, Continuous(config, console, period, samples[i + 1..]))
  {
    assert samples[i..][0] == samples[i];
    assert samples[i..][1..] == samples[i + 1..];
  }

  lemma AfterAfter(t: seq<Effect>, n: nat, u: seq<Effect>, m: nat, run: Run)
    ensures After(t, n, After(u, m, run)) == After(t + u, n + m, run)
  {
    assert t + (u + run.trace) == (t + u) + run.trace;
  }

  /** `while True: process_reading(); time.sleep(period)`, until the samples run out or a cycle raises. */
  method Poll(config: Settings, console: bool, period: real, samples: seq<Sample>) returns (run: Run)
    requires HasThresholds(config)
    ensures run == Continuous(config, console, period, samples)
  {
    var trace := [];
    var i := 0;
    while i < |samples|
      invariant 0 <= i <= |samples|
      invariant Continuous(config, console, period, samples)
             == After(trace, i, Continuous(config, console, period, samples[i..]))
    {
      ContinuousAt(config, console, period, samples, i);
      match samples[i] {
        case SensorFailed =>
          return Run(trace, Crashed(SensorFault), i + 1);
        case Read(r, db) =>
          var out := Cycle(r, db, config, console);
          if out.fault.Some? {
            return Run(trace + out.effects, Crashed(out.fault.value), i + 1);
          }
          AfterAfter(trace, i, out.effects + [Sleep(period)], 1, Continuous(config, console, period, samples[i + 1..]));
          trace := trace + (out.effects + [Sleep(period)]);
      }
      i := i + 1;
    }
    assert samples[i..] == [];
    return Run(trace, Interrupted, i);
  }

  /**
   * The continuous branch: the period is checked and raised in place, then
   * the loop polls with the checked settings.
   */
  method MonitorLoop(config: Settings, console: bool, samples: seq<Sample>) returns (run: Run)
    requires HasThresholds(config) && "frequency" in config
    ensures run == Looping(config, console, samples)
  {
    var settings, log := RaiseFrequency(config);
    if settings.Err? {
      return Run([], Crashed(settings.error), 0);
    }
    var current := settings.value;
    var rest := Poll(current, console, NumberOf(current["frequency"]).value, samples);
    run := Run(log + rest.trace, rest.stop, rest.cycles);
  }

  /**
   * The sampling command: `--once` runs one cycle; otherwise the loop runs.
   * `samples` are the successive sensor readings; the interrupt comes when
   * they run out.
   */
  method Monitor(config: Settings, once: bool, console: bool, samples: seq<Sample>) returns (run: Run)
    requires HasThresholds(config) && "frequency" in config
    ensures run == Sampling(config, once, console, samples)
  {
    if once {
      run := Once(config, console, samples);
    } else {
      run := MonitorLoop(config, console, samples);
    }
  }

  /**
   * A trace the loop can leave behind after the period check: every sleep
   * lasts the period, the check's log line does not appear, and nothing is
   * persisted under `--console`.
   */
  ghost predicate LoopEffects(trace: seq<Effect>, console: bool, period: real)
  {
    && (forall i :: 0 <= i < |trace| && trace[i].Sleep? ==> trace[i].seconds == period)
    && (forall i :: 0 <= i < |trace| ==> !trace[i].FrequencyRaised?)
    && (console ==> forall i :: 0 <= i < |trace| ==> !trace[i].Persist?)
  }

  /**
   * What the continuous loop's trace holds: every sleep lasts the period, the
   * period check's log line never recurs, and `--console` never persists.
   */
  lemma {:induction false} ContinuousEffects(config: Settings, console: bool, period: real, samples: seq<Sample>)
    requires HasThresholds(config)
    ensures LoopEffects(Continuous(config, console, period, samples).trace, console, period)
    decreases |samples|
  {
    if samples != [] && samples[0].Read? {
      var out := Cycle(samples[0].reading, samples[0].db, config, console);
      if out.fault.None? {
        ContinuousEffects(config, console, period, samples[1..]);
        var rest := Continuous(config, console, period, samples[1..]).trace;
        var trace := out.effects + [Sleep(period)] + rest;
        assert Continuous(config, console, period, samples).trace == trace;
        assert forall i :: 0 <= i < |trace| ==>
          trace[i] == if i < |out.effects| then out.effects[i]
                      else if i == |out.effects| then Sleep(period)
                      else rest[i - |out.effects| - 1];
      } else {
        assert Continuous(config, console, period, samples).trace == out.effects;
      }
    }
  }

  /**
   * Every cycle of the continuous loop that completes is followed by exactly
   * one sleep: an interrupted run has slept once per cycle, a crashed one
   * once less. With numeric thresholds only the sensor can crash it.
   */
  lemma {:induction false} ContinuousSleeps(config: Settings, console: bool, period: real, samples: seq<Sample>)
    requires HasThresholds(config)
    ensures var run := Continuous(config, console, period, samples);
      && (run.stop == Interrupted ==> Sleeps(run.trace) == run.cycles)
      && (run.stop.Crashed? ==> run.cycles > 0 && Sleeps(run.trace) == run.cycles - 1)
      && (NumericThresholds(config) ==> run.stop == Interrupted || run.stop == Crashed(SensorFault))
    decreases |samples|
  {
    if samples != [] && samples[0].Read? {
      var out := Cycle(samples[0].reading, samples[0].db, config, console);
      NoSleeps(out.effects);
      if out.fault.None? {
        var rest := Continuous(config, console, period, samples[1..]);
        ContinuousSleeps(config, console, period, samples[1..]);
        SleepsAppend(out.effects + [Sleep(period)], rest.trace);
        SleepsAppend(out.effects, [Sleep(period)]);
        assert Sleeps([Sleep(period)]) == 1;
      }
    }
  }

  /** The effects of one cycle hold no sleep. */
  lemma {:induction false} NoSleeps(effects: seq<Effect>)
    requires forall i :: 0 <= i < |effects| ==> effects[i].Persist? || effects[i].Email?
    ensures Sleeps(effects) == 0
    decreases |effects|
  {
    if effects != [] {
      NoSleeps(effects[1..]);
    }
  }

  /**
   * `--once` runs exactly one cycle when a reading comes: its trace is that
   * cycle's effects, with no period check, no log line and no sleep,
   * whatever the period setting holds.
   */
  lemma OnceIsOneCycle(config: Settings, console: bool, samples: seq<Sample>)
    requires HasThresholds(config) && "frequency" in config
    requires samples != []
    ensures var run := Sampling(config, true, console, samples);
      && run.cycles == 1
      && run.stop != Interrupted
      && Sleeps(run.trace) == 0
      && (forall i :: 0 <= i < |run.trace| ==> run.trace[i].Persist? || run.trace[i].Email?)
      && (samples[0].Read? ==> run.trace == Cycle(samples[0].reading, samples[0].db, config, console).effects)
  {
    if samples[0].Read? {
      NoSleeps(Cycle(samples[0].reading, samples[0].db, config, console).effects);
    }
  }

  /**
   * The continuous loop never sleeps less than five seconds: a period below
   * five is raised to exactly five with a single log line at the very start,
   * and a period of five or more is used as it is, with no log line.
   */
  lemma LoopPeriod(config: Settings, console: bool, samples: seq<Sample>)
    requires HasThresholds(config) && "frequency" in config
    requires NumberOf(config["frequency"]).Some?
    ensures var f := NumberOf(config["frequency"]).value;
      var run := Sampling(config, false, console, samples);
      && (forall i :: 0 <= i < |run.trace| && run.trace[i].Sleep? ==>
            run.trace[i].seconds == if f < MinFrequency as real then MinFrequency as real else f)
      && (f < MinFrequency as real ==>
            run.trace[0] == FrequencyRaised(config["frequency"]) &&
            forall i :: 0 < i < |run.trace| ==> !run.trace[i].FrequencyRaised?)
      && (f >= MinFrequency as real ==> forall i :: 0 <= i < |run.trace| ==> !run.trace[i].FrequencyRaised?)
  {
    var (next, log) := Raised(config).value;
    var rest := Continuous(next, console, NumberOf(next["frequency"]).value, samples);
    ContinuousEffects(next, console, NumberOf(next["frequency"]).value, samples);
    assert Sampling(config, false, console, samples).trace == log + rest.trace;
    assert forall i :: 0 <= i < |log + rest.trace| ==>
      (log + rest.trace)[i] == if i < |log| then log[i] else rest.trace[i - |log|];
  }

  /** `--console` never persists, in either mode. */
  lemma ConsoleNeverPersists(config: Settings, once: bool, samples: seq<Sample>)
    requires HasThresholds(config) && "frequency" in config
    ensures var run := Sampling(config, once, true, samples);
      forall i :: 0 <= i < |run.trace| ==> !run.trace[i].Persist?
  {
    if !once && Raised(config).Ok? {
      var (next, log) := Raised(config).value;
      var rest := Continuous(next, true, NumberOf(next["frequency"]).value, samples);
      ContinuousEffects(next, true, NumberOf(next["frequency"]).value, samples);
      assert Sampling(config, once, true, samples).trace == log + rest.trace;
      assert forall i :: 0 <= i < |log + rest.trace| ==>
        (log + rest.trace)[i] == if i < |log| then log[i] else rest.trace[i - |log|];
    }
  }

  /**
   * With numeric thresholds and a numeric period no comparison of the
   * sampling command can raise: the only way a run can crash is the sensor.
   */
  lemma NumericSettingsOnlySensorCrashes(config: Settings, once: bool, console: bool, samples: seq<Sample>)
    requires NumericThresholds(config) && "frequency" in config
    requires NumberOf(config["frequency"]).Some?
    ensures var stop := Sampling(config, once, console, samples).stop;
      stop == Completed || stop == Interrupted || stop == Crashed(SensorFault)
  {
    if !once {
      var (next, log) := Raised(config).value;
      ContinuousSleeps(next, console, NumberOf(next["frequency"]).value, samples);
    }
  }

  /** Settings written by `configure` are such settings. */
  lemma ConfiguredSettingsAreNumeric(file: ConfigFile, answers: seq<string>, config: Settings)
    requires Configure.Configure(file, answers) == Ok(config)
    ensures NumericThresholds(config) && "frequency" in config
    ensures NumberOf(config["frequency"]).Some?
  {
    TypedSettingsAreNumeric(config);
  }

  lemma TypedSettingsAreNumeric(config: Settings)
    requires Configure.NumericKinds(config)
    ensures NumericThresholds(config) && "frequency" in config
    ensures NumberOf(config["frequency"]).Some?
  {
  }
}
