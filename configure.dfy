/**
 * The interactive `configure` command (monitor.py:75-93): every setting is
 * prompted for in turn and becomes `input or current`, converted with `int`
 * or `float` for the numeric settings.
 */
module Configure {
  import opened Wrappers
  import opened Config

  /** How a prompted setting is stored. */
  datatype Kind =
    | Text      // stored as typed
    | Integer   // passed through `int(...)`
    | Float     // passed through `float(...)`

  datatype Prompt = Prompt(key: string, kind: Kind)

  datatype ConfigureError =
    | LoadFailed(LoadError)    // `load_config` raised: config.cfg is not valid JSON
    | EndOfInput               // the terminal closed before every prompt was answered
    | ValueError(key: string)  // `int`/`float` rejected the value for this key

  /** The fourteen prompts of `configure`, in the order they are asked. */
  const Prompts: seq<Prompt> := [
    Prompt("db_host", Text),
    Prompt("db_name", Text),
    Prompt("db_username", Text),
    Prompt("db_password", Text),
    Prompt("frequency", Integer),
    Prompt("smtp_host", Text),
    Prompt("smtp_port", Integer),
    Prompt("smtp_username", Text),
    Prompt("smtp_password", Text),
    Prompt("recipient", Text),
    Prompt("temp_threshold_high", Float),
    Prompt("temp_threshold_low", Float),
    Prompt("humidity_threshold_high", Float),
    Prompt("humidity_threshold_low", Float)
  ]

  predicate IsDigit(c: char) { '0' <= c <= '9' }

  predicate AllDigits(s: string) { forall i :: 0 <= i < |s| ==> IsDigit(s[i]) }

  /** The number a string of decimal digits denotes. */
  function DigitsValue(s: string): (n: nat)
    requires AllDigits(s)
    ensures s == [] ==> n == 0
  {
    if s == [] then 0
    else 10 * DigitsValue(s[..|s| - 1]) + (s[|s| - 1] as int - '0' as int)
  }

  function Pow10(n: nat): (p: nat)
    ensures p > 0
  {
    if n == 0 then 1 else 10 * Pow10(n - 1)
  }

  /** An optional leading sign: the factor it stands for and the rest. */
  function SplitSign(s: string): (r: (int, string))
    ensures r.0 == 1 || r.0 == -1
    ensures |r.1| <= |s|
  {
    if |s| > 0 && s[0] == '-' then (-1, s[1..])
    else if |s| > 0 && s[0] == '+' then (1, s[1..])
    else (1, s)
  }

  /** A run of decimal digits after an optional sign: the text `int` accepts here. */
  predicate SignedDigits(s: string)
  {
    || (s != [] && AllDigits(s))
    || (|s| > 1 && (s[0] == '-' || s[0] == '+') && AllDigits(s[1..]))
  }

  /**
   * `int(text)`: a signed run of decimal digits denotes its value, negated
   * after a '-'; any other text is rejected.
   */
  function ParseInt(s: string): (r: Option<int>)
    ensures r.Some? <==> SignedDigits(s)
    ensures s != [] && AllDigits(s) ==> r == Some(DigitsValue(s))
    ensures |s| > 1 && s[0] == '+' && AllDigits(s[1..]) ==> r == Some(DigitsValue(s[1..]))
    ensures |s| > 1 && s[0] == '-' && AllDigits(s[1..]) ==> r == Some(-(DigitsValue(s[1..]) as int))
  {
    var (sign, body) := SplitSign(s);
    if body != [] && AllDigits(body) then Some(sign * DigitsValue(body)) else None
  }

  /** Index of the first '.' in `s`, or |s| when there is none. */
  function DotAt(s: string): (i: nat)
    ensures i <= |s|
    ensures forall j :: 0 <= j < i ==> s[j] != '.'
    ensures i < |s| ==> s[i] == '.'
  {
    if s == [] then 0
    else if s[0] == '.' then 0
    else 1 + DotAt(s[1..])
  }

  /** Digits with at most one '.' among them, and at least one digit. */
  predicate Decimal(t: string)
  {
    && t != [] && t != "."
    && (forall i :: 0 <= i < |t| ==> IsDigit(t[i]) || t[i] == '.')
    && (forall i, j :: 0 <= i < j < |t| ==> t[i] != '.' || t[j] != '.')
  }

  /** A decimal after an optional sign: the text `float` accepts here. */
  predicate SignedDecimal(s: string)
  {
    || Decimal(s)
    || (|s| > 0 && (s[0] == '-' || s[0] == '+') && Decimal(s[1..]))
  }

  /** The digits before the first '.' of `t`, and those after it. */
  function Whole(t: string): string
  {
    t[..DotAt(t)]
  }

  function Fraction(t: string): string
  {
    if DotAt(t) < |t| then t[DotAt(t) + 1..] else []
  }

  /** Splitting at the first '.' leaves two runs of digits exactly when the text is a decimal. */
  lemma DecimalSplit(t: string)
    ensures Decimal(t) <==>
      |Whole(t)| + |Fraction(t)| > 0 && AllDigits(Whole(t)) && AllDigits(Fraction(t))
  {
    var dot := DotAt(t);
    if |Whole(t)| + |Fraction(t)| > 0 && AllDigits(Whole(t)) && AllDigits(Fraction(t)) {
      forall i | 0 <= i < |t|
        ensures IsDigit(t[i]) || t[i] == '.'
      {
        if i < dot {
          assert t[i] == Whole(t)[i];
        } else if i > dot {
          assert t[i] == Fraction(t)[i - dot - 1];
        }
      }
      forall i, j | 0 <= i < j < |t|
        ensures t[i] != '.' || t[j] != '.'
      {
        if j > dot {
          assert t[j] == Fraction(t)[j - dot - 1];
        }
      }
    }
    if Decimal(t) {
      forall i | 0 <= i < |Fraction(t)|
        ensures IsDigit(Fraction(t)[i])
      {
        assert Fraction(t)[i] == t[dot + 1 + i];
      }
    }
  }

  /**
   * `float(text)`: a signed decimal with an optional fraction ("27", "27.5",
   * ".5", "5."); any other text is rejected.
   */
  function ParseFloat(s: string): (r: Option<real>)
    ensures r.Some? <==> SignedDecimal(s)
  {
    var (sign, body) := SplitSign(s);
    DecimalSplit(body);
    if |Whole(body)| + |Fraction(body)| > 0 && AllDigits(Whole(body)) && AllDigits(Fraction(body)) then
      Some(if sign == -1 then -DecimalValue(body) else DecimalValue(body))
    else None
  }

  /**
   * The number whole digits `w` and fraction digits `f` denote: `w` plus `f`
   * moved `|f|` places to the right of the point (`f / 10^|f|`, by `TenthsIsPow10`).
   */
  function PointValue(w: string, f: string): real
    requires AllDigits(w) && AllDigits(f)
  {
    DigitsValue(w) as real + Tenths(DigitsValue(f) as real, |f|)
  }

  /** `x` divided by ten `n` times. */
  function Tenths(x: real, n: nat): real
  {
    if n == 0 then x else Tenths(x, n - 1) / 10.0
  }

  /** Dividing by ten `n` times is dividing by the `n`th power of ten. */
  lemma {:induction false} TenthsIsPow10(x: real, n: nat)
    ensures Tenths(x, n) == x / Pow10(n) as real
  {
    if n > 0 {
      TenthsIsPow10(x, n - 1);
      var p := Pow10(n - 1) as real;
      assert Pow10(n) as real == 10.0 * p;
      assert (x / p) / 10.0 == x / (10.0 * p);
    }
  }

  /** The number a decimal denotes. */
  function DecimalValue(t: string): real
    requires AllDigits(Whole(t)) && AllDigits(Fraction(t))
  {
    PointValue(Whole(t), Fraction(t))
  }

  /** The first '.' comes after a leading run of digits. */
  lemma {:induction false} DigitsBeforeDot(w: string, rest: string)
    requires AllDigits(w)
    ensures DotAt(w + rest) == |w| + DotAt(rest)
    decreases |w|
  {
    if w != [] {
      assert (w + rest)[0] == w[0];
      assert (w + rest)[1..] == w[1..] + rest;
      DigitsBeforeDot(w[1..], rest);
    } else {
      assert w + rest == rest;
    }
  }

  /** A sign in front of text that does not start with one is split off again. */
  lemma SignSplits(sign: string, t: string)
    requires sign == "" || sign == "-" || sign == "+"
    requires t == [] || (t[0] != '-' && t[0] != '+')
    ensures SplitSign(sign + t) == (if sign == "-" then -1 else 1, t)
  {
    if sign == "" {
      assert sign + t == t;
    } else {
      assert (sign + t)[0] == sign[0];
      assert (sign + t)[1..] == t;
    }
  }

  /** A signed text whose unsigned part splits into digits denotes the signed value of that part. */
  lemma ParseSigned(sign: string, t: string, v: real)
    requires SignText(sign) && UnsignedDecimal(t) && DecimalValue(t) == v
    ensures ParseFloat(sign + t) == Some(if sign == "-" then -v else v)
  {
    SignSplits(sign, t);
  }

  /** No sign, or one `-` or `+`. */
  predicate SignText(sign: string)
  {
    sign == "" || sign == "-" || sign == "+"
  }

  /** A decimal with no sign in front, stated through its split at the first '.'. */
  predicate UnsignedDecimal(t: string)
  {
    && (t == [] || (t[0] != '-' && t[0] != '+'))
    && |Whole(t)| + |Fraction(t)| > 0 && AllDigits(Whole(t)) && AllDigits(Fraction(t))
  }

  /** The value of a decimal with a fraction: its whole digits plus its fraction digits over a power of ten. */
  lemma ParsePointed(sign: string, w: string, f: string)
    requires sign == "" || sign == "-" || sign == "+"
    requires AllDigits(w) && AllDigits(f) && |w| + |f| > 0
    ensures ParseFloat(sign + (w + "." + f)) == Some(if sign == "-" then -PointValue(w, f) else PointValue(w, f))
  {
    PointedDecimal(w, f);
    ParseSigned(sign, w + "." + f, PointValue(w, f));
  }

  /** Digits, a '.' and digits form an unsigned decimal that denotes `PointValue`. */
  lemma PointedDecimal(w: string, f: string)
    requires AllDigits(w) && AllDigits(f) && |w| + |f| > 0
    ensures UnsignedDecimal(w + "." + f) && DecimalValue(w + "." + f) == PointValue(w, f)
  {
    PointSplits(w, f);
  }

  /** Digits, a '.', and digits split back into the two runs, with no sign in front. */
  lemma PointSplits(w: string, f: string)
    requires AllDigits(w) && AllDigits(f)
    ensures var t := w + "." + f;
      && Whole(t) == w && Fraction(t) == f
      && t[0] != '-' && t[0] != '+'
  {
    var t := w + "." + f;
    DigitsBeforeDot(w, "." + f);
    assert w + ("." + f) == t;
    assert t[..|w|] == w;
    assert t[|w| + 1..] == f;
    if w != [] { assert t[0] == w[0]; }
  }

  /** The value of a decimal without a '.': its digits. */
  lemma ParseUnpointed(sign: string, w: string)
    requires sign == "" || sign == "-" || sign == "+"
    requires AllDigits(w) && w != []
    ensures ParseFloat(sign + w) == Some(if sign == "-" then -(DigitsValue(w) as real) else DigitsValue(w) as real)
  {
    DigitsSplit(w);
    assert PointValue(w, []) == DigitsValue(w) as real;
    ParseSigned(sign, w, DigitsValue(w) as real);
  }

  /** Digits without a '.' are all whole part, with no sign in front. */
  lemma DigitsSplit(w: string)
    requires AllDigits(w) && w != []
    ensures Whole(w) == w && Fraction(w) == []
    ensures w[0] != '-' && w[0] != '+'
  {
    DigitsBeforeDot(w, []);
    assert w + [] == w;
    assert IsDigit(w[0]);
  }

  /** Python's `int(x)` on a float: truncation toward zero. */
  function Truncate(x: real): (n: int)
    ensures x >= 0.0 ==> n as real <= x < n as real + 1.0
    ensures x < 0.0 ==> n as real - 1.0 < x <= n as real
  {
    if x >= 0.0 then x.Floor else -((-x).Floor)
  }

  /** `int(v)` on a stored value. */
  function IntOf(v: Value): Option<int>
  {
    match v
    case Int(i) => Some(i)
    case Num(x) => Some(Truncate(x))
    case Str(s) => ParseInt(s)
  }

  /** `float(v)` on a stored value. */
  function FloatOf(v: Value): Option<real>
  {
    match v
    case Int(i) => Some(i as real)
    case Num(x) => Some(x)
    case Str(s) => ParseFloat(s)
  }

  /** The representation a setting of this kind has after `configure`. */
  predicate HasKind(v: Value, kind: Kind)
  {
    match kind
    case Text => true
    case Integer => v.Int?
    case Float => v.Num?
  }

  /**
   * The conversion applied to `input or current`: text is kept as it is;
   * `int` keeps an integer, truncates a float and parses a string; `float`
   * widens an integer, keeps a float and parses a string. Only a string can
   * be rejected, and what comes out has the prompt's kind.
   */
  function Convert(kind: Kind, v: Value): (r: Option<Value>)
    ensures r.Some? ==> HasKind(r.value, kind)
    ensures HasKind(v, kind) ==> r == Some(v)
    ensures kind == Text ==> r == Some(v)
    ensures kind == Integer && v.Num? ==> r == Some(Int(Truncate(v.r)))
    ensures kind == Float && v.Int? ==> r == Some(Num(v.i as real))
    ensures kind == Integer && v.Str? ==>
      (r.Some? <==> SignedDigits(v.s)) && (r.Some? ==> r.value == Int(ParseInt(v.s).value))
    ensures kind == Float && v.Str? ==>
      (r.Some? <==> SignedDecimal(v.s)) && (r.Some? ==> r.value == Num(ParseFloat(v.s).value))
  {
    match kind
    case Text => Some(v)
    case Integer => (match IntOf(v) case Some(n) => Some(Int(n)) case None => None)
    case Float => (match FloatOf(v) case Some(x) => Some(Num(x)) case None => None)
  }

  /** Python's `answer or current`: the empty string is false. */
  function Answered(answer: string, current: Value): Value
  {
    if answer == "" then current else Str(answer)
  }

  /**
   * One line of `configure`: the setting `p.key` becomes the converted
   * `answer or current`; no other setting changes. A blank answer converts
   * the current value, so one that already has the prompt's kind stays
   * exactly as it was; a typed answer replaces it (converted), or is
   * rejected by the conversion.
   */
  function ApplyField(config: Settings, p: Prompt, answer: string): (r: Result<Settings, ConfigureError>)
    requires p.key in config
    ensures r.Ok? ==> r.value.Keys == config.Keys
    ensures r.Ok? ==> forall k :: k in config && k != p.key ==> r.value[k] == config[k]
    ensures r.Ok? ==> HasKind(r.value[p.key], p.kind)
    ensures r.Err? ==> r.error == ValueError(p.key)
    ensures answer == "" && HasKind(config[p.key], p.kind) ==> r == Ok(config)
    ensures answer == "" ==>
      (r.Ok? <==> Convert(p.kind, config[p.key]).Some?) &&
      (r.Ok? ==> r.value == config[p.key := Convert(p.kind, config[p.key]).value])
    ensures answer != "" && p.kind == Text ==> r == Ok(config[p.key := Str(answer)])
    ensures answer != "" && p.kind == Integer ==>
      (r.Ok? <==> ParseInt(answer).Some?) &&
      (r.Ok? ==> r.value[p.key] == Int(ParseInt(answer).value))
    ensures answer != "" && p.kind == Float ==>
      (r.Ok? <==> ParseFloat(answer).Some?) &&
      (r.Ok? ==> r.value[p.key] == Num(ParseFloat(answer).value))
  {
    match Convert(p.kind, Answered(answer, config[p.key]))
    case Some(v) =>
      assert answer == "" && HasKind(config[p.key], p.kind) ==> config[p.key := v] == config;
      Ok(config[p.key := v])
    case None => Err(ValueError(p.key))
  }

  /** No key is prompted for twice. */
  predicate DistinctKeys(prompts: seq<Prompt>)
  {
    forall i, j :: 0 <= i < j < |prompts| ==> prompts[i].key != prompts[j].key
  }

  /**
   * Every prompt has an answer, and each answer is one its own line accepts
   * against the settings before all prompts.
   */
  predicate Accepts(config: Settings, prompts: seq<Prompt>, answers: seq<string>)
  {
    && |answers| >= |prompts|
    && forall i :: 0 <= i < |prompts| ==> prompts[i].key in config && ApplyField(config, prompts[i], answers[i]).Ok?
  }

  /**
   * A line depends on the settings only through its own key: two settings
   * that agree there give the same verdict and the same new value.
   */
  lemma FieldIsLocal(c1: Settings, c2: Settings, p: Prompt, answer: string)
    requires p.key in c1 && p.key in c2 && c1[p.key] == c2[p.key]
    ensures ApplyField(c1, p, answer).Ok? == ApplyField(c2, p, answer).Ok?
    ensures ApplyField(c1, p, answer).Ok? ==>
      ApplyField(c1, p, answer).value[p.key] == ApplyField(c2, p, answer).value[p.key]
    ensures ApplyField(c1, p, answer).Err? ==> ApplyField(c1, p, answer) == ApplyField(c2, p, answer)
  {
  }

  /**
   * The prompts asked in order, each answer consumed by one prompt; running
   * out of answers or a rejected answer ends it with an error. What a
   * successful run sets is stated by `ApplyAllSets`.
   */
  function ApplyAll(config: Settings, prompts: seq<Prompt>, answers: seq<string>): (r: Result<Settings, ConfigureError>)
    requires forall i :: 0 <= i < |prompts| ==> prompts[i].key in config
    requires DistinctKeys(prompts)
    ensures r.Ok? ==> |answers| >= |prompts|
    ensures r.Ok? ==> r.value.Keys == config.Keys
    decreases prompts
  {
    if prompts == [] then Ok(config)
    else if answers == [] then Err(EndOfInput)
    else
      match ApplyField(config, prompts[0], answers[0])
      case Err(e) => Err(e)
      case Ok(next) =>
        assert forall i :: 0 <= i < |prompts[1..]| ==> prompts[1..][i] == prompts[i + 1];
        ApplyAll(next, prompts[1..], answers[1..])
  }

  /**
   * `after` is what accepted answers to `prompts` make of `before`: the same
   * keys, each prompted setting as its own line sets it, the others kept.
   */
  predicate SetBy(before: Settings, prompts: seq<Prompt>, answers: seq<string>, after: Settings)
  {
    && Accepts(before, prompts, answers)
    && after.Keys == before.Keys
    && (forall i :: 0 <= i < |prompts| ==>
          after[prompts[i].key] == ApplyField(before, prompts[i], answers[i]).value[prompts[i].key])
    && (forall k :: k in after && (forall i :: 0 <= i < |prompts| ==> prompts[i].key != k) ==>
          after[k] == before[k])
  }

  /**
   * The prompts succeed exactly when every prompt has an answer that its own
   * line accepts, and then each setting ends exactly as its own line would
   * have set it from the settings before all prompts, since no line touches
   * another line's key.
   */
  lemma {:induction false} ApplyAllSets(config: Settings, prompts: seq<Prompt>, answers: seq<string>)
    requires forall i :: 0 <= i < |prompts| ==> prompts[i].key in config
    requires DistinctKeys(prompts)
    ensures ApplyAll(config, prompts, answers).Ok? <==> Accepts(config, prompts, answers)
    ensures ApplyAll(config, prompts, answers).Ok? ==> SetBy(config, prompts, answers, ApplyAll(config, prompts, answers).value)
    decreases prompts
  {
    if prompts != [] && answers != [] {
      match ApplyField(config, prompts[0], answers[0])
      case Err(_) =>
      case Ok(next) =>
        ApplyAllStep(config, next, prompts, answers);
        ApplyAllSets(next, prompts[1..], answers[1..]);
        var r := ApplyAll(next, prompts[1..], answers[1..]);
        assert ApplyAll(config, prompts, answers) == r;
        if Accepts(next, prompts[1..], answers[1..]) {
          forall i | 0 <= i < |prompts|
            ensures ApplyField(config, prompts[i], answers[i]).Ok?
          {
            if i > 0 {
              assert prompts[1..][i - 1] == prompts[i] && answers[1..][i - 1] == answers[i];
            }
          }
        }
        if r.Ok? {
          AfterSteps(config, next, prompts, answers, r.value);
        }
    }
  }

  /** The first line's setting, followed by what the remaining lines set, is what all lines set. */
  lemma AfterSteps(config: Settings, next: Settings, prompts: seq<Prompt>, answers: seq<string>, after: Settings)
    requires prompts != [] && answers != []
    requires forall i :: 0 <= i < |prompts| ==> prompts[i].key in config
    requires DistinctKeys(prompts)
    requires ApplyField(config, prompts[0], answers[0]) == Ok(next)
    requires Accepts(config, prompts, answers)
    requires forall i :: 1 <= i < |prompts| ==> prompts[i].key in next && next[prompts[i].key] == config[prompts[i].key]
    requires forall i :: 1 <= i < |prompts| && i < |answers| ==>
      ApplyField(next, prompts[i], answers[i]).Ok? ==>
        ApplyField(next, prompts[i], answers[i]).value[prompts[i].key] ==
        ApplyField(config, prompts[i], answers[i]).value[prompts[i].key]
    requires SetBy(next, prompts[1..], answers[1..], after)
    ensures SetBy(config, prompts, answers, after)
  {
    forall i | 0 <= i < |prompts|
      ensures after[prompts[i].key] == ApplyField(config, prompts[i], answers[i]).value[prompts[i].key]
    {
      if i == 0 {
        assert forall j :: 0 <= j < |prompts| - 1 ==> prompts[1..][j].key != prompts[0].key by {
          forall j | 0 <= j < |prompts| - 1
            ensures prompts[1..][j].key != prompts[0].key
          {
            assert prompts[1..][j] == prompts[j + 1];
          }
        }
      } else {
        assert prompts[1..][i - 1] == prompts[i] && answers[1..][i - 1] == answers[i];
      }
    }
    forall k | k in after && (forall i :: 0 <= i < |prompts| ==> prompts[i].key != k)
      ensures after[k] == config[k]
    {
      assert forall j :: 0 <= j < |prompts| - 1 ==> prompts[1..][j].key != k by {
        forall j | 0 <= j < |prompts| - 1
          ensures prompts[1..][j].key != k
        {
          assert prompts[1..][j] == prompts[j + 1];
        }
      }
    }
  }

  /**
   * Prompt `i` is where `configure` stops with `e`: every earlier prompt had
   * an answer that its line accepted, and prompt `i` either met the end of
   * input or raised `e` on its own answer.
   */
  predicate FirstFailureAt(config: Settings, prompts: seq<Prompt>, answers: seq<string>, i: int, e: ConfigureError)
  {
    && 0 <= i < |prompts| && i <= |answers|
    && (forall j :: 0 <= j <= i ==> prompts[j].key in config)
    && (forall j :: 0 <= j < i ==> ApplyField(config, prompts[j], answers[j]).Ok?)
    && (if i < |answers| then ApplyField(config, prompts[i], answers[i]) == Err(e) else e == EndOfInput)
  }

  /**
   * The prompts fail exactly with the error of the first prompt that fails:
   * the first rejected answer raises its `ValueError`, and the end of input
   * is met only when every earlier answer was accepted.
   */
  lemma {:induction false} ApplyAllRejects(config: Settings, prompts: seq<Prompt>, answers: seq<string>)
    requires forall i :: 0 <= i < |prompts| ==> prompts[i].key in config
    requires DistinctKeys(prompts)
    ensures var r := ApplyAll(config, prompts, answers);
      r.Err? ==> exists i :: FirstFailureAt(config, prompts, answers, i, r.error)
    ensures forall i, e :: FirstFailureAt(config, prompts, answers, i, e) ==> ApplyAll(config, prompts, answers) == Err(e)
    decreases prompts
  {
    if prompts == [] {
    } else if answers == [] {
      assert FirstFailureAt(config, prompts, answers, 0, EndOfInput);
      forall i, e | FirstFailureAt(config, prompts, answers, i, e)
        ensures e == EndOfInput
      {
        assert i == 0;
      }
    } else {
      match ApplyField(config, prompts[0], answers[0])
      case Err(e0) =>
        assert FirstFailureAt(config, prompts, answers, 0, e0);
        forall i, e | FirstFailureAt(config, prompts, answers, i, e)
          ensures e == e0
        {
          assert i == 0;
        }
      case Ok(next) =>
        ApplyAllStep(config, next, prompts, answers);
        ApplyAllRejects(next, prompts[1..], answers[1..]);
        var r := ApplyAll(next, prompts[1..], answers[1..]);
        assert ApplyAll(config, prompts, answers) == r;
        if r.Err? {
          var i :| FirstFailureAt(next, prompts[1..], answers[1..], i, r.error);
          FirstFailureShifts(config, next, prompts, answers, i + 1, r.error);
        }
        forall i, e | FirstFailureAt(config, prompts, answers, i, e)
          ensures r == Err(e)
        {
          assert i != 0;
          FirstFailureShifts(config, next, prompts, answers, i, e);
        }
    }
  }

  /** Once the first line has accepted its answer, the first failure of the rest is the first failure of all lines, one place later. */
  lemma FirstFailureShifts(config: Settings, next: Settings, prompts: seq<Prompt>, answers: seq<string>, i: int, e: ConfigureError)
    requires prompts != [] && answers != [] && i >= 1
    requires forall i :: 0 <= i < |prompts| ==> prompts[i].key in config && prompts[i].key in next
    requires ApplyField(config, prompts[0], answers[0]) == Ok(next)
    requires forall i :: 1 <= i < |prompts| && i < |answers| ==>
      && ApplyField(next, prompts[i], answers[i]).Ok? == ApplyField(config, prompts[i], answers[i]).Ok?
      && (ApplyField(next, prompts[i], answers[i]).Err? ==>
            ApplyField(next, prompts[i], answers[i]) == ApplyField(config, prompts[i], answers[i]))
    ensures FirstFailureAt(config, prompts, answers, i, e) <==> FirstFailureAt(next, prompts[1..], answers[1..], i - 1, e)
  {
    if FirstFailureAt(config, prompts, answers, i, e) {
      forall j | 0 <= j < i - 1
        ensures ApplyField(next, prompts[1..][j], answers[1..][j]).Ok?
      {
        assert prompts[1..][j] == prompts[j + 1] && answers[1..][j] == answers[j + 1];
      }
      if i < |answers| {
        assert prompts[1..][i - 1] == prompts[i] && answers[1..][i - 1] == answers[i];
      }
    }
    if FirstFailureAt(next, prompts[1..], answers[1..], i - 1, e) {
      forall j | 0 <= j < i
        ensures ApplyField(config, prompts[j], answers[j]).Ok?
      {
        if j > 0 {
          assert prompts[1..][j - 1] == prompts[j] && answers[1..][j - 1] == answers[j];
        }
      }
      if i < |answers| {
        assert prompts[1..][i - 1] == prompts[i] && answers[1..][i - 1] == answers[i];
      }
    }
  }

  /** After the first line, the remaining lines see their own keys as they were before it. */
  lemma ApplyAllStep(config: Settings, next: Settings, prompts: seq<Prompt>, answers: seq<string>)
    requires prompts != [] && answers != []
    requires forall i :: 0 <= i < |prompts| ==> prompts[i].key in config
    requires DistinctKeys(prompts)
    requires ApplyField(config, prompts[0], answers[0]) == Ok(next)
    ensures forall i :: 1 <= i < |prompts| ==> prompts[i].key in next && next[prompts[i].key] == config[prompts[i].key]
    ensures forall i :: 1 <= i < |prompts| && i < |answers| ==>
      && ApplyField(next, prompts[i], answers[i]).Ok? == ApplyField(config, prompts[i], answers[i]).Ok?
      && (ApplyField(next, prompts[i], answers[i]).Err? ==>
            ApplyField(next, prompts[i], answers[i]) == ApplyField(config, prompts[i], answers[i]))
      && (ApplyField(next, prompts[i], answers[i]).Ok? ==>
            ApplyField(next, prompts[i], answers[i]).value[prompts[i].key] ==
            ApplyField(config, prompts[i], answers[i]).value[prompts[i].key])
  {
    forall i | 1 <= i < |prompts| && i < |answers|
      ensures ApplyField(next, prompts[i], answers[i]).Ok? == ApplyField(config, prompts[i], answers[i]).Ok?
      ensures ApplyField(next, prompts[i], answers[i]).Err? ==>
        ApplyField(next, prompts[i], answers[i]) == ApplyField(config, prompts[i], answers[i])
      ensures ApplyField(next, prompts[i], answers[i]).Ok? ==>
        ApplyField(next, prompts[i], answers[i]).value[prompts[i].key] ==
        ApplyField(config, prompts[i], answers[i]).value[prompts[i].key]
    {
      FieldIsLocal(next, config, prompts[i], answers[i]);
    }
  }

  /** The prompt table asks for default keys only, each once. */
  lemma PromptsCoverDefaults(config: Settings)
    requires DefaultConfig.Keys <= config.Keys
    ensures DistinctKeys(Prompts)
    ensures forall i :: 0 <= i < |Prompts| ==> Prompts[i].key in config
  {
    PromptsDistinct();
    PromptsAreDefaults();
  }

  /** Keys of equal length differ at their first, fourth or sixth character. */
  lemma PromptsDistinct()
    ensures DistinctKeys(Prompts)
  {
    forall i, j | 0 <= i < j < |Prompts|
      ensures Prompts[i].key != Prompts[j].key
    {
      var a, b := Prompts[i].key, Prompts[j].key;
      if |a| == |b| {
        assert a[3] != b[3] || a[5] != b[5] || a[0] != b[0];
      }
    }
  }

  /** Every prompted key is a default key. */
  lemma PromptsAreDefaults()
    ensures forall i :: 0 <= i < |Prompts| ==> Prompts[i].key in DefaultConfig
  {
  }

  /** Every default key is present. */
  predicate HasDefaults(c: Settings)
  {
    DefaultConfig.Keys <= c.Keys
  }

  /**
   * `configure`: load the settings, apply the fourteen prompts, and return
   * what `save_config` then writes. It succeeds exactly when the file parses
   * and every prompt gets an answer its line accepts; each prompted setting
   * is then what its own line makes of the loaded value, every other setting
   * is kept, every default key is present, and every numeric setting holds a
   * number of the kind the program compares and sleeps with.
   */
  function Configure(file: ConfigFile, answers: seq<string>): (r: Result<Settings, ConfigureError>)
    ensures file.Malformed? ==> r == Err(LoadFailed(ParseError))
    ensures Loaded(file).Ok? ==> (r.Ok? <==> Accepts(Loaded(file).value, Prompts, answers))
    ensures |answers| < |Prompts| && !file.Malformed? ==> r.Err?
    ensures r.Ok? ==> Loaded(file).Ok? && SetBy(Loaded(file).value, Prompts, answers, r.value)
    ensures r.Ok? ==> HasDefaults(r.value) && NumericKinds(r.value)
  {
    match Loaded(file)
    case Err(e) => Err(LoadFailed(e))
    case Ok(config) => Prompted(config, answers)
  }

  /** The fourteen prompts applied to loaded settings. */
  function Prompted(config: Settings, answers: seq<string>): (r: Result<Settings, ConfigureError>)
    requires HasDefaults(config)
    ensures r.Ok? <==> Accepts(config, Prompts, answers)
    ensures r.Ok? ==> SetBy(config, Prompts, answers, r.value)
    ensures r.Ok? ==> HasDefaults(r.value) && NumericKinds(r.value)
  {
    PromptsCoverDefaults(config);
    ConfiguredKinds(config, answers);
    ApplyAllSets(config, Prompts, answers);
    ApplyAll(config, Prompts, answers)
  }

  /**
   * `configure` on a loaded file fails with the error of its first failing
   * prompt, and with no other.
   */
  lemma ConfigureStopsAtFirstFailure(file: ConfigFile, answers: seq<string>)
    ensures Loaded(file).Ok? && Configure(file, answers).Err? ==>
      exists i :: FirstFailureAt(Loaded(file).value, Prompts, answers, i, Configure(file, answers).error)
    ensures Loaded(file).Ok? ==> forall i, e :: FirstFailureAt(Loaded(file).value, Prompts, answers, i, e) ==>
      Configure(file, answers) == Err(e)
  {
    if Loaded(file).Ok? {
      var config := Loaded(file).value;
      PromptsCoverDefaults(config);
      ApplyAllRejects(config, Prompts, answers);
      assert Configure(file, answers) == ApplyAll(config, Prompts, answers);
    }
  }

  /**
   * Whatever config.cfg held, four blank answers and then `abc` for the
   * period make `int` raise at the period's line, although the answers run
   * out before the SMTP port is asked for.
   */
  lemma RejectedPeriodComesFirst(file: ConfigFile)
    ensures !file.Malformed? ==> Configure(file, ["", "", "", "", "abc"]) == Err(ValueError("frequency"))
  {
    if !file.Malformed? {
      PeriodFailsFirst(Loaded(file).value);
      ConfigureStopsAtFirstFailure(file, ["", "", "", "", "abc"]);
    }
  }

  /** The first four lines keep their settings on a blank answer; the fifth rejects `abc`. */
  lemma PeriodFailsFirst(config: Settings)
    requires HasDefaults(config)
    ensures FirstFailureAt(config, Prompts, ["", "", "", "", "abc"], 4, ValueError("frequency"))
  {
    var answers := ["", "", "", "", "abc"];
    PromptsCoverDefaults(config);
    PeriodRejectsLetters(config);
    PeriodIsFifth();
    forall j | 0 <= j < 4
      ensures ApplyField(config, Prompts[j], answers[j]).Ok?
    {
      assert answers[j] == "";
    }
  }

  /** The database settings are asked for as text before the period is asked for as an integer. */
  lemma PeriodIsFifth()
    ensures forall j :: 0 <= j < 4 ==> Prompts[j].kind == Text
    ensures Prompts[4] == Prompt("frequency", Integer)
  {
  }

  /** `int("abc")` raises at the period's line. */
  lemma PeriodRejectsLetters(config: Settings)
    requires "frequency" in config
    ensures ApplyField(config, Prompt("frequency", Integer), "abc") == Err(ValueError("frequency"))
  {
    assert "abc"[0] == 'a' && "abc"[1..][0] == 'b';
  }

  /** Blank answers to prompts whose settings already have their kinds change nothing. */
  lemma {:induction false} BlankAnswersKeep(config: Settings, prompts: seq<Prompt>, blanks: seq<string>)
    requires forall i :: 0 <= i < |prompts| ==> prompts[i].key in config
    requires forall i :: 0 <= i < |prompts| ==> HasKind(config[prompts[i].key], prompts[i].kind)
    requires DistinctKeys(prompts)
    requires |blanks| >= |prompts| && forall i :: 0 <= i < |blanks| ==> blanks[i] == ""
    ensures ApplyAll(config, prompts, blanks) == Ok(config)
    decreases prompts
  {
    if prompts != [] {
      assert ApplyField(config, prompts[0], blanks[0]) == Ok(config);
      BlankAnswersKeep(config, prompts[1..], blanks[1..]);
    }
  }

  /**
   * Running `configure` again and pressing Enter at every prompt saves the
   * same settings again: what `configure` writes is a fixed point of the
   * load, `input or current`, convert and save sequence.
   */
  lemma ReconfigureWithBlanks(file: ConfigFile, answers: seq<string>, blanks: seq<string>)
    requires Configure(file, answers).Ok?
    requires |blanks| >= |Prompts| && forall i :: 0 <= i < |blanks| ==> blanks[i] == ""
    ensures Configure(Object(Configure(file, answers).value), blanks) == Configure(file, answers)
  {
    var c := Configure(file, answers).value;
    var loaded := Loaded(file).value;
    PromptsCoverDefaults(loaded);
    SetKeepsKinds(loaded, Prompts, answers, c);
    LoadSavedIsIdentity(c);
    PromptsCoverDefaults(c);
    BlankAnswersKeep(c, Prompts, blanks);
    assert Prompted(c, blanks) == Ok(c);
  }

  /** What accepted answers set has each prompt's kind. */
  lemma SetKeepsKinds(before: Settings, prompts: seq<Prompt>, answers: seq<string>, after: Settings)
    requires SetBy(before, prompts, answers, after)
    ensures forall i :: 0 <= i < |prompts| ==> prompts[i].key in after && HasKind(after[prompts[i].key], prompts[i].kind)
  {
    forall i | 0 <= i < |prompts|
      ensures prompts[i].key in after && HasKind(after[prompts[i].key], prompts[i].kind)
    {
      assert after[prompts[i].key] == ApplyField(before, prompts[i], answers[i]).value[prompts[i].key];
    }
  }

  /** The period and the SMTP port are integers and the four thresholds are floats. */
  predicate NumericKinds(c: Settings)
  {
    && "frequency" in c && c["frequency"].Int?
    && "smtp_port" in c && c["smtp_port"].Int?
    && "temp_threshold_high" in c && c["temp_threshold_high"].Num?
    && "temp_threshold_low" in c && c["temp_threshold_low"].Num?
    && "humidity_threshold_high" in c && c["humidity_threshold_high"].Num?
    && "humidity_threshold_low" in c && c["humidity_threshold_low"].Num?
  }

  /** The numeric settings hold numbers of their kind once every prompt has been answered. */
  lemma ConfiguredKinds(config: Settings, answers: seq<string>)
    requires DistinctKeys(Prompts)
    requires forall i :: 0 <= i < |Prompts| ==> Prompts[i].key in config
    ensures ApplyAll(config, Prompts, answers).Ok? ==> NumericKinds(ApplyAll(config, Prompts, answers).value)
  {
    ApplyAllSets(config, Prompts, answers);
    if ApplyAll(config, Prompts, answers).Ok? {
      var c := ApplyAll(config, Prompts, answers).value;
      SetKeepsKinds(config, Prompts, answers, c);
      KindsOfPrompts(c);
    }
  }

  /** Settings in which every prompted setting has its prompt's kind hold numbers where the program needs them. */
  lemma KindsOfPrompts(c: Settings)
    requires forall i :: 0 <= i < |Prompts| ==> Prompts[i].key in c && HasKind(c[Prompts[i].key], Prompts[i].kind)
    ensures NumericKinds(c)
  {
    assert Prompts[4] == Prompt("frequency", Integer);
    assert Prompts[6] == Prompt("smtp_port", Integer);
    assert Prompts[10] == Prompt("temp_threshold_high", Float);
    assert Prompts[11] == Prompt("temp_threshold_low", Float);
    assert Prompts[12] == Prompt("humidity_threshold_high", Float);
    assert Prompts[13] == Prompt("humidity_threshold_low", Float);
  }
}
