/** The smart-tip rule engine: a fixed table of rules, each with a priority, a
    condition on the printer snapshot and a message template, and the evaluation that
    returns the message of the highest-priority rule whose condition holds and whose
    message builds. The rendered text is not modelled; the result names the rule. */
module SmartTips {
  import opened Common

  // ---------------------------------------------------------------------------
  // Snapshot values and Python's evaluation of the rule lambdas.
  // ---------------------------------------------------------------------------

  /** A value of the printer snapshot. Python's `bool` is a subtype of `int`, so a
      boolean is the number 0 or 1 here; lists are left out. */
  datatype Value = Null | Num(n: real) | Str(s: string) | Dict(fields: map<string, Value>)

  type Snapshot = map<string, Value>

  /** The outcome of evaluating a Python expression: a value or a raised exception. */
  datatype Outcome<T> = Raise | Val(v: T)

  /** `p.get(k)` */
  function Get(p: Snapshot, k: string): Value {
    if k in p then p[k] else Null
  }

  /** `p.get(k, d)` */
  function GetOr(p: Snapshot, k: string, d: Value): Value {
    if k in p then p[k] else d
  }

  predicate StatusIs(p: Snapshot, status: string) {
    Get(p, "currentStatus") == Str(status)
  }

  /** `p.get("job_details", {}).get(k, 0)`: the second `.get` raises unless the first
      gave a dictionary. */
  function Detail(p: Snapshot, k: string): (r: Outcome<Value>)
    ensures r.Raise? <==> "job_details" in p && !p["job_details"].Dict?
    ensures r.Val? && "job_details" in p && k in p["job_details"].fields ==> r.v == p["job_details"].fields[k]
    ensures r.Val? && ("job_details" !in p || k !in p["job_details"].fields) ==> r.v == Num(0.0)
  {
    match GetOr(p, "job_details", Dict(map[]))
    case Dict(m) => Val(if k in m then m[k] else Num(0.0))
    case _ => Raise
  }

  datatype Cmp = Lt | Le | Gt | Ge

  /** An ordering comparison with a number: anything but a number on the left raises
      `TypeError`. */
  function Compare(a: Outcome<Value>, op: Cmp, c: real): (r: Outcome<bool>)
    ensures r.Val? <==> a.Val? && a.v.Num?
  {
    match a
    case Val(Num(n)) =>
      Val(match op
          case Lt => n < c
          case Le => n <= c
          case Gt => n > c
          case Ge => n >= c)
    case _ => Raise
  }

  /** `==` never raises. */
  function Equals(a: Outcome<Value>, c: real): (r: Outcome<bool>)
    ensures r.Val? <==> a.Val?
  {
    match a
    case Raise => Raise
    case Val(v) => Val(v == Num(c))
  }

  /** `a * b`; once the comparison after it is taken into account, any operand that
      is not a number ends in a `TypeError`. */
  function Mul(a: Outcome<Value>, b: Outcome<Value>): (r: Outcome<Value>)
    ensures r.Val? ==> r.v.Num?
  {
    if a.Val? && a.v.Num? && b.Val? && b.v.Num? then Val(Num(a.v.n * b.v.n)) else Raise
  }

  /** `v in [..]` over a list of strings never raises. */
  predicate OneOf(v: Value, options: seq<string>) {
    v.Str? && v.s in options
  }

  /** Python truthiness. */
  predicate Truthy(v: Value) {
    match v
    case Null => false
    case Num(n) => n != 0.0
    case Str(s) => s != []
    case Dict(m) => m != map[]
  }

  /** Python's short-circuit `a and b`. */
  function And(a: Outcome<bool>, b: Outcome<bool>): (r: Outcome<bool>)
    ensures r == Val(true) <==> a == Val(true) && b == Val(true)
    ensures a == Val(false) ==> r == Val(false)
  {
    match a
    case Raise => Raise
    case Val(x) => if x then b else Val(false)
  }

  /** `p[k]` inside a message: the key must be present. */
  predicate Has(p: Snapshot, k: string) {
    k in p
  }

  /** `p['job_details'][k]` inside a message. */
  predicate HasDetail(p: Snapshot, k: string) {
    "job_details" in p && p["job_details"].Dict? && k in p["job_details"].fields
  }

  /** `p.get(k, d)` formatted with a `:.Nf` spec: absent, or a number. */
  predicate NumOrAbsent(p: Snapshot, k: string) {
    k !in p || p[k].Num?
  }

  // ---------------------------------------------------------------------------
  // The rule table.
  // ---------------------------------------------------------------------------

  datatype RuleId =
    | PrinterOffline | PrinterError
    | HighInfillOptimization | ExcessiveInfillWarning | LowInfillStrengthWarning
    | OptimalLayerHeightDetected | FineLayerTimeWarning | LargePartWarpingRisk
    | SmallPartBatchSuggestion | DimensionAccuracyTip
    | MaterialTemperatureOptimization | PlaEnergyEfficientChoice | HighEnergyConsumptionAlert
    | IdleHighConsumption | EfficientMaterialUsage
    | FirstLayerCritical | MidPrintProgress | NearCompletionPrep | HeatingPhaseInfo | CoolingPostPrint
    | IdleReadyAdvanced | GeneralPrintingSmart | DefaultIdle
    | DefaultOperational

  /** The rules in table order. */
  const Rules: seq<RuleId> := [
    PrinterOffline, PrinterError,
    HighInfillOptimization, ExcessiveInfillWarning, LowInfillStrengthWarning,
    OptimalLayerHeightDetected, FineLayerTimeWarning, LargePartWarpingRisk,
    SmallPartBatchSuggestion, DimensionAccuracyTip,
    MaterialTemperatureOptimization, PlaEnergyEfficientChoice, HighEnergyConsumptionAlert,
    IdleHighConsumption, EfficientMaterialUsage,
    FirstLayerCritical, MidPrintProgress, NearCompletionPrep, HeatingPhaseInfo, CoolingPostPrint,
    IdleReadyAdvanced, GeneralPrintingSmart, DefaultIdle,
    DefaultOperational]

  function Priority(id: RuleId): (n: nat)
    ensures 1 <= n <= 60
  {
    match id
    case PrinterOffline => 60
    case PrinterError => 55
    case HighInfillOptimization => 48
    case ExcessiveInfillWarning => 47
    case LowInfillStrengthWarning => 46
    case OptimalLayerHeightDetected => 45
    case FineLayerTimeWarning => 44
    case LargePartWarpingRisk => 43
    case SmallPartBatchSuggestion => 42
    case DimensionAccuracyTip => 41
    case MaterialTemperatureOptimization => 38
    case PlaEnergyEfficientChoice => 37
    case HighEnergyConsumptionAlert => 36
    case IdleHighConsumption => 35
    case EfficientMaterialUsage => 34
    case FirstLayerCritical => 28
    case MidPrintProgress => 25
    case NearCompletionPrep => 24
    case HeatingPhaseInfo => 22
    case CoolingPostPrint => 21
    case IdleReadyAdvanced => 15
    case GeneralPrintingSmart => 12
    case DefaultIdle => 5
    case DefaultOperational => 1
  }

  /** The status every rule but the last tests first. */
  function RequiredStatus(id: RuleId): Option<string> {
    match id
    case PrinterOffline => Some("Offline")
    case PrinterError => Some("Error")
    case IdleHighConsumption | IdleReadyAdvanced | DefaultIdle => Some("Idle")
    case HeatingPhaseInfo => Some("Heating")
    case CoolingPostPrint => Some("Cooling")
    case DefaultOperational => None
    case _ => Some("Printing")
  }

  /** The rule's `conditions` lambda. */
  function Condition(id: RuleId, p: Snapshot): Outcome<bool> {
    var printing := Val(StatusIs(p, "Printing"));
    var idle := Val(StatusIs(p, "Idle"));
    match id
    case PrinterOffline => Val(StatusIs(p, "Offline"))
    case PrinterError => Val(StatusIs(p, "Error"))
    case HighInfillOptimization =>
      And(printing, And(Compare(Detail(p, "infill_percent"), Ge, 35.0),
                        Compare(Detail(p, "dimensions_z"), Gt, 30.0)))
    case ExcessiveInfillWarning =>
      And(printing, And(Compare(Detail(p, "infill_percent"), Ge, 50.0),
                        Compare(Mul(Mul(Detail(p, "dimensions_x"), Detail(p, "dimensions_y")),
                                    Detail(p, "dimensions_z")), Gt, 50000.0)))
    case LowInfillStrengthWarning =>
      And(printing, And(Compare(Detail(p, "infill_percent"), Lt, 15.0),
                        And(Compare(Detail(p, "dimensions_z"), Gt, 50.0),
                            Val(OneOf(Get(p, "currentMaterial"), ["PLA", "PETG"])))))
    case OptimalLayerHeightDetected =>
      And(printing, And(Equals(Detail(p, "layer_height_mm"), 0.2),
                        And(Compare(Detail(p, "infill_percent"), Ge, 20.0),
                            Compare(Detail(p, "infill_percent"), Le, 30.0))))
    case FineLayerTimeWarning =>
      And(printing, And(Compare(Detail(p, "layer_height_mm"), Le, 0.12),
                        Compare(Detail(p, "total_layers"), Gt, 300.0)))
    case LargePartWarpingRisk =>
      And(printing, And(Compare(Mul(Detail(p, "dimensions_x"), Detail(p, "dimensions_y")), Gt, 15000.0),
                        And(Val(OneOf(Get(p, "currentMaterial"), ["ABS", "ASA", "PC"])),
                            Compare(Val(GetOr(p, "bedTempActual", Num(0.0))), Lt, 90.0))))
    case SmallPartBatchSuggestion =>
      And(printing, And(Compare(Detail(p, "dimensions_x"), Lt, 40.0),
                        And(Compare(Detail(p, "dimensions_y"), Lt, 40.0),
                            And(Compare(Detail(p, "dimensions_z"), Lt, 30.0),
                                Compare(Val(GetOr(p, "jobKwhConsumed", Num(0.0))), Lt, 0.05)))))
    case DimensionAccuracyTip =>
      And(printing, And(Compare(Detail(p, "dimensions_x"), Lt, 15.0),
                        And(Compare(Detail(p, "dimensions_y"), Lt, 15.0),
                            Compare(Detail(p, "layer_height_mm"), Gt, 0.2))))
    case MaterialTemperatureOptimization =>
      And(printing, And(Val(Get(p, "currentMaterial") == Str("PETG")),
                        Compare(Val(GetOr(p, "nozzleTempActual", Num(0.0))), Gt, 250.0)))
    case PlaEnergyEfficientChoice =>
      And(printing, And(Val(OneOf(Get(p, "currentMaterial"), ["ABS", "ASA", "PC", "Nylon"])),
                        Compare(Detail(p, "dimensions_z"), Lt, 50.0)))
    case HighEnergyConsumptionAlert =>
      And(printing, And(Compare(Val(GetOr(p, "jobKwhConsumed", Num(0.0))), Gt, 0.3),
                        Compare(Val(GetOr(p, "jobProgressPercent", Num(0.0))), Lt, 70.0)))
    case IdleHighConsumption =>
      And(idle, Compare(Val(GetOr(p, "kwhLast24h", Num(0.0))), Gt, 0.8))
    case EfficientMaterialUsage =>
      And(printing, And(Compare(Detail(p, "infill_percent"), Le, 20.0),
                        Compare(Detail(p, "total_layers"), Gt, 150.0)))
    case FirstLayerCritical =>
      var progress := Val(GetOr(p, "jobProgressPercent", Num(0.0)));
      And(printing, And(And(Compare(progress, Gt, 0.0), Compare(progress, Lt, 5.0)),
                        Compare(Detail(p, "current_layer"), Le, 3.0)))
    case MidPrintProgress =>
      var progress := Val(GetOr(p, "jobProgressPercent", Num(0.0)));
      And(printing, And(And(Compare(progress, Gt, 30.0), Compare(progress, Lt, 70.0)),
                        Compare(Val(GetOr(p, "jobTimeLeftSeconds", Num(0.0))), Gt, 0.0)))
    case NearCompletionPrep =>
      And(printing, Compare(Val(GetOr(p, "jobProgressPercent", Num(0.0))), Gt, 92.0))
    case HeatingPhaseInfo => Val(StatusIs(p, "Heating"))
    case CoolingPostPrint => Val(StatusIs(p, "Cooling"))
    case IdleReadyAdvanced =>
      And(idle, Compare(Val(GetOr(p, "lastJobKwh", Num(0.0))), Gt, 0.0))
    case GeneralPrintingSmart => And(printing, Val(Truthy(Get(p, "jobFilename"))))
    case DefaultIdle => idle
    case DefaultOperational => Val(true)
  }

  /** Does the rule's message build without raising? A `str.format` template raises
      `KeyError` for a missing placeholder key; an f-string raises on a missing
      subscript, on a `:.Nf` spec applied to a non-number and on a division by zero. */
  predicate Builds(id: RuleId, p: Snapshot) {
    match id
    case PrinterOffline => Has(p, "friendlyName")
    case PrinterError => Has(p, "friendlyName")
    case HighInfillOptimization => HasDetail(p, "infill_percent") && HasDetail(p, "dimensions_z")
    case ExcessiveInfillWarning =>
      HasDetail(p, "infill_percent") && HasDetail(p, "dimensions_x") && HasDetail(p, "dimensions_y") &&
      HasDetail(p, "dimensions_z") && p["job_details"].fields["dimensions_x"].Num? &&
      p["job_details"].fields["dimensions_y"].Num? && p["job_details"].fields["dimensions_z"].Num?
    case LowInfillStrengthWarning => HasDetail(p, "infill_percent") && HasDetail(p, "dimensions_z")
    case OptimalLayerHeightDetected => HasDetail(p, "infill_percent")
    case FineLayerTimeWarning => HasDetail(p, "layer_height_mm") && HasDetail(p, "total_layers")
    case LargePartWarpingRisk =>
      Has(p, "currentMaterial") && HasDetail(p, "dimensions_x") && HasDetail(p, "dimensions_y")
    case SmallPartBatchSuggestion =>
      HasDetail(p, "dimensions_x") && HasDetail(p, "dimensions_y") && HasDetail(p, "dimensions_z") &&
      NumOrAbsent(p, "jobKwhConsumed")
    case DimensionAccuracyTip =>
      HasDetail(p, "dimensions_x") && HasDetail(p, "dimensions_y") && HasDetail(p, "layer_height_mm")
    case MaterialTemperatureOptimization => true
    case PlaEnergyEfficientChoice => Has(p, "currentMaterial")
    case HighEnergyConsumptionAlert =>
      NumOrAbsent(p, "jobKwhConsumed") && NumOrAbsent(p, "jobProgressPercent") &&
      GetOr(p, "jobProgressPercent", Num(1.0)) != Num(0.0)
    case IdleHighConsumption => Has(p, "friendlyName") && Has(p, "kwhLast24h") && p["kwhLast24h"].Num?
    case EfficientMaterialUsage => HasDetail(p, "infill_percent") && HasDetail(p, "total_layers")
    case FirstLayerCritical => "job_details" in p && p["job_details"].Dict?
    case MidPrintProgress =>
      NumOrAbsent(p, "jobProgressPercent") && NumOrAbsent(p, "jobTimeLeftSeconds") &&
      ("job_details" !in p || p["job_details"].Dict?)
    case NearCompletionPrep => NumOrAbsent(p, "jobProgressPercent")
    case HeatingPhaseInfo => Has(p, "friendlyName")
    case CoolingPostPrint => true
    case IdleReadyAdvanced =>
      Has(p, "friendlyName") && NumOrAbsent(p, "lastJobKwh") && NumOrAbsent(p, "lastJobFilamentGrams")
    case GeneralPrintingSmart => NumOrAbsent(p, "jobKwhConsumed")
    case DefaultIdle => true
    case DefaultOperational => true
  }

  /** The rule takes part in the choice: its condition is true and its message builds;
      a rule that raises in either step is skipped. */
  predicate Applicable(id: RuleId, p: Snapshot) {
    Condition(id, p) == Val(true) && Builds(id, p)
  }

  // ---------------------------------------------------------------------------
  // The choice.
  // ---------------------------------------------------------------------------

  datatype Tip = RuleTip(id: RuleId) | Fallback

  /** The rules that apply to the snapshot (`InApplicableSet`: all of them). */
  function ApplicableSet(p: Snapshot): (r: set<RuleId>)
    ensures r <= set id | id in Rules
  {
    set id | id in Rules && Applicable(id, p)
  }

  /** The first rule of the list that is in `ok`. */
  function FirstIn(rules: seq<RuleId>, ok: set<RuleId>): (r: Option<RuleId>)
    ensures r.Some? ==> r.value in rules && r.value in ok
    ensures r.None? <==> forall i :: 0 <= i < |rules| ==> rules[i] !in ok
    decreases |rules|
  {
    if rules == [] then None
    else if rules[0] in ok then Some(rules[0])
    else FirstIn(rules[1..], ok)
  }

  /** The first applicable rule in table order. */
  function ChosenTip(p: Snapshot): Tip {
    match FirstIn(Rules, ApplicableSet(p))
    case Some(id) => RuleTip(id)
    case None => Fallback
  }

  /** The `applicable_tips` list of (priority, rule) entries, in list order. */
  function Collected(rules: seq<RuleId>, ok: set<RuleId>): (r: seq<(int, RuleId)>)
    ensures forall i :: 0 <= i < |r| ==> r[i].0 == Priority(r[i].1) && r[i].1 in ok && r[i].1 in rules
    decreases |rules|
  {
    if rules == [] then []
    else
      var prev := Collected(rules[..|rules| - 1], ok);
      var last := rules[|rules| - 1];
      if last in ok then prev + [(Priority(last), last)] else prev
  }

  /** Priorities strictly decrease along the list. */
  predicate Descending(rules: seq<RuleId>) {
    forall i :: 0 <= i < |rules| - 1 ==> Priority(rules[i]) > Priority(rules[i + 1])
  }

  method EvaluateSmartTips(p: Snapshot) returns (r: Tip)
    ensures r == ChosenTip(p)
    ensures r.Fallback? <==> ApplicableSet(p) == {}
    ensures r.RuleTip? ==>
              (r.id in ApplicableSet(p) && forall id :: id in ApplicableSet(p) ==> Priority(id) <= Priority(r.id))
  {
    var applicable := CollectApplicable(p);
    ChosenIsHighest(p);
    ChosenFromCollected(p);
    if applicable == [] {
      return Fallback;
    }
    // A stable sort by priority, highest first, then the head of the list: the first
    // entry of greatest priority.
    var best := 0;
    for j := 1 to |applicable|
      invariant 0 <= best < j
      invariant forall i :: 0 <= i < j ==> applicable[i].0 <= applicable[best].0
      invariant forall i :: 0 <= i < best ==> applicable[i].0 < applicable[best].0
    {
      if applicable[j].0 > applicable[best].0 {
        best := j;
      }
    }
    assert best == 0;
    r := RuleTip(applicable[best].1);
  }

  /** What the evaluation reads off the collected list: empty exactly when no rule
      applies, descending by priority, headed by the chosen rule. */
  lemma ChosenFromCollected(p: Snapshot)
    ensures var c := Collected(Rules, ApplicableSet(p));
            (c == [] <==> ApplicableSet(p) == {}) &&
            (forall i, j :: 0 <= i < j < |c| ==> c[i].0 > c[j].0) &&
            ChosenTip(p) == if c == [] then Fallback else RuleTip(c[0].1)
  {
    var ok := ApplicableSet(p);
    RulesDescending();
    CollectedDescending(Rules, ok);
    CollectedIsFirstIn(Rules, ok);
    if Collected(Rules, ok) == [] {
      forall id | id in ok ensures false { EveryRuleListed(id); }
    }
  }

  /** The loop over the table: each rule whose condition holds and whose message
      builds is appended with its priority. */
  method CollectApplicable(p: Snapshot) returns (applicable: seq<(int, RuleId)>)
    ensures applicable == Collected(Rules, ApplicableSet(p))
  {
    ghost var ok := ApplicableSet(p);
    applicable := [];
    for k := 0 to |Rules|
      invariant applicable == Collected(Rules[..k], ok)
    {
      assert Rules[..k + 1][..k] == Rules[..k];
      var rule := Rules[k];
      var applies := TryRule(rule, p);
      if applies {
        applicable := applicable + [(Priority(rule), rule)];
      }
    }
    assert Rules[..|Rules|] == Rules;
  }

  /** One turn of the loop: evaluate the condition, then build the message; an
      exception in either skips the rule. */
  method TryRule(rule: RuleId, p: Snapshot) returns (applies: bool)
    ensures applies <==> rule in ApplicableSet(p)
  {
    var holds := Condition(rule, p);
    applies := holds == Val(true) && Builds(rule, p);
    InApplicableSet(p, rule);
  }

  // ---------------------------------------------------------------------------
  // Lemmas.
  // ---------------------------------------------------------------------------

  /** The table lists priorities 60, 55, 48, ..., 5, 1: strictly decreasing. */
  lemma RulesDescending()
    ensures |Rules| == 24 && Descending(Rules)
  {
  }

  /** Every rule is in the table. */
  lemma EveryRuleListed(id: RuleId)
    ensures id in Rules
  {
  }

  /** Adjacent decrease gives decrease between any two positions, so no two rules
      share a priority. */
  lemma {:induction false} DescendingPairs(rules: seq<RuleId>, i: int, j: int)
    requires Descending(rules) && 0 <= i < j < |rules|
    ensures Priority(rules[i]) > Priority(rules[j])
    decreases j - i
  {
    if j > i + 1 {
      DescendingPairs(rules, i + 1, j);
    }
  }

  lemma PriorityInjective(a: RuleId, b: RuleId)
    requires Priority(a) == Priority(b)
    ensures a == b
  {
    EveryRuleListed(a);
    EveryRuleListed(b);
    RulesDescending();
    var i :| 0 <= i < |Rules| && Rules[i] == a;
    var j :| 0 <= j < |Rules| && Rules[j] == b;
    if i < j {
      DescendingPairs(Rules, i, j);
    } else if j < i {
      DescendingPairs(Rules, j, i);
    }
  }

  /** The list of entries is empty exactly when no rule of the list is in `ok`, and its
      head is the first rule that is. */
  lemma {:induction false} CollectedIsFirstIn(rules: seq<RuleId>, ok: set<RuleId>)
    ensures Collected(rules, ok) == [] <==> FirstIn(rules, ok).None?
    ensures Collected(rules, ok) != [] ==> Collected(rules, ok)[0].1 == FirstIn(rules, ok).value
    decreases |rules|
  {
    if rules != [] {
      var init := rules[..|rules| - 1];
      var last := rules[|rules| - 1];
      CollectedIsFirstIn(init, ok);
      FirstInAppend(init, last, ok);
      assert rules == init + [last];
    }
  }

  lemma {:induction false} FirstInAppend(rules: seq<RuleId>, x: RuleId, ok: set<RuleId>)
    ensures FirstIn(rules + [x], ok) ==
              if FirstIn(rules, ok).Some? then FirstIn(rules, ok)
              else if x in ok then Some(x) else None
    decreases |rules|
  {
    if rules == [] {
      assert [x][1..] == [];
    } else {
      assert (rules + [x])[1..] == rules[1..] + [x];
      FirstInAppend(rules[1..], x, ok);
    }
  }

  /** The entries collected from a descending list are themselves descending. */
  lemma {:induction false} CollectedDescending(rules: seq<RuleId>, ok: set<RuleId>)
    requires Descending(rules)
    ensures forall i, j :: 0 <= i < j < |Collected(rules, ok)| ==>
              Collected(rules, ok)[i].0 > Collected(rules, ok)[j].0
    decreases |rules|
  {
    if rules != [] {
      var init := rules[..|rules| - 1];
      var last := rules[|rules| - 1];
      assert Descending(init);
      CollectedDescending(init, ok);
      var prev := Collected(init, ok);
      forall i | 0 <= i < |prev|
        ensures prev[i].0 > Priority(last)
      {
        var k :| 0 <= k < |init| && init[k] == prev[i].1;
        DescendingPairs(rules, k, |rules| - 1);
      }
    }
  }

  /** In a descending list, the first rule in `ok` outranks every other rule of the
      list that is in `ok`. */
  lemma {:induction false} FirstInIsHighest(rules: seq<RuleId>, ok: set<RuleId>, id: RuleId)
    requires Descending(rules) && id in rules && id in ok
    ensures FirstIn(rules, ok).Some?
    ensures Priority(id) <= Priority(FirstIn(rules, ok).value)
    decreases |rules|
  {
    if rules[0] != id && rules[0] !in ok {
      assert Descending(rules[1..]);
      FirstInIsHighest(rules[1..], ok, id);
    } else if rules[0] != id {
      var k :| 0 <= k < |rules| && rules[k] == id;
      DescendingPairs(rules, 0, k);
    }
  }

  lemma InApplicableSet(p: Snapshot, id: RuleId)
    ensures id in ApplicableSet(p) <==> Applicable(id, p)
  {
    EveryRuleListed(id);
  }

  /** The chosen rule applies and no applicable rule has a higher priority. */
  lemma ChosenIsHighest(p: Snapshot)
    ensures ChosenTip(p).RuleTip? ==>
              (ChosenTip(p).id in ApplicableSet(p) &&
               forall id :: id in ApplicableSet(p) ==> Priority(id) <= Priority(ChosenTip(p).id))
  {
    RulesDescending();
    var ok := ApplicableSet(p);
    forall id | id in ok
      ensures Priority(id) <= Priority(FirstIn(Rules, ok).value)
    {
      FirstInIsHighest(Rules, ok, id);
    }
  }

  /** A rule that applies and outranks every other applicable rule is the one chosen. */
  lemma ChosenWhenHighest(p: Snapshot, x: RuleId)
    requires Applicable(x, p)
    requires forall id :: Applicable(id, p) ==> Priority(id) <= Priority(x)
    ensures ChosenTip(p) == RuleTip(x)
  {
    InApplicableSet(p, x);
    ChosenIsHighest(p);
    var c := ChosenTip(p).id;
    InApplicableSet(p, c);
    PriorityInjective(c, x);
  }

  /** DEFAULT_OPERATIONAL always applies, so the fallback text is never returned. */
  lemma FallbackNeverReturned(p: Snapshot)
    ensures Applicable(DefaultOperational, p)
    ensures ChosenTip(p) != Fallback
  {
    InApplicableSet(p, DefaultOperational);
  }

  /** Every rule but DEFAULT_OPERATIONAL first tests the status. */
  lemma StatusGuard(id: RuleId, p: Snapshot)
    requires RequiredStatus(id).Some? && !StatusIs(p, RequiredStatus(id).value)
    ensures Condition(id, p) == Val(false)
    ensures !Applicable(id, p)
  {
  }

  /** Offline with a name: the offline alert. */
  lemma OfflineWithName(p: Snapshot)
    requires StatusIs(p, "Offline") && "friendlyName" in p
    ensures ChosenTip(p) == RuleTip(PrinterOffline)
  {
    forall id | Applicable(id, p)
      ensures Priority(id) <= Priority(PrinterOffline)
    {
    }
    ChosenWhenHighest(p, PrinterOffline);
  }

  /** Offline without a name: the offline template raises `KeyError`, and the
      maintenance reminder is what remains. */
  lemma OfflineWithoutName(p: Snapshot)
    requires StatusIs(p, "Offline") && "friendlyName" !in p
    ensures !Applicable(PrinterOffline, p)
    ensures ChosenTip(p) == RuleTip(DefaultOperational)
  {
    forall id | Applicable(id, p)
      ensures Priority(id) <= Priority(DefaultOperational)
    {
      if id != DefaultOperational {
        StatusGuard(id, p);
      }
    }
    ChosenWhenHighest(p, DefaultOperational);
  }

  /** Cooling: only the cooling tip and the fallback rule can apply. */
  lemma CoolingChoosesCoolingTip(p: Snapshot)
    requires StatusIs(p, "Cooling")
    ensures ChosenTip(p) == RuleTip(CoolingPostPrint)
  {
    forall id | Applicable(id, p)
      ensures Priority(id) <= Priority(CoolingPostPrint)
    {
      if id != CoolingPostPrint && id != DefaultOperational {
        StatusGuard(id, p);
      }
    }
    ChosenWhenHighest(p, CoolingPostPrint);
  }

  /** Only the four idle-status rules and the catch-all can apply to an idle printer. */
  lemma IdleCandidates(p: Snapshot)
    requires StatusIs(p, "Idle")
    ensures forall id :: Applicable(id, p) ==>
              id in {IdleHighConsumption, IdleReadyAdvanced, DefaultIdle, DefaultOperational}
  {
    forall id | Applicable(id, p)
      ensures id in {IdleHighConsumption, IdleReadyAdvanced, DefaultIdle, DefaultOperational}
    {
      if id !in {IdleHighConsumption, IdleReadyAdvanced, DefaultIdle, DefaultOperational} {
        StatusGuard(id, p);
      }
    }
  }

  /** Idle: high idle consumption over a finished last job over the plain idle tip. */
  lemma IdleOrder(p: Snapshot)
    requires StatusIs(p, "Idle")
    ensures ChosenTip(p) ==
              if Applicable(IdleHighConsumption, p) then RuleTip(IdleHighConsumption)
              else if Applicable(IdleReadyAdvanced, p) then RuleTip(IdleReadyAdvanced)
              else RuleTip(DefaultIdle)
  {
    if Applicable(IdleHighConsumption, p) {
      IdleHighWins(p);
    } else if Applicable(IdleReadyAdvanced, p) {
      IdleReadyWins(p);
    } else {
      IdleDefaultWins(p);
    }
  }

  lemma IdleHighWins(p: Snapshot)
    requires StatusIs(p, "Idle") && Applicable(IdleHighConsumption, p)
    ensures ChosenTip(p) == RuleTip(IdleHighConsumption)
  {
    IdleCandidates(p);
    ChosenWhenHighest(p, IdleHighConsumption);
  }

  lemma IdleReadyWins(p: Snapshot)
    requires StatusIs(p, "Idle") && !Applicable(IdleHighConsumption, p) && Applicable(IdleReadyAdvanced, p)
    ensures ChosenTip(p) == RuleTip(IdleReadyAdvanced)
  {
    IdleCandidates(p);
    ChosenWhenHighest(p, IdleReadyAdvanced);
  }

  lemma IdleDefaultWins(p: Snapshot)
    requires StatusIs(p, "Idle") && !Applicable(IdleHighConsumption, p) && !Applicable(IdleReadyAdvanced, p)
    ensures ChosenTip(p) == RuleTip(DefaultIdle)
  {
    IdleCandidates(p);
    ChosenWhenHighest(p, DefaultIdle);
  }

  /** A job at 0% progress can meet the energy alert's condition. */
  lemma HighEnergyConditionAtZeroProgress(p: Snapshot)
    requires StatusIs(p, "Printing") && "jobKwhConsumed" in p && p["jobKwhConsumed"].Num? && p["jobKwhConsumed"].n > 0.3
    requires "jobProgressPercent" in p && p["jobProgressPercent"] == Num(0.0)
    ensures Condition(HighEnergyConsumptionAlert, p) == Val(true)
  {
  }

  /** At 0% progress the energy alert's message divides by the progress and raises,
      so the rule is skipped. */
  lemma HighEnergySkippedAtZeroProgress(p: Snapshot)
    requires "jobProgressPercent" in p && p["jobProgressPercent"] == Num(0.0)
    ensures !Applicable(HighEnergyConsumptionAlert, p)
    ensures ChosenTip(p) != RuleTip(HighEnergyConsumptionAlert)
  {
    assert !Builds(HighEnergyConsumptionAlert, p);
    NotApplicableNeverChosen(p, HighEnergyConsumptionAlert);
  }

  /** A rule that does not apply is never chosen. */
  lemma NotApplicableNeverChosen(p: Snapshot, id: RuleId)
    requires !Applicable(id, p)
    ensures ChosenTip(p) != RuleTip(id)
  {
    InApplicableSet(p, id);
    ChosenIsHighest(p);
  }

  /** A rule whose condition raises is never chosen. */
  lemma RaisingRuleSkipped(p: Snapshot, id: RuleId)
    requires Condition(id, p) == Raise
    ensures ChosenTip(p) != RuleTip(id)
  {
    NotApplicableNeverChosen(p, id);
  }
}
