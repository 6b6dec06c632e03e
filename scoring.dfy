/**
 * The back end's `/predict` rules: the request body check that `StudentData`
 * performs, the prediction-index-to-label map, the six threshold rules that
 * build the ordered factor list, and the `", "`-joined factor text that is
 * saved with the record. The classifier's output is a parameter.
 */
module Scoring {
  import opened Wrappers
  import opened Text
  import Monitoring

  /** The twenty integer fields `StudentData` declares, in declaration order. */
  const StudentDataFields: seq<string> := [
    "anxiety_level", "self_esteem", "mental_health_history", "depression", "headache",
    "blood_pressure", "sleep_quality", "breathing_problem", "noise_level", "living_conditions",
    "safety", "basic_needs", "academic_performance", "study_load", "teacher_student_relationship",
    "future_career_concerns", "social_support", "peer_pressure", "extracurricular_activities", "bullying"
  ]

  /** A JSON request body: field name to integer. */
  type Body = map<string, int>

  /** The body carries every declared field, so request validation lets it through. */
  predicate Validated(body: Body)
  {
    forall i :: 0 <= i < |StudentDataFields| ==> StudentDataFields[i] in body
  }

  /** A validated body has every field a rule reads. */
  lemma RulesApplicable(body: Body)
    requires Validated(body)
    ensures forall k :: 0 <= k < |Rules| ==> Rules[k].field in body
    ensures "anxiety_level" in body && "sleep_quality" in body && "study_load" in body
    ensures "depression" in body && "social_support" in body && "bullying" in body
  {
    assert StudentDataFields[0] == Rules[0].field && StudentDataFields[6] == Rules[1].field;
    assert StudentDataFields[13] == Rules[2].field && StudentDataFields[3] == Rules[3].field;
    assert StudentDataFields[16] == Rules[4].field && StudentDataFields[19] == Rules[5].field;
  }

  /** `data.dict()`: the declared fields only; any other key of the body is dropped. */
  function Declared(body: Body): (d: Body)
    requires Validated(body)
    ensures d.Keys == set f | f in StudentDataFields
    ensures forall k :: k in d ==> d[k] == body[k]
  {
    map k | k in body && k in StudentDataFields :: body[k]
  }

  // ---------------------------------------------------------------------------
  // Labels

  const Unknown := "Unknown"

  const LabelMap: map<int, string> := map[0 := "Low Stress", 1 := "Medium Stress", 2 := "High Stress"]

  /** `labels.get(prediction, "Unknown")`. */
  function LabelFor(prediction: int): string
  {
    if prediction in LabelMap then LabelMap[prediction] else Unknown
  }

  /**
   * Predictions 0, 1 and 2 get the dashboard's three labels, in that order;
   * every other prediction gets "Unknown", a label the dashboard does not chart.
   */
  lemma LabelForCases(prediction: int)
    ensures prediction == 0 <==> LabelFor(prediction) == Monitoring.LowStress
    ensures prediction == 1 <==> LabelFor(prediction) == Monitoring.MediumStress
    ensures prediction == 2 <==> LabelFor(prediction) == Monitoring.HighStress
    ensures !(0 <= prediction <= 2) <==> LabelFor(prediction) == Unknown
    ensures Monitoring.KnownLabel(LabelFor(prediction)) <==> 0 <= prediction <= 2
  {
  }

  // ---------------------------------------------------------------------------
  // Factor rules

  datatype Comparison = Above | Below

  /** "`field` above (or below) `threshold` contributes `factor`". */
  datatype Rule = Rule(field: string, cmp: Comparison, threshold: int, factor: string)

  /** The six rules, in the order they are checked. */
  const Rules: seq<Rule> := [
    Rule("anxiety_level", Above, 10, "High Anxiety"),
    Rule("sleep_quality", Below, 3, "Poor Sleep"),
    Rule("study_load", Above, 3, "Heavy Workload"),
    Rule("depression", Above, 10, "Depression Symptoms"),
    Rule("social_support", Below, 2, "Low Social Support"),
    Rule("bullying", Above, 2, "Bullying")
  ]

  const GeneralStress := "General Stress"

  /** The rule's comparison holds of the body's value for its field. */
  predicate Fires(rule: Rule, body: Body)
  {
    && rule.field in body
    && match rule.cmp
       case Above => body[rule.field] > rule.threshold
       case Below => body[rule.field] < rule.threshold
  }

  /** `[factor]` when the rule fires, `[]` otherwise: what one `if ...: factors.append(...)` adds. */
  function Hit(fires: bool, factor: string): (added: seq<string>)
    ensures |added| <= 1
    ensures factor in added <==> fires
  {
    if fires then [factor] else []
  }

  /** The factors of the first `n` rules that fire, in rule order. */
  function FiredUpTo(rules: seq<Rule>, body: Body, n: nat): (fs: seq<string>)
    requires n <= |rules|
    ensures |fs| <= n
  {
    if n == 0 then [] else FiredUpTo(rules, body, n - 1) + Hit(Fires(rules[n - 1], body), rules[n - 1].factor)
  }

  /** The factors of all the rules that fire, in rule order. */
  function Fired(rules: seq<Rule>, body: Body): (fs: seq<string>)
    ensures |fs| <= |rules|
  {
    FiredUpTo(rules, body, |rules|)
  }

  /** The factor list `/predict` returns: the fired rules' factors, or "General Stress" when none fires. */
  function FactorsFor(body: Body): seq<string>
    requires Validated(body)
  {
    var fired := Fired(Rules, body);
    if fired == [] then [GeneralStress] else fired
  }

  /** A body holding 0 for every declared field fires the two "less than" rules whose threshold is positive. */
  lemma ZeroBodyFactors(body: Body)
    requires forall i :: 0 <= i < |StudentDataFields| ==> StudentDataFields[i] in body && body[StudentDataFields[i]] == 0
    ensures Validated(body)
    ensures FactorsFor(body) == ["Poor Sleep", "Low Social Support"]
  {
    var d := StudentDataFields;
    assert body[d[0]] == 0 && body[d[6]] == 0 && body[d[13]] == 0;
    assert body[d[3]] == 0 && body[d[16]] == 0 && body[d[19]] == 0;
    RulesSpelledOut(body);
    assert FiredUpTo(Rules, body, 1) == [];
    assert FiredUpTo(Rules, body, 2) == ["Poor Sleep"];
    assert FiredUpTo(Rules, body, 4) == ["Poor Sleep"];
    assert FiredUpTo(Rules, body, 6) == ["Poor Sleep", "Low Social Support"];
  }

  /** The body's factors, by the handler's sequence of conditional appends. */
  method DeriveFactors(data: Body) returns (factors: seq<string>)
    requires Validated(data)
    ensures factors == FactorsFor(data)
  {
    RulesApplicable(data);
    RulesSpelledOut(data);
    factors := [];
    if data["anxiety_level"] > 10 { factors := factors + ["High Anxiety"]; }
    assert factors == FiredUpTo(Rules, data, 1);
    if data["sleep_quality"] < 3 { factors := factors + ["Poor Sleep"]; }
    assert factors == FiredUpTo(Rules, data, 2);
    if data["study_load"] > 3 { factors := factors + ["Heavy Workload"]; }
    assert factors == FiredUpTo(Rules, data, 3);
    if data["depression"] > 10 { factors := factors + ["Depression Symptoms"]; }
    assert factors == FiredUpTo(Rules, data, 4);
    if data["social_support"] < 2 { factors := factors + ["Low Social Support"]; }
    assert factors == FiredUpTo(Rules, data, 5);
    if data["bullying"] > 2 { factors := factors + ["Bullying"]; }
    assert factors == FiredUpTo(Rules, data, 6);
    if |factors| == 0 { factors := factors + [GeneralStress]; }
  }

  /** Each rule's test and factor, as the handler writes them. */
  lemma RulesSpelledOut(body: Body)
    requires "anxiety_level" in body && "sleep_quality" in body && "study_load" in body
    requires "depression" in body && "social_support" in body && "bullying" in body
    ensures Fires(Rules[0], body) <==> body["anxiety_level"] > 10
    ensures Fires(Rules[1], body) <==> body["sleep_quality"] < 3
    ensures Fires(Rules[2], body) <==> body["study_load"] > 3
    ensures Fires(Rules[3], body) <==> body["depression"] > 10
    ensures Fires(Rules[4], body) <==> body["social_support"] < 2
    ensures Fires(Rules[5], body) <==> body["bullying"] > 2
    ensures Rules[0].factor == "High Anxiety" && Rules[1].factor == "Poor Sleep" && Rules[2].factor == "Heavy Workload"
    ensures Rules[3].factor == "Depression Symptoms" && Rules[4].factor == "Low Social Support" && Rules[5].factor == "Bullying"
  {
  }

  ghost predicate DistinctStrings(xs: seq<string>)
  {
    forall i, j :: 0 <= i < j < |xs| ==> xs[i] != xs[j]
  }

  function RuleFactors(rules: seq<Rule>): (fs: seq<string>)
    ensures |fs| == |rules| && forall k :: 0 <= k < |rules| ==> fs[k] == rules[k].factor
  {
    seq(|rules|, k requires 0 <= k < |rules| => rules[k].factor)
  }

  /** Every factor among the first `n` rules' is the factor of one of them that fires. */
  lemma {:induction false} FiredSource(rules: seq<Rule>, body: Body, n: nat, f: string) returns (j: nat)
    requires n <= |rules| && f in FiredUpTo(rules, body, n)
    ensures j < n && rules[j].factor == f && Fires(rules[j], body)
  {
    var h := Hit(Fires(rules[n - 1], body), rules[n - 1].factor);
    if f in FiredUpTo(rules, body, n - 1) {
      j := FiredSource(rules, body, n - 1, f);
    } else {
      assert f in h;
      j := n - 1;
    }
  }

  /** With distinct factors, rule `k`'s factor is among the first `n` rules' exactly when `k < n` and rule `k` fires. */
  lemma {:induction false} FiredIff(rules: seq<Rule>, body: Body, n: nat, k: nat)
    requires DistinctStrings(RuleFactors(rules)) && n <= |rules| && k < |rules|
    ensures rules[k].factor in FiredUpTo(rules, body, n) <==> k < n && Fires(rules[k], body)
  {
    if rules[k].factor in FiredUpTo(rules, body, n) {
      var j := FiredSource(rules, body, n, rules[k].factor);
      assert RuleFactors(rules)[j] == RuleFactors(rules)[k];
    } else if k < n {
      assert rules[k].factor !in FiredUpTo(rules, body, n - 1) + Hit(Fires(rules[n - 1], body), rules[n - 1].factor);
      if k < n - 1 {
        FiredIff(rules, body, n - 1, k);
      }
    }
  }

  /** Rules with distinct factors fire no factor twice. */
  lemma {:induction false} FiredDistinct(rules: seq<Rule>, body: Body, n: nat)
    requires DistinctStrings(RuleFactors(rules)) && n <= |rules|
    ensures DistinctStrings(FiredUpTo(rules, body, n))
  {
    if n > 0 {
      FiredDistinct(rules, body, n - 1);
      var before := FiredUpTo(rules, body, n - 1);
      if rules[n - 1].factor in before {
        var j := FiredSource(rules, body, n - 1, rules[n - 1].factor);
        assert false;
      }
    }
  }

  /** The six rules' factors are distinct, and none of them is the fallback. */
  lemma RuleFactorsDistinct()
    ensures DistinctStrings(RuleFactors(Rules))
    ensures GeneralStress !in RuleFactors(Rules)
  {
  }

  /**
   * What the factor list says: never empty, at most six entries, no entry
   * twice; rule `k`'s factor is in it exactly when rule `k` fires; and it is
   * `["General Stress"]` exactly when no rule fires.
   */
  lemma FactorsForSpec(body: Body)
    requires Validated(body)
    ensures var fs := FactorsFor(body);
      && 1 <= |fs| <= 6
      && DistinctStrings(fs)
      && (forall k :: 0 <= k < |Rules| ==> (Rules[k].factor in fs <==> Fires(Rules[k], body)))
      && (fs == [GeneralStress] <==> forall k :: 0 <= k < |Rules| ==> !Fires(Rules[k], body))
  {
    RuleFactorsDistinct();
    FiredDistinct(Rules, body, |Rules|);
    forall k | 0 <= k < |Rules| ensures Rules[k].factor in Fired(Rules, body) <==> Fires(Rules[k], body) {
      FiredIff(Rules, body, |Rules|, k);
    }
    var fired := Fired(Rules, body);
    if fired != [] {
      var j := FiredSource(Rules, body, |Rules|, fired[0]);
      assert RuleFactors(Rules)[j] == fired[0];
    }
  }

  // ---------------------------------------------------------------------------
  // The /predict handler

  /** The JSON `/predict` answers with. */
  datatype PredictResponse = PredictResponse(prediction: int, stressLabel: string, factors: seq<string>)

  /** The columns `/predict` saves with a new record: the declared inputs, the label and the factor text. */
  datatype SavedFields = SavedFields(inputs: Body, predictedLabel: string, predictedFactors: string)

  datatype PredictOutcome =
    | Unprocessable                                           // the body fails `StudentData` validation
    | ModelNotLoaded                                          // HTTP 503, "Model not loaded"
    | Predicted(response: PredictResponse, saved: SavedFields)

  const FactorSeparator := ", "

  /** `", ".join(factors)`, the text stored as `predicted_factors`. */
  function FactorsText(factors: seq<string>): string
  {
    Join(FactorSeparator, factors)
  }

  /** What a prediction saves for the body and the classifier's output. */
  function SavedFor(body: Body, prediction: int): SavedFields
    requires Validated(body)
  {
    SavedFields(Declared(body), LabelFor(prediction), FactorsText(FactorsFor(body)))
  }

  /**
   * `predict_stress`: request validation first, then the model check, then the
   * label, the factors and the record to save. `prediction` stands for
   * `int(model.predict(...)[0])`; whether saving succeeds does not change the answer.
   */
  method PredictStress(body: Body, modelLoaded: bool, prediction: int) returns (out: PredictOutcome)
    ensures out.Unprocessable? <==> !Validated(body)
    ensures out.ModelNotLoaded? <==> Validated(body) && !modelLoaded
    ensures out.Predicted? ==> Validated(body) && out.saved == SavedFor(body, prediction)
    ensures out.Predicted? ==> out.response == PredictResponse(prediction, LabelFor(prediction), FactorsFor(body))
  {
    if !Validated(body) {
      return Unprocessable;
    }
    if !modelLoaded {
      return ModelNotLoaded;
    }
    var stressLabel := LabelFor(prediction);
    var factors := DeriveFactors(body);
    out := Predicted(PredictResponse(prediction, stressLabel, factors),
                     SavedFields(Declared(body), stressLabel, FactorsText(factors)));
  }

  /** The factor names, the fallback included. */
  const FactorNames: seq<string> := ["High Anxiety", "Poor Sleep", "Heavy Workload", "Depression Symptoms",
                                     "Low Social Support", "Bullying", GeneralStress]

  /** Every returned factor is one of the named factors. */
  lemma FactorsNamed(body: Body)
    requires Validated(body)
    ensures forall f :: f in FactorsFor(body) ==> f in FactorNames
  {
    forall f | f in FactorsFor(body) ensures f in FactorNames {
      if f != GeneralStress {
        var j := FiredSource(Rules, body, |Rules|, f);
        assert f == FactorNames[j];
      }
    }
  }

  /** No factor name contains a comma, and none is empty. */
  lemma FactorNamesPlain()
    ensures forall f :: f in FactorNames ==> FactorSeparator[0] !in f && f != ""
  {
    assert FactorSeparator[0] == ',';
    assert ',' !in "High Anxiety" && ',' !in "Poor Sleep" && ',' !in "Heavy Workload";
    assert ',' !in "Depression Symptoms" && ',' !in "Low Social Support" && ',' !in "Bullying";
    assert ',' !in "General Stress";
  }

  /**
   * The saved factor text is never empty, and splitting it on `", "` gives
   * back exactly the factor list `/predict` returned.
   */
  lemma SavedFactorsRoundTrip(body: Body)
    requires Validated(body)
    ensures FactorsText(FactorsFor(body)) != ""
    ensures Split(FactorsText(FactorsFor(body)), FactorSeparator) == FactorsFor(body)
  {
    var fs := FactorsFor(body);
    FactorsForSpec(body);
    FactorsNamed(body);
    FactorNamesPlain();
    SplitJoin(FactorSeparator, fs);
    JoinLength(FactorSeparator, fs);
    assert |fs[0]| > 0;
    assert TotalLength(fs) >= |fs[0]|;
  }

  /** A record with a prediction's label adds one to that prediction's bar, and to none for "Unknown". */
  lemma NewRecordCharted(data: seq<Monitoring.Record>, r: Monitoring.Record, prediction: int)
    requires r.predictedLabel == LabelFor(prediction)
    ensures Monitoring.TotalRecords(data + [r]) == Monitoring.TotalRecords(data) + 1
    ensures forall k :: 0 <= k < 3 ==>
      Monitoring.ChartData(data + [r])[k].count == Monitoring.ChartData(data)[k].count + (if k == prediction then 1 else 0)
  {
    Monitoring.ChartAppend(data, r);
    LabelForCases(prediction);
  }

  // ---------------------------------------------------------------------------
  // Rows of /monitoring-data

  /** A saved record with the id the database gave it. */
  datatype StoredRecord = StoredRecord(id: int, saved: SavedFields)

  /**
   * `get_monitoring_data` as written: each row carries `id`, `predicted_label`
   * and three input columns (not read by the dashboard, so not kept here),
   * but no `predicted_factors`.
   */
  function MonitoringRowAsWritten(r: StoredRecord): Monitoring.Record
  {
    Monitoring.Record(r.id, r.saved.predictedLabel, None)
  }

  /** A row that also carries the saved `predicted_factors`, the column the dashboard's table shows. */
  function MonitoringRow(r: StoredRecord): Monitoring.Record
  {
    Monitoring.Record(r.id, r.saved.predictedLabel, Some(r.saved.predictedFactors))
  }

  /** As written, a saved prediction's "Key Factors" cell is empty although its stored factor text is not. */
  lemma AsWrittenFactorsCellEmpty(body: Body, prediction: int, id: int)
    requires Validated(body)
    ensures var r := StoredRecord(id, SavedFor(body, prediction));
      r.saved.predictedFactors != "" && Monitoring.FactorsCell(MonitoringRowAsWritten(r)) == ""
  {
    SavedFactorsRoundTrip(body);
  }

  /**
   * With the column included, the cell shows the stored text, and that text
   * splits back into the factors `/predict` returned.
   */
  lemma MonitoringRowShowsFactors(body: Body, prediction: int, id: int)
    requires Validated(body)
    ensures var row := MonitoringRow(StoredRecord(id, SavedFor(body, prediction)));
      && row.predictedLabel == LabelFor(prediction)
      && Monitoring.FactorsCell(row) != ""
      && Split(Monitoring.FactorsCell(row), FactorSeparator) == FactorsFor(body)
  {
    SavedFactorsRoundTrip(body);
  }
}
