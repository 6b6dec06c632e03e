/**
 * The assessment page's controller: the answer form, the two-step submit
 * (`/predict`, then `/explain` with that answer's label and factors), the
 * `loading` flag and the result card, which "Close Result" clears. Each
 * remote call's outcome is a parameter: `None` stands for a call that threw.
 */
module Assessment {
  import opened Wrappers
  import opened Catalog
  import opened Text
  import Monitoring
  import Scoring

  /** The result card: the `/predict` answer plus the explanation. */
  datatype AssessmentResult = AssessmentResult(prediction: int, stressLabel: string, factors: seq<string>, explanation: string)

  /** A remote call the page makes, with what it posts. */
  datatype Call =
    | PostPredict(body: Form)
    | PostExplain(stressLabel: string, factors: seq<string>)

  /** `{ ...data, explanation: exp.data.explanation }`. */
  function Combine(data: Scoring.PredictResponse, explanation: string): (r: AssessmentResult)
    ensures r.prediction == data.prediction && r.stressLabel == data.stressLabel && r.factors == data.factors
    ensures r.explanation == explanation
  {
    AssessmentResult(data.prediction, data.stressLabel, data.factors, explanation)
  }

  /**
   * `{ ...form, [name]: value }`: the entered number replaces the field's
   * value as it is, with no clamping to `[0, max]`; no other key changes.
   */
  function Edited(form: Form, name: string, value: int): (f: Form)
    requires name in form
    ensures f.Keys == form.Keys
    ensures f[name] == value
    ensures forall k :: k in form && k != name ==> f[k] == form[k]
  {
    form[name := value]
  }

  class AssessmentSession {
    var form: Form
    var result: Option<AssessmentResult>
    var loading: bool
    /** The keys the form was built with: the catalog's field names. */
    ghost const keys: set<string>

    /** Between user actions the form keeps the keys it was built with and no submit is in progress. */
    ghost predicate Valid()
      reads this
    {
      form.Keys == keys && !loading
    }

    constructor ()
      ensures Valid() && keys == FieldNames()
      ensures form == InitialForm() && result == None && !loading
    {
      InitialFormZero();
      keys := FieldNames();
      form := InitialForm();
      result := None;
      loading := false;
    }

    /** `disabled={loading}` on the submit button: enabled between user actions, disabled while a submit is awaited. */
    function SubmitEnabled(): bool
      reads this
    {
      !loading
    }

    /** The `onChange` handler of field `name`'s number input. */
    method UpdateField(name: string, value: int)
      requires Valid() && name in keys
      modifies this`form
      ensures Valid()
      ensures form == Edited(old(form), name, value)
    {
      form := Edited(form, name, value);
    }

    /**
     * `handleSubmit`. `predictReply` is what `/predict` answers, `explainReply`
     * what `/explain` would answer if asked. The calls made are returned in
     * order; `pending` is the `loading` flag while they are outstanding and
     * `enabledAtAwait` the submit button's state then.
     */
    method Submit(predictReply: Option<Scoring.PredictResponse>, explainReply: Option<string>)
      returns (calls: seq<Call>, ghost pending: bool, ghost enabledAtAwait: bool)
      requires Valid()
      modifies this`result, this`loading
      ensures Valid() && pending && !enabledAtAwait && SubmitEnabled()
      ensures |calls| == if predictReply.Some? then 2 else 1
      ensures calls[0] == PostPredict(form)
      ensures predictReply.Some? ==> calls[1] == PostExplain(predictReply.value.stressLabel, predictReply.value.factors)
      ensures predictReply.Some? && explainReply.Some? ==> result == Some(Combine(predictReply.value, explainReply.value))
      ensures predictReply.None? || explainReply.None? ==> result == old(result)
    {
      loading := true;
      pending, enabledAtAwait := loading, SubmitEnabled();
      calls := [PostPredict(form)];
      if predictReply.Some? {
        var data := predictReply.value;
        calls := calls + [PostExplain(data.stressLabel, data.factors)];
        if explainReply.Some? {
          result := Some(Combine(data, explainReply.value));
        }
      }
      loading := false;
    }

    /** The "Close Result" button. */
    method CloseResult()
      requires Valid()
      modifies this`result
      ensures Valid()
      ensures result == None
    {
      result := None;
    }
  }

  // ---------------------------------------------------------------------------
  // The result card

  const HighAccent := "#ef4444"
  const CalmAccent := "#4ade80"

  /** The card's border, heading and icon colour: red for prediction 2, green otherwise. */
  function Accent(r: AssessmentResult): string
  {
    if r.prediction == 2 then HighAccent else CalmAccent
  }

  /** The "Key Factors" line: `result.factors.join(", ")`. */
  function FactorsLine(r: AssessmentResult): string
  {
    Scoring.FactorsText(r.factors)
  }

  /**
   * For a card built from a `/predict` answer, the card is red exactly when
   * the label is "High Stress", and its "Key Factors" line is the very text
   * the back end saved, which splits back into the returned factors.
   */
  lemma CardFromPrediction(body: Scoring.Body, prediction: int, explanation: string)
    requires Scoring.Validated(body)
    ensures var r := Combine(Scoring.PredictResponse(prediction, Scoring.LabelFor(prediction), Scoring.FactorsFor(body)), explanation);
      && (Accent(r) == HighAccent <==> r.stressLabel == Monitoring.HighStress)
      && FactorsLine(r) == Scoring.SavedFor(body, prediction).predictedFactors
      && Split(FactorsLine(r), Scoring.FactorSeparator) == r.factors
  {
    Scoring.LabelForCases(prediction);
    Scoring.SavedFactorsRoundTrip(body);
  }

  // ---------------------------------------------------------------------------
  // The form against the back end's request model

  /** The catalog's field names are exactly the fields `StudentData` declares, in another order. */
  lemma CatalogMatchesStudentData()
    ensures forall n :: n in FieldNames() <==> n in Scoring.StudentDataFields
  {
    FieldNamesListed();
    NamesInLayoutOrder();
    StudentDataInLayout();
    LayoutInStudentData();
  }

  lemma StudentDataInLayout()
    ensures forall n :: n in Scoring.StudentDataFields ==> n in LayoutOrder
  {
    var l, d := LayoutOrder, Scoring.StudentDataFields;
    assert d == [l[0], l[2], l[3], l[1], l[4], l[5], l[6], l[7], l[16], l[17],
                 l[18], l[19], l[8], l[9], l[10], l[11], l[12], l[13], l[14], l[15]];

  }

  lemma LayoutInStudentData()
    ensures forall n :: n in LayoutOrder ==> n in Scoring.StudentDataFields
  {
    var l, d := LayoutOrder, Scoring.StudentDataFields;
    assert l == [d[0], d[3], d[1], d[2], d[4], d[5], d[6], d[7], d[12], d[13],
                 d[14], d[15], d[16], d[17], d[18], d[19], d[8], d[9], d[10], d[11]];

  }

  /** Every form the page can hold carries all of `StudentData`'s fields, so `/predict` accepts it. */
  lemma FormValidated(form: Form)
    requires form.Keys == FieldNames()
    ensures Scoring.Validated(form)
  {
    CatalogMatchesStudentData();
  }

  /** A form holding 0 for every catalog field holds 0 for every field `StudentData` declares. */
  lemma ZeroFormDeclared(f: Form)
    requires forall n :: n in FieldNames() ==> n in f && f[n] == 0
    ensures forall i :: 0 <= i < |Scoring.StudentDataFields| ==>
      Scoring.StudentDataFields[i] in f && f[Scoring.StudentDataFields[i]] == 0
  {
    CatalogMatchesStudentData();
    var d := Scoring.StudentDataFields;
    forall i | 0 <= i < |d|
      ensures d[i] in f && f[d[i]] == 0
    {
      assert d[i] in FieldNames();
    }
  }

  /** The untouched form scores "Poor Sleep" and "Low Social Support": sleep 0 < 3 and support 0 < 2. */
  lemma InitialFormFactors()
    ensures Scoring.Validated(InitialForm())
    ensures Scoring.FactorsFor(InitialForm()) == ["Poor Sleep", "Low Social Support"]
  {
    InitialFormZero();
    ZeroFormDeclared(InitialForm());
    Scoring.ZeroBodyFactors(InitialForm());
  }
}
