/**
 * The front end's share of the logic: the constraints its input widgets put
 * on a customer record, the six-key record it hands to the encoder, and the
 * risk tier it shows beside the predicted charge. Widgets are reduced to the
 * values they can produce; page layout and message rendering are not modelled.
 */
module App {
  import opened Predict

  /** The options offered for region, in the order the selector lists them. */
  const RegionOptions: seq<string> := ["southeast", "southwest", "northeast", "northwest"]

  /** The options offered for sex. */
  const SexOptions: seq<string> := ["male", "female"]

  /** The options offered for smoker status. */
  const SmokerOptions: seq<string> := ["no", "yes"]

  /** Slider and number-input bounds, inclusive. */
  const MinAge: int := 18
  const MaxAge: int := 100
  const MinChildren: int := 0
  const MaxChildren: int := 5
  const MinBmi: real := 10.0
  const MaxBmi: real := 60.0

  /** The values read from the six widgets: integer sliders, a real BMI and three choices. */
  datatype Widgets = Widgets(age: int, children: int, region: string, bmi: real, sex: string, smoker: string)

  /** The values the widgets can produce. */
  predicate InWidgetRange(w: Widgets) {
    && MinAge <= w.age <= MaxAge
    && MinChildren <= w.children <= MaxChildren
    && MinBmi <= w.bmi <= MaxBmi
    && w.region in RegionOptions
    && w.sex in SexOptions
    && w.smoker in SmokerOptions
  }

  /** What the page shows before the user touches anything: each widget's default. */
  const Defaults: Widgets := Widgets(30, 0, RegionOptions[0], 28.0, SexOptions[0], SmokerOptions[0])

  /** The record packaged for the encoder: exactly the six attributes, each from its widget. */
  function UserInput(w: Widgets): (r: Row)
    ensures r.Keys == RecordKeys && IsRawRecord(r)
    ensures r[Age] == Num(w.age as real) && r[Bmi] == Num(w.bmi)
    ensures r[Children] == Num(w.children as real)
    ensures r[Sex] == Text(w.sex) && r[Smoker] == Text(w.smoker) && r[Region] == Text(w.region)
  {
    map[
      Age := Num(w.age as real), Sex := Text(w.sex), Bmi := Num(w.bmi),
      Children := Num(w.children as real), Smoker := Text(w.smoker), Region := Text(w.region)
    ]
  }

  /** The four messages of the risk analysis. */
  datatype Risk = HighRisk | ElevatedObesity | ElevatedAge | AverageRisk

  /**
   * The priority-ordered tier: smoking first, then a BMI strictly over 30,
   * then an age strictly over 50, otherwise average. Each tier is stated as
   * the exact condition under which it is chosen, so the four are exclusive
   * and cover every input.
   */
  function RiskAnalysis(smoker: string, bmi: real, age: int): (risk: Risk)
    ensures risk == HighRisk <==> smoker == "yes"
    ensures risk == ElevatedObesity <==> smoker != "yes" && bmi > 30.0
    ensures risk == ElevatedAge <==> smoker != "yes" && bmi <= 30.0 && age > 50
    ensures risk == AverageRisk <==> smoker != "yes" && bmi <= 30.0 && age <= 50
  {
    if smoker == "yes" then HighRisk
    else if bmi > 30.0 then ElevatedObesity
    else if age > 50 then ElevatedAge
    else AverageRisk
  }

  /** A rule of a priority list: the tier chosen when its condition holds. */
  datatype Rule = Rule(holds: bool, tier: Risk)

  /** The tier of the first rule that holds, or average if none does. */
  function FirstMatch(rules: seq<Rule>): Risk {
    if |rules| == 0 then AverageRisk
    else if rules[0].holds then rules[0].tier
    else FirstMatch(rules[1..])
  }

  /** The tier rules as a list, highest priority first. */
  function TierRules(smoker: string, bmi: real, age: int): seq<Rule> {
    [Rule(smoker == "yes", HighRisk), Rule(bmi > 30.0, ElevatedObesity), Rule(age > 50, ElevatedAge)]
  }

  /** The tier is the first rule that matches, in the order of the chain. */
  lemma RiskIsFirstMatch(smoker: string, bmi: real, age: int)
    ensures RiskAnalysis(smoker, bmi, age) == FirstMatch(TierRules(smoker, bmi, age))
  {
    var rules := TierRules(smoker, bmi, age);
    var rest1, rest2 := rules[1..], rules[2..];
    assert rest1[1..] == rest2 && rest2[1..] == [];
    assert FirstMatch(rest2) == if age > 50 then ElevatedAge else AverageRisk;
    assert FirstMatch(rest1) == if bmi > 30.0 then ElevatedObesity else FirstMatch(rest2);
  }

  /** A smoker is high risk whatever the BMI and age. */
  lemma SmokerAlwaysHigh(bmi: real, age: int)
    ensures RiskAnalysis("yes", bmi, age) == HighRisk
  {
  }

  /** Among non-smokers, the obesity tier ignores age. */
  lemma ObesityIgnoresAge(smoker: string, bmi: real, age1: int, age2: int)
    requires smoker != "yes" && bmi > 30.0
    ensures RiskAnalysis(smoker, bmi, age1) == RiskAnalysis(smoker, bmi, age2) == ElevatedObesity
  {
  }

  /**
   * The tier read back from the encoded vector: position 6 is smoker_yes,
   * position 3 is Is_Obese and position 0 is age.
   */
  function TierOfVector(x: Vector): Risk
    requires |x| == 10
  {
    if x[6] == 1.0 then HighRisk
    else if x[3] == 1.0 then ElevatedObesity
    else if x[0] > 50.0 then ElevatedAge
    else AverageRisk
  }

  /**
   * The tier agrees with the encoder: the widget values and the vector the
   * encoder builds from them lead to the same tier, because the smoker test is
   * the same exact match and the BMI test the same strict comparison.
   */
  lemma RiskFromEncoding(w: Widgets)
    ensures |FeatureVector(UserInput(w))| == 10
    ensures RiskAnalysis(w.smoker, w.bmi, w.age) == TierOfVector(FeatureVector(UserInput(w)))
  {
    var x := FeatureVector(UserInput(w));
    IndicatorsExact(UserInput(w));
    IsObeseStrict(UserInput(w));
    assert x[0] == w.age as real;
    assert x[0] > 50.0 <==> w.age > 50;
  }

  /** For a non-smoker, the obesity tier is chosen exactly when the encoder sets Is_Obese. */
  lemma ObesityTierIffIsObese(w: Widgets)
    requires w.smoker != "yes"
    ensures RiskAnalysis(w.smoker, w.bmi, w.age) == ElevatedObesity <==> FeatureVector(UserInput(w))[3] == 1.0
  {
    IsObeseStrict(UserInput(w));
  }

  /**
   * Inputs the widgets can produce are all recognized by the encoder, so none
   * of them is silently mapped to a reference category, and the vector stays
   * within the widgets' ranges.
   */
  lemma WidgetInputsRecognized(w: Widgets)
    requires InWidgetRange(w)
    ensures Recognized(UserInput(w)) && Canonical(UserInput(w)) == UserInput(w)
    ensures var x := FeatureVector(UserInput(w));
      && 18.0 <= x[0] <= 100.0 && 10.0 <= x[1] <= 60.0 && 0.0 <= x[2] <= 5.0
      && 180.0 <= x[4] <= 6000.0
      && x[7] + x[8] + x[9] <= 1.0
  {
    var r := UserInput(w);
    var age, bmi := w.age as real, w.bmi;
    assert 18.0 <= age <= 100.0;
    assert bmi * age >= 10.0 * age by {
      assert (bmi - 10.0) * age >= 0.0;
    }
    assert bmi * age <= 60.0 * age by {
      assert (60.0 - bmi) * age >= 0.0;
    }
    assert w.region in {"southeast", "southwest", "northeast", "northwest"};
    assert w.sex in {"male", "female"};
    assert w.smoker in {"no", "yes"};
    AtMostOneRegion(r);
  }

  /** The untouched page describes a valid input that is of average risk. */
  lemma DefaultsAverage()
    ensures InWidgetRange(Defaults)
    ensures RiskAnalysis(Defaults.smoker, Defaults.bmi, Defaults.age) == AverageRisk
  {
  }

  /** Pressing the button: package the widgets, price the record and classify its risk. */
  method Calculate(w: Widgets, predict: Vector -> real, exp: real -> real)
    returns (charge: real, risk: Risk)
    ensures charge == Charge(UserInput(w), predict, exp)
    ensures risk == RiskAnalysis(w.smoker, w.bmi, w.age)
  {
    var userInput := UserInput(w);
    charge := PreprocessAndPredict(userInput, predict, exp);
    risk := RiskAnalysis(w.smoker, w.bmi, w.age);
  }
}
