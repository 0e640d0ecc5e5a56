/**
 * The feature encoder and predictor of src/predict.py.
 *
 * `Preprocess` follows `preprocess_and_predict` step by step on a one-row table
 * (column to cell): it adds the two engineered columns, one-hot encodes the
 * three categorical columns the way pandas' get_dummies does, fills the schema
 * columns that are still missing with 0 in a loop, and selects the schema
 * columns in order. `FeatureVector` is the reference definition of the same
 * encoding, written position by position; the method is proved to agree with
 * it, and the properties of the encoding are lemmas about `FeatureVector`.
 *
 * The trained regressor and the exponential are parameters: nothing is assumed
 * about them beyond being functions of their arguments.
 */
module Predict {

  /**
   * A column of the table. The indicator column that get_dummies makes for the
   * value `value` of column `source` is `Dummy(source, value)`; its name is
   * `<source>_<value>` (see `Name`, and `NameInjective` for why the names never
   * clash).
   */
  datatype Column =
    | Age | Sex | Bmi | Children | Smoker | Region
    | IsObese | BmiAge
    | Dummy(source: Column, value: string)

  /** The column's name in the table. */
  function Name(c: Column): string {
    match c
    case Age => "age"
    case Sex => "sex"
    case Bmi => "bmi"
    case Children => "children"
    case Smoker => "smoker"
    case Region => "region"
    case IsObese => "Is_Obese"
    case BmiAge => "bmi_age_interaction"
    case Dummy(source, value) => Name(source) + "_" + value
  }

  /** The columns a table can hold here: the record's, the engineered ones, and indicators of categorical ones. */
  predicate TableColumn(c: Column) {
    c.Dummy? ==> c.source in {Sex, Smoker, Region}
  }

  /** First character and length of a plain column's name, which tell the names apart. */
  lemma PlainNameShape(c: Column)
    requires !c.Dummy?
    ensures |Name(c)| >= 3
    ensures Name(c)[0] == 's' ==> c in {Sex, Smoker}
    ensures Name(c)[0] == 'r' ==> c == Region && |Name(c)| == 6
    ensures c == Sex ==> |Name(c)| == 3 && Name(c)[1] == 'e'
    ensures c == Smoker ==> |Name(c)| == 6 && Name(c)[1] == 'm'
  {
  }

  /** An indicator's name starts with its source column's name and an underscore. */
  lemma DummyNameShape(c: Column)
    requires c.Dummy? && c.source in {Sex, Smoker, Region}
    ensures |Name(c)| == |Name(c.source)| + 1 + |c.value|
    ensures Name(c)[..|Name(c.source)|] == Name(c.source)
    ensures Name(c)[|Name(c.source)|] == '_'
    ensures Name(c)[|Name(c.source)| + 1..] == c.value
    ensures Name(c)[0] == Name(c.source)[0] && Name(c)[1] == Name(c.source)[1]
  {
    var n := Name(c.source);
    assert Name(c) == n + "_" + c.value;
    assert Name(c)[0] == n[0] && Name(c)[1] == n[1];
  }

  /**
   * The `<column>_<value>` naming rule never makes two columns of a table share a
   * name: a name determines its column, and an indicator determines its value.
   */
  lemma NameInjective(c1: Column, c2: Column)
    requires TableColumn(c1) && TableColumn(c2)
    ensures Name(c1) == Name(c2) <==> c1 == c2
  {
    if Name(c1) == Name(c2) {
      if !c1.Dummy? && !c2.Dummy? {
        PlainNameShape(c1);
        PlainNameShape(c2);
      } else if c1.Dummy? && c2.Dummy? {
        DummyNameShape(c1);
        DummyNameShape(c2);
        PlainNameShape(c1.source);
        PlainNameShape(c2.source);
        assert c1.source == c2.source;
      } else {
        var d, p := if c1.Dummy? then c1 else c2, if c1.Dummy? then c2 else c1;
        DummyNameShape(d);
        PlainNameShape(d.source);
        PlainNameShape(p);
      }
    }
  }

  /** One cell of a one-row table: a number or a text value. */
  datatype Cell = Num(v: real) | Text(s: string)

  /** A one-row table (a single-row DataFrame, or the input dictionary). */
  type Row = map<Column, Cell>

  /** The numeric vector handed to the regressor, one entry per schema column. */
  type Vector = seq<real>

  /** The columns the regressor was trained on, in the order it expects them. */
  const FeatureCols: seq<Column> := [
    Age, Bmi, Children, IsObese, BmiAge,
    Dummy(Sex, "male"), Dummy(Smoker, "yes"), Dummy(Region, "northwest"),
    Dummy(Region, "southeast"), Dummy(Region, "southwest")
  ]

  /** The columns that are one-hot encoded. */
  const Categorical: set<Column> := {Sex, Smoker, Region}

  /** The columns get_dummies keeps: the numeric inputs and the engineered features. */
  const NumericColumns: set<Column> := {Age, Bmi, Children, IsObese, BmiAge}

  /** The six attributes of a customer record. */
  const RecordKeys: set<Column> := {Age, Sex, Bmi, Children, Smoker, Region}

  /** A customer record: the six attributes, numeric or textual as the encoder uses them. */
  predicate IsRawRecord(r: Row) {
    && r.Keys == RecordKeys
    && r[Age].Num? && r[Bmi].Num? && r[Children].Num?
    && r[Sex].Text? && r[Smoker].Text? && r[Region].Text?
  }

  /** A record whose categorical values are all categories seen at training time. */
  predicate Recognized(r: Row)
    requires IsRawRecord(r)
  {
    && r[Sex].s in {"male", "female"}
    && r[Smoker].s in {"yes", "no"}
    && r[Region].s in {"northeast", "northwest", "southeast", "southwest"}
  }

  /** An integer 0/1 flag, as `astype(int)` and `dtype=int` produce. */
  function Indicator(b: bool): real {
    if b then 1.0 else 0.0
  }

  /**
   * The encoding, position by position: the three numeric inputs unchanged, the
   * strict obesity test, the exact product, and one exact-match indicator per
   * non-reference category (female, non-smoker and northeast are the references).
   */
  function FeatureVector(r: Row): Vector
    requires IsRawRecord(r)
  {
    var age, bmi := r[Age].v, r[Bmi].v;
    [ age, bmi, r[Children].v, Indicator(bmi > 30.0), bmi * age,
      Indicator(r[Sex].s == "male"),
      Indicator(r[Smoker].s == "yes"),
      Indicator(r[Region].s == "northwest"),
      Indicator(r[Region].s == "southeast"),
      Indicator(r[Region].s == "southwest") ]
  }

  /** Step 2, the two engineered columns, added to the record's table. */
  function AddEngineered(input: Row): (raw: Row)
    requires IsRawRecord(input)
    ensures forall c :: c in raw <==> c in NumericColumns || c in Categorical
    ensures forall c :: c in input ==> raw[c] == input[c]
    ensures raw[IsObese] == Num(if input[Bmi].v > 30.0 then 1.0 else 0.0)
    ensures raw[BmiAge] == Num(input[Bmi].v * input[Age].v)
  {
    input[IsObese := Num(Indicator(input[Bmi].v > 30.0))][BmiAge := Num(input[Bmi].v * input[Age].v)]
  }

  /**
   * Step 3, pandas.get_dummies on sex, smoker and region with dtype=int and
   * drop_first=False, on a one-row table: the three text columns are dropped,
   * and each is replaced by the single indicator column of its value, holding
   * 1; the other columns are kept.
   */
  function GetDummies(raw: Row): (encoded: Row)
    requires forall c :: c in raw <==> c in NumericColumns || c in Categorical
    requires raw[Sex].Text? && raw[Smoker].Text? && raw[Region].Text?
    ensures forall k :: k in encoded <==>
      k in NumericColumns || k == Dummy(Sex, raw[Sex].s)
      || k == Dummy(Smoker, raw[Smoker].s) || k == Dummy(Region, raw[Region].s)
    ensures forall k :: k in NumericColumns ==> encoded[k] == raw[k]
    ensures encoded[Dummy(Sex, raw[Sex].s)] == Num(1.0)
    ensures encoded[Dummy(Smoker, raw[Smoker].s)] == Num(1.0)
    ensures encoded[Dummy(Region, raw[Region].s)] == Num(1.0)
  {
    (raw - Categorical)
      [Dummy(Sex, raw[Sex].s) := Num(1.0)]
      [Dummy(Smoker, raw[Smoker].s) := Num(1.0)]
      [Dummy(Region, raw[Region].s) := Num(1.0)]
  }

  /**
   * The reconciliation loop: every schema column not yet in the table is added
   * with value 0. Columns already present, whether schema columns or not, keep
   * their value.
   */
  method FillMissing(t: Row) returns (r: Row)
    ensures forall c :: c in r <==> c in t || c in FeatureCols
    ensures forall c :: c in t ==> r[c] == t[c]
    ensures forall c :: c in r && c !in t ==> r[c] == Num(0.0)
  {
    r := t;
    for i := 0 to |FeatureCols|
      invariant forall c :: c in r <==> c in t || c in FeatureCols[..i]
      invariant forall c :: c in t ==> r[c] == t[c]
      invariant forall c :: c in r && c !in t ==> r[c] == Num(0.0)
    {
      if FeatureCols[i] !in r {
        r := r[FeatureCols[i] := Num(0.0)];
      }
    }
    assert FeatureCols[..|FeatureCols|] == FeatureCols;
  }

  /** Column selection `t[columns]`: the listed cells, in the listed order. */
  function Select(t: Row, columns: seq<Column>): (x: Vector)
    requires forall c :: c in columns ==> c in t && t[c].Num?
    ensures |x| == |columns|
    ensures forall i :: 0 <= i < |columns| ==> x[i] == t[columns[i]].v
  {
    seq(|columns|, i requires 0 <= i < |columns| => t[columns[i]].v)
  }

  /** The encoded table has the indicator of `v` for `c` exactly when the table's value of `c` is `v`. */
  lemma EncodedIndicator(raw: Row, c: Column, v: string)
    requires forall k :: k in raw <==> k in NumericColumns || k in Categorical
    requires raw[Sex].Text? && raw[Smoker].Text? && raw[Region].Text?
    requires c in Categorical
    ensures Dummy(c, v) in GetDummies(raw) <==> raw[c].s == v
    ensures Dummy(c, v) in GetDummies(raw) ==> GetDummies(raw)[Dummy(c, v)] == Num(1.0)
  {
  }

  /**
   * The cell the fill loop leaves in a schema column: the encoded table's own
   * cell when it has that column, and 0 otherwise.
   */
  lemma FilledCell(encoded: Row, filled: Row, c: Column)
    requires forall k :: k in filled <==> k in encoded || k in FeatureCols
    requires forall k :: k in encoded ==> filled[k] == encoded[k]
    requires forall k :: k in filled && k !in encoded ==> filled[k] == Num(0.0)
    requires c in FeatureCols
    ensures c in filled && filled[c] == if c in encoded then encoded[c] else Num(0.0)
  {
  }

  /** The cells a table must hold in the schema columns for a record's encoding. */
  predicate SchemaCells(input: Row, t: Row)
    requires IsRawRecord(input)
  {
    && Age in t && t[Age] == input[Age]
    && Bmi in t && t[Bmi] == input[Bmi]
    && Children in t && t[Children] == input[Children]
    && IsObese in t && t[IsObese] == Num(Indicator(input[Bmi].v > 30.0))
    && BmiAge in t && t[BmiAge] == Num(input[Bmi].v * input[Age].v)
    && Dummy(Sex, "male") in t && t[Dummy(Sex, "male")] == Num(Indicator(input[Sex].s == "male"))
    && Dummy(Smoker, "yes") in t && t[Dummy(Smoker, "yes")] == Num(Indicator(input[Smoker].s == "yes"))
    && Dummy(Region, "northwest") in t
    && t[Dummy(Region, "northwest")] == Num(Indicator(input[Region].s == "northwest"))
    && Dummy(Region, "southeast") in t
    && t[Dummy(Region, "southeast")] == Num(Indicator(input[Region].s == "southeast"))
    && Dummy(Region, "southwest") in t
    && t[Dummy(Region, "southwest")] == Num(Indicator(input[Region].s == "southwest"))
  }

  /** The schema columns of the filled table, one by one. */
  lemma FilledSchema(input: Row, raw: Row, encoded: Row, filled: Row)
    requires IsRawRecord(input)
    requires raw == AddEngineered(input) && encoded == GetDummies(raw)
    requires forall k :: k in filled <==> k in encoded || k in FeatureCols
    requires forall k :: k in encoded ==> filled[k] == encoded[k]
    requires forall k :: k in filled && k !in encoded ==> filled[k] == Num(0.0)
    ensures SchemaCells(input, filled)
  {
    FilledCell(encoded, filled, Age);
    FilledCell(encoded, filled, Bmi);
    FilledCell(encoded, filled, Children);
    FilledCell(encoded, filled, IsObese);
    FilledCell(encoded, filled, BmiAge);
    FilledCell(encoded, filled, Dummy(Sex, "male"));
    FilledCell(encoded, filled, Dummy(Smoker, "yes"));
    FilledCell(encoded, filled, Dummy(Region, "northwest"));
    FilledCell(encoded, filled, Dummy(Region, "southeast"));
    FilledCell(encoded, filled, Dummy(Region, "southwest"));
    EncodedIndicator(raw, Sex, "male");
    EncodedIndicator(raw, Smoker, "yes");
    EncodedIndicator(raw, Region, "northwest");
    EncodedIndicator(raw, Region, "southeast");
    EncodedIndicator(raw, Region, "southwest");
  }

  /** Selecting the schema from a table with those cells gives the reference encoding. */
  lemma SelectSchema(input: Row, filled: Row)
    requires IsRawRecord(input)
    requires SchemaCells(input, filled)
    ensures forall c :: c in FeatureCols ==> c in filled && filled[c].Num?
    ensures Select(filled, FeatureCols) == FeatureVector(input)
  {
    var x, y := Select(filled, FeatureCols), FeatureVector(input);
    forall i | 0 <= i < |FeatureCols| ensures x[i] == y[i] {
      if i < 5 {
        assert i == 0 || i == 1 || i == 2 || i == 3 || i == 4;
      } else {
        assert i == 5 || i == 6 || i == 7 || i == 8 || i == 9;
      }
    }
  }

  /** Steps 1 to 4 of `preprocess_and_predict`: the vector handed to the regressor. */
  method Preprocess(input: Row) returns (x: Vector)
    requires IsRawRecord(input)
    ensures x == FeatureVector(input)
  {
    var raw := AddEngineered(input);
    var encoded := GetDummies(raw);
    var filled := FillMissing(encoded);
    FilledSchema(input, raw, encoded, filled);
    SelectSchema(input, filled);
    x := Select(filled, FeatureCols);
  }

  /** The predicted charge of a record: the regressor's log-space output on its vector, exponentiated. */
  function Charge(r: Row, predict: Vector -> real, exp: real -> real): real
    requires IsRawRecord(r)
  {
    exp(predict(FeatureVector(r)))
  }

  /** `preprocess_and_predict`: encode, run the regressor, undo the log transform. */
  method PreprocessAndPredict(input: Row, predict: Vector -> real, exp: real -> real)
    returns (charge: real)
    requires IsRawRecord(input)
    ensures charge == exp(predict(FeatureVector(input)))
  {
    var features := Preprocess(input);
    var logCharge := predict(features);
    charge := exp(logCharge);
  }

  /** The schema's column names are exactly those of the trained model, in its order. */
  lemma SchemaNames()
    ensures |FeatureCols| == 10
    ensures forall i :: 0 <= i < |FeatureCols| ==> TableColumn(FeatureCols[i])
    ensures Name(FeatureCols[0]) == "age" && Name(FeatureCols[1]) == "bmi"
    ensures Name(FeatureCols[2]) == "children" && Name(FeatureCols[3]) == "Is_Obese"
    ensures Name(FeatureCols[4]) == "bmi_age_interaction"
    ensures Name(FeatureCols[5]) == "sex_male" && Name(FeatureCols[6]) == "smoker_yes"
    ensures Name(FeatureCols[7]) == "region_northwest"
    ensures Name(FeatureCols[8]) == "region_southeast"
    ensures Name(FeatureCols[9]) == "region_southwest"
  {
    assert Name(FeatureCols[5]) == "sex" + "_" + "male";
    assert Name(FeatureCols[6]) == "smoker" + "_" + "yes";
    assert Name(FeatureCols[7]) == "region" + "_" + "northwest";
    assert Name(FeatureCols[8]) == "region" + "_" + "southeast";
    assert Name(FeatureCols[9]) == "region" + "_" + "southwest";
  }

  /** Two vectors of ten entries are equal when they agree entry by entry. */
  lemma TenEqual(x: Vector, y: Vector)
    requires |x| == |y| == 10
    requires x[0] == y[0] && x[1] == y[1] && x[2] == y[2] && x[3] == y[3] && x[4] == y[4]
    requires x[5] == y[5] && x[6] == y[6] && x[7] == y[7] && x[8] == y[8] && x[9] == y[9]
    ensures x == y
  {
    forall i | 0 <= i < 10 ensures x[i] == y[i] {
      if i < 5 {
        assert i == 0 || i == 1 || i == 2 || i == 3 || i == 4;
      } else {
        assert i == 5 || i == 6 || i == 7 || i == 8 || i == 9;
      }
    }
  }

  /**
   * Layout of the encoding: ten entries whatever the categorical values; the
   * numeric inputs unchanged in the first three; the exact product in the fifth.
   */
  lemma VectorLayout(r: Row)
    requires IsRawRecord(r)
    ensures |FeatureVector(r)| == |FeatureCols| == 10
    ensures FeatureVector(r)[0] == r[Age].v
    ensures FeatureVector(r)[1] == r[Bmi].v
    ensures FeatureVector(r)[2] == r[Children].v
    ensures FeatureVector(r)[4] == r[Bmi].v * r[Age].v
  {
  }

  /** The obesity flag is 1 exactly when bmi is strictly above 30, and 0 otherwise (so bmi 30 gives 0). */
  lemma IsObeseStrict(r: Row)
    requires IsRawRecord(r)
    ensures FeatureVector(r)[3] == 1.0 <==> r[Bmi].v > 30.0
    ensures FeatureVector(r)[3] == 0.0 <==> r[Bmi].v <= 30.0
  {
  }

  /** Every indicator is 0 or 1, and it is 1 exactly when the value string is its category. */
  lemma IndicatorsExact(r: Row)
    requires IsRawRecord(r)
    ensures forall i :: 3 <= i < 10 && i != 4 ==> FeatureVector(r)[i] in {0.0, 1.0}
    ensures FeatureVector(r)[5] == 1.0 <==> r[Sex].s == "male"
    ensures FeatureVector(r)[6] == 1.0 <==> r[Smoker].s == "yes"
    ensures FeatureVector(r)[7] == 1.0 <==> r[Region].s == "northwest"
    ensures FeatureVector(r)[8] == 1.0 <==> r[Region].s == "southeast"
    ensures FeatureVector(r)[9] == 1.0 <==> r[Region].s == "southwest"
  {
    var x := FeatureVector(r);
    forall i | 3 <= i < 10 && i != 4 ensures x[i] in {0.0, 1.0} {
      assert i == 3 || i == 5 || i == 6 || i == 7 || i == 8 || i == 9;
    }
  }

  /**
   * At most one region indicator is set, and none is set exactly when the region
   * is not one of the three non-reference regions.
   */
  lemma AtMostOneRegion(r: Row)
    requires IsRawRecord(r)
    ensures FeatureVector(r)[7] + FeatureVector(r)[8] + FeatureVector(r)[9] <= 1.0
    ensures FeatureVector(r)[7] + FeatureVector(r)[8] + FeatureVector(r)[9] == 0.0 <==>
      r[Region].s !in {"northwest", "southeast", "southwest"}
  {
  }

  /**
   * The record the encoder treats `r` as: an unrecognized (or differently cased)
   * sex, smoker or region value replaced by the reference category.
   */
  function Canonical(r: Row): (c: Row)
    requires IsRawRecord(r)
    ensures IsRawRecord(c) && Recognized(c)
    ensures c[Age] == r[Age] && c[Bmi] == r[Bmi] && c[Children] == r[Children]
    ensures Recognized(r) ==> c == r
  {
    var sex := if r[Sex].s == "male" then "male" else "female";
    var smoker := if r[Smoker].s == "yes" then "yes" else "no";
    var region := if r[Region].s in {"northwest", "southeast", "southwest"} then r[Region].s else "northeast";
    var c := r[Sex := Text(sex)][Smoker := Text(smoker)][Region := Text(region)];
    assert Recognized(r) ==> c == r by {
      if Recognized(r) {
        assert c.Keys == r.Keys;
        assert forall k :: k in r ==> c[k] == r[k];
      }
    }
    c
  }

  /** Silent degradation: a record encodes exactly as its canonical form does. */
  lemma UnrecognizedIsReference(r: Row)
    requires IsRawRecord(r)
    ensures FeatureVector(r) == FeatureVector(Canonical(r))
  {
    TenEqual(FeatureVector(r), FeatureVector(Canonical(r)));
  }

  /** An unrecognized sex (say "Male" or "") encodes as female. */
  lemma UnknownSexIsFemale(r: Row, sex: string)
    requires IsRawRecord(r) && sex != "male"
    ensures FeatureVector(r[Sex := Text(sex)]) == FeatureVector(r[Sex := Text("female")])
  {
    TenEqual(FeatureVector(r[Sex := Text(sex)]), FeatureVector(r[Sex := Text("female")]));
  }

  /** An unrecognized smoker value (say "Yes") encodes as a non-smoker. */
  lemma UnknownSmokerIsNo(r: Row, smoker: string)
    requires IsRawRecord(r) && smoker != "yes"
    ensures FeatureVector(r[Smoker := Text(smoker)]) == FeatureVector(r[Smoker := Text("no")])
  {
    TenEqual(FeatureVector(r[Smoker := Text(smoker)]), FeatureVector(r[Smoker := Text("no")]));
  }

  /** An unrecognized region (say "SouthEast") encodes as northeast. */
  lemma UnknownRegionIsNortheast(r: Row, region: string)
    requires IsRawRecord(r) && region !in {"northwest", "southeast", "southwest"}
    ensures FeatureVector(r[Region := Text(region)]) == FeatureVector(r[Region := Text("northeast")])
  {
    TenEqual(FeatureVector(r[Region := Text(region)]), FeatureVector(r[Region := Text("northeast")]));
  }

  /** Matching is case-sensitive: "Male" and "male" give different vectors. */
  lemma MatchingIsCaseSensitive(r: Row)
    requires IsRawRecord(r)
    ensures FeatureVector(r[Sex := Text("Male")]) != FeatureVector(r[Sex := Text("male")])
  {
    assert FeatureVector(r[Sex := Text("Male")])[5] == 0.0;
  }

  /**
   * Two records get the same vector exactly when their canonical forms agree:
   * the encoding loses nothing but the difference between an unrecognized
   * value and the reference category.
   */
  lemma SameVectorIffSameCanonical(r1: Row, r2: Row)
    requires IsRawRecord(r1) && IsRawRecord(r2)
    ensures FeatureVector(r1) == FeatureVector(r2) <==> Canonical(r1) == Canonical(r2)
  {
    UnrecognizedIsReference(r1);
    UnrecognizedIsReference(r2);
    var c1, c2 := Canonical(r1), Canonical(r2);
    if FeatureVector(r1) == FeatureVector(r2) {
      var x1, x2 := FeatureVector(c1), FeatureVector(c2);
      assert x1[5] == x2[5] && x1[6] == x2[6] && x1[7] == x2[7] && x1[8] == x2[8] && x1[9] == x2[9];
      assert c1[Sex] == c2[Sex];
      assert c1[Smoker] == c2[Smoker];
      assert c1[Region] == c2[Region];
      assert c1.Keys == c2.Keys;
      assert forall k :: k in c1 ==> c1[k] == c2[k];
    }
  }

  /** Records that encode alike are priced alike, whatever the regressor does. */
  lemma SameVectorSameCharge(r1: Row, r2: Row, predict: Vector -> real, exp: real -> real)
    requires IsRawRecord(r1) && IsRawRecord(r2)
    requires Canonical(r1) == Canonical(r2)
    ensures Charge(r1, predict, exp) == Charge(r2, predict, exp)
  {
    SameVectorIffSameCanonical(r1, r2);
  }

  /** The example customer of the module's direct invocation. */
  const ExampleCustomer: Row := map[
    Age := Num(30.0), Sex := Text("male"), Bmi := Num(35.5),
    Children := Num(1.0), Smoker := Text("yes"), Region := Text("southeast")
  ]

  /** The example customer, a 30-year-old male smoker from the southeast with bmi 35.5, encodes as expected. */
  lemma ExampleCustomerVector()
    ensures IsRawRecord(ExampleCustomer)
    ensures FeatureVector(ExampleCustomer) == [30.0, 35.5, 1.0, 1.0, 1065.0, 1.0, 1.0, 0.0, 1.0, 0.0]
  {
  }
}
