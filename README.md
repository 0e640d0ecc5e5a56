# Insurance charge predictor: the feature encoder and the risk tier

This project models the deterministic logic around a trained regressor that
predicts a customer's annual medical insurance charge. There are two modules.

- `Predict` (`predict.dfy`) models `preprocess_and_predict` in `src/predict.py`.
  A six-field customer record (age, sex, bmi, children, smoker, region) becomes
  a one-row table, here a map from column to cell. The method `Preprocess`
  follows the source's steps:
  - it adds the `Is_Obese` flag (strict `bmi > 30`) and the `bmi_age_interaction` product;
  - it one-hot encodes sex, smoker and region as pandas' get_dummies does. The
    source columns are dropped and one `<column>_<value>` indicator per record
    is added;
  - a loop (`FillMissing`) adds every schema column that is still missing, with value 0;
  - it selects the ten schema columns in their fixed order.

  `FeatureVector` defines the same encoding position by position. `Preprocess` is
  proved equal to it, and the encoding's properties are lemmas about
  `FeatureVector`. Among them: the strict obesity threshold, exact and
  case-sensitive category matching, at most one region indicator, and unknown
  categories falling back to the reference category (female, non-smoker,
  northeast). The pipeline `PreprocessAndPredict` returns `exp` of the
  regressor's output on the vector. Both the regressor and `exp` are
  uninterpreted function parameters.
- `App` (`app.dfy`) models the front end in `app.py`:
  - the ranges and option sets of the input widgets;
  - the six-key record they assemble;
  - the priority-ordered risk tier (smoker, then BMI over 30, then age over 50, then average).

  The tier is cross-checked against the encoder: it can be read back from the
  encoded vector, and for a non-smoker the obesity tier coincides with `Is_Obese`.

Column names are a datatype, `Column`. An indicator column is
`Dummy(source, value)`, and `Name` renders it as pandas does, `<source>_<value>`.
`NameInjective` proves that two table columns have the same name only when they
are the same column. Keying the table by `Column` rather than by name string
therefore loses nothing.

## Model

| member | source | states |
|---|---|---|
| Predict.SchemaNames | src/predict.py:25-29 | The schema has ten columns, named `age, bmi, children, Is_Obese, bmi_age_interaction, sex_male, smoker_yes, region_northwest, region_southeast, region_southwest` in that order. |
| Predict.NameInjective | src/predict.py:51 | The `<column>_<value>` naming never makes two distinct table columns share a name, so keying the table by column is faithful to keying it by name. |
| Predict.AddEngineered | src/predict.py:46-47 | The record's cells are kept. `Is_Obese` is 1 when bmi is strictly over 30 and 0 otherwise, and `bmi_age_interaction` is exactly bmi times age. No other column is added. |
| Predict.GetDummies | src/predict.py:51 | Sex, smoker and region are dropped. The numeric columns are kept unchanged. Exactly one indicator is added per categorical column, the one named after its value, holding 1. |
| Predict.EncodedIndicator | src/predict.py:51 | The encoded table has the indicator of value `v` for a categorical column exactly when the record's value is `v`, and that indicator holds 1. |
| Predict.FillMissing | src/predict.py:57-59 | The loop only adds the schema columns that are absent, each with value 0. It never overwrites a column already present and leaves every other column unchanged. |
| Predict.Select | src/predict.py:62 | The selection has one entry per listed column, in the listed order, each the table's value in that column. |
| Predict.Preprocess | src/predict.py:43-62 | Running the four steps on a record gives exactly the reference encoding `FeatureVector`. |
| Predict.PreprocessAndPredict | src/predict.py:31-70 | The returned charge is `exp` of the regressor's output on the reference encoding of the record. |
| Predict.VectorLayout | src/predict.py:43-62 | The vector has ten entries whatever the categorical values. Age, bmi and children appear unchanged at positions 0 to 2, and position 4 is exactly bmi times age. |
| Predict.IsObeseStrict | src/predict.py:46 | Position 3 is 1 exactly when bmi is strictly over 30, and 0 exactly when bmi is at most 30, so bmi 30 gives 0. |
| Predict.IndicatorsExact | src/predict.py:51-62 | Every indicator position is 0 or 1. `sex_male` is 1 iff sex is `male`, `smoker_yes` iff smoker is `yes`, and each region indicator iff region is exactly that region. |
| Predict.AtMostOneRegion | src/predict.py:51-62 | At most one region indicator is 1. None is 1 exactly when the region is not northwest, southeast or southwest. |
| Predict.MatchingIsCaseSensitive | src/predict.py:51 | `Male` and `male` give different vectors: matching is on the exact string. |
| Predict.Canonical | src/predict.py:51-62 | Replacing unrecognized values by the reference categories gives a recognized record with the same numeric cells. A recognized record is left unchanged. |
| Predict.UnrecognizedIsReference | src/predict.py:57-62 | Every record encodes exactly as its canonical form does. |
| Predict.UnknownSexIsFemale | src/predict.py:57-62 | A sex other than `male`, including a differently cased one, encodes as `female`. |
| Predict.UnknownSmokerIsNo | src/predict.py:57-62 | A smoker value other than `yes` encodes as `no`. |
| Predict.UnknownRegionIsNortheast | src/predict.py:57-62 | A region other than northwest, southeast or southwest encodes as `northeast`. |
| Predict.SameVectorIffSameCanonical | src/predict.py:51-62 | Two records get the same vector if and only if their canonical forms are equal. |
| Predict.SameVectorSameCharge | src/predict.py:62-70 | Records with equal canonical forms get the same predicted charge, whatever the regressor and `exp` are. |
| Predict.ExampleCustomerVector | src/predict.py:75-82 | The example customer (age 30, male, bmi 35.5, one child, smoker, southeast) encodes as `[30, 35.5, 1, 1, 1065, 1, 1, 0, 1, 0]`. |
| App.UserInput | app.py:60-67 | The record has exactly the keys age, sex, bmi, children, smoker and region. Each holds its widget's value, and the record is a valid input to the encoder. |
| App.RiskAnalysis | app.py:83-90 | High risk iff a smoker. Elevated (obesity) iff a non-smoker with bmi over 30. Elevated (age) iff a non-smoker with bmi at most 30 and age over 50. Average otherwise. |
| App.RiskIsFirstMatch | app.py:83-90 | The tier is that of the first rule in the priority list smoker, bmi, age that holds, and average when none does. |
| App.SmokerAlwaysHigh | app.py:83-84 | A smoker is high risk whatever the bmi and age. |
| App.ObesityIgnoresAge | app.py:85-86 | A non-smoker with bmi over 30 is in the obesity tier whatever the age. |
| App.RiskFromEncoding | app.py:83-90 | The tier computed from the widget values equals the same rule read from the encoded vector (smoker_yes, Is_Obese, age). |
| App.ObesityTierIffIsObese | app.py:85 | For a non-smoker, the obesity tier is chosen exactly when the encoder's `Is_Obese` is 1. |
| App.WidgetInputsRecognized | app.py:30-47 | Every value the widgets allow is recognized by the encoder, so none is silently mapped to a reference category. The vector stays in range: age 18 to 100, bmi 10 to 60, children 0 to 5, product 180 to 6000, at most one region indicator. |
| App.DefaultsAverage | app.py:30-47 | The widgets' defaults (30, no children, southeast, bmi 28, male, non-smoker) are in range and of average risk. |
| App.Calculate | app.py:60-90 | Pressing the button gives the charge of the assembled record and the risk tier of the widget values. |

## Left out

- Loading of the pickled model and its re-raised file error (`src/predict.py:8-21`) is file I/O. The regressor is a parameter instead.
- The random-forest internals of the regressor and the floating-point exponential are uninterpreted function parameters. Nothing is proved about their values.
- Predict.AddEngineered: bmi and the product are exact reals. Floating-point rounding of `bmi * age` is not modelled.
- Predict.Preprocess: assumes a record of exactly the six fields with numbers and strings in the right places. A Python dict with extra keys, missing keys or other value types is not modelled.
- pandas' dtype machinery is not modelled. Integer and float columns are both reals, and the one-row DataFrame is a map from column to cell.
- Column order inside the intermediate tables is not modelled, because only the final selection fixes an order.
- The page layout, spinner, button, message rendering and currency formatting of `app.py` are user interface. So are its `sys.path` setup and the demonstration printout of `src/predict.py`, apart from its example record.
- No feature-schema mismatch error is modelled. The encoder always produces the ten schema columns, and the code has no such check.
- That a smoker is never charged less than an otherwise equal non-smoker is not modelled. It depends on the trained model, which is a parameter here.
- Column names follow the code (`Is_Obese`, `sex_male`, `smoker_yes`, `region_northwest`, ...), not the variants `is_obese` and `sex_is_male`.
