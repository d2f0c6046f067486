# Palm Oil Smart Detector — verdict rule

A Dafny model of the decision logic of the palm-oil fruit ripeness detector,
a single-page Streamlit app (`app.py`). The app crops an uploaded photo to
224x224, normalises every channel value, runs a four-class image classifier
and turns the resulting probability vector into one verdict card. The model
covers everything in that pipeline that is the app's own logic:

- `preprocess.dfy`, module `Preprocess`: the per-value normalisation
  `v / 127.5 - 1` of 8-bit channel values, over a single value and over a
  flattened image array.
- `decision.dfy`, module `Decision`:
  - the arg-max with numpy's tie-break (first maximal index);
  - the first-match-wins rule. The "Bukan Sawit" class (index 3) gives
    TIDAK DIKENALI. Otherwise a confidence below 0.65 gives MERAGUKAN.
    Otherwise classes 0, 1 and 2 give MENTAH, MATANG and LEWAT MATANG;
  - the static display table (background, text colour, title, description,
    icon) for the five statuses;
  - the detail-view filter that chooses which per-class bars are listed.

Probabilities and tensor values are exact `real`s. The classifier is not
modelled: its output vector is the input of `Decide`.

`Decide` is defined for vectors of any length, with the failure paths the
script has. An empty vector makes `np.argmax` raise. A vector longer than
four whose arg-max lies past index 3 with confidence at least 0.65 falls
through every branch of `app.py:156-173`. Then no display value is bound
and the card at `app.py:176` cannot be built. Both end in the generic error
message of `app.py:198-200`, modelled as `Err`. For the four-class vectors
the app actually receives, `Decide` is proved total. `DecideMatchesRule` ties
it to `IsVerdictFor`, a declarative statement of the rule. The detail view
likewise returns `OutOfRange` when a listed class has no score, which is
where `prediction[0][i]` would raise.

## Model

| member | source | states |
|---|---|---|
| `Preprocess.Normalize` | app.py:124 | every channel value 0..255 maps into [-1, 1], and `Denormalize` recovers the original value from the result |
| `Preprocess.NormalizeAll` | app.py:123-124 | the element-wise normalisation of an image array keeps its length, every entry lies in [-1, 1], and each entry denormalises to the channel value at the same position |
| `Preprocess.NormalizeEndpoints` | app.py:124 | 0 maps to -1, 255 maps to 1, and the sign changes between 127 and 128 |
| `Preprocess.NormalizeStrictlyIncreasing` | app.py:124 | a brighter channel value always gives a strictly larger tensor value |
| `Preprocess.NormalizeSymmetric` | app.py:124 | complementing a channel value (255 - v) negates its normalised value |
| `Decision.Argmax` | app.py:130-131 | the predicted index is in range, its score is at least every other score, and every earlier index has a strictly smaller score, so ties go to the lowest index |
| `Decision.ArgmaxIsFirstMax` | app.py:130 | an index is the first maximum of the vector exactly when it is the one `Argmax` returns |
| `Decision.Decide` | app.py:130-173 | an empty vector is the only one rejected as empty; every four-class vector gets a verdict; a verdict's index is the first maximum and its confidence is that index's score; any other failure is a confident arg-max beyond index 3, which no branch covers |
| `Decision.DecideMatchesRule` | app.py:139-173 | `Decide` returns a verdict exactly when it satisfies the declarative first-match-wins rule: negative class, then the strict 0.65 guard, then the ripeness table |
| `Decision.VerdictExistsAndIsUnique` | app.py:139-173 | every four-class vector has a verdict under the rule, and no two different verdicts satisfy it |
| `Decision.NotPalmTakesPrecedence` | app.py:139-144 | when class 3 outscores every palm class the verdict is TIDAK DIKENALI with icon 🚫, whatever its confidence, including below 0.65 |
| `Decision.NotPalmLosesTies` | app.py:130-144 | when a palm class ties with class 3 the arg-max is a palm class, so the verdict is never TIDAK DIKENALI |
| `Decision.LowConfidenceIsDoubtful` | app.py:147-152 | on a four-class vector the status is MERAGUKAN (icon ⚠️, orange #FF6F00) exactly when the index is not 3 and the confidence is below 0.65 |
| `Decision.ThresholdIsStrict` | app.py:147-173 | a palm class with confidence exactly 0.65 gets its ripeness verdict, not MERAGUKAN |
| `Decision.ConfidentRipeness` | app.py:155-173 | confident classes 0, 1 and 2 give MENTAH (UNRIPE) on #D50000, MATANG (RIPE) on #00C853, and LEWAT MATANG on #FFD600 with dark text #212121 |
| `Decision.TitlesDistinct` | app.py:139-173 | two different statuses never show the same title |
| `Decision.BackgroundsDistinct` | app.py:139-173 | two different statuses never use the same background colour |
| `Decision.IconsShared` | app.py:139-173 | two statuses show the same icon exactly when they are equal or are MERAGUKAN and LEWAT MATANG (both ⚠️) |
| `Decision.ExampleRipe` | app.py:130-167 | [0.05, 0.90, 0.03, 0.02] gives MATANG (RIPE) at index 1 with confidence 0.90 |
| `Decision.ExampleDoubtful` | app.py:130-152 | [0.20, 0.30, 0.25, 0.25] peaks on class 1 at 0.30, below the threshold, so it gives MERAGUKAN |
| `Decision.ExampleNotPalm` | app.py:130-144 | [0.1, 0.1, 0.1, 0.7] peaks on class 3, so it gives TIDAK DIKENALI |
| `Decision.BarsFrom` | app.py:189-193 | the filtering loop from position i lists the consecutive classes i up to the shown count, each with its own label and unchanged score, and fails exactly when the vector lacks a listed class |
| `Decision.ShownBars` | app.py:189-193 | the detail view lists classes 0, 1, 2 in order and class 3 only when the verdict index is 3; each bar carries its label and the score unchanged |
| `Decision.DetailViewOfVerdict` | app.py:189-196 | for a decided four-class vector the detail view always exists, lists at least classes 0 to 2 in ascending order with unchanged scores, and contains class 3 exactly when the verdict is TIDAK DIKENALI |

## Left out

- Page configuration, CSS, sidebar, columns, placeholder card, the HTML result card and the expander (app.py:7-114, 176-187): presentation only.
- Model loading and its cache (app.py:66-70) and `model.predict` (app.py:129): an opaque trained network read from disk; its output vector is the input of `Decide`.
- Image decoding, RGB conversion (app.py:98) and the Lanczos crop-and-resize `ImageOps.fit` (app.py:122): library calls whose behaviour is not visible here, so the fixed 224x224x3 tensor shape is not modelled.
- Building the numpy batch array (app.py:125-126): only the per-value formula is modelled; `NormalizeAll` works on a flattened sequence of channel values.
- Preprocess.Normalize: exact real arithmetic, not float32 rounding, so it does not capture rounding of v / 127.5.
- Decision.Decide: scores are exact reals, so NaN scores (which numpy's arg-max would pick) and float comparison at the 0.65 boundary are not modelled.
- The percentage texts (`.1f` formatting) and the `int(score * 100)` progress-bar value (app.py:180, 195-196): display formatting of the unchanged score.
- The error display of the `except` block (app.py:198-200): modelled only as the `Err` and `OutOfRange` results that lead to it.
- The result card of app.py:176-184 is already on screen when the detail view fails; that partial output is not modelled.
