# Crop-care web application: a Dafny model of its request logic

The application is a small Flask site for farmers. Apart from static pages it
does four things, all in `app.py`:

- `/crop-result` lowercases the submitted soil kind and looks it up in a
  constant four-entry table (loamy, sandy, clay, black). An unknown soil kind
  gets the sentence "No matching crop found.".
- `/fertilizer-result` does the same for a crop name (rice, wheat, maize,
  cotton). The fallback is "No fertilizer found.".
- `/predict` refuses a request without an `image` file part with status 400.
  Otherwise it runs the plant-disease classifier and renders the label of the
  winning output. The classifier is built with one output per entry of the
  15-entry `disease_classes` list.
- `/register-farmer` reads seven required form fields and adds one row to the
  `Farmer` table.

The model is split into five modules:

- `Ascii` (ascii.dfy): lowercasing, standing in for Python's `str.lower()`.
- `Http` (http.dfy): the form, upload and response values the handlers see.
- `Recommendations` (recommendations.dfy): the two tables, the lookups and
  their handlers.
- `Disease` (disease.dfy): the label list, the classifier's output width,
  label selection and the `/predict` guard.
- `Registration` (registration.dfy): the `Farmer` record and the form parsing.
  It also holds `FarmerStore`, a class whose `rows` field is the table and whose
  `Register` method is the handler. The handler's `db.session.add` and
  `commit` become a single append to `rows`.

A missing form field is modelled as the response `MissingFormField(key)`. In
the source this is the exception that `request.form[key]` raises. It covers
`soil`, `crop` and the seven registration fields. Python evaluates keyword
arguments from left to right, so a registration with several fields missing
fails on the first one in column order. `ParseFarmer` models that order.

The success message is modelled exactly as `app.py` spells it. In the file,
the check-mark emoji is stored double-encoded, as the three characters
U+00E2, U+0153 and U+2026. The message constant uses those same three
characters.

## Model

| member | source | states |
|---|---|---|
| `Ascii.LowerChar` | app.py:78 | lowering a character never yields an upper-case ASCII letter; an upper-case letter maps to its lower-case partner, and every other character is left unchanged |
| `Ascii.Lower` | app.py:78 | `s.lower()` has the same length as `s`, each character lowered on its own, and the result contains no upper-case letter |
| `Ascii.LowerOfLowerCase` | app.py:79-84 | a string that is already lower case, such as every table key, is unchanged by lowering |
| `Ascii.LowerIdempotent` | app.py:78 | lowering twice gives the same string as lowering once |
| `Ascii.LowerEqualsIff` | app.py:78 | a string lowers to a lower-case key exactly when it has the key's length and spells the key with any mix of upper and lower case |
| `Recommendations.Get` | app.py:85 | `dict.get` returns one of the table's values or the default, and the default whenever the key is absent |
| `Recommendations.CropFor` | app.py:78-85 | the crop answer is always one of the table's values or "No matching crop found." |
| `Recommendations.FertilizerFor` | app.py:90-97 | the fertilizer answer is always one of the table's values or "No fertilizer found." |
| `Recommendations.CropResult` | app.py:76-86 | without a `soil` field the handler fails on that field, and only then; otherwise it renders crop-result.html with the crop lookup of the submitted soil kind, which is a table value or the fallback |
| `Recommendations.FertilizerResult` | app.py:88-98 | without a `crop` field the handler fails on that field, and only then; otherwise it renders fertilizer-result.html with the fertilizer lookup of the submitted crop name, which is a table value or the fallback |
| `Recommendations.LookupHitIff` | app.py:85 | for a table with distinct values and a fallback that is not one of them, a lowered lookup yields key k's value if and only if the text lowers to k |
| `Recommendations.LookupMissIff` | app.py:85 | for such a table, a lowered lookup yields the fallback if and only if the lowered text is not a key |
| `Recommendations.LookupCaseInsensitive` | app.py:78 | a lowered lookup gives the same answer for a text and for its lower-case form |
| `Recommendations.SoilToCropWellFormed` | app.py:79-85 | the soil table has lower-case keys and pairwise-distinct values, none equal to "No matching crop found." |
| `Recommendations.CropToFertilizerWellFormed` | app.py:91-97 | the crop table has lower-case keys and pairwise-distinct values, none equal to "No fertilizer found." |
| `Recommendations.TablesHaveFourEntries` | app.py:79-96 | the soil table and the crop table each have exactly four entries |
| `Recommendations.CropResultRendersLookup` | app.py:76-86 | for a submitted soil kind, the page shows each of the four crop answers exactly when the text lowers to its soil key, and the fallback exactly when it lowers to none; re-submitting the lower-cased text renders the same page |
| `Recommendations.FertilizerResultRendersLookup` | app.py:88-98 | for a submitted crop name, the page shows each of the four fertilizer answers exactly when the text lowers to its crop key, and the fallback exactly when it lowers to none; re-submitting the lower-cased text renders the same page |
| `Recommendations.CropForExactly` | app.py:78-85 | 'Rice, Wheat', 'Groundnut, Potato', 'Paddy, Sugarcane' and 'Cotton, Soybean' are returned for exactly the inputs lowering to loamy, sandy, clay and black; the fallback for exactly all other inputs |
| `Recommendations.FertilizerForExactly` | app.py:90-97 | 'Urea + DAP', 'Urea + MOP', 'NPK 20-20-20' and 'NPK + Potash' are returned for exactly the inputs lowering to rice, wheat, maize and cotton; the fallback for exactly all other inputs |
| `Recommendations.LookupsIgnoreCase` | app.py:78-97 | both lookups give the same answer for a text and its lower-case form, and each answer is one of five fixed strings |
| `Recommendations.CropForAnyCase` | app.py:78-85 | 'Rice, Wheat' is returned for exactly the five-letter inputs that spell "loamy" in any mix of cases |
| `Disease.DiseaseClassesDistinct` | app.py:26-35 | the label list has exactly 15 entries, and they are pairwise distinct |
| `Disease.LabelOf` | app.py:73 | the label selected by a valid index is in the list, and no other index selects the same label |
| `Disease.EveryOutputHasALabel` | app.py:36-73 | the model has one output per label, so every index the arg-max can produce is a valid position in the label list |
| `Disease.Predict` | app.py:61-74 | a request without an `image` part gets "No file uploaded." with status 400, and only such a request does; any other request renders disease-result.html with the list entry at the classifier's winning index |
| `Disease.PredictWithoutImage` | app.py:63-64 | without an `image` part the response is a status-400 body that is not a disease label, whatever the classifier would answer |
| `Registration.Columns` | app.py:17-23 | a row has one value per required column, in column order |
| `Registration.ParseFarmer` | app.py:102-111 | a record is built if and only if all seven fields were submitted, and then each column holds its field's submitted value; otherwise the failure names the first missing field in column order |
| `Registration.FormOf` | app.py:103-111 | the form for a record submits every required field with that record's column value |
| `Registration.ParseFormOf` | app.py:102-111 | submitting a record's own form, with any extra fields, builds exactly that record (parsing inverts form building) |
| `Registration.AfterRegister` | app.py:102-113 | a complete form appends its record to the table; an incomplete one leaves the table as it was |
| `Registration.RegisterOneRow` | app.py:102-113 | with all seven fields present, exactly one row is added, after the unchanged old rows, and its columns equal the submitted values; with any field missing the table is unchanged |
| `Registration.AfterAllAppends` | app.py:100-113 | over any series of requests the table only grows: the old rows stay unchanged in place, and the new rows are the complete submissions in arrival order |
| `Registration.FarmerStore.constructor` | app.py:117-118 | a freshly created table is empty |
| `Registration.FarmerStore.Register` | app.py:100-114 | a complete form appends exactly its record and renders success.html with the success message; an incomplete form fails on its first missing field and leaves the table unchanged; old rows are always kept as a prefix |

## Left out

- Image decoding, resizing, tensor conversion, the forward pass and `torch.max` (app.py:66-72) are float numerics in foreign libraries. They are the parameter `classify` of `Disease.Predict`, which yields the winning index. The only assumption about it is that the index is below the model's output count.
- An upload that is present but cannot be decoded as an image raises inside the image library and becomes a server error. The model has no such case, because `classify` always yields an index.
- The network architecture (model.py), the weights file and the training script (train.py) are not part of this model.
- `Ascii.Lower`: lowers only ASCII A-Z, whereas Python's `str.lower()` follows Unicode. For example, the Kelvin sign U+212A lowers to "k" in Python, so Python matches "blacK" to "black" and the model does not. Unicode case mapping is not modelled.
- A missing form field is modelled as `MissingFormField`. The web framework turns that exception into an HTTP error status, and that translation is not modelled.
- The `Farmer` table's generated `id` (autoincrement primary key) is not modelled. Neither are the SQLite file, the database session and its transaction semantics, or concurrent requests.
- `String(100)` column lengths are not modelled, because SQLite does not enforce them. `nullable=False` never refuses a submitted value, since form values are strings and never `None`. Empty strings are therefore stored like any other value, and the model accepts them too.
- Flask routing, template rendering, the static pages (app.py:41-59), `app.run` and debug mode are I/O plumbing. A rendered page is modelled as the template name together with the single value passed to it.
