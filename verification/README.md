# Health-ChatBot intake and request encoding, modelled in Dafny

Health-ChatBot is a small symptom checker. A React page shows the symptom
catalog as checkboxes and posts the checked symptoms to a Flask service. The
service turns them into a 0/1 feature vector, classifies it with a trained
decision tree and answers with the disease, its description and its
precautions, looked up in tables loaded from CSV files.

This project models both sides of that exchange:

- `app.dfy` (module `Intake`): the page component. Class `App` holds the three
  state cells (`symptoms`, `selectedSymptoms`, `response`). Its methods are the
  catalog fetch continuation, the checkbox handler and the submit handler. The
  pure functions `Check`, `Uncheck`, `Change` and `SubmitPayload` are the update
  and payload computations. `RenderCatalog`, `RenderPrecautions` and
  `RenderResponse` are the render decisions, as lists of elements.
- `chat_bot.dfy` (module `ChatBot`): the service. `EncodeSymptoms` is the
  encoding loop of `predict_disease`, over an array, proved against
  `FeatureVector` and `Missing`. Class `ChatBotServer` holds the three global
  dictionaries. Its loader methods are the CSV row loops, proved against `Load`.
  The route methods are the bodies of `/get_symptoms`, `/predict` and
  `/start_conversation`.
- `pytext.dfy` (module `PyText`): the Python string built-ins the service
  applies, namely `str.strip()`, `str.lower()` and `int(str)`, on ASCII. The
  two strip with different sets: `str.strip()` drops every character for
  which `str.isspace()` holds, while `int()` skips only C's `isspace` set
  (` \t\n\v\f\r`) and so refuses a numeral padded with `\x1c`-`\x1f`.
- `wire.dfy` (module `Wire`): the JSON exchange between the two sides.
- `wrappers.dfy`: `Option`, for absent JSON fields and failed parses.
- `lists.dfy` (module `Lists`): `Distinct`, shared by both sides.

The page modelled is `frontend/src/App.js`. It sends the selection in click
order, and a checkbox change appends the value to a list or filters it out of
the list.

The classifier (`clf.predict` followed by `le.inverse_transform`) is the
parameter `classify: seq<int> -> string`. The model does not interpret it.
Network outcomes are parameters of the state updates (`Outcome.Ok(value)` or
`Outcome.Failed`). CSV files are given as already-parsed rows.

## Model

| member | source | states |
|---|---|---|
| `Intake.App.constructor` | frontend/src/App.js:4-6 | The catalog and the selection start empty and the response starts as `null`. |
| `Intake.App.FetchSymptoms` | frontend/src/App.js:10-18 | On success the catalog becomes the reply's `symptoms` list. On failure the catalog keeps its old value. |
| `Intake.CatalogFailureShowsPlaceholder` | frontend/src/App.js:14-17 | Starting from the initial state, a failed catalog request leaves exactly one "Loading symptoms..." placeholder on screen. |
| `Intake.App.HandleSymptomChange` | frontend/src/App.js:24-33 | Check appends the value at the end and keeps the old selection as the prefix. Uncheck leaves no occurrence of the value and keeps every other element as often as before. |
| `Intake.Check` | frontend/src/App.js:27 | Definition: `[...prevSymptoms, value]`. |
| `Intake.Uncheck` | frontend/src/App.js:29-31 | Definition: `prevSymptoms.filter((symptom) => symptom !== value)`. |
| `Intake.Change` | frontend/src/App.js:24-33 | Definition: the updater passed to `setSelectedSymptoms`, `Check` when the box is checked and `Uncheck` otherwise. |
| `Intake.UncheckAppend` | frontend/src/App.js:29-31 | The filter of a concatenation is the concatenation of the filters, so the remaining elements keep their relative order. |
| `Intake.UncheckCounts` | frontend/src/App.js:29-31 | After unchecking, the value occurs zero times and every other element occurs as often as before. |
| `Intake.UncheckAbsent` | frontend/src/App.js:29-31 | Unchecking a value that is not selected leaves the selection unchanged. |
| `Intake.UncheckIdempotent` | frontend/src/App.js:29-31 | Unchecking the same value twice gives the same result as unchecking it once. |
| `Intake.CheckThenUncheck` | frontend/src/App.js:24-33 | For a value not selected, check followed by uncheck restores the selection exactly. |
| `Intake.ChangeKeepsDistinct` | frontend/src/App.js:24-33 | If check events only come for unselected values, as a checkbox produces them, the selection never holds a value twice. |
| `Intake.UncheckKeepsDistinct` | frontend/src/App.js:29-31 | Filtering a duplicate-free selection leaves it duplicate-free. |
| `Intake.SubmitPayload` | frontend/src/App.js:37-41 | Definition: the posted body, with the selection, `days` = 3 and an empty `additional_symptoms`. |
| `Intake.App.HandleSubmit` | frontend/src/App.js:36-57 | The posted payload holds the selection verbatim in click order, with `days` = 3 and `additional_symptoms` = []. The response becomes the parsed reply on success and the literal "Error processing your request." on failure, replacing the previous one. |
| `Intake.FailedSubmitReplacesDiagnosis` | frontend/src/App.js:51-56 | After a successful submit, the box shows the diagnosis: its disease, its description and its precaution items. A failed submit after it replaces the box with the error box: empty heading and the single placeholder item. |
| `Intake.Checkboxes` | frontend/src/App.js:65-76 | One checkbox per name, in order. Each is keyed, valued and labelled by its name. |
| `Intake.RenderCatalog` | frontend/src/App.js:64-79 | A non-empty catalog of N names gives exactly N checkboxes, in catalog order, each keyed, valued and labelled by its name. An empty catalog gives exactly one "Loading symptoms..." placeholder. |
| `Intake.PrecautionItems` | frontend/src/App.js:92-94 | One list item per precaution, in order. Each item is keyed by its index. |
| `Intake.RenderPrecautions` | frontend/src/App.js:91-97 | A present, non-empty precaution list gives one item per precaution, in order, keyed by its index. An absent or empty list gives exactly one "No precautions available" item. |
| `Intake.RenderResponse` | frontend/src/App.js:85-100 | No box while the response is `null`. A parsed reply shows its disease, its description and its precaution items. The error string shows empty text and the placeholder item. |
| `PyText.Strip` | backend/chat_bot.py:97 | Definition: `str.strip()`, that is right stripping after left stripping, with the ASCII `str.isspace()` set as whitespace. |
| `PyText.StripLeftShape` | backend/chat_bot.py:97 | Left stripping gives the longest suffix that does not start with a whitespace character, and only whitespace characters are dropped. |
| `PyText.StripRightShape` | backend/chat_bot.py:97 | Right stripping gives the longest prefix that does not end with a whitespace character, and only whitespace characters are dropped. |
| `PyText.Lower` | backend/chat_bot.py:97 | Definition: `str.lower()` on ASCII, mapping each character on its own. |
| `PyText.LowerShape` | backend/chat_bot.py:97 | Lowercasing keeps the length, and each character becomes its lower-case form if it is `A`-`Z` and stays as it is otherwise. |
| `PyText.Normalize` | backend/chat_bot.py:97 | Definition: `item.strip().lower()`. |
| `PyText.NormalizeShape` | backend/chat_bot.py:97 | A normalised name has no whitespace at either end and no upper-case ASCII letter. |
| `PyText.NormalizeIdempotent` | backend/chat_bot.py:97 | Normalising a normalised name changes nothing. |
| `PyText.ParseInt` | backend/chat_bot.py:53 | Definition: `int(s)` in base 10, with `None` for `ValueError`. It skips C whitespace at both ends, then reads an optional sign and digits with single underscores between them, and refuses more than 4300 digits. |
| `PyText.ParseIntAccepts` | backend/chat_bot.py:53 | A numeral (optional sign, then digits with single underscores between them) padded on each side by ` \t\n\v\f\r` only is read as its signed value if it has at most 4300 digits, and refused otherwise. |
| `PyText.ParseIntOnlyNumerals` | backend/chat_bot.py:53 | Every string `int()` accepts is such a numeral of at most 4300 digits, padded only by ` \t\n\v\f\r`. A value padded with `\x1c`-`\x1f`, or holding anything else, raises `ValueError`. |
| `PyText.ParseIntDecimal` | backend/chat_bot.py:53 | `int(str(n)) == n` for every integer `n` of at most 4300 digits, negative ones included. A longer numeral raises `ValueError`. |
| `ChatBot.ColumnIndex` | backend/chat_bot.py:90 | The index map has exactly the column names as keys, and each key maps to a position that holds that name. |
| `ChatBot.ColumnIndexLast` | backend/chat_bot.py:90 | A repeated name maps to its last position. With distinct names, column i maps to i. |
| `ChatBot.ColumnIndexSize` | backend/chat_bot.py:90-91 | With distinct names, `symptoms_dict` has one entry per column, so the zero vector has one entry per column. |
| `ChatBot.FeatureVector` | backend/chat_bot.py:90-99 | Definition: one entry per column, 1 when some item normalises to the name that `symptoms_dict` maps to that entry, and 0 otherwise. |
| `ChatBot.Missing` | backend/chat_bot.py:94-101 | Definition: the normalised items that are not column names, in input order, with duplicates kept. |
| `ChatBot.EncodeSymptoms` | backend/chat_bot.py:89-101 | The zero vector is allocated with `len(symptoms_dict)` entries. When that equals the number of columns, the loop builds exactly `FeatureVector` (one entry per column) and exactly `Missing`. |
| `ChatBot.PredictDisease` | backend/chat_bot.py:89-109 | For distinct column names, the predicted disease is the classifier applied to the feature vector of the input. |
| `ChatBot.FeatureVectorEntry` | backend/chat_bot.py:90-99 | With distinct columns, the vector has one entry per column. Entry i is 1 iff some input item, stripped and lowercased, equals column i, and 0 otherwise. |
| `ChatBot.FeatureVectorOnlyRecognised` | backend/chat_bot.py:96-99 | Two inputs with the same set of recognised normalised names give the same vector, whatever their order or repetitions. |
| `ChatBot.MissingAppend` | backend/chat_bot.py:94-101 | The missing list of a concatenation is the missing list of each part, in order, with duplicates kept. |
| `ChatBot.MissingMembers` | backend/chat_bot.py:94-101 | A name is reported missing iff it is not a column and some input item normalises to it. |
| `ChatBot.MissingOrEncoded` | backend/chat_bot.py:96-101 | Each item either sets the vector entry of its column and is absent from the missing list, or appears, normalised, in the missing list. |
| `ChatBot.Load` | backend/chat_bot.py:30-31 | Definition: a row loop over a dictionary. Each row in order either writes one key/value pair, the later write replacing an earlier one, or leaves the dictionary as it is. |
| `ChatBot.LoadKeys` | backend/chat_bot.py:30-31 | After a row loop, a key is in the dictionary iff it was there before or some row writes it. |
| `ChatBot.LoadLastWins` | backend/chat_bot.py:40-41 | The last row that writes a key decides that key's value. |
| `ChatBot.LoadUntouched` | backend/chat_bot.py:50-53 | A key that no row writes keeps its earlier value. |
| `ChatBot.WideRows` | backend/chat_bot.py:30-31 | This is the number of leading rows with at least the given number of fields. The row after them, if any, is too short. |
| `ChatBot.DescriptionEntry` | backend/chat_bot.py:31 | Definition: a row of at least two fields writes `row[1]` under `row[0]`. A shorter row is where `row[1]` raises `IndexError`. |
| `ChatBot.PrecautionEntry` | backend/chat_bot.py:41 | Definition: a non-empty row writes `row[1:]` under `row[0]`. An empty row is where `row[0]` raises `IndexError`. |
| `ChatBot.SeverityEntry` | backend/chat_bot.py:51-57 | Definition: a row of exactly two fields whose second field `int()` accepts writes that integer under `row[0]`. Any other row writes nothing. |
| `ChatBot.SeverityKeys` | backend/chat_bot.py:48-57 | The severity table gains an entry for a key iff some row has exactly two fields, the first equal to the key and the second accepted by `int()`. Acceptance is as `PyText.ParseIntAccepts` and `PyText.ParseIntOnlyNumerals` state: C-whitespace padding only, at most 4300 digits. |
| `ChatBot.SeverityLastRowWins` | backend/chat_bot.py:50-53 | A two-field row whose value `int()` accepts, and that no later such row overrides, gives its key the parsed integer. |
| `ChatBot.PrecautionLastRowWins` | backend/chat_bot.py:39-41 | A row's key maps to `row[1:]` unless a later row overrides it. |
| `ChatBot.DescriptionLastRowWins` | backend/chat_bot.py:29-31 | A row's key maps to `row[1]` unless a later row overrides it. |
| `ChatBot.ChatBotServer.constructor` | backend/chat_bot.py:18-21 | The three global dictionaries start empty. The columns, which pandas makes distinct, and the classifier are fixed. |
| `ChatBot.ChatBotServer.LoadDescriptionData` | backend/chat_bot.py:26-31 | The loader completes iff every row has at least two fields. Otherwise it stops at the first short row, and the table holds exactly the rows before that row. |
| `ChatBot.ChatBotServer.LoadPrecautionData` | backend/chat_bot.py:36-41 | The loader completes iff no row is empty. Otherwise it stops at the first empty row, and the table holds exactly the rows before that row. |
| `ChatBot.ChatBotServer.LoadSeverityData` | backend/chat_bot.py:46-57 | The table is the old table updated, in order, by every row with exactly two fields whose value `int()` accepts. Every other row is skipped, including a value padded with `\x1c`-`\x1f` or longer than 4300 digits. |
| `ChatBot.ChatBotServer.GetSymptoms` | backend/chat_bot.py:114-117 | The catalog sent is the symptom columns, in column order. |
| `ChatBot.AllSymptoms` | backend/chat_bot.py:151-155 | The combined list is `symptoms` followed by `additional_symptoms`, element by element. Each part is empty when its field is absent. |
| `ChatBot.DictGet` | backend/chat_bot.py:159-161 | Definition: `dict.get(key, default)`. |
| `ChatBot.Describe` | backend/chat_bot.py:159-161 | A known disease gets its stored description and precautions. An unknown one gets "No description available." and []. |
| `ChatBot.ChatBotServer.Predict` | backend/chat_bot.py:122-139 | The reply's disease is the classification of the `symptoms` field alone. The rest of the reply is looked up with defaults. |
| `ChatBot.ChatBotServer.StartConversation` | backend/chat_bot.py:144-168 | The reply's disease is the classification of `symptoms ++ additional_symptoms`. The rest of the reply is looked up with defaults. |
| `Wire.ToRequest` | frontend/src/App.js:37-49 | Definition: the posted body as the service reads it. `symptoms` and `additional_symptoms` are present, and `days` is never read. |
| `Wire.ToDiagnosis` | backend/chat_bot.py:164-168 | Definition: the service's reply as the page parses it, with the precautions always present. |
| `Wire.SubmittedSelectionIsClassified` | frontend/src/App.js:37-41 | The service classifies exactly the page's selection, in click order. |
| `Wire.ReplyRendering` | backend/chat_bot.py:159-168 | The page shows the service's disease as the heading and one item per stored precaution. An unknown disease shows the default description. An unknown disease, or one stored with no precautions (a row holding only its name), shows the single placeholder item. |

## Left out

- Training and prediction with scikit-learn are left out. The model does not include the decision tree, the label encoder or the train/test split. `classify` stands for `clf.predict` followed by `le.inverse_transform`, and nothing is assumed of it.
- File and CSV reading (`open`, `csv.reader`, `pd.read_csv`) is left out. The loaders take already-parsed rows, and the columns are a constructor argument.
- `pyttsx3`, the `print` warnings for missing symptoms and skipped rows, and `console.error` are left out. They are output only.
- Flask routing, CORS, `jsonify` and `request.get_json` are left out. Requests and replies are records. Only list-valued `symptoms` and `additional_symptoms` fields, or absent ones, are modelled. A string value, which `list()` splits into characters, and a `null` value, which raises `TypeError`, are not modelled. Neither is a non-string list item. The `name` field, which is read but never used, is not modelled either.
- `fetch`, `async`/`await` and the interleaving of overlapping submits or of a late catalog load are left out. Each continuation is one atomic update.
- JSX and the DOM are left out. Rendering yields lists of element records.
- A catalog reply without a `symptoms` field is not modelled. It would set the catalog to `undefined`. A reply body that parses but lacks `disease` or `description` is not modelled either.
- `np.zeros` float storage is left out. The vector holds the integers 0 and 1.
- `PyText.Normalize` does not model Unicode whitespace or Unicode case mapping, because only ASCII is modelled. It treats exactly the ASCII characters for which `str.isspace()` is true as whitespace, and lowercases only `A`-`Z`.
- `PyText.ParseInt` does not model non-ASCII decimal digits or non-ASCII whitespace, which Python's `int()` also accepts. It models the ASCII rules: C whitespace at both ends, an optional sign, single underscores between digits and CPython's default limit of 4300 digits. The f-string at `backend/chat_bot.py` lines 104-105 spans a line break inside its braces, which only Python 3.12 and later accept, so every interpreter that runs the service has that limit. A limit changed with `sys.set_int_max_str_digits` or `PYTHONINTMAXSTRDIGITS` is not modelled.
- `ChatBot.ChatBotServer.LoadDescriptionData` and `ChatBot.ChatBotServer.LoadPrecautionData` do not model how the exception propagates. The `IndexError` that aborts start-up is the result `completed == false`.
- `ChatBot.EncodeSymptoms` does not model column names that occur twice. The source then allocates `len(symptoms_dict)` entries, fewer than the number of columns. An item whose column's last position is at or beyond `len(symptoms_dict)` raises `IndexError`. Other inputs return a vector shorter than the column list. pandas makes header names unique, so the program never meets such columns, and the model requires `symptoms_dict` to have one entry per column.
