/**
 * The back end of the symptom checker (backend/chat_bot.py): the reference
 * tables loaded from CSV rows, the encoding of a symptom list into the
 * classifier's 0/1 feature vector, and the bodies of the two prediction routes.
 *
 * The trained classifier (a decision tree followed by the label decoder) is a
 * function `classify` from feature vector to disease name that the model does
 * not interpret.
 */
module ChatBot {
  import opened Wrappers
  import PyText
  import opened Lists

  /** One record as `csv.reader` yields it. */
  type Row = seq<string>

  /*
   * ---------------------------------------------------------------------
   * Symptom encoding (predict_disease)
   * ---------------------------------------------------------------------
   */

  /**
   * `symptoms_dict`: each column name mapped to its position; a name that
   * occurs twice keeps its last position, as a dict comprehension does.
   */
  function ColumnIndex(cols: seq<string>): (index: map<string, nat>)
    ensures index.Keys == set c | c in cols
    ensures forall c :: c in index ==> index[c] < |cols| && cols[index[c]] == c
  {
    if cols == [] then map[]
    else
      var n := |cols| - 1;
      ColumnIndex(cols[..n])[cols[n] := n]
  }

  /** A name maps to its last position; with distinct names, column `i` maps to `i`. */
  lemma {:induction false} ColumnIndexLast(cols: seq<string>, i: nat)
    requires i < |cols|
    ensures i <= ColumnIndex(cols)[cols[i]]
    ensures Distinct(cols) ==> ColumnIndex(cols)[cols[i]] == i
  {
    var n := |cols| - 1;
    if i < n && cols[i] != cols[n] {
      ColumnIndexLast(cols[..n], i);
      assert cols[..n][i] == cols[i];
    }
  }

  /** With distinct names, `symptoms_dict` has one entry per column. */
  lemma {:induction false} ColumnIndexSize(cols: seq<string>)
    requires Distinct(cols)
    ensures |ColumnIndex(cols)| == |cols|
  {
    if cols != [] {
      var n := |cols| - 1;
      assert Distinct(cols[..n]);
      ColumnIndexSize(cols[..n]);
      assert cols[n] !in cols[..n];
      assert cols[n] !in ColumnIndex(cols[..n]);
    }
  }

  /** Input item `item` sets entry `i` of the feature vector. */
  predicate Hits(cols: seq<string>, item: string, i: nat) {
    var key := PyText.Normalize(item);
    key in ColumnIndex(cols) && ColumnIndex(cols)[key] == i
  }

  /** Some item among the first `k` of `items` sets entry `i`. */
  predicate HitBefore(cols: seq<string>, items: seq<string>, k: nat, i: nat)
    requires k <= |items|
  {
    exists j :: 0 <= j < k && Hits(cols, items[j], i)
  }

  lemma {:induction false} HitBeforeStep(cols: seq<string>, items: seq<string>, k: nat, i: nat)
    requires k < |items|
    ensures HitBefore(cols, items, k + 1, i) <==> HitBefore(cols, items, k, i) || Hits(cols, items[k], i)
  {
    if HitBefore(cols, items, k + 1, i) && !Hits(cols, items[k], i) {
      var j :| 0 <= j < k + 1 && Hits(cols, items[j], i);
      assert j < k;
    }
  }

  /** A vector of one entry per column whose entries are set by the items is their feature vector. */
  lemma FeatureVectorByEntries(cols: seq<string>, items: seq<string>, w: seq<int>)
    requires |w| == |cols|
    requires forall i :: 0 <= i < |w| ==> w[i] == if HitBefore(cols, items, |items|, i) then 1 else 0
    ensures w == FeatureVector(cols, items)
  {
  }

  /** What one more item adds to the vector entries and to the missing list. */
  lemma EncodeStep(cols: seq<string>, items: seq<string>, k: nat)
    requires k < |items|
    ensures var key := PyText.Normalize(items[k]);
      && (forall i :: HitBefore(cols, items, k + 1, i) <==>
            HitBefore(cols, items, k, i) || Hits(cols, items[k], i))
      && Missing(cols, items[..k + 1]) ==
           Missing(cols, items[..k]) + (if key in ColumnIndex(cols) then [] else [key])
  {
    assert items[..k + 1][..k] == items[..k];
    forall i {
      HitBeforeStep(cols, items, k, i);
    }
  }

  /** Entry `i` is 1 when some input item sets it, and 0 otherwise. */
  function FeatureVector(cols: seq<string>, items: seq<string>): seq<int> {
    seq(|cols|, i requires 0 <= i < |cols| => if HitBefore(cols, items, |items|, i) then 1 else 0)
  }

  /** `missing_symptoms`: the normalised items that name no column, in input order. */
  function Missing(cols: seq<string>, items: seq<string>): seq<string> {
    if items == [] then []
    else
      var n := |items| - 1;
      var key := PyText.Normalize(items[n]);
      Missing(cols, items[..n]) + (if key in cols then [] else [key])
  }

  /** The normalised items that name a column. */
  function Recognised(cols: seq<string>, items: seq<string>): set<string> {
    set item | item in items && PyText.Normalize(item) in cols :: PyText.Normalize(item)
  }

  /**
   * The loop of `predict_disease`: fill a zero vector of `len(symptoms_dict)`
   * entries with a 1 at the column of each recognised item, and collect the
   * others in `missingSymptoms`. The vector has one entry per column exactly
   * when `symptoms_dict` does, that is when the names are distinct.
   */
  method EncodeSymptoms(cols: seq<string>, symptomsExp: seq<string>)
    returns (inputVector: seq<int>, missingSymptoms: seq<string>)
    requires |ColumnIndex(cols)| == |cols|
    ensures inputVector == FeatureVector(cols, symptomsExp)
    ensures missingSymptoms == Missing(cols, symptomsExp)
  {
    var symptomsDict := ColumnIndex(cols);
    var v := new int[|symptomsDict|](_ => 0);
    missingSymptoms := [];
    for k := 0 to |symptomsExp|
      invariant forall i :: 0 <= i < v.Length ==> v[i] == if HitBefore(cols, symptomsExp, k, i) then 1 else 0
      invariant missingSymptoms == Missing(cols, symptomsExp[..k])
    {
      var item := PyText.Normalize(symptomsExp[k]);
      EncodeStep(cols, symptomsExp, k);
      if item in symptomsDict {
        v[symptomsDict[item]] := 1;
      } else {
        missingSymptoms := missingSymptoms + [item];
      }
    }
    assert symptomsExp[..|symptomsExp|] == symptomsExp;
    inputVector := v[..];
    FeatureVectorByEntries(cols, symptomsExp, inputVector);
  }

  /** `predict_disease`: the classifier applied to the encoded input. */
  method PredictDisease(cols: seq<string>, classify: seq<int> -> string, symptomsExp: seq<string>)
    returns (disease: string)
    requires Distinct(cols)
    ensures disease == classify(FeatureVector(cols, symptomsExp))
  {
    ColumnIndexSize(cols);
    var inputVector, _ := EncodeSymptoms(cols, symptomsExp);
    disease := classify(inputVector);
  }

  /**
   * With distinct column names (pandas makes header names unique), entry `i`
   * is 1 exactly when some item normalises to column `i`, and 0 otherwise.
   */
  lemma {:induction false} FeatureVectorEntry(cols: seq<string>, items: seq<string>, i: nat)
    requires Distinct(cols) && i < |cols|
    ensures |FeatureVector(cols, items)| == |cols|
    ensures FeatureVector(cols, items)[i] == 1 <==>
      exists j :: 0 <= j < |items| && PyText.Normalize(items[j]) == cols[i]
    ensures FeatureVector(cols, items)[i] != 1 ==> FeatureVector(cols, items)[i] == 0
  {
    ColumnIndexLast(cols, i);
    if exists j :: 0 <= j < |items| && PyText.Normalize(items[j]) == cols[i] {
      var j :| 0 <= j < |items| && PyText.Normalize(items[j]) == cols[i];
      assert Hits(cols, items[j], i);
    }
  }

  /**
   * The vector depends on the input only through the set of recognised
   * names: neither order nor repetition of the items matters.
   */
  lemma FeatureVectorOnlyRecognised(cols: seq<string>, a: seq<string>, b: seq<string>)
    requires Recognised(cols, a) == Recognised(cols, b)
    ensures FeatureVector(cols, a) == FeatureVector(cols, b)
  {
    forall i | 0 <= i < |cols|
      ensures FeatureVector(cols, a)[i] == FeatureVector(cols, b)[i]
    {
      HitsThroughRecognised(cols, a, b, i);
      HitsThroughRecognised(cols, b, a, i);
    }
  }

  lemma HitsThroughRecognised(cols: seq<string>, a: seq<string>, b: seq<string>, i: nat)
    requires Recognised(cols, a) == Recognised(cols, b)
    ensures HitBefore(cols, a, |a|, i) ==> HitBefore(cols, b, |b|, i)
  {
    if HitBefore(cols, a, |a|, i) {
      var j :| 0 <= j < |a| && Hits(cols, a[j], i);
      var key := PyText.Normalize(a[j]);
      assert key in Recognised(cols, a);
      var item :| item in b && PyText.Normalize(item) in cols && PyText.Normalize(item) == key;
      var j' :| 0 <= j' < |b| && b[j'] == item;
      assert Hits(cols, b[j'], i);
    }
  }

  /** The unrecognised items of a concatenation are those of each part, in order. */
  lemma {:induction false} MissingAppend(cols: seq<string>, a: seq<string>, b: seq<string>)
    ensures Missing(cols, a + b) == Missing(cols, a) + Missing(cols, b)
  {
    if b == [] {
      assert a + b == a;
    } else {
      var n := |b| - 1;
      assert (a + b)[..|a + b| - 1] == a + b[..n];
      MissingAppend(cols, a, b[..n]);
    }
  }

  /** An item is reported missing exactly when its normal form names no column. */
  lemma {:induction false} MissingMembers(cols: seq<string>, items: seq<string>, name: string)
    ensures name in Missing(cols, items) <==> name !in cols && NormalizesTo(items, name)
  {
    if items != [] {
      var n := |items| - 1;
      var key := PyText.Normalize(items[n]);
      MissingMembers(cols, items[..n], name);
      assert Missing(cols, items) == Missing(cols, items[..n]) + (if key in cols then [] else [key]);
      if NormalizesTo(items[..n], name) {
        var j :| 0 <= j < n && PyText.Normalize(items[..n][j]) == name;
        assert items[j] == items[..n][j];
      }
      if NormalizesTo(items, name) && name != key {
        var j :| 0 <= j < |items| && PyText.Normalize(items[j]) == name;
        assert items[..n][j] == items[j];
      }
    }
  }

  /** Some item of `items` normalises to `name`. */
  predicate NormalizesTo(items: seq<string>, name: string) {
    exists j :: 0 <= j < |items| && PyText.Normalize(items[j]) == name
  }

  /** Each item lands either in the vector or in `missing_symptoms`, never both. */
  lemma {:induction false} MissingOrEncoded(cols: seq<string>, items: seq<string>, j: nat)
    requires j < |items|
    ensures var key := PyText.Normalize(items[j]);
      if key in cols then
        && |FeatureVector(cols, items)| == |cols|
        && FeatureVector(cols, items)[ColumnIndex(cols)[key]] == 1
        && key !in Missing(cols, items)
      else key in Missing(cols, items)
  {
    var key := PyText.Normalize(items[j]);
    MissingMembers(cols, items, key);
    if key in cols {
      assert Hits(cols, items[j], ColumnIndex(cols)[key]);
    }
  }

  /*
   * ---------------------------------------------------------------------
   * Reference tables (load_description_data, load_precaution_data,
   * load_severity_data)
   * ---------------------------------------------------------------------
   */

  /**
   * The dictionary after writing, row by row, the entry each row yields;
   * a row yielding `None` is skipped and a later write to a key wins.
   */
  function Load<V>(m: map<string, V>, rows: seq<Row>, entry: Row -> Option<(string, V)>): map<string, V> {
    if rows == [] then m
    else
      var n := |rows| - 1;
      var t := Load(m, rows[..n], entry);
      match entry(rows[n])
      case None => t
      case Some(kv) => t[kv.0 := kv.1]
  }

  /** A key is in the loaded table iff it was there before or some row yields it. */
  lemma {:induction false} LoadKeys<V>(m: map<string, V>, rows: seq<Row>, entry: Row -> Option<(string, V)>, key: string)
    ensures key in Load(m, rows, entry) <==>
      key in m || exists i :: 0 <= i < |rows| && entry(rows[i]).Some? && entry(rows[i]).value.0 == key
  {
    if rows != [] {
      var n := |rows| - 1;
      LoadKeys(m, rows[..n], entry, key);
      if exists i :: 0 <= i < n && entry(rows[..n][i]).Some? && entry(rows[..n][i]).value.0 == key {
        var i :| 0 <= i < n && entry(rows[..n][i]).Some? && entry(rows[..n][i]).value.0 == key;
        assert rows[..n][i] == rows[i];
      }
      if exists i :: 0 <= i < |rows| && entry(rows[i]).Some? && entry(rows[i]).value.0 == key {
        var i :| 0 <= i < |rows| && entry(rows[i]).Some? && entry(rows[i]).value.0 == key;
        if i < n {
          assert rows[..n][i] == rows[i];
        }
      }
    }
  }

  /** The last row that yields a key decides its value. */
  lemma {:induction false} LoadLastWins<V>(m: map<string, V>, rows: seq<Row>, entry: Row -> Option<(string, V)>, i: nat)
    requires i < |rows| && entry(rows[i]).Some?
    requires forall j :: i < j < |rows| && entry(rows[j]).Some? ==> entry(rows[j]).value.0 != entry(rows[i]).value.0
    ensures entry(rows[i]).value.0 in Load(m, rows, entry)
    ensures Load(m, rows, entry)[entry(rows[i]).value.0] == entry(rows[i]).value.1
  {
    var n := |rows| - 1;
    if i < n {
      forall j | i < j < n && entry(rows[..n][j]).Some?
        ensures entry(rows[..n][j]).value.0 != entry(rows[..n][i]).value.0
      {
        assert rows[..n][j] == rows[j];
      }
      LoadLastWins(m, rows[..n], entry, i);
    }
  }

  /** A key that no row yields keeps the value it had before loading. */
  lemma {:induction false} LoadUntouched<V>(m: map<string, V>, rows: seq<Row>, entry: Row -> Option<(string, V)>, key: string)
    requires key in m
    requires forall i :: 0 <= i < |rows| && entry(rows[i]).Some? ==> entry(rows[i]).value.0 != key
    ensures key in Load(m, rows, entry) && Load(m, rows, entry)[key] == m[key]
  {
    if rows != [] {
      var n := |rows| - 1;
      forall i | 0 <= i < n && entry(rows[..n][i]).Some?
        ensures entry(rows[..n][i]).value.0 != key
      {
        assert rows[..n][i] == rows[i];
      }
      LoadUntouched(m, rows[..n], entry, key);
    }
  }

  /** `description_list[row[0]] = row[1]`; a row with fewer fields has no entry. */
  function DescriptionEntry(row: Row): Option<(string, string)> {
    if |row| >= 2 then Some((row[0], row[1])) else None
  }

  /** `precautionDictionary[row[0]] = row[1:]`; an empty row has no entry. */
  function PrecautionEntry(row: Row): Option<(string, seq<string>)> {
    if |row| >= 1 then Some((row[0], row[1..])) else None
  }

  /** `severityDictionary[row[0]] = int(row[1])`, for two-field rows whose value parses. */
  function SeverityEntry(row: Row): Option<(string, int)> {
    if |row| == 2 then
      match PyText.ParseInt(row[1])
      case Some(v) => Some((row[0], v))
      case None => None
    else None
  }

  /** The number of leading rows with at least `width` fields. */
  function WideRows(rows: seq<Row>, width: nat): (k: nat)
    ensures k <= |rows|
    ensures forall j :: 0 <= j < k ==> |rows[j]| >= width
    ensures k < |rows| ==> |rows[k]| < width
  {
    if rows == [] || |rows[0]| < width then 0 else 1 + WideRows(rows[1..], width)
  }

  /**
   * The severity table has an entry for a key iff it had one before or some
   * row has exactly two fields, the first being the key and the second an
   * integer numeral.
   */
  lemma {:induction false} SeverityKeys(m: map<string, int>, rows: seq<Row>, key: string)
    ensures key in Load(m, rows, SeverityEntry) <==>
      key in m || exists i :: 0 <= i < |rows| && |rows[i]| == 2 && rows[i][0] == key && PyText.ParseInt(rows[i][1]).Some?
  {
    LoadKeys(m, rows, SeverityEntry, key);
    if exists i :: 0 <= i < |rows| && |rows[i]| == 2 && rows[i][0] == key && PyText.ParseInt(rows[i][1]).Some? {
      var i :| 0 <= i < |rows| && |rows[i]| == 2 && rows[i][0] == key && PyText.ParseInt(rows[i][1]).Some?;
      assert SeverityEntry(rows[i]).Some? && SeverityEntry(rows[i]).value.0 == key;
    }
  }

  /** A well-formed severity row that no later well-formed row overrides gives its key's value. */
  lemma {:induction false} SeverityLastRowWins(m: map<string, int>, rows: seq<Row>, i: nat)
    requires i < |rows| && |rows[i]| == 2 && PyText.ParseInt(rows[i][1]).Some?
    requires forall j :: i < j < |rows| && |rows[j]| == 2 && PyText.ParseInt(rows[j][1]).Some? ==> rows[j][0] != rows[i][0]
    ensures rows[i][0] in Load(m, rows, SeverityEntry)
    ensures Load(m, rows, SeverityEntry)[rows[i][0]] == PyText.ParseInt(rows[i][1]).value
  {
    LoadLastWins(m, rows, SeverityEntry, i);
  }

  /** The precaution of a row that no later row overrides is the rest of that row. */
  lemma {:induction false} PrecautionLastRowWins(m: map<string, seq<string>>, rows: seq<Row>, i: nat)
    requires i < |rows| && |rows[i]| >= 1
    requires forall j :: i < j < |rows| && |rows[j]| >= 1 ==> rows[j][0] != rows[i][0]
    ensures rows[i][0] in Load(m, rows, PrecautionEntry)
    ensures Load(m, rows, PrecautionEntry)[rows[i][0]] == rows[i][1..]
  {
    LoadLastWins(m, rows, PrecautionEntry, i);
  }

  /** The description of a row that no later row overrides is its second field. */
  lemma {:induction false} DescriptionLastRowWins(m: map<string, string>, rows: seq<Row>, i: nat)
    requires i < |rows| && |rows[i]| >= 2
    requires forall j :: i < j < |rows| && |rows[j]| >= 2 ==> rows[j][0] != rows[i][0]
    ensures rows[i][0] in Load(m, rows, DescriptionEntry)
    ensures Load(m, rows, DescriptionEntry)[rows[i][0]] == rows[i][1]
  {
    LoadLastWins(m, rows, DescriptionEntry, i);
  }

  /*
   * ---------------------------------------------------------------------
   * Routes
   * ---------------------------------------------------------------------
   */

  /** The JSON body of a prediction request; a field the client leaves out is `None`. */
  datatype Request = Request(symptoms: Option<seq<string>>, additionalSymptoms: Option<seq<string>>)

  /** The JSON body of a prediction reply. */
  datatype Reply = Reply(disease: string, description: string, precautions: seq<string>)

  const NoDescription := "No description available."

  /** `list(symptoms) + list(additional_symptoms)`, each defaulting to `[]`. */
  function AllSymptoms(req: Request): (all: seq<string>)
    ensures |all| == |req.symptoms.GetOr([])| + |req.additionalSymptoms.GetOr([])|
    ensures forall i :: 0 <= i < |req.symptoms.GetOr([])| ==> all[i] == req.symptoms.value[i]
    ensures forall i :: 0 <= i < |req.additionalSymptoms.GetOr([])| ==>
      all[|req.symptoms.GetOr([])| + i] == req.additionalSymptoms.value[i]
  {
    req.symptoms.GetOr([]) + req.additionalSymptoms.GetOr([])
  }

  /** The reply for a predicted disease: its stored description and precautions, or the defaults. */
  function Describe(disease: string, descriptions: map<string, string>, precautions: map<string, seq<string>>): (r: Reply)
    ensures r.disease == disease
    ensures r.description == if disease in descriptions then descriptions[disease] else NoDescription
    ensures r.precautions == if disease in precautions then precautions[disease] else []
  {
    Reply(disease, DictGet(descriptions, disease, NoDescription), DictGet(precautions, disease, []))
  }

  /** Python's `dict.get(key, default)`. */
  function DictGet<V>(m: map<string, V>, key: string, default: V): V {
    if key in m then m[key] else default
  }

  /**
   * The server's module-level state: the symptom columns and the trained
   * classifier, fixed when the module is imported, and the three global
   * dictionaries the loaders fill.
   */
  class ChatBotServer {
    const cols: seq<string>
    const classify: seq<int> -> string
    var severityDictionary: map<string, int>
    var descriptionList: map<string, string>
    var precautionDictionary: map<string, seq<string>>

    /** pandas gives every header column a unique name. */
    predicate Valid() {
      Distinct(cols)
    }

    constructor (cols: seq<string>, classify: seq<int> -> string)
      requires Distinct(cols)
      ensures Valid()
      ensures this.cols == cols && this.classify == classify
      ensures severityDictionary == map[] && descriptionList == map[] && precautionDictionary == map[]
    {
      this.cols := cols;
      this.classify := classify;
      severityDictionary := map[];
      descriptionList := map[];
      precautionDictionary := map[];
    }

    /**
     * `load_description_data`. A row with fewer than two fields raises
     * `IndexError`: loading stops there (`completed` is false) and the
     * dictionary keeps the rows before it.
     */
    method LoadDescriptionData(rows: seq<Row>) returns (completed: bool)
      modifies this`descriptionList
      ensures completed <==> forall k :: 0 <= k < |rows| ==> |rows[k]| >= 2
      ensures descriptionList == Load(old(descriptionList), rows[..WideRows(rows, 2)], DescriptionEntry)
    {
      var k := 0;
      while k < |rows|
        invariant k <= |rows|
        invariant forall j :: 0 <= j < k ==> |rows[j]| >= 2
        invariant descriptionList == Load(old(descriptionList), rows[..k], DescriptionEntry)
      {
        var row := rows[k];
        if |row| < 2 {
          return false;
        }
        assert rows[..k + 1][..k] == rows[..k];
        descriptionList := descriptionList[row[0] := row[1]];
        k := k + 1;
      }
      assert rows[..|rows|] == rows;
      return true;
    }

    /**
     * `load_precaution_data`. An empty row raises `IndexError`: loading stops
     * there (`completed` is false) and the dictionary keeps the rows before it.
     */
    method LoadPrecautionData(rows: seq<Row>) returns (completed: bool)
      modifies this`precautionDictionary
      ensures completed <==> forall k :: 0 <= k < |rows| ==> |rows[k]| >= 1
      ensures precautionDictionary == Load(old(precautionDictionary), rows[..WideRows(rows, 1)], PrecautionEntry)
    {
      var k := 0;
      while k < |rows|
        invariant k <= |rows|
        invariant forall j :: 0 <= j < k ==> |rows[j]| >= 1
        invariant precautionDictionary == Load(old(precautionDictionary), rows[..k], PrecautionEntry)
      {
        var row := rows[k];
        if |row| < 1 {
          return false;
        }
        assert rows[..k + 1][..k] == rows[..k];
        precautionDictionary := precautionDictionary[row[0] := row[1..]];
        k := k + 1;
      }
      assert rows[..|rows|] == rows;
      return true;
    }

    /** `load_severity_data`: malformed rows are skipped, never fatal. */
    method LoadSeverityData(rows: seq<Row>)
      modifies this`severityDictionary
      ensures severityDictionary == Load(old(severityDictionary), rows, SeverityEntry)
    {
      for k := 0 to |rows|
        invariant severityDictionary == Load(old(severityDictionary), rows[..k], SeverityEntry)
      {
        var row := rows[k];
        assert rows[..k + 1][..k] == rows[..k];
        if |row| == 2 {
          var value := PyText.ParseInt(row[1]);
          if value.Some? {
            severityDictionary := severityDictionary[row[0] := value.value];
          }
        }
      }
      assert rows[..|rows|] == rows;
    }

    /** `GET /get_symptoms`: the symptom columns, in column order. */
    method GetSymptoms() returns (symptoms: seq<string>)
      ensures symptoms == cols
    {
      symptoms := cols;
    }

    /** `POST /predict`: classifies the `symptoms` field alone. */
    method Predict(req: Request) returns (reply: Reply)
      requires Valid()
      ensures reply.disease == classify(FeatureVector(cols, req.symptoms.GetOr([])))
      ensures reply == Describe(reply.disease, descriptionList, precautionDictionary)
    {
      var predictedDisease := PredictDisease(cols, classify, req.symptoms.GetOr([]));
      reply := Describe(predictedDisease, descriptionList, precautionDictionary);
    }

    /** `POST /start_conversation`: classifies `symptoms` followed by `additional_symptoms`. */
    method StartConversation(req: Request) returns (reply: Reply)
      requires Valid()
      ensures reply.disease == classify(FeatureVector(cols, AllSymptoms(req)))
      ensures reply == Describe(reply.disease, descriptionList, precautionDictionary)
    {
      var predictedDisease := PredictDisease(cols, classify, AllSymptoms(req));
      reply := Describe(predictedDisease, descriptionList, precautionDictionary);
    }
  }
}
