/**
 * The front end of the symptom checker (frontend/src/App.js): one component
 * with three state cells (the symptom catalog, the selected symptoms and the
 * last diagnosis response), the handlers that update them, and the render
 * decisions for the catalog and the precaution list.
 *
 * Each asynchronous continuation (the catalog fetch, the diagnosis request)
 * is one atomic state update whose network outcome is a parameter.
 */
module Intake {
  import opened Wrappers
  import opened Lists

  /** What an awaited `fetch` followed by `res.json()` delivered. */
  datatype Outcome<T> = Ok(value: T) | Failed

  /** The parsed body of a diagnosis reply; `precautions` may be missing. */
  datatype Diagnosis = Diagnosis(disease: string, description: string, precautions: Option<seq<string>>)

  /** The `response` state cell: `null`, the parsed body, or an error string. */
  datatype Response = Null | Parsed(body: Diagnosis) | ErrorText(text: string)

  /** The JSON body posted to `/start_conversation`. */
  datatype Payload = Payload(symptoms: seq<string>, days: int, additionalSymptoms: seq<string>)

  const ErrorMessage := "Error processing your request."
  const LoadingText := "Loading symptoms..."
  const NoPrecautionsText := "No precautions available"
  const SubmittedDays := 3

  /*
   * ---------------------------------------------------------------------
   * Selection updates (handleSymptomChange)
   * ---------------------------------------------------------------------
   */

  /** `[...prevSymptoms, value]`. */
  function Check(selection: seq<string>, value: string): seq<string> {
    selection + [value]
  }

  /** `prevSymptoms.filter((symptom) => symptom !== value)`. */
  function Uncheck(selection: seq<string>, value: string): seq<string> {
    if selection == [] then []
    else
      var n := |selection| - 1;
      Uncheck(selection[..n], value) + (if selection[n] == value then [] else [selection[n]])
  }

  /** The updater `handleSymptomChange` passes to `setSelectedSymptoms`. */
  function Change(selection: seq<string>, value: string, checked: bool): seq<string> {
    if checked then Check(selection, value) else Uncheck(selection, value)
  }

  /** Unchecking filters each part of a concatenation separately, so relative order is kept. */
  lemma {:induction false} UncheckAppend(a: seq<string>, b: seq<string>, value: string)
    ensures Uncheck(a + b, value) == Uncheck(a, value) + Uncheck(b, value)
  {
    if b == [] {
      assert a + b == a;
    } else {
      var n := |b| - 1;
      assert (a + b)[..|a + b| - 1] == a + b[..n];
      UncheckAppend(a, b[..n], value);
    }
  }

  /** Unchecking drops every occurrence of the value and keeps every other element as often as it was there. */
  lemma {:induction false} UncheckCounts(selection: seq<string>, value: string)
    ensures multiset(Uncheck(selection, value)) == multiset(selection)[value := 0]
  {
    if selection != [] {
      var n := |selection| - 1;
      UncheckCounts(selection[..n], value);
      assert selection == selection[..n] + [selection[n]];
    }
  }

  /** Unchecking a value that is not selected changes nothing. */
  lemma {:induction false} UncheckAbsent(selection: seq<string>, value: string)
    requires value !in selection
    ensures Uncheck(selection, value) == selection
  {
    if selection != [] {
      var n := |selection| - 1;
      UncheckAbsent(selection[..n], value);
      assert selection == selection[..n] + [selection[n]];
    }
  }

  /** Unchecking twice is unchecking once. */
  lemma UncheckIdempotent(selection: seq<string>, value: string)
    ensures Uncheck(Uncheck(selection, value), value) == Uncheck(selection, value)
  {
    UncheckCounts(selection, value);
    assert value !in multiset(Uncheck(selection, value));
    UncheckAbsent(Uncheck(selection, value), value);
  }

  /** Checking a value that is not selected and then unchecking it restores the selection. */
  lemma CheckThenUncheck(selection: seq<string>, value: string)
    requires value !in selection
    ensures Change(Change(selection, value, true), value, false) == selection
  {
    UncheckAppend(selection, [value], value);
    UncheckAbsent(selection, value);
    assert Uncheck([value], value) == [];
  }

  /**
   * A checkbox reports `checked` only when its value is not yet selected, so
   * the selection never holds a value twice.
   */
  lemma ChangeKeepsDistinct(selection: seq<string>, value: string, checked: bool)
    requires Distinct(selection)
    requires checked ==> value !in selection
    ensures Distinct(Change(selection, value, checked))
  {
    if !checked {
      UncheckKeepsDistinct(selection, value);
    }
  }

  lemma {:induction false} UncheckKeepsDistinct(selection: seq<string>, value: string)
    requires Distinct(selection)
    ensures Distinct(Uncheck(selection, value))
  {
    if selection != [] {
      var n := |selection| - 1;
      var front := Uncheck(selection[..n], value);
      UncheckKeepsDistinct(selection[..n], value);
      UncheckCounts(selection[..n], value);
      assert selection[n] !in selection[..n];
      assert selection[n] !in multiset(front);
    }
  }

  /*
   * ---------------------------------------------------------------------
   * Submission (handleSubmit)
   * ---------------------------------------------------------------------
   */

  /** The request body `handleSubmit` builds from the current selection. */
  function SubmitPayload(selection: seq<string>): Payload {
    Payload(selection, SubmittedDays, [])
  }

  /*
   * ---------------------------------------------------------------------
   * Rendering
   * ---------------------------------------------------------------------
   */

  /** One element of the symptom form: a labelled checkbox, or the loading paragraph. */
  datatype CatalogEntry = Checkbox(key: string, value: string, caption: string) | Placeholder(text: string)

  /** `symptoms.map(...)`: one checkbox per name, keyed, valued and labelled by it. */
  function Checkboxes(names: seq<string>): (entries: seq<CatalogEntry>)
    ensures |entries| == |names|
    ensures forall i :: 0 <= i < |names| ==> entries[i] == Checkbox(names[i], names[i], names[i])
  {
    if names == [] then [] else [Checkbox(names[0], names[0], names[0])] + Checkboxes(names[1..])
  }

  /** The symptom form: the checkboxes of a non-empty catalog, else the loading placeholder. */
  function RenderCatalog(symptoms: seq<string>): (entries: seq<CatalogEntry>)
    ensures |symptoms| > 0 ==> |entries| == |symptoms|
    ensures |symptoms| > 0 ==>
      forall i :: 0 <= i < |symptoms| ==> entries[i] == Checkbox(symptoms[i], symptoms[i], symptoms[i])
    ensures |symptoms| == 0 ==> entries == [Placeholder(LoadingText)]
  {
    if |symptoms| > 0 then Checkboxes(symptoms) else [Placeholder(LoadingText)]
  }

  /** One `<li>` of the precaution list. */
  datatype PrecautionItem = Precaution(key: nat, text: string) | NoPrecautions(text: string)

  /** `precautions.map((precaution, index) => <li key={index}>...)`. */
  function PrecautionItems(precautions: seq<string>): (items: seq<PrecautionItem>)
    ensures |items| == |precautions|
    ensures forall i :: 0 <= i < |precautions| ==> items[i] == Precaution(i, precautions[i])
  {
    if precautions == [] then []
    else
      var n := |precautions| - 1;
      PrecautionItems(precautions[..n]) + [Precaution(n, precautions[n])]
  }

  /** The precaution list: one item per precaution when there are any, else one placeholder item. */
  function RenderPrecautions(precautions: Option<seq<string>>): (items: seq<PrecautionItem>)
    ensures precautions.Some? && |precautions.value| > 0 ==>
      |items| == |precautions.value| &&
      forall i :: 0 <= i < |items| ==> items[i] == Precaution(i, precautions.value[i])
    ensures precautions.None? || precautions.value == [] ==> items == [NoPrecautions(NoPrecautionsText)]
  {
    if precautions.Some? && |precautions.value| > 0 then PrecautionItems(precautions.value)
    else [NoPrecautions(NoPrecautionsText)]
  }

  /** The response box: heading, description paragraph and precaution list. */
  datatype ResponseView = ResponseView(heading: string, description: string, precautions: seq<PrecautionItem>)

  /**
   * `{response && (...)}`. An error string is truthy but has no `disease`,
   * `description` or `precautions`, so its box shows empty text and the
   * placeholder item.
   */
  function RenderResponse(response: Response): (view: Option<ResponseView>)
    ensures view.None? <==> response.Null? || response == ErrorText("")
    ensures response.Parsed? ==> view == Some(ResponseView(
      response.body.disease, response.body.description, RenderPrecautions(response.body.precautions)))
    ensures response.ErrorText? && response.text != "" ==>
      view == Some(ResponseView("", "", [NoPrecautions(NoPrecautionsText)]))
  {
    match response
    case Null => None
    case Parsed(body) => Some(ResponseView(body.disease, body.description, RenderPrecautions(body.precautions)))
    case ErrorText(text) => if text == "" then None else Some(ResponseView("", "", RenderPrecautions(None)))
  }

  /*
   * ---------------------------------------------------------------------
   * The component
   * ---------------------------------------------------------------------
   */

  class App {
    var symptoms: seq<string>
    var selectedSymptoms: seq<string>
    var response: Response

    /** The three `useState` initial values. */
    constructor ()
      ensures symptoms == [] && selectedSymptoms == [] && response == Null
    {
      symptoms := [];
      selectedSymptoms := [];
      response := Null;
    }

    /** The continuation of `fetchSymptoms`: the catalog is replaced only on success. */
    method FetchSymptoms(reply: Outcome<seq<string>>)
      modifies this`symptoms
      ensures symptoms == if reply.Ok? then reply.value else old(symptoms)
    {
      if reply.Ok? {
        symptoms := reply.value;
      }
    }

    /** `handleSymptomChange`: append on check, remove every occurrence on uncheck. */
    method HandleSymptomChange(value: string, checked: bool)
      modifies this`selectedSymptoms
      ensures selectedSymptoms == Change(old(selectedSymptoms), value, checked)
      ensures checked ==> selectedSymptoms == old(selectedSymptoms) + [value]
      ensures !checked ==> value !in selectedSymptoms
      ensures !checked ==> multiset(selectedSymptoms) == multiset(old(selectedSymptoms))[value := 0]
    {
      selectedSymptoms := Change(selectedSymptoms, value, checked);
      if !checked {
        UncheckCounts(old(selectedSymptoms), value);
        assert value !in multiset(selectedSymptoms);
      }
    }

    /**
     * `handleSubmit`: posts the selection in click order with fixed `days`
     * and `additional_symptoms`, then stores the parsed reply or the error
     * string, replacing the previous response.
     */
    method HandleSubmit(reply: Outcome<Diagnosis>) returns (sent: Payload)
      modifies this`response
      ensures sent == SubmitPayload(selectedSymptoms)
      ensures sent.symptoms == selectedSymptoms && sent.days == 3 && sent.additionalSymptoms == []
      ensures response == if reply.Ok? then Parsed(reply.value) else ErrorText(ErrorMessage)
    {
      sent := SubmitPayload(selectedSymptoms);
      if reply.Ok? {
        response := Parsed(reply.value);
      } else {
        response := ErrorText(ErrorMessage);
      }
    }
  }

  /** A catalog request that fails leaves the loading placeholder on screen. */
  method CatalogFailureShowsPlaceholder() returns (entries: seq<CatalogEntry>)
    ensures entries == [Placeholder(LoadingText)]
  {
    var app := new App();
    app.FetchSymptoms(Failed);
    entries := RenderCatalog(app.symptoms);
  }

  /** A failed submit after a successful one replaces the diagnosis with the error box. */
  method FailedSubmitReplacesDiagnosis(diagnosis: Diagnosis)
    returns (first: Option<ResponseView>, second: Option<ResponseView>)
    ensures first == Some(ResponseView(diagnosis.disease, diagnosis.description, RenderPrecautions(diagnosis.precautions)))
    ensures second == Some(ResponseView("", "", [NoPrecautions(NoPrecautionsText)]))
  {
    var app := new App();
    var _ := app.HandleSubmit(Ok(diagnosis));
    first := RenderResponse(app.response);
    var _ := app.HandleSubmit(Failed);
    second := RenderResponse(app.response);
  }
}
