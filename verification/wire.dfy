/**
 * The JSON exchange between the front end and the back end: the body the
 * page posts as the request the server reads, and the server's reply as the
 * body the page parses.
 */
module Wire {
  import opened Wrappers
  import Intake
  import ChatBot

  /** `JSON.stringify(data)` read back by `request.get_json()`; the server never reads `days`. */
  function ToRequest(payload: Intake.Payload): ChatBot.Request {
    ChatBot.Request(Some(payload.symptoms), Some(payload.additionalSymptoms))
  }

  /** `jsonify(...)` read back by `res.json()`. */
  function ToDiagnosis(reply: ChatBot.Reply): Intake.Diagnosis {
    Intake.Diagnosis(reply.disease, reply.description, Some(reply.precautions))
  }

  /** The server classifies exactly the page's selection, in click order. */
  lemma SubmittedSelectionIsClassified(selection: seq<string>)
    ensures ChatBot.AllSymptoms(ToRequest(Intake.SubmitPayload(selection))) == selection
  {
  }

  /**
   * The page shows the server's answer: the disease as heading, and one item
   * per stored precaution, or a single placeholder item with the default
   * description for a disease missing from the tables.
   */
  lemma ReplyRendering(disease: string, descriptions: map<string, string>, precautions: map<string, seq<string>>)
    ensures var view := Intake.RenderResponse(Intake.Parsed(ToDiagnosis(ChatBot.Describe(disease, descriptions, precautions))));
      && view.Some?
      && view.value.heading == disease
      && (disease in descriptions ==> view.value.description == descriptions[disease])
      && (disease !in descriptions ==> view.value.description == ChatBot.NoDescription)
      && (disease in precautions && |precautions[disease]| > 0 ==>
            |view.value.precautions| == |precautions[disease]|
            && forall i :: 0 <= i < |precautions[disease]| ==> view.value.precautions[i] == Intake.Precaution(i, precautions[disease][i]))
      && ((disease !in precautions || precautions[disease] == []) ==>
            view.value.precautions == [Intake.NoPrecautions(Intake.NoPrecautionsText)])
  {
  }
}
