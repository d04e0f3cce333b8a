/** The `/correct` route of the backend (`correct_text` in
    python-service/app.py): request validation, the blank-sentence shortcut,
    and the mapping of the model holder's status to an HTTP code. */
module Service {

  import opened Common
  import opened Protocol
  import opened ModelService
  import Strings

  const MissingSentenceMessage := "La solicitud debe ser un JSON con una clave 'sentence'."

  /** The value under `'sentence'`: a string, JSON `null`, another value that
      Python treats as false (`0`, `false`, `[]`, `{}`), or another truthy
      non-string value. */
  datatype Value = Str(s: string) | Null | OtherFalsy | OtherTruthy

  /** `request.get_json()`: JSON `null`, or an object. */
  datatype Request = NullBody | JsonObject(fields: map<string, Value>)

  /** Python's `not data or 'sentence' not in data`. */
  predicate Malformed(req: Request) {
    req.NullBody? || req.fields == map[] || "sentence" !in req.fields
  }

  /** Python's `not sentence or not sentence.strip()` for a value that has
      `strip`, or that is false before `strip` is reached. */
  predicate BlankSentence(v: Value) {
    v.Null? || v.OtherFalsy? || (v.Str? && Strings.IsBlankPy(v.s))
  }

  /** `correct_text()`: 400 with an error body for a missing body or key; 200
      with an empty correction for a blank sentence, without consulting the
      model; 500 (Flask's error page, as `strip` raises) for a truthy
      non-string; otherwise the model holder's body, with 503 when it is
      `loading` and 200 for success and error alike. */
  function CorrectText(l: Loader, req: Request, infer: string -> string): (reply: HttpReply)
    ensures Malformed(req) ==>
      reply == HttpReply(400, Some(Body("error", None, Some(MissingSentenceMessage), None)))
    ensures !Malformed(req) && BlankSentence(req.fields["sentence"]) ==>
      reply == HttpReply(200, Some(Body("success", Some(""), None, None)))
    ensures !Malformed(req) && req.fields["sentence"].OtherTruthy? ==> reply == HttpReply(500, None)
    ensures !Malformed(req) && req.fields["sentence"].Str? && !Strings.IsBlankPy(req.fields["sentence"].s) ==>
      reply.body == Some(CorrectSentence(l, req.fields["sentence"].s, false, infer))
      && reply.code == (if l.loading then 503 else 200)
  {
    if Malformed(req) then
      HttpReply(400, Some(Body("error", None, Some(MissingSentenceMessage), None)))
    else
      var sentence := req.fields["sentence"];
      if BlankSentence(sentence) then HttpReply(200, Some(Body("success", Some(""), None, None)))
      else if sentence.OtherTruthy? then HttpReply(500, None)
      else
        var body := CorrectSentence(l, sentence.s, false, infer);
        if body.status == "loading" then HttpReply(503, Some(body)) else HttpReply(200, Some(body))
  }

  /** A blank sentence is answered the same whatever the model holder's state
      and whatever the model would say. */
  lemma BlankIgnoresModel(l1: Loader, l2: Loader, req: Request, infer1: string -> string, infer2: string -> string)
    requires !Malformed(req) && BlankSentence(req.fields["sentence"])
    ensures CorrectText(l1, req, infer1) == CorrectText(l2, req, infer2)
  {
  }

  /** The body the client sends: `{ sentence: text }`. */
  function ClientRequest(text: string): Request {
    JsonObject(map["sentence" := Str(text)])
  }

  /** What the client sees for one request carrying `text`: 503 exactly while
      the model is loading (for a non-blank sentence), and otherwise a
      resolved response whose body is the model holder's. */
  lemma ClientView(l: Loader, text: string, infer: string -> string)
    requires !Strings.IsBlankPy(text)
    ensures l.loading ==> Deliver(CorrectText(l, ClientRequest(text), infer)) == HttpFailure(503)
    ensures !l.loading ==> Deliver(CorrectText(l, ClientRequest(text), infer)) == Responded(CorrectSentence(l, text, false, infer))
  {
    assert !Malformed(ClientRequest(text));
  }
}
