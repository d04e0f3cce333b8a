/** The backend's model holder (`ModelCorrector` in
    python-service/corrector.py): a load-state machine
    `Loading -> Loaded | Failed` and the response selection of
    `correct_sentence`. Inference is an uninterpreted function `infer` from
    the prompt to the decoded output; the loader thread is the explicit
    `FinishLoad` event. */
module ModelService {

  import opened Common
  import opened Protocol

  const ModelName := "pszemraj/flan-t5-large-grammar-synthesis"
  const LoadErrorPrefix := "Error al cargar el modelo: "
  const NotLoadedMessage := "El modelo no pudo ser cargado."

  /** `loading`, whether `model` and `tokenizer` are set, and `load_error`
      (its text when set). */
  datatype Loader = Loader(loading: bool, hasModel: bool, hasTokenizer: bool, loadError: Option<string>)

  /** The state right after `__init__`: loading, nothing loaded, no error. */
  const Initial := Loader(true, false, false, None)

  /** How the loader thread's `try` block ended. */
  datatype LoadResult = LoadSucceeded | LoadRaised(error: string)

  /** `_load_model`: on success both objects are set; on any exception both
      are reset to `None` and the error recorded; either way `loading` ends
      `False` (the `finally` clause). */
  function FinishLoad(l: Loader, res: LoadResult): (r: Loader)
    ensures !r.loading
    ensures res.LoadSucceeded? ==> r.hasModel && r.hasTokenizer && r.loadError == l.loadError
    ensures res.LoadRaised? ==> !r.hasModel && !r.hasTokenizer && r.loadError == Some(res.error)
  {
    match res
    case LoadSucceeded => l.(loading := false, hasModel := true, hasTokenizer := true)
    case LoadRaised(e) => l.(loading := false, hasModel := false, hasTokenizer := false, loadError := Some(e))
  }

  predicate Ready(l: Loader) {
    !l.loading && l.hasModel && l.hasTokenizer
  }

  /** The prompt handed to the tokenizer. */
  function Prompt(sentence: string): string {
    "Correct the grammar and spelling in the following Spanish sentence: '" + sentence + "'"
  }

  /** `correct_sentence(sentence, debug)`: exactly `{"status": "loading"}`
      while loading; an error naming the load error (or a generic text when
      there is none) once loading ended without a model; otherwise a success
      carrying the model's output, with `debug_info` empty unless `debug`. */
  function CorrectSentence(l: Loader, sentence: string, debug: bool, infer: string -> string): (r: Body)
    ensures l.loading ==> r == LoadingBody
    ensures !l.loading && !Ready(l) ==>
      r.status == "error" && r.correctedSentence.None?
      && r.message == Some(if l.loadError.Some? then LoadErrorPrefix + l.loadError.value else NotLoadedMessage)
    ensures Ready(l) ==>
      r.status == "success" && r.correctedSentence == Some(infer(Prompt(sentence))) && r.debugInfo.Some?
    ensures Ready(l) ==> (r.debugInfo == Some(EmptyInfo) <==> !debug)
    ensures r.status == "loading" <==> l.loading
  {
    if l.loading then LoadingBody
    else if !l.hasModel || !l.hasTokenizer then
      var msg := if l.loadError.Some? then LoadErrorPrefix + l.loadError.value else NotLoadedMessage;
      Body("error", None, Some(msg), None)
    else
      var input := Prompt(sentence);
      var corrected := infer(input);
      var info := if debug then Info(sentence, corrected, ModelName, input, true) else EmptyInfo;
      Body("success", Some(corrected), None, Some(info))
  }

  /** The whole life of the loader: loading answers `loading`; a load that
      succeeds answers with the model's output; a load that raises answers
      with an error embedding the exception text. */
  lemma Lifecycle(sentence: string, e: string, infer: string -> string)
    ensures CorrectSentence(Initial, sentence, false, infer) == LoadingBody
    ensures CorrectSentence(FinishLoad(Initial, LoadSucceeded), sentence, false, infer)
      == Body("success", Some(infer(Prompt(sentence))), None, Some(EmptyInfo))
    ensures CorrectSentence(FinishLoad(Initial, LoadRaised(e)), sentence, false, infer)
      == Body("error", None, Some(LoadErrorPrefix + e), None)
  {
  }
}
