/** The Electron main process's wiring of the loop (electron/main.js): the
    `text-captured` handler that decides whether to rewrite and sequences
    pause -> rewrite -> delayed resume, and the tray's toggle of automatic
    correction. The handlers of different sentences are not serialised by
    the source, so this module follows one sentence through the loop. */
module Orchestrator {

  import opened Common
  import opened Protocol
  import Strings
  import KeyboardCapture
  import Corrector
  import RetryClient
  import ModelService
  import Service

  /** Delay before capture resumes after a rewrite, in milliseconds. */
  const ResumeDelayMs := 100

  /** What the handler does, in order. */
  datatype Action =
    | PauseCapture
    | RewritePhrase(original: string, corrected: string)
    | ResumeAfter(ms: nat)
    | LogServiceError(message: Option<string>)
    | LogUnavailable

  /** The handler rewrites only for a successful body with a truthy
      `corrected_sentence` that differs from the captured text once both are
      lower-cased. */
  predicate ShouldRewrite(captured: string, data: Option<Body>) {
    && data.Some?
    && data.value.status == "success"
    && Truthy(data.value.correctedSentence)
    && Strings.Lower(data.value.correctedSentence.value) != Strings.Lower(captured)
  }

  /** The `text-captured` handler after `correctTextWithRetry` returned
      `data`. A rewrite is exactly pause, `correctPhrase(captured,
      corrected)`, resume after 100 ms; with no rewrite capture is never
      paused. A success whose correction is empty falls through to the
      "no response" log, as written; a success equal up to case does nothing. */
  function OnTextCaptured(captured: string, data: Option<Body>): (actions: seq<Action>)
    ensures ShouldRewrite(captured, data) ==>
      actions == [PauseCapture, RewritePhrase(captured, data.value.correctedSentence.value), ResumeAfter(ResumeDelayMs)]
    ensures !ShouldRewrite(captured, data) ==> PauseCapture !in actions && |actions| <= 1
    ensures data.Some? && data.value.status == "error" ==> actions == [LogServiceError(data.value.message)]
    ensures data.None? ==> actions == [LogUnavailable]
    ensures data.Some? && data.value.correctedSentence == Some(captured) ==> PauseCapture !in actions
    ensures (data.Some? && data.value.status == "success" && Truthy(data.value.correctedSentence)
             && !ShouldRewrite(captured, data)) ==> actions == []
    ensures (data.Some? && data.value.status != "error"
             && !(data.value.status == "success" && Truthy(data.value.correctedSentence))) ==> actions == [LogUnavailable]
  {
    if data.Some? && data.value.status == "success" && Truthy(data.value.correctedSentence) then
      var corrected := data.value.correctedSentence.value;
      if Strings.Lower(corrected) != Strings.Lower(captured) then
        [PauseCapture, RewritePhrase(captured, corrected), ResumeAfter(ResumeDelayMs)]
      else []
    else if data.Some? && data.value.status == "error" then [LogServiceError(data.value.message)]
    else [LogUnavailable]
  }

  /** The commonest correction, capitalising the first letter (accented
      capitals included), is no change once both sides are lower-cased: the
      handler leaves the text alone. */
  lemma CapitalisedStartNotRewritten(c: char, rest: string, b: Body)
    requires Strings.IsFoldedCapital(c)
    requires b.status == "success" && b.correctedSentence == Some([c] + rest)
    ensures !ShouldRewrite([Strings.LowerChar(c)] + rest, Some(b))
    ensures OnTextCaptured([Strings.LowerChar(c)] + rest, Some(b)) == []
  {
    var captured := [Strings.LowerChar(c)] + rest;
    var corrected := [c] + rest;
    forall i | 0 <= i < |captured| ensures Strings.Lower(captured)[i] == Strings.Lower(corrected)[i] {
      if i > 0 {
        assert captured[i] == corrected[i];
      }
    }
    assert Strings.Lower(captured) == Strings.Lower(corrected);
  }

  /** `toggleAutomaticCorrection`: stop when listening, start otherwise, and
      the notification shown. */
  datatype Toggled = Toggled(state: KeyboardCapture.Capture, notice: string)

  const DisabledNotice := "Corrección automática desactivada."
  const EnabledNotice := "Corrección automática activada."

  function ToggleAutomaticCorrection(s: KeyboardCapture.Capture): (r: Toggled)
    ensures r.state.listenerActive == !s.listenerActive
    ensures r.notice == (if s.listenerActive then DisabledNotice else EnabledNotice)
    ensures r.state.sentence == s.sentence && r.state.paused == s.paused
    ensures s.listenerActive ==> !r.state.timerPending
  {
    if s.listenerActive then Toggled(KeyboardCapture.Stop(s), DisabledNotice)
    else Toggled(KeyboardCapture.Start(s), EnabledNotice)
  }

  /** Toggling twice restores listening, buffer and paused flag; only a
      pending timer is lost, because one of the two toggles is a `stop`. */
  lemma ToggleTwice(s: KeyboardCapture.Capture)
    ensures ToggleAutomaticCorrection(ToggleAutomaticCorrection(s).state).state
      == s.(timerPending := false)
  {
  }

  /** One sentence through the loop: the capture state afterwards, the
      handler's actions, the rewriter's commands, and any sentence captured
      while the rewrite was typing (`echo` is what the key hook delivers in
      that window, the rewriter's own keystrokes included). */
  datatype Handled = Handled(
    state: KeyboardCapture.Capture,
    actions: seq<Action>,
    rewrite: Corrector.Rewrite,
    recaptured: seq<string>)

  function HandleSentence(
    s: KeyboardCapture.Capture, captured: string, data: Option<Body>,
    failAt: Option<nat>, echo: seq<KeyboardCapture.Event>): (r: Handled)
    ensures r.actions == OnTextCaptured(captured, data)
    ensures ShouldRewrite(captured, data) ==>
      && r.rewrite == Corrector.CorrectPhrase(captured, data.value.correctedSentence.value, failAt)
      && !r.state.paused
    ensures !ShouldRewrite(captured, data) ==>
      r.state == s && r.rewrite == Corrector.Rewrite([], false) && r.recaptured == []
  {
    var actions := OnTextCaptured(captured, data);
    if ShouldRewrite(captured, data) then
      var paused := KeyboardCapture.Pause(s);
      var rewrite := Corrector.CorrectPhrase(captured, data.value.correctedSentence.value, failAt);
      var during := KeyboardCapture.RunEvents(paused, echo);
      Handled(KeyboardCapture.Resume(during.state), actions, rewrite, during.emitted)
    else
      Handled(s, actions, Corrector.Rewrite([], false), [])
  }

  /** The loop does not feed on itself: whatever the hook delivers while the
      rewrite types (its own synthetic keys included) is dropped, capture is
      resumed with an empty buffer even when a send failed, and when there is
      nothing to rewrite capture is left exactly as it was. */
  lemma RewriteIsNotRecaptured(
    s: KeyboardCapture.Capture, captured: string, data: Option<Body>,
    failAt: Option<nat>, echo: seq<KeyboardCapture.Event>)
    requires KeyboardCapture.Quiet(s)
    requires forall i :: 0 <= i < |echo| ==> echo[i].KeyDown? || echo[i].KeyUp? || echo[i].TimerFires?
    ensures HandleSentence(s, captured, data, failAt, echo).recaptured == []
    ensures ShouldRewrite(captured, data) ==>
      var h := HandleSentence(s, captured, data, failAt, echo);
      && !h.state.paused && h.state.sentence == "" && !h.state.timerPending
      && h.state.listenerActive == s.listenerActive
      && h.rewrite == Corrector.CorrectPhrase(captured, data.value.correctedSentence.value, failAt)
    ensures !ShouldRewrite(captured, data) ==>
      HandleSentence(s, captured, data, failAt, echo) == Handled(s, OnTextCaptured(captured, data), Corrector.Rewrite([], false), [])
  {
    if ShouldRewrite(captured, data) {
      var paused := KeyboardCapture.Pause(s);
      KeyboardCapture.PausedIgnoresInput(paused, echo);
    }
  }

  /** A backend that refuses every connection: the client gives up after 100
      requests and 100 waits, only the "unavailable" log follows, and capture
      is untouched. */
  lemma UnreachableServiceNoRewrite(
    s: KeyboardCapture.Capture, captured: string, respond: nat -> Outcome,
    failAt: Option<nat>, echo: seq<KeyboardCapture.Event>)
    requires forall k :: 0 <= k < RetryClient.MaxRetries ==> respond(k) == Refused
    ensures RetryClient.Retry(respond) == RetryClient.Attempt(None, RetryClient.MaxRetries, RetryClient.MaxRetries)
    ensures HandleSentence(s, captured, RetryClient.Retry(respond).result, failAt, echo)
      == Handled(s, [LogUnavailable], Corrector.Rewrite([], false), [])
  {
    RetryClient.BudgetExhausted(respond);
  }

  /** What the client sees when request `k` reaches the backend in state
      `loaderAt(k)`. */
  function Backend(loaderAt: nat -> ModelService.Loader, text: string, infer: string -> string): nat -> Outcome {
    (k: nat) => Deliver(Service.CorrectText(loaderAt(k), Service.ClientRequest(text), infer))
  }

  /** The backend warming up: `loading` reaches the client as HTTP 503, so
      N < 100 requests during loading followed by one to a loaded model give
      the model's correction after N + 1 requests and N waits; the handler
      then rewrites exactly when that correction is non-empty and differs
      from the sentence other than in case. */
  lemma WarmupThenCorrection(loaderAt: nat -> ModelService.Loader, n: nat, text: string, infer: string -> string)
    requires n < RetryClient.MaxRetries
    requires forall k :: 0 <= k < n ==> loaderAt(k).loading
    requires ModelService.Ready(loaderAt(n))
    requires !Strings.IsBlankPy(text)
    ensures RetryClient.Retry(Backend(loaderAt, text, infer)) == RetryClient.Attempt(
      Some(Body("success", Some(infer(ModelService.Prompt(text))), None, Some(EmptyInfo))), n + 1, n)
    ensures ShouldRewrite(text, RetryClient.Retry(Backend(loaderAt, text, infer)).result)
      <==> infer(ModelService.Prompt(text)) != "" && Strings.Lower(infer(ModelService.Prompt(text))) != Strings.Lower(text)
  {
    var respond := Backend(loaderAt, text, infer);
    forall k | 0 <= k < n ensures RetryClient.Retryable(respond(k)) {
      Service.ClientView(loaderAt(k), text, infer);
    }
    Service.ClientView(loaderAt(n), text, infer);
    RetryClient.RetryThenData(respond, n);
  }

  /** A model that failed to load: the first request already returns the
      error body (HTTP 200), nothing is retried, and the handler only logs
      the message naming the load error. */
  lemma FailedLoadOnlyLogs(l: ModelService.Loader, e: string, text: string, infer: string -> string)
    requires !Strings.IsBlankPy(text)
    ensures var failed := ModelService.FinishLoad(l, ModelService.LoadRaised(e));
      var a := RetryClient.Retry(Backend(_ => failed, text, infer));
      && a.requests == 1 && a.waits == 0
      && OnTextCaptured(text, a.result) == [LogServiceError(Some(ModelService.LoadErrorPrefix + e))]
  {
    var failed := ModelService.FinishLoad(l, ModelService.LoadRaised(e));
    var respond := Backend(_ => failed, text, infer);
    Service.ClientView(failed, text, infer);
    RetryClient.RetryThenData(respond, 0);
  }
}
