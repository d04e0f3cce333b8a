# WriteGuard correction loop, modelled in Dafny

WriteGuard watches system-wide keystrokes, collects them into sentences,
sends each finished sentence to a local correction service, and, when the
service returns a different sentence, deletes what the user typed and retypes
the correction with synthetic keystrokes. This project models that loop and
the small status protocol between the Electron main process and the Python
service:

- `KeyboardCapture` (keyboard_capture.dfy): the key accumulator and pause gate
  of core/keyboard_capture.js as an immutable state
  `(listenerActive, paused, sentence, timerPending)` with pure transitions. The
  debounce timer is a pending flag, and its firing is an explicit event.
- `SendKeys` (send_keys.dfy): the escape applied before text reaches the
  WScript.Shell `SendKeys` sink. It also holds an interpreter of the sink's key
  syntax, as far as the rewriter uses it (`{BACKSPACE}`, braced special
  characters and plain characters), and the effect of those keystrokes on the
  focused text.
- `Corrector` (corrector.dfy): `correctWord` and `correctPhrase` as plans of
  `Send`/`Sleep` commands. A sink that rejects one chosen send is a parameter.
- `Protocol` (protocol.dfy): response bodies, HTTP replies, and what the
  client's HTTP library makes of a reply.
- `ModelService` (model_service.dfy): the model holder's load states
  `Loading -> Loaded | Failed` and the response chosen by `correct_sentence`.
  Inference is an uninterpreted function argument `infer`.
- `Service` (service.dfy): the `/correct` route. It validates the request,
  short-cuts blank sentences, and maps `loading` to HTTP 503.
- `RetryClient` (retry_client.dfy): `correctTextWithRetry` as a loop over a
  scripted backend `respond: nat -> Outcome` that counts requests and waits,
  with a recursive reference definition. It also holds the manual
  `correct-text` handler's classification.
- `Orchestrator` (orchestrator.dfy): the `text-captured` handler's decision
  and its pause → rewrite → delayed resume sequence, the tray toggle, and
  end-to-end lemmas that join the modules.
- `Common`, `Strings`: `Option`, JavaScript `trim`, Python's blank test,
  per-character lower-casing and `repeat`.

Behaviour of the code worth knowing:

- `correctPhrase` deletes `originalPhrase.length + 1` characters. The extra
  backspace also removes the character typed just before the sentence when
  the flush came from `.`, `?` or `!`. `PhraseRewriteResult` states exactly
  which characters are replaced.
- The handlers of different sentences run independently
  (electron/main.js:177-198): a second sentence can be handled while an
  earlier rewrite is still typing. `HandleSentence` follows one sentence.
- `getKeyName` maps `SPACE` to `" "`, and no key name maps to `"SPACE"`, so
  a space from the key hook always takes the one-character branch. Spaces
  typed by the user are therefore never collapsed: the collapsing branch of
  `handleKeyPress` is reached only by a caller that passes the string
  `"SPACE"` to it directly. `GetKeyName`, `ListenerSpaceIsNotCollapsed` and
  `DoubleSpaceKept` state this.
- A success body with an empty `corrected_sentence` is logged as "no
  response from the service" (electron/main.js:195-197). It is not logged as
  a success without change.

## Model

| member | source | states |
|---|---|---|
| KeyboardCapture.GetKeyName | core/keyboard_capture.js:109-112 | a mapped name yields its (non-empty) mapped value, an unmapped name yields itself; no name yields `SPACE`, so the space-collapsing branch is unreachable from the hook |
| KeyboardCapture.Edit | core/keyboard_capture.js:75-85 | a one-character key is appended; `SPACE` appends one space exactly when the buffer is non-empty and does not end in a space; `BACKSPACE` leaves the buffer minus its last character (empty stays empty); other keys leave it alone |
| KeyboardCapture.ProcessCapturedSentence | core/keyboard_capture.js:98-107 | a sentence is emitted exactly when the buffer is not all whitespace; it is the trimmed buffer, non-empty with no surrounding whitespace, and the buffer is cleared; otherwise the state is unchanged |
| KeyboardCapture.HandleKeyPress | core/keyboard_capture.js:71-96 | a separator `.`, `?`, `!` always emits the trimmed buffer plus the key, empties the buffer and leaves no timer; any other key emits nothing and leaves exactly one timer pending over the edited buffer; listener and paused flags are unchanged |
| KeyboardCapture.FireTimer | core/keyboard_capture.js:91-95 | a pending timer is consumed; the trimmed buffer is emitted and the buffer cleared exactly when it is not all whitespace, otherwise the buffer stays as it is; listening and paused flags are kept; with no pending timer nothing happens |
| KeyboardCapture.OnKeyEvent | core/keyboard_capture.js:36-43 | key events are dropped unless listening, not paused and key-down; a delivered separator emits the trimmed buffer plus the key, empties the buffer and cancels the timer; any other delivered key re-arms the timer over the edited buffer; an unmapped one-character name is appended as is |
| KeyboardCapture.Start | core/keyboard_capture.js:29-44 | starting sets listening and changes nothing else; already listening is a no-op |
| KeyboardCapture.Stop | core/keyboard_capture.js:46-54 | stopping clears listening and any pending timer, keeps buffer and paused flag; not listening is a no-op |
| KeyboardCapture.Pause | core/keyboard_capture.js:56-61 | pausing sets paused and cancels the timer without touching the buffer; already paused is a no-op |
| KeyboardCapture.Resume | core/keyboard_capture.js:63-69 | resuming from paused clears paused and empties the buffer; not paused is a no-op |
| KeyboardCapture.GateIdempotent | core/keyboard_capture.js:29-69 | start, stop, pause and resume are each idempotent |
| KeyboardCapture.RunKeepsQuiet | core/keyboard_capture.js:39-95 | no event sequence leaves a timer pending while paused or not listening |
| KeyboardCapture.InitialRunsQuiet | core/keyboard_capture.js:5-27 | the freshly constructed capture (not listening, not paused, empty buffer, no timer) is quiet, so no event sequence from it leaves a timer pending while paused or not listening |
| KeyboardCapture.EmittedAreTrimmed | core/keyboard_capture.js:98-107 | every sentence any event sequence emits is non-empty and has no leading or trailing whitespace |
| KeyboardCapture.CharKeysConcatenate | core/keyboard_capture.js:75-76 | a run of one-character non-separator keys appends their concatenation, emits nothing and leaves a timer pending |
| KeyboardCapture.BackspaceDropsLast | core/keyboard_capture.js:82-84 | `BACKSPACE` removes exactly the last character of a non-empty buffer, keeps an empty one empty, and re-arms the timer |
| KeyboardCapture.ListenerSpaceIsNotCollapsed | core/keyboard_capture.js:75-81 | the hook's `SPACE` is mapped to `" "` and is appended even to an empty buffer or after a space |
| KeyboardCapture.DoubleSpaceKept | core/keyboard_capture.js:77-81 | two space-bar presses leave two spaces in the buffer |
| KeyboardCapture.PausedIgnoresInput | core/keyboard_capture.js:39-60 | while paused, any sequence of key and timer events changes nothing and emits nothing |
| KeyboardCapture.TimerFlushesOnce | core/keyboard_capture.js:91-107 | an inactivity flush emits the trimmed buffer once; a second firing emits nothing |
| SendKeys.Escape | core/corrector.js:22 | escaped length is the original length plus two per special character; text with no special character is unchanged |
| SendKeys.EscapeChar | core/corrector.js:47 | each of `+ ^ % ~ ( ) { } [ ]` becomes `{c}`; any other character stays itself |
| SendKeys.EscapeRoundTrip | core/corrector.js:47 | the sink reading the escaped text types exactly the original characters |
| SendKeys.EscapeInjective | core/corrector.js:47 | different texts have different escapes |
| SendKeys.RepeatedBackspace | core/corrector.js:42 | `'{BACKSPACE}'.repeat(n)` makes the sink delete n times before anything that follows |
| Corrector.WordPlan | core/corrector.js:15-23 | `wrongWord.length` separate one-backspace sends, each followed by a 15 ms pause, then one send that types the corrected word and no space |
| Corrector.PhrasePlan | core/corrector.js:42-48 | one send deleting `originalPhrase.length + 1` characters, a 20 ms pause, then one send typing the corrected phrase and one space |
| Corrector.ExecuteFrom | core/corrector.js:39-56 | the commands issued are a prefix of the plan; a rejecting send is the last command issued; the rejection is reported only when it happens within the plan, and never propagates |
| Corrector.CorrectWord | core/corrector.js:8-32 | the trace is a prefix of the word plan; failure is reported exactly when one of its `wrongWord.length + 1` sends rejects, and then the trace ends at that send; otherwise it is the whole plan |
| Corrector.CorrectPhrase | core/corrector.js:34-57 | the trace is a prefix of the phrase plan; failure is reported exactly when one of the two sends rejects, and then the trace ends at that send: a failed deletion stops before any typing, a failed retype comes after the deletion and the pause |
| Corrector.PhraseRewriteResult | core/corrector.js:40-48 | a completed phrase rewrite replaces the last `originalPhrase.length + 1` characters of the focused text with the corrected phrase and one space |
| Corrector.WordRewriteResult | core/corrector.js:14-23 | a completed word rewrite replaces the last `wrongWord.length` characters with the corrected word |
| Strings.Lower | electron/main.js:187 | per-character lower-casing; ASCII and Latin-1 capitals À–Þ (not ×) move by 32, every other character is kept, the length is kept |
| Strings.Trim | core/keyboard_capture.js:99 | JavaScript `trim`: the result is the slice of the input after its leading whitespace, with whitespace only before and after it and none at its ends, and it is empty exactly when the input is all whitespace |
| Protocol.Deliver | electron/main.js:22-32 | 2xx replies carrying a JSON body resolve with it; every other status is rejected carrying that status |
| ModelService.FinishLoad | python-service/corrector.py:20-36 | loading always ends; success sets model and tokenizer; an exception leaves both unset and records the error |
| ModelService.CorrectSentence | python-service/corrector.py:41-75 | exactly `{"status": "loading"}` while loading; after loading without a model an error whose message embeds the load error or is the generic text; otherwise success with the model's output and empty `debug_info` unless `debug` |
| ModelService.Lifecycle | python-service/corrector.py:7-49 | from the initial state the answer is `loading`; after a successful load it is the model's output; after a raised load it is an error naming the exception |
| Service.CorrectText | python-service/app.py:10-30 | missing body or key: 400 with an error body; blank sentence: 200 with an empty correction; truthy non-string: 500; otherwise the model holder's body, with 503 exactly when it is `loading` and 200 for success or error |
| Service.BlankIgnoresModel | python-service/app.py:15-18 | a blank sentence is answered the same whatever the model state and the model |
| Service.ClientView | python-service/app.py:22-30 | for the client's own request, loading reaches the client as an HTTP 503 rejection and anything else as a resolved response carrying the model holder's body |
| RetryClient.ClassesPartition | electron/main.js:24-39 | every outcome is exactly one of data, retryable (`loading`, refused, 503) or fatal |
| RetryClient.RetryFrom | electron/main.js:20-43 | from attempt i: at most the budget of requests; all but the last retryable; the last decides the result; one wait per retryable outcome |
| RetryClient.Retry | electron/main.js:19-44 | the result satisfies `Classified`: within 100 requests, data returned unchanged, `null` on a fatal error or an exhausted budget, waits equal to the retryable outcomes met, including the final one |
| RetryClient.CorrectTextWithRetry | electron/main.js:19-44 | the loop's result, request count and wait count satisfy `Classified` and equal the reference definition |
| RetryClient.RetryThenData | electron/main.js:20-29 | N < 100 retryable outcomes then a non-loading body (error bodies included) return that body after N + 1 requests and N waits |
| RetryClient.RetryThenFatal | electron/main.js:30-39 | a fatal error after N retryable outcomes returns `null` after N + 1 requests, with no further request |
| RetryClient.BudgetExhausted | electron/main.js:20-43 | 100 retryable outcomes return `null` after exactly 100 requests and 100 waits |
| RetryClient.ManualCorrect | electron/main.js:144-159 | the manual handler returns `corrected_sentence` exactly when it is truthy; otherwise it rejects with the "cannot connect" text exactly for a refused connection and the "taking too long" text otherwise |
| Orchestrator.OnTextCaptured | electron/main.js:177-198 | a rewrite happens exactly for a success with a truthy correction that differs ignoring case, as pause, `correctPhrase(captured, corrected)`, resume after 100 ms; otherwise capture is never paused; a success equal ignoring case does nothing; error bodies are logged with their message; `null`, a success with an empty correction and any other status log unavailability |
| Orchestrator.ToggleAutomaticCorrection | electron/main.js:134-142 | toggling flips listening (stop when listening, start otherwise) with the matching notice, keeping buffer and paused flag |
| Orchestrator.ToggleTwice | electron/main.js:134-142 | toggling twice restores the state apart from a pending timer |
| Orchestrator.CapitalisedStartNotRewritten | electron/main.js:183-187 | a correction that only capitalises the first letter, accented capitals included, is equal ignoring case, so nothing is rewritten |
| Orchestrator.HandleSentence | electron/main.js:181-191 | the handler's actions are those of `OnTextCaptured`; when it rewrites, the rewrite is `correctPhrase(captured, corrected)` and capture ends unpaused; otherwise capture, rewrite and recapture are untouched (what happens to keys echoed meanwhile is `RewriteIsNotRecaptured`) |
| Orchestrator.RewriteIsNotRecaptured | electron/main.js:189-191 | keys delivered during a rewrite, the rewriter's own included, are never captured; capture resumes with an empty buffer even if a send failed; with no rewrite capture is untouched |
| Orchestrator.UnreachableServiceNoRewrite | electron/main.js:181-197 | 100 refused connections give `null` after 100 requests and 100 waits, then only the unavailability log, with capture untouched |
| Orchestrator.WarmupThenCorrection | electron/main.js:32-34 | a backend loading for N < 100 requests and then ready yields the model's correction after N + 1 requests and N waits, and a rewrite happens exactly when that correction is non-empty and differs ignoring case |
| Orchestrator.FailedLoadOnlyLogs | electron/main.js:193-194 | after a failed model load, one request returns the error body and the handler only logs the message naming the load error |

## Left out

- Real time: the 100, 15 and 20 ms delays appear as constants in
  `ResumeAfter` and `Sleep` commands. The 1500 ms debounce is a pending-timer
  flag plus the `TimerFires` event, and the 3000 ms retry delay is a counted
  wait.
- Concurrency: the OS key-hook callback, overlapping `text-captured`
  handlers, the Python loader thread and its `Lock`. Loading is the explicit
  `FinishLoad` event. The synthetic keys that come back while paused are an
  arbitrary event sequence (`echo`).
- `_sendKeys` and its Base64/PowerShell/`exec` transport, and the 15 s / 60 s
  axios timeouts. The sink is a command trace plus the failing send's index.
  `Keystrokes` covers only the part of the `SendKeys` syntax the rewriter
  emits; any other bare special character is "not modelled" (`None`).
- The Electron window, tray menu, notifications (only the notice text is
  modelled), `startPythonService`, `cleanup`, the global shortcut, and the
  Flask server run.
- Model inference: T5 tokenisation, truncation to 512 tokens and generation
  are folded into the uninterpreted `infer` argument.
- Request bodies Flask rejects before `correct_text` runs, and JSON bodies
  that are not objects or `null`, are not modelled.
- `Strings.LowerChar`: folds ASCII `A`-`Z` and the Latin-1 capitals `À`-`Þ`
  (all capitals of English and Spanish text), not the rest of Unicode that
  `toLowerCase` covers, such as Greek, Cyrillic or `Ā`-`ž`.
- Orchestrator.OnTextCaptured: the case-insensitive comparison inherits
  `Strings.LowerChar`, so for text with capitals outside ASCII and Latin-1 the
  model can rewrite where `toLowerCase` would find the two equal.
- Orchestrator.WarmupThenCorrection: its rewrite clause uses the same
  comparison and has the same gap outside ASCII and Latin-1.
- An exception raised by inference (python-service/corrector.py:54-62) makes
  Flask answer HTTP 500; the client treats that as fatal and returns `null`,
  and the handler logs "no response". `infer` is a total function, so this
  path is not modelled; `RetryThenFatal` covers the client's side of any 500.
- JavaScript string lengths count UTF-16 code units. The model counts
  characters, so text outside the Basic Multilingual Plane would get one
  backspace per character, not two.
- `Strings.Trim` and `Strings.IsBlankPy` use fixed whitespace sets: the
  JavaScript `trim` set and Python's `str.isspace` set.
- core/capture.js, core/analyze.js, core/contextual_rules.js and core/ai.js
  are not on the live correction path and are not part of this model.
  app/renderer.js, electron/builder.config.js,
  python-service/download_model.py and tests/test_corrector.py are not part
  of this model either.
