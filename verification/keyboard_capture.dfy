/** The keyboard accumulator and its pause gate (`KeyboardCapture` in
    core/keyboard_capture.js): key names from the global key hook are mapped
    to characters, collected into a sentence buffer, and flushed as a captured
    sentence either at once on `.`, `?`, `!` or when the single debounce timer
    fires. The timer is a pending flag; its firing is an explicit event. */
module KeyboardCapture {

  import opened Common
  import opened Strings

  /** The instance's fields: `isListenerActive`, `isPaused`, `currentSentence`
      and whether `debounceTimeout` holds a timer that has not fired or been
      cleared. */
  datatype Capture = Capture(listenerActive: bool, paused: bool, sentence: string, timerPending: bool)

  /** The freshly constructed singleton. */
  const Initial := Capture(false, false, "", false)

  /** The result of one transition: the new state and the sentence emitted as
      `text-captured`, if any. */
  datatype Step = Step(state: Capture, emitted: Option<string>)

  /** `keyNameMap`: key names of the hook library to characters or to
      control identifiers. */
  const KeyNames: map<string, string> := map[
    "PERIOD" := ".", "COMMA" := ",", "SLASH" := "/", "BACK_SLASH" := "\\",
    "SQUARE_BRACKET_OPEN" := "[", "SQUARE_BRACKET_CLOSE" := "]",
    "SEMICOLON" := ";", "APOSTROPHE" := "'", "GRAVE" := "`",
    "MINUS" := "-", "EQUALS" := "=", "SPACE" := " ", "RETURN" := "ENTER",
    "TAB" := "TAB", "CAPS_LOCK" := "CAPS_LOCK", "SHIFT" := "SHIFT",
    "CONTROL" := "CONTROL", "ALT" := "ALT", "UP" := "UP", "DOWN" := "DOWN",
    "LEFT" := "LEFT", "RIGHT" := "RIGHT", "BACKSPACE" := "BACKSPACE",
    "DELETE" := "DELETE", "ESCAPE" := "ESCAPE", "QUESTION_MARK" := "?",
    "EXCLAMATION_MARK" := "!"
  ]

  /** `getKeyName`: the mapped value, or the name itself when it is not mapped.
      Every mapped value is a non-empty string, so JavaScript's `||` falls back
      to the name exactly when the name is absent from the map. No name comes
      out as `SPACE`: the hook's space bar is already `" "`. */
  function GetKeyName(name: string): (key: string)
    ensures name in KeyNames ==> key == KeyNames[name] && key != ""
    ensures name !in KeyNames ==> key == name
    ensures key != "SPACE"
  {
    if name in KeyNames then KeyNames[name] else name
  }

  /** `sentenceSeparators`: keys that flush immediately. */
  predicate IsSeparator(key: string) {
    key == "." || key == "?" || key == "!"
  }

  /** A key that `handleKeyPress` appends verbatim. The `ENTER`/`TAB` exclusion
      never applies to a one-character key but is kept as written. */
  predicate IsCharKey(key: string) {
    |key| == 1 && key != "ENTER" && key != "TAB"
  }

  /** The buffer edit of `handleKeyPress`: append a one-character key, append a
      space for `SPACE` unless the buffer is empty or already ends in one,
      drop the last character for `BACKSPACE` (`slice(0, -1)` leaves `""`
      as `""`), and leave the buffer alone for any other key. The result either
      extends the buffer by at most one character or is its prefix. */
  function Edit(sentence: string, key: string): (r: string)
    ensures IsCharKey(key) ==> r == sentence + key
    ensures key == "BACKSPACE" ==> |r| == if sentence == [] then 0 else |sentence| - 1
    ensures key == "BACKSPACE" ==> r == sentence[..|r|]
    ensures key == "SPACE" ==> (r == sentence + " " <==> sentence != [] && sentence[|sentence| - 1] != ' ')
    ensures key == "SPACE" && r != sentence + " " ==> r == sentence
    ensures !IsCharKey(key) && key != "SPACE" && key != "BACKSPACE" ==> r == sentence
  {
    if IsCharKey(key) then sentence + key
    else if key == "SPACE" then
      if |sentence| > 0 && sentence[|sentence| - 1] != ' ' then sentence + " " else sentence
    else if key == "BACKSPACE" then
      if |sentence| > 0 then sentence[..|sentence| - 1] else sentence
    else sentence
  }

  /** `processCapturedSentence`: emit the trimmed buffer and clear it when the
      trim is non-empty; otherwise do nothing at all. Timer and flags are not
      touched. */
  function ProcessCapturedSentence(s: Capture): (r: Step)
    ensures r.emitted.Some? <==> !AllJsSpace(s.sentence)
    ensures r.emitted.Some? ==> r.emitted.value != [] && IsTrimmed(r.emitted.value)
    ensures r.emitted.Some? ==> r.emitted.value == Trim(s.sentence) && r.state == s.(sentence := "")
    ensures r.emitted.None? ==> r.state == s
  {
    var text := Trim(s.sentence);
    if |text| == 0 then Step(s, None)
    else Step(s.(sentence := ""), Some(text))
  }

  /** `handleKeyPress(key)`: clear the timer, edit the buffer, then flush at
      once on a separator or re-arm exactly one timer otherwise. A separator
      always produces a sentence, since the buffer then ends in a non-blank. */
  function HandleKeyPress(s: Capture, key: string): (r: Step)
    ensures r.state.listenerActive == s.listenerActive && r.state.paused == s.paused
    ensures r.emitted.Some? <==> IsSeparator(key)
    ensures r.emitted.Some? ==> r.emitted.value != [] && IsTrimmed(r.emitted.value)
    ensures IsSeparator(key) ==>
      r.emitted == Some(Trim(s.sentence + key)) && r.state.sentence == "" && !r.state.timerPending
    ensures !IsSeparator(key) ==> r.state.timerPending && r.state.sentence == Edit(s.sentence, key)
  {
    var edited := s.(sentence := Edit(s.sentence, key), timerPending := false);
    if IsSeparator(key) then
      assert edited.sentence[|edited.sentence| - 1] == key[0];
      ProcessCapturedSentence(edited)
    else
      Step(edited.(timerPending := true), None)
  }

  /** The debounce timer fires: if one is pending it is consumed and the buffer
      is processed; with no pending timer nothing happens. */
  function FireTimer(s: Capture): (r: Step)
    ensures !s.timerPending ==> r == Step(s, None)
    ensures !r.state.timerPending
    ensures s.timerPending ==> (r.emitted.Some? <==> !AllJsSpace(s.sentence))
    ensures s.timerPending && r.emitted.None? ==> r.state == s.(timerPending := false)
    ensures r.emitted.Some? ==> r.state == s.(sentence := "", timerPending := false)
    ensures r.emitted.Some? ==> r.emitted.value == Trim(s.sentence) && r.state.sentence == ""
    ensures r.emitted.Some? ==> r.emitted.value != [] && IsTrimmed(r.emitted.value)
  {
    if s.timerPending then ProcessCapturedSentence(s.(timerPending := false)) else Step(s, None)
  }

  /** The hook's callback registered by `start()`: only key-down events while
      the listener is registered and capture is not paused reach
      `handleKeyPress`, after `getKeyName`. */
  function OnKeyEvent(s: Capture, name: string, down: bool): (r: Step)
    ensures !s.listenerActive || s.paused || !down ==> r == Step(s, None)
    ensures s.listenerActive && !s.paused && down ==>
      && r.state.listenerActive && !r.state.paused
      && (r.emitted.Some? <==> IsSeparator(GetKeyName(name)))
      && (r.emitted.None? ==> r.state.timerPending && r.state.sentence == Edit(s.sentence, GetKeyName(name)))
      && (r.emitted.Some? ==>
            r.emitted == Some(Trim(s.sentence + GetKeyName(name))) && r.state.sentence == "" && !r.state.timerPending)
    ensures s.listenerActive && !s.paused && down && |name| == 1 && name !in KeyNames && !IsSeparator(name) ==>
      r == Step(s.(sentence := s.sentence + name, timerPending := true), None)
  {
    if !s.listenerActive || s.paused || !down then Step(s, None)
    else HandleKeyPress(s, GetKeyName(name))
  }

  /** `start()`: registers the listener; a no-op when already listening. */
  function Start(s: Capture): (r: Capture)
    ensures r.listenerActive
    ensures r.paused == s.paused && r.sentence == s.sentence && r.timerPending == s.timerPending
    ensures s.listenerActive ==> r == s
  {
    if s.listenerActive then s else s.(listenerActive := true)
  }

  /** `stop()`: kills the listener and clears the timer; a no-op when not
      listening. Paused flag and buffer are kept. */
  function Stop(s: Capture): (r: Capture)
    ensures !r.listenerActive
    ensures s.listenerActive ==> !r.timerPending
    ensures r.paused == s.paused && r.sentence == s.sentence
    ensures !s.listenerActive ==> r == s
  {
    if !s.listenerActive then s else s.(listenerActive := false, timerPending := false)
  }

  /** `pause()`: sets paused and clears the timer without flushing; the buffer
      is kept. A no-op when already paused. */
  function Pause(s: Capture): (r: Capture)
    ensures r.paused
    ensures !s.paused ==> !r.timerPending
    ensures r.sentence == s.sentence && r.listenerActive == s.listenerActive
    ensures s.paused ==> r == s
  {
    if s.paused then s else s.(paused := true, timerPending := false)
  }

  /** `resume()`: from paused, clears paused and empties the buffer; a no-op
      when not paused. */
  function Resume(s: Capture): (r: Capture)
    ensures !r.paused
    ensures s.paused ==> r.sentence == "" && r.listenerActive == s.listenerActive && r.timerPending == s.timerPending
    ensures !s.paused ==> r == s
  {
    if !s.paused then s else s.(paused := false, sentence := "")
  }

  /** `start`, `stop`, `pause` and `resume` are idempotent. */
  lemma GateIdempotent(s: Capture)
    ensures Start(Start(s)) == Start(s)
    ensures Stop(Stop(s)) == Stop(s)
    ensures Pause(Pause(s)) == Pause(s)
    ensures Resume(Resume(s)) == Resume(s)
  {
  }

  /** Everything that can happen to the capture instance. */
  datatype Event =
    | KeyDown(name: string)
    | KeyUp(name: string)
    | TimerFires
    | PauseCall
    | ResumeCall
    | StartCall
    | StopCall

  function Apply(s: Capture, e: Event): Step {
    match e
    case KeyDown(name) => OnKeyEvent(s, name, true)
    case KeyUp(name) => OnKeyEvent(s, name, false)
    case TimerFires => FireTimer(s)
    case PauseCall => Step(Pause(s), None)
    case ResumeCall => Step(Resume(s), None)
    case StartCall => Step(Start(s), None)
    case StopCall => Step(Stop(s), None)
  }

  /** The state after a run of events and the sentences emitted, in order. */
  datatype Run = Run(state: Capture, emitted: seq<string>)

  function RunEvents(s: Capture, es: seq<Event>): Run
    decreases |es|
  {
    if es == [] then Run(s, [])
    else
      var st := Apply(s, es[0]);
      var rest := RunEvents(st.state, es[1..]);
      Run(rest.state, (if st.emitted.Some? then [st.emitted.value] else []) + rest.emitted)
  }

  /** A run of `handleKeyPress` calls, as the hook delivers them. */
  function HandleKeys(s: Capture, keys: seq<string>): Run
    decreases |keys|
  {
    if keys == [] then Run(s, [])
    else
      var st := HandleKeyPress(s, keys[0]);
      var rest := HandleKeys(st.state, keys[1..]);
      Run(rest.state, (if st.emitted.Some? then [st.emitted.value] else []) + rest.emitted)
  }

  function Concat(keys: seq<string>): string
    decreases |keys|
  {
    if keys == [] then "" else keys[0] + Concat(keys[1..])
  }

  /** A timer is never pending while capture is paused or the listener is
      stopped. */
  predicate Quiet(s: Capture) {
    s.paused || !s.listenerActive ==> !s.timerPending
  }

  /** Every event keeps `Quiet`: only `handleKeyPress` arms the timer, and it
      is reachable only when listening and not paused. */
  lemma ApplyKeepsQuiet(s: Capture, e: Event)
    requires Quiet(s)
    ensures Quiet(Apply(s, e).state)
  {
  }

  lemma {:induction false} RunKeepsQuiet(s: Capture, es: seq<Event>)
    requires Quiet(s)
    ensures Quiet(RunEvents(s, es).state)
    decreases |es|
  {
    if es != [] {
      ApplyKeepsQuiet(s, es[0]);
      RunKeepsQuiet(Apply(s, es[0]).state, es[1..]);
    }
  }

  /** The freshly constructed capture is quiet, so every run from it is. */
  lemma InitialRunsQuiet(es: seq<Event>)
    ensures Quiet(RunEvents(Initial, es).state)
  {
    RunKeepsQuiet(Initial, es);
  }

  predicate AllTrimmed(ss: seq<string>) {
    forall i :: 0 <= i < |ss| ==> ss[i] != [] && IsTrimmed(ss[i])
  }

  lemma ApplyEmitsTrimmed(s: Capture, e: Event)
    ensures Apply(s, e).emitted.Some? ==> Apply(s, e).emitted.value != [] && IsTrimmed(Apply(s, e).emitted.value)
  {
  }

  /** Every sentence a run emits is non-empty and has no whitespace at either
      end. */
  lemma {:induction false} EmittedAreTrimmed(s: Capture, es: seq<Event>)
    ensures AllTrimmed(RunEvents(s, es).emitted)
    decreases |es|
  {
    if es != [] {
      var st := Apply(s, es[0]);
      var rest := RunEvents(st.state, es[1..]);
      EmittedAreTrimmed(st.state, es[1..]);
      var head := if st.emitted.Some? then [st.emitted.value] else [];
      ApplyEmitsTrimmed(s, es[0]);
      assert AllTrimmed(head);
      assert RunEvents(s, es).emitted == head + rest.emitted;
    }
  }

  /** Keys of length one that are not separators are appended in order: the
      buffer grows by their concatenation, nothing is emitted, and a timer is
      pending after the first of them. */
  lemma {:induction false} CharKeysConcatenate(s: Capture, keys: seq<string>)
    requires forall i :: 0 <= i < |keys| ==> |keys[i]| == 1 && !IsSeparator(keys[i])
    ensures HandleKeys(s, keys).state.sentence == s.sentence + Concat(keys)
    ensures HandleKeys(s, keys).emitted == []
    ensures HandleKeys(s, keys).state.timerPending == (keys != [] || s.timerPending)
    ensures HandleKeys(s, keys).state.paused == s.paused
    decreases |keys|
  {
    if keys != [] {
      var next := HandleKeyPress(s, keys[0]).state;
      assert next.sentence == s.sentence + keys[0];
      CharKeysConcatenate(next, keys[1..]);
      assert s.sentence + keys[0] + Concat(keys[1..]) == s.sentence + Concat(keys);
    }
  }

  /** `BACKSPACE` drops exactly the last character of a non-empty buffer and
      leaves an empty one empty; it emits nothing and arms the timer. */
  lemma BackspaceDropsLast(s: Capture)
    ensures s.sentence != [] ==> HandleKeyPress(s, "BACKSPACE").state.sentence + [s.sentence[|s.sentence| - 1]] == s.sentence
    ensures s.sentence == [] ==> HandleKeyPress(s, "BACKSPACE").state.sentence == []
    ensures HandleKeyPress(s, "BACKSPACE").emitted.None?
    ensures HandleKeyPress(s, "BACKSPACE").state.timerPending
  {
    if s.sentence != [] {
      var r := HandleKeyPress(s, "BACKSPACE").state.sentence;
      assert r == s.sentence[..|s.sentence| - 1];
    }
  }

  /** The hook's space is mapped to `" "` before `handleKeyPress` sees it, so
      it always takes the one-character branch: it is appended even to an
      empty buffer or after another space. The collapsing `SPACE` branch is
      reached only by a caller passing the name `"SPACE"` directly. */
  lemma ListenerSpaceIsNotCollapsed(s: Capture)
    requires s.listenerActive && !s.paused
    ensures GetKeyName("SPACE") == " "
    ensures OnKeyEvent(s, "SPACE", true).state.sentence == s.sentence + " "
    ensures OnKeyEvent(s, "SPACE", true).state.timerPending
  {
    assert KeyNames["SPACE"] == " ";
    assert GetKeyName("SPACE") == " ";
    assert IsCharKey(" ") && !IsSeparator(" ");
  }

  /** Two key-downs of the space bar leave two spaces in the buffer. */
  lemma DoubleSpaceKept(s: Capture)
    requires s.listenerActive && !s.paused
    ensures OnKeyEvent(OnKeyEvent(s, "SPACE", true).state, "SPACE", true).state.sentence == s.sentence + "  "
  {
    ListenerSpaceIsNotCollapsed(s);
    ListenerSpaceIsNotCollapsed(OnKeyEvent(s, "SPACE", true).state);
  }

  /** While paused, key-downs, key-ups and timer events change nothing and emit
      nothing, however many arrive: the rewriter's own synthetic keystrokes are
      not captured. */
  lemma {:induction false} PausedIgnoresInput(s: Capture, es: seq<Event>)
    requires s.paused && Quiet(s)
    requires forall i :: 0 <= i < |es| ==> es[i].KeyDown? || es[i].KeyUp? || es[i].TimerFires?
    ensures RunEvents(s, es) == Run(s, [])
    decreases |es|
  {
    if es != [] {
      assert Apply(s, es[0]) == Step(s, None);
      PausedIgnoresInput(s, es[1..]);
    }
  }

  /** After an inactivity flush the timer is spent: firing again emits nothing. */
  lemma TimerFlushesOnce(s: Capture)
    requires s.timerPending && !AllJsSpace(s.sentence)
    ensures FireTimer(s).emitted == Some(Trim(s.sentence))
    ensures FireTimer(FireTimer(s).state).emitted.None?
  {
  }
}
