/** The synthetic-input rewriter (`Corrector` in core/corrector.js). The sink
    `_sendKeys` is abstract: each call is recorded as a `Send` command in a
    trace, each `sleep` as a `Sleep` command, and the sink's failure is a
    parameter naming which send (counted from zero) rejects. */
module Corrector {

  import opened Common
  import opened SendKeys
  import Strings

  /** Pause after each backspace of `correctWord`, in milliseconds. */
  const WordPauseMs := 15
  /** Pause between deleting and retyping in `correctPhrase`, in milliseconds. */
  const PhrasePauseMs := 20

  datatype Command = Send(keys: string) | Sleep(ms: nat)

  /** The commands issued and whether a send rejected (the error is logged
      and swallowed, never rethrown). */
  datatype Rewrite = Rewrite(trace: seq<Command>, failed: bool)

  function CountSends(plan: seq<Command>): nat
    decreases |plan|
  {
    if plan == [] then 0 else (if plan[0].Send? then 1 else 0) + CountSends(plan[1..])
  }

  /** The deletion loop of `correctWord`: `n` separate one-backspace sends,
      each followed by a pause. */
  function DeleteSteps(n: nat): (plan: seq<Command>)
    ensures |plan| == 2 * n
    ensures forall i :: 0 <= i < n ==> plan[2 * i] == Send(BackspaceCode) && plan[2 * i + 1] == Sleep(WordPauseMs)
    decreases n
  {
    if n == 0 then []
    else
      var rest := DeleteSteps(n - 1);
      var plan := [Send(BackspaceCode), Sleep(WordPauseMs)] + rest;
      forall i | 0 <= i < n
        ensures plan[2 * i] == Send(BackspaceCode) && plan[2 * i + 1] == Sleep(WordPauseMs)
      {
        if i > 0 {
          assert plan[2 * i] == rest[2 * (i - 1)] && plan[2 * i + 1] == rest[2 * (i - 1) + 1];
        }
      }
      plan
  }

  /** What `correctWord` asks of the sink: delete `wrong` one key at a time,
      then type `correct` (escaped) with no trailing space. */
  function WordPlan(wrong: string, correct: string): (plan: seq<Command>)
    ensures |plan| == 2 * |wrong| + 1
    ensures forall i :: 0 <= i < |wrong| ==>
      plan[2 * i].Send? && Keystrokes(plan[2 * i].keys) == Some(Backspaces(1)) && plan[2 * i + 1] == Sleep(WordPauseMs)
    ensures plan[2 * |wrong|].Send? && Keystrokes(plan[2 * |wrong|].keys) == Some(TypeAll(correct))
  {
    var plan := DeleteSteps(|wrong|) + [Send(Escape(correct))];
    OneBackspace();
    EscapeRoundTrip(correct);
    plan
  }

  lemma OneBackspace()
    ensures Keystrokes(BackspaceCode) == Some(Backspaces(1))
  {
    RepeatedBackspace(1, "", []);
    assert Strings.Repeat(BackspaceCode, 1) + "" == BackspaceCode;
    assert Backspaces(1) + [] == Backspaces(1);
  }

  /** What `correctPhrase` asks of the sink: one send of `original.length + 1`
      backspaces, a pause, then one send typing `corrected` (escaped) and a
      single space. */
  function PhrasePlan(original: string, corrected: string): (plan: seq<Command>)
    ensures |plan| == 3 && plan[1] == Sleep(PhrasePauseMs)
    ensures plan[0].Send? && Keystrokes(plan[0].keys) == Some(Backspaces(|original| + 1))
    ensures plan[2].Send? && Keystrokes(plan[2].keys) == Some(TypeAll(corrected + " "))
  {
    var n := |original| + 1;
    RepeatedBackspace(n, "", []);
    assert Strings.Repeat(BackspaceCode, n) + "" == Strings.Repeat(BackspaceCode, n);
    assert Backspaces(n) + [] == Backspaces(n);
    KeystrokesOfEscapedChar(' ', "", []);
    assert EscapeChar(' ') + "" == " ";
    assert [Type(' ')] + [] == [Type(' ')];
    EscapeThenReadable(corrected, " ", [Type(' ')]);
    assert TypeAll(corrected) + [Type(' ')] == TypeAll(corrected + " ");
    [Send(Strings.Repeat(BackspaceCode, n)), Sleep(PhrasePauseMs), Send(Escape(corrected) + " ")]
  }

  /** Running a plan against a sink whose send number `failAt` rejects
      (numbering continues from `sent`): the awaited calls run in order until
      that send; the rejecting send is the last command issued, and the
      rejection is caught. */
  function ExecuteFrom(plan: seq<Command>, failAt: Option<nat>, sent: nat): (r: Rewrite)
    ensures |r.trace| <= |plan| && r.trace == plan[..|r.trace|]
    ensures r.failed <==> failAt.Some? && sent <= failAt.value < sent + CountSends(plan)
    ensures !r.failed ==> r.trace == plan
    ensures r.failed ==>
      r.trace != [] && r.trace[|r.trace| - 1].Send? && CountSends(r.trace) == failAt.value - sent + 1
    decreases |plan|
  {
    if plan == [] then Rewrite([], false)
    else if plan[0].Send? && failAt == Some(sent) then
      ExecuteFirstFails(plan, failAt, sent);
      Rewrite([plan[0]], true)
    else
      var rest := ExecuteFrom(plan[1..], failAt, sent + SendsIn(plan[0]));
      ExecuteCons(plan, failAt, sent, rest);
      Rewrite([plan[0]] + rest.trace, rest.failed)
  }

  function SendsIn(c: Command): nat {
    if c.Send? then 1 else 0
  }

  /** `ExecuteFrom`'s contract, as one predicate for the inductive step. */
  predicate Runs(plan: seq<Command>, failAt: Option<nat>, sent: nat, r: Rewrite) {
    && |r.trace| <= |plan| && r.trace == plan[..|r.trace|]
    && (r.failed <==> failAt.Some? && sent <= failAt.value < sent + CountSends(plan))
    && (!r.failed ==> r.trace == plan)
    && (r.failed ==>
      r.trace != [] && r.trace[|r.trace| - 1].Send? && CountSends(r.trace) == failAt.value - sent + 1)
  }

  /** A rejecting first send is the whole run. */
  lemma ExecuteFirstFails(plan: seq<Command>, failAt: Option<nat>, sent: nat)
    requires plan != [] && plan[0].Send? && failAt == Some(sent)
    ensures Runs(plan, failAt, sent, Rewrite([plan[0]], true))
  {
    assert [plan[0]] == plan[..1];
    assert CountSends([plan[0]]) == 1 by {
      assert [plan[0]][1..] == [];
    }
    assert CountSends(plan) == 1 + CountSends(plan[1..]);
  }

  /** A command that does not reject, in front of a run of the rest of the
      plan, is a run of the whole plan. */
  lemma ExecuteCons(plan: seq<Command>, failAt: Option<nat>, sent: nat, rest: Rewrite)
    requires plan != [] && !(plan[0].Send? && failAt == Some(sent))
    requires Runs(plan[1..], failAt, sent + SendsIn(plan[0]), rest)
    ensures Runs(plan, failAt, sent, Rewrite([plan[0]] + rest.trace, rest.failed))
  {
    var t := [plan[0]] + rest.trace;
    assert t[0] == plan[0] && t[1..] == rest.trace;
    assert t == plan[..|t|] by {
      assert plan[..|t|] == [plan[0]] + plan[1..][..|rest.trace|];
    }
    assert CountSends(plan) == SendsIn(plan[0]) + CountSends(plan[1..]);
    assert CountSends(t) == SendsIn(plan[0]) + CountSends(rest.trace);
    assert rest.trace != [] ==> t[|t| - 1] == rest.trace[|rest.trace| - 1];
  }

  /** `correctWord(wrongWord, correctWord)`: the commands issued are a prefix
      of the plan that stops at a rejecting send, and the rejection is not
      rethrown. */
  function CorrectWord(wrong: string, correct: string, failAt: Option<nat>): (r: Rewrite)
    ensures |r.trace| <= |WordPlan(wrong, correct)| && r.trace == WordPlan(wrong, correct)[..|r.trace|]
    ensures r.failed <==> failAt.Some? && failAt.value <= |wrong|
    ensures !r.failed ==> r.trace == WordPlan(wrong, correct)
    ensures r.failed ==>
      r.trace != [] && r.trace[|r.trace| - 1].Send? && CountSends(r.trace) == failAt.value + 1
  {
    WordPlanSends(wrong, correct);
    ExecuteFrom(WordPlan(wrong, correct), failAt, 0)
  }

  lemma {:induction false} DeleteStepsSends(n: nat, tail: seq<Command>)
    ensures CountSends(DeleteSteps(n) + tail) == n + CountSends(tail)
    decreases n
  {
    if n > 0 {
      var p := DeleteSteps(n) + tail;
      assert p[0].Send? && !p[1].Send?;
      assert p[1..][1..] == DeleteSteps(n - 1) + tail;
      DeleteStepsSends(n - 1, tail);
      assert CountSends(p[1..]) == CountSends(p[1..][1..]);
      assert CountSends(p) == 1 + CountSends(p[1..]);
    } else {
      assert DeleteSteps(n) + tail == tail;
    }
  }

  lemma WordPlanSends(wrong: string, correct: string)
    ensures CountSends(WordPlan(wrong, correct)) == |wrong| + 1
  {
    DeleteStepsSends(|wrong|, [Send(Escape(correct))]);
    assert CountSends([Send(Escape(correct))]) == 1;
  }

  /** `correctPhrase(originalPhrase, correctedPhrase)`: the commands issued
      are always a prefix of the plan, and a failing send stops the rewrite
      without raising. */
  function CorrectPhrase(original: string, corrected: string, failAt: Option<nat>): (r: Rewrite)
    ensures |r.trace| <= 3 && r.trace == PhrasePlan(original, corrected)[..|r.trace|]
    ensures r.failed <==> failAt.Some? && failAt.value <= 1
    ensures !r.failed ==> r.trace == PhrasePlan(original, corrected)
    ensures r.failed ==>
      r.trace != [] && r.trace[|r.trace| - 1].Send? && CountSends(r.trace) == failAt.value + 1
    ensures failAt == Some(0) ==> r.trace == [PhrasePlan(original, corrected)[0]]
    ensures failAt == Some(1) ==> r.trace == PhrasePlan(original, corrected)
  {
    var plan := PhrasePlan(original, corrected);
    assert plan[1..][1..][1..] == [];
    assert CountSends(plan[1..][1..]) == 1;
    assert CountSends(plan[1..]) == 1;
    assert CountSends(plan) == 2;
    ExecuteFrom(plan, failAt, 0)
  }

  /** The focused text after the sink carries out a trace, or `None` if some
      send is not plain text and backspaces. Pauses change nothing. */
  function Effect(doc: string, trace: seq<Command>): Option<string>
    decreases |trace|
  {
    if trace == [] then Some(doc)
    else match trace[0]
      case Sleep(_) => Effect(doc, trace[1..])
      case Send(keys) =>
        match Keystrokes(keys)
        case None => None
        case Some(ks) => Effect(Perform(doc, ks), trace[1..])
  }

  /** A completed `correctPhrase` replaces the last `original.length + 1`
      characters of the focused text with the corrected phrase and one space. */
  lemma PhraseRewriteResult(pre: string, tail: string, original: string, corrected: string)
    requires |tail| == |original| + 1
    ensures Effect(pre + tail, CorrectPhrase(original, corrected, None).trace) == Some(pre + corrected + " ")
  {
    var plan := PhrasePlan(original, corrected);
    var n := |original| + 1;
    PerformBackspaces(pre, tail);
    PerformTypeAll(pre, corrected + " ");
    var last := plan[1..][1..];
    assert last == [plan[2]] && last[1..] == [];
    assert Keystrokes(last[0].keys) == Some(TypeAll(corrected + " "));
    assert Perform(pre, TypeAll(corrected + " ")) == pre + corrected + " ";
    assert last[0] == Send(last[0].keys);
    assert Effect(pre, last) == Effect(pre + corrected + " ", last[1..]);
    assert Effect(pre, last) == Some(pre + corrected + " ");
    assert Effect(pre, plan[1..]) == Effect(pre, last);
    assert Effect(pre + tail, plan) == Effect(Perform(pre + tail, Backspaces(n)), plan[1..]);
  }

  lemma {:induction false} DeleteStepsEffect(pre: string, tail: string, rest: seq<Command>)
    ensures Effect(pre + tail, DeleteSteps(|tail|) + rest) == Effect(pre, rest)
    decreases |tail|
  {
    if tail != [] {
      var doc := pre + tail;
      var p := DeleteSteps(|tail|) + rest;
      OneBackspace();
      assert p[0] == Send(BackspaceCode) && p[1] == Sleep(WordPauseMs);
      assert Perform(doc, Backspaces(1)) == doc[..|doc| - 1] by {
        assert Backspaces(1) == [Backspace];
      }
      assert doc[..|doc| - 1] == pre + tail[..|tail| - 1];
      assert p[1..][1..] == DeleteSteps(|tail| - 1) + rest;
      DeleteStepsEffect(pre, tail[..|tail| - 1], rest);
    } else {
      assert pre + tail == pre;
      assert DeleteSteps(|tail|) + rest == rest;
    }
  }

  /** A completed `correctWord` replaces the last `wrongWord.length`
      characters of the focused text with the corrected word, and adds no
      space. */
  lemma WordRewriteResult(pre: string, tail: string, wrong: string, correct: string)
    requires |tail| == |wrong|
    ensures Effect(pre + tail, CorrectWord(wrong, correct, None).trace) == Some(pre + correct)
  {
    var last := [Send(Escape(correct))];
    DeleteStepsEffect(pre, tail, last);
    EscapeRoundTrip(correct);
    PerformTypeAll(pre, correct);
  }
}
