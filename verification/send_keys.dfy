/** The synthetic-input sink's text syntax (WScript.Shell `SendKeys`), as far as
    the rewriter uses it: the escape applied to corrected text, and an
    interpreter of a key string into typed characters and backspaces, with the
    effect of those keystrokes on the focused text. */
module SendKeys {

  import opened Common
  import Strings

  /** Characters `SendKeys` reads as commands rather than text; the escape
      regex `/([+^%~(){}[\]])/g` matches exactly these. */
  predicate IsSpecial(c: char) {
    c == '+' || c == '^' || c == '%' || c == '~' || c == '(' || c == ')'
    || c == '{' || c == '}' || c == '[' || c == ']'
  }

  function CountSpecial(s: string): nat
    decreases |s|
  {
    if s == [] then 0 else (if IsSpecial(s[0]) then 1 else 0) + CountSpecial(s[1..])
  }

  predicate NoSpecial(s: string) {
    forall i :: 0 <= i < |s| ==> !IsSpecial(s[i])
  }

  /** The escape of one character: a special one wrapped in braces. */
  function EscapeChar(c: char): (r: string)
    ensures IsSpecial(c) ==> r == ['{', c, '}']
    ensures !IsSpecial(c) ==> r == [c]
  {
    if IsSpecial(c) then ['{', c, '}'] else [c]
  }

  /** `text.replace(/([+^%~(){}[\]])/g, '{$1}')`: each special character
      becomes `{c}`, every other character is kept. The escaped text is two
      characters longer per special character, and text without special
      characters is returned unchanged. */
  function Escape(s: string): (r: string)
    ensures |r| == |s| + 2 * CountSpecial(s)
    ensures NoSpecial(s) ==> r == s
    decreases |s|
  {
    if s == [] then "" else EscapeChar(s[0]) + Escape(s[1..])
  }

  /** What the sink does for one token of a key string. */
  datatype Key = Type(c: char) | Backspace

  const BackspaceCode := "{BACKSPACE}"

  /** The keystrokes `SendKeys` produces for `t`: `{BACKSPACE}` deletes, a
      braced special character types that character, a bare special character
      is a command this model does not cover (the result is `None`), and any
      other character types itself. */
  function Keystrokes(t: string): (r: Option<seq<Key>>)
    decreases |t|
  {
    if t == [] then Some([])
    else if |t| >= |BackspaceCode| && t[..|BackspaceCode|] == BackspaceCode then
      match Keystrokes(t[|BackspaceCode|..])
      case Some(ks) => Some([Backspace] + ks)
      case None => None
    else if |t| >= 3 && t[0] == '{' && IsSpecial(t[1]) && t[2] == '}' then
      match Keystrokes(t[3..])
      case Some(ks) => Some([Type(t[1])] + ks)
      case None => None
    else if IsSpecial(t[0]) then None
    else
      match Keystrokes(t[1..])
      case Some(ks) => Some([Type(t[0])] + ks)
      case None => None
  }

  /** Typing each character of `s` in order. */
  function TypeAll(s: string): (r: seq<Key>)
    ensures |r| == |s|
    ensures forall i :: 0 <= i < |s| ==> r[i] == Type(s[i])
  {
    seq(|s|, i requires 0 <= i < |s| => Type(s[i]))
  }

  function Backspaces(n: nat): (r: seq<Key>)
    ensures |r| == n
    ensures forall i :: 0 <= i < n ==> r[i] == Backspace
  {
    seq(n, i => Backspace)
  }

  /** One escaped character in front of readable text types that character. */
  lemma KeystrokesOfEscapedChar(c: char, rest: string, ks: seq<Key>)
    requires Keystrokes(rest) == Some(ks)
    ensures Keystrokes(EscapeChar(c) + rest) == Some([Type(c)] + ks)
  {
    var t := EscapeChar(c) + rest;
    if IsSpecial(c) {
      assert t[0] == '{' && t[1] == c && t[2] == '}' && t[3..] == rest;
      assert |t| >= |BackspaceCode| ==> t[..|BackspaceCode|][1] != BackspaceCode[1];
    } else {
      assert t[0] == c && t[1..] == rest;
      assert |t| >= |BackspaceCode| ==> t[..|BackspaceCode|][0] != BackspaceCode[0];
    }
  }

  /** Typing a non-empty text is typing its first character, then the rest. */
  lemma TypeAllCons(s: string)
    requires s != []
    ensures TypeAll(s) == [Type(s[0])] + TypeAll(s[1..])
  {
    var a := TypeAll(s);
    var b := [Type(s[0])] + TypeAll(s[1..]);
    assert |a| == |b|;
    forall i | 0 <= i < |a| ensures a[i] == b[i] {
      if i > 0 {
        assert b[i] == TypeAll(s[1..])[i - 1];
      }
    }
  }

  lemma EscapeConsAppend(s: string, t: string)
    requires s != []
    ensures Escape(s) + t == EscapeChar(s[0]) + (Escape(s[1..]) + t)
  {
    var c := EscapeChar(s[0]);
    var e := Escape(s[1..]);
    assert Escape(s) == c + e;
    AppendAssoc(c, e, t);
  }

  lemma AppendAssoc(a: string, b: string, c: string)
    ensures (a + b) + c == a + (b + c)
  {
  }

  lemma TypeAllConsAppend(s: string, ks: seq<Key>)
    requires s != []
    ensures TypeAll(s) + ks == [Type(s[0])] + (TypeAll(s[1..]) + ks)
  {
    TypeAllCons(s);
  }

  /** One step of the round trip: the first escaped character in front of
      text that already reads back. */
  lemma EscapeStep(s: string, t: string, ks: seq<Key>)
    requires s != []
    requires Keystrokes(Escape(s[1..]) + t) == Some(TypeAll(s[1..]) + ks)
    ensures Keystrokes(Escape(s) + t) == Some(TypeAll(s) + ks)
  {
    calc {
      Keystrokes(Escape(s) + t);
      { EscapeConsAppend(s, t); }
      Keystrokes(EscapeChar(s[0]) + (Escape(s[1..]) + t));
      { KeystrokesOfEscapedChar(s[0], Escape(s[1..]) + t, TypeAll(s[1..]) + ks); }
      Some([Type(s[0])] + (TypeAll(s[1..]) + ks));
      { TypeAllConsAppend(s, ks); }
      Some(TypeAll(s) + ks);
    }
  }

  /** Escaped text followed by anything readable types the original
      characters first. */
  lemma {:induction false} EscapeThenReadable(s: string, t: string, ks: seq<Key>)
    requires Keystrokes(t) == Some(ks)
    ensures Keystrokes(Escape(s) + t) == Some(TypeAll(s) + ks)
    decreases |s|
  {
    if s == [] {
      assert Escape(s) + t == t;
      assert TypeAll(s) + ks == ks;
    } else {
      EscapeThenReadable(s[1..], t, ks);
      EscapeStep(s, t, ks);
    }
  }

  /** `Escape` round-trips through the sink: the escaped text makes `SendKeys`
      type exactly the original characters, braces and all. */
  lemma EscapeRoundTrip(s: string)
    ensures Keystrokes(Escape(s)) == Some(TypeAll(s))
  {
    EscapeThenReadable(s, "", []);
    assert Escape(s) + "" == Escape(s);
    assert TypeAll(s) + [] == TypeAll(s);
  }

  /** Escaping loses nothing: different texts have different escapes. */
  lemma EscapeInjective(a: string, b: string)
    requires Escape(a) == Escape(b)
    ensures a == b
  {
    EscapeRoundTrip(a);
    EscapeRoundTrip(b);
    assert TypeAll(a) == TypeAll(b);
    assert |a| == |b|;
    forall i | 0 <= i < |a| ensures a[i] == b[i] {
      assert TypeAll(a)[i] == Type(a[i]);
    }
  }

  /** One `{BACKSPACE}` in front of readable text deletes first. */
  lemma KeystrokesOfBackspace(rest: string, ks: seq<Key>)
    requires Keystrokes(rest) == Some(ks)
    ensures Keystrokes(BackspaceCode + rest) == Some([Backspace] + ks)
  {
    var t := BackspaceCode + rest;
    assert t[..|BackspaceCode|] == BackspaceCode;
    assert t[|BackspaceCode|..] == rest;
  }

  lemma RepeatCons(n: nat, t: string)
    requires n > 0
    ensures Strings.Repeat(BackspaceCode, n) + t == BackspaceCode + (Strings.Repeat(BackspaceCode, n - 1) + t)
  {
    AppendAssoc(BackspaceCode, Strings.Repeat(BackspaceCode, n - 1), t);
  }

  lemma BackspacesCons(n: nat, ks: seq<Key>)
    requires n > 0
    ensures Backspaces(n) + ks == [Backspace] + (Backspaces(n - 1) + ks)
  {
  }

  /** `{BACKSPACE}` repeated `n` times, followed by anything the sink can read,
      deletes `n` times first. */
  lemma {:induction false} RepeatedBackspace(n: nat, t: string, ks: seq<Key>)
    requires Keystrokes(t) == Some(ks)
    ensures Keystrokes(Strings.Repeat(BackspaceCode, n) + t) == Some(Backspaces(n) + ks)
    decreases n
  {
    if n == 0 {
      assert Strings.Repeat(BackspaceCode, n) + t == t;
      assert Backspaces(n) + ks == ks;
    } else {
      RepeatedBackspace(n - 1, t, ks);
      calc {
        Keystrokes(Strings.Repeat(BackspaceCode, n) + t);
        { RepeatCons(n, t); }
        Keystrokes(BackspaceCode + (Strings.Repeat(BackspaceCode, n - 1) + t));
        { KeystrokesOfBackspace(Strings.Repeat(BackspaceCode, n - 1) + t, Backspaces(n - 1) + ks); }
        Some([Backspace] + (Backspaces(n - 1) + ks));
        { BackspacesCons(n, ks); }
        Some(Backspaces(n) + ks);
      }
    }
  }

  /** The focused text after the keystrokes: a typed character is appended, a
      backspace removes the last character if there is one. */
  function Perform(doc: string, ks: seq<Key>): string
    decreases |ks|
  {
    if ks == [] then doc
    else match ks[0]
      case Type(c) => Perform(doc + [c], ks[1..])
      case Backspace => Perform(if doc == [] then doc else doc[..|doc| - 1], ks[1..])
  }

  /** Typing `s` appends `s`. */
  lemma {:induction false} PerformTypeAll(doc: string, s: string)
    ensures Perform(doc, TypeAll(s)) == doc + s
    decreases |s|
  {
    if s != [] {
      assert TypeAll(s)[1..] == TypeAll(s[1..]);
      PerformTypeAll(doc + [s[0]], s[1..]);
      assert doc + [s[0]] + s[1..] == doc + s;
    }
  }

  /** `n` backspaces delete the last `n` characters. */
  lemma {:induction false} PerformBackspaces(pre: string, tail: string)
    ensures Perform(pre + tail, Backspaces(|tail|)) == pre
    decreases |tail|
  {
    if tail != [] {
      var doc := pre + tail;
      assert doc[..|doc| - 1] == pre + tail[..|tail| - 1];
      assert Backspaces(|tail|)[1..] == Backspaces(|tail| - 1);
      PerformBackspaces(pre, tail[..|tail| - 1]);
    }
  }
}
