/** Just enough of JavaScript's regular-expression syntax to count capturing
    groups in a pattern's source text: escapes (`\x`), character classes
    (`[...]`, where `(` is an ordinary character) and `(?`, which opens a
    non-capturing group. Named groups `(?<name>...)` do not occur in the
    patterns the command compiler builds and are not recognised. */
module RegexText {

  datatype LexState = Outside | Escaped | InClass | InClassEscaped

  function Step(st: LexState, c: char): LexState {
    match st
    case Outside => if c == '\\' then Escaped else if c == '[' then InClass else Outside
    case Escaped => Outside
    case InClass => if c == '\\' then InClassEscaped else if c == ']' then Outside else InClass
    case InClassEscaped => InClass
  }

  /** The lexer state after reading `s` from state `st`. */
  function EndState(s: string, st: LexState): LexState
    decreases |s|
  {
    if s == [] then st else EndState(s[1..], Step(st, s[0]))
  }

  /** The number of capturing groups `s` opens when read from state `st`: a
      `(` outside any class and escape, not followed by `?`. */
  function Groups(s: string, st: LexState): nat
    decreases |s|
  {
    if s == [] then 0
    else
      var opens := st == Outside && s[0] == '(' && !(|s| > 1 && s[1] == '?');
      (if opens then 1 else 0) + Groups(s[1..], Step(st, s[0]))
  }

  /** Text that opens no group, class or escape. */
  predicate Plain(s: string) {
    forall i :: 0 <= i < |s| ==> s[i] != '(' && s[i] != '[' && s[i] != '\\'
  }

  lemma {:induction false} PlainHasNoGroups(s: string)
    requires Plain(s)
    ensures Groups(s, Outside) == 0 && EndState(s, Outside) == Outside
    decreases |s|
  {
    if s != [] {
      assert Plain(s[1..]) by {
        forall i | 0 <= i < |s[1..]| ensures s[1..][i] != '(' && s[1..][i] != '[' && s[1..][i] != '\\' {
          assert s[1..][i] == s[i + 1];
        }
      }
      PlainHasNoGroups(s[1..]);
    }
  }

  /** `s` does not end in a `(`, whose meaning depends on what follows. */
  predicate NotOpen(s: string) {
    s == [] || s[|s| - 1] != '('
  }

  lemma PlainNotOpen(s: string)
    requires Plain(s)
    ensures NotOpen(s)
  {
    if s != [] {
      assert s[|s| - 1] != '(';
    }
  }

  lemma PlainConcat(a: string, b: string)
    requires Plain(a) && Plain(b)
    ensures Plain(a + b)
  {
    forall i | 0 <= i < |a + b|
      ensures (a + b)[i] != '(' && (a + b)[i] != '[' && (a + b)[i] != '\\'
    {
      if i < |a| {
        assert (a + b)[i] == a[i];
      } else {
        assert (a + b)[i] == b[i - |a|];
      }
    }
  }

  lemma NotOpenConcat(a: string, b: string)
    requires NotOpen(b) && (b != [] || NotOpen(a))
    ensures NotOpen(a + b)
  {
    if b == [] {
      assert a + b == a;
    } else {
      assert (a + b)[|a + b| - 1] == b[|b| - 1];
    }
  }

  /** Groups and lexer state are additive over a concatenation, provided the
      left part does not end in the `(` whose meaning depends on what follows. */
  lemma {:induction false} GroupsConcat(a: string, b: string, st: LexState)
    requires NotOpen(a)
    ensures Groups(a + b, st) == Groups(a, st) + Groups(b, EndState(a, st))
    ensures EndState(a + b, st) == EndState(b, EndState(a, st))
    decreases |a|
  {
    if a == [] {
      assert a + b == b;
    } else {
      assert (a + b)[0] == a[0];
      assert (a + b)[1..] == a[1..] + b;
      if |a| > 1 {
        assert (a + b)[1] == a[1];
      }
      GroupsConcat(a[1..], b, Step(st, a[0]));
    }
  }

  /** A `(` read outside any class opens a group unless `?` follows it. */
  lemma OpenParen(x: string, st: LexState)
    requires st == Outside
    ensures Groups("(" + x, st) == (if x != [] && x[0] == '?' then 0 else 1) + Groups(x, Outside)
    ensures EndState("(" + x, st) == EndState(x, Outside)
  {
    assert ("(" + x)[1..] == x;
  }

  /** Plain text in front changes neither the groups nor the final state. */
  lemma PlainThen(p: string, x: string)
    requires Plain(p)
    ensures Groups(p + x, Outside) == Groups(x, Outside)
    ensures EndState(p + x, Outside) == EndState(x, Outside)
  {
    PlainNotOpen(p);
    PlainHasNoGroups(p);
    GroupsConcat(p, x, Outside);
  }

  /** An escape `\c` opens nothing, whatever `c` is. */
  lemma EscapeThen(c: char, x: string)
    ensures Groups(['\\', c] + x, Outside) == Groups(x, Outside)
    ensures EndState(['\\', c] + x, Outside) == EndState(x, Outside)
  {
    var s := ['\\', c] + x;
    assert s[1..][1..] == x;
  }

  /** Inside a class without `]`, no group opens and the class stays open;
      it is not waiting for an escaped character unless its last character
      is a backslash. */
  lemma {:induction false} InClassRun(x: string, st: LexState)
    requires st == InClass || st == InClassEscaped
    requires ']' !in x
    ensures Groups(x, st) == 0
    ensures EndState(x, st) == InClass || EndState(x, st) == InClassEscaped
    ensures x != [] && x[|x| - 1] != '\\' ==> EndState(x, st) == InClass
    decreases |x|
  {
    if x != [] {
      assert x[0] in x;
      assert forall c :: c in x[1..] ==> c in x;
      InClassRun(x[1..], Step(st, x[0]));
      if |x| > 1 {
        assert x[1..][|x[1..]| - 1] == x[|x| - 1];
      }
    }
  }

  /** A class `[body]` in front opens no group and closes before what
      follows it. */
  lemma ClassThen(body: string, x: string)
    requires ']' !in body && body != [] && body[|body| - 1] != '\\' && NotOpen(body)
    ensures Groups("[" + body + "]" + x, Outside) == Groups(x, Outside)
    ensures EndState("[" + body + "]" + x, Outside) == EndState(x, Outside)
  {
    var s := "[" + body + "]" + x;
    assert s[1..] == body + ("]" + x);
    InClassRun(body, InClass);
    GroupsConcat(body, "]" + x, InClass);
    assert ("]" + x)[1..] == x;
  }
}
