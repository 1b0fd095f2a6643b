/** The JavaScript string primitives the command module relies on: the `\s`
    class, `split`, `trim`, `Number(...)`, `String(n)`, `startsWith`,
    `indexOf`, `replace` with a string pattern, and the two whitespace
    rewrites `replace(/\s+/g, ' ')` and `replace(/\s+/g, '')`.
    Text is a sequence of Unicode code points; `Utf16Length` gives the
    `.length` JavaScript would report. */
module JsText {
  import opened Wrappers

  /** JavaScript's `\s`: the WhiteSpace and LineTerminator code points. */
  predicate IsWhitespace(c: char) {
    c == '\t' || c == '\n' || c == '\U{000B}' || c == '\U{000C}' || c == '\r' || c == ' '
    || c == '\U{00A0}' || c == '\U{1680}' || ('\U{2000}' <= c <= '\U{200A}')
    || c == '\U{2028}' || c == '\U{2029}' || c == '\U{202F}' || c == '\U{205F}'
    || c == '\U{3000}' || c == '\U{FEFF}'
  }

  /** The code points a regular-expression `.` does not match. */
  predicate IsLineTerminator(c: char) {
    c == '\n' || c == '\r' || c == '\U{2028}' || c == '\U{2029}'
  }

  /** JavaScript's `\d`. */
  predicate IsDigit(c: char) {
    '0' <= c <= '9'
  }

  /** The 32 ASCII punctuation characters, the class
      ``[!"#$%&'()*+,\-./:;<=>?@[\\\]^_`{|}~]``. */
  predicate IsAsciiPunctuation(c: char) {
    ('!' <= c <= '/') || (':' <= c <= '@') || ('[' <= c <= '`') || ('{' <= c <= '~')
  }

  predicate NoWhitespace(s: string) {
    forall i :: 0 <= i < |s| ==> !IsWhitespace(s[i])
  }

  /** Whether `s[i..j]` is all whitespace. */
  predicate WhitespaceBetween(s: string, i: nat, j: nat)
    requires i <= j <= |s|
  {
    forall k :: i <= k < j ==> IsWhitespace(s[k])
  }

  /** The end of the run of whitespace that starts at `i`. */
  function WhitespaceRunEnd(s: string, i: nat): (j: nat)
    requires i <= |s|
    ensures i <= j <= |s|
    ensures j == |s| || !IsWhitespace(s[j])
    decreases |s| - i
  {
    if i < |s| && IsWhitespace(s[i]) then
      WhitespaceRunEnd(s, i + 1)
    else
      i
  }

  /** Everything the run skips is whitespace. */
  lemma {:induction false} WhitespaceRunEndSkips(s: string, i: nat)
    requires i <= |s|
    ensures WhitespaceBetween(s, i, WhitespaceRunEnd(s, i))
    decreases |s| - i
  {
    if i < |s| && IsWhitespace(s[i]) {
      WhitespaceRunEndSkips(s, i + 1);
    }
  }

  /** The first whitespace position at or after `from`. */
  function FirstWhitespace(s: string, from: nat): (r: Option<nat>)
    requires from <= |s|
    ensures r.Some? ==> from <= r.value < |s| && IsWhitespace(s[r.value])
    ensures r.Some? ==> forall k :: from <= k < r.value ==> !IsWhitespace(s[k])
    ensures r.None? ==> forall k :: from <= k < |s| ==> !IsWhitespace(s[k])
    decreases |s| - from
  {
    if from == |s| then None
    else if IsWhitespace(s[from]) then Some(from)
    else FirstWhitespace(s, from + 1)
  }

  /** `s.split(/\s+/)`: the pieces between maximal whitespace runs; a
      leading or trailing run yields an empty first or last piece. */
  function SplitOnWhitespace(s: string): (parts: seq<string>)
    ensures |parts| >= 1
    ensures forall k :: 0 <= k < |parts| ==> NoWhitespace(parts[k])
    ensures NoWhitespace(s) ==> parts == [s]
    decreases |s|
  {
    match FirstWhitespace(s, 0)
    case None => [s]
    case Some(i) => [s[..i]] + SplitOnWhitespace(s[WhitespaceRunEnd(s, i)..])
  }

  /** The pieces glued back together with the separator. */
  function JoinWith(parts: seq<string>, sep: char): string
    decreases |parts|
  {
    if |parts| == 0 then ""
    else if |parts| == 1 then parts[0]
    else parts[0] + [sep] + JoinWith(parts[1..], sep)
  }

  /** The first position of `c` in `s`. */
  function IndexOfChar(s: string, c: char): (i: nat)
    requires c in s
    ensures i < |s| && s[i] == c && c !in s[..i]
  {
    if s[0] == c then 0
    else
      assert c in s[1..] by {
        var k :| 0 <= k < |s| && s[k] == c;
        assert s[1..][k - 1] == c;
      }
      var i := 1 + IndexOfChar(s[1..], c);
      assert s[..i] == [s[0]] + s[1..][..i - 1];
      i
  }

  /** The text before the first `sep`, or all of `s` when there is none. */
  function UpTo(s: string, sep: char): (r: string)
    ensures |r| <= |s| && r == s[..|r|] && sep !in r
    ensures |r| < |s| <==> sep in s
    ensures |r| < |s| ==> s[|r|] == sep
  {
    if sep in s then s[..IndexOfChar(s, sep)] else s
  }

  /** `s.split(sep)` for a one-character separator string: the first part
      is the text before the first separator, the second (present exactly
      when the separator occurs) the text from there to the next one. */
  function SplitOn(s: string, sep: char): (parts: seq<string>)
    ensures |parts| >= 1
    ensures forall k :: 0 <= k < |parts| ==> sep !in parts[k]
    ensures JoinWith(parts, sep) == s
    ensures parts[0] == UpTo(s, sep)
    ensures |parts| >= 2 <==> sep in s
    ensures sep in s ==> parts[1] == UpTo(s[IndexOfChar(s, sep) + 1..], sep)
    decreases |s|
  {
    if sep !in s then [s]
    else
      var i := IndexOfChar(s, sep);
      var rest := SplitOn(s[i + 1..], sep);
      assert s == s[..i] + [sep] + s[i + 1..];
      [s[..i]] + rest
  }

  /** The start of the run of whitespace that ends at `j`. */
  function WhitespaceRunStart(s: string, j: nat): (i: nat)
    requires j <= |s|
    ensures i <= j
    ensures i == 0 || !IsWhitespace(s[i - 1])
    decreases j
  {
    if j > 0 && IsWhitespace(s[j - 1]) then WhitespaceRunStart(s, j - 1) else j
  }

  /** Everything the backward run skips is whitespace. */
  lemma {:induction false} WhitespaceRunStartSkips(s: string, j: nat)
    requires j <= |s|
    ensures WhitespaceBetween(s, WhitespaceRunStart(s, j), j)
    decreases j
  {
    if j > 0 && IsWhitespace(s[j - 1]) {
      WhitespaceRunStartSkips(s, j - 1);
    }
  }

  /** The backward run stops after any code point that is not whitespace. */
  lemma {:induction false} WhitespaceRunStartAbove(s: string, i: nat, j: nat)
    requires i < j <= |s| && !IsWhitespace(s[i])
    ensures i < WhitespaceRunStart(s, j)
    decreases j
  {
    if j - 1 > i && IsWhitespace(s[j - 1]) {
      WhitespaceRunStartAbove(s, i, j - 1);
    }
  }

  /** `s.trim()`: the slice between the leading and the trailing run of
      whitespace; it is whitespace before and after, and neither starts nor
      ends with whitespace. */
  function Trim(s: string): (r: string)
    ensures |r| <= |s|
    ensures var i := WhitespaceRunEnd(s, 0);
      && WhitespaceBetween(s, 0, i)
      && i + |r| <= |s| && r == s[i..i + |r|]
      && WhitespaceBetween(s, i + |r|, |s|)
    ensures r == [] || (!IsWhitespace(r[0]) && !IsWhitespace(r[|r| - 1]))
    ensures NoWhitespace(s) ==> r == s
  {
    var i := WhitespaceRunEnd(s, 0);
    WhitespaceRunEndSkips(s, 0);
    if i == |s| then ""
    else
      var j := WhitespaceRunStart(s, |s|);
      WhitespaceRunStartSkips(s, |s|);
      WhitespaceRunStartAbove(s, i, |s|);
      s[i..j]
  }

  /** The end of a run of whitespace from `i` is the first position `j`
      from which `s[i..j]` is whitespace and `s[j]` is not. */
  lemma {:induction false} RunEndIsFirst(s: string, i: nat, j: nat)
    requires i <= j <= |s| && WhitespaceBetween(s, i, j) && (j == |s| || !IsWhitespace(s[j]))
    ensures WhitespaceRunEnd(s, i) == j
    decreases j - i
  {
    if i < j {
      RunEndIsFirst(s, i + 1, j);
    }
  }

  predicate AllDigits(s: string) {
    forall i :: 0 <= i < |s| ==> IsDigit(s[i])
  }

  function DigitValue(c: char): (d: nat)
    requires IsDigit(c)
    ensures d < 10
  {
    (c as int) - ('0' as int)
  }

  function DigitChar(d: nat): (c: char)
    requires d < 10
    ensures IsDigit(c) && DigitValue(c) == d
  {
    (('0' as int) + d) as char
  }

  /** The value of a run of decimal digits. */
  function DigitsValue(s: string): nat
    requires AllDigits(s)
    decreases |s|
  {
    if s == [] then 0 else DigitsValue(s[..|s| - 1]) * 10 + DigitValue(s[|s| - 1])
  }

  /** A JavaScript number as the model needs it: integers and NaN. */
  datatype JsNum = Int(value: int) | NaN

  /** Whether `t` is an optional sign followed by at least one decimal digit. */
  predicate IsSignedInteger(t: string) {
    if |t| > 0 && (t[0] == '+' || t[0] == '-') then |t| > 1 && AllDigits(t[1..])
    else |t| > 0 && AllDigits(t)
  }

  /** `Number(s)` for integer literals: whitespace is trimmed, the empty
      string is 0, an optional sign and decimal digits give their value, and
      anything else is NaN. */
  function ParseNumber(s: string): (n: JsNum)
    ensures Trim(s) == "" ==> n == Int(0)
    ensures Trim(s) != "" ==> (n.Int? <==> IsSignedInteger(Trim(s)))
    ensures var t := Trim(s);
      n.Int? && t != "" ==>
        n.value == (if t[0] == '-' then 0 - DigitsValue(t[1..]) as int
                    else if t[0] == '+' then DigitsValue(t[1..])
                    else DigitsValue(t))
  {
    IntegerValue(Trim(s))
  }

  /** The value of trimmed text: empty is 0, an optional sign and digits
      their value, anything else NaN. */
  function IntegerValue(t: string): JsNum {
    if t == "" then Int(0)
    else if t[0] == '-' && |t| > 1 && AllDigits(t[1..]) then Int(0 - DigitsValue(t[1..]) as int)
    else if t[0] == '+' && |t| > 1 && AllDigits(t[1..]) then Int(DigitsValue(t[1..]))
    else if AllDigits(t) then Int(DigitsValue(t))
    else NaN
  }

  /** Whitespace around a run of digits is ignored, and the number is the
      digits' decimal value. */
  lemma ParseNumberPadded(pre: string, digits: string, post: string)
    requires WhitespaceBetween(pre, 0, |pre|) && WhitespaceBetween(post, 0, |post|)
    requires |digits| > 0 && AllDigits(digits)
    ensures ParseNumber(pre + digits + post) == Int(DigitsValue(digits))
  {
    assert IsDigit(digits[0]) && IsDigit(digits[|digits| - 1]);
    TrimPadded(pre, digits, post);
  }

  /** `Number` ignores whitespace around text that neither starts nor ends
      with whitespace, and gives that text's value. */
  lemma ParsePadded(pre: string, t: string, post: string)
    requires WhitespaceBetween(pre, 0, |pre|) && WhitespaceBetween(post, 0, |post|)
    requires |t| > 0 && !IsWhitespace(t[0]) && !IsWhitespace(t[|t| - 1])
    ensures ParseNumber(pre + t + post) == IntegerValue(t)
  {
    TrimPadded(pre, t, post);
  }

  /** A sign followed by digits has the digits' value, negated for `-`. */
  lemma SignedIntegerValue(sign: char, digits: string)
    requires (sign == '+' || sign == '-') && |digits| > 0 && AllDigits(digits)
    ensures IntegerValue([sign] + digits)
      == Int(if sign == '-' then 0 - DigitsValue(digits) as int else DigitsValue(digits))
  {
    var t := [sign] + digits;
    assert t[0] == sign && t[1..] == digits;
  }

  /** Trimming text that is whitespace, then text with no whitespace at its
      ends, then whitespace, gives the middle part. */
  lemma TrimPadded(pre: string, t: string, post: string)
    requires WhitespaceBetween(pre, 0, |pre|) && WhitespaceBetween(post, 0, |post|)
    requires |t| > 0 && !IsWhitespace(t[0]) && !IsWhitespace(t[|t| - 1])
    ensures Trim(pre + t + post) == t
  {
    var s := pre + t + post;
    var i := |pre|;
    assert WhitespaceBetween(s, 0, i) && !IsWhitespace(s[i]);
    RunEndIsFirst(s, 0, i);
    var r := Trim(s);
    assert s[i..i + |t|] == t;
    assert !IsWhitespace(s[i + |t| - 1]);
    assert forall k :: i + |t| <= k < |s| ==> s[k] == post[k - i - |t|];
    assert |r| > 0 ==> r[|r| - 1] == s[i + |r| - 1];
    assert |r| == |t|;
  }

  /** The decimal digits of a natural number, most significant first. */
  function NaturalString(n: nat): (s: string)
    ensures |s| >= 1 && AllDigits(s)
    ensures n >= 10 ==> s[0] != '0'
    decreases n
  {
    if n < 10 then [DigitChar(n)] else NaturalString(n / 10) + [DigitChar(n % 10)]
  }

  /** `String(n)` for an integer. */
  function DecimalString(n: int): (s: string)
    ensures |s| >= 1 && NoWhitespace(s)
    ensures forall i :: 0 <= i < |s| ==> IsDigit(s[i]) || s[i] == '-'
  {
    if n < 0 then "-" + NaturalString(-n) else NaturalString(n)
  }

  lemma {:induction false} NaturalStringValue(n: nat)
    ensures DigitsValue(NaturalString(n)) == n
    decreases n
  {
    if n >= 10 {
      var s := NaturalString(n);
      NaturalStringValue(n / 10);
      assert s[..|s| - 1] == NaturalString(n / 10);
    }
  }

  /** `Number(String(n)) == n`: printing an integer and reading it back is
      the identity. */
  lemma ParseDecimalString(n: int)
    ensures ParseNumber(DecimalString(n)) == Int(n)
  {
    var s := DecimalString(n);
    assert Trim(s) == s;
    if n < 0 {
      NaturalStringValue(-n);
      assert s[1..] == NaturalString(-n);
    } else {
      NaturalStringValue(n);
    }
  }

  /** `s.replace(/\s+/g, ' ')`: every whitespace run becomes a single space. */
  function CollapseWhitespace(s: string): (r: string)
    ensures NoWhitespace(s) ==> r == s
    ensures |s| > 0 <==> |r| > 0
    ensures |s| > 0 ==> (IsWhitespace(s[0]) <==> r[0] == ' ')
    ensures forall i :: 0 <= i < |r| && IsWhitespace(r[i]) ==> r[i] == ' '
    ensures forall i :: 0 <= i < |r| - 1 ==> !(r[i] == ' ' && r[i + 1] == ' ')
    decreases |s|
  {
    if s == [] then []
    else if IsWhitespace(s[0]) then " " + CollapseWhitespace(s[WhitespaceRunEnd(s, 0)..])
    else [s[0]] + CollapseWhitespace(s[1..])
  }

  /** `s.replace(/\s+/g, '')`: the text without its whitespace. */
  function StripWhitespace(s: string): (r: string)
    ensures NoWhitespace(r) && |r| <= |s|
    ensures NoWhitespace(s) ==> r == s
    decreases |s|
  {
    if s == [] then []
    else if IsWhitespace(s[0]) then StripWhitespace(s[1..])
    else [s[0]] + StripWhitespace(s[1..])
  }

  /** Every character that is not whitespace is kept as often as it occurs,
      and the whitespace is gone. */
  lemma {:induction false} StripKeepsText(s: string, c: char)
    ensures multiset(StripWhitespace(s))[c] == if IsWhitespace(c) then 0 else multiset(s)[c]
    decreases |s|
  {
    if s != [] {
      StripKeepsText(s[1..], c);
      assert s == [s[0]] + s[1..];
      assert multiset(s) == multiset([s[0]]) + multiset(s[1..]);
      if !IsWhitespace(s[0]) {
        assert multiset([s[0]] + StripWhitespace(s[1..])) == multiset([s[0]]) + multiset(StripWhitespace(s[1..]));
      }
    } else if IsWhitespace(c) {
      assert multiset(StripWhitespace(s)) == multiset{};
    }
  }

  /** Removing the whitespace of two texts one after the other keeps the
      order of what is left: the characters that are not whitespace survive
      in order. */
  lemma {:induction false} StripConcat(a: string, b: string)
    ensures StripWhitespace(a + b) == StripWhitespace(a) + StripWhitespace(b)
    decreases |a|
  {
    if a != [] {
      assert (a + b)[0] == a[0] && (a + b)[1..] == a[1..] + b;
      StripConcat(a[1..], b);
    } else {
      assert a + b == b;
    }
  }

  /** A text that is all whitespace leaves nothing. */
  lemma {:induction false} StripAllWhitespace(s: string)
    requires WhitespaceBetween(s, 0, |s|)
    ensures StripWhitespace(s) == []
    decreases |s|
  {
    if s != [] {
      StripAllWhitespace(s[1..]);
    }
  }

  /** Collapsing the whitespace runs keeps the other characters, in order. */
  lemma {:induction false} CollapseKeepsText(s: string)
    ensures StripWhitespace(CollapseWhitespace(s)) == StripWhitespace(s)
    decreases |s|
  {
    if s != [] {
      if IsWhitespace(s[0]) {
        var j := WhitespaceRunEnd(s, 0);
        WhitespaceRunEndSkips(s, 0);
        CollapseKeepsText(s[j..]);
        StripConcat(" ", CollapseWhitespace(s[j..]));
        assert s == s[..j] + s[j..];
        StripConcat(s[..j], s[j..]);
        StripAllWhitespace(s[..j]);
      } else {
        CollapseKeepsText(s[1..]);
        StripConcat([s[0]], CollapseWhitespace(s[1..]));
        assert s == [s[0]] + s[1..];
        StripConcat([s[0]], s[1..]);
      }
    }
  }

  /** The end of a whitespace run read inside a suffix of the text. */
  lemma {:induction false} RunEndShift(s: string, i: nat)
    requires i <= |s|
    ensures WhitespaceRunEnd(s, i) == i + WhitespaceRunEnd(s[i..], 0)
    decreases |s| - i
  {
    if i < |s| && IsWhitespace(s[i]) {
      RunEndShift(s, i + 1);
      RunEndShift(s[i..], 1);
      assert s[i..][1..] == s[i + 1..];
    }
  }

  /** Text without whitespace in front of the rest is kept as it is. */
  lemma {:induction false} CollapsePrefix(p: string, x: string)
    requires NoWhitespace(p)
    ensures CollapseWhitespace(p + x) == p + CollapseWhitespace(x)
    decreases |p|
  {
    if p != [] {
      assert (p + x)[0] == p[0] && (p + x)[1..] == p[1..] + x;
      CollapsePrefix(p[1..], x);
    } else {
      assert p + x == x;
    }
  }

  /** Joining the parts of `split(/\s+/)` with single spaces gives
      `replace(/\s+/g, ' ')`: the parts are the text between whitespace runs,
      in order, with nothing lost. */
  lemma {:induction false} SplitJoinsCollapse(s: string)
    ensures JoinWith(SplitOnWhitespace(s), ' ') == CollapseWhitespace(s)
    decreases |s|
  {
    match FirstWhitespace(s, 0)
    case None =>
      CollapsePrefix(s, []);
      assert s + [] == s;
    case Some(i) =>
      var j := WhitespaceRunEnd(s, i);
      var rest := SplitOnWhitespace(s[j..]);
      SplitJoinsCollapse(s[j..]);
      JoinCons(s[..i], rest, ' ');
      CollapseAtWhitespace(s, i);
  }

  /** Joining a first part in front of at least one more. */
  lemma JoinCons(p: string, rest: seq<string>, sep: char)
    requires |rest| >= 1
    ensures JoinWith([p] + rest, sep) == p + [sep] + JoinWith(rest, sep)
  {
    assert ([p] + rest)[1..] == rest;
  }

  /** Collapsing text whose first whitespace is at `i` keeps the text before
      it, puts one space for the run and collapses what follows the run. */
  lemma CollapseAtWhitespace(s: string, i: nat)
    requires i < |s| && IsWhitespace(s[i]) && NoWhitespace(s[..i])
    ensures CollapseWhitespace(s) == s[..i] + " " + CollapseWhitespace(s[WhitespaceRunEnd(s, i)..])
  {
    assert s == s[..i] + s[i..];
    CollapsePrefix(s[..i], s[i..]);
    CollapseRun(s, i);
  }

  /** Collapsing from a whitespace position gives one space, then the text
      after the run collapsed. */
  lemma CollapseRun(s: string, i: nat)
    requires i < |s| && IsWhitespace(s[i])
    ensures CollapseWhitespace(s[i..]) == " " + CollapseWhitespace(s[WhitespaceRunEnd(s, i)..])
  {
    RunEndShift(s, i);
    assert s[i..][0] == s[i];
    assert s[i..][WhitespaceRunEnd(s[i..], 0)..] == s[WhitespaceRunEnd(s, i)..];
  }

  /** JavaScript's `.length`: code points above U+FFFF take two UTF-16 units. */
  function Utf16Length(s: string): (n: nat)
    ensures |s| <= n <= 2 * |s|
    ensures |s| == 1 ==> n == (if s[0] as int >= 0x10000 then 2 else 1)
    ensures (forall i :: 0 <= i < |s| ==> s[i] as int < 0x10000) ==> n == |s|
    ensures (forall i :: 0 <= i < |s| ==> s[i] as int >= 0x10000) ==> n == 2 * |s|
    decreases |s|
  {
    if s == [] then 0 else (if s[0] as int >= 0x10000 then 2 else 1) + Utf16Length(s[1..])
  }

  /** The units of two texts add up. */
  lemma {:induction false} Utf16Concat(a: string, b: string)
    ensures Utf16Length(a + b) == Utf16Length(a) + Utf16Length(b)
    decreases |a|
  {
    if a != [] {
      assert (a + b)[0] == a[0] && (a + b)[1..] == a[1..] + b;
      Utf16Concat(a[1..], b);
    } else {
      assert a + b == b;
    }
  }

  lemma SliceSplit(s: string, i: nat, j: nat)
    requires i <= j <= |s|
    ensures s[i..] == s[i..j] + s[j..]
  {
  }

  /** `s.startsWith(w, i)`. */
  predicate StartsWithAt(s: string, w: string, i: nat) {
    i + |w| <= |s| && s[i..i + |w|] == w
  }

  /** `s.startsWith(p)`. */
  predicate StartsWith(s: string, p: string) {
    |p| <= |s| && s[..|p|] == p
  }

  /** `s.indexOf(w, from)`. */
  function IndexOf(s: string, w: string, from: nat): (r: Option<nat>)
    requires from <= |s|
    ensures r.Some? ==> from <= r.value && StartsWithAt(s, w, r.value)
    ensures r.Some? ==> forall k :: from <= k < r.value ==> !StartsWithAt(s, w, k)
    ensures r.None? ==> forall k :: from <= k <= |s| ==> !StartsWithAt(s, w, k)
    decreases |s| - from
  {
    if StartsWithAt(s, w, from) then Some(from)
    else if from == |s| then None
    else IndexOf(s, w, from + 1)
  }

  /** `s.replace(w, '')`: the first occurrence of `w` cut out, or `s`
      itself when `w` does not occur. */
  function RemoveFirst(s: string, w: string): (r: string)
    ensures IndexOf(s, w, 0).None? ==> r == s
    ensures IndexOf(s, w, 0).Some? ==>
      var i := IndexOf(s, w, 0).value;
      |r| == |s| - |w| && s == r[..i] + w + r[i..]
  {
    match IndexOf(s, w, 0)
    case None => s
    case Some(i) =>
      var r := s[..i] + s[i + |w|..];
      assert r[..i] == s[..i] && r[i..] == s[i + |w|..];
      assert s == s[..i] + s[i..i + |w|] + s[i + |w|..];
      r
  }
}
