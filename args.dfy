/** The typed argument descriptors `IntArg`, `StrArg` and `DateArg`
    (global_modules/BotOperator/Command/index.js:93-255): the regular-expression
    fragment each one contributes to a structured command's pattern
    (`toRegExp`), and the conversion of a captured group into a value
    (`parse`), with the "no match" sentinel `false` as `Invalid`. */
module Args {
  import opened Wrappers
  import opened JsText
  import opened Values

  /** A numeric descriptor property: `None` is `undefined`. The source tests
      these by truthiness, so `Some(0)` counts as unset as well. */
  type Bound = Option<int>

  predicate IsSet(b: Bound) {
    b.Some? && b.value != 0
  }

  /** The three keys of `mapType`, in the order the compiler tries them. */
  datatype Kind = IntKind | StrKind | DateKind

  function KindKey(k: Kind): string {
    match k
    case IntKind => "int"
    case StrKind => "str"
    case DateKind => "date"
  }

  /** One argument descriptor. `many` and `includeEmpty` hold the truthiness of
      the JavaScript fields of the same name. */
  datatype Arg =
    | IntArg(name: string, many: bool, includeEmpty: bool, min: Bound, max: Bound)
    | StrArg(name: string, many: bool, includeEmpty: bool, length: Bound, minLength: Bound, maxLength: Bound)
    | DateArg(name: string, many: bool, includeEmpty: bool, duration: bool)

  /** `new mapType[k](name)`: a descriptor with every property unset. */
  function NewArg(k: Kind, name: string): (a: Arg)
    ensures a.name == name && !a.many && !a.includeEmpty
    ensures (k == IntKind <==> a.IntArg?) && (k == StrKind <==> a.StrArg?) && (k == DateKind <==> a.DateArg?)
    ensures a.IntArg? ==> !IsSet(a.min) && !IsSet(a.max)
    ensures a.StrArg? ==> !IsSet(a.length) && !IsSet(a.minLength) && !IsSet(a.maxLength)
    ensures a.DateArg? ==> !a.duration
  {
    match k
    case IntKind => IntArg(name, false, false, None, None)
    case StrKind => StrArg(name, false, false, None, None, None)
    case DateKind => DateArg(name, false, false, false)
  }

  // ---------------------------------------------------------------------
  // Pattern fragments (`toRegExp().source`)
  // ---------------------------------------------------------------------

  function Quantifier(includeEmpty: bool): string {
    if includeEmpty then "*" else "+"
  }

  /** `(?:unit\s?)+`, or `(?:unit\s?)*` when empty input is allowed. */
  function Repeated(unit: string, includeEmpty: bool): string {
    "(?:" + unit + "\\s?)" + Quantifier(includeEmpty)
  }

  function IntUnit(includeEmpty: bool): string {
    "[+-]?\\d" + Quantifier(includeEmpty)
  }

  /** The character class of `DateArg`: digits, sign, Hangul jamo and
      syllables, `:./` and the space. */
  const DateClassBody: string := "0-9+\\-\U{3131}-\U{314E}\U{314F}-\U{3163}\U{AC00}-\U{D7A3}:./ "

  const DatePattern: string := "[" + DateClassBody + "]+"

  function StrUnit(length: Bound, minLength: Bound, maxLength: Bound, includeEmpty: bool): string {
    if IsSet(length) then "\\S{" + DecimalString(length.value) + "}"
    else if IsSet(minLength) && IsSet(maxLength) then
      "\\S{" + DecimalString(minLength.value) + "," + DecimalString(maxLength.value) + "}"
    else if IsSet(minLength) then "\\S{" + DecimalString(minLength.value) + ",}"
    else "\\S" + Quantifier(includeEmpty)
  }

  /** `IntArg.toRegExp()`: a RangeError exactly when both bounds are set and
      the minimum exceeds the maximum. */
  function IntToRegExp(a: Arg): (r: Result<string, Thrown>)
    requires a.IntArg?
    ensures r.Failure? <==> IsSet(a.min) && IsSet(a.max) && a.min.value > a.max.value
    ensures r.Failure? ==> r.error == RangeError("min must be less than or equal to max")
    ensures r.Success? && !a.many ==> r.value == IntUnit(a.includeEmpty)
    ensures r.Success? && a.many ==> r.value == Repeated(IntUnit(a.includeEmpty), a.includeEmpty)
  {
    if IsSet(a.min) && IsSet(a.max) && a.min.value > a.max.value then
      Failure(RangeError("min must be less than or equal to max"))
    else
      var unit := IntUnit(a.includeEmpty);
      Success(if a.many then Repeated(unit, a.includeEmpty) else unit)
  }

  /** Whether a string descriptor's length properties are inconsistent, in the
      order `StrArg.toRegExp` tests them. */
  function StrBoundsError(a: Arg): Option<Thrown>
    requires a.StrArg?
  {
    if IsSet(a.length) && (IsSet(a.minLength) || IsSet(a.maxLength)) then
      Some(Error("length cannot be used with minLength or maxLength"))
    else if IsSet(a.minLength) && IsSet(a.maxLength) && a.minLength.value > a.maxLength.value then
      Some(RangeError("minLength must be less than or equal to maxLength"))
    else if IsSet(a.minLength) && a.minLength.value < 1 then
      Some(RangeError("minLength must be greater than or equal to 1"))
    else if IsSet(a.maxLength) && a.maxLength.value < 1 then
      Some(RangeError("maxLength must be greater than or equal to 1"))
    else None
  }

  /** `StrArg.toRegExp()`: the pattern, and the descriptor as the method
      leaves it after its write to `minLength` (a lone `maxLength` sets
      `minLength` to 1). */
  function StrToRegExp(a: Arg): (r: Result<(string, Arg), Thrown>)
    requires a.StrArg?
    ensures r.Failure? <==>
      || (IsSet(a.length) && (IsSet(a.minLength) || IsSet(a.maxLength)))
      || (IsSet(a.minLength) && IsSet(a.maxLength) && a.minLength.value > a.maxLength.value)
      || (IsSet(a.minLength) && a.minLength.value < 1)
      || (IsSet(a.maxLength) && a.maxLength.value < 1)
    ensures r.Success? ==> r.value.1 == (if !IsSet(a.minLength) && IsSet(a.maxLength) then a.(minLength := Some(1)) else a)
    ensures r.Success? ==> var b := r.value.1; IsSet(b.maxLength) ==> IsSet(b.minLength) && 1 <= b.minLength.value <= b.maxLength.value
  {
    match StrBoundsError(a)
    case Some(e) => Failure(e)
    case None =>
      var b := if !IsSet(a.minLength) && IsSet(a.maxLength) then a.(minLength := Some(1)) else a;
      var unit := StrUnit(b.length, b.minLength, b.maxLength, b.includeEmpty);
      Success((if b.many then Repeated(unit, b.includeEmpty) else unit, b))
  }

  /** `toRegExp()` for any descriptor, with the descriptor it leaves behind
      (only a string descriptor is ever changed). */
  function ToRegExp(a: Arg): (r: Result<(string, Arg), Thrown>)
    ensures r.Success? && !a.StrArg? ==> r.value.1 == a
    ensures r.Success? ==> r.value.1.name == a.name && r.value.1.many == a.many && r.value.1.includeEmpty == a.includeEmpty
    ensures a.DateArg? ==> r == Success((DatePattern, a))
  {
    match a
    case IntArg(_, _, _, _, _) =>
      (match IntToRegExp(a)
       case Failure(e) => Failure(e)
       case Success(p) => Success((p, a)))
    case StrArg(_, _, _, _, _, _) => StrToRegExp(a)
    case DateArg(_, _, _, _) => Success((DatePattern, a))
  }

  /** A descriptor whose `toRegExp()` succeeds and changes nothing: what
      every descriptor of a constructed StructuredCommand is. */
  predicate Compiled(a: Arg) {
    ToRegExp(a).Success? && ToRegExp(a).value.1 == a
  }

  /** Calling `toRegExp()` a second time gives the same pattern and writes
      nothing more, so the write at index.js:186-187 happens at most once. */
  lemma ToRegExpIdempotent(a: Arg)
    requires ToRegExp(a).Success?
    ensures Compiled(ToRegExp(a).value.1)
    ensures ToRegExp(ToRegExp(a).value.1).value.0 == ToRegExp(a).value.0
  {
    if a.StrArg? {
      var b := ToRegExp(a).value.1;
      assert StrBoundsError(b).None?;
    }
  }

  // ---------------------------------------------------------------------
  // `toRegExp().test(value)`: an unanchored search for the fragment
  // ---------------------------------------------------------------------

  /** The length of the run of non-whitespace characters that ends `v`. */
  function TrailingRun(v: string): nat
    decreases |v|
  {
    if v == [] || IsWhitespace(v[|v| - 1]) then 0 else 1 + TrailingRun(v[..|v| - 1])
  }

  /** The longest run of non-whitespace characters in `v`: `\S{n}` occurs
      in `v` exactly when this is at least `n`. */
  function LongestRun(v: string): nat
    decreases |v|
  {
    if v == [] then 0
    else
      var before := LongestRun(v[..|v| - 1]);
      var here := TrailingRun(v);
      if before >= here then before else here
  }

  /** `\S{n}` matches `v` at offset `i`. */
  predicate NonSpaceRunAt(v: string, i: nat, n: nat) {
    i + n <= |v| && NoWhitespace(v[i..i + n])
  }

  lemma {:induction false} TrailingRunMeans(v: string, n: nat)
    ensures TrailingRun(v) >= n <==> n <= |v| && NoWhitespace(v[|v| - n..])
    decreases |v|
  {
    if v != [] && n > 0 {
      var w := v[..|v| - 1];
      if !IsWhitespace(v[|v| - 1]) {
        TrailingRunMeans(w, n - 1);
        if n <= |v| {
          assert v[|v| - n..] == w[|w| - (n - 1)..] + [v[|v| - 1]];
        }
      } else if n <= |v| {
        assert v[|v| - n..][n - 1] == v[|v| - 1];
      }
    }
  }

  /** The pattern `\S{n}` finds a match in `v` exactly when `v` has a run of
      at least `n` non-whitespace characters. */
  lemma {:induction false} LongestRunMeans(v: string, n: nat)
    ensures LongestRun(v) >= n <==> exists i: nat :: NonSpaceRunAt(v, i, n)
    decreases |v|
  {
    if v == [] {
      if n == 0 {
        assert NonSpaceRunAt(v, 0, 0);
      }
    } else {
      var w := v[..|v| - 1];
      LongestRunMeans(w, n);
      TrailingRunMeans(v, n);
      forall i: nat | NonSpaceRunAt(w, i, n)
        ensures NonSpaceRunAt(v, i, n)
      {
        assert v[i..i + n] == w[i..i + n];
      }
      if TrailingRun(v) >= n {
        assert NonSpaceRunAt(v, |v| - n, n);
      }
      if exists i: nat :: NonSpaceRunAt(v, i, n) {
        var i: nat :| NonSpaceRunAt(v, i, n);
        if i + n < |v| {
          assert v[i..i + n] == w[i..i + n];
          assert NonSpaceRunAt(w, i, n);
        } else {
          assert v[i..i + n] == v[|v| - n..];
        }
      }
    }
  }

  predicate HasDigit(v: string) {
    exists i :: 0 <= i < |v| && IsDigit(v[i])
  }

  /** `\S{-3}` is not a quantifier: JavaScript reads it as `\S` followed by
      the literal text `{-3}`. */
  predicate HasNonSpaceBefore(v: string, literal: string) {
    exists i :: 0 <= i < |v| && !IsWhitespace(v[i]) && StartsWithAt(v, literal, i + 1)
  }

  predicate InDateClass(c: char) {
    IsDigit(c) || c == '+' || c == '-' || ('\U{3131}' <= c <= '\U{314E}') || ('\U{314F}' <= c <= '\U{3163}')
    || ('\U{AC00}' <= c <= '\U{D7A3}') || c == ':' || c == '.' || c == '/' || c == ' '
  }

  /** `IntArg` pattern test: a repeated or optional fragment matches the empty
      string, otherwise a digit must occur. */
  predicate IntTest(a: Arg, v: string)
    requires a.IntArg?
  {
    a.includeEmpty || HasDigit(v)
  }

  /** `StrArg` pattern test, for a descriptor `toRegExp` has normalised. */
  predicate StrTest(a: Arg, v: string)
    requires a.StrArg?
  {
    var unit :=
      if IsSet(a.length) then
        (if a.length.value > 0 then LongestRun(v) >= a.length.value
         else HasNonSpaceBefore(v, "{" + DecimalString(a.length.value) + "}"))
      else if IsSet(a.minLength) then LongestRun(v) >= a.minLength.value
      else a.includeEmpty || LongestRun(v) >= 1;
    if a.many then a.includeEmpty || unit else unit
  }

  predicate DateTest(v: string) {
    exists i :: 0 <= i < |v| && InDateClass(v[i])
  }

  // ---------------------------------------------------------------------
  // `parse(value)`
  // ---------------------------------------------------------------------

  /** What `parse` returns: a value (possibly `null` or an empty list for an
      absent group) or the sentinel `false`. */
  datatype Parsed = Valid(value: Value) | Invalid

  predicate OutOfBounds(n: JsNum, min: Bound, max: Bound) {
    n.Int? && ((IsSet(min) && n.value < min.value) || (IsSet(max) && n.value > max.value))
  }

  /** The `some(n => n < min)` and `some(n => n > max)` tests together. */
  predicate AnyOutOfBounds(ns: seq<JsNum>, min: Bound, max: Bound) {
    exists n :: n in ns && OutOfBounds(n, min, max)
  }

  function ParseAllNumbers(pieces: seq<string>): (ns: seq<JsNum>)
    ensures |ns| == |pieces| && forall k :: 0 <= k < |pieces| ==> ns[k] == ParseNumber(pieces[k])
  {
    seq(|pieces|, k requires 0 <= k < |pieces| => ParseNumber(pieces[k]))
  }

  /** The numbers an integer descriptor reads from a present group:
      `value.split(' ').map(Number)`, or `Number(value)` for a single one. */
  function IntPieces(a: Arg, v: string): seq<JsNum>
    requires a.IntArg?
  {
    if a.many then ParseAllNumbers(SplitOn(v, ' ')) else [ParseNumber(v)]
  }

  /** `IntArg.parse`: an absent group is `[]` or `null`, never the sentinel;
      a present one is the sentinel exactly when it fails the fragment or one
      of its numbers lies outside a set bound. NaN passes both bound tests. */
  function IntParse(a: Arg, v: Option<string>): (r: Parsed)
    requires a.IntArg? && Compiled(a)
    ensures v.None? ==> r == Valid(if a.many then Numbers([]) else Null)
    ensures v.Some? ==>
      (r.Invalid? <==> !IntTest(a, v.value) || exists n :: n in IntPieces(a, v.value) && OutOfBounds(n, a.min, a.max))
    ensures v.Some? && r.Valid? ==>
      r.value == (if a.many then Numbers(IntPieces(a, v.value)) else Number(ParseNumber(v.value)))
  {
    if v.Some? && !IntTest(a, v.value) then Invalid
    else if v.None? then Valid(if a.many then Numbers([]) else Null)
    else
      var ns := IntPieces(a, v.value);
      if AnyOutOfBounds(ns, a.min, a.max) then Invalid
      else Valid(if a.many then Numbers(ns) else Number(ns[0]))
  }

  /** `StrArg.parse`: the token, or its `' '`-split list for a repeated
      descriptor; `null` or `[]` when absent; the sentinel only when a
      present group fails the fragment. */
  function StrParse(a: Arg, v: Option<string>): (r: Parsed)
    requires a.StrArg? && Compiled(a)
    ensures v.None? ==> r == Valid(if a.many then Texts([]) else Null)
    ensures v.Some? ==> (r.Invalid? <==> !StrTest(a, v.value))
    ensures v.Some? && r.Valid? ==> r.value == (if a.many then Texts(SplitOn(v.value, ' ')) else Text(v.value))
  {
    if v.Some? && !StrTest(a, v.value) then Invalid
    else if a.many then
      if v.None? then Valid(Texts([])) else Valid(Texts(SplitOn(v.value, ' ')))
    else if v.None? then Valid(Null)
    else Valid(Text(v.value))
  }

  /** `DateArg.parse`: the sentinel when a present group holds none of the
      class's characters, or when the collaborator finds no point in time (no
      complete `from`/`to` pair for a duration); `many` plays no part. */
  function DateParse(a: Arg, v: Option<string>, dt: DateTimeLib): (r: Parsed)
    requires a.DateArg?
    ensures v.Some? && !DateTest(v.value) ==> r.Invalid?
    ensures (v.None? || DateTest(v.value)) ==>
      (r.Invalid? <==>
        if a.duration then dt.parseDuration(v).0.None? || dt.parseDuration(v).1.None?
        else dt.parse(v).None?)
    ensures r.Valid? && a.duration ==> r.value == Span(dt.parseDuration(v).0.value, dt.parseDuration(v).1.value)
    ensures r.Valid? && !a.duration ==> r.value == Time(dt.parse(v).value)
  {
    if v.Some? && !DateTest(v.value) then Invalid
    else if !a.duration then
      match dt.parse(v)
      case None => Invalid
      case Some(m) => Valid(Time(m))
    else
      match dt.parseDuration(v)
      case (Some(from), Some(to)) => Valid(Span(from, to))
      case _ => Invalid
  }

  /** `arg.parse(value)` for a constructed descriptor. */
  function Parse(a: Arg, v: Option<string>, dt: DateTimeLib): (r: Parsed)
    requires Compiled(a)
    ensures !a.DateArg? && v.None? ==> r.Valid?
  {
    match a
    case IntArg(_, _, _, _, _) => IntParse(a, v)
    case StrArg(_, _, _, _, _, _) => StrParse(a, v)
    case DateArg(_, _, _, _) => DateParse(a, v, dt)
  }
}
