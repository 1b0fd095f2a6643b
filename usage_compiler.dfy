/** The usage compiler of `StructuredCommand`'s constructor
    (global_modules/BotOperator/Command/index.js:276-350). Every placeholder
    `<name:kind[mods] key=value ...>` of the usage string, together with the
    whitespace just before it, is found by the global search `/\s*<.+?>/g`
    and replaced by a capture group holding the fragment of its argument
    descriptor; the text between placeholders is kept as it is, and the whole
    is anchored with `^` and `$`. */
module UsageCompiler {
  import opened Wrappers
  import opened JsText
  import opened Values
  import opened Args
  import opened RegexText

  // ---------------------------------------------------------------------
  // Finding placeholders: the global search for `\s*<.+?>`
  // ---------------------------------------------------------------------

  /** One match: the leading whitespace is `[start, lt)`, `<` is at `lt`,
      the closing `>` at `gt`. */
  datatype Match = Match(start: nat, lt: nat, gt: nat)

  predicate NoLineTerminator(s: string, from: nat, to: nat)
    requires from <= to <= |s|
  {
    forall k :: from <= k < to ==> !IsLineTerminator(s[k])
  }

  /** Whether `\s*<.+>` can match `s[q..gt + 1]` with its `<` at `lt` (the
      same shape with a greedy or a lazy `.+`). */
  predicate Shape(s: string, q: nat, lt: nat, gt: nat) {
    q <= lt && lt + 2 <= gt < |s| && WhitespaceBetween(s, q, lt) && s[lt] == '<' && s[gt] == '>'
    && NoLineTerminator(s, lt + 1, gt)
  }

  /** What the lazy `.+?` picks among the shapes: the first `>`. */
  predicate LeftmostLazy(s: string, m: Match) {
    Shape(s, m.start, m.lt, m.gt) && forall k :: m.lt + 2 <= k < m.gt ==> s[k] != '>'
  }

  /** The positions of a match lie in order inside `s`. */
  predicate InBounds(s: string, m: Match) {
    m.start <= m.lt && m.lt + 2 <= m.gt < |s|
  }

  /** The first `>` at `k` or later that no line terminator precedes. */
  function CloseFrom(s: string, k: nat): (r: Option<nat>)
    requires k <= |s|
    ensures r.Some? ==> k <= r.value < |s| && s[r.value] == '>'
    decreases |s| - k
  {
    if k == |s| then None
    else if s[k] == '>' then Some(k)
    else if IsLineTerminator(s[k]) then None
    else CloseFrom(s, k + 1)
  }

  /** The `>` found is the first one, and no line terminator comes before it. */
  lemma {:induction false} CloseFromIsFirst(s: string, k: nat)
    requires k <= |s|
    ensures CloseFrom(s, k).Some? ==> NoLineTerminator(s, k, CloseFrom(s, k).value)
    ensures CloseFrom(s, k).Some? ==> forall j :: k <= j < CloseFrom(s, k).value ==> s[j] != '>'
    decreases |s| - k
  {
    if k < |s| && s[k] != '>' && !IsLineTerminator(s[k]) {
      CloseFromIsFirst(s, k + 1);
    }
  }

  /** The match of `\s*<.+?>` that starts exactly at `q`, if any. */
  function MatchAt(s: string, q: nat): (r: Option<Match>)
    requires q <= |s|
    ensures r.Some? ==> r.value.start == q && InBounds(s, r.value)
  {
    var e := WhitespaceRunEnd(s, q);
    if e < |s| && s[e] == '<' && e + 1 < |s| && !IsLineTerminator(s[e + 1]) then
      match CloseFrom(s, e + 2)
      case Some(g) => Some(Match(q, e, g))
      case None => None
    else
      None
  }

  /** What matches at `q` is the shape `\s*<.+?>` with the first `>`. */
  lemma MatchAtIsLazy(s: string, q: nat)
    requires q <= |s|
    ensures MatchAt(s, q).Some? ==> LeftmostLazy(s, MatchAt(s, q).value)
  {
    var e := WhitespaceRunEnd(s, q);
    WhitespaceRunEndSkips(s, q);
    if e < |s| && s[e] == '<' && e + 1 < |s| && !IsLineTerminator(s[e + 1]) {
      CloseFromIsFirst(s, e + 2);
    }
  }

  /** When nothing matches at `q`, no text of the shape `\s*<.+>` starts
      there: the search misses no placeholder. */
  lemma MatchAtComplete(s: string, q: nat)
    requires q <= |s| && MatchAt(s, q).None?
    ensures forall lt: nat, gt: nat :: !Shape(s, q, lt, gt)
  {
    WhitespaceRunEndSkips(s, q);
    NoShapeAt(s, q, WhitespaceRunEnd(s, q));
  }

  lemma NoShapeAt(s: string, q: nat, e: nat)
    requires q <= e <= |s| && WhitespaceBetween(s, q, e) && (e == |s| || !IsWhitespace(s[e]))
    requires !(e < |s| && s[e] == '<' && e + 1 < |s| && !IsLineTerminator(s[e + 1]) && CloseFrom(s, e + 2).Some?)
    ensures forall lt: nat, gt: nat :: !Shape(s, q, lt, gt)
  {
    forall lt: nat, gt: nat | Shape(s, q, lt, gt)
      ensures false
    {
      WhitespaceInside(s, q, e, lt);
      WhitespaceInside(s, q, lt, e);
      NoLineTerminatorTail(s, lt + 1, gt);
      if lt == e {
        CloseFromFinds(s, e + 2, gt);
      }
    }
  }

  /** `CloseFrom` finds a `>` whenever one is reachable without crossing a
      line terminator. */
  lemma {:induction false} CloseFromFinds(s: string, k: nat, gt: nat)
    requires k <= gt < |s| && s[gt] == '>' && NoLineTerminator(s, k, gt)
    ensures CloseFrom(s, k).Some? && CloseFrom(s, k).value <= gt
    decreases gt - k
  {
    if s[k] != '>' {
      CloseFromFinds(s, k + 1, gt);
    }
  }

  lemma WhitespaceInside(s: string, a: nat, b: nat, i: nat)
    ensures a <= i < b <= |s| && WhitespaceBetween(s, a, b) ==> IsWhitespace(s[i])
  {
  }

  lemma NoLineTerminatorTail(s: string, a: nat, c: nat)
    ensures a < c <= |s| && NoLineTerminator(s, a, c) ==> !IsLineTerminator(s[a]) && NoLineTerminator(s, a + 1, c)
  {
  }

  /** The next match at `p` or later: the leftmost one. */
  function NextMatch(s: string, p: nat): (r: Option<Match>)
    requires p <= |s|
    ensures r.Some? ==> p <= r.value.start && InBounds(s, r.value)
    decreases |s| - p
  {
    match MatchAt(s, p)
    case Some(m) => Some(m)
    case None => if p == |s| then None else NextMatch(s, p + 1)
  }

  /** The match found has the shape the lazy search picks, and it is the
      leftmost one: nothing matches at an earlier position, and when none is
      found nothing matches anywhere. */
  lemma {:induction false} NextMatchIsLeftmost(s: string, p: nat)
    requires p <= |s|
    ensures NextMatch(s, p).Some? ==> LeftmostLazy(s, NextMatch(s, p).value)
    ensures NextMatch(s, p).Some? ==> forall q :: p <= q < NextMatch(s, p).value.start ==> MatchAt(s, q).None?
    ensures NextMatch(s, p).None? ==> forall q :: p <= q <= |s| ==> MatchAt(s, q).None?
    decreases |s| - p
  {
    MatchAtIsLazy(s, p);
    if MatchAt(s, p).None? && p < |s| {
      NextMatchIsLeftmost(s, p + 1);
    }
  }

  /** All matches of the global search from `p` on, left to right; the
      search resumes just after each match. */
  function Matches(s: string, p: nat): seq<Match>
    requires p <= |s|
    decreases |s| - p
  {
    match NextMatch(s, p)
    case None => []
    case Some(m) => [m] + Matches(s, m.gt + 1)
  }

  /** The matches lie within the usage from `p` on, each before the next
      without overlapping it. */
  lemma {:induction false} MatchesInOrder(s: string, p: nat)
    requires p <= |s|
    ensures forall k :: 0 <= k < |Matches(s, p)| ==> InBounds(s, Matches(s, p)[k]) && p <= Matches(s, p)[k].start
    ensures forall a, b :: 0 <= a < b < |Matches(s, p)| ==> Matches(s, p)[a].gt < Matches(s, p)[b].start
    decreases |s| - p
  {
    match NextMatch(s, p) {
      case None =>
      case Some(m) =>
        MatchesInOrder(s, m.gt + 1);
        var ms := Matches(s, p);
        assert ms == [m] + Matches(s, m.gt + 1);
        assert forall k :: 1 <= k < |ms| ==> ms[k] == Matches(s, m.gt + 1)[k - 1];
    }
  }

  /** Every match of the global search is a lazy match of the placeholder
      shape. */
  lemma {:induction false} MatchesAreLazy(s: string, p: nat)
    requires p <= |s|
    ensures forall k :: 0 <= k < |Matches(s, p)| ==> LeftmostLazy(s, Matches(s, p)[k])
    decreases |s| - p
  {
    NextMatchIsLeftmost(s, p);
    match NextMatch(s, p) {
      case None =>
      case Some(m) =>
        MatchesAreLazy(s, m.gt + 1);
        assert Matches(s, p) == [m] + Matches(s, m.gt + 1);
    }
  }

  /** The matched texts themselves, left to right. */
  function MatchedTexts(s: string, p: nat): seq<string>
    requires p <= |s|
    decreases |s| - p
  {
    match NextMatch(s, p)
    case None => []
    case Some(m) => [s[m.start..m.gt + 1]] + MatchedTexts(s, m.gt + 1)
  }

  /** The literal texts between the matches, which the replacement keeps:
      one more than there are matches. */
  function Gaps(s: string, p: nat): seq<string>
    requires p <= |s|
    decreases |s| - p
  {
    match NextMatch(s, p)
    case None => [s[p..]]
    case Some(m) => [s[p..m.start]] + Gaps(s, m.gt + 1)
  }

  /** One matched text per match, and one gap more than there are matches. */
  lemma {:induction false} MatchedTextsCount(s: string, p: nat)
    requires p <= |s|
    ensures |MatchedTexts(s, p)| == |Matches(s, p)|
    ensures |Gaps(s, p)| == |Matches(s, p)| + 1
    decreases |s| - p
  {
    if NextMatch(s, p).Some? {
      MatchedTextsCount(s, NextMatch(s, p).value.gt + 1);
    }
  }

  /** The matched texts glued back between the gaps give the usage back,
      so the search splits the usage without losing or repeating text. */
  lemma {:induction false} GapsAndMatchesCoverUsage(s: string, p: nat)
    requires p <= |s|
    ensures Interleave(Gaps(s, p), MatchedTexts(s, p)) == s[p..]
    decreases |s| - p
  {
    match NextMatch(s, p) {
      case None =>
      case Some(m) =>
        var g0, t0 := s[p..m.start], s[m.start..m.gt + 1];
        var gs, ts := Gaps(s, m.gt + 1), MatchedTexts(s, m.gt + 1);
        GapsAndMatchesCoverUsage(s, m.gt + 1);
        InterleaveCons(g0, t0, gs, ts);
        ThreeSlices(s, p, m.start, m.gt + 1);
    }
  }

  lemma ThreeSlices(s: string, p: nat, a: nat, b: nat)
    requires p <= a <= b <= |s|
    ensures s[p..a] + (s[a..b] + s[b..]) == s[p..]
  {
    SliceSplit(s, a, b);
    SliceSplit(s, p, a);
  }

  lemma InterleaveCons(g0: string, t0: string, gs: seq<string>, ts: seq<string>)
    ensures Interleave([g0] + gs, [t0] + ts) == g0 + (t0 + Interleave(gs, ts))
  {
    assert ([g0] + gs)[1..] == gs;
    assert ([t0] + ts)[1..] == ts;
  }

  /** `g0 t0 g1 t1 ... gn`: the gaps with the texts between them (of a gap
      more than there are texts, which is what `Gaps` gives). */
  function Interleave(gaps: seq<string>, texts: seq<string>): string
    decreases |gaps|
  {
    if gaps == [] then ""
    else if texts == [] then gaps[0]
    else gaps[0] + texts[0] + Interleave(gaps[1..], texts[1..])
  }

  // ---------------------------------------------------------------------
  // Property values (index.js:289-303)
  // ---------------------------------------------------------------------

  /** A property value after coercion; `Undefined` when the item has no `=`. */
  datatype PropValue = Undefined | Num(n: int) | Boolean(b: bool) | Str(s: string)

  /** The coercion of the part after `=`: what `Number()` accepts becomes a
      number, `true`/`false` become booleans, anything else stays text. */
  function CoerceValue(v: Option<string>): (r: PropValue)
    ensures r.Undefined? <==> v.None?
    ensures r.Num? ==> ParseNumber(v.value) == Int(r.n)
    ensures r.Boolean? <==> v.Some? && ParseNumber(v.value) == NaN && v.value in {"true", "false"}
    ensures r.Boolean? ==> r.b == (v.value == "true")
    ensures r.Str? ==> v == Some(r.s) && ParseNumber(r.s) == NaN && r.s !in {"true", "false"}
  {
    match v
    case None => Undefined
    case Some(t) =>
      match ParseNumber(t)
      case Int(n) => Num(n)
      case NaN => if t == "true" then Boolean(true) else if t == "false" then Boolean(false) else Str(t)
  }

  /** `o.split("=")`, of which only the first two parts are used: the key
      before the first `=` and the coerced text from there up to the next
      `=`, undefined when there is no `=`. */
  function CoerceProperty(o: string): (r: (string, PropValue))
    ensures r.0 == UpTo(o, '=')
    ensures '=' in o ==> r.1 == CoerceValue(Some(UpTo(o[IndexOfChar(o, '=') + 1..], '=')))
    ensures '=' !in o ==> r.1 == Undefined
  {
    var parts := SplitOn(o, '=');
    (parts[0], CoerceValue(if |parts| >= 2 then Some(parts[1]) else None))
  }

  function CoerceAll(items: seq<string>): (ps: seq<(string, PropValue)>)
    ensures |ps| == |items| && forall k :: 0 <= k < |items| ==> ps[k] == CoerceProperty(items[k])
  {
    seq(|items|, k requires 0 <= k < |items| => CoerceProperty(items[k]))
  }

  /** JavaScript truthiness of a property value. */
  predicate Truthy(v: PropValue) {
    match v
    case Undefined => false
    case Num(n) => n != 0
    case Boolean(b) => b
    case Str(s) => s != ""
  }

  /** JavaScript's `Number(v)` of a property value, which the bound checks
      of `toRegExp` compare. */
  function ToNumber(v: PropValue): JsNum {
    match v
    case Undefined => NaN
    case Num(n) => Int(n)
    case Boolean(b) => Int(if b then 1 else 0)
    case Str(s) => ParseNumber(s)
  }

  /** A property value used as a numeric bound. A number or boolean is a set
      bound exactly when it is truthy, and then it counts as its numeric
      value (`true` as 1); text is taken as unset. */
  function AsBound(v: PropValue): (b: Bound)
    ensures IsSet(b) ==> Truthy(v)
    ensures !v.Str? ==> (IsSet(b) <==> Truthy(v))
    ensures IsSet(b) ==> ToNumber(v) == Int(b.value)
    ensures v.Str? || v.Undefined? ==> b == None
  {
    match v
    case Num(n) => Some(n)
    case Boolean(b) => if b then Some(1) else None
    case _ => None
  }

  /** `String(v)`, for a `name=` property. */
  function JsToString(v: PropValue): string {
    match v
    case Undefined => "undefined"
    case Num(n) => DecimalString(n)
    case Boolean(b) => if b then "true" else "false"
    case Str(s) => s
  }

  /** `arg[key] = value` on the descriptor's fields: each field read by the
      descriptor's kind takes the value exactly when the key is its name.
      Any other key leaves the fields alone. The keys `toRegExp` and `parse`
      also hide the method of that name; `CompileTyped` models the first,
      and the second is not modelled. */
  function ApplyProperty(a: Arg, key: string, v: PropValue): (r: Arg)
    ensures (r.IntArg? <==> a.IntArg?) && (r.StrArg? <==> a.StrArg?) && (r.DateArg? <==> a.DateArg?)
    ensures key !in {"name", "many", "includeEmpty", "min", "max", "length", "minLength", "maxLength", "duration"} ==> r == a
    ensures r.name == (if key == "name" then JsToString(v) else a.name)
    ensures r.many == (if key == "many" then Truthy(v) else a.many)
    ensures r.includeEmpty == (if key == "includeEmpty" then Truthy(v) else a.includeEmpty)
    ensures r.IntArg? ==> r.min == (if key == "min" then AsBound(v) else a.min)
    ensures r.IntArg? ==> r.max == (if key == "max" then AsBound(v) else a.max)
    ensures r.StrArg? ==> r.length == (if key == "length" then AsBound(v) else a.length)
    ensures r.StrArg? ==> r.minLength == (if key == "minLength" then AsBound(v) else a.minLength)
    ensures r.StrArg? ==> r.maxLength == (if key == "maxLength" then AsBound(v) else a.maxLength)
    ensures r.DateArg? ==> r.duration == (if key == "duration" then Truthy(v) else a.duration)
  {
    if key == "name" then a.(name := JsToString(v))
    else if key == "many" then a.(many := Truthy(v))
    else if key == "includeEmpty" then a.(includeEmpty := Truthy(v))
    else
      match a
      case IntArg(_, _, _, _, _) =>
        if key == "min" then a.(min := AsBound(v))
        else if key == "max" then a.(max := AsBound(v))
        else a
      case StrArg(_, _, _, _, _, _) =>
        if key == "length" then a.(length := AsBound(v))
        else if key == "minLength" then a.(minLength := AsBound(v))
        else if key == "maxLength" then a.(maxLength := AsBound(v))
        else a
      case DateArg(_, _, _, _) =>
        if key == "duration" then a.(duration := Truthy(v)) else a
  }

  /** The properties applied in order, a later one overriding an earlier one. */
  function ApplyProperties(a: Arg, props: seq<(string, PropValue)>): (r: Arg)
    ensures (r.IntArg? <==> a.IntArg?) && (r.StrArg? <==> a.StrArg?) && (r.DateArg? <==> a.DateArg?)
    decreases |props|
  {
    if props == [] then a
    else ApplyProperties(ApplyProperty(a, props[0].0, props[0].1), props[1..])
  }

  /** Applying one more property at the end. */
  lemma {:induction false} ApplyPropertiesSnoc(a: Arg, props: seq<(string, PropValue)>, p: (string, PropValue))
    ensures ApplyProperties(a, props + [p]) == ApplyProperty(ApplyProperties(a, props), p.0, p.1)
    decreases |props|
  {
    if props == [] {
      assert props + [p] == [p];
    } else {
      assert (props + [p])[1..] == props[1..] + [p];
      ApplyPropertiesSnoc(ApplyProperty(a, props[0].0, props[0].1), props[1..], p);
    }
  }

  /** The value of the last property with key `key`, if any. */
  function LastValue(props: seq<(string, PropValue)>, key: string): (r: Option<PropValue>)
    ensures r.None? <==> forall k :: 0 <= k < |props| ==> props[k].0 != key
    ensures r.Some? ==>
      exists k :: 0 <= k < |props| && props[k] == (key, r.value)
        && forall j :: k < j < |props| ==> props[j].0 != key
    decreases |props|
  {
    if props == [] then None
    else if props[|props| - 1].0 == key then Some(props[|props| - 1].1)
    else
      var r := LastValue(props[..|props| - 1], key);
      assert forall k :: 0 <= k < |props| - 1 ==> props[..|props| - 1][k] == props[k];
      r
  }

  /** A field after the properties: the last value given for its key,
      converted, or its value before them. */
  function BoolAfter(props: seq<(string, PropValue)>, key: string, before: bool): bool {
    match LastValue(props, key)
    case Some(v) => Truthy(v)
    case None => before
  }

  function BoundAfter(props: seq<(string, PropValue)>, key: string, before: Bound): Bound {
    match LastValue(props, key)
    case Some(v) => AsBound(v)
    case None => before
  }

  function NameAfter(props: seq<(string, PropValue)>, before: string): string {
    match LastValue(props, "name")
    case Some(v) => JsToString(v)
    case None => before
  }

  /** The last property with a key decides that field of every descriptor;
      without one, the field keeps its value. */
  lemma {:induction false} ApplyPropertiesCommon(a: Arg, props: seq<(string, PropValue)>)
    ensures var r := ApplyProperties(a, props);
      && r.name == NameAfter(props, a.name)
      && r.many == BoolAfter(props, "many", a.many)
      && r.includeEmpty == BoolAfter(props, "includeEmpty", a.includeEmpty)
    decreases |props|
  {
    if props != [] {
      var init, p := props[..|props| - 1], props[|props| - 1];
      assert props == init + [p];
      ApplyPropertiesSnoc(a, init, p);
      ApplyPropertiesCommon(a, init);
    }
  }

  /** The same for the bounds of a numeric descriptor. */
  lemma {:induction false} ApplyPropertiesInt(a: Arg, props: seq<(string, PropValue)>)
    requires a.IntArg?
    ensures var r := ApplyProperties(a, props);
      r.min == BoundAfter(props, "min", a.min) && r.max == BoundAfter(props, "max", a.max)
    decreases |props|
  {
    if props != [] {
      var init, p := props[..|props| - 1], props[|props| - 1];
      assert props == init + [p];
      ApplyPropertiesSnoc(a, init, p);
      ApplyPropertiesInt(a, init);
    }
  }

  /** The same for the lengths of a string descriptor. */
  lemma {:induction false} ApplyPropertiesStr(a: Arg, props: seq<(string, PropValue)>)
    requires a.StrArg?
    ensures var r := ApplyProperties(a, props);
      && r.length == BoundAfter(props, "length", a.length)
      && r.minLength == BoundAfter(props, "minLength", a.minLength)
      && r.maxLength == BoundAfter(props, "maxLength", a.maxLength)
    decreases |props|
  {
    if props != [] {
      var init, p := props[..|props| - 1], props[|props| - 1];
      assert props == init + [p];
      ApplyPropertiesSnoc(a, init, p);
      ApplyPropertiesStr(a, init);
    }
  }

  /** The same for the `duration` flag of a date descriptor. */
  lemma {:induction false} ApplyPropertiesDate(a: Arg, props: seq<(string, PropValue)>)
    requires a.DateArg?
    ensures ApplyProperties(a, props).duration == BoolAfter(props, "duration", a.duration)
    decreases |props|
  {
    if props != [] {
      var init, p := props[..|props| - 1], props[|props| - 1];
      assert props == init + [p];
      ApplyPropertiesSnoc(a, init, p);
      ApplyPropertiesDate(a, init);
    }
  }

  /** The loop `for (let [key, value] of properties)` writing into the fresh
      descriptor. */
  method ApplyPropertiesInOrder(a: Arg, props: seq<(string, PropValue)>) returns (r: Arg)
    ensures r == ApplyProperties(a, props)
  {
    r := a;
    for k := 0 to |props|
      invariant ApplyProperties(a, props) == ApplyProperties(r, props[k..])
    {
      assert props[k..][1..] == props[k + 1..];
      r := ApplyProperty(r, props[k].0, props[k].1);
    }
  }

  // ---------------------------------------------------------------------
  // Kinds and modifiers (index.js:305-340)
  // ---------------------------------------------------------------------

  /** The first key of `mapType` the type text starts with. */
  function KindOf(ty: string): (r: Option<Kind>)
    ensures r.Some? ==> StartsWith(ty, KindKey(r.value))
    ensures r.None? <==> !StartsWith(ty, "int") && !StartsWith(ty, "str") && !StartsWith(ty, "date")
    ensures r == Some(StrKind) ==> !StartsWith(ty, "int")
    ensures r == Some(DateKind) ==> !StartsWith(ty, "int") && !StartsWith(ty, "str")
  {
    if StartsWith(ty, "int") then Some(IntKind)
    else if StartsWith(ty, "str") then Some(StrKind)
    else if StartsWith(ty, "date") then Some(DateKind)
    else None
  }

  /** The modifier text after the kind: `[]` repeats, `?` allows empty,
      `[]?` does both, and a date argument ignores `[]` and `[]?`. */
  function ApplyModifiers(a: Arg, k: Kind, rest: string): (r: Result<Arg, Thrown>)
    ensures r.Failure? <==> rest !in {"", "[]", "?", "[]?"}
    ensures r.Failure? ==> r.error == TypeError("Invalid type options: " + rest)
    ensures r.Success? ==> r.value.many == (a.many || (k != DateKind && rest in {"[]", "[]?"}))
    ensures r.Success? ==> r.value.includeEmpty == (a.includeEmpty || rest == "?" || (k != DateKind && rest == "[]?"))
    ensures r.Success? ==> r.value == a.(many := r.value.many, includeEmpty := r.value.includeEmpty)
  {
    if rest == "[]" then Success(if k != DateKind then a.(many := true) else a)
    else if rest == "?" then Success(a.(includeEmpty := true))
    else if rest == "[]?" then Success(if k != DateKind then a.(many := true, includeEmpty := true) else a)
    else if rest != "" then Failure(TypeError("Invalid type options: " + rest))
    else Success(a)
  }

  // ---------------------------------------------------------------------
  // One placeholder (the `replace` callback, index.js:281-347)
  // ---------------------------------------------------------------------

  /** `${whitespaces}(${source})`, made optional as a whole when the
      argument may be empty. */
  function Piece(leading: string, src: string, includeEmpty: bool): string {
    var ret := leading + "(" + src + ")";
    if includeEmpty then "(?:" + ret + ")?" else ret
  }

  /** What one placeholder contributes: its descriptor (as `toRegExp` left
      it), its `_arguments` entry `[name, kind]`, and its replacement text. */
  datatype Hole = Hole(arg: Arg, entry: (string, string), piece: string)

  /** A `toRegExp` property has replaced the method, so calling it throws. */
  const NotAFunction: Thrown := TypeError("args[args.length - 1].toRegExp is not a function")

  const UndefinedType: Thrown := TypeError("Cannot read properties of undefined (reading 'startsWith')")

  /** The `replace` callback for the placeholder `<body>` preceded by
      `leading`: the first word is `name:type`, the others are properties. A
      name without `:` leaves the type undefined, and `type.startsWith`
      throws. */
  function CompilePlaceholder(leading: string, body: string): (r: Result<Hole, Thrown>)
    ensures var w := SplitOnWhitespace(body)[0];
      && (':' !in w ==> r == Failure(UndefinedType))
      && (':' in w ==> r == CompileTyped(leading, UpTo(w, ':'), UpTo(w[IndexOfChar(w, ':') + 1..], ':'), SplitOnWhitespace(body)[1..]))
    ensures r.Success? ==> ':' !in r.value.entry.0 && StartsWith(SplitOnWhitespace(body)[0], r.value.entry.0 + ":")
  {
    var words := SplitOnWhitespace(body);
    var nameType := SplitOn(words[0], ':');
    if |nameType| < 2 then Failure(UndefinedType)
    else
      var name := nameType[0];
      assert words[0][..|name| + 1] == name + ":";
      CompileTyped(leading, name, nameType[1], words[1..])
  }

  /** A placeholder with name `name`, type text `ty` and property items
      `items`: the kind is the first key of `mapType` that `ty` starts with,
      else a TypeError. After the modifiers, a property named `toRegExp`
      makes the call of `toRegExp()` throw, as no property value is a
      function. */
  function CompileTyped(leading: string, name: string, ty: string, items: seq<string>): (r: Result<Hole, Thrown>)
    ensures KindOf(ty).None? ==> r == Failure(TypeError("Invalid type: " + ty))
    ensures r.Success? ==> KindOf(ty).Some? && r.value.entry == (name, KindKey(KindOf(ty).value))
    ensures r.Success? ==> Compiled(r.value.arg)
    ensures r.Success? ==> r.value.piece == Piece(leading, ToRegExp(r.value.arg).value.0, r.value.arg.includeEmpty)
    ensures r.Success? ==> (KindOf(ty) == Some(IntKind) <==> r.value.arg.IntArg?) && (KindOf(ty) == Some(DateKind) <==> r.value.arg.DateArg?)
    ensures KindOf(ty).Some? ==>
      var k := KindOf(ty).value;
      var m := ApplyModifiers(ApplyProperties(NewArg(k, name), CoerceAll(items)), k, Trim(ty[|KindKey(k)|..]));
      var shadowed := LastValue(CoerceAll(items), "toRegExp").Some?;
      && (m.Failure? ==> r == Failure(m.error))
      && (m.Success? && shadowed ==> r == Failure(NotAFunction))
      && (r.Failure? <==> m.Failure? || shadowed || ToRegExp(m.value).Failure?)
      && (r.Success? ==> r.value.arg == ToRegExp(m.value).value.1)
  {
    match KindOf(ty)
    case None => Failure(TypeError("Invalid type: " + ty))
    case Some(k) =>
      var ps := CoerceAll(items);
      var a0 := ApplyProperties(NewArg(k, name), ps);
      match ApplyModifiers(a0, k, Trim(ty[|KindKey(k)|..]))
      case Failure(e) => Failure(e)
      case Success(a1) =>
        if LastValue(ps, "toRegExp").Some? then Failure(NotAFunction)
        else FinishPlaceholder(leading, name, k, a1)
  }

  /** A placeholder with a `toRegExp` property does not compile, whatever
      its value: `<x:int toRegExp=1>` throws where the source calls the
      method. */
  lemma ToRegExpKeyThrows(leading: string, name: string, ty: string, items: seq<string>, i: nat)
    requires KindOf(ty).Some? && i < |items| && UpTo(items[i], '=') == "toRegExp"
    ensures CompileTyped(leading, name, ty, items).Failure?
  {
  }

  /** What a compiled placeholder's descriptor holds: each property is the
      last value given for it (over the defaults of `new mapType[k](name)`),
      the type suffix adds `many` and `includeEmpty`, and `toRegExp` puts a
      `minLength` of 1 under a lone `maxLength`. */
  lemma PlaceholderFields(leading: string, name: string, ty: string, items: seq<string>)
    requires CompileTyped(leading, name, ty, items).Success?
    ensures KindOf(ty).Some?
    ensures var r := CompileTyped(leading, name, ty, items).value.arg;
      var k := KindOf(ty).value;
      var ps := CoerceAll(items);
      var rest := Trim(ty[|KindKey(k)|..]);
      && r.name == NameAfter(ps, name)
      && r.many == (BoolAfter(ps, "many", false) || (k != DateKind && rest in {"[]", "[]?"}))
      && r.includeEmpty == (BoolAfter(ps, "includeEmpty", false) || rest == "?" || (k != DateKind && rest == "[]?"))
      && (r.IntArg? ==> r.min == BoundAfter(ps, "min", None) && r.max == BoundAfter(ps, "max", None))
      && (r.StrArg? ==>
            && r.length == BoundAfter(ps, "length", None)
            && r.maxLength == BoundAfter(ps, "maxLength", None)
            && var lo := BoundAfter(ps, "minLength", None);
               r.minLength == (if !IsSet(lo) && IsSet(r.maxLength) then Some(1) else lo))
      && (r.DateArg? ==> r.duration == BoolAfter(ps, "duration", false))
  {
    var k := KindOf(ty).value;
    var ps := CoerceAll(items);
    var a0 := ApplyProperties(NewArg(k, name), ps);
    ApplyPropertiesCommon(NewArg(k, name), ps);
    match k
    case IntKind => ApplyPropertiesInt(NewArg(k, name), ps);
    case StrKind => ApplyPropertiesStr(NewArg(k, name), ps);
    case DateKind => ApplyPropertiesDate(NewArg(k, name), ps);
  }

  /** `toRegExp()` of the finished descriptor (which may throw), and the
      replacement text built from its source. */
  function FinishPlaceholder(leading: string, name: string, k: Kind, a: Arg): (r: Result<Hole, Thrown>)
    ensures r.Failure? <==> ToRegExp(a).Failure?
    ensures r.Success? ==> r.value.entry == (name, KindKey(k)) && r.value.arg == ToRegExp(a).value.1
    ensures r.Success? ==> Compiled(r.value.arg)
    ensures r.Success? ==> r.value.piece == Piece(leading, ToRegExp(r.value.arg).value.0, r.value.arg.includeEmpty)
  {
    match ToRegExp(a)
    case Failure(e) => Failure(e)
    case Success(compiled) =>
      ToRegExpIdempotent(a);
      Success(Hole(compiled.1, (name, KindKey(k)), Piece(leading, compiled.0, compiled.1.includeEmpty)))
  }

  // ---------------------------------------------------------------------
  // The whole usage string
  // ---------------------------------------------------------------------

  /** What the constructor leaves in `this.args`, `this._arguments` and the
      source of `this.regex`, with the replacement text of each placeholder. */
  datatype Compilation = Compilation(args: seq<Arg>, arguments: seq<(string, string)>, pieces: seq<string>, source: string)

  /** `acc` followed by the result from `p` on. */
  function Extend(acc: Compilation, r: Result<Compilation, Thrown>): Result<Compilation, Thrown> {
    match r
    case Failure(e) => Failure(e)
    case Success(c) => Success(Compilation(acc.args + c.args, acc.arguments + c.arguments, acc.pieces + c.pieces, acc.source + c.source))
  }

  /** The callback `replace` calls for each match, given the match's leading
      whitespace and the text between `<` and `>`. */
  type Callback = (string, string) -> Result<Hole, Thrown>

  /** The text kept before a match, then the callback's result for the
      match, then the rest: an exception from the callback aborts. */
  function Place(gap: string, h: Result<Hole, Thrown>, rest: Result<Compilation, Thrown>): Result<Compilation, Thrown> {
    match h
    case Failure(e) => Failure(e)
    case Success(h) => Extend(Compilation([h.arg], [h.entry], [h.piece], gap + h.piece), rest)
  }

  /** `ms` is a run of matches of `s` from `p` on, each inside `s` and
      starting after the previous one ends, as the global search finds them. */
  predicate Chained(s: string, p: nat, ms: seq<Match>)
    decreases |ms|
  {
    ms == [] || (p <= ms[0].start && InBounds(s, ms[0]) && Chained(s, ms[0].gt + 1, ms[1..]))
  }

  /** The global search's matches form such a run. */
  lemma {:induction false} MatchesChained(s: string, p: nat)
    requires p <= |s|
    ensures Chained(s, p, Matches(s, p))
    decreases |s| - p
  {
    match NextMatch(s, p) {
      case None =>
      case Some(m) =>
        MatchesChained(s, m.gt + 1);
        assert Matches(s, p)[1..] == Matches(s, m.gt + 1);
    }
  }

  /** `s.replace(/\s*<.+?>/g, callback)` from `p` on, given the matches
      `ms` the search finds there, with what the callback pushed: the first
      exception, in order, aborts the whole. */
  function ReplaceMatches(s: string, p: nat, ms: seq<Match>, callback: Callback): Result<Compilation, Thrown>
    requires p <= |s| && Chained(s, p, ms)
    decreases |ms|
  {
    if ms == [] then Success(Compilation([], [], [], s[p..]))
    else
      var m := ms[0];
      Place(s[p..m.start], callback(s[m.start..m.lt], s[m.lt + 1..m.gt]), ReplaceMatches(s, m.gt + 1, ms[1..], callback))
  }

  /** A replacement that succeeds records one descriptor, one
      `[name, type]` pair and one replacement text per match. */
  lemma {:induction false} ReplaceMatchesCounts(s: string, p: nat, ms: seq<Match>, callback: Callback)
    requires p <= |s| && Chained(s, p, ms)
    ensures ReplaceMatches(s, p, ms, callback).Success? ==>
      var c := ReplaceMatches(s, p, ms, callback).value;
      |c.args| == |c.arguments| == |c.pieces| == |ms|
    decreases |ms|
  {
    if ms != [] {
      ReplaceMatchesCounts(s, ms[0].gt + 1, ms[1..], callback);
    }
  }

  /** Every descriptor a callback returns has the property `P`. */
  ghost predicate ArgsSatisfy(callback: Callback, P: Arg -> bool) {
    forall leading, body :: callback(leading, body).Success? ==> P(callback(leading, body).value.arg)
  }

  /** Every descriptor of `args` has the property `P`. */
  ghost predicate AllArgs(args: seq<Arg>, P: Arg -> bool) {
    forall k :: 0 <= k < |args| ==> P(args[k])
  }

  /** A property of every descriptor the callback returns holds of every
      descriptor the replacement records. */
  lemma {:induction false} ReplaceMatchesKeeps(s: string, p: nat, ms: seq<Match>, callback: Callback, P: Arg -> bool)
    requires p <= |s| && Chained(s, p, ms) && ArgsSatisfy(callback, P)
    ensures ReplaceMatches(s, p, ms, callback).Success? ==> AllArgs(ReplaceMatches(s, p, ms, callback).value.args, P)
    decreases |ms|
  {
    if ms != [] {
      var m := ms[0];
      ReplaceMatchesKeeps(s, m.gt + 1, ms[1..], callback, P);
      PlaceKeeps(s[p..m.start], callback(s[m.start..m.lt], s[m.lt + 1..m.gt]), ReplaceMatches(s, m.gt + 1, ms[1..], callback), P);
    }
  }

  lemma PlaceKeeps(gap: string, h: Result<Hole, Thrown>, rest: Result<Compilation, Thrown>, P: Arg -> bool)
    requires h.Success? ==> P(h.value.arg)
    requires rest.Success? ==> AllArgs(rest.value.args, P)
    ensures Place(gap, h, rest).Success? ==> AllArgs(Place(gap, h, rest).value.args, P)
  {
    if h.Success? && rest.Success? {
      var all := [h.value.arg] + rest.value.args;
      assert forall k :: 1 <= k < |all| ==> all[k] == rest.value.args[k - 1];
    }
  }

  lemma PlaceholderCompilesArgs()
    ensures ArgsSatisfy(CompilePlaceholder, Compiled)
  {
  }

  /** The full constructor's compilation: `new RegExp(`^${regexApplied}$`)`. */
  function Compile(usage: string): (r: Result<Compilation, Thrown>)
    ensures r.Success? ==> |r.value.args| == |r.value.arguments| == |Matches(usage, 0)|
    ensures r.Success? ==> forall k :: 0 <= k < |r.value.args| ==> Compiled(r.value.args[k])
    ensures r.Success? ==> |r.value.source| >= 2 && r.value.source[0] == '^' && r.value.source[|r.value.source| - 1] == '$'
    ensures '<' !in usage ==> r == Success(Compilation([], [], [], "^" + usage + "$"))
  {
    var ms := Matches(usage, 0);
    MatchesChained(usage, 0);
    PlaceholderCompilesArgs();
    ReplaceMatchesKeeps(usage, 0, ms, CompilePlaceholder, Compiled);
    ReplaceMatchesCounts(usage, 0, ms, CompilePlaceholder);
    NextMatchIsLeftmost(usage, 0);
    match ReplaceMatches(usage, 0, ms, CompilePlaceholder)
    case Failure(e) => Failure(e)
    case Success(c) => Success(c.(source := "^" + c.source + "$"))
  }

  // ---------------------------------------------------------------------
  // The shape of the pattern, and its capture groups
  // ---------------------------------------------------------------------

  /** The texts a replacement over the matches `ms` keeps around them. */
  function GapsOf(s: string, p: nat, ms: seq<Match>): seq<string>
    requires p <= |s| && Chained(s, p, ms)
    decreases |ms|
  {
    if ms == [] then [s[p..]] else [s[p..ms[0].start]] + GapsOf(s, ms[0].gt + 1, ms[1..])
  }

  /** Over the global search's own matches, those are the gaps between the
      placeholders. */
  lemma {:induction false} GapsOfMatches(s: string, p: nat)
    requires p <= |s|
    ensures Chained(s, p, Matches(s, p)) && GapsOf(s, p, Matches(s, p)) == Gaps(s, p)
    decreases |s| - p
  {
    MatchesChained(s, p);
    match NextMatch(s, p) {
      case None =>
      case Some(m) =>
        GapsOfMatches(s, m.gt + 1);
        assert Matches(s, p)[0] == m && Matches(s, p)[1..] == Matches(s, m.gt + 1);
    }
  }

  /** A successful result whose text is `gaps` with its replacement texts
      between them. */
  predicate SourceIs(r: Result<Compilation, Thrown>, gaps: seq<string>) {
    r.Success? ==> r.value.source == Interleave(gaps, r.value.pieces)
  }

  /** The replaced text is the kept texts with the replacement texts
      between them. */
  lemma {:induction false} ReplaceMatchesSource(s: string, p: nat, ms: seq<Match>, callback: Callback)
    requires p <= |s| && Chained(s, p, ms)
    ensures SourceIs(ReplaceMatches(s, p, ms, callback), GapsOf(s, p, ms))
    decreases |ms|
  {
    if ms != [] {
      var m := ms[0];
      ReplaceMatchesSource(s, m.gt + 1, ms[1..], callback);
      PlaceSource(s[p..m.start], callback(s[m.start..m.lt], s[m.lt + 1..m.gt]),
        ReplaceMatches(s, m.gt + 1, ms[1..], callback), GapsOf(s, m.gt + 1, ms[1..]));
    }
  }

  lemma PlaceSource(gap: string, h: Result<Hole, Thrown>, rest: Result<Compilation, Thrown>, gaps: seq<string>)
    requires SourceIs(rest, gaps)
    ensures SourceIs(Place(gap, h, rest), [gap] + gaps)
  {
    if h.Success? && rest.Success? {
      InterleaveCons(gap, h.value.piece, gaps, rest.value.pieces);
    }
  }

  /** `piece` is what the callback returns after the whitespace `leading`
      for the descriptor `a`: `leading(source)`, made optional as a whole
      when `a` may be empty. */
  predicate FitsAfter(leading: string, a: Arg, piece: string) {
    ToRegExp(a).Success? && piece == Piece(leading, ToRegExp(a).value.0, a.includeEmpty)
  }

  /** The same, for the whitespace of the match `m` of `s`. */
  predicate Fits(s: string, m: Match, a: Arg, piece: string) {
    m.start <= m.lt <= |s| && FitsAfter(s[m.start..m.lt], a, piece)
  }

  /** Every replacement text a callback returns fits its descriptor. */
  ghost predicate PiecesFit(callback: Callback) {
    forall leading, body :: callback(leading, body).Success? ==>
      FitsAfter(leading, callback(leading, body).value.arg, callback(leading, body).value.piece)
  }

  lemma {:induction false} ReplaceMatchesPieces(s: string, p: nat, ms: seq<Match>, callback: Callback)
    requires p <= |s| && Chained(s, p, ms) && PiecesFit(callback)
    ensures var r := ReplaceMatches(s, p, ms, callback);
      r.Success? ==>
        && |r.value.args| == |r.value.pieces| == |ms|
        && forall k :: 0 <= k < |ms| ==> Fits(s, ms[k], r.value.args[k], r.value.pieces[k])
    decreases |ms|
  {
    ReplaceMatchesCounts(s, p, ms, callback);
    if ms != [] {
      var m := ms[0];
      ReplaceMatchesPieces(s, m.gt + 1, ms[1..], callback);
      var r := ReplaceMatches(s, p, ms, callback);
      if r.Success? {
        var h := callback(s[m.start..m.lt], s[m.lt + 1..m.gt]).value;
        var c := ReplaceMatches(s, m.gt + 1, ms[1..], callback).value;
        assert r.value.args == [h.arg] + c.args && r.value.pieces == [h.piece] + c.pieces;
        forall k | 0 <= k < |ms|
          ensures Fits(s, ms[k], r.value.args[k], r.value.pieces[k])
        {
          if k > 0 {
            assert ms[k] == ms[1..][k - 1];
            assert r.value.args[k] == c.args[k - 1] && r.value.pieces[k] == c.pieces[k - 1];
          }
        }
      }
    }
  }

  lemma PlaceholderPiecesFit()
    ensures PiecesFit(CompilePlaceholder)
  {
    forall leading, body | CompilePlaceholder(leading, body).Success?
      ensures FitsAfter(leading, CompilePlaceholder(leading, body).value.arg, CompilePlaceholder(leading, body).value.piece)
    {
      var a := CompilePlaceholder(leading, body).value.arg;
      assert Compiled(a);
    }
  }

  /** The pattern source is `^`, the usage with each placeholder and the
      whitespace before it replaced by that whitespace and the capture group
      of its descriptor (made optional as a whole when the descriptor may be
      empty), and `$`. */
  lemma CompileShape(usage: string)
    ensures var r := Compile(usage);
      r.Success? ==>
        && |r.value.pieces| == |r.value.args| == |Matches(usage, 0)|
        && r.value.source == "^" + Interleave(Gaps(usage, 0), r.value.pieces) + "$"
        && forall k :: 0 <= k < |r.value.args| ==> Fits(usage, Matches(usage, 0)[k], r.value.args[k], r.value.pieces[k])
  {
    var ms := Matches(usage, 0);
    GapsOfMatches(usage, 0);
    PlaceholderPiecesFit();
    ReplaceMatchesSource(usage, 0, ms, CompilePlaceholder);
    ReplaceMatchesPieces(usage, 0, ms, CompilePlaceholder);
  }

  /** A fragment that opens no capturing group of its own, ends outside any
      class or escape, can follow a `(` (it does not start with `?`) and can
      precede a `)`. */
  predicate SelfContained(src: string) {
    src != [] && src[0] != '?' && NotOpen(src) && Groups(src, Outside) == 0 && EndState(src, Outside) == Outside
  }

  lemma QuantifierPlain(includeEmpty: bool)
    ensures Plain(Quantifier(includeEmpty)) && NotOpen(Quantifier(includeEmpty))
  {
  }

  lemma IntUnitSelfContained(includeEmpty: bool)
    ensures SelfContained(IntUnit(includeEmpty))
  {
    var q := Quantifier(includeEmpty);
    QuantifierPlain(includeEmpty);
    PlainHasNoGroups(q);
    EscapeThen('d', q);
    PlainThen("?", ['\\', 'd'] + q);
    ClassThen("+-", "?" + (['\\', 'd'] + q));
    assert IntUnit(includeEmpty) == "[" + "+-" + "]" + ("?" + (['\\', 'd'] + q));
  }

  lemma RepeatedSelfContained(unit: string, includeEmpty: bool)
    requires SelfContained(unit)
    ensures SelfContained(Repeated(unit, includeEmpty))
  {
    var q := Quantifier(includeEmpty);
    QuantifierPlain(includeEmpty);
    SpaceTail(q);
    GroupFreeRepeat(unit, ['\\', 's'] + ("?)" + q));
    assert "(?:" == "(" + "?:";
    assert "\\s?)" == ['\\', 's'] + "?)";
    assert Repeated(unit, includeEmpty) == "(" + ("?:" + (unit + (['\\', 's'] + ("?)" + q))));
  }

  /** `\s?)q` after the unit of a repetition: no group, and outside. */
  lemma SpaceTail(q: string)
    requires Plain(q) && NotOpen(q)
    ensures var t := ['\\', 's'] + ("?)" + q);
      t != [] && NotOpen(t) && Groups(t, Outside) == 0 && EndState(t, Outside) == Outside
  {
    var tail := "?)" + q;
    PlainConcat("?)", q);
    PlainHasNoGroups(tail);
    NotOpenConcat("?)", q);
    EscapeThen('s', tail);
    NotOpenConcat(['\\', 's'], tail);
  }

  /** `(?:unit` followed by a tail that opens no group. */
  lemma GroupFreeRepeat(unit: string, t: string)
    requires SelfContained(unit)
    requires t != [] && NotOpen(t) && Groups(t, Outside) == 0 && EndState(t, Outside) == Outside
    ensures SelfContained("(" + ("?:" + (unit + t)))
  {
    GroupsConcat(unit, t, Outside);
    NotOpenConcat(unit, t);
    PlainThen("?:", unit + t);
    NotOpenConcat("?:", unit + t);
    OpenParen("?:" + (unit + t), Outside);
    NotOpenConcat("(", "?:" + (unit + t));
  }

  lemma DecimalPlain(n: int)
    ensures Plain(DecimalString(n))
  {
    var d := DecimalString(n);
    forall i | 0 <= i < |d|
      ensures d[i] != '(' && d[i] != '[' && d[i] != '\\'
    {
      assert IsDigit(d[i]) || d[i] == '-';
    }
  }

  lemma BracedPlain(inner: string)
    requires Plain(inner)
    ensures Plain("{" + inner + "}")
  {
    PlainConcat("{", inner);
    PlainConcat("{" + inner, "}");
  }

  /** `\S` followed by plain text. */
  lemma NonSpaceThen(tail: string)
    requires Plain(tail) && tail != []
    ensures SelfContained(['\\', 'S'] + tail)
  {
    PlainHasNoGroups(tail);
    PlainNotOpen(tail);
    EscapeThen('S', tail);
    NotOpenConcat(['\\', 'S'], tail);
  }

  lemma ExactSelfContained(n: int)
    ensures SelfContained("\\S{" + DecimalString(n) + "}")
  {
    var d := DecimalString(n);
    DecimalPlain(n);
    BracedPlain(d);
    NonSpaceThen("{" + d + "}");
    assert "\\S{" + d + "}" == ['\\', 'S'] + ("{" + d + "}");
  }

  lemma BetweenSelfContained(lo: int, hi: int)
    ensures SelfContained("\\S{" + DecimalString(lo) + "," + DecimalString(hi) + "}")
  {
    var d1, d2 := DecimalString(lo), DecimalString(hi);
    DecimalPlain(lo);
    DecimalPlain(hi);
    PlainConcat(d1, ",");
    PlainConcat(d1 + ",", d2);
    BracedPlain(d1 + "," + d2);
    NonSpaceThen("{" + (d1 + "," + d2) + "}");
    assert "\\S{" + d1 + "," + d2 + "}" == ['\\', 'S'] + ("{" + (d1 + "," + d2) + "}");
  }

  lemma AtLeastSelfContained(lo: int)
    ensures SelfContained("\\S{" + DecimalString(lo) + ",}")
  {
    var d := DecimalString(lo);
    DecimalPlain(lo);
    PlainConcat(d, ",");
    BracedPlain(d + ",");
    NonSpaceThen("{" + (d + ",") + "}");
    assert "\\S{" + d + ",}" == ['\\', 'S'] + ("{" + (d + ",") + "}");
  }

  lemma StrUnitSelfContained(length: Bound, minLength: Bound, maxLength: Bound, includeEmpty: bool)
    ensures SelfContained(StrUnit(length, minLength, maxLength, includeEmpty))
  {
    if IsSet(length) {
      ExactSelfContained(length.value);
    } else if IsSet(minLength) && IsSet(maxLength) {
      BetweenSelfContained(minLength.value, maxLength.value);
    } else if IsSet(minLength) {
      AtLeastSelfContained(minLength.value);
    } else {
      QuantifierPlain(includeEmpty);
      NonSpaceThen(Quantifier(includeEmpty));
      assert "\\S" + Quantifier(includeEmpty) == ['\\', 'S'] + Quantifier(includeEmpty);
    }
  }

  lemma DatePatternSelfContained()
    ensures SelfContained(DatePattern)
  {
    assert ']' !in DateClassBody;
    ClassThen(DateClassBody, "+");
    assert DatePattern == "[" + DateClassBody + "]" + "+";
  }

  /** Every fragment `toRegExp` builds opens no group of its own. */
  lemma FragmentSelfContained(a: Arg)
    requires ToRegExp(a).Success?
    ensures SelfContained(ToRegExp(a).value.0)
  {
    match a
    case IntArg(_, many, includeEmpty, _, _) =>
      IntUnitSelfContained(includeEmpty);
      if many {
        RepeatedSelfContained(IntUnit(includeEmpty), includeEmpty);
      }
    case StrArg(_, _, _, _, _, _) =>
      var b := ToRegExp(a).value.1;
      StrUnitSelfContained(b.length, b.minLength, b.maxLength, b.includeEmpty);
      if b.many {
        RepeatedSelfContained(StrUnit(b.length, b.minLength, b.maxLength, b.includeEmpty), b.includeEmpty);
      }
    case DateArg(_, _, _, _) =>
      DatePatternSelfContained();
  }

  /** Text that opens exactly one capturing group and ends outside any class
      or escape. */
  predicate OneGroup(x: string) {
    NotOpen(x) && Groups(x, Outside) == 1 && EndState(x, Outside) == Outside
  }

  /** A replacement text opens exactly the one group of its descriptor. */
  lemma PieceOneGroup(leading: string, src: string, includeEmpty: bool)
    requires Plain(leading) && SelfContained(src)
    ensures OneGroup(Piece(leading, src, includeEmpty))
  {
    CapturedOneGroup(leading, src);
    if includeEmpty {
      OptionalOneGroup(leading + "(" + src + ")");
    }
  }

  /** `leading(src)`: the one group. */
  lemma CapturedOneGroup(leading: string, src: string)
    requires Plain(leading) && SelfContained(src)
    ensures OneGroup(leading + "(" + src + ")")
  {
    PlainHasNoGroups(")");
    GroupsConcat(src, ")", Outside);
    OpenParen(src + ")", Outside);
    PlainThen(leading, "(" + (src + ")"));
    assert leading + "(" + src + ")" == leading + ("(" + (src + ")"));
  }

  /** `(?:x)?` opens the groups of `x` and no more. */
  lemma OptionalOneGroup(x: string)
    requires OneGroup(x)
    ensures OneGroup("(?:" + x + ")?")
  {
    PlainHasNoGroups(")?");
    GroupsConcat(x, ")?", Outside);
    PlainThen("?:", x + ")?");
    OpenParen("?:" + (x + ")?"), Outside);
    assert "(?:" + x + ")?" == "(" + ("?:" + (x + ")?"));
  }

  /** Plain gaps around one-group pieces: as many groups as pieces. */
  lemma {:induction false} InterleaveGroups(gaps: seq<string>, pieces: seq<string>)
    requires |gaps| == |pieces| + 1
    requires forall k :: 0 <= k < |gaps| ==> Plain(gaps[k])
    requires forall k :: 0 <= k < |pieces| ==> OneGroup(pieces[k])
    ensures NotOpen(Interleave(gaps, pieces))
    ensures Groups(Interleave(gaps, pieces), Outside) == |pieces|
    ensures EndState(Interleave(gaps, pieces), Outside) == Outside
    decreases |pieces|
  {
    if pieces == [] {
      PlainHasNoGroups(gaps[0]);
      PlainNotOpen(gaps[0]);
    } else {
      var rest := Interleave(gaps[1..], pieces[1..]);
      InterleaveGroups(gaps[1..], pieces[1..]);
      GroupsConcat(pieces[0], rest, Outside);
      PlainThen(gaps[0], pieces[0] + rest);
      NotOpenConcat(pieces[0], rest);
      PlainNotOpen(gaps[0]);
      NotOpenConcat(gaps[0], pieces[0] + rest);
      assert Interleave(gaps, pieces) == gaps[0] + (pieces[0] + rest);
    }
  }

  /** The whitespace before a placeholder is plain text. */
  lemma LeadingPlain(s: string, m: Match)
    requires LeftmostLazy(s, m)
    ensures Plain(s[m.start..m.lt])
  {
    var leading := s[m.start..m.lt];
    forall i | 0 <= i < |leading|
      ensures leading[i] != '(' && leading[i] != '[' && leading[i] != '\\'
    {
      assert leading[i] == s[m.start + i];
      assert IsWhitespace(s[m.start + i]);
    }
  }

  /** Each replacement text of a placeholder opens exactly one group. */
  lemma PiecesOneGroup(s: string, ms: seq<Match>, args: seq<Arg>, pieces: seq<string>)
    requires |args| == |pieces| == |ms|
    requires forall k :: 0 <= k < |ms| ==> LeftmostLazy(s, ms[k])
    requires forall k :: 0 <= k < |ms| ==> Fits(s, ms[k], args[k], pieces[k])
    ensures forall k :: 0 <= k < |pieces| ==> OneGroup(pieces[k])
  {
    forall k | 0 <= k < |pieces|
      ensures OneGroup(pieces[k])
    {
      LeadingPlain(s, ms[k]);
      FragmentSelfContained(args[k]);
      PieceOneGroup(s[ms[k].start..ms[k].lt], ToRegExp(args[k]).value.0, args[k].includeEmpty);
    }
  }

  /** The anchors `^` and `$` open no group. */
  lemma AnchoredGroups(body: string)
    requires NotOpen(body) && EndState(body, Outside) == Outside
    ensures Groups("^" + body + "$", Outside) == Groups(body, Outside)
  {
    PlainHasNoGroups("$");
    GroupsConcat(body, "$", Outside);
    PlainThen("^", body + "$");
    assert "^" + body + "$" == "^" + (body + "$");
  }

  /** When the literal text of a usage holds no `(`, `[` or `\`, the pattern
      has exactly one capturing group per descriptor, in order, so that the
      `k`-th group is the `k`-th argument. Literal text is spliced in
      unescaped, so a usage whose text has such characters can shift the
      groups. */
  lemma CompileAligns(usage: string)
    ensures Compile(usage).Success? && (forall k :: 0 <= k < |Gaps(usage, 0)| ==> Plain(Gaps(usage, 0)[k])) ==>
      Groups(Compile(usage).value.source, Outside) == |Compile(usage).value.args|
  {
    var r := Compile(usage);
    if r.Success? && forall k :: 0 <= k < |Gaps(usage, 0)| ==> Plain(Gaps(usage, 0)[k]) {
      var c := r.value;
      CompileShape(usage);
      MatchedTextsCount(usage, 0);
      MatchesAreLazy(usage, 0);
      PiecesOneGroup(usage, Matches(usage, 0), c.args, c.pieces);
      InterleaveGroups(Gaps(usage, 0), c.pieces);
      AnchoredGroups(Interleave(Gaps(usage, 0), c.pieces));
    }
  }
}
