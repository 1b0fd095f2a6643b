/** The natural-command path of `Registry.get`
    (global_modules/BotOperator/Command/index.js:820-899): the message with
    its whitespace collapsed is scanned left to right for aliases of the
    command's query slots; the date step may take a point in time or a span
    out of the text; the aliases found are cut out of what is left, which
    becomes `chat.filteredText`; the command matches when at most `margin`
    non-whitespace characters remain and every slot has a value, and the
    default suppliers are then called. */
module NaturalMatch {
  import opened Wrappers
  import opened JsText
  import opened Values
  import opened Sorting
  import opened Entries
  import opened AliasTable
  import opened Commands

  /** The `args` object a command is run with: name to value, in key order. */
  type Obj = seq<(string, Value)>

  /** The characters the scanner steps over: `\s`, `\d` and ASCII
      punctuation. */
  predicate Skipped(c: char) {
    IsWhitespace(c) || IsDigit(c) || IsAsciiPunctuation(c)
  }

  /** One entry of `foundTokens`: the token, the alias found for it, and the
      offset where it was found. */
  datatype Hit = Hit(token: string, word: string, at: nat)

  function TokenOf(h: Hit): string {
    h.token
  }

  /** The keys of `foundTokens`. */
  function Tokens(hits: seq<Hit>): set<string>
    decreases |hits|
  {
    if hits == [] then {}
    else Tokens(hits[..|hits| - 1]) + {hits[|hits| - 1].token}
  }

  /** A token is among the found ones exactly when some hit has it. */
  lemma {:induction false} TokensOf(hits: seq<Hit>, t: string)
    ensures t in Tokens(hits) <==> exists k :: 0 <= k < |hits| && hits[k].token == t
    decreases |hits|
  {
    if hits != [] {
      var init := hits[..|hits| - 1];
      TokensOf(init, t);
      if t in Tokens(init) {
        var k :| 0 <= k < |init| && init[k].token == t;
        assert hits[k] == init[k];
      }
      if k :| 0 <= k < |hits| - 1 && hits[k].token == t {
        assert init[k] == hits[k];
      }
    }
  }

  lemma TokensAppend(hits: seq<Hit>, h: Hit)
    ensures Tokens(hits + [h]) == Tokens(hits) + {h.token}
  {
    assert (hits + [h])[..|hits|] == hits;
  }

  // ---------------------------------------------------------------------
  // The scanner (index.js:827-847)
  // ---------------------------------------------------------------------

  /** Whether the table entry `e` (alias, token) is taken at offset `i`: its
      token is a slot of the query, it has not been found yet, and the text
      continues with its alias there. */
  predicate Eligible(text: string, i: nat, e: (string, string), query: Query, found: set<string>) {
    HasKey(query, e.1) && e.1 !in found && StartsWithAt(text, e.0, i)
  }

  /** The inner `for` loop: the first eligible entry in table order from
      `from` on. */
  function Pick(text: string, i: nat, table: AliasMap, query: Query, found: set<string>, from: nat): (r: Option<nat>)
    requires from <= |table|
    ensures r.Some? ==> from <= r.value < |table| && Eligible(text, i, table[r.value], query, found)
    decreases |table| - from
  {
    if from == |table| then None
    else if Eligible(text, i, table[from], query, found) then Some(from)
    else Pick(text, i, table, query, found, from + 1)
  }

  /** No entry before the one picked, and none at all when nothing is
      picked, is eligible. */
  lemma {:induction false} PickFirst(text: string, i: nat, table: AliasMap, query: Query, found: set<string>, from: nat)
    requires from <= |table|
    ensures var r := Pick(text, i, table, query, found, from);
      forall k :: from <= k < |table| && (r.None? || k < r.value) ==> !Eligible(text, i, table[k], query, found)
    decreases |table| - from
  {
    if from < |table| && !Eligible(text, i, table[from], query, found) {
      PickFirst(text, i, table, query, found, from + 1);
    }
  }

  /** The entries whose token is a slot not found yet: an empty alias does
      not advance the scanner, but uses one of these up. */
  function Unfound(table: AliasMap, query: Query, found: set<string>): nat
    decreases |table|
  {
    if table == [] then 0
    else (if HasKey(query, table[0].1) && table[0].1 !in found then 1 else 0) + Unfound(table[1..], query, found)
  }

  lemma {:induction false} UnfoundMonotone(table: AliasMap, query: Query, found: set<string>, t: string)
    ensures Unfound(table, query, found + {t}) <= Unfound(table, query, found)
    decreases |table|
  {
    if table != [] {
      UnfoundMonotone(table[1..], query, found, t);
    }
  }

  lemma {:induction false} UnfoundDrops(table: AliasMap, query: Query, found: set<string>, j: nat)
    requires j < |table| && HasKey(query, table[j].1) && table[j].1 !in found
    ensures Unfound(table, query, found + {table[j].1}) < Unfound(table, query, found)
    decreases |table|
  {
    if j == 0 {
      UnfoundMonotone(table[1..], query, found, table[0].1);
    } else {
      assert table[1..][j - 1] == table[j];
      UnfoundDrops(table[1..], query, found, j - 1);
    }
  }

  /** The hit recorded when the alias of entry `j` is taken at `i`. */
  function TakenAt(table: AliasMap, j: nat, i: nat): Hit
    requires j < |table|
  {
    Hit(table[j].1, table[j].0, i)
  }

  /** The scan from offset `i` on, with `hits` found so far: a skipped
      character is stepped over; otherwise the first eligible alias is
      recorded and the scan resumes after it, or the scan moves one on. */
  function Scan(text: string, table: AliasMap, query: Query, i: nat, hits: seq<Hit>): seq<Hit>
    requires i <= |text|
    decreases |text| - i, Unfound(table, query, Tokens(hits))
  {
    if i == |text| then hits
    else if Skipped(text[i]) then Scan(text, table, query, i + 1, hits)
    else
      match Pick(text, i, table, query, Tokens(hits), 0)
      case None => Scan(text, table, query, i + 1, hits)
      case Some(j) =>
        var h := TakenAt(table, j, i);
        UnfoundDrops(table, query, Tokens(hits), j);
        TokensAppend(hits, h);
        Scan(text, table, query, i + |h.word|, hits + [h])
  }

  /** What the scanner has recorded before offset `i`: each hit is an
      entry of the table for a slot of the query, its alias occurs where it
      was found, at a character that is not skipped; the hits are in text
      order and do not overlap; and no token is recorded twice. */
  ghost predicate Recorded(text: string, table: AliasMap, query: Query, hits: seq<Hit>, i: nat) {
    && (forall k :: 0 <= k < |hits| ==> FoundAt(text, table, query, hits[k]) && hits[k].at + |hits[k].word| <= i)
    && (forall a, b :: 0 <= a < b < |hits| ==> hits[a].at + |hits[a].word| <= hits[b].at)
    && DistinctBy(hits, TokenOf)
  }

  /** A hit is an entry of the table for a slot of the query, and its alias
      occurs where it was found, at a character that is not skipped. */
  ghost predicate FoundAt(text: string, table: AliasMap, query: Query, h: Hit) {
    && (h.word, h.token) in table
    && HasKey(query, h.token)
    && h.at < |text| && !Skipped(text[h.at])
    && StartsWithAt(text, h.word, h.at)
  }

  lemma RecordedStep(text: string, table: AliasMap, query: Query, hits: seq<Hit>, i: nat, j: nat)
    requires Recorded(text, table, query, hits, i) && i < |text| && !Skipped(text[i])
    requires j < |table| && Eligible(text, i, table[j], query, Tokens(hits))
    ensures Recorded(text, table, query, hits + [TakenAt(table, j, i)], i + |TakenAt(table, j, i).word|)
  {
    var h := TakenAt(table, j, i);
    var hs := hits + [h];
    assert forall k :: 0 <= k < |hits| ==> hs[k] == hits[k];
    assert (h.word, h.token) == table[j];
    forall a, b | 0 <= a < b < |hs|
      ensures TokenOf(hs[a]) != TokenOf(hs[b])
    {
      if b == |hits| {
        TokensOf(hits, hits[a].token);
      }
    }
  }

  /** One step of the scan that takes no alias. */
  lemma ScanSkips(text: string, table: AliasMap, query: Query, i: nat, hits: seq<Hit>)
    requires i < |text| && (Skipped(text[i]) || Pick(text, i, table, query, Tokens(hits), 0).None?)
    ensures Scan(text, table, query, i, hits) == Scan(text, table, query, i + 1, hits)
  {
  }

  /** What was recorded before an offset was recorded before any later
      one. */
  lemma RecordedLater(text: string, table: AliasMap, query: Query, hits: seq<Hit>, i: nat, i': nat)
    requires Recorded(text, table, query, hits, i) && i <= i'
    ensures Recorded(text, table, query, hits, i')
  {
  }

  /** One step of the scan that takes an alias. */
  lemma ScanTakes(text: string, table: AliasMap, query: Query, i: nat, hits: seq<Hit>, j: nat)
    requires i < |text| && !Skipped(text[i]) && Pick(text, i, table, query, Tokens(hits), 0) == Some(j)
    ensures i + |TakenAt(table, j, i).word| <= |text|
    ensures Scan(text, table, query, i, hits)
      == Scan(text, table, query, i + |TakenAt(table, j, i).word|, hits + [TakenAt(table, j, i)])
  {
  }

  /** The scanner only ever records what `Recorded` describes. */
  lemma {:induction false} ScanRecords(text: string, table: AliasMap, query: Query, i: nat, hits: seq<Hit>)
    requires i <= |text| && Recorded(text, table, query, hits, i)
    ensures Recorded(text, table, query, Scan(text, table, query, i, hits), |text|)
    decreases |text| - i, Unfound(table, query, Tokens(hits)), 1
  {
    if i < |text| {
      if Skipped(text[i]) || Pick(text, i, table, query, Tokens(hits), 0).None? {
        ScanSkips(text, table, query, i, hits);
        RecordedLater(text, table, query, hits, i, i + 1);
        ScanRecords(text, table, query, i + 1, hits);
      } else {
        var j := Pick(text, i, table, query, Tokens(hits), 0).value;
        ScanTakes(text, table, query, i, hits, j);
        ScanRecordsTaking(text, table, query, i, hits, j);
      }
    }
  }

  /** `ScanRecords` for the rest of the scan after the alias of entry `j`
      is taken at `i`. */
  lemma {:induction false} ScanRecordsTaking(text: string, table: AliasMap, query: Query, i: nat, hits: seq<Hit>, j: nat)
    requires i < |text| && !Skipped(text[i]) && j < |table| && Eligible(text, i, table[j], query, Tokens(hits))
    requires Recorded(text, table, query, hits, i)
    ensures i + |TakenAt(table, j, i).word| <= |text|
    ensures Recorded(text, table, query,
      Scan(text, table, query, i + |TakenAt(table, j, i).word|, hits + [TakenAt(table, j, i)]), |text|)
    decreases |text| - i, Unfound(table, query, Tokens(hits)), 0
  {
    UnfoundDrops(table, query, Tokens(hits), j);
    TokensAppend(hits, TakenAt(table, j, i));
    RecordedStep(text, table, query, hits, i, j);
    ScanRecords(text, table, query, i + |TakenAt(table, j, i).word|, hits + [TakenAt(table, j, i)]);
  }

  /** The hits of a whole scan: the properties of `Recorded`. */
  lemma ScanFinds(text: string, table: AliasMap, query: Query)
    ensures Recorded(text, table, query, Scan(text, table, query, 0, []), |text|)
  {
    ScanRecords(text, table, query, 0, []);
  }

  // ---------------------------------------------------------------------
  // Completeness of the scan: what it takes, and what it passes over
  // ---------------------------------------------------------------------

  /** Some hit was found at offset `p`. */
  ghost predicate HitAt(hits: seq<Hit>, p: nat) {
    exists k :: 0 <= k < |hits| && hits[k].at == p
  }

  /** Offset `p` lies inside an alias taken earlier, so the scanner never
      looks at it. */
  ghost predicate Covered(hits: seq<Hit>, p: nat) {
    exists k :: 0 <= k < |hits| && hits[k].at < p < hits[k].at + |hits[k].word|
  }

  /** The tokens found before offset `p`. */
  ghost function TokensBefore(hits: seq<Hit>, p: nat): set<string> {
    set k | 0 <= k < |hits| && hits[k].at < p :: hits[k].token
  }

  /** No entry of the table could be taken at `p`. */
  predicate NoneEligible(text: string, p: nat, table: AliasMap, query: Query, found: set<string>) {
    forall e :: e in table ==> !Eligible(text, p, e, query, found)
  }

  /** Hit `k` is the entry the inner loop picks at its offset, given the
      tokens found before it. */
  ghost predicate PickedAt(text: string, table: AliasMap, query: Query, hits: seq<Hit>, k: nat)
    requires k < |hits|
  {
    var r := Pick(text, hits[k].at, table, query, Tokens(hits[..k]), 0);
    r.Some? && table[r.value] == (hits[k].word, hits[k].token)
  }

  ghost predicate Chosen(text: string, table: AliasMap, query: Query, hits: seq<Hit>) {
    forall k :: 0 <= k < |hits| ==> PickedAt(text, table, query, hits, k)
  }

  /** If the scanner looked at offset `p` without finding anything there, no
      entry could be taken at `p`. */
  ghost predicate PassedOver(text: string, table: AliasMap, query: Query, hits: seq<Hit>, p: nat) {
    p < |text| && !Skipped(text[p]) && !Covered(hits, p) && !HitAt(hits, p) ==>
      NoneEligible(text, p, table, query, TokensBefore(hits, p))
  }

  /** Every offset before `i` is passed over only when nothing could be
      taken there. */
  ghost predicate Thorough(text: string, table: AliasMap, query: Query, hits: seq<Hit>, i: nat) {
    forall p :: 0 <= p < i ==> PassedOver(text, table, query, hits, p)
  }

  /** When every hit lies before `p`, the tokens found before `p` are all
      of them. */
  lemma TokensBeforeAll(hits: seq<Hit>, p: nat)
    requires forall k :: 0 <= k < |hits| ==> hits[k].at < p
    ensures TokensBefore(hits, p) == Tokens(hits)
  {
    forall t
      ensures t in TokensBefore(hits, p) <==> t in Tokens(hits)
    {
      TokensOf(hits, t);
    }
  }

  /** A hit at `i` or later changes nothing the scan records about the
      offsets before `i`. */
  lemma ThoroughAppend(text: string, table: AliasMap, query: Query, hits: seq<Hit>, i: nat, h: Hit)
    requires Thorough(text, table, query, hits, i) && i <= h.at
    ensures Thorough(text, table, query, hits + [h], i)
  {
    var hs := hits + [h];
    forall p | 0 <= p < i
      ensures PassedOver(text, table, query, hs, p)
    {
      assert PassedOver(text, table, query, hits, p);
      assert forall k :: 0 <= k < |hits| ==> hs[k] == hits[k];
      assert Covered(hs, p) <==> Covered(hits, p);
      assert HitAt(hs, p) <==> HitAt(hits, p);
      assert TokensBefore(hs, p) == TokensBefore(hits, p);
    }
  }

  /** A step that takes the alias of entry `j` at `i`: the offsets it
      passes over are inside that alias. */
  lemma ThoroughTake(text: string, table: AliasMap, query: Query, hits: seq<Hit>, i: nat, j: nat)
    requires Thorough(text, table, query, hits, i) && j < |table|
    ensures Thorough(text, table, query, hits + [TakenAt(table, j, i)], i + |TakenAt(table, j, i).word|)
  {
    var h := TakenAt(table, j, i);
    var hs := hits + [h];
    ThoroughAppend(text, table, query, hits, i, h);
    forall p | i <= p < i + |h.word|
      ensures PassedOver(text, table, query, hs, p)
    {
      assert hs[|hits|] == h;
      assert HitAt(hs, p) || Covered(hs, p);
    }
  }

  /** A step that takes nothing at `i`. */
  lemma ThoroughPass(text: string, table: AliasMap, query: Query, hits: seq<Hit>, i: nat)
    requires Thorough(text, table, query, hits, i) && i < |text|
    requires forall k :: 0 <= k < |hits| ==> hits[k].at <= i
    requires Skipped(text[i]) || Pick(text, i, table, query, Tokens(hits), 0).None?
    ensures Thorough(text, table, query, hits, i + 1)
  {
    if !Skipped(text[i]) && !HitAt(hits, i) {
      TokensBeforeAll(hits, i);
      PickFirst(text, i, table, query, Tokens(hits), 0);
      forall e | e in table
        ensures !Eligible(text, i, e, query, Tokens(hits))
      {
        var k :| 0 <= k < |table| && table[k] == e;
      }
    }
    assert PassedOver(text, table, query, hits, i);
  }

  /** Taking the entry the inner loop picks keeps every hit the pick at its
      offset. */
  lemma ChosenTake(text: string, table: AliasMap, query: Query, hits: seq<Hit>, i: nat, j: nat)
    requires Chosen(text, table, query, hits) && Pick(text, i, table, query, Tokens(hits), 0) == Some(j)
    ensures Chosen(text, table, query, hits + [TakenAt(table, j, i)])
  {
    var hs := hits + [TakenAt(table, j, i)];
    assert hs[..|hits|] == hits;
    forall k | 0 <= k < |hs|
      ensures PickedAt(text, table, query, hs, k)
    {
      if k < |hits| {
        assert hs[k] == hits[k] && hs[..k] == hits[..k];
        assert PickedAt(text, table, query, hits, k);
      }
    }
  }

  /** The scan from `i` on keeps every hit the inner loop's pick, and
      passes over no offset where an entry could be taken. */
  lemma {:induction false} ScanThorough(text: string, table: AliasMap, query: Query, i: nat, hits: seq<Hit>)
    requires i <= |text| && Behind(hits, i)
    requires Chosen(text, table, query, hits) && Thorough(text, table, query, hits, i)
    ensures var r := Scan(text, table, query, i, hits);
      Chosen(text, table, query, r) && Thorough(text, table, query, r, |text|)
    decreases |text| - i, Unfound(table, query, Tokens(hits))
  {
    if i < |text| {
      if Skipped(text[i]) || Pick(text, i, table, query, Tokens(hits), 0).None? {
        ScanSkips(text, table, query, i, hits);
        ThoroughPass(text, table, query, hits, i);
        ScanThorough(text, table, query, i + 1, hits);
      } else {
        var j := Pick(text, i, table, query, Tokens(hits), 0).value;
        var h := TakenAt(table, j, i);
        ScanTakes(text, table, query, i, hits, j);
        TakeStep(text, table, query, i, hits, j);
        ScanThorough(text, table, query, i + |h.word|, hits + [h]);
      }
    }
  }

  /** Every hit ends at or before offset `i`. */
  ghost predicate Behind(hits: seq<Hit>, i: nat) {
    forall k :: 0 <= k < |hits| ==> hits[k].at + |hits[k].word| <= i
  }

  /** What taking the alias of entry `j` at `i` keeps. */
  lemma TakeStep(text: string, table: AliasMap, query: Query, i: nat, hits: seq<Hit>, j: nat)
    requires i < |text| && !Skipped(text[i]) && Pick(text, i, table, query, Tokens(hits), 0) == Some(j)
    requires Behind(hits, i)
    requires Chosen(text, table, query, hits) && Thorough(text, table, query, hits, i)
    ensures var h := TakenAt(table, j, i);
      && i + |h.word| <= |text|
      && Unfound(table, query, Tokens(hits + [h])) < Unfound(table, query, Tokens(hits))
      && Behind(hits + [h], i + |h.word|)
      && Chosen(text, table, query, hits + [h])
      && Thorough(text, table, query, hits + [h], i + |h.word|)
  {
    var h := TakenAt(table, j, i);
    UnfoundDrops(table, query, Tokens(hits), j);
    TokensAppend(hits, h);
    ChosenTake(text, table, query, hits, i, j);
    ThoroughTake(text, table, query, hits, i, j);
  }

  /** The whole scan: every hit is the entry the inner loop picks at its
      offset given the tokens found before it, and at every offset it looks
      at without finding anything, no entry of the table could be taken. */
  lemma ScanComplete(text: string, table: AliasMap, query: Query)
    ensures var hits := Scan(text, table, query, 0, []);
      && (forall k :: 0 <= k < |hits| ==> PickedAt(text, table, query, hits, k))
      && (forall p :: 0 <= p < |text| ==> PassedOver(text, table, query, hits, p))
  {
    ScanThorough(text, table, query, 0, []);
  }

  /** With the table sorted longest first, the alias taken at an offset is
      at least as long as any other eligible there. */
  lemma PickIsLongest(text: string, i: nat, table: AliasMap, query: Query, found: set<string>, e: (string, string))
    requires SortedBy(table, AliasRank) && Pick(text, i, table, query, found, 0).Some?
    requires e in table && Eligible(text, i, e, query, found)
    ensures Utf16Length(e.0) <= Utf16Length(table[Pick(text, i, table, query, found, 0).value].0)
  {
    var j := Pick(text, i, table, query, found, 0).value;
    var k :| 0 <= k < |table| && table[k] == e;
    PickFirst(text, i, table, query, found, 0);
    if k != j {
      assert RankLe(AliasRank(table[j]), AliasRank(table[k]));
    }
  }

  /** The `while` loop, with the assignment `args[token] = word` it makes
      for each hit. */
  method ScanText(text: string, table: AliasMap, query: Query) returns (hits: seq<Hit>, args: Obj)
    ensures hits == Scan(text, table, query, 0, [])
    ensures args == Fill(query, hits)
  {
    var i := 0;
    hits := [];
    args := query;
    while i < |text|
      invariant i <= |text|
      invariant Scan(text, table, query, 0, []) == Scan(text, table, query, i, hits)
      invariant args == Fill(query, hits)
      decreases |text| - i, Unfound(table, query, Tokens(hits))
    {
      if Skipped(text[i]) {
        ScanSkips(text, table, query, i, hits);
        i := i + 1;
        continue;
      }
      forall t | t !in Tokens(hits)
        ensures Get(args, t) == Get(query, t)
      {
        FillOthers(query, hits, t);
      }
      var p := PickAlias(text, i, table, query, args, hits);
      if p.Some? {
        var h := TakenAt(table, p.value, i);
        ScanTextTakes(text, table, query, i, hits, p.value);
        args := Put(args, h.token, Text(h.word));
        hits := hits + [h];
        // `startIdx += word.length - 1` and then `startIdx++`
        i := i + |h.word|;
      } else {
        ScanSkips(text, table, query, i, hits);
        i := i + 1;
      }
    }
  }

  /** What the loop of `ScanText` needs of a step that takes the alias of
      entry `j`. */
  lemma ScanTextTakes(text: string, table: AliasMap, query: Query, i: nat, hits: seq<Hit>, j: nat)
    requires i < |text| && !Skipped(text[i]) && Pick(text, i, table, query, Tokens(hits), 0) == Some(j)
    ensures i + |TakenAt(table, j, i).word| <= |text|
    ensures Scan(text, table, query, i, hits)
      == Scan(text, table, query, i + |TakenAt(table, j, i).word|, hits + [TakenAt(table, j, i)])
    ensures Fill(query, hits + [TakenAt(table, j, i)])
      == Put(Fill(query, hits), TakenAt(table, j, i).token, Text(TakenAt(table, j, i).word))
    ensures Unfound(table, query, Tokens(hits + [TakenAt(table, j, i)])) < Unfound(table, query, Tokens(hits))
  {
    var h := Hit(table[j].1, table[j].0, i);
    ScanTakes(text, table, query, i, hits, j);
    UnfoundDrops(table, query, Tokens(hits), j);
    TokensAppend(hits, h);
    assert (hits + [h])[..|hits|] == hits;
  }

  /** The inner `for` loop over the table, tested against the `args` object
      (which has the query's keys) and the tokens found so far. */
  method PickAlias(text: string, i: nat, table: AliasMap, query: Query, args: Obj, hits: seq<Hit>) returns (r: Option<nat>)
    requires forall t :: t !in Tokens(hits) ==> Get(args, t) == Get(query, t)
    ensures r == Pick(text, i, table, query, Tokens(hits), 0)
  {
    var found := Tokens(hits);
    for j := 0 to |table|
      invariant Pick(text, i, table, query, found, 0) == Pick(text, i, table, query, found, j)
    {
      var (word, token) := table[j];
      if HasKey(args, token) && token !in found && i + |word| <= |text| && text[i..i + |word|] == word {
        return Some(j);
      }
    }
    return None;
  }

  /** The slot values after the scan: each found token's slot holds its
      alias. */
  function Fill(query: Query, hits: seq<Hit>): Obj
    decreases |hits|
  {
    if hits == [] then query
    else Put(Fill(query, hits[..|hits| - 1]), hits[|hits| - 1].token, Text(hits[|hits| - 1].word))
  }

  /** After the scan, a slot whose token was not found keeps its
      default. */
  lemma {:induction false} FillOthers(query: Query, hits: seq<Hit>, t: string)
    requires t !in Tokens(hits)
    ensures Get(Fill(query, hits), t) == Get(query, t)
    decreases |hits|
  {
    if hits != [] {
      var init := hits[..|hits| - 1];
      FillOthers(query, init, t);
      GetPut(Fill(query, init), hits[|hits| - 1].token, Text(hits[|hits| - 1].word), t);
    }
  }

  /** After the scan, every found token's slot holds the alias found for
      it. */
  lemma {:induction false} FillFound(query: Query, hits: seq<Hit>, k: nat)
    requires DistinctBy(hits, TokenOf) && k < |hits|
    ensures Get(Fill(query, hits), hits[k].token) == Some(Text(hits[k].word))
    decreases |hits|
  {
    var init := hits[..|hits| - 1];
    var last := hits[|hits| - 1];
    GetPut(Fill(query, init), last.token, Text(last.word), hits[k].token);
    if k < |init| {
      assert init[k] == hits[k];
      assert DistinctBy(init, TokenOf) by {
        assert forall a :: 0 <= a < |init| ==> init[a] == hits[a];
      }
      assert TokenOf(hits[k]) != TokenOf(last);
      FillFound(query, init, k);
    }
  }

  // ---------------------------------------------------------------------
  // The date step (index.js:849-872)
  // ---------------------------------------------------------------------

  /** The slot the date step fills: `duration` or `datetime`. */
  function DateKey(c: Command): string
    requires c.Natural?
  {
    if c.useDuration then "duration" else "datetime"
  }

  /** Whether the collaborator finds a date in the text: both ends of a span
      (`from != null && to != null`), or a point in time (`parse != null`). */
  predicate DateFound(c: Command, lib: DateTimeLib, text: string)
    requires c.Natural?
  {
    if c.useDuration then
      var e := lib.extractDuration(text, c.filterIncludeEnding);
      e.0.Some? && e.1.Some?
    else lib.extract(text, c.filterIncludeEnding).0.Some?
  }

  /** The value found: `{ from, to }` or the point in time. */
  function DateValue(c: Command, lib: DateTimeLib, text: string): Value
    requires c.Natural? && DateFound(c, lib, text)
  {
    if c.useDuration then
      var e := lib.extractDuration(text, c.filterIncludeEnding);
      Span(e.0.value, e.1.value)
    else Time(lib.extract(text, c.filterIncludeEnding).0.value)
  }

  /** The text the collaborator returns with the date taken out. */
  function DateRest(c: Command, lib: DateTimeLib, text: string): string
    requires c.Natural?
  {
    if c.useDuration then lib.extractDuration(text, c.filterIncludeEnding).2
    else lib.extract(text, c.filterIncludeEnding).1
  }

  /** With date parsing on, the slot `duration` (or `datetime`) is added as
      `null` if the query lacks it, and filled with what the collaborator
      finds in the text, which then continues without it. */
  function DateStep(c: Command, lib: DateTimeLib, text: string, args: Obj): (r: (Obj, string))
    requires c.Natural?
    ensures !c.useDateParse ==> r == (args, text)
    ensures c.useDateParse ==> HasKey(r.0, DateKey(c))
    ensures c.useDateParse && DateFound(c, lib, text) ==>
      Get(r.0, DateKey(c)) == Some(DateValue(c, lib, text)) && r.1 == DateRest(c, lib, text)
    ensures c.useDateParse && !DateFound(c, lib, text) ==>
      r.1 == text
      && Get(r.0, DateKey(c)) == (if HasKey(args, DateKey(c)) then Get(args, DateKey(c)) else Some(Null))
  {
    if !c.useDateParse then (args, text)
    else if c.useDuration then
      var a := if HasKey(args, "duration") then args else Put(args, "duration", Null);
      GetPut(args, "duration", Null, "duration");
      match lib.extractDuration(text, c.filterIncludeEnding)
      case (Some(from), Some(to), rest) =>
        GetPut(a, "duration", Span(from, to), "duration");
        (Put(a, "duration", Span(from, to)), rest)
      case _ => (a, text)
    else
      var a := if HasKey(args, "datetime") then args else Put(args, "datetime", Null);
      GetPut(args, "datetime", Null, "datetime");
      match lib.extract(text, c.filterIncludeEnding)
      case (Some(m), rest) =>
        GetPut(a, "datetime", Time(m), "datetime");
        (Put(a, "datetime", Time(m)), rest)
      case _ => (a, text)
  }

  /** The date step changes no slot but its own. */
  lemma DateStepOthers(c: Command, lib: DateTimeLib, text: string, args: Obj, t: string)
    requires c.Natural? && (c.useDateParse ==> t != DateKey(c))
    ensures Get(DateStep(c, lib, text, args).0, t) == Get(args, t)
  {
    if c.useDateParse {
      var key := DateKey(c);
      var a := if HasKey(args, key) then args else Put(args, key, Null);
      GetPut(args, key, Null, t);
      if c.useDuration {
        match lib.extractDuration(text, c.filterIncludeEnding) {
          case (Some(from), Some(to), _) => GetPut(a, key, Span(from, to), t);
          case _ =>
        }
      } else {
        match lib.extract(text, c.filterIncludeEnding) {
          case (Some(m), _) => GetPut(a, key, Time(m), t);
          case _ =>
        }
      }
    }
  }

  // ---------------------------------------------------------------------
  // Filtered text, margin and completeness (index.js:874-897)
  // ---------------------------------------------------------------------

  /** `chat.filteredText.replace(word, '')` for each found alias in turn. */
  function RemoveAll(text: string, hits: seq<Hit>): string
    decreases |hits|
  {
    if hits == [] then text
    else RemoveFirst(RemoveAll(text, hits[..|hits| - 1]), hits[|hits| - 1].word)
  }

  /** Cutting out aliases only shortens the text. */
  lemma {:induction false} RemoveAllShortens(text: string, hits: seq<Hit>)
    ensures |RemoveAll(text, hits)| <= |text|
    decreases |hits|
  {
    if hits != [] {
      RemoveAllShortens(text, hits[..|hits| - 1]);
    }
  }

  /** `chat.filteredText.replace(/\s+/g, '').length > cmd.margin`: an
      undefined margin never rejects, and `null` compares as 0. */
  predicate OverMargin(margin: Option<int>, text: string) {
    margin.Some? && Utf16Length(StripWhitespace(text)) > margin.value
  }

  /** No slot is `null`. */
  predicate Complete(args: Obj) {
    forall k :: 0 <= k < |args| ==> !args[k].1.Null?
  }

  /** Every function-valued slot replaced by what calling it returns. */
  function Evaluate(args: Obj, invoke: nat -> Value): (r: Obj)
    ensures |r| == |args|
    ensures forall k :: 0 <= k < |args| ==> r[k].0 == args[k].0
    ensures forall k :: 0 <= k < |args| ==>
      r[k].1 == (if args[k].1.Supplier? then invoke(args[k].1.id) else args[k].1)
  {
    seq(|args|, k requires 0 <= k < |args| =>
      (args[k].0, if args[k].1.Supplier? then invoke(args[k].1.id) else args[k].1))
  }

  /** The loop `for (let key in args)`: it stops at the first `null` slot,
      and calls each function-valued one it passes. */
  method EvaluateSlots(args: Obj, invoke: nat -> Value) returns (full: bool, r: Obj)
    ensures full <==> Complete(args)
    ensures full ==> r == Evaluate(args, invoke)
  {
    r := args;
    for k := 0 to |args|
      invariant |r| == |args|
      invariant forall j :: 0 <= j < k ==> !args[j].1.Null?
      invariant forall j :: 0 <= j < |args| ==> r[j] == (if j < k then Evaluate(args, invoke)[j] else args[j])
    {
      if args[k].1.Null? {
        return false, r;
      } else if args[k].1.Supplier? {
        r := r[k := (args[k].0, invoke(args[k].1.id))];
      }
    }
    full := true;
  }

  // ---------------------------------------------------------------------
  // The whole natural path
  // ---------------------------------------------------------------------

  /** What trying a natural command leaves: the text written to
      `chat.filteredText`, and the arguments when the command matches. */
  datatype NaturalResult = NaturalResult(filtered: string, args: Option<Obj>)

  /** The steps of the natural path, up to the margin and completeness
      checks. */
  function Prepared(c: Command, message: string, lib: DateTimeLib): (Obj, string, seq<Hit>)
    requires c.Natural?
  {
    var text := CollapseWhitespace(message);
    var hits := Scan(text, c.table, c.query, 0, []);
    var (args, rest) := DateStep(c, lib, text, Fill(c.query, hits));
    (args, RemoveAll(rest, hits), hits)
  }

  function NaturalOutcome(c: Command, message: string, lib: DateTimeLib, invoke: nat -> Value): (r: NaturalResult)
    requires c.Natural?
    ensures r.filtered == Prepared(c, message, lib).1
    ensures r.args.Some? <==> !OverMargin(c.margin, r.filtered) && Complete(Prepared(c, message, lib).0)
    ensures r.args.Some? ==> r.args.value == Evaluate(Prepared(c, message, lib).0, invoke)
  {
    var (args, filtered, _) := Prepared(c, message, lib);
    if OverMargin(c.margin, filtered) || !Complete(args) then NaturalResult(filtered, None)
    else NaturalResult(filtered, Some(Evaluate(args, invoke)))
  }

  /** A slot whose default is `null`, whose token the scan did not find and
      which the date step does not fill, keeps the command from matching. */
  lemma RequiredSlotUnfilled(c: Command, message: string, lib: DateTimeLib, invoke: nat -> Value, t: string)
    requires c.Natural? && (c.useDateParse ==> t != DateKey(c))
    requires Get(c.query, t) == Some(Null)
    requires t !in Tokens(Scan(CollapseWhitespace(message), c.table, c.query, 0, []))
    ensures NaturalOutcome(c, message, lib, invoke).args.None?
  {
    var text := CollapseWhitespace(message);
    var hits := Scan(text, c.table, c.query, 0, []);
    ScanFinds(text, c.table, c.query);
    FillOthers(c.query, hits, t);
    DateStepOthers(c, lib, text, Fill(c.query, hits), t);
    var args := Prepared(c, message, lib).0;
    var i := Find(args, t).value;
    assert args[i].1 == Null;
  }

  /** When the command matches, each token found holds the alias found for
      it, unless it names the date slot. */
  lemma FoundTokensBound(c: Command, message: string, lib: DateTimeLib, invoke: nat -> Value)
    requires c.Natural?
    ensures var hits := Prepared(c, message, lib).2;
      NaturalOutcome(c, message, lib, invoke).args.Some? ==>
        forall k :: 0 <= k < |hits| && !(c.useDateParse && hits[k].token == DateKey(c)) ==>
          Get(NaturalOutcome(c, message, lib, invoke).args.value, hits[k].token) == Some(Text(hits[k].word))
  {
    var text := CollapseWhitespace(message);
    var hits := Scan(text, c.table, c.query, 0, []);
    ScanFinds(text, c.table, c.query);
    var r := NaturalOutcome(c, message, lib, invoke);
    if r.args.Some? {
      var args := Prepared(c, message, lib).0;
      forall k | 0 <= k < |hits| && !(c.useDateParse && hits[k].token == DateKey(c))
        ensures Get(r.args.value, hits[k].token) == Some(Text(hits[k].word))
      {
        FillFound(c.query, hits, k);
        DateStepOthers(c, lib, text, Fill(c.query, hits), hits[k].token);
        EvaluateGet(args, invoke, hits[k].token);
      }
    }
  }

  /** Reading a slot after the suppliers are called: a supplier's slot
      holds what calling it returned, and every other slot is unchanged. */
  lemma EvaluateGet(args: Obj, invoke: nat -> Value, t: string)
    ensures Get(Evaluate(args, invoke), t)
      == (match Get(args, t)
          case None => None
          case Some(v) => Some(if v.Supplier? then invoke(v.id) else v))
  {
    match Find(args, t) {
      case Some(i) => FindFirst(Evaluate(args, invoke), t, i);
      case None => FindNone(Evaluate(args, invoke), t);
    }
  }

  /** With date parsing on and a date found in the collapsed message, a
      match holds the date in its slot, and the filtered text is what the
      collaborator left with the aliases cut out. */
  lemma DateSlotFilled(c: Command, message: string, lib: DateTimeLib, invoke: nat -> Value)
    requires c.Natural? && c.useDateParse && DateFound(c, lib, CollapseWhitespace(message))
    ensures var r := NaturalOutcome(c, message, lib, invoke);
      var text := CollapseWhitespace(message);
      && r.filtered == RemoveAll(DateRest(c, lib, text), Prepared(c, message, lib).2)
      && (r.args.Some? ==> Get(r.args.value, DateKey(c)) == Some(DateValue(c, lib, text)))
  {
    EvaluateGet(Prepared(c, message, lib).0, invoke, DateKey(c));
  }

  /** With date parsing on, a query without the date slot and no date in
      the message, the slot stays `null` and the command does not match. */
  lemma DateSlotRequired(c: Command, message: string, lib: DateTimeLib, invoke: nat -> Value)
    requires c.Natural? && c.useDateParse && !HasKey(c.query, DateKey(c))
    requires !DateFound(c, lib, CollapseWhitespace(message))
    ensures NaturalOutcome(c, message, lib, invoke).args.None?
  {
    var text := CollapseWhitespace(message);
    var hits := Scan(text, c.table, c.query, 0, []);
    var key := DateKey(c);
    ScanFinds(text, c.table, c.query);
    TokensOf(hits, key);
    FillOthers(c.query, hits, key);
    var args := Prepared(c, message, lib).0;
    var i := Find(args, key).value;
    assert args[i].1 == Null;
  }

  /** Assigning the found aliases keeps an object's keys distinct. */
  lemma {:induction false} FillDistinct(query: Query, hits: seq<Hit>)
    requires DistinctBy(query, KeyOf)
    ensures DistinctBy(Fill(query, hits), KeyOf)
    decreases |hits|
  {
    if hits != [] {
      var init := hits[..|hits| - 1];
      FillDistinct(query, init);
      PutEntries(Fill(query, init), hits[|hits| - 1].token, Text(hits[|hits| - 1].word));
    }
  }

  /** In an object without repeated keys, the value at each position is
      the value of its key. */
  lemma GetAt(m: Obj, k: nat)
    requires DistinctBy(m, KeyOf) && k < |m|
    ensures Get(m, m[k].0) == Some(m[k].1)
  {
    forall j | 0 <= j < k
      ensures m[j].0 != m[k].0
    {
      assert KeyOf(m[j]) != KeyOf(m[k]);
    }
    FindFirst(m, m[k].0, k);
  }

  /** The converse of `RequiredSlotUnfilled` and `OverMarginRejects`:
      without date parsing, when every slot whose default is `null` was
      found and the text left is within the margin, the command matches. */
  lemma NaturalAccepts(c: Command, message: string, lib: DateTimeLib, invoke: nat -> Value)
    requires c.Natural? && !c.useDateParse && DistinctBy(c.query, KeyOf)
    requires !OverMargin(c.margin, Prepared(c, message, lib).1)
    requires forall t :: Get(c.query, t) == Some(Null) ==> t in Tokens(Prepared(c, message, lib).2)
    ensures NaturalOutcome(c, message, lib, invoke).args.Some?
  {
    var text := CollapseWhitespace(message);
    var hits := Scan(text, c.table, c.query, 0, []);
    ScanFinds(text, c.table, c.query);
    var args := Fill(c.query, hits);
    assert Prepared(c, message, lib).0 == args;
    FillDistinct(c.query, hits);
    forall k | 0 <= k < |args|
      ensures !args[k].1.Null?
    {
      var t := args[k].0;
      GetAt(args, k);
      if t in Tokens(hits) {
        TokensOf(hits, t);
        var j :| 0 <= j < |hits| && hits[j].token == t;
        FillFound(c.query, hits, j);
      } else {
        FillOthers(c.query, hits, t);
      }
    }
  }

  /** Too much text left over keeps the command from matching, whatever
      slots were found. */
  lemma OverMarginRejects(c: Command, message: string, lib: DateTimeLib, invoke: nat -> Value)
    requires c.Natural? && OverMargin(c.margin, Prepared(c, message, lib).1)
    ensures NaturalOutcome(c, message, lib, invoke).args.None?
  {
  }

  /** That path as the loops of `Registry.get` run it: the text written to
      `chat.filteredText` and the arguments, if the command matches. */
  method TryNatural(c: Command, message: string, lib: DateTimeLib, invoke: nat -> Value)
    returns (filtered: string, args: Option<Obj>)
    requires c.Natural?
    ensures NaturalResult(filtered, args) == NaturalOutcome(c, message, lib, invoke)
  {
    var text := CollapseWhitespace(message);
    var hits, slots := ScanText(text, c.table, c.query);
    var (slots', rest) := DateStep(c, lib, text, slots);
    filtered := rest;
    for k := 0 to |hits|
      invariant filtered == RemoveAll(rest, hits[..k])
    {
      assert hits[..k + 1][..k] == hits[..k];
      filtered := RemoveFirst(filtered, hits[k].word);
    }
    assert hits[..|hits|] == hits;
    if OverMargin(c.margin, filtered) {
      return filtered, None;
    }
    var full, evaluated := EvaluateSlots(slots', invoke);
    if !full {
      return filtered, None;
    }
    args := Some(evaluated);
  }
}
