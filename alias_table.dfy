/** The alias table of `NaturalCommand`'s constructor
    (global_modules/BotOperator/Command/index.js:506-513): the dictionary,
    token → aliases, is turned round into an object alias → token (a later
    token overwrites an earlier one for the same alias), whose entries are
    then sorted by descending alias length, so that the scanner tries a
    longer alias before a shorter one. */
module AliasTable {
  import opened Wrappers
  import opened JsText
  import opened Sorting
  import opened Entries

  /** The dictionary file: each token with its aliases, in the object's key
      order. */
  type Dictionary = seq<(string, seq<string>)>

  /** An object alias → token as its entries, in insertion order. */
  type AliasMap = seq<(string, string)>

  /** The inner loop's effect: every alias of one token put in turn. */
  function PutAll(m: AliasMap, aliases: seq<string>, tok: string): AliasMap
    decreases |aliases|
  {
    if aliases == [] then m
    else Put(PutAll(m, aliases[..|aliases| - 1], tok), aliases[|aliases| - 1], tok)
  }

  /** The object the nested loops leave. */
  function Flatten(dict: Dictionary): AliasMap
    decreases |dict|
  {
    if dict == [] then []
    else PutAll(Flatten(dict[..|dict| - 1]), dict[|dict| - 1].1, dict[|dict| - 1].0)
  }

  /** The last token, in dictionary order, that lists `alias`. */
  function LastToken(dict: Dictionary, alias: string): (r: Option<string>)
    ensures r.None? <==> forall k :: 0 <= k < |dict| ==> alias !in dict[k].1
    ensures r.Some? ==>
      exists k :: 0 <= k < |dict| && dict[k].0 == r.value && alias in dict[k].1
        && forall j :: k < j < |dict| ==> alias !in dict[j].1
    decreases |dict|
  {
    if dict == [] then None
    else if alias in dict[|dict| - 1].1 then Some(dict[|dict| - 1].0)
    else
      var r := LastToken(dict[..|dict| - 1], alias);
      assert forall k :: 0 <= k < |dict| - 1 ==> dict[..|dict| - 1][k] == dict[k];
      r
  }

  lemma {:induction false} PutAllEntries(m: AliasMap, aliases: seq<string>, tok: string)
    requires DistinctBy(m, KeyOf)
    ensures DistinctBy(PutAll(m, aliases, tok), KeyOf)
    ensures forall a, t :: (a, t) in PutAll(m, aliases, tok) <==>
      (a in aliases && t == tok) || (a !in aliases && (a, t) in m)
    decreases |aliases|
  {
    if aliases != [] {
      var init := aliases[..|aliases| - 1];
      PutAllEntries(m, init, tok);
      PutEntries(PutAll(m, init, tok), aliases[|aliases| - 1], tok);
      assert forall a :: a in aliases <==> a in init || a == aliases[|aliases| - 1] by {
        assert aliases == init + [aliases[|aliases| - 1]];
      }
    }
  }

  /** The object holds each alias of the dictionary once, with the last
      token that lists it. */
  lemma {:induction false} FlattenEntries(dict: Dictionary)
    ensures DistinctBy(Flatten(dict), KeyOf)
    ensures forall a, t :: (a, t) in Flatten(dict) <==> LastToken(dict, a) == Some(t)
    decreases |dict|
  {
    if dict != [] {
      var init := dict[..|dict| - 1];
      FlattenEntries(init);
      PutAllEntries(Flatten(init), dict[|dict| - 1].1, dict[|dict| - 1].0);
    }
  }

  /** The nested loops `for (let tok in dictionary) for (let alias of
      dictionary[tok]) this.map[alias] = tok`. */
  method BuildMap(dict: Dictionary) returns (m: AliasMap)
    ensures m == Flatten(dict)
  {
    m := [];
    for i := 0 to |dict|
      invariant m == Flatten(dict[..i])
    {
      var (tok, aliases) := dict[i];
      ghost var before := m;
      for j := 0 to |aliases|
        invariant m == PutAll(before, aliases[..j], tok)
      {
        assert aliases[..j + 1][..j] == aliases[..j];
        m := Put(m, aliases[j], tok);
      }
      assert aliases[..|aliases|] == aliases;
      assert dict[..i + 1][..i] == dict[..i];
    }
    assert dict[..|dict|] == dict;
  }

  /** The sort key of an entry: a longer alias (in UTF-16 units, as
      `.length` counts) first. */
  function AliasRank(e: (string, string)): Rank {
    Rank(0, 0 - Utf16Length(e.0) as int)
  }

  /** The comparator `(a, b) => b[0].length - a[0].length`: it puts `a`
      no later than `b` exactly when `a`'s key does not come after `b`'s. */
  function CompareAliases(a: (string, string), b: (string, string)): (c: int)
    ensures c <= 0 <==> RankLe(AliasRank(a), AliasRank(b))
    ensures c < 0 <==> !RankLe(AliasRank(b), AliasRank(a))
  {
    Utf16Length(b.0) - Utf16Length(a.0)
  }

  /** A table holds each alias of the dictionary once, mapped to the last
      token that lists it. */
  ghost predicate TableOf(dict: Dictionary, table: AliasMap) {
    DistinctBy(table, KeyOf)
    && forall a, t :: (a, t) in table <==> LastToken(dict, a) == Some(t)
  }

  /** `this.map` at the end of the constructor. */
  method BuildAliasTable(dict: Dictionary) returns (table: AliasMap)
    ensures TableOf(dict, table)
    ensures multiset(table) == multiset(Flatten(dict))
    ensures SortedBy(table, AliasRank)
  {
    var m := BuildMap(dict);
    table := Sort(m, AliasRank);
    FlattenEntries(dict);
    PermutationKeepsMembers(m, table);
    PermutationKeepsDistinct(m, table, KeyOf);
  }

  /** In a sorted table, an entry listed before another has an alias at
      least as long. */
  lemma LongerFirst(table: AliasMap, i: nat, j: nat)
    requires SortedBy(table, AliasRank) && i < j < |table|
    ensures Utf16Length(table[i].0) >= Utf16Length(table[j].0)
  {
    assert RankLe(AliasRank(table[i]), AliasRank(table[j]));
  }
}
