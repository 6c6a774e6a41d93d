/** The two kinds of knowledge-table lookup the code uses: an exact hit on a dict key, and a
    case-insensitive search for the first table key that occurs inside a test name. Tables are
    sequences of (key, value) pairs in the dict's declaration order. */
module Lookup {
  import opened Text

  /** `key.lower() in name.lower()`. */
  predicate Matches(key: string, name: string) {
    IsInfix(Lower(key), Lower(name))
  }

  /** Index of the first entry whose key matches `name` (the `for key, value in table.items():
      if key.lower() in name.lower(): return ...` loop); None when no key matches. */
  function FirstMatch<V>(table: seq<(string, V)>, name: string): (r: Option<nat>)
    ensures r.Some? ==> r.value < |table| && Matches(table[r.value].0, name)
    ensures r.Some? ==> forall j :: 0 <= j < r.value ==> !Matches(table[j].0, name)
    ensures r.None? <==> forall j :: 0 <= j < |table| ==> !Matches(table[j].0, name)
  {
    if |table| == 0 then None
    else if Matches(table[0].0, name) then Some(0)
    else match FirstMatch(table[1..], name)
      case None => None
      case Some(k) => Some(k + 1)
  }

  /** The value of the first matching entry, or `default`. */
  function FirstMatchOr<V>(table: seq<(string, V)>, name: string, default: V): (r: V)
    ensures NoMatch(table, name) ==> r == default
    ensures forall j: nat :: FirstMatchIs(table, name, j) ==> r == table[j].1
    ensures (forall j :: 0 <= j < |table| ==> !Matches(table[j].0, name)) ==> r == default
    ensures (exists j :: 0 <= j < |table| && Matches(table[j].0, name)) ==>
      exists j :: 0 <= j < |table| && Matches(table[j].0, name) && r == table[j].1 &&
        forall i :: 0 <= i < j ==> !Matches(table[i].0, name)
  {
    match FirstMatch(table, name)
    case Some(k) => table[k].1
    case None => default
  }

  /** Entry `j` is the first whose key matches `name`. */
  predicate FirstMatchIs<V>(table: seq<(string, V)>, name: string, j: nat) {
    j < |table| && Matches(table[j].0, name) && forall i :: 0 <= i < j ==> !Matches(table[i].0, name)
  }

  /** No key of the table matches `name`. */
  predicate NoMatch<V>(table: seq<(string, V)>, name: string) {
    forall j :: 0 <= j < |table| ==> !Matches(table[j].0, name)
  }

  /** At most one entry is the first match, and it is the one `FirstMatch` finds. */
  lemma FirstMatchUnique<V>(table: seq<(string, V)>, name: string, j: nat)
    requires FirstMatchIs(table, name, j)
    ensures FirstMatch(table, name) == Some(j)
  {
  }

  /** No key is listed twice, as in the dictionary literal the table is written from. */
  predicate DistinctKeys<V>(table: seq<(string, V)>) {
    forall i, j :: 0 <= i < j < |table| ==> table[i].0 != table[j].0
  }

  /** Two first matches are the same entry. */
  lemma FirstMatchOnce<V>(table: seq<(string, V)>, name: string, j: nat, k: nat)
    requires FirstMatchIs(table, name, j) && FirstMatchIs(table, name, k)
    ensures j == k
  {
  }

  /** The value of the first matching entry, or None. */
  function FirstMatchValue<V>(table: seq<(string, V)>, name: string): (r: Option<V>)
    ensures r.None? <==> NoMatch(table, name)
    ensures forall j: nat :: FirstMatchIs(table, name, j) ==> r == Some(table[j].1)
    ensures r.Some? ==> exists j :: 0 <= j < |table| && r.value == table[j].1
  {
    match FirstMatch(table, name)
    case Some(k) => Some(table[k].1)
    case None => None
  }

  /** Index of the entry whose key is exactly `key` (`key in dict`); None when absent. */
  function ExactFind<V>(table: seq<(string, V)>, key: string): (r: Option<nat>)
    ensures r.Some? ==> r.value < |table| && table[r.value].0 == key
    ensures r.Some? ==> forall j :: 0 <= j < r.value ==> table[j].0 != key
    ensures r.None? <==> forall j :: 0 <= j < |table| ==> table[j].0 != key
  {
    if |table| == 0 then None
    else if table[0].0 == key then Some(0)
    else match ExactFind(table[1..], key)
      case None => None
      case Some(k) => Some(k + 1)
  }

  /** A key that occurs, case-insensitively, inside the name is matched. */
  lemma MatchesAt(key: string, name: string, i: nat)
    requires OccursAt(Lower(key), Lower(name), i)
    ensures Matches(key, name)
  {
  }

  /** A key with a letter that the lower-cased name lacks does not match. */
  lemma NotMatchesMissing(key: string, name: string, k: nat)
    requires k < |key| && LowerChar(key[k]) !in Lower(name)
    ensures !Matches(key, name)
  {
    NotInfixMissingChar(Lower(key), Lower(name), k);
  }
}
