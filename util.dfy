/** Small helpers the tracker gets from Python itself: dictionary lookup on an
    association list, and `str.lower()` on ASCII text. */
module Util {

  datatype Option<T> = None | Some(value: T)

  /** A dictionary's keys are pairwise distinct. */
  predicate DistinctKeys<K(==), V>(entries: seq<(K, V)>)
  {
    forall i, j :: 0 <= i < j < |entries| ==> entries[i].0 != entries[j].0
  }

  /** `d.get(key)`: the value of the first entry with that key, if any. */
  function Lookup<K(==), V>(entries: seq<(K, V)>, key: K): (r: Option<V>)
    ensures r.None? <==> forall i :: 0 <= i < |entries| ==> entries[i].0 != key
    ensures r.Some? ==> exists i :: 0 <= i < |entries| && entries[i] == (key, r.value)
  {
    if entries == [] then None
    else if entries[0].0 == key then Some(entries[0].1)
    else
      var rest := Lookup(entries[1..], key);
      assert forall i :: 0 <= i < |entries| - 1 ==> entries[1..][i] == entries[i + 1];
      rest
  }

  /** In a dictionary the entry at position i is what a lookup of its key finds. */
  lemma {:induction false} LookupAt<K, V>(entries: seq<(K, V)>, i: nat)
    requires DistinctKeys(entries) && i < |entries|
    ensures Lookup(entries, entries[i].0) == Some(entries[i].1)
  {
    if i > 0 {
      assert entries[0].0 != entries[i].0;
      LookupAt(entries[1..], i - 1);
    }
  }

  /** `c.lower()` on the ASCII letters: upper-case letters are mapped to lower
      case, every other character is kept. */
  function LowerChar(c: char): (r: char)
    ensures 'A' <= c <= 'Z' ==> r as int == c as int + 32
    ensures !('A' <= c <= 'Z') ==> r == c
    ensures !('A' <= r <= 'Z')
  {
    if 'A' <= c <= 'Z' then (c as int + 32) as char else c
  }

  /** `s.lower()` on ASCII text. */
  function Lower(s: string): (r: string)
    ensures |r| == |s|
  {
    if s == [] then [] else [LowerChar(s[0])] + Lower(s[1..])
  }

  /** Lowering is character-wise, and lowering twice changes nothing more. */
  lemma {:induction false} LowerSpec(s: string)
    ensures forall i :: 0 <= i < |s| ==> Lower(s)[i] == LowerChar(s[i])
    ensures Lower(Lower(s)) == Lower(s)
  {
    if s != [] {
      LowerSpec(s[1..]);
      assert Lower(s) == [LowerChar(s[0])] + Lower(s[1..]);
      assert Lower(Lower(s)) == [LowerChar(LowerChar(s[0]))] + Lower(Lower(s[1..]));
    }
  }

  /** Text without upper-case letters is its own lower case. */
  lemma {:induction false} LowerKeepsLowerCase(s: string)
    requires forall i :: 0 <= i < |s| ==> !('A' <= s[i] <= 'Z')
    ensures Lower(s) == s
  {
    if s != [] {
      LowerKeepsLowerCase(s[1..]);
      assert s == [s[0]] + s[1..];
    }
  }
}
