/** Closed lookup tables.
 *
 *  Every `map_*` function of the daemon is either a chain of exact comparisons
 *  (`if (strcmp(LIT, s) == 0) return CONST; ... return SENTINEL;`) or a `switch`
 *  with a `default` arm.  Both are a first-match walk over an ordered table of
 *  (key, value) rows that falls back to one value when no row matches; this
 *  module defines that walk once and proves what the tables rely on.
 */
module Tables {

  /** The keys of a table, in table order. */
  function Keys<K, V>(table: seq<(K, V)>): seq<K>
  {
    seq(|table|, i requires 0 <= i < |table| => table[i].0)
  }

  /** The values of a table, in table order. */
  function Values<K, V>(table: seq<(K, V)>): seq<V>
  {
    seq(|table|, i requires 0 <= i < |table| => table[i].1)
  }

  /** No two positions of `s` hold the same element. */
  predicate Distinct<T(==)>(s: seq<T>)
  {
    forall i, j :: 0 <= i < j < |s| ==> s[i] != s[j]
  }

  /** The rows with keys and values swapped: the table read backwards. */
  function Invert<K, V>(table: seq<(K, V)>): seq<(V, K)>
  {
    seq(|table|, i requires 0 <= i < |table| => (table[i].1, table[i].0))
  }

  /** First-match lookup: the value of the first row whose key is `key`, or
   *  `fallback` when there is none. */
  function Lookup<K(==), V>(table: seq<(K, V)>, key: K, fallback: V): V
  {
    if table == [] then fallback
    else if table[0].0 == key then table[0].1
    else Lookup(table[1..], key, fallback)
  }

  /** A key that no row lists gets the fallback. */
  lemma {:induction false} LookupUnlisted<K, V>(table: seq<(K, V)>, key: K, fallback: V)
    requires key !in Keys(table)
    ensures Lookup(table, key, fallback) == fallback
  {
    if table != [] {
      assert table[0].0 == Keys(table)[0];
      assert Keys(table[1..]) == Keys(table)[1..];
      LookupUnlisted(table[1..], key, fallback);
    }
  }

  /** The first row whose key matches decides the result. */
  lemma {:induction false} LookupFirstMatch<K, V>(table: seq<(K, V)>, i: nat, fallback: V)
    requires i < |table|
    requires forall j :: 0 <= j < i ==> table[j].0 != table[i].0
    ensures Lookup(table, table[i].0, fallback) == table[i].1
  {
    if i > 0 {
      assert table[1..][i - 1] == table[i];
      LookupFirstMatch(table[1..], i - 1, fallback);
    }
  }

  /** With pairwise distinct keys at most one row can match, so every listed
   *  key gets its own row's value whatever the order of the rows. */
  lemma LookupListed<K, V>(table: seq<(K, V)>, i: nat, fallback: V)
    requires i < |table|
    requires Distinct(Keys(table))
    ensures Lookup(table, table[i].0, fallback) == table[i].1
  {
    forall j | 0 <= j < i ensures table[j].0 != table[i].0 {
      assert Keys(table)[j] != Keys(table)[i];
    }
    LookupFirstMatch(table, i, fallback);
  }

  /** When the fallback is not a listed value, the lookup yields the fallback
   *  exactly for the keys that no row lists. */
  lemma {:induction false} FallbackIffUnlisted<K, V>(table: seq<(K, V)>, key: K, fallback: V)
    requires fallback !in Values(table)
    ensures Lookup(table, key, fallback) == fallback <==> key !in Keys(table)
  {
    if table != [] {
      assert Keys(table) == [table[0].0] + Keys(table[1..]);
      assert Values(table) == [table[0].1] + Values(table[1..]);
      FallbackIffUnlisted(table[1..], key, fallback);
    }
  }

  /** The result, when it is not the fallback, is the value of a row whose key
   *  is exactly the key looked up. */
  lemma {:induction false} LookupSound<K, V>(table: seq<(K, V)>, key: K, fallback: V)
    requires Lookup(table, key, fallback) != fallback
    ensures exists i :: 0 <= i < |table| && table[i] == (key, Lookup(table, key, fallback))
  {
    if table[0].0 != key {
      LookupSound(table[1..], key, fallback);
      var i :| 0 <= i < |table[1..]| && table[1..][i] == (key, Lookup(table, key, fallback));
      assert table[i + 1] == table[1..][i];
    }
  }

  /** Reading a table forwards and then backwards returns the key, for tables
   *  whose keys and values are both pairwise distinct. */
  lemma RoundTrip<K, V>(table: seq<(K, V)>, i: nat, fallback: V, back: K)
    requires i < |table|
    requires Distinct(Keys(table)) && Distinct(Values(table))
    ensures Lookup(Invert(table), Lookup(table, table[i].0, fallback), back) == table[i].0
  {
    LookupListed(table, i, fallback);
    InvertedKeys(table);
    LookupListed(Invert(table), i, back);
  }

  /** The keys of the inverted table are the values of the table. */
  lemma InvertedKeys<K, V>(table: seq<(K, V)>)
    ensures Keys(Invert(table)) == Values(table)
  {
    var ks, vs := Keys(Invert(table)), Values(table);
    assert |ks| == |vs|;
    forall j | 0 <= j < |ks| ensures ks[j] == vs[j] { }
  }

  /** Distinct keys with distinct values: different listed keys never share a
   *  value. */
  lemma LookupInjective<K, V>(table: seq<(K, V)>, i: nat, j: nat, fallback: V)
    requires i < |table| && j < |table| && i != j
    requires Distinct(Keys(table)) && Distinct(Values(table))
    ensures Lookup(table, table[i].0, fallback) != Lookup(table, table[j].0, fallback)
  {
    LookupListed(table, i, fallback);
    LookupListed(table, j, fallback);
    if i < j {
      assert Values(table)[i] != Values(table)[j];
    } else {
      assert Values(table)[j] != Values(table)[i];
    }
  }

  /** A closed table: its keys are pairwise distinct, its values are pairwise
   *  distinct, and the fallback is none of its values. */
  predicate Closed<K(==), V(==)>(table: seq<(K, V)>, fallback: V)
  {
    Distinct(Keys(table)) && Distinct(Values(table)) && fallback !in Values(table)
  }

  /** For a closed table the lookup is exact in both directions: the fallback
   *  comes back exactly for unlisted keys, and any other result names the key
   *  it came from (reading the table backwards recovers it). */
  lemma ExactMatch<K, V>(table: seq<(K, V)>, key: K, fallback: V, back: K)
    requires Closed(table, fallback)
    ensures Lookup(table, key, fallback) == fallback <==> key !in Keys(table)
    ensures Lookup(table, key, fallback) != fallback ==>
              Lookup(Invert(table), Lookup(table, key, fallback), back) == key
  {
    FallbackIffUnlisted(table, key, fallback);
    if key in Keys(table) {
      var i :| 0 <= i < |Keys(table)| && Keys(table)[i] == key;
      RoundTrip(table, i, fallback, back);
    }
  }

  /** No element of `a` occurs in `b`. */
  predicate Disjoint<T(==)>(a: seq<T>, b: seq<T>)
  {
    forall x :: x in a ==> x !in b
  }

  /** Two tables share no key and no value. */
  predicate Apart<K(==), V(==)>(t: seq<(K, V)>, u: seq<(K, V)>)
  {
    Disjoint(Keys(t), Keys(u)) && Disjoint(Values(t), Values(u))
  }

  /** Keys and values of a concatenation are the concatenations. */
  lemma KeysValuesConcat<K, V>(t: seq<(K, V)>, u: seq<(K, V)>)
    ensures Keys(t + u) == Keys(t) + Keys(u) && Values(t + u) == Values(t) + Values(u)
  {
  }

  /** Two duplicate-free sequences with nothing in common concatenate to a
   *  duplicate-free sequence. */
  lemma DistinctConcat<T>(a: seq<T>, b: seq<T>)
    requires Distinct(a) && Distinct(b) && Disjoint(a, b)
    ensures Distinct(a + b)
  {
    forall i, j | 0 <= i < j < |a + b| ensures (a + b)[i] != (a + b)[j] {
      if j >= |a| && i < |a| {
        assert (a + b)[i] in a;
      }
    }
  }

  /** A long table is closed when each of its blocks is and the blocks are
   *  apart: the large switch statements are proved closed block by block. */
  lemma ClosedConcat<K, V>(t: seq<(K, V)>, u: seq<(K, V)>, fallback: V)
    requires Closed(t, fallback) && Closed(u, fallback) && Apart(t, u)
    ensures Closed(t + u, fallback)
  {
    KeysValuesConcat(t, u);
    DistinctConcat(Keys(t), Keys(u));
    DistinctConcat(Values(t), Values(u));
  }

  /** Two blocks apart from a third are apart from it together. */
  lemma ApartConcat<K, V>(t: seq<(K, V)>, u: seq<(K, V)>, w: seq<(K, V)>)
    requires Apart(t, w) && Apart(u, w)
    ensures Apart(t + u, w)
  {
    KeysValuesConcat(t, u);
  }
}
