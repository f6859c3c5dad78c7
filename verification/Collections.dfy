/** The members of a sequence, and facts about the values of a map, that several modules share. */
module Collections {

  ghost function Members<T>(s: seq<T>): set<T> {
    set x | x in s
  }

  ghost predicate NoRepeats<T>(s: seq<T>) {
    forall i, j :: 0 <= i < j < |s| ==> s[i] != s[j]
  }

  lemma ValuesAfterInsert<K, V>(m: map<K, V>, k: K, v: V)
    requires k !in m
    ensures m[k := v].Values == m.Values + {v}
  {
    var n := m[k := v];
    assert n[k] == v;
    forall x | x in m.Values
      ensures x in n.Values
    {
      var j :| j in m && m[j] == x;
      assert n[j] == x;
    }
  }

  lemma ValuesAfterRemove<K, V>(m: map<K, V>, k: K)
    requires k in m
    requires forall j :: j in m && j != k ==> m[j] != m[k]
    ensures (m - {k}).Values == m.Values - {m[k]}
  {
    var n := m - {k};
    forall x | x in m.Values - {m[k]}
      ensures x in n.Values
    {
      var j :| j in m && m[j] == x;
      assert n[j] == x;
    }
  }

  lemma UpdateTwice<K, V>(m: map<K, V>, k: K, v: V, w: V)
    ensures m[k := v][k := w] == m[k := w]
    ensures k in m ==> m[k := m[k]] == m
  {
  }

  lemma Regroup<T>(a: seq<T>, b: seq<T>, c: seq<T>)
    ensures a + b + c == a + (b + c) && [] + c == c && c + [] == c
  {
  }
}
