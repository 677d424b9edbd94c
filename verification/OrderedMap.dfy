/** Ordered maps from strings: entries in strictly increasing key order, which is also the
    order in which their values are handed out. */
module OrderedMap {
  import opened Text

  datatype Entry<+V> = Entry(key: string, value: V)

  ghost predicate Ordered<V>(m: seq<Entry<V>>) {
    forall i, j :: 0 <= i < j < |m| ==> Less(m[i].key, m[j].key)
  }

  ghost predicate HasKey<V>(m: seq<Entry<V>>, k: string) {
    exists i :: 0 <= i < |m| && m[i].key == k
  }

  /** `entry(k).or_insert(v)`: an existing entry wins. */
  function OrInsert<V>(m: seq<Entry<V>>, k: string, v: V): seq<Entry<V>> {
    if m == [] then [Entry(k, v)]
    else if k == m[0].key then m
    else if Less(k, m[0].key) then [Entry(k, v)] + m
    else [m[0]] + OrInsert(m[1..], k, v)
  }

  /** `insert(k, v)`: the new value wins. */
  function Insert<V>(m: seq<Entry<V>>, k: string, v: V): seq<Entry<V>> {
    if m == [] then [Entry(k, v)]
    else if k == m[0].key then [Entry(k, v)] + m[1..]
    else if Less(k, m[0].key) then [Entry(k, v)] + m
    else [m[0]] + Insert(m[1..], k, v)
  }

  function Values<V>(m: seq<Entry<V>>): seq<V> {
    seq(|m|, i requires 0 <= i < |m| => m[i].value)
  }

  lemma HasKeyUncons<V>(m: seq<Entry<V>>, k: string)
    requires m != []
    ensures HasKey(m, k) <==> m[0].key == k || HasKey(m[1..], k)
  {
    if HasKey(m[1..], k) {
      var i :| 0 <= i < |m[1..]| && m[1..][i].key == k;
      assert m[i + 1].key == k;
    }
    if HasKey(m, k) && m[0].key != k {
      var i :| 0 <= i < |m| && m[i].key == k;
      assert m[1..][i - 1].key == k;
    }
  }

  /** A smaller key goes in front. */
  lemma BelowAll<V>(m: seq<Entry<V>>, k: string, v: V)
    requires Ordered(m) && m != [] && Less(k, m[0].key)
    ensures Ordered([Entry(k, v)] + m) && !HasKey(m, k)
  {
    forall j | 0 <= j < |m|
      ensures Less(k, m[j].key) && k != m[j].key
    {
      if j > 0 {
        LessTransitive(k, m[0].key, m[j].key);
      }
      LessAsymmetric(k, m[j].key);
    }
  }

  /** A first entry stays first if all others come after it. */
  lemma OrderedCons<V>(e: Entry<V>, r: seq<Entry<V>>)
    requires Ordered(r) && forall i :: 0 <= i < |r| ==> Less(e.key, r[i].key)
    ensures Ordered([e] + r)
  {
  }

  lemma HeadBelowTail<V>(m: seq<Entry<V>>, x: Entry<V>)
    requires Ordered(m) && m != [] && x in m[1..]
    ensures Less(m[0].key, x.key)
  {
    var i :| 0 <= i < |m[1..]| && m[1..][i] == x;
    assert x == m[i + 1];
  }

  lemma HeadsOrTails<V>(m: seq<Entry<V>>)
    requires m != []
    ensures forall x :: x in m <==> x == m[0] || x in m[1..]
  {
    assert m == [m[0]] + m[1..];
  }

  /** Ordered, with the new entry unless the key was there, and everything that was there. */
  lemma {:induction false} OrInsertShape<V>(m: seq<Entry<V>>, k: string, v: V)
    requires Ordered(m)
    ensures Ordered(OrInsert(m, k, v))
    ensures forall i :: 0 <= i < |OrInsert(m, k, v)| ==>
              OrInsert(m, k, v)[i] in m || (OrInsert(m, k, v)[i] == Entry(k, v) && !HasKey(m, k))
    ensures forall e :: e in m || (e == Entry(k, v) && !HasKey(m, k)) ==> e in OrInsert(m, k, v)
  {
    if m != [] {
      HasKeyUncons(m, k);
      if k != m[0].key {
        LessTotal(k, m[0].key);
        if Less(k, m[0].key) {
          BelowAll(m, k, v);
        } else {
          OrInsertShape(m[1..], k, v);
          HeadStaysFirst(m, OrInsert(m[1..], k, v), Entry(k, v));
          HeadsOrTails(m);
        }
      }
    }
  }

  /** A larger entry goes somewhere behind the first one. */
  lemma HeadStaysFirst<V>(m: seq<Entry<V>>, r: seq<Entry<V>>, added: Entry<V>)
    requires Ordered(m) && m != [] && Less(m[0].key, added.key)
    requires Ordered(r) && forall i :: 0 <= i < |r| ==> r[i] == added || r[i] in m[1..]
    ensures Ordered([m[0]] + r)
  {
    forall i | 0 <= i < |r|
      ensures Less(m[0].key, r[i].key)
    {
      if r[i] != added {
        HeadBelowTail(m, r[i]);
      }
    }
    OrderedCons(m[0], r);
  }

  /** Ordered, with the new entry and everything under other keys. */
  lemma {:induction false} InsertShape<V>(m: seq<Entry<V>>, k: string, v: V)
    requires Ordered(m)
    ensures Ordered(Insert(m, k, v))
    ensures forall i :: 0 <= i < |Insert(m, k, v)| ==>
              Insert(m, k, v)[i] == Entry(k, v) || (Insert(m, k, v)[i] in m && Insert(m, k, v)[i].key != k)
    ensures forall e :: e == Entry(k, v) || (e in m && e.key != k) ==> e in Insert(m, k, v)
  {
    if m != [] {
      if k == m[0].key {
        InsertReplaces(m, k, v);
      } else {
        LessTotal(k, m[0].key);
        if Less(k, m[0].key) {
          BelowAll(m, k, v);
          NoKeyNoEntry(m, k);
        } else {
          InsertShape(m[1..], k, v);
          HeadStaysFirst(m, Insert(m[1..], k, v), Entry(k, v));
          HeadsOrTails(m);
        }
      }
    }
  }

  lemma NoKeyNoEntry<V>(m: seq<Entry<V>>, k: string)
    requires !HasKey(m, k)
    ensures forall e :: e in m ==> e.key != k
  {
  }

  lemma InsertReplaces<V>(m: seq<Entry<V>>, k: string, v: V)
    requires Ordered(m) && m != [] && k == m[0].key
    ensures var r := [Entry(k, v)] + m[1..];
            Ordered(r) && forall e :: e in r <==> e == Entry(k, v) || (e in m && e.key != k)
  {
    forall i | 0 <= i < |m[1..]|
      ensures Less(k, m[1..][i].key) && m[1..][i].key != k
    {
      HeadBelowTail(m, m[1..][i]);
      LessAsymmetric(k, m[1..][i].key);
    }
    OrderedCons(Entry(k, v), m[1..]);
    HeadsOrTails(m);
  }
}
