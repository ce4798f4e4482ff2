/** A JavaScript object used as a dictionary: string keys in insertion order. */
module Tables {
  import opened Results

  type Table<V> = seq<(string, V)>

  function Keys<V(==)>(t: Table<V>): set<string> {
    set i | 0 <= i < |t| :: t[i].0
  }

  predicate UniqueKeys<V(==)>(t: Table<V>) {
    forall i, j :: 0 <= i < j < |t| ==> t[i].0 != t[j].0
  }

  /** `obj[k]`: the value of the first entry with key `k`, or undefined. */
  function Get<V(==)>(t: Table<V>, k: string): (r: Option<V>)
    ensures r.Some? <==> k in Keys(t)
    ensures r.Some? ==> exists i :: 0 <= i < |t| && t[i] == (k, r.value)
  {
    if |t| == 0 then None
    else if t[0].0 == k then Some(t[0].1)
    else
      KeysOfTail(t);
      var r := Get(t[1..], k);
      if r.Some? then
        var i :| 0 <= i < |t[1..]| && t[1..][i] == (k, r.value);
        assert t[i + 1] == (k, r.value);
        r
      else r
  }

  lemma KeysOfTail<V>(t: Table<V>)
    requires |t| > 0
    ensures Keys(t) == {t[0].0} + Keys(t[1..])
  {
    forall x | x in Keys(t) ensures x in {t[0].0} + Keys(t[1..]) {
      var i :| 0 <= i < |t| && t[i].0 == x;
      if i > 0 { assert t[1..][i - 1].0 == x; }
    }
  }

  /** In a table with unique keys, looking up an entry's key finds that entry. */
  lemma {:induction false} GetUnique<V>(t: Table<V>, j: int)
    requires UniqueKeys(t)
    requires 0 <= j < |t|
    ensures Get(t, t[j].0) == Some(t[j].1)
  {
    if j > 0 {
      assert t[1..][j - 1] == t[j];
      GetUnique(t[1..], j - 1);
    }
  }

  /** r is t with the entries for key k rewritten in place: same keys at the same positions, every other entry untouched. */
  ghost predicate ReplacedInPlace<V>(t: Table<V>, r: Table<V>, k: string)
    requires |r| == |t|
  {
    forall i :: 0 <= i < |t| ==> r[i].0 == t[i].0 && (r[i].0 != k ==> r[i] == t[i])
  }

  /** `obj[k] = v`: an existing key keeps its position and takes the new value; a new key is appended. */
  function Put<V(==)>(t: Table<V>, k: string, v: V): (r: Table<V>)
    ensures Get(r, k) == Some(v)
    ensures Keys(r) == Keys(t) + {k}
    ensures k !in Keys(t) ==> r == t + [(k, v)]
    ensures k in Keys(t) ==> |r| == |t| && ReplacedInPlace(t, r, k)
  {
    if |t| == 0 then [(k, v)]
    else if t[0].0 == k then
      var r := [(k, v)] + t[1..];
      KeysOfTail(t);
      KeysOfTail(r);
      assert r[1..] == t[1..];
      r
    else
      var rest := Put(t[1..], k, v);
      PutBehindHead(t, k, v, rest);
      [t[0]] + rest
  }

  /** Keeping a head entry with another key in front of a written tail writes the whole table. */
  lemma PutBehindHead<V>(t: Table<V>, k: string, v: V, rest: Table<V>)
    requires |t| > 0 && t[0].0 != k
    requires Get(rest, k) == Some(v)
    requires Keys(rest) == Keys(t[1..]) + {k}
    requires k !in Keys(t[1..]) ==> rest == t[1..] + [(k, v)]
    requires k in Keys(t[1..]) ==> |rest| == |t| - 1 && ReplacedInPlace(t[1..], rest, k)
    ensures var r := [t[0]] + rest;
            && Get(r, k) == Some(v)
            && Keys(r) == Keys(t) + {k}
            && (k !in Keys(t) ==> r == t + [(k, v)])
            && (k in Keys(t) ==> |r| == |t| && ReplacedInPlace(t, r, k))
  {
    var r := [t[0]] + rest;
    KeysOfCons(t[0], rest);
    KeysOfCons(t[0], t[1..]);
    assert [t[0]] + t[1..] == t;
    if k in Keys(t) {
      ReplacedBehindHead(t, rest, k);
    }
  }

  /** The keys of a table with a head entry in front. */
  lemma KeysOfCons<V>(head: (string, V), rest: Table<V>)
    ensures Keys([head] + rest) == {head.0} + Keys(rest)
  {
    var r := [head] + rest;
    assert r[1..] == rest;
    KeysOfTail(r);
  }

  /** A tail rewritten in place behind an untouched head rewrites the whole table in place. */
  lemma ReplacedBehindHead<V>(t: Table<V>, rest: Table<V>, k: string)
    requires |t| > 0 && |rest| == |t| - 1 && ReplacedInPlace(t[1..], rest, k)
    ensures ReplacedInPlace(t, [t[0]] + rest, k)
  {
    var r := [t[0]] + rest;
    assert forall i :: 1 <= i < |t| ==> r[i] == rest[i - 1] && t[i] == t[1..][i - 1];
  }

  /** Writing one key leaves every other key's value as it was. */
  lemma {:induction false} PutKeepsOthers<V>(t: Table<V>, k: string, v: V, k': string)
    requires k' != k
    ensures Get(Put(t, k, v), k') == Get(t, k')
  {
    if |t| > 0 && t[0].0 != k {
      PutKeepsOthers(t[1..], k, v, k');
      assert Put(t, k, v)[1..] == Put(t[1..], k, v);
    } else if |t| > 0 {
      assert Put(t, k, v)[1..] == t[1..];
    }
  }

  /** Writing into a table whose keys are distinct keeps them distinct. */
  lemma PutKeepsUnique<V>(t: Table<V>, k: string, v: V)
    requires UniqueKeys(t)
    ensures UniqueKeys(Put(t, k, v))
  {
    var r := Put(t, k, v);
    if k in Keys(t) {
      assert ReplacedInPlace(t, r, k);
    } else {
      forall i, j | 0 <= i < j < |r| ensures r[i].0 != r[j].0 {
        if j == |t| {
          assert r[i] == t[i];
        } else {
          assert r[i] == t[i] && r[j] == t[j];
        }
      }
    }
  }

}
