/** Python `dict`s and JavaScript objects with string keys, as the application uses them:
    a sequence of (key, value) entries in insertion order. */
module Dicts {
  import opened Common

  type Dict<V> = seq<(string, V)>

  function Keys<V>(d: Dict<V>): (ks: seq<string>)
    ensures |ks| == |d|
    ensures forall i :: 0 <= i < |d| ==> ks[i] == d[i].0
  {
    if d == [] then [] else [d[0].0] + Keys(d[1..])
  }

  predicate DistinctKeys<V>(d: Dict<V>) {
    forall i, j :: 0 <= i < j < |d| ==> d[i].0 != d[j].0
  }

  /** `d[k]`, or None when k is absent. */
  function Get<V>(d: Dict<V>, k: string): (r: Option<V>)
    ensures r.None? <==> k !in Keys(d)
    ensures r.Some? ==> exists i :: 0 <= i < |d| && d[i] == (k, r.value)
  {
    if d == [] then None
    else if d[0].0 == k then Some(d[0].1)
    else Get(d[1..], k)
  }

  /** Python's `d[k] = v`: an existing key keeps its position and takes the new value;
      a new key goes to the end. */
  function Insert<V>(d: Dict<V>, k: string, v: V): (r: Dict<V>)
    ensures Keys(r) == if k in Keys(d) then Keys(d) else Keys(d) + [k]
  {
    if d == [] then [(k, v)]
    else if d[0].0 == k then [(k, v)] + d[1..]
    else [d[0]] + Insert(d[1..], k, v)
  }

  /** After `d[k] = v`, k maps to v and every other key keeps its value. */
  lemma {:induction false} InsertGet<V>(d: Dict<V>, k: string, v: V, k': string)
    ensures Get(Insert(d, k, v), k') == if k' == k then Some(v) else Get(d, k')
    decreases |d|
  {
    if d != [] && d[0].0 != k {
      InsertGet(d[1..], k, v, k');
      assert Insert(d, k, v)[1..] == Insert(d[1..], k, v);
    }
  }

  lemma {:induction false} InsertNewKey<V>(d: Dict<V>, k: string, v: V)
    requires k !in Keys(d)
    ensures Insert(d, k, v) == d + [(k, v)]
    decreases |d|
  {
    if d != [] {
      var rest := d[1..];
      assert Keys(d) == [d[0].0] + Keys(rest);
      assert d[0].0 != k && k !in Keys(rest);
      InsertNewKey(rest, k, v);
      assert Insert(d, k, v) == [d[0]] + (rest + [(k, v)]);
      assert [d[0]] + (rest + [(k, v)]) == ([d[0]] + rest) + [(k, v)];
      assert [d[0]] + rest == d;
    }
  }

  lemma InsertKeepsDistinct<V>(d: Dict<V>, k: string, v: V)
    requires DistinctKeys(d)
    ensures DistinctKeys(Insert(d, k, v))
  {
    var r := Insert(d, k, v);
    forall i, j | 0 <= i < j < |r| ensures r[i].0 != r[j].0 {
      assert Keys(r)[i] == r[i].0 && Keys(r)[j] == r[j].0;
    }
  }

  lemma KeysAppend<V>(d: Dict<V>, e: (string, V))
    ensures Keys(d + [e]) == Keys(d) + [e.0]
  {
  }

  /** `a` is `b` with some elements left out; the order of what remains is kept. */
  predicate IsSubsequence<T(==)>(a: seq<T>, b: seq<T>)
    decreases |b|
  {
    a == [] || (b != [] && if a[0] == b[0] then IsSubsequence(a[1..], b[1..]) else IsSubsequence(a, b[1..]))
  }

  lemma {:induction false} SubsequenceOfLonger<T>(a: seq<T>, b: seq<T>, x: T)
    requires IsSubsequence(a, b)
    ensures IsSubsequence(a, b + [x])
    decreases |b|
  {
    if a != [] {
      assert (b + [x])[0] == b[0] && (b + [x])[1..] == b[1..] + [x];
      if a[0] == b[0] {
        SubsequenceOfLonger(a[1..], b[1..], x);
      } else {
        SubsequenceOfLonger(a, b[1..], x);
      }
    }
  }

  lemma {:induction false} SubsequenceLastOf<T>(b: seq<T>, x: T)
    ensures IsSubsequence([x], b + [x])
    decreases |b|
  {
    if b != [] && b[0] != x {
      assert (b + [x])[1..] == b[1..] + [x];
      SubsequenceLastOf(b[1..], x);
    }
  }

  lemma {:induction false} SubsequenceExtend<T>(a: seq<T>, b: seq<T>, x: T)
    requires IsSubsequence(a, b)
    ensures IsSubsequence(a + [x], b + [x])
    decreases |b|
  {
    if a == [] {
      assert a + [x] == [x];
      SubsequenceLastOf(b, x);
    } else {
      assert (a + [x])[0] == a[0] && (a + [x])[1..] == a[1..] + [x];
      assert (b + [x])[0] == b[0] && (b + [x])[1..] == b[1..] + [x];
      if a[0] == b[0] {
        SubsequenceExtend(a[1..], b[1..], x);
      } else {
        SubsequenceExtend(a, b[1..], x);
      }
    }
  }

  /** With distinct keys, looking up an entry's key finds that entry. */
  lemma {:induction false} GetDistinct<V>(d: Dict<V>, i: nat)
    requires DistinctKeys(d) && i < |d|
    ensures Get(d, d[i].0) == Some(d[i].1)
    decreases |d|
  {
    if i > 0 {
      assert d[0].0 != d[i].0;
      assert d[1..][i - 1] == d[i];
      GetDistinct(d[1..], i - 1);
    }
  }

  lemma {:induction false} SubsequenceMember<T>(a: seq<T>, b: seq<T>, x: T)
    requires IsSubsequence(a, b) && x in a
    ensures x in b
    decreases |b|
  {
    if a[0] == b[0] {
      if x != a[0] {
        assert x in a[1..];
        SubsequenceMember(a[1..], b[1..], x);
      }
    } else {
      SubsequenceMember(a, b[1..], x);
    }
  }

  /** Leaving out the first element of `a` keeps it a subsequence. */
  lemma {:induction false} SubsequenceDropHead<T>(a: seq<T>, b: seq<T>)
    requires a != [] && IsSubsequence(a, b)
    ensures IsSubsequence(a[1..], b)
    decreases |b|, 1
  {
    if a[0] != b[0] {
      SubsequenceDropHead(a, b[1..]);
    }
    SubsequenceOfTail(a[1..], b);
  }

  /** A subsequence of `b[1..]` is one of `b`. */
  lemma {:induction false} SubsequenceOfTail<T>(a: seq<T>, b: seq<T>)
    requires b != [] && IsSubsequence(a, b[1..])
    ensures IsSubsequence(a, b)
    decreases |b|, 0
  {
    if a != [] && a[0] == b[0] {
      SubsequenceDropHead(a, b[1..]);
    }
  }

  lemma {:induction false} SubsequenceTrans<T>(a: seq<T>, b: seq<T>, c: seq<T>)
    requires IsSubsequence(a, b) && IsSubsequence(b, c)
    ensures IsSubsequence(a, c)
    decreases |c|
  {
    if a != [] {
      if b[0] == c[0] {
        if a[0] == b[0] {
          SubsequenceTrans(a[1..], b[1..], c[1..]);
        } else {
          SubsequenceTrans(a, b[1..], c[1..]);
        }
      } else {
        SubsequenceTrans(a, b, c[1..]);
        SubsequenceOfTail(a, c);
      }
    }
  }

  /** The dict `for k, v in entries: if v is kept: d[k] = v` builds from an empty one; the
      entries the loop skips carry None. */
  function InsertKept<V>(entries: seq<(string, Option<V>)>): Dict<V> {
    if entries == [] then []
    else
      var e := entries[|entries| - 1];
      var d := InsertKept(entries[..|entries| - 1]);
      if e.1.Some? then Insert(d, e.0, e.1.value) else d
  }

  lemma InsertKeptStep<V>(entries: seq<(string, Option<V>)>, i: nat)
    requires i < |entries|
    ensures InsertKept(entries[..i + 1]) ==
      if entries[i].1.Some? then Insert(InsertKept(entries[..i]), entries[i].0, entries[i].1.value)
      else InsertKept(entries[..i])
  {
    assert entries[..i + 1][..i] == entries[..i];
  }

  /** The keys appear in the order of the entries that put them there first. */
  lemma {:induction false} InsertKeptKeysInOrder<V>(entries: seq<(string, Option<V>)>)
    ensures IsSubsequence(Keys(InsertKept(entries)), Keys(entries))
    decreases |entries|
  {
    if entries != [] {
      var init, e := entries[..|entries| - 1], entries[|entries| - 1];
      InsertKeptKeysInOrder(init);
      assert entries == init + [e];
      KeysAppend(init, e);
      var d := InsertKept(init);
      if e.1.Some? && e.0 !in Keys(d) {
        SubsequenceExtend(Keys(d), Keys(init), e.0);
      } else {
        SubsequenceOfLonger(Keys(d), Keys(init), e.0);
      }
    }
  }

  /** A key is present exactly when some entry for it was kept. */
  lemma {:induction false} InsertKeptHasKey<V>(entries: seq<(string, Option<V>)>, k: string)
    ensures k in Keys(InsertKept(entries)) <==> exists i :: 0 <= i < |entries| && entries[i].0 == k && entries[i].1.Some?
    decreases |entries|
  {
    if entries != [] {
      var n := |entries| - 1;
      var init := entries[..n];
      InsertKeptHasKey(init, k);
      if exists i :: 0 <= i < |entries| && entries[i].0 == k && entries[i].1.Some? {
        var i :| 0 <= i < |entries| && entries[i].0 == k && entries[i].1.Some?;
        if i < n {
          assert init[i] == entries[i];
        }
      }
      forall i | 0 <= i < n ensures init[i] == entries[i] { }
    }
  }

  lemma {:induction false} InsertKeptDistinct<V>(entries: seq<(string, Option<V>)>)
    ensures DistinctKeys(InsertKept(entries))
    decreases |entries|
  {
    if entries != [] {
      var e := entries[|entries| - 1];
      InsertKeptDistinct(entries[..|entries| - 1]);
      if e.1.Some? {
        InsertKeepsDistinct(InsertKept(entries[..|entries| - 1]), e.0, e.1.value);
      }
    }
  }

  /** With distinct keys, entry i's key maps to its value when kept, and is absent otherwise. */
  lemma {:induction false} InsertKeptGet<V>(entries: seq<(string, Option<V>)>, i: nat)
    requires DistinctKeys(entries)
    requires i < |entries|
    ensures Get(InsertKept(entries), entries[i].0) == entries[i].1
    decreases |entries|
  {
    var n := |entries| - 1;
    var init, e := entries[..n], entries[n];
    var k := entries[i].0;
    var d := InsertKept(init);
    if i < n {
      assert init[i] == entries[i];
      InsertKeptGet(init, i);
      assert e.0 != k;
      if e.1.Some? {
        InsertGet(d, e.0, e.1.value, k);
      }
    } else {
      if e.1.None? {
        InsertKeptHasKey(init, k);
        assert k !in Keys(d);
      } else {
        InsertGet(d, e.0, e.1.value, k);
      }
    }
  }
}
