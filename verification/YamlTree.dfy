/** A YAML document as an ordered tree, and the JavaScript objects read from it. A map's keys
    are distinct, as YAML asks; printing and parsing the text are taken to be inverse. */
module YamlTree {
  import opened Text

  datatype Node =
    | Str(text: string) | Num(number: real) | Bool(flag: bool) | Null
    | Seq(items: seq<Node>) | Map(pairs: Pairs)

  type Pairs = seq<(string, Node)>

  predicate Has<T>(ps: seq<(string, T)>, key: string) { exists i :: 0 <= i < |ps| && ps[i].0 == key }

  lemma {:induction false} HasTail<T>(ps: seq<(string, T)>, key: string)
    ensures ps != [] ==> (Has(ps, key) <==> ps[0].0 == key || Has(ps[1..], key))
  {
    if ps != [] && Has(ps[1..], key) {
      var i :| 0 <= i < |ps[1..]| && ps[1..][i].0 == key;
      assert ps[i + 1].0 == key;
    }
    if ps != [] && Has(ps, key) && ps[0].0 != key {
      var i :| 0 <= i < |ps| && ps[i].0 == key;
      assert ps[1..][i - 1].0 == key;
    }
  }

  function Find(ps: Pairs, key: string): (r: Option<Node>)
    ensures r.Some? <==> Has(ps, key)
  {
    if ps == [] then None
    else if ps[0].0 == key then Some(ps[0].1)
    else
      HasTail(ps, key);
      Find(ps[1..], key)
  }

  /** YAMLMap.set: in place, or at the end. */
  function Put(ps: Pairs, key: string, v: Node): Pairs {
    if ps == [] then [(key, v)]
    else if ps[0].0 == key then [(key, v)] + ps[1..]
    else [ps[0]] + Put(ps[1..], key, v)
  }

  /** YAMLMap.delete. */
  function Drop(ps: Pairs, key: string): Pairs {
    if ps == [] then [] else (if ps[0].0 == key then [] else [ps[0]]) + Drop(ps[1..], key)
  }

  /** The map at a key, empty when there is none. */
  function MapAt(ps: Pairs, key: string): Pairs {
    var n := Find(ps, key);
    if n.Some? && n.value.Map? then n.value.pairs else []
  }

  predicate IsMapAt(ps: Pairs, key: string) { Find(ps, key).Some? && Find(ps, key).value.Map? }

  ghost predicate Unique(ps: Pairs) { forall i, j :: 0 <= i < j < |ps| ==> ps[i].0 != ps[j].0 }

  lemma {:induction false} FindCons(p: (string, Node), ps: Pairs, key: string)
    ensures Find([p] + ps, key) == if p.0 == key then Some(p.1) else Find(ps, key)
  {
    assert ([p] + ps)[1..] == ps;
  }

  lemma {:induction false} FindConcat(a: Pairs, b: Pairs, key: string)
    ensures Find(a + b, key) == if Has(a, key) then Find(a, key) else Find(b, key)
  {
    if a == [] {
      assert a + b == b;
    } else {
      assert a + b == [a[0]] + (a[1..] + b) && a == [a[0]] + a[1..];
      FindConcat(a[1..], b, key);
      FindCons(a[0], a[1..] + b, key);
      FindCons(a[0], a[1..], key);
      assert Find(a, key).Some? <==> Has(a, key);
      assert Find(a[1..], key).Some? <==> Has(a[1..], key);
    }
  }

  lemma {:induction false} FindPut(ps: Pairs, key: string, v: Node, k: string)
    ensures Find(Put(ps, key, v), k) == if k == key then Some(v) else Find(ps, k)
  {
    if ps != [] {
      FindPut(ps[1..], key, v, k);
      if ps[0].0 == key { FindCons((key, v), ps[1..], k); } else { FindCons(ps[0], Put(ps[1..], key, v), k); }
    }
  }

  lemma {:induction false} FindDrop(ps: Pairs, key: string, k: string)
    ensures Find(Drop(ps, key), k) == if k == key then None else Find(ps, k)
  {
    if ps != [] {
      FindDrop(ps[1..], key, k);
      if ps[0].0 != key {
        FindCons(ps[0], Drop(ps[1..], key), k);
      } else {
        assert [] + Drop(ps[1..], key) == Drop(ps[1..], key);
      }
    }
  }

  lemma {:induction false} PutNew(ps: Pairs, key: string, v: Node)
    requires !Has(ps, key)
    ensures Put(ps, key, v) == ps + [(key, v)]
  {
    if ps != [] {
      HasTail(ps, key);
      PutNew(ps[1..], key, v);
    }
  }

  /** Setting twice is setting last; setting what is there changes nothing. */
  lemma {:induction false} PutTwice(ps: Pairs, key: string, v: Node, w: Node)
    ensures Put(Put(ps, key, v), key, w) == Put(ps, key, w)
    ensures Find(ps, key) == Some(v) ==> Put(ps, key, v) == ps
  {
    if ps != [] {
      var tail := ps[1..];
      assert ps == [ps[0]] + tail;
      FindCons(ps[0], tail, key);
      PutTwice(tail, key, v, w);
      if ps[0].0 == key {
        assert ([(key, v)] + tail)[1..] == tail;
      } else {
        assert ([ps[0]] + Put(tail, key, v))[1..] == Put(tail, key, v);
      }
    }
  }

  lemma {:induction false} DropNothing(ps: Pairs, key: string)
    requires !Has(ps, key)
    ensures Drop(ps, key) == ps
  {
    if ps != [] {
      HasTail(ps, key);
      DropNothing(ps[1..], key);
    }
  }

  // ── JavaScript objects ──────────────────────────────────────────────────────

  /** Keys that are array indexes: they come first in an object, in increasing order. */
  predicate IndexLike(key: string) {
    && key != "" && (forall i :: 0 <= i < |key| ==> IsDigit(key[i]))
    && key == Decimal(Number(key)) && Number(key) < 4294967295
  }

  /** They are the decimal numbers below 2^32 - 1, without leading zeros. */
  lemma {:induction false} IndexesAre(key: string)
    ensures IndexLike(key) <==> exists n: nat :: n < 0x1_0000_0000 - 1 && key == Decimal(n)
  {
    if IndexLike(key) { assert key == Decimal(Number(key)); }
    if n: nat :| n < 0x1_0000_0000 - 1 && key == Decimal(n) { NumberOfDecimal(n); }
  }

  function Index(key: string): nat
    requires IndexLike(key)
  {
    Number(key)
  }

  function InsertIndex<T>(ps: seq<(string, T)>, key: string, v: T): seq<(string, T)>
    requires IndexLike(key)
  {
    if ps == [] || !IndexLike(ps[0].0) || Index(key) < Index(ps[0].0) then [(key, v)] + ps
    else [ps[0]] + InsertIndex(ps[1..], key, v)
  }

  function Replace<T>(ps: seq<(string, T)>, key: string, v: T): seq<(string, T)> {
    if ps == [] then [] else [if ps[0].0 == key then (key, v) else ps[0]] + Replace(ps[1..], key, v)
  }

  /** An object with one key more, or another value for it. */
  function JsSet<T>(ps: seq<(string, T)>, key: string, v: T): seq<(string, T)> {
    if Has(ps, key) then Replace(ps, key, v)
    else if IndexLike(key) then InsertIndex(ps, key, v)
    else ps + [(key, v)]
  }

  /** Object.fromEntries, then Object.entries. */
  function FromEntries<T>(ps: seq<(string, T)>): seq<(string, T)> {
    if ps == [] then [] else JsSet(FromEntries(ps[..|ps| - 1]), ps[|ps| - 1].0, ps[|ps| - 1].1)
  }

  /** A list an object keeps as it is: distinct keys, index-like ones first and increasing. */
  ghost predicate JsOrdered<T>(ps: seq<(string, T)>) {
    && (forall i, j :: 0 <= i < j < |ps| ==> ps[i].0 != ps[j].0)
    && (forall i, j :: 0 <= i < j < |ps| && IndexLike(ps[j].0) ==>
      IndexLike(ps[i].0) && Index(ps[i].0) < Index(ps[j].0))
  }

  lemma {:induction false} SameIndex(a: string, b: string)
    requires IndexLike(a) && IndexLike(b)
    ensures Index(a) == Index(b) ==> a == b
  {}

  lemma {:induction false} ReplaceKeys<T>(ps: seq<(string, T)>, key: string, v: T)
    ensures |Replace(ps, key, v)| == |ps| && forall i :: 0 <= i < |ps| ==>
      Replace(ps, key, v)[i] == if ps[i].0 == key then (key, v) else ps[i]
  {
    if ps != [] { ReplaceKeys(ps[1..], key, v); }
  }

  /** Where a new index-like key goes. */
  lemma {:induction false} InsertedAt<T>(ps: seq<(string, T)>, key: string, v: T) returns (i: nat)
    requires IndexLike(key)
    ensures i <= |ps| && InsertIndex(ps, key, v) == ps[..i] + [(key, v)] + ps[i..]
    ensures forall j :: 0 <= j < i ==> IndexLike(ps[j].0) && Index(ps[j].0) <= Index(key)
    ensures i < |ps| ==> !IndexLike(ps[i].0) || Index(key) < Index(ps[i].0)
  {
    hide IndexLike, Index;
    i := 0;
    if ps != [] && IndexLike(ps[0].0) && Index(ps[0].0) <= Index(key) {
      var k := InsertedAt(ps[1..], key, v);
      i := k + 1;
      assert ps[..i] == [ps[0]] + ps[1..][..k] && ps[i..] == ps[1..][k..];
      forall j | 0 <= j < i ensures IndexLike(ps[j].0)
        && Index(ps[j].0) <= Index(key) { if j > 0 { assert ps[j] == ps[1..][j - 1]; } }
    }
  }

  lemma {:induction false} InsertIndexOrdered<T>(ps: seq<(string, T)>, key: string, v: T)
    requires JsOrdered(ps) && IndexLike(key) && !Has(ps, key)
    ensures JsOrdered(InsertIndex(ps, key, v))
  {
    var i := InsertedAt(ps, key, v);
    forall j | 0 <= j < |ps| ensures ps[j].0 != key && (j < i ==> Index(ps[j].0) < Index(key))
      && (j >= i && IndexLike(ps[j].0) ==> Index(key) < Index(ps[j].0)) {
      if j < i { SameIndex(ps[j].0, key); }
    }
    hide IndexLike, Index, InsertIndex, Has;
    SpliceOrdered(ps, i, key, v);
  }

  lemma {:induction false} SpliceOrdered<T>(ps: seq<(string, T)>, i: nat, key: string, v: T)
    requires JsOrdered(ps) && IndexLike(key) && i <= |ps|
    requires forall j :: 0 <= j < |ps| ==> ps[j].0 != key
    requires forall j :: 0 <= j < i ==> IndexLike(ps[j].0) && Index(ps[j].0) < Index(key)
    requires forall j :: i <= j < |ps| && IndexLike(ps[j].0) ==> Index(key) < Index(ps[j].0)
    ensures JsOrdered(ps[..i] + [(key, v)] + ps[i..])
  {
    hide IndexLike, Index;
    var r := ps[..i] + [(key, v)] + ps[i..];
    assert forall j :: 0 <= j < |r| ==> r[j] == if j < i then ps[j] else if j == i then (key, v) else ps[j - 1];
  }

  lemma {:induction false} JsSetOrdered<T>(ps: seq<(string, T)>, key: string, v: T)
    requires JsOrdered(ps)
    ensures JsOrdered(JsSet(ps, key, v))
  {
    if Has(ps, key) {
      ReplaceKeys(ps, key, v);
      hide IndexLike, Index, Replace;
      var r := Replace(ps, key, v);
      assert forall i :: 0 <= i < |ps| ==> r[i].0 == ps[i].0;
    } else if IndexLike(key) {
      InsertIndexOrdered(ps, key, v);
    }
  }

  lemma {:induction false} FromEntriesOrdered<T>(ps: seq<(string, T)>)
    ensures JsOrdered(FromEntries(ps))
  {
    if ps != [] {
      FromEntriesOrdered(ps[..|ps| - 1]);
      JsSetOrdered(FromEntries(ps[..|ps| - 1]), ps[|ps| - 1].0, ps[|ps| - 1].1);
    }
  }

  lemma {:induction false} InsertLast<T>(ps: seq<(string, T)>, key: string, v: T)
    requires IndexLike(key) && forall i :: 0 <= i < |ps| ==> IndexLike(ps[i].0) && Index(ps[i].0) < Index(key)
    ensures InsertIndex(ps, key, v) == ps + [(key, v)]
  {
    if ps != [] {
      assert IndexLike(ps[0].0);
      InsertLast(ps[1..], key, v);
    }
  }

  /** An object keeps a list of entries exactly when it is in its order. */
  lemma {:induction false} KeptExactly<T>(ps: seq<(string, T)>)
    ensures FromEntries(ps) == ps <==> JsOrdered(ps)
  {
    FromEntriesOrdered(ps);
    if JsOrdered(ps) && ps != [] {
      var front, key, v := ps[..|ps| - 1], ps[|ps| - 1].0, ps[|ps| - 1].1;
      assert JsOrdered(front);
      KeptExactly(front);
      assert forall i :: 0 <= i < |front| ==> front[i] == ps[i];
      if IndexLike(key) {
        forall i | 0 <= i < |front| ensures IndexLike(front[i].0) && Index(front[i].0) < Index(key) {
          assert front[i] == ps[i];
        }
        InsertLast(front, key, v);
      }
      assert front + [(key, v)] == ps;
    }
  }

  lemma {:induction false} FindReplace(ps: Pairs, key: string, v: Node, k: string)
    requires Has(ps, key)
    ensures Find(Replace(ps, key, v), k) == if k == key then Some(v) else Find(ps, k)
    ensures Has(Replace(ps, key, v), k) <==> Has(ps, k)
  {
    var r := Replace(ps, key, v);
    assert r[1..] == Replace(ps[1..], key, v) && ps == [ps[0]] + ps[1..];
    HasTail(ps, key);
    if Has(ps[1..], key) {
      FindReplace(ps[1..], key, v, k);
    } else {
      ReplaceNothing(ps[1..], key, v);
    }
    assert Find(r, k).Some? <==> Has(r, k);
  }

  lemma {:induction false} ReplaceNothing(ps: Pairs, key: string, v: Node)
    requires !Has(ps, key)
    ensures Replace(ps, key, v) == ps
  {
    if ps != [] {
      HasTail(ps, key);
      ReplaceNothing(ps[1..], key, v);
    }
  }

  lemma {:induction false} FindJsSet(ps: Pairs, key: string, v: Node, k: string)
    ensures Find(JsSet(ps, key, v), k) == if k == key then Some(v) else Find(ps, k)
  {
    if Has(ps, key) {
      FindReplace(ps, key, v, k);
    } else if IndexLike(key) {
      var i := InsertedAt(ps, key, v);
      var a, b := ps[..i], ps[i..];
      assert ps == a + b;
      hide InsertIndex, IndexLike, Index, Find;
      FindConcat(a + [(key, v)], b, k);
      FindConcat(a, [(key, v)], k);
      FindConcat(a, b, k);
      OneFind((key, v), k);
      HasParts(a, b, key);
      HasParts(a, [(key, v)], k);
    } else {
      FindConcat(ps, [(key, v)], k);
      OneFind((key, v), k);
    }
  }

  lemma {:induction false} OneFind(p: (string, Node), k: string)
    ensures Find([p], k) == if p.0 == k then Some(p.1) else None
    ensures Has([p], k) <==> p.0 == k
  {
    FindCons(p, [], k);
    assert [p] + [] == [p];
  }

  lemma {:induction false} HasParts<T>(a: seq<(string, T)>, b: seq<(string, T)>, k: string)
    ensures Has(a + b, k) <==> Has(a, k) || Has(b, k)
  {
    if Has(a, k) {
      var i :| 0 <= i < |a| && a[i].0 == k;
      assert (a + b)[i].0 == k;
    }
    if Has(b, k) {
      var i :| 0 <= i < |b| && b[i].0 == k;
      assert (a + b)[|a| + i].0 == k;
    }
  }

  /** An object read from a map has the map's values. */
  lemma {:induction false} FindFromEntries(ps: Pairs, k: string)
    requires Unique(ps)
    ensures Find(FromEntries(ps), k) == Find(ps, k)
  {
    if ps != [] {
      var front, last := ps[..|ps| - 1], ps[|ps| - 1];
      assert ps == front + [last];
      FindFromEntries(front, k);
      FindJsSet(FromEntries(front), last.0, last.1, k);
      FindConcat(front, [last], k);
      OneFind(last, k);
      assert forall i :: 0 <= i < |front| ==> front[i] == ps[i];
      assert !Has(front, last.0);
    }
  }
}
