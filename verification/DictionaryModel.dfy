// The dictionary of src/lib/tdictionary.c as what a user sees: the pairs of key and value in
// ascending order of the keys.

module DictionaryModel {
  import opened Common
  import opened StringOrder

  datatype Pair<V> = Pair(key: string, value: V)

  ghost predicate Ascending<V>(s: seq<Pair<V>>) { forall i, j :: 0 <= i < j < |s| ==> Before(s[i].key, s[j].key) }

  predicate HasKey<V>(s: seq<Pair<V>>, key: string) { exists i :: 0 <= i < |s| && s[i].key == key }

  // The pairs with a new one in front of the first larger key.
  function Inserted<V>(s: seq<Pair<V>>, p: Pair<V>): seq<Pair<V>> {
    if s == [] || Before(p.key, s[0].key) then [p] + s else [s[0]] + Inserted(s[1..], p)
  }

  // The outcome of dictionary_add, on the pairs
  function Added<V>(s: seq<Pair<V>>, p: Pair<V>, memory: bool): (seq<Pair<V>>, int) {
    if HasKey(s, p.key) then (s, ERR_DUPLICATE)
    else if !memory then (s, ERR_NO_MEMORY)
    else (Inserted(s, p), ERR_SUCCESS)
  }

  lemma AscendingAround<V>(a: seq<Pair<V>>, p: Pair<V>, b: seq<Pair<V>>)
    requires Ascending(a) && Ascending(b)
    requires forall i :: 0 <= i < |a| ==> Before(a[i].key, p.key)
    requires forall i :: 0 <= i < |b| ==> Before(p.key, b[i].key)
    ensures Ascending(a + [p] + b)
  {
    var s := a + [p] + b;
    forall i, j | 0 <= i < j < |s| ensures Before(s[i].key, s[j].key) {
      if i < |a| < j { BeforeIsTransitive(a[i].key, p.key, b[j - |a| - 1].key); }
    }
  }

  lemma {:induction false} InsertedMembers<V>(s: seq<Pair<V>>, p: Pair<V>, q: Pair<V>)
    ensures q in Inserted(s, p) <==> q in s || q == p
  {
    if s != [] && !Before(p.key, s[0].key) {
      assert s == [s[0]] + s[1..];
      InsertedMembers(s[1..], p, q);
    }
  }

  lemma {:induction false} InsertedKeeps<V>(s: seq<Pair<V>>, p: Pair<V>)
    requires Ascending(s) && !HasKey(s, p.key)
    ensures Ascending(Inserted(s, p))
    ensures forall q :: q in Inserted(s, p) <==> q in s || q == p
  {
    forall q ensures q in Inserted(s, p) <==> q in s || q == p { InsertedMembers(s, p, q); }
    if s == [] {
    } else if Before(p.key, s[0].key) {
      forall j | 0 <= j < |s| ensures Before(p.key, s[j].key) {
        if j > 0 { BeforeIsTransitive(p.key, s[0].key, s[j].key); }
      }
    } else {
      var rest := s[1..];
      assert forall i :: 0 <= i < |rest| ==> rest[i] == s[i + 1];
      InsertedKeeps(rest, p);
      BeforeIsTotal(p.key, s[0].key);
      forall j | 0 <= j < |Inserted(rest, p)| ensures Before(s[0].key, Inserted(rest, p)[j].key) {
        var q := Inserted(rest, p)[j];
        InsertedMembers(rest, p, q);
        if q != p { var n :| 0 <= n < |rest| && rest[n] == q; }
      }
    }
  }

  // Inserting into the part in front of a larger key
  lemma {:induction false} InsertedFront<V>(a: seq<Pair<V>>, n: Pair<V>, b: seq<Pair<V>>, p: Pair<V>)
    requires Before(p.key, n.key)
    ensures Inserted(a + [n] + b, p) == Inserted(a, p) + [n] + b
  {
    var s := a + [n] + b;
    if a == [] {
      assert s[0] == n;
    } else if !Before(p.key, a[0].key) {
      assert s[0] == a[0] && s[1..] == a[1..] + [n] + b;
      InsertedFront(a[1..], n, b, p);
    }
  }

  // Inserting behind smaller keys
  lemma {:induction false} InsertedBack<V>(a: seq<Pair<V>>, b: seq<Pair<V>>, p: Pair<V>)
    requires forall i :: 0 <= i < |a| ==> !Before(p.key, a[i].key)
    ensures Inserted(a + b, p) == a + Inserted(b, p)
  {
    if a == [] {
      assert a + b == b;
    } else {
      assert (a + b)[0] == a[0] && (a + b)[1..] == a[1..] + b;
      InsertedBack(a[1..], b, p);
    }
  }

  // ---------------------------------------------------------------- any sequence of additions

  datatype Addition<V> = Addition(pair: Pair<V>, memory: bool)

  function AddAll<V>(s: seq<Pair<V>>, adds: seq<Addition<V>>): seq<Pair<V>>
    decreases |adds|
  {
    if adds == [] then s else AddAll(Added(s, adds[0].pair, adds[0].memory).0, adds[1..])
  }

  // The pair was added, for the first time with its key, at position i.
  ghost predicate FirstAdded<V>(adds: seq<Addition<V>>, p: Pair<V>, i: nat) {
    && i < |adds| && adds[i] == Addition(p, true)
    && forall j :: 0 <= j < i ==> adds[j].pair.key != p.key || !adds[j].memory
  }

  ghost predicate Wins<V>(adds: seq<Addition<V>>, p: Pair<V>) { exists i :: FirstAdded(adds, p, i) }

  lemma WinsStep<V>(adds: seq<Addition<V>>, p: Pair<V>)
    requires adds != []
    ensures Wins(adds, p) <==>
            adds[0] == Addition(p, true) || ((adds[0].pair.key != p.key || !adds[0].memory) && Wins(adds[1..], p))
  {
    var rest := adds[1..];
    if adds[0] == Addition(p, true) {
      assert FirstAdded(adds, p, 0);
    } else if Wins(adds, p) {
      var i: nat :| FirstAdded(adds, p, i);
      assert FirstAdded(rest, p, i - 1);
    }
    if (adds[0].pair.key != p.key || !adds[0].memory) && Wins(rest, p) {
      var i: nat :| FirstAdded(rest, p, i);
      forall j | 0 <= j < i + 1 ensures adds[j].pair.key != p.key || !adds[j].memory {
        if j > 0 { assert rest[j - 1] == adds[j]; }
      }
      assert FirstAdded(adds, p, i + 1);
    }
  }

  // After any sequence of additions the keys are strictly ascending, and the pairs are the old
  // ones and, for each new key, the first one for which there was memory.
  lemma {:induction false} AddAllIs<V>(s: seq<Pair<V>>, adds: seq<Addition<V>>)
    requires Ascending(s)
    ensures Ascending(AddAll(s, adds))
    ensures forall p :: p in AddAll(s, adds) <==> p in s || (!HasKey(s, p.key) && Wins(adds, p))
    decreases |adds|
  {
    if adds != [] {
      var a := adds[0].pair;
      var s' := Added(s, a, adds[0].memory).0;
      if !HasKey(s, a.key) { InsertedKeeps(s, a); }
      AddAllIs(s', adds[1..]);
      forall p ensures p in AddAll(s, adds) <==> p in s || (!HasKey(s, p.key) && Wins(adds, p)) {
        WinsStep(adds, p);
        AddKeys(s, adds[0], p.key);
        if p in s {
          var i :| 0 <= i < |s| && s[i] == p;
          assert HasKey(s, p.key);
        }
      }
    }
  }

  lemma AddKeys<V>(s: seq<Pair<V>>, a: Addition<V>, key: string)
    requires Ascending(s)
    ensures HasKey(Added(s, a.pair, a.memory).0, key) <==> HasKey(s, key) || (a.memory && a.pair.key == key)
  {
    if !HasKey(s, a.pair.key) && a.memory {
      InsertedKeeps(s, a.pair);
      var s' := Inserted(s, a.pair);
      if HasKey(s, key) {
        var i :| 0 <= i < |s| && s[i].key == key;
        assert s[i] in s';
      }
      assert a.pair in s';
      if HasKey(s', key) {
        var i :| 0 <= i < |s'| && s'[i].key == key;
        assert s'[i] in s';
      }
    }
  }
}
