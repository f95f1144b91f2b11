/** The dictionary ordered by last update (Server/ConcurrentDictionaryStack.cs): a map to the nodes
    of a doubly linked list. Each operation runs under a lock, so it is one step here. */
module DictionaryStack {
  import opened Wrappers

  class Node<V> {
    var next: Node?<V>
    var prec: Node?<V>
    var value: V

    constructor (v: V)
      ensures next == null && prec == null && value == v
    {
      next, prec, value := null, null, v;
    }
  }

  // ---------- ordered sequences of entries ----------

  datatype Entry<K, V> = Entry(key: K, value: V)

  /** The place of a key, or the length if it has none. */
  function Find<K(==), V>(es: seq<Entry<K, V>>, k: K): (i: nat)
    ensures i <= |es|
    ensures i < |es| ==> es[i].key == k
    ensures forall j :: 0 <= j < i ==> es[j].key != k
  {
    if es == [] then 0 else if es[0].key == k then 0 else
      var i := Find(es[1..], k);
      assert forall j :: 1 <= j < i + 1 ==> es[j] == es[1..][j - 1];
      i + 1
  }

  /** A sequence without its element at i, unchanged when i is past the end. */
  function Drop<T>(s: seq<T>, i: nat): (r: seq<T>)
    ensures |r| == if i < |s| then |s| - 1 else |s|
    ensures forall j :: 0 <= j < |r| && j < i ==> r[j] == s[j]
    ensures forall j :: i <= j < |r| ==> r[j] == s[j + 1]
  {
    if i < |s| then s[..i] + s[i + 1..] else s
  }

  function Without<K(==), V>(es: seq<Entry<K, V>>, k: K): seq<Entry<K, V>> {
    Drop(es, Find(es, k))
  }

  function ValueAfter<K(==), V>(es: seq<Entry<K, V>>, k: K, v: V, updater: (V, V) -> V): V {
    var i := Find(es, k);
    if i < |es| then updater(es[i].value, v) else v
  }

  function Lookup<K(==), V>(es: seq<Entry<K, V>>, k: K): Option<V> {
    var i := Find(es, k);
    if i < |es| then Some(es[i].value) else None
  }

  /** Every value is stored under the key it has. */
  ghost predicate Keyed<K, V>(es: seq<Entry<K, V>>, keyOf: V -> K) {
    forall i :: 0 <= i < |es| ==> keyOf(es[i].value) == es[i].key
  }

  /** The entries after an upsert: the key comes last, with its old value updated or a new one. */
  function Upserted<K(==), V>(es: seq<Entry<K, V>>, k: K, v: V, updater: (V, V) -> V): seq<Entry<K, V>> {
    Without(es, k) + [Entry(k, ValueAfter(es, k, v, updater))]
  }

  lemma FindIs<K, V>(es: seq<Entry<K, V>>, i: nat)
    requires i < |es| && forall j :: 0 <= j < i ==> es[j].key != es[i].key
    ensures Find(es, es[i].key) == i
  {
    var f := Find(es, es[i].key);
  }

  lemma FindUnique<K, V>(es: seq<Entry<K, V>>, i: nat)
    requires i < |es| && forall j :: 0 <= j < |es| && j != i ==> es[j].key != es[i].key
    ensures Find(es, es[i].key) == i
  {
    FindIs(es, i);
  }

  lemma FindIn<K, V>(es: seq<Entry<K, V>>, k: K, i: nat)
    requires i < |es| && es[i].key == k
    ensures Find(es, k) <= i
  {
  }

  /** Keys are stored once. */
  ghost predicate Distinct<K, V>(es: seq<Entry<K, V>>) {
    forall i, j :: 0 <= i < j < |es| ==> es[i].key != es[j].key
  }

  /** Every entry but those of the key is still there, in the same order. */
  lemma WithoutKeeps<K, V>(es: seq<Entry<K, V>>, k: K)
    requires Distinct(es)
    ensures var r := Without(es, k);
            forall i :: 0 <= i < |r| ==> r[i].key != k && r[i] == es[if i < Find(es, k) then i else i + 1]
  {
  }

  /** The place of a key that is stored once. */
  lemma FindOnly<K, V>(es: seq<Entry<K, V>>, k: K, i: nat)
    requires Distinct(es) && i < |es| && es[i].key == k
    ensures Find(es, k) == i && Lookup(es, k) == Some(es[i].value)
  {
    FindIn(es, k, i);
  }

  lemma FindNone<K, V>(es: seq<Entry<K, V>>, k: K)
    requires forall i :: 0 <= i < |es| ==> es[i].key != k
    ensures Lookup(es, k) == None
  {
  }

  lemma WithoutDistinct<K, V>(es: seq<Entry<K, V>>, k: K)
    requires Distinct(es)
    ensures Distinct(Without(es, k))
  {
    hide Find;
  }

  lemma {:induction false} WithoutKey<K, V>(es: seq<Entry<K, V>>, k: K, x: K)
    requires Distinct(es)
    ensures Distinct(Without(es, k))
    ensures Lookup(Without(es, k), x) == if x == k then None else Lookup(es, x)
  {
    hide Find, Lookup;
    var i, r, f := Find(es, k), Without(es, k), Find(es, x);
    WithoutDistinct(es, k);
    WithoutKeeps(es, k);
    if x == k {
      FindNone(r, x);
    } else if f < |es| {
      FindOnly(es, x, f);
      FindOnly(r, x, if f < i then f else f - 1);
    } else {
      FindNone(es, x);
      FindNone(r, x);
    }
  }

  lemma UpsertedKey<K, V>(es: seq<Entry<K, V>>, k: K, v: V, updater: (V, V) -> V, x: K)
    requires Distinct(es)
    ensures Distinct(Upserted(es, k, v, updater))
    ensures Lookup(Upserted(es, k, v, updater), x) == if x == k then Some(ValueAfter(es, k, v, updater))
            else Lookup(es, x)
  {
    hide Find, Lookup, Without, ValueAfter;
    var r, u := Without(es, k), Upserted(es, k, v, updater);
    WithoutKey(es, k, x);
    WithoutKeeps(es, k);
    assert u[|r|].key == k && forall i :: 0 <= i < |r| ==> u[i] == r[i];
    if x == k {
      FindOnly(u, x, |r|);
    } else if Find(r, x) < |r| {
      FindOnly(r, x, Find(r, x));
      FindOnly(u, x, Find(r, x));
    } else {
      FindNone(r, x);
      FindNone(u, x);
    }
  }

  // ---------- whole runs ----------

  datatype Op<K, V> = Put(key: K, value: V) | Take(key: K)

  /** The entries after a run of upserts and removals. */
  function After<K(==), V>(ops: seq<Op<K, V>>, updater: (V, V) -> V): seq<Entry<K, V>> {
    if ops == [] then [] else
      var es := After(ops[..|ops| - 1], updater);
      match ops[|ops| - 1]
      case Put(k, v) => Upserted(es, k, v, updater)
      case Take(k) => Without(es, k)
  }

  /** When a key was last upserted, -1 if it was not or has been removed since. */
  function LastPut<K(==), V>(ops: seq<Op<K, V>>, k: K): int {
    if ops == [] then -1 else
      var op := ops[|ops| - 1];
      if op.key != k then LastPut(ops[..|ops| - 1], k) else if op.Put? then |ops| - 1 else -1
  }

  /** The values put under a key since it was last removed, combined in order. */
  function Combined<K(==), V>(ops: seq<Op<K, V>>, k: K, updater: (V, V) -> V): Option<V> {
    if ops == [] then None else
      var op, o := ops[|ops| - 1], Combined(ops[..|ops| - 1], k, updater);
      if op.key != k then o else if op.Take? then None
          else Some(if o.Some? then updater(o.value, op.value) else op.value)
  }

  /** Whatever the run, each key holds the values put under it since it was last removed, combined in order. */
  lemma {:induction false} HoldsCombined<K, V>(ops: seq<Op<K, V>>, updater: (V, V) -> V, k: K)
    ensures Distinct(After(ops, updater))
    ensures Lookup(After(ops, updater), k) == Combined(ops, k, updater)
  {
    if ops != [] {
      var op, before := ops[|ops| - 1], ops[..|ops| - 1];
      var es := After(before, updater);
      HoldsCombined(before, updater, k);
      WithoutKey(es, op.key, k);
      if op.Put? {
        UpsertedKey(es, op.key, op.value, updater, k);
      }
    }
  }

  lemma AfterLast<K, V>(ops: seq<Op<K, V>>, updater: (V, V) -> V)
    requires ops != []
    ensures var op, es := ops[|ops| - 1], After(ops[..|ops| - 1], updater);
            if op.Put? then
              && After(ops, updater) == Without(es, op.key) + [Entry(op.key, ValueAfter(es, op.key, op.value, updater))]
              && LastPut(ops, op.key) == |ops| - 1
            else After(ops, updater) == Without(es, op.key)
  {
  }

  lemma LastPutOther<K, V>(ops: seq<Op<K, V>>, k: K)
    requires ops != [] && ops[|ops| - 1].key != k
    ensures LastPut(ops, k) == LastPut(ops[..|ops| - 1], k)
  {
  }

  /** Whatever the run, the keys stand in the order in which they were last upserted: the first is the one left alone
      the longest. */
  lemma {:induction false} LeastRecentFirst<K, V>(ops: seq<Op<K, V>>, updater: (V, V) -> V)
    ensures var es := After(ops, updater);
            && (forall i :: 0 <= i < |es| ==> 0 <= LastPut(ops, es[i].key) < |ops|)
            && (forall i, j :: 0 <= i < j < |es| ==> LastPut(ops, es[i].key) < LastPut(ops, es[j].key))
  {
    if ops != [] {
      hide Find, Without, After, LastPut, Upserted;
      var op, before := ops[|ops| - 1], ops[..|ops| - 1];
      var es0, es := After(before, updater), After(ops, updater);
      var r := Without(es0, op.key);
      LeastRecentFirst(before, updater);
      HoldsCombined(before, updater, op.key);
      WithoutKeeps(es0, op.key);
      AfterLast(ops, updater);
      forall i | 0 <= i < |r|
        ensures es[i] == r[i] && LastPut(ops, r[i].key) == LastPut(before, r[i].key)
      {
        LastPutOther(ops, r[i].key);
      }
    } else {
      assert After(ops, updater) == [];
    }
  }

  /** What one conditional pop does: the oldest entry goes, or nothing does. */
  ghost predicate Popped<K, V>(es: seq<Entry<K, V>>, keyOf: V -> K, condition: V -> bool, removed: bool,
      peeked: Option<V>, es': seq<Entry<K, V>>) {
    && peeked == (if es == [] then None else Some(es[0].value))
    && (removed <==> peeked.Some? && condition(peeked.value) && Lookup(es, keyOf(peeked.value)).Some?)
    && es' == if removed then Without(es, keyOf(peeked.value)) else es
  }

  lemma Drained<K, V>(es: seq<Entry<K, V>>, keyOf: V -> K, condition: V -> bool, removed: bool, peeked: Option<V>,
      es': seq<Entry<K, V>>)
    requires Popped(es, keyOf, condition, removed, peeked, es')
    ensures removed ==> |es'| == |es| - 1 && peeked.Some? && condition(peeked.value)
    ensures !removed ==> es' == es
    ensures Keyed(es, keyOf) && removed ==> es' == es[1..] && peeked == Some(es[0].value) && Keyed(es', keyOf)
    ensures Keyed(es, keyOf) && !removed ==> es == [] || !condition(es[0].value)
  {
    if Keyed(es, keyOf) && es != [] {
      FindIs(es, 0);
    }
  }

  ghost predicate AllHold<V>(condition: V -> bool, vs: seq<V>) {
    forall i :: 0 <= i < |vs| ==> condition(vs[i])
  }

  lemma AllHoldMore<V>(condition: V -> bool, vs: seq<V>, v: V)
    requires AllHold(condition, vs) && condition(v)
    ensures AllHold(condition, vs + [v])
  {
  }

  lemma NoneGone<V>(condition: V -> bool)
    ensures AllHold(condition, [])
  {
  }

  /** The values gone, and the one just popped, are the first of the entries there were. */
  ghost predicate Draining<K, V>(es: seq<Entry<K, V>>, keyOf: V -> K, condition: V -> bool, gone: seq<V>,
      removed: bool, p: Option<V>, es': seq<Entry<K, V>>) {
    var g := |gone| + if removed then 1 else 0;
    && g <= |es| && es' == es[g..] && Keyed(es', keyOf)
    && (forall i :: 0 <= i < |gone| ==> gone[i] == es[i].value)
    && (if removed then p == Some(es[|gone|].value) else es' == [] || !condition(es'[0].value))
  }

  lemma DrainingStart<K, V>(es: seq<Entry<K, V>>, keyOf: V -> K, condition: V -> bool, removed: bool, p: Option<V>,
      es': seq<Entry<K, V>>)
    requires Popped(es, keyOf, condition, removed, p, es') && Keyed(es, keyOf)
    ensures Draining(es, keyOf, condition, [], removed, p, es')
  {
    Drained(es, keyOf, condition, removed, p, es');
  }

  lemma DrainingEnd<K, V>(es: seq<Entry<K, V>>, keyOf: V -> K, condition: V -> bool, gone: seq<V>, p: Option<V>,
      es': seq<Entry<K, V>>)
    requires Draining(es, keyOf, condition, gone, false, p, es')
    ensures |gone| <= |es| && es' == es[|gone|..] && (forall i :: 0 <= i < |gone| ==> gone[i] == es[i].value)
    ensures es' == [] || !condition(es'[0].value)
  {
  }

  lemma DrainingStep<K, V>(es: seq<Entry<K, V>>, keyOf: V -> K, condition: V -> bool, gone: seq<V>, p: V,
      es1: seq<Entry<K, V>>,
                           removed: bool, p': Option<V>, es': seq<Entry<K, V>>)
    requires Draining(es, keyOf, condition, gone, true, Some(p), es1)
    requires Popped(es1, keyOf, condition, removed, p', es')
    ensures Draining(es, keyOf, condition, gone + [p], removed, p', es')
  {
    Drained(es1, keyOf, condition, removed, p', es');
  }

  // ---------- linked nodes ----------

  /** The node at an index, null outside the sequence. */
  ghost function At<V>(ns: seq<Node<V>>, i: int): Node?<V> {
    if 0 <= i < |ns| then ns[i] else null
  }

  ghost function Just<V>(n: Node?<V>): set<Node<V>> {
    if n == null then {} else {n}
  }

  /** The nodes are linked forward and backward in this order. */
  ghost predicate Chain<V>(ns: seq<Node<V>>)
    reads ns`next, ns`prec
  {
    && (forall i, j :: 0 <= i < j < |ns| ==> ns[i] != ns[j])
    && (forall i {:trigger ns[i].prec} :: 0 <= i < |ns| ==> ns[i].prec == At(ns, i - 1))
    && (forall i {:trigger ns[i].next} :: 0 <= i < |ns| ==> ns[i].next == At(ns, i + 1))
  }

  /** Every node but the one at i is linked past it. */
  ghost predicate Bypassed<V>(ns: seq<Node<V>>, i: nat)
    requires i < |ns|
    reads ns`next, ns`prec
  {
    && (forall j, k :: 0 <= j < k < |ns| ==> ns[j] != ns[k])
    && (forall j :: 0 <= j < |ns| && j != i ==> ns[j].next == if j + 1 == i then At(ns, i + 1) else At(ns, j + 1))
    && (forall j :: 0 <= j < |ns| && j != i ==> ns[j].prec == if j == i + 1 then At(ns, i - 1) else At(ns, j - 1))
  }

  lemma BypassedChain<V>(ns: seq<Node<V>>, i: nat)
    requires i < |ns| && Bypassed(ns, i)
    ensures Chain(Drop(ns, i)) && ns[i] !in Drop(ns, i)
  {
    hide Drop, Bypassed, Chain;
    var m := Drop(ns, i);
    forall j, k | 0 <= j < k < |m|
      ensures m[j] != m[k]
    {
      BypassedAt(ns, i, if j < i then j else j + 1);
      var j', k' := if j < i then j else j + 1, if k < i then k else k + 1;
      assert m[j] == ns[j'] && m[k] == ns[k'];
      BypassedApart(ns, i, j', k');
    }
    forall j | 0 <= j < |m|
      ensures m[j].next == At(m, j + 1) && m[j].prec == At(m, j - 1) && m[j] != ns[i]
    {
      BypassedAt(ns, i, if j < i then j else j + 1);
    }
    ChainIf(m);
  }

  lemma ChainIf<V>(ns: seq<Node<V>>)
    requires forall i, j :: 0 <= i < j < |ns| ==> ns[i] != ns[j]
    requires forall i :: 0 <= i < |ns| ==> ns[i].next == At(ns, i + 1) && ns[i].prec == At(ns, i - 1)
    ensures Chain(ns)
  {
  }

  lemma BypassedAt<V>(ns: seq<Node<V>>, i: nat, j: nat)
    requires i < |ns| && Bypassed(ns, i) && j < |ns| && j != i
    ensures ns[j].next == if j + 1 == i then At(ns, i + 1) else At(ns, j + 1)
    ensures ns[j].prec == if j == i + 1 then At(ns, i - 1) else At(ns, j - 1)
    ensures ns[j] != ns[i]
  {
  }

  lemma BypassedApart<V>(ns: seq<Node<V>>, i: nat, j: nat, k: nat)
    requires i < |ns| && Bypassed(ns, i) && j < k < |ns|
    ensures ns[j] != ns[k]
  {
  }

  ghost function EntriesOf<K, V>(ks: seq<K>, ns: seq<Node<V>>): (es: seq<Entry<K, V>>)
    requires |ks| == |ns|
    reads ns`value
    ensures |es| == |ks| && forall i :: 0 <= i < |es| ==> es[i] == Entry(ks[i], ns[i].value)
  {
    if ks == [] then [] else EntriesOf(ks[..|ks| - 1], ns[..|ks| - 1]) + [Entry(ks[|ks| - 1], ns[|ks| - 1].value)]
  }

  lemma Apart<V>(ns: seq<Node<V>>, i: nat)
    requires Chain(ns) && i < |ns|
    ensures forall j :: 0 <= j < |ns| && j != i ==> ns[j] != ns[i]
  {
  }

  lemma Placed<V>(ns: seq<Node<V>>, i: nat)
    requires Chain(ns) && i < |ns|
    ensures ns[i] in ns && ns[i].next == At(ns, i + 1) && ns[i].prec == At(ns, i - 1)
    ensures Just(ns[i].next) <= set n | n in ns
    ensures Just(ns[i].prec) <= set n | n in ns
    ensures At(ns, 0) == ns[i] <==> i == 0
    ensures At(ns, |ns| - 1) == ns[i] <==> i == |ns| - 1
  {
  }

  /** What is left of the entries when the node at i, if it is one of them, is taken out. */
  lemma EntriesWithout<K, V>(es: seq<Entry<K, V>>, ks: seq<K>, ns: seq<Node<V>>, k: K, i: nat)
    requires |es| == |ks| == |ns| && i == Find(es, k)
    requires forall j :: 0 <= j < |es| ==> es[j].key == ks[j]
    requires forall j :: 0 <= j < |es| && j != i ==> es[j].value == ns[j].value
    ensures EntriesOf(Drop(ks, i), Drop(ns, i)) == Without(es, k)
  {
    hide EntriesOf, Drop, Find;
    var r, w := EntriesOf(Drop(ks, i), Drop(ns, i)), Without(es, k);
    forall j | 0 <= j < |w|
      ensures r[j] == w[j]
    {
      assert w[j] == es[if j < i then j else j + 1];
    }
  }

  lemma EntriesAdded<K, V>(ks: seq<K>, ns: seq<Node<V>>, k: K, n: Node<V>)
    requires |ks| == |ns|
    ensures EntriesOf(ks + [k], ns + [n]) == EntriesOf(ks, ns) + [Entry(k, n.value)]
  {
    hide EntriesOf;
  }

  /** The map sends each key to its node. */
  ghost predicate Mapped<K(!new), V>(ks: seq<K>, ns: seq<Node<V>>, m: map<K, Node<V>>) {
    && |ks| == |ns|
    && (forall i, j :: 0 <= i < j < |ks| ==> ks[i] != ks[j])
    && (forall k :: k in m <==> k in ks)
    && (forall i :: 0 <= i < |ks| ==> ks[i] in m && m[ks[i]] == ns[i])
  }

  lemma MappedSizes<K(!new), V>(ks: seq<K>, ns: seq<Node<V>>, m: map<K, Node<V>>)
    requires Mapped(ks, ns, m)
    ensures |ks| == |ns|
  {
  }

  lemma MappedIf<K(!new), V>(ks: seq<K>, ns: seq<Node<V>>, m: map<K, Node<V>>)
    requires |ks| == |ns| && (forall i, j :: 0 <= i < j < |ks| ==> ks[i] != ks[j])
    requires forall k :: k in m ==> k in ks
    requires forall i :: 0 <= i < |ks| ==> ks[i] in m && m[ks[i]] == ns[i]
    ensures Mapped(ks, ns, m)
  {
  }

  lemma MappedAt<K(!new), V>(ks: seq<K>, ns: seq<Node<V>>, m: map<K, Node<V>>, i: nat, j: nat)
    requires Mapped(ks, ns, m) && i < |ks| && j < |ks| && i != j
    ensures |ks| == |ns| && ks[j] in m && m[ks[j]] == ns[j] && ks[i] != ks[j]
  {
  }

  lemma MappedKey<K(!new), V>(ks: seq<K>, ns: seq<Node<V>>, m: map<K, Node<V>>, k: K) returns (j: nat)
    requires Mapped(ks, ns, m) && k in m
    ensures j < |ks| && ks[j] == k
  {
    j :| 0 <= j < |ks| && ks[j] == k;
  }

  lemma InDrop<T>(s: seq<T>, i: nat, j: nat)
    requires i < |s| && j < |s| && j != i
    ensures s[j] in Drop(s, i)
  {
    assert Drop(s, i)[if j < i then j else j - 1] == s[j];
  }

  lemma MappedDrop<K(!new), V>(ks: seq<K>, ns: seq<Node<V>>, m: map<K, Node<V>>, i: nat)
    requires Mapped(ks, ns, m) && i < |ks|
    ensures Mapped(Drop(ks, i), Drop(ns, i), m - {ks[i]})
  {
    hide Mapped, Drop;
    var ds := Drop(ks, i);
    MappedSizes(ks, ns, m);
    forall k | k in m && k != ks[i]
      ensures k in ds
    {
      var j := MappedKey(ks, ns, m, k);
      InDrop(ks, i, j);
    }
    forall j | 0 <= j < |ds|
      ensures ds[j] != ks[i] && ds[j] in m && m[ds[j]] == Drop(ns, i)[j]
    {
      MappedAt(ks, ns, m, i, if j < i then j else j + 1);
    }
    forall j, k | 0 <= j < k < |ds|
      ensures ds[j] != ds[k]
    {
      MappedAt(ks, ns, m, if j < i then j else j + 1, if k < i then k else k + 1);
    }
    MappedIf(ds, Drop(ns, i), m - {ks[i]});
  }

  lemma MappedAdd<K(!new), V>(ks: seq<K>, ns: seq<Node<V>>, m: map<K, Node<V>>, k: K, n: Node<V>)
    requires Mapped(ks, ns, m) && k !in m
    ensures Mapped(ks + [k], ns + [n], m[k := n])
  {
    var ks' := ks + [k];
    forall j | 0 <= j < |ks'|
      ensures ks'[j] in m[k := n] && m[k := n][ks'[j]] == (ns + [n])[j] && (j < |ks| ==> ks'[j] == ks[j] && ks[j] != k)
    {
      assert j < |ks| ==> ks[j] in m;
    }
    assert ks'[|ks|] == k;
    forall x | x in ks
      ensures x in ks'
    {
      var j :| 0 <= j < |ks| && ks[j] == x;
      assert ks'[j] == x;
    }
  }

  lemma MappedPut<K(!new), V>(ks: seq<K>, ns: seq<Node<V>>, m: map<K, Node<V>>, i: nat, k: K, n: Node<V>)
    requires Mapped(ks, ns, m) && if i < |ks| then ks[i] == k && ns[i] == n else k !in m
    ensures Mapped(Drop(ks, i) + [k], Drop(ns, i) + [n], m[k := n])
  {
    hide Mapped;
    if i < |ks| {
      MappedDrop(ks, ns, m, i);
      MappedAdd(Drop(ks, i), Drop(ns, i), m - {k}, k, n);
      assert (m - {k})[k := n] == m[k := n];
    } else {
      MappedSizes(ks, ns, m);
      assert Drop(ks, i) == ks && Drop(ns, i) == ns;
      MappedAdd(ks, ns, m, k, n);
    }
  }

  lemma MappedBack<K(!new), V>(ks: seq<K>, ns: seq<Node<V>>, m: map<K, Node<V>>, k: K, n: Node<V>)
    requires Mapped(ks + [k], ns + [n], m) && |ks| == |ns|
    ensures Mapped(ks, ns, m - {k})
  {
    MappedDrop(ks + [k], ns + [n], m, |ks|);
    assert Drop(ks + [k], |ks|) == ks && Drop(ns + [n], |ks|) == ns;
  }

  lemma MappedWithout<K(!new), V>(ks: seq<K>, ns: seq<Node<V>>, m: map<K, Node<V>>, i: nat, k: K)
    requires Mapped(ks, ns, m) && if i < |ks| then ks[i] == k else k !in m
    ensures Mapped(Drop(ks, i), Drop(ns, i), m - {k})
  {
    if i < |ks| {
      MappedDrop(ks, ns, m, i);
    } else {
      assert m - {k} == m && Drop(ks, i) == ks && Drop(ns, i) == ns;
    }
  }

  lemma DropIn<T>(s: seq<T>, i: nat)
    ensures forall x :: x in Drop(s, i) ==> x in s
  {
  }

  lemma DroppedPast<T>(s: seq<T>, i: nat)
    ensures i >= |s| ==> Drop(s, i) == s
  {
  }

  lemma DroppedEnds<V>(ns: seq<Node<V>>, i: nat)
    requires i < |ns|
    ensures |ns| > 1 ==> At(Drop(ns, i), 0) == At(ns, if i == 0 then 1 else 0)
    ensures |ns| > 1 ==> At(Drop(ns, i), |ns| - 2) == At(ns, if i == |ns| - 1 then |ns| - 2 else |ns| - 1)
  {
  }

  lemma NotEnd<V>(ns: seq<Node<V>>, n: Node<V>)
    requires n !in ns
    ensures At(ns, 0) != n
  {
  }

  class Stack<K(==, !new), V> {
    var first: Node?<V>
    var last: Node?<V>
    var mapper: map<K, Node<V>>
    /** The keys and their nodes, least recently updated first. */
    ghost var keys: seq<K>
    ghost var nodes: seq<Node<V>>

    ghost predicate Valid()
      reads this, nodes
    {
      Mapped(keys, nodes, mapper) && Chain(nodes) && first == At(nodes, 0) && last == At(nodes, |nodes| - 1)
    }

    ghost function Entries(): (es: seq<Entry<K, V>>)
      requires Valid()
      reads this, nodes
      ensures |es| == |keys| == |nodes|
    {
      EntriesOf(keys, nodes)
    }

    constructor ()
      ensures Valid() && Entries() == []
    {
      first, last, mapper, keys, nodes := null, null, map[], [], [];
    }

    /** The end of shiftPositionInternal: a node outside the chain is linked after the last one. */
    method PutLast(item: Node<V>, ghost ns: seq<Node<V>>)
      requires Chain(ns) && last == At(ns, |ns| - 1) && item !in ns && item.next == null
      modifies this`last, Just(last)`next, item`prec
      ensures Chain(ns + [item]) && last == item
    {
      ghost var n := |ns|;
      item.prec := last;
      if last != null {
        assert last == ns[n - 1];
        last.next := item;
      }
      last := item;
      ghost var m := ns + [item];
      forall j | 0 <= j < n
        ensures m[j].next == At(m, j + 1) && m[j].prec == At(m, j - 1)
      {
        assert ns[j] in ns;
        assert j < n - 1 ==> ns[j] != ns[n - 1];
      }
    }

    /** The middle of shiftPositionInternal: a node that is not the last one leaves the chain. */
    method Unlink(item: Node<V>, ghost ns: seq<Node<V>>, ghost i: nat)
      requires Chain(ns) && i + 1 < |ns| && ns[i] == item
      modifies Just(item.prec)`next, Just(item.next)`prec
      ensures Bypassed(ns, i)
    {
      assert item.next == ns[i + 1] && item.prec == At(ns, i - 1);
      if item.prec != null {
        item.prec.next := item.next;
      }
      if item.next != null {
        item.next.prec := item.prec;
      }
    }

    /** Puts a node last: a new one is added, one already in the chain is shifted. */
    method ShiftPosition(item: Node<V>, ghost i: nat)
      requires Chain(nodes) && first == At(nodes, 0) && last == At(nodes, |nodes| - 1)
      requires if i < |nodes| then nodes[i] == item else item !in nodes && item.prec == null && item.next == null
      modifies this`first, this`last, this`nodes, nodes`next, nodes`prec, item`next, item`prec
      ensures nodes == Drop(old(nodes), i) + [item]
      ensures Chain(nodes) && first == At(nodes, 0) && last == At(nodes, |nodes| - 1)
    {
      hide Chain, Bypassed;
      ghost var ns := nodes;
      if i < |ns| {
        Placed(ns, i);
      }
      if first == null {
        first := item;
      } else if first == item && item.next != null {
        first := item.next;
      }
      if item.prec == null && item.next == null && last != item {
        // not in the chain yet
        assert i >= |ns|;
        PutLast(item, ns);
        nodes := ns + [item];
      } else if last == item {
        assert i == |ns| - 1;
        assert Drop(ns, i) + [item] == ns;
      } else {
        // taken out of its place first
        Unlink(item, ns, i);
        BypassedChain(ns, i);
        item.next := null;
        PutLast(item, Drop(ns, i));
        nodes := Drop(ns, i) + [item];
      }
    }

    lemma FindNode(k: K)
      requires Valid()
      ensures |keys| == |nodes| && forall j :: 0 <= j < |keys| ==> Entries()[j] == Entry(keys[j], nodes[j].value)
      ensures var i := Find(Entries(), k);
              if i < |keys| then k in mapper && keys[i] == k && mapper[k] == nodes[i]
                  && nodes[i] in nodes else k !in mapper
      ensures Lookup(Entries(), k) == if k in mapper then Some(mapper[k].value) else None
    {
      var es, i := Entries(), Find(Entries(), k);
      assert i < |keys| ==> es[i].key == keys[i];
      if k in keys {
        var j :| 0 <= j < |keys| && keys[j] == k;
        assert es[j].key == k;
      }
    }

    /** The start of an upsert: the node of the key with its value updated, or a new node outside the chain. */
    method NodeOf(k: K, v: V, updater: (V, V) -> V, ghost i: nat) returns (item: Node<V>)
      requires Valid() && i == Find(Entries(), k)
      modifies this`mapper, nodes`value
      ensures item in nodes || fresh(item)
      ensures Half(k, item, i, old(Entries()), old(mapper))
      ensures item.value == ValueAfter(old(Entries()), k, v, updater)
    {
      hide Mapped, Chain, EntriesOf, At;
      FindNode(k);
      if i < |keys| {
        Apart(nodes, i);
      }
      if k !in mapper {
        item := new Node(v);
        mapper := mapper[k := item];
      } else {
        item := mapper[k];
        item.value := updater(item.value, v);
        assert mapper == mapper[k := item];
      }
    }

    /** The relinking of removeInternal. */
    method Bypass(n: Node<V>, ghost ns: seq<Node<V>>, ghost i: nat)
      requires Chain(ns) && first == At(ns, 0) && last == At(ns, |ns| - 1) && i < |ns| && ns[i] == n && |ns| > 1
      modifies this`first, this`last, Just(n.prec)`next, Just(n.next)`prec
      ensures Bypassed(ns, i)
      ensures first == At(ns, if i == 0 then 1 else 0) && last == At(ns, if i == |ns| - 1 then |ns| - 2 else |ns| - 1)
    {
      assert n.next == At(ns, i + 1) && n.prec == At(ns, i - 1);
      if n.prec == null {
        first := n.next;
      } else {
        n.prec.next := n.next;
      }
      if n.next == null {
        last := n.prec;
      } else {
        n.next.prec := n.prec;
      }
    }

    /** Takes a node out of the chain, if it is in the chain already. */
    method Extract(n: Node<V>, ghost i: nat)
      requires Chain(nodes) && first == At(nodes, 0) && last == At(nodes, |nodes| - 1)
      requires if i < |nodes| then nodes[i] == n else n !in nodes && n.prec == null && n.next == null
      modifies this`first, this`last, this`nodes, Just(n.prec)`next, Just(n.next)`prec
      ensures nodes == Drop(old(nodes), i)
      ensures Chain(nodes) && first == At(nodes, 0) && last == At(nodes, |nodes| - 1)
    {
      hide Chain, Bypassed, Drop;
      ghost var ns := nodes;
      DroppedPast(ns, i);
      if i < |ns| {
        Placed(ns, i);
        DroppedEnds(ns, i);
      } else {
        NotEnd(ns, n);
      }
      nodes := Drop(ns, i);
      if n.prec != null || n.next != null {
        Bypass(n, ns, i);
        BypassedChain(ns, i);
      } else if first == n && last == n {
        first, last := null, null;
        assert nodes == [];
        ChainIf(nodes);
      }
    }

    /** Takes a key out of the map and its node out of the chain. */
    method RemoveInternal(k: K, ghost i: nat) returns (r: Option<V>)
      requires Chain(nodes) && first == At(nodes, 0) && last == At(nodes, |nodes| - 1)
      requires k !in mapper ==> i >= |nodes|
      requires k in mapper ==>
                 var n := mapper[k];
                 if i < |nodes| then nodes[i] == n else n !in nodes && n.prec == null && n.next == null
      modifies this`first, this`last, this`mapper, this`nodes, nodes`next, nodes`prec
      ensures nodes == Drop(old(nodes), i) && mapper == old(mapper) - {k}
      ensures Chain(nodes) && first == At(nodes, 0) && last == At(nodes, |nodes| - 1)
      ensures r == if k in old(mapper) then Some(old(mapper[k].value)) else None
    {
      hide Chain, Drop, At;
      r := None;
      DroppedPast(nodes, i);
      if k in mapper {
        var n := mapper[k];
        mapper := mapper - {k};
        r := Some(n.value);
        if i < |nodes| {
          Placed(nodes, i);
        }
        Extract(n, i);
      }
    }

    /** The map holds the node of the key, which is at i or is not in the chain yet; every other entry is as es says. */
    ghost predicate Half(k: K, item: Node<V>, i: nat, es: seq<Entry<K, V>>, m: map<K, Node<V>>)
      reads this, nodes, item
    {
      && Mapped(keys, nodes, m) && mapper == m[k := item]
      && Chain(nodes) && first == At(nodes, 0) && last == At(nodes, |nodes| - 1)
      && |es| == |keys| == |nodes| && i == Find(es, k)
      && (if i < |keys| then nodes[i] == item && keys[i] == k
          else k !in m && item !in nodes && item.prec == null && item.next == null)
      && (forall j :: 0 <= j < |keys| ==> es[j].key == keys[j])
      && (forall j :: 0 <= j < |keys| && j != i ==> es[j].value == nodes[j].value)
    }

    method PutBack(k: K, item: Node<V>, ghost i: nat, ghost es: seq<Entry<K, V>>, ghost m: map<K, Node<V>>)
      requires Half(k, item, i, es, m)
      modifies this`first, this`last, this`nodes, this`keys, nodes`next, nodes`prec, item`next, item`prec
      ensures Valid() && (forall n :: n in nodes ==> n in old(nodes) || n == item)
      ensures Entries() == Without(es, k) + [Entry(k, item.value)]
    {
      hide EntriesOf, Chain, Mapped, Find, Without, Drop, At;
      ghost var ks, ns := keys, nodes;
      DropIn(ns, i);
      MappedPut(ks, ns, m, i, k, item);
      ShiftPosition(item, i);
      keys := Drop(ks, i) + [k];
      EntriesWithout(es, ks, ns, k, i);
      EntriesAdded(Drop(ks, i), Drop(ns, i), k, item);
    }

    method TakeOut(k: K, item: Node<V>, ghost i: nat, ghost es: seq<Entry<K, V>>, ghost m: map<K, Node<V>>)
      requires Half(k, item, i, es, m)
      modifies this, nodes`next, nodes`prec
      ensures Valid() && (forall n :: n in nodes ==> n in old(nodes))
      ensures Entries() == Without(es, k)
    {
      hide EntriesOf, Chain, Mapped, Find, Without, Drop, At;
      ghost var ks, ns := keys, nodes;
      DropIn(ns, i);
      MappedPut(ks, ns, m, i, k, item);
      MappedBack(Drop(ks, i), Drop(ns, i), m[k := item], k, item);
      var _ := RemoveInternal(k, i);
      keys := Drop(ks, i);
      EntriesWithout(es, ks, ns, k, i);
    }

    method Upsert(k: K, v: V, updater: (V, V) -> V) returns (r: V)
      requires Valid()
      modifies this, nodes
      ensures Valid() && (forall n :: n in nodes ==> n in old(nodes) || fresh(n))
      ensures Entries() == Upserted(old(Entries()), k, v, updater)
      ensures r == ValueAfter(old(Entries()), k, v, updater)
    {
      hide EntriesOf, Chain, Mapped, Find, Without, Drop, At;
      ghost var es := Entries();
      ghost var i := Find(es, k);
      FindNode(k);
      var item := NodeOf(k, v, updater, i);
      PutBack(k, item, i, es, old(mapper));
      r := item.value;
    }

    /** Adds or updates a value and keeps it last, or drops it if the condition, which may change the value, holds. */
    method UpsertAndConditionallyRemove(k: K, v: V, updater: (V, V) -> V, condition: V -> (bool, V))
      returns (removed: bool, u: V)
      requires Valid()
      modifies this, nodes
      ensures Valid() && (forall n :: n in nodes ==> n in old(nodes) || fresh(n))
      ensures (removed, u) == condition(ValueAfter(old(Entries()), k, v, updater))
      ensures Entries() == Without(old(Entries()), k) + if removed then [] else [Entry(k, u)]
    {
      hide EntriesOf, Chain, Mapped, Find, Without, Drop, At;
      ghost var es := Entries();
      ghost var i := Find(es, k);
      FindNode(k);
      var item := NodeOf(k, v, updater, i);
      var answer := condition(item.value);
      removed, u := answer.0, answer.1;
      if i < |keys| {
        Apart(nodes, i);
      }
      item.value := u;
      if removed {
        TakeOut(k, item, i, es, old(mapper));
      } else {
        PutBack(k, item, i, es, old(mapper));
      }
    }

    method Remove(k: K) returns (r: Option<V>)
      requires Valid()
      modifies this, nodes
      ensures Valid() && (forall n :: n in nodes ==> n in old(nodes))
      ensures Entries() == Without(old(Entries()), k)
      ensures r == Lookup(old(Entries()), k)
    {
      hide EntriesOf, Chain, Mapped, Find, Without, Drop, Lookup, At;
      ghost var es, ks, ns := Entries(), keys, nodes;
      ghost var i := Find(es, k);
      FindNode(k);
      DropIn(ns, i);
      r := RemoveInternal(k, i);
      keys := Drop(ks, i);
      EntriesWithout(es, ks, ns, k, i);
      MappedWithout(ks, ns, old(mapper), i, k);
    }

    /** The value under a key. */
    method GetKey(k: K) returns (r: Option<V>)
      requires Valid()
      ensures r == Lookup(Entries(), k)
    {
      FindNode(k);
      r := if k in mapper then Some(mapper[k].value) else None;
    }

    /** The least recently updated value. */
    method Peek() returns (r: Option<V>)
      requires Valid()
      ensures r == if Entries() == [] then None else Some(Entries()[0].value)
    {
      r := if first != null then Some(first.value) else None;
    }

    /** Removes the value stored under the key of the least recently updated one. The original leaves its lock
        held when the structure is empty, so callers must not pop it then. */
    method Pop(keyOf: V -> K) returns (r: Option<V>)
      requires Valid() && Entries() != []
      modifies this, nodes
      ensures Valid() && (forall n :: n in nodes ==> n in old(nodes))
      ensures var k := keyOf(old(Entries())[0].value);
              && Entries() == Without(old(Entries()), k)
              && r == Lookup(old(Entries()), k)
      ensures Keyed(old(Entries()), keyOf) ==> Entries() == old(Entries())[1..] && r == Some(old(Entries())[0].value)
    {
      ghost var es := Entries();
      assert first == nodes[0];
      r := Remove(keyOf(first.value));
      if Keyed(es, keyOf) {
        FindIs(es, 0);
      }
    }

    /** Removes the least recently updated value if the condition holds of it. */
    method PopConditional(condition: V -> bool, keyOf: V -> K) returns (removed: bool, peeked: Option<V>)
      requires Valid()
      modifies this, nodes
      ensures Valid() && (forall n :: n in nodes ==> n in old(nodes))
      ensures Popped(old(Entries()), keyOf, condition, removed, peeked, Entries())
    {
      removed, peeked := false, None;
      if first != null {
        assert first == nodes[0];
        peeked := Some(first.value);
        if condition(first.value) {
          var r := Remove(keyOf(first.value));
          removed := r.Some?;
        }
      }
    }

    /** The loop that drops values from the oldest on while the condition holds: it ends, and when values carry their
        keys it removes exactly the longest prefix the condition holds of. */
    method Drain(condition: V -> bool, keyOf: V -> K) returns (gone: seq<V>)
      requires Valid()
      modifies this, nodes
      ensures Valid() && (forall n :: n in nodes ==> n in old(nodes))
      ensures |gone| + |Entries()| == |old(Entries())|
      ensures AllHold(condition, gone)
      ensures Keyed(old(Entries()), keyOf) ==>
                && Entries() == old(Entries())[|gone|..]
                && (forall i :: 0 <= i < |gone| ==> gone[i] == old(Entries())[i].value)
                && (Entries() == [] || !condition(Entries()[0].value))
    {
      hide Valid, Find, Without, Popped, Draining, Keyed, Chain, Mapped, AllHold;
      gone := [];
      NoneGone(condition);
      ghost var es, ns := Entries(), nodes;
      var removed, p := PopConditional(condition, keyOf);
      Drained(es, keyOf, condition, removed, p, Entries());
      if Keyed(es, keyOf) {
        DrainingStart(es, keyOf, condition, removed, p, Entries());
      }
      while removed
        invariant Valid() && (forall n :: n in nodes ==> n in ns)
        invariant |gone| + (if removed then 1 else 0) + |Entries()| == |es|
        invariant removed ==> p.Some? && condition(p.value)
        invariant AllHold(condition, gone)
        invariant Keyed(es, keyOf) ==> Draining(es, keyOf, condition, gone, removed, p, Entries())
        decreases |Entries()|, removed
      {
        ghost var es1, gone1, p1 := Entries(), gone, p.value;
        AllHoldMore(condition, gone, p.value);
        gone := gone + [p.value];
        assert forall i :: 0 <= i < |nodes| ==> nodes[i] in old(nodes);
        removed, p := PopConditional(condition, keyOf);
        Drained(es1, keyOf, condition, removed, p, Entries());
        if Keyed(es, keyOf) {
          DrainingStep(es, keyOf, condition, gone1, p1, es1, removed, p, Entries());
        }
      }
      if Keyed(es, keyOf) {
        DrainingEnd(es, keyOf, condition, gone, p, Entries());
      }
    }
  }
}
