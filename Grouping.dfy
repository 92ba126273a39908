/** The `$group` stage with a `$sum` accumulator: one group per distinct key,
    holding the sum of the amounts filed under that key. The order of the
    groups is the engine's and is not promised. */
module Grouping {

  datatype Group<K> = Group(key: K, total: int)

  /** Reference definition: the sum of the amounts filed under `k`. */
  function SumFor<K(==)>(items: seq<(K, int)>, k: K): int
  {
    if items == [] then 0
    else (if items[0].0 == k then items[0].1 else 0) + SumFor(items[1..], k)
  }

  function ItemKeys<K>(items: seq<(K, int)>): set<K>
  {
    set p | p in items :: p.0
  }

  function KeySet<K>(gs: seq<Group<K>>): set<K>
  {
    set g | g in gs :: g.key
  }

  predicate UniqueKeys<K(==)>(gs: seq<Group<K>>)
  {
    forall i, j :: 0 <= i < j < |gs| ==> gs[i].key != gs[j].key
  }

  /** The total of the first group with key `k`, or 0 when there is none. */
  function TotalOf<K(==)>(gs: seq<Group<K>>, k: K): int
  {
    if gs == [] then 0
    else if gs[0].key == k then gs[0].total
    else TotalOf(gs[1..], k)
  }

  lemma KeySetCons<K>(g: Group<K>, gs: seq<Group<K>>)
    ensures KeySet([g] + gs) == {g.key} + KeySet(gs)
  {
    forall x | x in KeySet([g] + gs) ensures x in {g.key} + KeySet(gs) {
      var h :| h in [g] + gs && h.key == x;
    }
  }

  lemma ItemKeysCons<K>(items: seq<(K, int)>)
    requires items != []
    ensures ItemKeys(items) == {items[0].0} + ItemKeys(items[1..])
  {
    assert items == [items[0]] + items[1..];
    forall x | x in ItemKeys(items) ensures x in {items[0].0} + ItemKeys(items[1..]) {
      var p :| p in items && p.0 == x;
    }
  }

  /** Files amount `a` under key `k`: adds it to the group with that key, or
      starts a new group. */
  function AddTo<K(==,!new)>(gs: seq<Group<K>>, k: K, a: int): (r: seq<Group<K>>)
    ensures KeySet(r) == KeySet(gs) + {k}
    ensures forall x :: TotalOf(r, x) == TotalOf(gs, x) + (if x == k then a else 0)
    ensures UniqueKeys(gs) ==> UniqueKeys(r)
  {
    if gs == [] then
      KeySetCons(Group(k, a), []);
      [Group(k, a)]
    else if gs[0].key == k then
      KeySetCons(Group(k, gs[0].total + a), gs[1..]);
      KeySetCons(gs[0], gs[1..]);
      assert gs == [gs[0]] + gs[1..];
      [Group(k, gs[0].total + a)] + gs[1..]
    else
      var rest := AddTo(gs[1..], k, a);
      KeySetCons(gs[0], rest);
      KeySetCons(gs[0], gs[1..]);
      assert gs == [gs[0]] + gs[1..];
      assert UniqueKeys(gs) ==> UniqueKeys([gs[0]] + rest) by {
        if UniqueKeys(gs) {
          UniqueTail(gs);
          HeadKeyFresh(gs);
          UniqueCons(gs[0], rest);
        }
      }
      [gs[0]] + rest
  }

  lemma UniqueTail<K>(gs: seq<Group<K>>)
    requires gs != [] && UniqueKeys(gs)
    ensures UniqueKeys(gs[1..])
  {
    forall i, j | 0 <= i < j < |gs[1..]| ensures gs[1..][i].key != gs[1..][j].key {
      assert gs[i + 1].key != gs[j + 1].key;
    }
  }

  lemma HeadKeyFresh<K>(gs: seq<Group<K>>)
    requires gs != [] && UniqueKeys(gs)
    ensures gs[0].key !in KeySet(gs[1..])
  {
    forall h | h in gs[1..] ensures h.key != gs[0].key {
      var j :| 0 <= j < |gs[1..]| && gs[1..][j] == h;
      assert gs[0].key != gs[j + 1].key;
    }
  }

  lemma UniqueCons<K>(g: Group<K>, gs: seq<Group<K>>)
    requires g.key !in KeySet(gs) && UniqueKeys(gs)
    ensures UniqueKeys([g] + gs)
  {
    var r := [g] + gs;
    forall i, j | 0 <= i < j < |r| ensures r[i].key != r[j].key {
      if i == 0 {
        assert r[j] in gs;
      } else {
        assert r[i] == gs[i - 1] && r[j] == gs[j - 1];
      }
    }
  }

  /** `$group: {_id: key, total: {$sum: amount}}` over (key, amount) pairs. */
  function GroupSum<K(==,!new)>(items: seq<(K, int)>): (r: seq<Group<K>>)
    ensures UniqueKeys(r)
    ensures KeySet(r) == ItemKeys(items)
    ensures forall x :: TotalOf(r, x) == SumFor(items, x)
  {
    if items == [] then
      []
    else
      ItemKeysCons(items);
      AddTo(GroupSum(items[1..]), items[0].0, items[0].1)
  }

  /** With unique keys, a group's total is what TotalOf reports for its key. */
  lemma {:induction false} GroupTotal<K>(gs: seq<Group<K>>, g: Group<K>)
    requires UniqueKeys(gs) && g in gs
    ensures g.total == TotalOf(gs, g.key)
  {
    if gs[0] != g {
      assert g in gs[1..];
      assert gs[0].key != g.key by {
        var j :| 0 <= j < |gs| && gs[j] == g;
      }
      UniqueTail(gs);
      GroupTotal(gs[1..], g);
    }
  }

  /** Appending a group changes TotalOf only for a key not seen before. */
  lemma {:induction false} TotalOfAppend<K>(gs: seq<Group<K>>, g: Group<K>, k: K)
    ensures TotalOf(gs + [g], k) ==
            if k in KeySet(gs) then TotalOf(gs, k) else if g.key == k then g.total else 0
  {
    if gs == [] {
      assert gs + [g] == [g];
    } else {
      assert (gs + [g])[1..] == gs[1..] + [g];
      KeySetCons(gs[0], gs[1..]);
      assert gs == [gs[0]] + gs[1..];
      TotalOfAppend(gs[1..], g, k);
    }
  }

  /** TotalOf over a prefix that grows by one group of a unique-keyed sequence. */
  lemma TotalOfPrefix<K>(gs: seq<Group<K>>, i: nat, k: K)
    requires UniqueKeys(gs) && i < |gs|
    ensures TotalOf(gs[..i + 1], k) == if gs[i].key == k then gs[i].total else TotalOf(gs[..i], k)
  {
    assert gs[..i + 1] == gs[..i] + [gs[i]];
    TotalOfAppend(gs[..i], gs[i], k);
    if k in KeySet(gs[..i]) {
      var h :| h in gs[..i] && h.key == k;
      var j :| 0 <= j < i && gs[j] == h;
      assert gs[i].key != k;
    } else {
      TotalOfAbsent(gs[..i], k);
    }
  }

  lemma {:induction false} TotalOfAbsent<K>(gs: seq<Group<K>>, k: K)
    requires k !in KeySet(gs)
    ensures TotalOf(gs, k) == 0
  {
    if gs != [] {
      KeySetCons(gs[0], gs[1..]);
      assert gs == [gs[0]] + gs[1..];
      TotalOfAbsent(gs[1..], k);
    }
  }
}
