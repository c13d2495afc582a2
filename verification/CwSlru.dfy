/** The segmented LRU as the engine keeps it: two doubly linked lists of nodes, and a map from
    key to node for each. */
module CwSlru {
  import opened Common
  import opened Slru

  class Node {
    var item: Item
    var prev: Node?
    var next: Node?

    constructor (item: Item)
      ensures this.item == item
    {
      this.item := item;
      prev, next := null, null;
    }
  }

  ghost predicate Apart(nodes: seq<Node>, i: nat, j: nat) {
    i < |nodes| && j < |nodes| && nodes[i] != nodes[j]
  }

  ghost predicate Distinct(nodes: seq<Node>) {
    forall i: nat, j: nat :: i < j < |nodes| ==> Apart(nodes, i, j)
  }

  lemma DistinctAt(nodes: seq<Node>, i: int, j: int)
    requires Distinct(nodes)
    ensures 0 <= i < |nodes| && 0 <= j < |nodes| && i != j ==> nodes[i] != nodes[j]
  {
    if 0 <= i < j < |nodes| { assert Apart(nodes, i, j); }
    if 0 <= j < i < |nodes| { assert Apart(nodes, j, i); }
  }

  lemma DistinctPush(n: Node, nodes: seq<Node>)
    requires Distinct(nodes) && n !in nodes
    ensures Distinct([n] + nodes)
  {
    var r := [n] + nodes;
    forall i: nat, j: nat | i < j < |r| ensures Apart(r, i, j) {
      if i > 0 { assert Apart(nodes, i - 1, j - 1); }
    }
  }

  lemma DistinctWithout(nodes: seq<Node>, i: nat)
    requires Distinct(nodes) && i < |nodes|
    ensures Distinct(Without(nodes, i)) && nodes[i] !in Without(nodes, i)
  {
    var r := Without(nodes, i);
    forall a: nat, b: nat | a < b < |r| ensures Apart(r, a, b) {
      assert Apart(nodes, if a < i then a else a + 1, if b < i then b else b + 1);
    }
    forall a: nat | a < |r| ensures r[a] != nodes[i] {
      if a < i { assert Apart(nodes, a, i); } else { assert Apart(nodes, i, a + 1); }
    }
  }

  /** The node at `i` is linked to its neighbours and carries the item at `i`. */
  ghost predicate Placed(nodes: seq<Node>, items: seq<Item>, i: nat)
    reads nodes
  {
    && i < |nodes| && i < |items|
    && nodes[i].next == (if i + 1 < |nodes| then nodes[i + 1] else null)
    && nodes[i].prev == (if i > 0 then nodes[i - 1] else null)
    && nodes[i].item == items[i]
  }

  ghost predicate Linked(nodes: seq<Node>, items: seq<Item>)
    reads nodes
  {
    |nodes| == |items| && forall i: nat :: i < |nodes| ==> Placed(nodes, items, i)
  }

  ghost predicate Named(m: map<StorageKey, Node>, nodes: seq<Node>, items: seq<Item>, i: nat) {
    i < |items| && i < |nodes| && items[i].key in m && m[items[i].key] == nodes[i]
  }

  /** The map names exactly the nodes of the list, each under its own key. */
  ghost predicate MapOk(m: map<StorageKey, Node>, nodes: seq<Node>, items: seq<Item>) {
    && |nodes| == |items| && m.Keys == KeySet(items)
    && forall i: nat :: i < |items| ==> Named(m, nodes, items, i)
  }

  lemma KeysOnce(m: map<StorageKey, Node>, nodes: seq<Node>, items: seq<Item>)
    requires MapOk(m, nodes, items) && Distinct(nodes)
    ensures NoDup(items)
  {
    forall i, j | 0 <= i < j < |items| ensures items[i].key != items[j].key {
      assert Apart(nodes, i, j) && Named(m, nodes, items, i) && Named(m, nodes, items, j);
    }
  }

  lemma NodeIndex(m: map<StorageKey, Node>, nodes: seq<Node>, items: seq<Item>, k: StorageKey) returns (i: nat)
    requires MapOk(m, nodes, items) && k in m
    ensures Has(items, k) && i == Find(items, k) && i < |nodes| && nodes[i] == m[k]
  {
    assert k in KeySet(items);
    i := Find(items, k);
    assert Named(m, nodes, items, i);
  }

  lemma MapAdd(m: map<StorageKey, Node>, nodes: seq<Node>, items: seq<Item>, n: Node, item: Item)
    requires MapOk(m, nodes, items) && item.key !in m
    ensures MapOk(m[item.key := n], [n] + nodes, [item] + items)
  {
    ConsKeys(item, items);
    var r, ns := [item] + items, [n] + nodes;
    var m' := m[item.key := n];
    forall i: nat | i < |r| ensures Named(m', ns, r, i) {
      if i > 0 { assert Named(m, nodes, items, i - 1) && r[i] == items[i - 1] && ns[i] == nodes[i - 1]; }
    }
  }

  lemma MapErase(m: map<StorageKey, Node>, nodes: seq<Node>, items: seq<Item>, i: nat)
    requires MapOk(m, nodes, items) && Distinct(nodes) && i < |items|
    ensures MapOk(m - {items[i].key}, Without(nodes, i), Without(items, i))
  {
    KeysOnce(m, nodes, items);
    WithoutKeys(items, i);
    var r, ns := Without(items, i), Without(nodes, i);
    var m' := m - {items[i].key};
    forall j: nat | j < |r| ensures Named(m', ns, r, j) {
      var k := if j < i then j else j + 1;
      assert Named(m, nodes, items, k) && r[j] == items[k] && ns[j] == nodes[k];
      assert items[k].key != items[i].key;
    }
  }

  lemma MapTouch(m: map<StorageKey, Node>, nodes: seq<Node>, items: seq<Item>, k: StorageKey, cost: U32)
    requires MapOk(m, nodes, items) && Distinct(nodes) && Has(items, k)
    ensures var i := Find(items, k); i < |nodes| && MapOk(m, [nodes[i]] + Without(nodes, i), Touch(items, k, cost))
  {
    var i := Find(items, k);
    MapErase(m, nodes, items, i);
    MapAdd(m - {k}, Without(nodes, i), Without(items, i), nodes[i], items[i].(cost := cost));
    assert Named(m, nodes, items, i);
    assert m == (m - {k})[k := nodes[i]];
  }

  /** One segment: the list, most recent first, and the map of its nodes. */
  class Segment {
    var head: Node?
    var tail: Node?
    var size: nat
    var index: map<StorageKey, Node>
    ghost var nodes: seq<Node>
    ghost var items: seq<Item>
    ghost var Repr: set<object>

    ghost predicate Shape()
      reads this, Repr
    {
      && this in Repr && (forall i {:trigger nodes[i] in Repr} :: 0 <= i < |nodes| ==> nodes[i] in Repr)
      && size == |nodes| && Distinct(nodes) && Linked(nodes, items)
      && head == (if nodes == [] then null else nodes[0])
      && tail == (if nodes == [] then null else nodes[|nodes| - 1])
    }

    ghost predicate Valid()
      reads this, Repr
    {
      Shape() && MapOk(index, nodes, items)
    }

    constructor ()
      ensures Valid() && nodes == [] && items == [] && fresh(Repr)
    {
      head, tail, size, index := null, null, 0, map[];
      nodes, items := [], [];
      Repr := {this};
    }

    method LinkFront(n: Node)
      requires Shape() && n !in nodes
      modifies Repr, n
      ensures Shape() && index == old(index) && Repr == old(Repr) + {n} && nodes == [n] + old(nodes) && items == [old(n.item)] + old(items)
    {
      ghost var was := nodes;
      n.prev := null;
      n.next := head;
      if head == null {
        tail := n;
      } else {
        head.prev := n;
      }
      head := n;
      size := size + 1;
      Repr := Repr + {n};
      nodes, items := [n] + was, [n.item] + items;
      DistinctPush(n, was);
      forall j: nat | j < |nodes| ensures Placed(nodes, items, j) {
        if j > 0 {
          DistinctAt(was, 0, j - 1);
          assert old(Placed(was, items, j - 1));
        }
      }
    }

    method Unlink(n: Node, ghost i: nat)
      requires Shape() && i < |nodes| && nodes[i] == n
      modifies Repr
      ensures Shape() && index == old(index) && Repr == old(Repr) && nodes == Without(old(nodes), i) && items == Without(old(items), i)
      ensures n !in nodes && n.item == old(n.item)
    {
      ghost var was := nodes;
      assert Placed(was, items, i);
      if n.prev == null {
        head := n.next;
      } else {
        n.prev.next := n.next;
      }
      if n.next == null {
        tail := n.prev;
      } else {
        n.next.prev := n.prev;
      }
      size := size - 1;
      nodes, items := Without(was, i), Without(items, i);
      DistinctWithout(was, i);
      forall j: nat | j < |nodes| ensures Placed(nodes, items, j) {
        var k := if j < i then j else j + 1;
        DistinctAt(was, k, i - 1);
        DistinctAt(was, k, i + 1);
        DistinctAt(was, k, i);
        assert old(Placed(was, items, k)) && nodes[j] == was[k];
      }
    }

    method SetCost(n: Node, ghost i: nat, cost: U32)
      requires Shape() && i < |nodes| && nodes[i] == n
      modifies this, n`item
      ensures Shape() && index == old(index) && Repr == old(Repr) && nodes == old(nodes) && items == old(items)[i := old(items)[i].(cost := cost)]
      ensures n.item == items[i]
    {
      assert Placed(nodes, items, i);
      n.item := n.item.(cost := cost);
      items := items[i := n.item];
      forall j: nat | j < |nodes| ensures Placed(nodes, items, j) {
        DistinctAt(nodes, i, j);
        assert old(Placed(nodes, items, j));
      }
    }

    method Relink(n: Node, ghost i: nat, cost: U32)
      requires Shape() && i < |nodes| && nodes[i] == n
      modifies Repr
      ensures Shape() && index == old(index) && Repr == old(Repr) && nodes == [n] + Without(old(nodes), i)
      ensures items == [old(items)[i].(cost := cost)] + Without(old(items), i)
    {
      SetCost(n, i, cost);
      Unlink(n, i);
      LinkFront(n);
      assert Without(old(items)[i := old(items)[i].(cost := cost)], i) == Without(old(items), i);
    }

    method SetIndex(m: map<StorageKey, Node>)
      requires Shape()
      modifies this
      ensures Shape() && index == m && Repr == old(Repr) && nodes == old(nodes) && items == old(items)
    {
      index := m;
    }

    /** A node of its own for the entry goes to the front, and its key into the map. */
    method Push(item: Item)
      requires Valid() && item.key !in index
      modifies Repr
      ensures Valid() && fresh(Repr - old(Repr)) && old(Repr) <= Repr
      ensures items == [item] + old(items) && index.Keys == old(index.Keys) + {item.key}
    {
      var n := new Node(item);
      MapAdd(index, nodes, items, n, item);
      var m := index[item.key := n];
      LinkFront(n);
      SetIndex(m);
    }

    /** The entry of the key leaves the list and the map. */
    method Erase(key: StorageKey, ghost i: nat) returns (item: Item)
      requires Valid() && i < |items| && items[i].key == key
      modifies Repr
      ensures Valid() && Repr == old(Repr) && key in old(index) && index == old(index) - {key}
      ensures item == old(items)[i] && items == Without(old(items), i)
    {
      MapErase(index, nodes, items, i);
      assert Named(index, nodes, items, i);
      var n := index[key];
      assert Placed(nodes, items, i);
      item := n.item;
      var m := index - {key};
      Unlink(n, i);
      SetIndex(m);
    }

    /** The entry of the key gets a new cost and moves to the front, as a splice to `begin` does. */
    method Touch(key: StorageKey, cost: U32)
      requires Valid() && key in index
      modifies Repr
      ensures Valid() && Repr == old(Repr) && index == old(index)
      ensures Has(old(items), key) && items == Slru.Touch(old(items), key, cost)
    {
      ghost var i := NodeIndex(index, nodes, items, key);
      MapTouch(index, nodes, items, key, cost);
      var n := index[key];
      Relink(n, i, cost);
    }

    /** Whoever leaves the segment's objects alone leaves the segment as it is. */
    twostate lemma Framed()
      requires old(Valid()) && unchanged(old(Repr))
      ensures Valid() && index == old(index) && items == old(items) && Repr == old(Repr)
    {
    }

    method LastItem() returns (item: Item)
      requires Valid() && size > 0
      ensures |items| > 0 && item == items[|items| - 1]
    {
      item := tail.item;
      assert Placed(nodes, items, |nodes| - 1);
    }

    /** The scan from the cold end of the list. */
    method FindBestVictim() returns (key: StorageKey, ghost v: nat)
      requires Valid() && size > 0
      ensures |items| > 0 && v == BestVictim(items) && key == items[v].key
    {
      var best := tail;
      var it := tail;
      var scanned := 0;
      ghost var i: nat := |nodes| - 1;
      v := i;
      while scanned < SCAN_WINDOW
        invariant scanned <= SCAN_WINDOW && i < |nodes| && v < |nodes|
        invariant nodes[i] == it && nodes[v] == best
        invariant ScanFrom(items, i, SCAN_WINDOW - scanned, v) == BestVictim(items)
        decreases SCAN_WINDOW - scanned
      {
        assert Placed(nodes, items, i) && Placed(nodes, items, v);
        if it.item.chunk > best.item.chunk {
          best, v := it, i;
        } else if it.item.chunk == best.item.chunk && it.item.cost < best.item.cost {
          best, v := it, i;
        }
        if it == head {
          assert i > 0 ==> Apart(nodes, 0, i);
          break;
        }
        it := it.prev;
        i := i - 1;
        scanned := scanned + 1;
      }
      assert Placed(nodes, items, v);
      key := best.item.key;
    }
  }

  class CwSlru {
    const config: Config
    const prot: Segment
    const prob: Segment

    ghost predicate Valid()
      reads prot, prob, prot.Repr, prob.Repr
    {
      && GoodConfig(config) && prot.Valid() && prob.Valid()
      && prot.Repr !! prob.Repr && this !in prot.Repr + prob.Repr
      && prot.index.Keys !! prob.index.Keys
    }

    ghost function Model(): Lists
      reads prot, prob
    {
      Lists(prot.items, prob.items)
    }

    constructor (config: Config)
      requires GoodConfig(config)
      ensures Valid() && fresh(prot.Repr) && fresh(prob.Repr) && this.config == config && Model() == Lists([], [])
    {
      this.config := config;
      prot := new Segment();
      prob := new Segment();
    }

    lemma ModelKeys()
      requires Valid()
      ensures WellFormed(Model()) && Tracked(Model()) == prot.index.Keys + prob.index.Keys
    {
      KeysOnce(prot.index, prot.nodes, prot.items);
      KeysOnce(prob.index, prob.nodes, prob.items);
    }

    lemma Where(k: StorageKey)
      requires Valid()
      ensures k in prot.index <==> Has(Model().prot, k)
      ensures k in prob.index <==> Has(Model().prob, k)
    {
      assert k in prot.index <==> k in KeySet(prot.items);
      assert k in prob.index <==> k in KeySet(prob.items);
    }

    /** Whoever leaves both segments alone leaves the policy as it is. */
    twostate lemma Untouched()
      requires old(Valid()) && unchanged(old(prot.Repr)) && unchanged(old(prob.Repr))
      ensures Valid() && Model() == old(Model()) && prot.Repr == old(prot.Repr) && prob.Repr == old(prob.Repr)
    {
      prot.Framed();
      prob.Framed();
    }

    method TouchProtected(key: StorageKey, cost: U32)
      requires Valid() && key in prot.index
      modifies prot.Repr, prob.Repr
      ensures Valid() && prot.Repr == old(prot.Repr) && prob.Repr == old(prob.Repr) && Has(old(Model()).prot, key)
      ensures Model() == old(Model()).(prot := Touch(old(Model()).prot, key, cost))
    {
      prot.Touch(key, cost);
      prob.Framed();
    }

    method TouchProbationary(key: StorageKey, cost: U32)
      requires Valid() && key in prob.index
      modifies prot.Repr, prob.Repr
      ensures Valid() && prot.Repr == old(prot.Repr) && prob.Repr == old(prob.Repr) && Has(old(Model()).prob, key)
      ensures Model() == old(Model()).(prob := Touch(old(Model()).prob, key, cost))
    {
      prob.Touch(key, cost);
      prot.Framed();
    }

    /** A node of its own for the entry, in front of the protected list. */
    method PushProtected(item: Item)
      requires Valid() && item.key !in prot.index && item.key !in prob.index
      modifies prot.Repr, prob.Repr
      ensures Valid() && fresh(prot.Repr - old(prot.Repr)) && fresh(prob.Repr - old(prob.Repr))
      ensures Model() == old(Model()).(prot := [item] + old(Model()).prot)
    {
      prot.Push(item);
      prob.Framed();
    }

    method PushProbationary(item: Item)
      requires Valid() && item.key !in prot.index && item.key !in prob.index
      modifies prot.Repr, prob.Repr
      ensures Valid() && fresh(prot.Repr - old(prot.Repr)) && fresh(prob.Repr - old(prob.Repr))
      ensures Model() == old(Model()).(prob := [item] + old(Model()).prob)
    {
      prob.Push(item);
      prot.Framed();
    }

    method EraseProtected(key: StorageKey, ghost i: nat) returns (item: Item)
      requires Valid() && i < |prot.items| && prot.items[i].key == key
      modifies prot.Repr, prob.Repr
      ensures Valid() && prot.Repr == old(prot.Repr) && prob.Repr == old(prob.Repr)
      ensures key !in prot.index && key !in prob.index && item == old(prot.items)[i]
      ensures Model() == old(Model()).(prot := Without(old(prot.items), i))
    {
      item := prot.Erase(key, i);
      prob.Framed();
    }

    method EraseProbationary(key: StorageKey, ghost i: nat) returns (item: Item)
      requires Valid() && i < |prob.items| && prob.items[i].key == key
      modifies prot.Repr, prob.Repr
      ensures Valid() && prot.Repr == old(prot.Repr) && prob.Repr == old(prob.Repr)
      ensures key !in prot.index && key !in prob.index && item == old(prob.items)[i]
      ensures Model() == old(Model()).(prob := Without(old(prob.items), i))
    {
      item := prob.Erase(key, i);
      prot.Framed();
    }

    method OnInsert(key: StorageKey, cost: U32, chunk: U32)
      requires Valid()
      modifies prot.Repr, prob.Repr
      ensures Valid() && fresh(prot.Repr - old(prot.Repr)) && fresh(prob.Repr - old(prob.Repr))
      ensures Model() == Insert(old(Model()), key, cost, chunk)
    {
      Where(key);
      if key in prot.index {
        TouchProtected(key, cost);
      } else if key in prob.index {
        TouchProbationary(key, cost);
      } else {
        PushProbationary(Item(key, cost, chunk));
      }
    }

    method OnRemove(key: StorageKey)
      requires Valid()
      modifies prot.Repr, prob.Repr
      ensures Valid() && prot.Repr == old(prot.Repr) && prob.Repr == old(prob.Repr)
      ensures Model() == Remove(old(Model()), key)
    {
      Where(key);
      if key in prot.index {
        var _ := EraseProtected(key, Find(prot.items, key));
      } else if key in prob.index {
        var _ := EraseProbationary(key, Find(prob.items, key));
      }
    }

    /** One turn of the demotion loop. */
    method DemoteLast()
      requires Valid() && prot.size > 0
      modifies prot.Repr, prob.Repr
      ensures Valid() && fresh(prot.Repr - old(prot.Repr)) && fresh(prob.Repr - old(prob.Repr))
      ensures |old(Model()).prot| > 0 && Model() == DemoteOne(old(Model()))
    {
      var entry := prot.LastItem();
      var _ := EraseProtected(entry.key, |prot.items| - 1);
      PushProbationary(entry);
    }

    method DemoteTo(limit: nat)
      requires Valid()
      modifies prot.Repr, prob.Repr
      ensures Valid() && fresh(prot.Repr - old(prot.Repr)) && fresh(prob.Repr - old(prob.Repr))
      ensures Model() == Demote(old(Model()), limit)
    {
      ghost var goal := Demote(Model(), limit);
      while prot.size > limit && prot.size > 0
        invariant Valid() && fresh(prot.Repr - old(prot.Repr)) && fresh(prob.Repr - old(prob.Repr))
        invariant Demote(Model(), limit) == goal
        decreases prot.size
      {
        DemoteLast();
      }
    }

    method DemoteOverflow()
      requires Valid()
      modifies prot.Repr, prob.Repr
      ensures Valid() && fresh(prot.Repr - old(prot.Repr)) && fresh(prob.Repr - old(prob.Repr))
      ensures Model() == Demote(old(Model()), MaxProtected(config, old(Model())))
    {
      var limit := if config.maxEntries > 0 then config.maxEntries * config.num / config.den
                   else (prot.size + prob.size) * config.num / config.den;
      assert limit == MaxProtected(config, Model());
      DemoteTo(limit);
    }

    method PromoteEntry(key: StorageKey, cost: U32)
      requires Valid() && key in prob.index && Has(Model().prob, key)
      modifies prot.Repr, prob.Repr
      ensures Valid() && fresh(prot.Repr - old(prot.Repr)) && fresh(prob.Repr - old(prob.Repr))
      ensures Model() == Promote(old(Model()), key, cost)
    {
      var entry := EraseProbationary(key, Find(prob.items, key));
      PushProtected(entry.(cost := cost));
    }

    method OnAccess(key: StorageKey, cost: U32)
      requires Valid()
      modifies prot.Repr, prob.Repr
      ensures Valid() && fresh(prot.Repr - old(prot.Repr)) && fresh(prob.Repr - old(prob.Repr))
      ensures Model() == Access(config, old(Model()), key, cost)
    {
      Where(key);
      if key in prot.index {
        TouchProtected(key, cost);
      } else if key in prob.index {
        if cost >= config.threshold {
          PromoteEntry(key, cost);
          DemoteOverflow();
        } else {
          TouchProbationary(key, cost);
        }
      }
    }

    method Evict() returns (victim: Option<StorageKey>)
      requires Valid()
      modifies prot.Repr, prob.Repr
      ensures Valid() && prot.Repr == old(prot.Repr) && prob.Repr == old(prob.Repr)
      ensures (Model(), victim) == Slru.Evict(old(Model()))
    {
      ghost var v: nat;
      var key: StorageKey;
      if prob.size > 0 {
        key, v := prob.FindBestVictim();
        victim := Some(key);
        var _ := EraseProbationary(key, v);
      } else if prot.size > 0 {
        key, v := prot.FindBestVictim();
        victim := Some(key);
        var _ := EraseProtected(key, v);
      } else {
        victim := None;
      }
    }
  }
}
