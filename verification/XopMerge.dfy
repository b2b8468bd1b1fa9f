/** The collector of a XOP: a merge of the results of all nodes by key. */
module XopMerge {
  import opened XopFifo

  const KEY_MAX := 0xFFFF_FFFF_FFFF_FFFF

  /** What the cluster check says about the results at hand. */
  datatype Verdict = Accept | NotFound | InProgress

  type Item = Slot<nat>

  /** A cluster check that accepts the lowest key: it waits for every node that has neither a
      result nor ended, and then accepts, unless no node has a result. */
  ghost predicate AcceptsLowest(check: (seq<Item>, seq<bool>, nat, bool) -> Verdict) {
    forall items: seq<Item>, ended: seq<bool>, lokey: nat, none: bool {:trigger check(items, ended, lokey, none)} :: |ended| == |items| ==>
      check(items, ended, lokey, none) ==
        if exists i :: 0 <= i < |items| && items[i].Null? && !ended[i] then InProgress
        else if none then NotFound else Accept
  }

  /** Ascending keys, then NULL, which ends the feed. */
  ghost predicate WellFed(s: seq<Item>) {
    && (forall i :: 0 <= i < |s| ==> (s[i].Null? <==> i == |s| - 1) && (s[i].Some? ==> s[i].value < KEY_MAX))
    && (forall i, j :: 0 <= i < j < |s| - 1 ==> s[i].value <= s[j].value)
  }

  lemma WellFedRest(s: seq<Item>)
    requires WellFed(s) && s != []
    ensures WellFed(s[1..]) && (s[0].Null? <==> s[1..] == [])
    ensures s[0].Some? ==> forall k: nat {:trigger Item.Some(k) in s} :: Item.Some(k) in s ==> s[0].value <= k
    ensures forall k: nat {:trigger Item.Some(k) in s} :: Item.Some(k) in s <==> s[0] == Item.Some(k) || Item.Some(k) in s[1..]
  {
    var t := s[1..];
    forall i | 0 <= i < |t| ensures t[i] == s[i + 1] {}
  }

  /** One node: its FIFO, its current result, whether it has fed NULL (CITEM_NULL), and what its
      worker is still going to feed. */
  datatype Feed = Feed(fifo: Fifo<nat>, item: Item, ended: bool, coming: seq<Item>)

  /** What a node has not passed yet. */
  ghost function Rem(n: Feed): seq<Item>
    requires FifoOk(n.fifo)
  {
    (if n.item.Some? then [n.item] else []) + (Contents(n.fifo) + n.coming)
  }

  ghost predicate FeedOk(n: Feed) {
    FifoOk(n.fifo) && WellFed(Rem(n)) && (n.ended <==> Rem(n) == [])
  }

  /** The key is still to come from this node. */
  ghost predicate HasKey(n: Feed, k: nat)
    requires FifoOk(n.fifo)
  {
    Item.Some(k) in Rem(n)
  }

  /** The scan is done with the node: it shows a key that is not below `ck`, or its FIFO is empty. */
  ghost predicate Settled(n: Feed, ck: nat) {
    if n.item.Some? then n.item.value >= ck else n.fifo.ri == n.fifo.wi
  }

  /** The scan has been there: a key that the node shows is not below `ck`. */
  predicate Looked(n: Feed, ck: nat) { n.item.Some? ==> n.item.value >= ck }

  /** No key from `ck` on is lost. */
  ghost predicate KeepsFrom(n: Feed, n': Feed, ck: nat)
    requires FifoOk(n.fifo) && FifoOk(n'.fifo)
  {
    forall k: nat {:trigger HasKey(n, k)} {:trigger HasKey(n', k)} :: k >= ck ==> (HasKey(n, k) <==> HasKey(n', k))
  }

  /** Pass a current result that is too low, and take the next one. */
  lemma PopKeeps(n: Feed, ck: nat)
    requires FeedOk(n) && n.fifo.ri < n.fifo.wi && (n.item.Some? ==> n.item.value < ck)
    ensures var n' := n.(item := First(n.fifo), fifo := XopFifo.Rest(n.fifo), ended := n.ended || First(n.fifo).Null?);
      FeedOk(n') && KeepsFrom(n, n', ck)
  {
    TakeContents(n.fifo);
    var f, c := First(n.fifo), Contents(XopFifo.Rest(n.fifo)) + n.coming;
    var n' := n.(item := f, fifo := XopFifo.Rest(n.fifo), ended := n.ended || f.Null?);
    assert Contents(n.fifo) + n.coming == [f] + c;
    var m := n.(item := Item.Null);
    assert Rem(m) == [f] + c;
    if n.item.Some? {
      assert Rem(n)[1..] == Rem(m);
      WellFedRest(Rem(n));
    } else {
      assert Rem(n) == Rem(m);
    }
    WellFedRest(Rem(m));
    assert Rem(m)[1..] == c;
    if f.Null? {
      assert c == [];
      assert Rem(n') == [];
    } else {
      assert Rem(n') == Rem(m);
    }
  }

  lemma DropKeeps(n: Feed, ck: nat)
    requires FeedOk(n) && n.fifo.ri == n.fifo.wi && (n.item.Some? ==> n.item.value < ck)
    ensures var n' := n.(item := Item.Null); FeedOk(n') && KeepsFrom(n, n', ck)
  {
    if n.item.Some? {
      assert Rem(n)[1..] == Rem(n.(item := Item.Null));
      WellFedRest(Rem(n));
    }
  }

  /** A worker feeds its next result. */
  method FeedOne(n: Feed) returns (n': Feed)
    requires FeedOk(n) && n.coming != [] && !Full(n.fifo)
    ensures FeedOk(n') && n'.item == n.item && n'.ended == n.ended && Rem(n') == Rem(n) && |n'.coming| < |n.coming|
  {
    n' := n.(fifo := Put(n.fifo, n.coming[0]), coming := n.coming[1..]);
    PutContents(n.fifo, n.coming[0]);
    assert (Contents(n.fifo) + [n.coming[0]]) + n.coming[1..] == Contents(n.fifo) + n.coming;
  }

  /** The part of the first loop for one node; its worker may feed at any time. */
  method Advance(n: Feed, ck: nat) returns (n': Feed, fed: bool)
    requires FeedOk(n)
    ensures FeedOk(n') && KeepsFrom(n, n', ck) && Looked(n', ck)
    ensures if fed then |n'.coming| < |n.coming| else n'.coming == n.coming && Settled(n', ck)
  {
    hide FeedOk, HasKey, Rem;
    n', fed := n, false;
    FifoThere(n);
    while true
      invariant FeedOk(n') && FifoOk(n.fifo) && FifoOk(n'.fifo) && KeepsFrom(n, n', ck)
      invariant if fed then |n'.coming| < |n.coming| else n'.coming == n.coming
      decreases |n'.coming|, n'.fifo.wi - n'.fifo.ri
    {
      if * {
        if n'.coming != [] && !Full(n'.fifo) {
          ghost var before := n';
          n' := FeedOne(n');
          fed := true;
          FifoThere(n');
          FedKeeps(n, before, n', ck);
          continue;
        }
      }
      if n'.item.Some? && n'.item.value >= ck {
        return;
      }
      if n'.fifo.ri != n'.fifo.wi {
        PopKeeps(n', ck);
        var next := First(n'.fifo);
        n' := n'.(item := next, fifo := XopFifo.Rest(n'.fifo), ended := n'.ended || next.Null?);
        FifoThere(n');
      } else {
        DropKeeps(n', ck);
        n' := n'.(item := Item.Null);
        return;
      }
    }
  }

  /** What a fed node still has is what it had. */
  lemma FedKeeps(n: Feed, m: Feed, m': Feed, ck: nat)
    requires FifoOk(n.fifo) && FifoOk(m.fifo) && FifoOk(m'.fifo) && Rem(m') == Rem(m)
    ensures KeepsFrom(n, m, ck) ==> KeepsFrom(n, m', ck)
    ensures KeepsFrom(m, m', ck)
  {
    forall k: nat {:trigger HasKey(m', k)} {:trigger HasKey(m, k)} ensures HasKey(m', k) <==> HasKey(m, k) {}
  }

  lemma FifoThere(n: Feed)
    requires FeedOk(n)
    ensures FifoOk(n.fifo)
  {}

  // ---------------------------------------------------------------- all nodes

  ghost predicate AllOk(nodes: seq<Feed>) { forall i {:trigger nodes[i]} :: 0 <= i < |nodes| ==> FeedOk(nodes[i]) }

  /** A key that some node has not passed yet. */
  ghost predicate Pending(nodes: seq<Feed>, k: nat)
    requires AllOk(nodes)
  {
    exists i {:trigger nodes[i]} :: 0 <= i < |nodes| && HasKey(nodes[i], k)
  }

  ghost predicate Kept(nodes: seq<Feed>, nodes': seq<Feed>, ck: nat)
    requires AllOk(nodes) && AllOk(nodes')
  {
    |nodes'| == |nodes| && forall i {:trigger nodes[i]} {:trigger nodes'[i]} :: 0 <= i < |nodes| ==> KeepsFrom(nodes[i], nodes'[i], ck)
  }

  lemma KeptPending(nodes: seq<Feed>, nodes': seq<Feed>, ck: nat, k: nat)
    requires AllOk(nodes) && AllOk(nodes') && Kept(nodes, nodes', ck) && k >= ck
    ensures Pending(nodes, k) <==> Pending(nodes', k)
  {
    if Pending(nodes, k) {
      var i :| 0 <= i < |nodes| && HasKey(nodes[i], k);
      assert HasKey(nodes'[i], k);
    }
    if Pending(nodes', k) {
      var i :| 0 <= i < |nodes'| && HasKey(nodes'[i], k);
      assert HasKey(nodes[i], k);
    }
  }

  lemma KeptTrans(a: seq<Feed>, b: seq<Feed>, c: seq<Feed>, ck: nat)
    requires AllOk(a) && AllOk(b) && AllOk(c) && Kept(a, b, ck) && Kept(b, c, ck)
    ensures Kept(a, c, ck)
  {
    forall i {:trigger a[i]} | 0 <= i < |a| ensures KeepsFrom(a[i], c[i], ck) {
      assert KeepsFrom(a[i], b[i], ck) && KeepsFrom(b[i], c[i], ck);
    }
  }

  ghost function Coming(nodes: seq<Feed>): nat {
    if nodes == [] then 0 else |nodes[0].coming| + Coming(nodes[1..])
  }

  lemma {:induction false} ComingUpdate(nodes: seq<Feed>, i: nat, n: Feed)
    requires i < |nodes|
    ensures Coming(nodes[i := n]) == Coming(nodes) - |nodes[i].coming| + |n.coming|
  {
    if i > 0 {
      assert nodes[i := n][1..] == nodes[1..][i - 1 := n];
      ComingUpdate(nodes[1..], i - 1, n);
    }
  }

  /** The lowest key at hand. */
  ghost predicate Lowest(nodes: seq<Feed>, lokey: nat, none: bool) {
    && (forall i {:trigger nodes[i]} :: 0 <= i < |nodes| && nodes[i].item.Some? ==> !none && lokey <= nodes[i].item.value)
    && (none ==> lokey == KEY_MAX)
    && (!none ==> exists i {:trigger nodes[i]} :: 0 <= i < |nodes| && nodes[i].item == Item.Some(lokey))
  }

  lemma LowestNone()
    ensures Lowest([], KEY_MAX, true)
  {}

  lemma LowestMore(nodes: seq<Feed>, n: Feed, lokey: nat, none: bool)
    requires Lowest(nodes, lokey, none) && (n.item.Some? ==> n.item.value < KEY_MAX)
    ensures n.item.Some? ==> Lowest(nodes + [n], if lokey > n.item.value then n.item.value else lokey, false)
    ensures n.item.Null? ==> Lowest(nodes + [n], lokey, none)
  {
    var all := nodes + [n];
    assert all[|nodes|] == n;
    forall i {:trigger all[i]} | 0 <= i < |nodes| ensures all[i] == nodes[i] {}
    if !none {
      var i :| 0 <= i < |nodes| && nodes[i].item == Item.Some(lokey);
      assert all[i].item == Item.Some(lokey);
    }
  }

  /** The first loop of the collector: `fed` says whether a worker fed meanwhile, which changes
      the run mask. */
  method Scan(nodes: seq<Feed>, ck: nat) returns (nodes': seq<Feed>, lokey: nat, none: bool, fed: bool)
    requires AllOk(nodes)
    ensures AllOk(nodes') && Kept(nodes, nodes', ck) && Lowest(nodes', lokey, none)
    ensures if fed then Coming(nodes') < Coming(nodes) else Coming(nodes') == Coming(nodes)
    ensures forall i {:trigger nodes'[i]} :: 0 <= i < |nodes| ==> Looked(nodes'[i], ck) && (!fed ==> Settled(nodes'[i], ck))
  {
    hide FeedOk, Settled, HasKey, Looked, Kept, Lowest;
    lokey, none, nodes', fed := KEY_MAX, true, nodes, false;
    KeptSelf(nodes);
    KeptFrom(nodes, nodes, ck);
    LowestNone();
    for i := 0 to |nodes|
      invariant AllOk(nodes') && Kept(nodes, nodes', ck) && |nodes'| == |nodes| && Lowest(nodes'[..i], lokey, none)
      invariant if fed then Coming(nodes') < Coming(nodes) else Coming(nodes') == Coming(nodes)
      invariant forall j {:trigger nodes'[j]} :: 0 <= j < i ==> Looked(nodes'[j], ck) && (!fed ==> Settled(nodes'[j], ck))
    {
      var more;
      ghost var nodes1 := nodes';
      nodes', more := Feeds(nodes', false);
      KeptFrom(nodes1, nodes', ck);
      LowestSame(nodes1[..i], nodes'[..i], lokey, none);
      LookedSame(nodes1, nodes', i, ck);
      KeptTrans(nodes, nodes1, nodes', ck);
      ghost var nodes2 := nodes';
      var n, mine := Advance(nodes'[i], ck);
      AdvanceKept(nodes2, i, n, ck);
      nodes' := nodes'[i := n];
      KeptTrans(nodes, nodes2, nodes', ck);
      fed := fed || more || mine;
      KeyBelowMax(n);
      LowestMore(nodes2[..i], n, lokey, none);
      assert nodes'[..i + 1] == nodes2[..i] + [n];
      if n.item.Some? {
        none := false;
        if lokey > n.item.value {
          lokey := n.item.value;
        }
      }
    }
    assert nodes'[..|nodes|] == nodes';
  }

  lemma LowestSame(nodes: seq<Feed>, nodes': seq<Feed>, lokey: nat, none: bool)
    requires Lowest(nodes, lokey, none) && |nodes'| == |nodes| && forall i {:trigger nodes[i]} {:trigger nodes'[i]} ::
      0 <= i < |nodes| ==> nodes'[i].item == nodes[i].item
    ensures Lowest(nodes', lokey, none)
  {
    if !none {
      var i :| 0 <= i < |nodes| && nodes[i].item == Item.Some(lokey);
      assert nodes'[i].item == Item.Some(lokey);
    }
  }

  lemma LookedSame(nodes: seq<Feed>, nodes': seq<Feed>, k: nat, ck: nat)
    requires k <= |nodes| == |nodes'| && forall i {:trigger nodes[i]} {:trigger nodes'[i]} ::
      0 <= i < |nodes| ==> nodes'[i].item == nodes[i].item
    ensures (forall i {:trigger nodes[i]} :: 0 <= i < k ==> Looked(nodes[i], ck)) ==>
      (forall i {:trigger nodes'[i]} :: 0 <= i < k ==> Looked(nodes'[i], ck))
  {}

  lemma AdvanceKept(nodes: seq<Feed>, i: nat, n: Feed, ck: nat)
    requires AllOk(nodes) && i < |nodes| && FeedOk(n) && KeepsFrom(nodes[i], n, ck)
    ensures AllOk(nodes[i := n]) && Kept(nodes, nodes[i := n], ck) &&
      Coming(nodes[i := n]) == Coming(nodes) - |nodes[i].coming| + |n.coming|
  {
    ComingUpdate(nodes, i, n);
  }

  lemma KeyBelowMax(n: Feed)
    requires FeedOk(n)
    ensures n.item.Some? ==> n.item.value < KEY_MAX
  {
    if n.item.Some? {
      assert Rem(n)[0] == n.item;
    }
  }

  /** While the collector is not looking, workers feed any number of results; if it sleeps, at
      least one. */
  method Feeds(nodes: seq<Feed>, some: bool) returns (nodes': seq<Feed>, fed: bool)
    requires AllOk(nodes)
    requires some ==> exists i {:trigger nodes[i]} ::
      0 <= i < |nodes| && nodes[i].coming != [] && FifoOk(nodes[i].fifo) && !Full(nodes[i].fifo)
    ensures AllOk(nodes') && Kept(nodes, nodes', 0) && (some ==> fed)
    ensures if fed then Coming(nodes') < Coming(nodes) else nodes' == nodes
    ensures forall i {:trigger nodes[i]} {:trigger nodes'[i]} :: 0 <= i < |nodes| ==>
      nodes'[i].item == nodes[i].item && nodes'[i].ended == nodes[i].ended
  {
    hide FeedOk, HasKey, Rem;
    nodes', fed := nodes, false;
    KeptSelf(nodes);
    var more: bool := *;
    more := more || some;
    while more
      invariant AllOk(nodes') && Kept(nodes, nodes', 0)
      invariant if fed then Coming(nodes') < Coming(nodes) else nodes' == nodes
      invariant some ==> more || fed
      invariant forall i {:trigger nodes[i]} {:trigger nodes'[i]} :: 0 <= i < |nodes| ==>
        nodes'[i].item == nodes[i].item && nodes'[i].ended == nodes[i].ended
      decreases Coming(nodes'), more
    {
      if i :| 0 <= i < |nodes'| && nodes'[i].coming != [] && FifoOk(nodes'[i].fifo) && !Full(nodes'[i].fifo) {
        var n := FeedOne(nodes'[i]);
        FifoThere(n);
        FedKeeps(n, nodes'[i], n, 0);
        AdvanceKept(nodes', i, n, 0);
        KeptTrans(nodes, nodes', nodes'[i := n], 0);
        nodes', fed := nodes'[i := n], true;
        more := *;
      } else {
        more := false;
      }
    }
  }

  lemma KeptSelf(nodes: seq<Feed>)
    requires AllOk(nodes)
    ensures Kept(nodes, nodes, 0)
  {}

  // ---------------------------------------------------------------- collecting

  function Items(nodes: seq<Feed>): seq<Item> { seq(|nodes|, i requires 0 <= i < |nodes| => nodes[i].item) }

  function Ended(nodes: seq<Feed>): seq<bool> { seq(|nodes|, i requires 0 <= i < |nodes| => nodes[i].ended) }

  /** What the check decides about nodes that the scan has seen. */
  lemma Decided(check: (seq<Item>, seq<bool>, nat, bool) -> Verdict, nodes: seq<Feed>, ck: nat, lokey: nat, none: bool)
    requires AcceptsLowest(check) && AllOk(nodes) && Lowest(nodes, lokey, none)
    requires forall i {:trigger nodes[i]} :: 0 <= i < |nodes| ==> Looked(nodes[i], ck)
    ensures match check(Items(nodes), Ended(nodes), lokey, none)
      case InProgress => (forall i {:trigger nodes[i]} :: 0 <= i < |nodes| ==> Settled(nodes[i], ck)) ==>
        exists i {:trigger nodes[i]} :: 0 <= i < |nodes| && nodes[i].coming != [] && FifoOk(nodes[i].fifo) && !Full(nodes[i].fifo)
      case NotFound => lokey == KEY_MAX && forall k: nat {:trigger Pending(nodes, k)} :: !Pending(nodes, k)
      case Accept => ck <= lokey < KEY_MAX && Pending(nodes, lokey) && forall k: nat {:trigger Pending(nodes, k)} ::
        Pending(nodes, k) ==> lokey <= k
  {
    var items, ended := Items(nodes), Ended(nodes);
    var v := check(items, ended, lokey, none);
    if i :| 0 <= i < |items| && items[i].Null? && !ended[i] {
      assert Settled(nodes[i], ck) ==> Rem(nodes[i]) == nodes[i].coming;
    } else {
      forall k: nat {:trigger Pending(nodes, k)} | Pending(nodes, k) ensures lokey <= k && !none {
        var i :| 0 <= i < |nodes| && HasKey(nodes[i], k);
        HeadLowest(nodes[i], k);
        assert items[i] == nodes[i].item;
      }
      if !none {
        var i :| 0 <= i < |nodes| && nodes[i].item == Item.Some(lokey);
        assert Rem(nodes[i])[0] == Item.Some(lokey);
        assert HasKey(nodes[i], lokey);
        KeyBelowMax(nodes[i]);
      }
    }
  }

  lemma HeadLowest(n: Feed, k: nat)
    requires FeedOk(n) && HasKey(n, k)
    ensures !n.ended && (n.item.Some? ==> n.item.value <= k)
  {
    WellFedRest(Rem(n));
  }

  class Collector {
    const check: (seq<Item>, seq<bool>, nat, bool) -> Verdict
    var nodes: seq<Feed>
    var collectKey: nat

    ghost predicate Valid()
      reads this
    {
      AcceptsLowest(check) && AllOk(nodes) && collectKey <= KEY_MAX
    }

    constructor (check: (seq<Item>, seq<bool>, nat, bool) -> Verdict, size: nat, feeds: seq<seq<Item>>)
      requires AcceptsLowest(check) && size > 0
      requires forall i {:trigger feeds[i]} :: 0 <= i < |feeds| ==> WellFed(feeds[i]) && feeds[i] != []
      ensures Valid() && collectKey == 0
      ensures forall k: nat {:trigger Pending(nodes, k)} :: Pending(nodes, k) <==> Among(feeds, k)
    {
      this.check := check;
      nodes := seq(|feeds|, i requires 0 <= i < |feeds| => Feed(Fifo(0, 0, seq(size, j => Item.Null)), Item.Null, false, feeds[i]));
      collectKey := 0;
      new;
      forall i {:trigger nodes[i]} | 0 <= i < |nodes| ensures FeedOk(nodes[i]) && Rem(nodes[i]) == feeds[i] {
        assert [] + ([] + feeds[i]) == feeds[i];
      }
      forall k: nat {:trigger Pending(nodes, k)} ensures Pending(nodes, k) <==> Among(feeds, k) {
        if i :| 0 <= i < |feeds| && Item.Some(k) in feeds[i] {
          assert HasKey(nodes[i], k);
        }
        if Pending(nodes, k) {
          var i :| 0 <= i < |nodes| && HasKey(nodes[i], k);
          assert Item.Some(k) in feeds[i];
        }
      }
    }

    /** `hammer2_xop_collect`: the lowest key from `collectKey` on that any node still has, or
        the end.  Workers feed before, during and after the scan; if none did, the collector
        sleeps until one does.  No key is lost and none comes twice. */
    method Collect() returns (found: bool, key: nat)
      requires Valid()
      modifies this
      ensures Valid() && collectKey >= old(collectKey)
      ensures found ==> old(collectKey) <= key < collectKey == key + 1 && Pending(old(nodes), key)
      ensures found ==> forall k: nat {:trigger Pending(old(nodes), k)} :: old(collectKey) <= k < key ==> !Pending(old(nodes), k)
      ensures !found ==> collectKey == KEY_MAX && forall k: nat {:trigger Pending(old(nodes), k)} ::
        k >= old(collectKey) ==> !Pending(old(nodes), k)
      ensures Kept(old(nodes), nodes, old(collectKey))
    {
      hide FeedOk, HasKey, Settled, Pending, Lowest;
      ghost var nodes0, ck := nodes, collectKey;
      KeptSelf(nodes);
      KeptFrom(nodes, nodes, ck);
      while true
        invariant Valid() && collectKey == ck && Kept(nodes0, nodes, ck)
        decreases Coming(nodes)
      {
        ghost var nodes1 := nodes;
        var lokey, none, fed;
        nodes, fed := Feeds(nodes, false);
        KeptFrom(nodes1, nodes, ck);
        KeptTrans(nodes0, nodes1, nodes, ck);
        nodes1 := nodes;
        nodes, lokey, none, fed := Scan(nodes, collectKey);
        KeptTrans(nodes0, nodes1, nodes, ck);
        Decided(check, nodes, ck, lokey, none);
        var verdict := check(Items(nodes), Ended(nodes), lokey, none);
        if verdict != InProgress {
          collectKey := if lokey == KEY_MAX then lokey else lokey + 1;
          forall k: nat {:trigger Pending(nodes0, k)} | k >= ck ensures Pending(nodes0, k) == Pending(nodes, k) {
            KeptPending(nodes0, nodes, ck, k);
          }
          return verdict == Accept, lokey;
        }
        if !fed {
          ghost var nodes2 := nodes;
          nodes, fed := Feeds(nodes, true);
          KeptFrom(nodes2, nodes, ck);
          KeptTrans(nodes0, nodes2, nodes, ck);
        }
      }
    }

    /** Collecting until the end yields the sorted union of the keys of all nodes. */
    method CollectAll() returns (keys: seq<nat>)
      requires Valid()
      modifies this
      ensures Valid() && forall i, j :: 0 <= i < j < |keys| ==> keys[i] < keys[j]
      ensures forall k: nat {:trigger k in keys} :: k in keys <==> k >= old(collectKey) && Pending(old(nodes), k)
    {
      hide FeedOk, HasKey, Pending;
      ghost var nodes0, ck0 := nodes, collectKey;
      keys := [];
      KeptSelf(nodes);
      KeptFrom(nodes, nodes, ck0);
      while true
        invariant Valid() && collectKey >= ck0 && Kept(nodes0, nodes, collectKey)
        invariant (forall i, j :: 0 <= i < j < |keys| ==> keys[i] < keys[j]) && forall i :: 0 <= i < |keys| ==> keys[i] < collectKey
        invariant forall k: nat {:trigger k in keys} :: k in keys <==> ck0 <= k < collectKey && Pending(nodes0, k)
        decreases KEY_MAX - collectKey
      {
        ghost var nodes1, ck1 := nodes, collectKey;
        var found, key := Collect();
        forall k: nat | k >= ck1 ensures Pending(nodes0, k) == Pending(nodes1, k) {
          KeptPending(nodes0, nodes1, ck1, k);
        }
        if !found {
          assert forall k: nat {:trigger Pending(nodes1, k)} :: k >= ck1 ==> !Pending(nodes1, k);
          return;
        }
        KeptTrans(nodes0, nodes1, nodes, ck1);
        KeptUp(nodes0, nodes, ck1, collectKey);
        keys := keys + [key];
      }
    }
  }

  lemma KeptUp(a: seq<Feed>, b: seq<Feed>, ck: nat, ck': nat)
    requires AllOk(a) && AllOk(b) && Kept(a, b, ck) && ck <= ck'
    ensures Kept(a, b, ck')
  {
    forall i {:trigger a[i]} {:trigger b[i]} | 0 <= i < |a| ensures KeepsFrom(a[i], b[i], ck') {
      assert KeepsFrom(a[i], b[i], ck);
    }
  }

  ghost predicate Among(feeds: seq<seq<Item>>, k: nat) { exists i {:trigger feeds[i]} :: 0 <= i < |feeds| && Item.Some(k) in feeds[i] }

  lemma KeptFrom(a: seq<Feed>, b: seq<Feed>, ck: nat)
    requires AllOk(a) && AllOk(b) && Kept(a, b, 0)
    ensures Kept(a, b, ck) && |b| == |a|
  {
    forall i {:trigger a[i]} {:trigger b[i]} | 0 <= i < |a| ensures KeepsFrom(a[i], b[i], ck) {
      assert KeepsFrom(a[i], b[i], 0);
    }
  }
}
