/** The SPAN topology of one daemon: the links received for each node, the connections with
    their relays, and the scan that reconciles the two. */
module Spans {
  import opened SpanOrder

  const DMSG_SPAN_MAXDIST := 16

  /** What the two kinds of trees and queues hold must agree. */
  datatype Topology = Topology(links: map<nat, seq<Link>>, conns: map<nat, seq<Link>>, relayq: map<Link, set<nat>>)

  ghost predicate NodesOk(t: Topology) {
    && (forall n {:trigger t.links[n]} :: n in t.links ==> t.links[n] != [] && Sorted(t.links[n]))
    && (forall n, l {:trigger l in t.links[n]} :: n in t.links && l in t.links[n] ==> l.node == n && l in t.relayq)
    && (forall l {:trigger l in t.relayq} :: l in t.relayq ==> l.node in t.links && l in t.links[l.node])
    && (forall l, k {:trigger l in t.relayq, k in t.relayq} :: l in t.relayq && k in t.relayq && l.state == k.state ==> l == k)
  }

  /** A connection's tree and the links' relay queues hold the same relays. */
  ghost predicate RelaysOk(t: Topology) {
    && (forall c {:trigger t.conns[c]} :: c in t.conns ==> Sorted(t.conns[c]))
    && (forall c, l {:trigger l in t.conns[c]} :: c in t.conns && l in t.conns[c] ==> l in t.relayq && c in t.relayq[l])
    && (forall c, l {:trigger c in t.relayq[l]} :: l in t.relayq && c in t.relayq[l] ==> c in t.conns && l in t.conns[c])
  }

  /** The SPAN that a relay of `l` sends: one farther, with a sub-distance of the sender's
      making; the receiver, on connection `iocom`, will know it by `state`. */
  function Relayed(l: Link, rnss: nat, state: nat, iocom: nat): Link {
    Link(state, l.node, l.dist + 1, rnss, iocom)
  }

  /** What becomes of a topology when a link comes. */
  function Created(t: Topology, l: Link): Topology {
    var tree := if l.node in t.links then t.links[l.node] else [];
    Topology(t.links[l.node := Insert(tree, l)], t.conns, t.relayq[l := {}])
  }

  /** When a link goes that is not relayed. */
  function Removed(t: Topology, l: Link): Topology
    requires l.node in t.links && l in t.links[l.node]
  {
    var rest := Without(t.links[l.node], Index(t.links[l.node], l));
    Topology(if rest == [] then t.links - {l.node} else t.links[l.node := rest], t.conns, t.relayq - {l})
  }

  /** When a link is relayed on a connection. */
  function Generated(t: Topology, c: nat, l: Link): Topology
    requires c in t.conns && l in t.relayq
  {
    t.(conns := t.conns[c := Insert(t.conns[c], l)], relayq := t.relayq[l := t.relayq[l] + {c}])
  }

  /** When a relay ends. */
  function Deleted(t: Topology, c: nat, l: Link): Topology
    requires c in t.conns && l in t.conns[c] && l in t.relayq
  {
    t.(conns := t.conns[c := Without(t.conns[c], Index(t.conns[c], l))], relayq := t.relayq[l := t.relayq[l] - {c}])
  }

  /** No link has the state. */
  ghost predicate Fresh(t: Topology, state: nat) {
    forall k {:trigger k in t.relayq} :: k in t.relayq ==> k.state != state
  }

  lemma CreatedOk(t: Topology, l: Link)
    requires NodesOk(t) && RelaysOk(t) && Fresh(t, l.state)
    ensures NodesOk(Created(t, l)) && RelaysOk(Created(t, l))
  {
    var tree := if l.node in t.links then t.links[l.node] else [];
    InsertSorted(tree, l);
  }

  lemma GeneratedOk(t: Topology, c: nat, l: Link)
    requires NodesOk(t) && RelaysOk(t) && c in t.conns && l in t.relayq && l !in t.conns[c]
    ensures NodesOk(Generated(t, c, l)) && RelaysOk(Generated(t, c, l)) && Generated(t, c, l).relayq.Keys == t.relayq.Keys
    ensures forall k {:trigger k in Generated(t, c, l).conns[c]} :: k in Generated(t, c, l).conns[c] <==> k in t.conns[c] || k == l
  {
    assert forall k {:trigger k in t.conns[c]} :: k in t.conns[c] ==> k in t.relayq;
    InsertSorted(t.conns[c], l);
  }

  lemma DeletedOk(t: Topology, c: nat, l: Link)
    requires NodesOk(t) && RelaysOk(t) && c in t.conns && l in t.conns[c] && l in t.relayq
    ensures NodesOk(Deleted(t, c, l)) && RelaysOk(Deleted(t, c, l)) && Deleted(t, c, l).relayq.Keys == t.relayq.Keys
    ensures forall k {:trigger k in Deleted(t, c, l).conns[c]} :: k in Deleted(t, c, l).conns[c] <==> k in t.conns[c] && k != l
  {
    WithoutSorted(t.conns[c], Index(t.conns[c], l));
  }

  class Daemon {
    var links: map<nat, seq<Link>>
    var conns: map<nat, seq<Link>>
    var relayq: map<Link, set<nat>>
    /** The peer type and peer id filters of a connection. */
    const peerOk: (nat, Link) -> bool

    ghost function Top(): Topology
      reads this
    {
      Topology(links, conns, relayq)
    }

    /** A SPAN that the scan may relay: not too far, not back where it came from, and wanted. */
    predicate Filters(c: nat, l: Link) { l.dist <= DMSG_SPAN_MAXDIST && l.iocom != c && peerOk(c, l) }

    ghost predicate Valid()
      reads this
    {
      && NodesOk(Top()) && RelaysOk(Top())
      && forall c, l {:trigger l in conns[c]} :: c in conns && l in conns[c] ==> Filters(c, l)
    }

    constructor (peerOk: (nat, Link) -> bool)
      ensures Valid() && links == map[] && conns == map[]
    {
      this.peerOk := peerOk;
      links, conns, relayq := map[], map[], map[];
    }

    /** `dmsg_relay_delete`. */
    method RelayDelete(c: nat, l: Link)
      requires Valid() && c in conns && l in conns[c]
      modifies this`conns, this`relayq
      ensures Valid() && conns.Keys == old(conns.Keys) && relayq.Keys == old(relayq.Keys)
      ensures l in old(relayq) && Top() == Deleted(old(Top()), c, l)
      ensures Sorted(conns[c]) && forall k {:trigger k in conns[c]} :: k in conns[c] <==> k in old(conns)[c] && k != l
      ensures exists p :: 0 <= p < |old(conns)[c]| && old(conns)[c][p] == l && conns[c] == Without(old(conns)[c], p)
      ensures forall d {:trigger conns[d]} :: d in conns && d != c ==> conns[d] == old(conns)[d]
      ensures relayq[l] == old(relayq)[l] - {c} && forall k {:trigger relayq[k]} :: k in relayq && k != l ==> relayq[k] == old(relayq)[k]
    {
      DeletedOk(Top(), c, l);
      conns := conns[c := Without(conns[c], Index(conns[c], l))];
      relayq := relayq[l := relayq[l] - {c}];
    }

    /** `dmsg_generate_relay`. */
    method GenerateRelay(c: nat, l: Link)
      requires Valid() && c in conns && l in relayq && l !in conns[c] && Filters(c, l)
      modifies this`conns, this`relayq
      ensures Valid() && conns.Keys == old(conns.Keys) && relayq.Keys == old(relayq.Keys)
      ensures Top() == Generated(old(Top()), c, l)
      ensures conns[c] == Insert(old(conns)[c], l)
      ensures forall d {:trigger conns[d]} :: d in conns && d != c ==> conns[d] == old(conns)[d]
    {
      GeneratedOk(Top(), c, l);
      conns := conns[c := Insert(conns[c], l)];
      relayq := relayq[l := relayq[l] + {c}];
    }

    /** LNK_SPAN with CREATE: a link is inserted into its node's tree. */
    method SpanCreate(l: Link)
      requires Valid() && Fresh(Top(), l.state)
      modifies this`links, this`relayq
      ensures Valid() && Top() == Created(old(Top()), l)
    {
      CreatedOk(Top(), l);
      var tree := if l.node in links then links[l.node] else [];
      links := links[l.node := Insert(tree, l)];
      relayq := relayq[l := {}];
    }

    /** All relays of a link are deleted. */
    method DropRelays(l: Link)
      requires Valid() && l in relayq
      modifies this`conns, this`relayq
      ensures Valid() && relayq.Keys == old(relayq.Keys) && relayq[l] == {} && conns.Keys == old(conns.Keys)
      ensures forall c, k {:trigger k in conns[c]} :: c in conns ==> (k in conns[c] <==> k in old(conns)[c] && k != l)
    {
      hide NodesOk;
      while relayq[l] != {}
        invariant Valid() && l in relayq && relayq.Keys == old(relayq.Keys) && conns.Keys == old(conns.Keys)
        invariant forall c, k {:trigger k in conns[c]} :: c in conns && k != l ==> (k in conns[c] <==> k in old(conns)[c])
        decreases |relayq[l]|
      {
        var c :| c in relayq[l];
        RelayDelete(c, l);
      }
    }

    /** LNK_SPAN with DELETE: its relays are deleted first. */
    method SpanDelete(l: Link)
      requires Valid() && l in relayq
      modifies this
      ensures Valid() && relayq.Keys == old(relayq.Keys) - {l} && conns.Keys == old(conns.Keys)
      ensures forall c, k {:trigger k in conns[c]} :: c in conns ==> (k in conns[c] <==> k in old(conns)[c] && k != l)
    {
      hide NodesOk, RelaysOk;
      DropRelays(l);
      Unlink(l);
    }

    /** A link without relays leaves its node's tree. */
    method Unlink(l: Link)
      requires Valid() && l in relayq && relayq[l] == {}
      modifies this`links, this`relayq
      ensures Valid() && l in old(relayq) && l.node in old(links) && l in old(links)[l.node]
      ensures Top() == Removed(old(Top()), l)
    {
      hide NodesOk, RelaysOk;
      Linked(Top(), l);
      RemovedOk(Top(), l);
      var rest := Without(links[l.node], Index(links[l.node], l));
      links := if rest == [] then links - {l.node} else links[l.node := rest];
      relayq := relayq - {l};
    }

    /** LNK_CONN with CREATE. */
    method ConnCreate(c: nat)
      requires Valid() && c !in conns
      modifies this`conns
      ensures Valid() && conns == old(conns)[c := []]
    {
      conns := conns[c := []];
    }

    /** LNK_CONN with DELETE: all its relays are deleted. */
    method ConnDelete(c: nat)
      requires Valid() && c in conns
      modifies this
      ensures Valid() && conns == old(conns) - {c} && links == old(links) && relayq.Keys == old(relayq.Keys)
    {
      while conns[c] != []
        invariant Valid() && c in conns && conns.Keys == old(conns.Keys) && links == old(links) && relayq.Keys == old(relayq.Keys)
        invariant forall d {:trigger conns[d]} :: d in conns && d != c ==> conns[d] == old(conns)[d]
        decreases |conns[c]|
      {
        RelayDelete(c, conns[c][0]);
      }
      conns := conns - {c};
    }

    /** The relays that are wanted: of each node only the best link, if the filters accept it. */
    ghost predicate Wanted(node: nat, c: nat, l: Link)
      reads this`links
    {
      node in links && links[node] != [] && l == links[node][0] && Filters(c, l)
    }

    /** No other link for its node is as near, or as near with a lower sub-distance, or equal in
        both with a lower state; and it is not too far, does not lead back to the connection, and
        the connection's peer filters accept it. */
    ghost predicate Nearest(c: nat, l: Link)
      reads this`links
    {
      && l.node in links && l in links[l.node] && l.dist <= DMSG_SPAN_MAXDIST && l.iocom != c && peerOk(c, l)
      && forall k: Link {:trigger k in links[l.node]} :: k in links[l.node] && k != l ==>
        k.dist > l.dist || (k.dist == l.dist && (k.rnss > l.rnss || (k.rnss == l.rnss && k.state > l.state)))
    }

    /** The first link of a node is the nearest one. */
    lemma WantedNearest(node: nat, c: nat)
      requires NodesOk(Top())
      ensures forall l: Link {:trigger Nearest(c, l)} :: l.node == node ==> (Wanted(node, c, l) <==> Nearest(c, l))
    {
      if node in links {
        BestFirst(Top(), node);
        forall l: Link {:trigger Nearest(c, l)} | l.node == node ensures Wanted(node, c, l) <==> Nearest(c, l) {
          assert forall k: Link {:trigger k in links[node]} :: k in links[node] ==> k in relayq && k.node == node;
          assert links[node][0] in links[node];
        }
      }
    }

    /** Nothing but the relays of connection `c` for the node may differ. */
    twostate predicate OnlyRelays(c: nat, node: nat)
      reads this
    {
      Elsewhere(old(Top()), Top(), c, node)
    }

    /** The best link for a node: its relay is already in place, or is created if the filters
        accept the link, or the scan ends.  `relay'` is the next relay in the tree. */
    method Consider(c: nat, node: nat, slink: Link, relay: nat) returns (go: bool, relay': nat)
      requires Valid() && c in conns && node in links && slink == links[node][0]
      requires AtNode(conns[c], relay, node)
      modifies this`conns, this`relayq
      ensures Valid() && OnlyRelays(c, node) && go == Filters(c, slink)
      ensures if go then 0 < relay' <= |conns[c]| && conns[c][relay' - 1] == slink &&
        NoneBefore(conns[c], relay' - 1, node) && FromNode(conns[c], relay', node)
              else relay' == relay && conns == old(conns)
    {
      BestFirst(Top(), node);
      if relay < |conns[c]| && conns[c][relay] == slink {
        assert slink in conns[c];
        return true, relay + 1;
      }
      if !Filters(c, slink) {
        return false, relay;
      }
      assert forall l: Link {:trigger l in conns[c]} :: l in conns[c] ==> l in relayq;
      NotThere(conns[c], relay, node, slink);
      var place := Place(conns[c], slink);
      Inserted(conns[c], node, slink);
      GenerateRelay(c, slink);
      go, relay' := true, place + 1;
    }

    /** Relays for the node from `relay` on are in excess. */
    method DropExtras(c: nat, node: nat, relay: nat)
      requires Valid() && c in conns && relay <= |conns[c]| && FromNode(conns[c], relay, node)
      modifies this`conns, this`relayq
      ensures Valid() && OnlyRelays(c, node)
      ensures relay <= |conns[c]| && conns[c][..relay] == old(conns)[c][..relay] &&
        forall k :: relay <= k < |conns[c]| ==> conns[c][k].node != node
    {
      hide NodesOk, RelaysOk;
      while relay < |conns[c]| && conns[c][relay].node == node
        invariant Valid() && OnlyRelays(c, node) && c in conns && relay <= |conns[c]| && FromNode(conns[c], relay, node)
        invariant conns[c][..relay] == old(conns)[c][..relay]
        decreases |conns[c]|
      {
        var tree := conns[c];
        SortedSame(Top(), c);
        RelayDelete(c, tree[relay]);
        DeletedAt(tree, relay, conns[c]);
      }
      SortedSame(Top(), c);
    }

    /** The connection relays exactly the nearest link for the node, if there is one to relay. */
    ghost predicate Reconciled(node: nat, c: nat)
      requires c in conns
      reads this`links, this`conns
    {
      forall l: Link {:trigger l in conns[c]} :: l.node == node ==> (l in conns[c] <==> Nearest(c, l))
    }

    /** As the scan decides it. */
    ghost predicate FirstOnly(node: nat, c: nat)
      requires c in conns
      reads this`links, this`conns
    {
      forall l: Link {:trigger l in conns[c]} :: l.node == node ==> (l in conns[c] <==> Wanted(node, c, l))
    }

    lemma FirstIsNearest(node: nat, c: nat)
      requires NodesOk(Top()) && c in conns
      ensures Reconciled(node, c) <==> FirstOnly(node, c)
    {
      WantedNearest(node, c);
      hide NodesOk, Nearest, Wanted;
    }

    /** Its two loops: over the links of the node, and over the relays behind the last one kept. */
    method ScanLinks(node: nat, c: nat)
      requires Valid() && c in conns
      modifies this`conns, this`relayq
      ensures Valid() && OnlyRelays(c, node) && FirstOnly(node, c)
      ensures old(FirstOnly(node, c)) ==> conns == old(conns) && relayq == old(relayq)
    {
      ghost var was := Top();
      hide NodesOk, RelaysOk, Elsewhere;
      LinksThere(was, node, c);
      ElsewhereFacts(was, was, c, node);
      var relay: nat := FirstRelay(conns[c], node);
      var list := if node in links then links[node] else [];
      var count, i := 0, 0;
      while i < |list|
        invariant Valid() && OnlyRelays(c, node) && 0 <= i <= 1 && i <= |list| && count == i
        invariant c in conns && links == old(links) && (i == 0 ==> Top() == was)
        invariant i == 0 ==> AtNode(conns[c], relay, node)
        invariant i > 0 ==> Filters(c, list[0]) && 0 < relay <= |conns[c]| && conns[c][relay - 1] == list[0]
        invariant i > 0 ==> NoneBefore(conns[c], relay - 1, node) && FromNode(conns[c], relay, node)
      {
        count := count + 1;
        if count >= 2 {
          break;
        }
        var go;
        go, relay := Consider(c, node, list[i], relay);
        ElsewhereFacts(was, Top(), c, node);
        if !go {
          break;
        }
        i := i + 1;
      }
      ghost var mid := Top();
      ghost var tree := conns[c];
      DropExtras(c, node, relay);
      ElsewhereFacts(mid, Top(), c, node);
      ElsewhereTwice(was, mid, Top(), c, node);
      Prefix(tree, conns[c], relay, node);
      if old(FirstOnly(node, c)) {
        SameTrees(was, Top(), c, node);
      }
    }

    /** `dmsg_relay_scan_specific`: reconcile the connection's relays for the node; nothing else
        changes, and nothing at all if they are reconciled already. */
    method RelayScanSpecific(node: nat, c: nat)
      requires Valid() && c in conns
      modifies this`conns, this`relayq
      ensures Valid() && OnlyRelays(c, node) && Reconciled(node, c)
      ensures old(Reconciled(node, c)) ==> conns == old(conns) && relayq == old(relayq)
    {
      FirstIsNearest(node, c);
      ScanLinks(node, c);
      hide NodesOk, RelaysOk, Reconciled, FirstOnly;
      FirstIsNearest(node, c);
    }

    /** `dmsg_relay_scan`: every node and every connection. */
    method RelayScan()
      requires Valid()
      modifies this`conns, this`relayq
      ensures Valid() && links == old(links) && conns.Keys == old(conns.Keys)
      ensures forall n, c {:trigger Reconciled(n, c)} :: n in links && c in conns ==> Reconciled(n, c)
    {
      var nodes := links.Keys;
      while nodes != {}
        invariant Valid() && links == old(links) && conns.Keys == old(conns.Keys) && nodes <= links.Keys
        invariant forall n, c {:trigger Reconciled(n, c)} :: n in links && n !in nodes && c in conns ==> Reconciled(n, c)
      {
        var node :| node in nodes;
        ScanNode(node);
        nodes := nodes - {node};
      }
    }

    /** All connections for one node. */
    method ScanNode(node: nat)
      requires Valid() && node in links
      modifies this`conns, this`relayq
      ensures Valid() && links == old(links) && conns.Keys == old(conns.Keys)
      ensures forall n, c {:trigger Reconciled(n, c)} :: c in conns && (n == node || old(Reconciled(n, c))) ==> Reconciled(n, c)
    {
      var todo := conns.Keys;
      while todo != {}
        invariant Valid() && links == old(links) && conns.Keys == old(conns.Keys) && todo <= conns.Keys
        invariant forall n, c {:trigger Reconciled(n, c)} ::
          c in conns && ((n == node && c !in todo) || old(Reconciled(n, c))) ==> Reconciled(n, c)
      {
        hide NodesOk, RelaysOk, Nearest;
        var c :| c in todo;
        label Before:
        RelayScanSpecific(node, c);
        forall n, d {:trigger Reconciled(n, d)} |
          d in conns && ((n == node && d !in todo - {c}) || old(Reconciled(n, d)))
          ensures Reconciled(n, d)
        {
          if n != node || d != c {
            assert old@Before(Reconciled(n, d));
          }
        }
        todo := todo - {c};
      }
    }
  }

  lemma SortedSame(t: Topology, c: nat)
    requires RelaysOk(t) && c in t.conns
    ensures Sorted(t.conns[c])
  {}

  /** The relay queues follow from the trees. */
  lemma SameRelayq(t: Topology, t': Topology)
    requires RelaysOk(t) && RelaysOk(t') && t.conns == t'.conns && t.relayq.Keys == t'.relayq.Keys
    ensures t.relayq == t'.relayq
  {
    forall l | l in t.relayq.Keys ensures t.relayq[l] == t'.relayq[l] {
      assert l in t'.relayq.Keys;
      forall c ensures c in t.relayq[l] <==> c in t'.relayq[l] {}
    }
  }

  /** Nothing but the relays of connection `c` for the node differs. */
  ghost predicate Elsewhere(t: Topology, t': Topology, c: nat, node: nat) {
    && t'.conns.Keys == t.conns.Keys && t'.relayq.Keys == t.relayq.Keys && t'.links == t.links
    && (forall d {:trigger t'.conns[d]} :: d in t'.conns && d != c ==> t'.conns[d] == t.conns[d])
    && (c in t'.conns && c in t.conns ==> forall l: Link {:trigger l in t'.conns[c]} ::
      l.node != node ==> (l in t'.conns[c] <==> l in t.conns[c]))
  }

  lemma ElsewhereFacts(a: Topology, b: Topology, c: nat, node: nat)
    ensures Elsewhere(a, b, c, node) ==> a.conns.Keys == b.conns.Keys && a.links == b.links
    ensures Elsewhere(a, a, c, node)
  {}

  lemma ElsewhereTwice(a: Topology, b: Topology, e: Topology, c: nat, node: nat)
    ensures Elsewhere(a, b, c, node) && Elsewhere(b, e, c, node) ==> Elsewhere(a, e, c, node)
  {}

  /** The trees follow from their elements. */
  lemma SameTrees(t: Topology, t': Topology, c: nat, node: nat)
    requires RelaysOk(t) && RelaysOk(t') && Elsewhere(t, t', c, node) && c in t.conns && c in t'.conns
    requires forall l: Link {:trigger l in t'.conns[c]} :: l.node == node ==> (l in t.conns[c] <==> l in t'.conns[c])
    ensures t.conns == t'.conns && t.relayq == t'.relayq
  {
    hide RelaysOk, Sorted;
    SortedSame(t, c);
    SortedSame(t', c);
    SortedUnique(t.conns[c], t'.conns[c]);
    SameRelayq(t, t');
  }

  lemma Linked(t: Topology, l: Link)
    requires NodesOk(t) && l in t.relayq
    ensures l.node in t.links && l in t.links[l.node]
  {}

  /** A link without relays may go. */
  lemma RemovedOk(t: Topology, l: Link)
    requires NodesOk(t) && RelaysOk(t) && l in t.relayq && t.relayq[l] == {} && l.node in t.links && l in t.links[l.node]
    ensures NodesOk(Removed(t, l)) && RelaysOk(Removed(t, l))
  {
    WithoutSorted(t.links[l.node], Index(t.links[l.node], l));
    var t' := Removed(t, l);
    assert NodesOk(t') by {
      hide RelaysOk;
    }
    assert RelaysOk(t') by {
      hide NodesOk;
    }
  }

  lemma LinksThere(t: Topology, node: nat, c: nat)
    requires NodesOk(t) && RelaysOk(t) && c in t.conns
    ensures Sorted(t.conns[c]) && (node in t.links ==> t.links[node] != [] && t.links[node][0].node == node)
  {
    if node in t.links {
      assert t.links[node][0] in t.links[node];
    }
  }

  /** Only the part before `r` has relays for the node. */
  lemma Prefix(tree: seq<Link>, tree': seq<Link>, r: nat, node: nat)
    requires r <= |tree| && r <= |tree'| && tree'[..r] == tree[..r] && forall k :: r <= k < |tree'| ==> tree'[k].node != node
    ensures NoneBefore(tree, r, node) ==> forall l: Link {:trigger l in tree'} :: l.node == node ==> l !in tree'
    ensures r > 0 && NoneBefore(tree, r - 1, node) && tree[r - 1].node == node ==>
      forall l: Link {:trigger l in tree'} :: l.node == node ==> (l in tree' <==> l == tree[r - 1])
  {
    forall k | 0 <= k < r ensures tree'[k] == tree[k] {
      assert tree'[k] == tree'[..r][k];
    }
  }

  /** The first relay for a node, or the end of the tree. */
  ghost predicate AtNode(tree: seq<Link>, r: nat, node: nat) {
    r <= |tree| && NoneBefore(tree, r, node) && FromNode(tree, r, node) &&
      (r < |tree| ==> tree[r].node == node || forall k :: r <= k < |tree| ==> tree[k].node != node)
  }

  lemma BestFirst(t: Topology, node: nat)
    requires NodesOk(t) && node in t.links
    ensures var best := t.links[node][0]; best in t.relayq && best.node == node && forall l {:trigger l in t.relayq} ::
      l in t.relayq && l.node == node && l != best ==> LinkLess(best, l)
  {
    var tree := t.links[node];
    assert tree[0] in tree;
    forall l {:trigger l in t.relayq} | l in t.relayq && l.node == node && l != tree[0] ensures LinkLess(tree[0], l) {
      var i :| 0 <= i < |tree| && tree[i] == l;
      assert RelayLess(tree[0], tree[i]);
      assert l in tree;
    }
  }

  lemma NotThere(tree: seq<Link>, r: nat, node: nat, best: Link)
    requires Sorted(tree) && AtNode(tree, r, node) && best.node == node && (r < |tree| ==> tree[r] != best)
    requires forall l: Link {:trigger l in tree} :: l in tree && l.node == node && l != best ==> LinkLess(best, l)
    ensures best !in tree
  {
    if r < |tree| {
      var first := tree[r];
      Irreflexive(best);
      assert first in tree;
    }
  }

  /** The relay of the best link goes in front of the others for the node. */
  lemma Inserted(tree: seq<Link>, node: nat, best: Link)
    requires Sorted(tree) && best !in tree && best.node == node && forall k {:trigger k in tree} :: k in tree ==> k.state != best.state
    requires forall l: Link {:trigger l in tree} :: l in tree && l.node == node && l != best ==> LinkLess(best, l)
    ensures var t, p := Insert(tree, best), Place(tree, best);
      p < |t| && t[p] == best && NoneBefore(t, p, node) && FromNode(t, p + 1, node)
  {
    PlaceSplits(tree, best);
    var t, p := Insert(tree, best), Place(tree, best);
    forall k | 0 <= k < p ensures t[k].node != node {
      assert t[k] == tree[k] && tree[k] in tree;
    }
    forall k | p + 1 <= k < |t| ensures t[k].node >= node {
      assert t[k] == tree[k - 1];
    }
  }

  lemma OnePlace(tree: seq<Link>, p: nat, r: nat)
    requires Sorted(tree) && p < |tree| && r < |tree| && tree[p] == tree[r]
    ensures p == r
  {
    Irreflexive(tree[r]);
  }

  lemma DeletedAt(tree: seq<Link>, r: nat, tree': seq<Link>)
    requires Sorted(tree) && r < |tree| && exists p :: 0 <= p < |tree| && tree[p] == tree[r] && tree' == Without(tree, p)
    ensures tree' == Without(tree, r) && tree'[..r] == tree[..r]
  {
    var p :| 0 <= p < |tree| && tree[p] == tree[r] && tree' == Without(tree, p);
    OnePlace(tree, p, r);
  }

  /** Where the relays for a node start, or the end of the tree. */
  method FirstRelay(tree: seq<Link>, node: nat) returns (r: nat)
    requires Sorted(tree)
    ensures AtNode(tree, r, node)
  {
    r := 0;
    while r < |tree| && tree[r].node != node
      invariant 0 <= r <= |tree| && NoneBefore(tree, r, node)
    {
      r := r + 1;
    }
    forall k | r <= k < |tree| ensures tree[k].node >= node {}
  }

  ghost predicate NoneBefore(tree: seq<Link>, r: nat, node: nat) { forall k :: 0 <= k < r && k < |tree| ==> tree[k].node != node }

  ghost predicate FromNode(tree: seq<Link>, r: nat, node: nat) { forall k :: r <= k < |tree| ==> tree[k].node >= node }
}
