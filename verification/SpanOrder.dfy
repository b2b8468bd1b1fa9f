/** The orders of received SPANs (links) and of the relays of a connection, and sorted trees. */
module SpanOrder {
  /** A received SPAN: its state (an address, unique), the node it leads to, distance, random
      sub-distance, and the connection it came in on. */
  datatype Link = Link(state: nat, node: nat, dist: nat, rnss: nat, iocom: nat)

  /** `h2span_link_cmp`: by distance, sub-distance and state. */
  predicate LinkLess(a: Link, b: Link) {
    a.dist < b.dist || (a.dist == b.dist && (a.rnss < b.rnss || (a.rnss == b.rnss && a.state < b.state)))
  }

  /** `h2span_relay_cmp`: by node first. */
  predicate RelayLess(a: Link, b: Link) { a.node < b.node || (a.node == b.node && LinkLess(a, b)) }

  /** A tree, in order. */
  ghost predicate Sorted(s: seq<Link>) { forall i, j :: 0 <= i < j < |s| ==> RelayLess(s[i], s[j]) }

  lemma Irreflexive(a: Link)
    ensures !RelayLess(a, a)
  {}

  lemma Transitive(a: Link, b: Link, c: Link)
    requires RelayLess(a, b) && RelayLess(b, c)
    ensures RelayLess(a, c)
  {}

  lemma Total(a: Link, b: Link)
    ensures RelayLess(a, b) || RelayLess(b, a) || (a.node == b.node && a.dist == b.dist && a.rnss == b.rnss && a.state == b.state)
  {}

  /** Where a link belongs in a tree. */
  function Place(s: seq<Link>, l: Link): (p: nat)
    ensures p <= |s|
  {
    if s == [] || !RelayLess(s[0], l) then 0 else 1 + Place(s[1..], l)
  }

  function Insert(s: seq<Link>, l: Link): seq<Link> { s[..Place(s, l)] + [l] + s[Place(s, l)..] }

  lemma {:induction false} PlaceSplits(s: seq<Link>, l: Link)
    requires Sorted(s) && l !in s && forall k {:trigger k in s} :: k in s ==> k.state != l.state
    ensures forall i :: 0 <= i < |s| ==> if i < Place(s, l) then RelayLess(s[i], l) else RelayLess(l, s[i])
  {
    if s != [] {
      assert s[0] in s;
      if RelayLess(s[0], l) {
        var t := s[1..];
        assert forall i :: 0 <= i < |t| ==> t[i] == s[i + 1];
        assert forall k {:trigger k in t} :: k in t ==> k in s;
        PlaceSplits(t, l);
        forall i | 0 <= i < |s| ensures if i < Place(s, l) then RelayLess(s[i], l) else RelayLess(l, s[i]) {
          if i > 0 {
            assert s[i] == t[i - 1];
          }
        }
      } else {
        Total(s[0], l);
        forall i | 0 < i < |s| ensures RelayLess(l, s[i]) {
          Transitive(l, s[0], s[i]);
        }
      }
    }
  }

  lemma InsertAt(s: seq<Link>, l: Link, i: nat)
    requires i < |Insert(s, l)|
    ensures |Insert(s, l)| == |s| + 1
    ensures Insert(s, l)[i] == var p := Place(s, l); if i < p then s[i] else if i == p then l else s[i - 1]
  {}

  lemma InsertSorted(s: seq<Link>, l: Link)
    requires Sorted(s) && l !in s && forall k {:trigger k in s} :: k in s ==> k.state != l.state
    ensures Sorted(Insert(s, l)) && forall k {:trigger k in Insert(s, l)} :: k in Insert(s, l) <==> k in s || k == l
  {
    PlaceSplits(s, l);
    InsertIn(s, l);
    hide Place, Insert, RelayLess;
    var t := Insert(s, l);
    forall i, j | 0 <= i < j < |t| ensures RelayLess(t[i], t[j]) {
      InsertAt(s, l, i);
      InsertAt(s, l, j);
    }
  }

  lemma InsertIn(s: seq<Link>, l: Link)
    ensures forall k {:trigger k in Insert(s, l)} :: k in Insert(s, l) <==> k in s || k == l
  {
    hide Place;
    assert s == s[..Place(s, l)] + s[Place(s, l)..];
  }

  /** Where a link is in a tree. */
  function Index(s: seq<Link>, l: Link): (p: nat)
    requires l in s
    ensures p < |s| && s[p] == l
  {
    if s[0] == l then 0 else 1 + Index(s[1..], l)
  }

  function Without(s: seq<Link>, p: nat): seq<Link>
    requires p < |s|
  {
    s[..p] + s[p + 1..]
  }

  lemma WithoutSorted(s: seq<Link>, p: nat)
    requires Sorted(s) && p < |s|
    ensures Sorted(Without(s, p)) && forall k {:trigger k in Without(s, p)} :: k in Without(s, p) <==> k in s && k != s[p]
  {
    var t := Without(s, p);
    forall i | 0 <= i < |t| ensures t[i] == s[if i < p then i else i + 1] {}
    forall k {:trigger k in t} ensures k in t <==> k in s && k != s[p] {
      if k in t {
        var i :| 0 <= i < |t| && t[i] == k;
        Irreflexive(k);
        assert RelayLess(s[p], k) || RelayLess(k, s[p]);
      }
      if k in s && k != s[p] {
        var i :| 0 <= i < |s| && s[i] == k;
        assert t[if i < p then i else i - 1] == k;
      }
    }
  }

  /** Two trees with the same elements are the same. */
  lemma {:induction false} SortedUnique(s: seq<Link>, t: seq<Link>)
    requires Sorted(s) && Sorted(t) && forall k {:trigger k in s} {:trigger k in t} :: k in s <==> k in t
    ensures s == t
  {
    if s == [] {
      SomeElement(t);
    } else {
      assert s[0] in t && t != [] && t[0] in s;
      if s[0] != t[0] {
        var i :| 0 <= i < |t| && t[i] == s[0];
        var j :| 0 <= j < |s| && s[j] == t[0];
        Transitive(s[0], t[0], s[0]);
      }
      forall k {:trigger k in s[1..]} {:trigger k in t[1..]} ensures k in s[1..] <==> k in t[1..] {
        TailIn(s, k);
        TailIn(t, k);
      }
      SortedUnique(s[1..], t[1..]);
      assert s == [s[0]] + s[1..] && t == [t[0]] + t[1..];
    }
  }

  lemma SomeElement(t: seq<Link>)
    ensures t != [] ==> exists k {:trigger k in t} :: k in t
  {
    if t != [] {
      assert t[0] in t;
    }
  }

  lemma TailIn(s: seq<Link>, k: Link)
    requires Sorted(s) && s != []
    ensures k in s[1..] <==> k in s && k != s[0]
  {
    WithoutSorted(s, 0);
    assert Without(s, 0) == s[1..];
  }
}
