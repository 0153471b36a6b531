/**
 * The consistent-hash ring of core/src/hash.rs. The hash function is arbitrary: nothing is assumed
 * about it, collisions included.
 */
module HashRings {
  import opened Wrappers
  import opened Sequences

  const HASHES := 0x1_0000_0000_0000_0000

  type Hash = n: nat | n < HASHES witness 0

  type Ring<Node> = map<Hash, seq<Node>>

  /** Where the virtual replicas of a node lie, and how many there are. */
  datatype Layout<!Node> = Layout(point: (Node, nat) -> Hash, replicas: nat)

  // ---------------------------------------------------------------- what the ring holds

  /** The copies of `node` that its first `replicas` replicas leave at `h`. */
  function Copies<Node>(c: Layout<Node>, node: Node, h: Hash, replicas: nat): seq<Node> {
    if replicas == 0 then []
    else Copies(c, node, h, replicas - 1) + if c.point(node, replicas - 1) == h then [node] else []
  }

  /** What lies at `h` when the nodes were added in this order. */
  function At<Node>(c: Layout<Node>, order: seq<Node>, h: Hash): seq<Node> {
    if order == [] then [] else Copies(c, order[0], h, c.replicas) + At(c, order[1..], h)
  }

  function Others<Node(==)>(list: seq<Node>, node: Node): seq<Node> {
    if list == [] then []
    else if list[0] == node then Others(list[1..], node)
    else [list[0]] + Others(list[1..], node)
  }

  /** A list is stored exactly when it is not empty. */
  predicate Lists<Node(==)>(ring: Ring<Node>, h: Hash, list: seq<Node>) {
    if h in ring then list != [] && ring[h] == list else list == []
  }

  ghost predicate Represents<Node>(c: Layout<Node>, ring: Ring<Node>, order: seq<Node>) {
    forall h {:trigger At(c, order, h)} :: Lists(ring, h, At(c, order, h))
  }

  lemma {:induction false} CopiesAreTheNode<Node>(c: Layout<Node>, node: Node, h: Hash, replicas: nat)
    ensures forall i :: 0 <= i < |Copies(c, node, h, replicas)| ==> Copies(c, node, h, replicas)[i] == node
    ensures Copies(c, node, h, replicas) != [] <==> exists r :: 0 <= r < replicas && c.point(node, r) == h
  {
    if replicas != 0 {
      CopiesAreTheNode(c, node, h, replicas - 1);
    }
  }

  lemma {:induction false} AtAppend<Node>(c: Layout<Node>, order: seq<Node>, node: Node, h: Hash)
    ensures At(c, order + [node], h) == At(c, order, h) + Copies(c, node, h, c.replicas)
  {
    if order == [] {
      assert ([] + [node])[1..] == [];
    } else {
      assert (order + [node])[1..] == order[1..] + [node];
      AtAppend(c, order[1..], node, h);
    }
  }

  lemma {:induction false} OthersConcat<Node>(a: seq<Node>, b: seq<Node>, node: Node)
    ensures Others(a + b, node) == Others(a, node) + Others(b, node)
  {
    if a == [] {
      assert a + b == b;
    } else {
      assert (a + b)[1..] == a[1..] + b;
      OthersConcat(a[1..], b, node);
    }
  }

  lemma {:induction false} OthersOfUniform<Node>(list: seq<Node>, x: Node, node: Node)
    requires forall i :: 0 <= i < |list| ==> list[i] == x
    ensures Others(list, node) == if x == node then [] else list
  {
    if list != [] {
      OthersOfUniform(list[1..], x, node);
    }
  }

  lemma {:induction false} AtOthers<Node>(c: Layout<Node>, order: seq<Node>, node: Node, h: Hash)
    requires node !in order
    ensures Others(At(c, order, h), node) == At(c, order, h)
  {
    if order != [] {
      AtOthers(c, order[1..], node, h);
      CopiesAreTheNode(c, order[0], h, c.replicas);
      OthersOfUniform(Copies(c, order[0], h, c.replicas), order[0], node);
      OthersConcat(Copies(c, order[0], h, c.replicas), At(c, order[1..], h), node);
    }
  }

  /** Deleting a node from every list gives the ring of the remaining nodes. */
  lemma {:induction false} AtWithout<Node>(c: Layout<Node>, order: seq<Node>, node: Node, h: Hash)
    requires NoDuplicates(order)
    ensures At(c, Without(order, node), h) == Others(At(c, order, h), node)
  {
    if order != [] {
      var copies, rest := Copies(c, order[0], h, c.replicas), order[1..];
      CopiesAreTheNode(c, order[0], h, c.replicas);
      OthersOfUniform(copies, order[0], node);
      OthersConcat(copies, At(c, rest, h), node);
      if order[0] == node {
        AtOthers(c, rest, node, h);
      } else {
        AtWithout(c, rest, node, h);
        assert ([order[0]] + Without(rest, node))[1..] == Without(rest, node);
      }
    }
  }

  lemma {:induction false} WithoutLast<Node>(order: seq<Node>, node: Node)
    requires node !in order
    ensures Without(order + [node], node) == order
  {
    if order == [] {
      assert ([] + [node])[1..] == [];
    } else {
      assert (order + [node])[1..] == order[1..] + [node];
      WithoutLast(order[1..], node);
    }
  }

  lemma {:induction false} AtMembers<Node>(c: Layout<Node>, order: seq<Node>, h: Hash, i: nat)
    requires i < |At(c, order, h)|
    ensures At(c, order, h)[i] in order
  {
    if order != [] {
      var copies := Copies(c, order[0], h, c.replicas);
      CopiesAreTheNode(c, order[0], h, c.replicas);
      if i >= |copies| {
        AtMembers(c, order[1..], h, i - |copies|);
      }
    }
  }

  // ---------------------------------------------------------------- lookup

  /** How far clockwise from `k` the point `h` lies. */
  function Distance(k: Hash, h: Hash): nat {
    if h >= k then h - k else h + HASHES - k
  }

  predicate Nearest(points: set<Hash>, k: Hash, h: Hash) {
    h in points && forall x :: x in points ==> Distance(k, h) <= Distance(k, x)
  }

  /** The point is the first one at or after `k`, or the first of all if there is none. */
  ghost predicate FirstFrom(points: set<Hash>, k: Hash, h: Hash) {
    && h in points
    && if exists x :: x in points && x >= k then h >= k && forall x :: x in points && x >= k ==> h <= x
       else forall x :: x in points ==> h <= x
  }

  lemma NearestIsFirstFrom(points: set<Hash>, k: Hash, h: Hash)
    ensures Nearest(points, k, h) <==> FirstFrom(points, k, h)
  {
    if h in points && (exists x :: x in points && x >= k) {
      var x :| x in points && x >= k;
      assert Nearest(points, k, h) ==> Distance(k, h) <= Distance(k, x);
    }
  }

  lemma {:induction false} NearestExists(points: set<Hash>, k: Hash) returns (h: Hash)
    requires points != {}
    ensures Nearest(points, k, h)
  {
    var first :| first in points;
    var rest := points - {first};
    assert forall x :: x in points ==> x == first || x in rest;
    if rest == {} {
      h := first;
    } else {
      var other := NearestExists(rest, k);
      h := if Distance(k, first) <= Distance(k, other) then first else other;
    }
  }

  /** The answer for a key that hashes to `k`: the first node at the nearest point clockwise. */
  ghost predicate Answers<Node>(ring: Ring<Node>, k: Hash, answer: Option<Node>) {
    if ring.Keys == {} then answer == None
    else exists h :: Nearest(ring.Keys, k, h) && ring[h] != [] && answer == Some(ring[h][0])
  }

  /** A lookup has exactly one answer, and there is none only in an empty ring. */
  lemma AnswerIsUnique<Node>(c: Layout<Node>, ring: Ring<Node>, order: seq<Node>, k: Hash)
      returns (answer: Option<Node>)
    requires 0 < c.replicas && Represents(c, ring, order)
    ensures Answers(ring, k, answer) && forall other :: Answers(ring, k, other) ==> other == answer
    ensures answer == None <==> order == []
    ensures answer.Some? ==> answer.value in order
  {
    if order != [] {
      var h := c.point(order[0], 0);
      CopiesAreTheNode(c, order[0], h, c.replicas);
      assert c.point(order[0], 0) == h;
      assert At(c, order, h) != [] && h in ring.Keys;
    }
    if ring.Keys == {} {
      answer := None;
    } else {
      var h := NearestExists(ring.Keys, k);
      assert Lists(ring, h, At(c, order, h));
      AtMembers(c, order, h, 0);
      answer := Some(ring[h][0]);
    }
  }

  /** The node has a replica at the point. */
  ghost predicate PlacedAt<Node>(c: Layout<Node>, node: Node, h: Hash) {
    exists r :: 0 <= r < c.replicas && c.point(node, r) == h
  }

  lemma {:induction false} AtHolds<Node>(c: Layout<Node>, order: seq<Node>, h: Hash, node: Node)
    ensures node in At(c, order, h) <==> node in order && PlacedAt(c, node, h)
  {
    if order != [] {
      var copies := Copies(c, order[0], h, c.replicas);
      AtHolds(c, order[1..], h, node);
      CopiesAreTheNode(c, order[0], h, c.replicas);
      assert At(c, order, h) == copies + At(c, order[1..], h);
      assert node in copies ==> node == order[0];
      assert copies != [] ==> copies[0] == order[0];
      assert order == [order[0]] + order[1..];
    }
  }

  /** The ring has every replica of every present node, at its own point, and nothing else. */
  lemma RingHoldsTheReplicas<Node>(c: Layout<Node>, ring: Ring<Node>, order: seq<Node>, h: Hash, node: Node)
    requires Represents(c, ring, order)
    ensures h in ring && node in ring[h] <==> node in order && PlacedAt(c, node, h)
  {
    assert Lists(ring, h, At(c, order, h));
    AtHolds(c, order, h, node);
  }

  /** At the first of the list lies the node that was added first of those with a replica there. */
  lemma {:induction false} EarliestIsFirst<Node>(c: Layout<Node>, order: seq<Node>, h: Hash) returns (i: nat)
    requires At(c, order, h) != []
    ensures i < |order| && order[i] == At(c, order, h)[0] && PlacedAt(c, order[i], h)
    ensures forall j :: 0 <= j < i ==> !PlacedAt(c, order[j], h)
  {
    CopiesAreTheNode(c, order[0], h, c.replicas);
    if PlacedAt(c, order[0], h) {
      i := 0;
    } else {
      var next := EarliestIsFirst(c, order[1..], h);
      i := next + 1;
      forall j | 0 <= j < i ensures !PlacedAt(c, order[j], h) {
        assert j > 0 ==> order[j] == order[1..][j - 1];
      }
    }
  }

  /**
   * Who answers: from the hash of the key onwards, and from the start again at the end, the first
   * point with a replica; and of the nodes with a replica there the one that was added first.
   */
  lemma AnswerIsFirstAdded<Node>(c: Layout<Node>, ring: Ring<Node>, order: seq<Node>, k: Hash, answer: Node)
      returns (h: Hash, i: nat)
    requires Represents(c, ring, order) && Answers(ring, k, Some(answer))
    ensures FirstFrom(ring.Keys, k, h)
    ensures i < |order| && order[i] == answer && PlacedAt(c, answer, h)
    ensures forall j :: 0 <= j < i ==> !PlacedAt(c, order[j], h)
  {
    h :| Nearest(ring.Keys, k, h) && ring[h] != [] && Some(answer) == Some(ring[h][0]);
    NearestIsFirstFrom(ring.Keys, k, h);
    assert Lists(ring, h, At(c, order, h));
    i := EarliestIsFirst(c, order, h);
  }

  /** Adding a node moves keys only to that node. */
  lemma AddMovesKeysOnlyToTheNode<Node>(
    c: Layout<Node>, ring: Ring<Node>, order: seq<Node>, node: Node, ring': Ring<Node>, k: Hash,
    before: Option<Node>, after: Option<Node>)
    requires Represents(c, ring, order) && Represents(c, ring', order + [node])
    requires Answers(ring, k, before) && Answers(ring', k, after)
    ensures after == before || after == Some(node)
  {
    KeysGrow(c, ring, order, node, ring');
    if ring'.Keys != {} {
      var h :| Nearest(ring'.Keys, k, h) && ring'[h] != [] && after == Some(ring'[h][0]);
      FirstAfterAdd(c, ring, order, node, ring', h);
      if h in ring {
        assert Nearest(ring.Keys, k, h);
        KeptAnswer(c, ring, order, k, h, before);
      }
    }
  }

  lemma FirstAfterAdd<Node>(c: Layout<Node>, ring: Ring<Node>, order: seq<Node>, node: Node, ring': Ring<Node>, h: Hash)
    requires Represents(c, ring, order) && Represents(c, ring', order + [node]) && h in ring' && ring'[h] != []
    ensures if h in ring then ring[h] != [] && ring[h][0] == ring'[h][0] else ring'[h][0] == node
  {
    assert Lists(ring', h, At(c, order + [node], h));
    AtAppend(c, order, node, h);
    CopiesAreTheNode(c, node, h, c.replicas);
    assert Lists(ring, h, At(c, order, h));
  }

  /** Distances from one key differ, so only one point is nearest. */
  lemma KeptAnswer<Node>(c: Layout<Node>, ring: Ring<Node>, order: seq<Node>, k: Hash, h: Hash, answer: Option<Node>)
    requires Represents(c, ring, order) && Nearest(ring.Keys, k, h) && Answers(ring, k, answer)
    ensures ring[h] != [] && answer == Some(ring[h][0])
  {
    assert Lists(ring, h, At(c, order, h));
    var other :| Nearest(ring.Keys, k, other) && ring[other] != [] && answer == Some(ring[other][0]);
    assert Distance(k, h) == Distance(k, other);
  }

  lemma KeysGrow<Node>(c: Layout<Node>, ring: Ring<Node>, order: seq<Node>, node: Node, ring': Ring<Node>)
    requires Represents(c, ring, order) && Represents(c, ring', order + [node])
    ensures ring.Keys <= ring'.Keys
  {
    forall h | h in ring.Keys ensures h in ring'.Keys {
      assert Lists(ring, h, At(c, order, h));
      AtAppend(c, order, node, h);
      assert Lists(ring', h, At(c, order + [node], h));
    }
  }

  /** Removing a node moves only the keys it answered for. */
  lemma RemoveMovesOnlyItsKeys<Node>(
    c: Layout<Node>, ring: Ring<Node>, order: seq<Node>, node: Node, ring': Ring<Node>, k: Hash,
    before: Option<Node>, after: Option<Node>)
    requires NoDuplicates(order) && Represents(c, ring, order) && Represents(c, ring', Without(order, node))
    requires Answers(ring, k, before) && Answers(ring', k, after)
    ensures after == before || before == Some(node)
  {
    if before.Some? && before != Some(node) {
      var h :| Nearest(ring.Keys, k, h) && ring[h] != [] && before == Some(ring[h][0]);
      assert Lists(ring, h, At(c, order, h));
      AtWithout(c, order, node, h);
      assert Lists(ring', h, At(c, Without(order, node), h));
      KeysShrink(c, ring, order, node, ring');
      assert Nearest(ring'.Keys, k, h);
    } else {
      KeysShrink(c, ring, order, node, ring');
    }
  }

  lemma KeysShrink<Node>(c: Layout<Node>, ring: Ring<Node>, order: seq<Node>, node: Node, ring': Ring<Node>)
    requires NoDuplicates(order) && Represents(c, ring, order) && Represents(c, ring', Without(order, node))
    ensures ring'.Keys <= ring.Keys
  {
    forall h | h in ring'.Keys ensures h in ring.Keys {
      assert Lists(ring', h, At(c, Without(order, node), h));
      AtWithout(c, order, node, h);
      assert Lists(ring, h, At(c, order, h));
    }
  }

  /** The order of the nodes determines the ring; so removing a node just added restores it exactly. */
  lemma OrderDeterminesRing<Node>(c: Layout<Node>, a: Ring<Node>, b: Ring<Node>, order: seq<Node>)
    requires Represents(c, a, order) && Represents(c, b, order)
    ensures a == b
  {
    forall h: Hash ensures (h in a <==> h in b) && (h in a && h in b ==> a[h] == b[h]) {
      assert Lists(a, h, At(c, order, h)) && Lists(b, h, At(c, order, h));
    }
  }

  lemma RemoveUndoesAdd<Node>(c: Layout<Node>, ring: Ring<Node>, order: seq<Node>, node: Node, back: Ring<Node>)
    requires NoDuplicates(order) && node !in order
    requires Represents(c, ring, order) && Represents(c, back, Without(order + [node], node))
    ensures back == ring
  {
    WithoutLast(order, node);
    OrderDeterminesRing(c, ring, back, order);
  }

  // ---------------------------------------------------------------- independence of history

  /** Two different nodes of the set share a point. */
  ghost predicate Collide<Node(!new)>(c: Layout<Node>, nodes: set<Node>) {
    exists a, b, h ::
      a in nodes && b in nodes && a != b && Copies(c, a, h, c.replicas) != [] && Copies(c, b, h, c.replicas) != []
  }

  lemma {:induction false} AtWithoutCollision<Node(!new)>(c: Layout<Node>, order: seq<Node>, nodes: set<Node>,
      node: Node, h: Hash)
    requires !Collide(c, nodes) && NoDuplicates(order) && Elements(order) <= nodes
    requires node in nodes && Copies(c, node, h, c.replicas) != []
    ensures At(c, order, h) == if node in order then Copies(c, node, h, c.replicas) else []
  {
    if order != [] {
      assert order == [order[0]] + order[1..];
      ElementsCons(order[0], order[1..]);
      AtWithoutCollision(c, order[1..], nodes, node, h);
      assert order[0] in nodes;
      if order[0] != node {
        assert Copies(c, order[0], h, c.replicas) == [];
      }
    }
  }

  lemma {:induction false} AtEmpty<Node>(c: Layout<Node>, order: seq<Node>, h: Hash)
    requires forall n :: n in order ==> Copies(c, n, h, c.replicas) == []
    ensures At(c, order, h) == []
  {
    if order != [] {
      AtEmpty(c, order[1..], h);
    }
  }

  lemma SetDeterminesLists<Node(!new)>(c: Layout<Node>, a: seq<Node>, b: seq<Node>, h: Hash)
    requires NoDuplicates(a) && NoDuplicates(b) && Elements(a) == Elements(b) && !Collide(c, Elements(a))
    ensures At(c, a, h) == At(c, b, h)
  {
    if node :| node in a && Copies(c, node, h, c.replicas) != [] {
      assert node in Elements(a) && node in Elements(b);
      AtWithoutCollision(c, a, Elements(a), node, h);
      AtWithoutCollision(c, b, Elements(a), node, h);
    } else {
      forall n | n in b ensures Copies(c, n, h, c.replicas) == [] {
        assert n in Elements(b);
      }
      AtEmpty(c, a, h);
      AtEmpty(c, b, h);
    }
  }

  predicate Arranges<Node(==)>(order: seq<Node>, nodes: set<Node>) {
    NoDuplicates(order) && Elements(order) == nodes
  }

  /** Two orders of the same nodes put different lists at a point. */
  predicate Differ<Node(==)>(c: Layout<Node>, nodes: set<Node>, a: seq<Node>, b: seq<Node>, h: Hash) {
    Arranges(a, nodes) && Arranges(b, nodes) && At(c, a, h) != At(c, b, h)
  }

  /**
   * When the ring remembers its history: the order in which the nodes of a set were added shows in
   * the ring if and only if two of them share a point. Otherwise the set alone determines the ring.
   */
  lemma HistoryMattersIffNodesCollide<Node(!new)>(c: Layout<Node>, nodes: set<Node>)
    ensures Collide(c, nodes) <==>
      exists a: seq<Node>, b: seq<Node>, h: Hash :: Differ(c, nodes, a, b, h)
  {
    if Collide(c, nodes) {
      var x, y, h :| x in nodes && y in nodes && x != y
        && Copies(c, x, h, c.replicas) != [] && Copies(c, y, h, c.replicas) != [];
      var a, b := CollidingOrders(c, nodes, x, y, h);
    } else if a: seq<Node>, b: seq<Node>, h: Hash :| Differ(c, nodes, a, b, h) {
      SetDeterminesLists(c, a, b, h);
    }
  }

  /** Whichever of two colliding nodes is added first is found first. */
  lemma CollidingOrders<Node>(c: Layout<Node>, nodes: set<Node>, x: Node, y: Node, h: Hash)
      returns (a: seq<Node>, b: seq<Node>)
    requires x in nodes && y in nodes && x != y
    requires Copies(c, x, h, c.replicas) != [] && Copies(c, y, h, c.replicas) != []
    ensures Differ(c, nodes, a, b, h)
  {
    var rest := Arrangement(nodes - {x, y});
    a, b := [x, y] + rest, [y, x] + rest;
    FirstAdded(c, a, h);
    FirstAdded(c, b, h);
    ArrangedPair(nodes, x, y, rest);
    assert nodes - {y, x} == nodes - {x, y};
    ArrangedPair(nodes, y, x, rest);
  }

  lemma FirstAdded<Node>(c: Layout<Node>, order: seq<Node>, h: Hash)
    requires order != [] && Copies(c, order[0], h, c.replicas) != []
    ensures At(c, order, h) != [] && At(c, order, h)[0] == order[0]
  {
    CopiesAreTheNode(c, order[0], h, c.replicas);
  }

  lemma ArrangedPair<Node>(nodes: set<Node>, x: Node, y: Node, rest: seq<Node>)
    requires x in nodes && y in nodes && x != y && Arranges(rest, nodes - {x, y})
    ensures Arranges([x, y] + rest, nodes)
  {
    ElementsCons(y, rest);
    ElementsCons(x, [y] + rest);
    assert [x] + ([y] + rest) == [x, y] + rest;
    assert forall n :: n in rest ==> n in Elements(rest);
  }

  lemma {:induction false} Arrangement<Node>(nodes: set<Node>) returns (order: seq<Node>)
    ensures Arranges(order, nodes)
  {
    order := [];
    if nodes != {} {
      var n :| n in nodes;
      var rest := Arrangement(nodes - {n});
      ElementsCons(n, rest);
      assert forall x :: x in rest ==> x in Elements(rest);
      order := [n] + rest;
    }
  }

  // ---------------------------------------------------------------- the ring

  class ConsistentHash<Node(==,!new)> {
    const layout: Layout<Node>
    var nodes: set<Node>
    var ring: Ring<Node>
    /** The present nodes, in the order in which they were last added. */
    ghost var order: seq<Node>

    ghost predicate Valid()
      reads this
    {
      0 < layout.replicas && Arranges(order, nodes) && Represents(layout, ring, order)
    }

    constructor (point: (Node, nat) -> Hash, replicas: nat)
      requires 0 < replicas
      ensures Valid() && nodes == {} && order == []
      ensures layout.point == point && layout.replicas == replicas
    {
      layout, nodes, ring, order := Layout(point, replicas), {}, map[], [];
    }

    /** A node that is new goes to the end of the order, and takes over keys without moving any other. */
    method Add(node: Node) returns (added: bool)
      requires Valid()
      modifies this
      ensures Valid()
      ensures added <==> node !in old(nodes)
      ensures nodes == old(nodes) + {node} && order == if added then old(order) + [node] else old(order)
      ensures !added ==> ring == old(ring)
      ensures forall k, before, after :: Answers(old(ring), k, before) && Answers(ring, k, after) ==>
        after == before || after == Some(node)
    {
      added := node !in nodes;
      if added {
        ghost var was := order;
        assert node !in Elements(order);
        nodes := nodes + {node};
        PlaceReplicas(node);
        order := order + [node];
        assert Elements(order) == Elements(was) + {node};
        forall h ensures Lists(ring, h, At(layout, order, h)) {
          AtAppend(layout, was, node, h);
          assert Lists(ring, h, At(layout, was, h) + Copies(layout, node, h, layout.replicas));
        }
        forall k, before, after | Answers(old(ring), k, before) && Answers(ring, k, after)
          ensures after == before || after == Some(node)
        {
          AddMovesKeysOnlyToTheNode(layout, old(ring), was, node, ring, k, before, after);
        }
      } else {
        assert nodes == nodes + {node};
        forall k, before, after | Answers(ring, k, before) && Answers(ring, k, after) ensures after == before {
          var only := AnswerIsUnique(layout, ring, order, k);
        }
      }
    }

    method PlaceReplicas(node: Node)
      requires Represents(layout, ring, order)
      modifies `ring
      ensures forall h :: Lists(ring, h, At(layout, order, h) + Copies(layout, node, h, layout.replicas))
    {
      assert forall h :: Lists(ring, h, At(layout, order, h) + []);
      for replica := 0 to layout.replicas
        invariant forall h :: Lists(ring, h, At(layout, order, h) + Copies(layout, node, h, replica))
      {
        ghost var was := ring;
        var hash := layout.point(node, replica);
        ring := ring[hash := (if hash in ring then ring[hash] else []) + [node]];
        forall h ensures Lists(ring, h, At(layout, order, h) + Copies(layout, node, h, replica + 1)) {
          assert Lists(was, h, At(layout, order, h) + Copies(layout, node, h, replica));
        }
      }
    }

    method Remove(node: Node) returns (removed: bool)
      requires Valid()
      modifies this
      ensures Valid()
      ensures removed <==> node in old(nodes)
      ensures nodes == old(nodes) - {node} && order == Without(old(order), node)
      ensures !removed ==> ring == old(ring)
      ensures forall k, before, after :: Answers(old(ring), k, before) && Answers(ring, k, after) ==>
        after == before || before == Some(node)
    {
      removed := node in nodes;
      assert removed <==> node in Elements(order);
      if removed {
        ghost var was := order;
        nodes := nodes - {node};
        TakeReplicas(node);
        order := Without(order, node);
        WithoutElements(was, node);
        forall h ensures Lists(ring, h, At(layout, order, h)) {
          AtWithout(layout, was, node, h);
          assert Lists(ring, h, Others(At(layout, was, h), node));
        }
        forall k, before, after | Answers(old(ring), k, before) && Answers(ring, k, after)
          ensures after == before || before == Some(node)
        {
          RemoveMovesOnlyItsKeys(layout, old(ring), was, node, ring, k, before, after);
        }
      } else {
        WithoutAbsent(order, node);
        forall k, before, after | Answers(ring, k, before) && Answers(ring, k, after) ensures after == before {
          var only := AnswerIsUnique(layout, ring, order, k);
        }
      }
    }

    method TakeReplicas(node: Node)
      requires Represents(layout, ring, order) && NoDuplicates(order)
      modifies `ring
      ensures forall h :: Lists(ring, h, Others(At(layout, order, h), node))
    {
      for replica := 0 to layout.replicas
        invariant forall h :: Lists(ring, h, TakenFrom(layout, order, node, h, replica))
      {
        ghost var was := ring;
        var hash := layout.point(node, replica);
        if hash in ring {
          var rest := Others(ring[hash], node);
          ring := if rest == [] then ring - {hash} else ring[hash := rest];
        }
        ghost var done := replica + 1;
        forall h ensures Lists(ring, h, TakenFrom(layout, order, node, h, done)) {
          assert Lists(was, h, TakenFrom(layout, order, node, h, replica));
          OthersTwice(At(layout, order, h), node);
        }
      }
      forall h ensures Lists(ring, h, Others(At(layout, order, h), node)) {
        assert Lists(ring, h, TakenFrom(layout, order, node, h, layout.replicas));
        AllTaken(layout, order, node, h);
      }
    }

    /** The first point from this hash on, or else the first of all. */
    method FirstPoint(hash: Hash) returns (point: Hash)
      requires ring.Keys != {}
      ensures FirstFrom(ring.Keys, hash, point) && Nearest(ring.Keys, hash, point)
    {
      ghost var nearest := NearestExists(ring.Keys, hash);
      NearestIsFirstFrom(ring.Keys, hash, nearest);
      if exists h :: h in ring.Keys && h >= hash {
        point :| point in ring.Keys && point >= hash && forall h :: h in ring.Keys && h >= hash ==> point <= h;
      } else {
        point :| point in ring.Keys && forall h :: h in ring.Keys ==> point <= h;
      }
      NearestIsFirstFrom(ring.Keys, hash, point);
    }

    /** The node for a key with this hash; there is one unless the ring is empty. */
    method Get(hash: Hash) returns (node: Option<Node>)
      requires Valid()
      ensures Answers(ring, hash, node)
      ensures node == None <==> nodes == {}
      ensures node.Some? ==> node.value in nodes
    {
      ghost var answer := AnswerIsUnique(layout, ring, order, hash);
      assert order == [] <==> Elements(order) == {} by {
        if order != [] {
          assert order[0] in Elements(order);
        }
      }
      if ring.Keys == {} {
        return None;
      }
      var point := FirstPoint(hash);
      assert Lists(ring, point, At(layout, order, point));
      node := Some(ring[point][0]);
    }
  }

  /** The list at `h` once the first `replicas` replicas of the node have been dealt with. */
  function TakenFrom<Node(==)>(c: Layout<Node>, order: seq<Node>, node: Node, h: Hash, replicas: nat): seq<Node> {
    if Copies(c, node, h, replicas) == [] then At(c, order, h) else Others(At(c, order, h), node)
  }

  lemma {:induction false} OthersTwice<Node>(list: seq<Node>, node: Node)
    ensures Others(Others(list, node), node) == Others(list, node)
  {
    if list != [] {
      OthersTwice(list[1..], node);
      if list[0] != node {
        assert Others(list, node)[1..] == Others(list[1..], node);
      }
    }
  }

  lemma {:induction false} AllTaken<Node>(c: Layout<Node>, order: seq<Node>, node: Node, h: Hash)
    requires NoDuplicates(order)
    ensures TakenFrom(c, order, node, h, c.replicas) == Others(At(c, order, h), node)
  {
    if Copies(c, node, h, c.replicas) == [] && order != [] {
      AllTaken(c, order[1..], node, h);
      CopiesAreTheNode(c, order[0], h, c.replicas);
      OthersOfUniform(Copies(c, order[0], h, c.replicas), order[0], node);
      OthersConcat(Copies(c, order[0], h, c.replicas), At(c, order[1..], h), node);
    }
  }
}
