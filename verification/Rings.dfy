/** Go's container/ring: circular doubly linked lists without beginning or end. */
module Rings {
  import opened Options

  function Succ(i: nat, n: nat): nat {
    if i + 1 < n then i + 1 else 0
  }

  function Pred(i: nat, n: nat): nat
    requires n > 0
  {
    if i > 0 then i - 1 else n - 1
  }

  function InsertAt<T>(s: seq<T>, i: nat, x: T): seq<T>
    requires i <= |s|
  {
    s[..i] + [x] + s[i..]
  }

  function RemoveAt<T>(s: seq<T>, i: nat): seq<T>
    requires i < |s|
  {
    s[..i] + s[i + 1..]
  }

  lemma InsertedAt<T>(s: seq<T>, i: nat, x: T, k: nat)
    requires i <= |s| && k <= |s|
    ensures |InsertAt(s, i, x)| == |s| + 1
    ensures InsertAt(s, i, x)[k] == if k < i then s[k] else if k == i then x else s[k - 1]
  {
  }

  lemma RemovedAt<T>(s: seq<T>, i: nat, k: nat)
    requires i < |s| && k < |s| - 1
    ensures |RemoveAt(s, i)| == |s| - 1 && RemoveAt(s, i)[k] == if k < i then s[k] else s[k + 1]
  {
    if k >= i {
      assert s[i + 1..][k - i] == s[k + 1];
    }
  }

  /** `nodes` are the elements of one ring, in order. */
  ghost predicate Linked<T>(nodes: seq<Ring<T>>)
    reads nodes
  {
    && |nodes| > 0
    && (forall i, j | 0 <= i < j < |nodes| :: nodes[i] != nodes[j])
    && (forall i {:trigger nodes[i].next} | 0 <= i < |nodes| :: nodes[i].next == nodes[Succ(i, |nodes|)])
    && (forall i {:trigger nodes[i].prev} | 0 <= i < |nodes| :: nodes[i].prev == nodes[Pred(i, |nodes|)])
  }

  lemma LongerNext<T>(nodes: seq<Ring<T>>, i: nat, e: Ring<T>, k: nat)
    requires i < |nodes| && k <= |nodes| && nodes[i].next == e && e.next == nodes[Succ(i, |nodes|)]
    requires forall k {:trigger nodes[k].next} | 0 <= k < |nodes| && k != i :: nodes[k].next == nodes[Succ(k, |nodes|)]
    ensures InsertAt(nodes, i + 1, e)[k].next == InsertAt(nodes, i + 1, e)[Succ(k, |nodes| + 1)]
  {
    InsertedAt(nodes, i + 1, e, k);
    InsertedAt(nodes, i + 1, e, Succ(k, |nodes| + 1));
  }

  lemma LongerPrev<T>(nodes: seq<Ring<T>>, i: nat, e: Ring<T>, k: nat)
    requires i < |nodes| && k <= |nodes| && e.prev == nodes[i] && nodes[Succ(i, |nodes|)].prev == e
    requires forall k {:trigger nodes[k].prev} | 0 <= k < |nodes| && k != Succ(i, |nodes|) ::
             nodes[k].prev == nodes[Pred(k, |nodes|)]
    ensures InsertAt(nodes, i + 1, e)[k].prev == InsertAt(nodes, i + 1, e)[Pred(k, |nodes| + 1)]
  {
    InsertedAt(nodes, i + 1, e, k);
    InsertedAt(nodes, i + 1, e, Pred(k, |nodes| + 1));
  }

  /** The links of a ring with `e` inserted behind element `i`. */
  lemma LongerLinked<T>(nodes: seq<Ring<T>>, i: nat, e: Ring<T>)
    requires i < |nodes| && e !in nodes
    requires forall j, k | 0 <= j < k < |nodes| :: nodes[j] != nodes[k]
    requires nodes[i].next == e && e.prev == nodes[i]
    requires e.next == nodes[Succ(i, |nodes|)] && nodes[Succ(i, |nodes|)].prev == e
    requires forall k {:trigger nodes[k].next} | 0 <= k < |nodes| && k != i :: nodes[k].next == nodes[Succ(k, |nodes|)]
    requires forall k {:trigger nodes[k].prev} | 0 <= k < |nodes| && k != Succ(i, |nodes|) ::
             nodes[k].prev == nodes[Pred(k, |nodes|)]
    ensures Linked(InsertAt(nodes, i + 1, e))
  {
    var longer := InsertAt(nodes, i + 1, e);
    forall k | 0 <= k < |longer| ensures longer[k].next == longer[Succ(k, |longer|)] {
      LongerNext(nodes, i, e, k);
    }
    forall k | 0 <= k < |longer| ensures longer[k].prev == longer[Pred(k, |longer|)] {
      LongerPrev(nodes, i, e, k);
    }
    InsertedDistinct(nodes, i + 1, e);
  }

  lemma ShorterNext<T>(nodes: seq<Ring<T>>, i: nat, k: nat)
    requires i + 1 < |nodes| && k < |nodes| - 1 && nodes[i].next == nodes[Succ(i + 1, |nodes|)]
    requires forall k {:trigger nodes[k].next} | 0 <= k < |nodes| && k != i && k != i + 1 ::
             nodes[k].next == nodes[Succ(k, |nodes|)]
    ensures RemoveAt(nodes, i + 1)[k].next == RemoveAt(nodes, i + 1)[Succ(k, |nodes| - 1)]
  {
    RemovedAt(nodes, i + 1, k);
    RemovedAt(nodes, i + 1, Succ(k, |nodes| - 1));
  }

  lemma ShorterPrev<T>(nodes: seq<Ring<T>>, i: nat, k: nat)
    requires i + 1 < |nodes| && k < |nodes| - 1 && nodes[Succ(i + 1, |nodes|)].prev == nodes[i]
    requires forall k {:trigger nodes[k].prev} | 0 <= k < |nodes| && k != i + 1 && k != Succ(i + 1, |nodes|) ::
             nodes[k].prev == nodes[Pred(k, |nodes|)]
    ensures RemoveAt(nodes, i + 1)[k].prev == RemoveAt(nodes, i + 1)[Pred(k, |nodes| - 1)]
  {
    RemovedAt(nodes, i + 1, k);
    RemovedAt(nodes, i + 1, Pred(k, |nodes| - 1));
  }

  /** The links of a ring with the element behind element `i` cut out. */
  lemma ShorterLinked<T>(nodes: seq<Ring<T>>, i: nat)
    requires i + 1 < |nodes| && forall j, k | 0 <= j < k < |nodes| :: nodes[j] != nodes[k]
    requires nodes[i].next == nodes[Succ(i + 1, |nodes|)] && nodes[Succ(i + 1, |nodes|)].prev == nodes[i]
    requires forall k {:trigger nodes[k].next} | 0 <= k < |nodes| && k != i && k != i + 1 ::
             nodes[k].next == nodes[Succ(k, |nodes|)]
    requires forall k {:trigger nodes[k].prev} | 0 <= k < |nodes| && k != i + 1 && k != Succ(i + 1, |nodes|) ::
             nodes[k].prev == nodes[Pred(k, |nodes|)]
    ensures Linked(RemoveAt(nodes, i + 1))
  {
    var shorter := RemoveAt(nodes, i + 1);
    forall k | 0 <= k < |shorter| ensures shorter[k].next == shorter[Succ(k, |shorter|)] {
      ShorterNext(nodes, i, k);
    }
    forall k | 0 <= k < |shorter| ensures shorter[k].prev == shorter[Pred(k, |shorter|)] {
      ShorterPrev(nodes, i, k);
    }
    RemovedDistinct(nodes, i + 1);
  }

  lemma RemovedDistinct<T>(s: seq<T>, i: nat)
    requires i < |s| && forall j, k | 0 <= j < k < |s| :: s[j] != s[k]
    ensures forall j, k | 0 <= j < k < |s| - 1 :: RemoveAt(s, i)[j] != RemoveAt(s, i)[k]
  {
    forall j, k | 0 <= j < k < |s| - 1 ensures RemoveAt(s, i)[j] != RemoveAt(s, i)[k] {
      RemovedAt(s, i, j);
      RemovedAt(s, i, k);
    }
  }

  lemma InsertedDistinct<T>(s: seq<T>, i: nat, x: T)
    requires i <= |s| && x !in s && forall j, k | 0 <= j < k < |s| :: s[j] != s[k]
    ensures forall j, k | 0 <= j < k < |s| + 1 :: InsertAt(s, i, x)[j] != InsertAt(s, i, x)[k]
  {
    forall j, k | 0 <= j < k < |s| + 1 ensures InsertAt(s, i, x)[j] != InsertAt(s, i, x)[k] {
      InsertedAt(s, i, x, j);
      InsertedAt(s, i, x, k);
    }
  }

  class Ring<T> {
    var next: Ring<T>
    var prev: Ring<T>
    var value: Option<T>

    /** A ring of one element is linked to itself. */
    constructor ()
      ensures next == this && prev == this && value == None
    {
      next, prev, value := this, this, None;
    }

    /** ring.Link: the four assignments in their order, so that a later one wins when elements coincide. */
    method Link(s: Ring<T>) returns (n: Ring<T>)
      modifies this`next, next`prev, s`prev, s.prev`next
      ensures n == old(next)
      ensures old(s.prev).next == n && n.prev == old(s.prev)
      ensures old(s.prev) != this ==> next == s
      ensures n != s ==> s.prev == this
    {
      n := next;
      var p := s.prev;
      next := s;
      s.prev := this;
      n.prev := p;
      p.next := n;
    }

    /** Linking a ring of one behind this element inserts it there. */
    method LinkOne(e: Ring<T>, ghost nodes: seq<Ring<T>>, ghost i: nat) returns (n: Ring<T>)
      requires Linked(nodes) && i < |nodes| && nodes[i] == this
      requires e !in nodes && e.next == e && e.prev == e
      modifies this`next, next`prev, e`next, e`prev
      ensures n == nodes[Succ(i, |nodes|)]
      ensures Linked(InsertAt(nodes, i + 1, e))
    {
      n := Link(e);
      LongerLinked(nodes, i, e);
    }

    /** ring.Unlink(1): linking to the element two places on cuts the next one out. */
    method UnlinkOne(ghost nodes: seq<Ring<T>>, ghost i: nat)
      requires Linked(nodes) && i + 1 < |nodes| && nodes[i] == this
      modifies this`next, next`next, next`prev, next.next`prev
      ensures Linked(RemoveAt(nodes, i + 1))
    {
      ghost var removed := next;
      assert removed == nodes[i + 1];
      var s := next.next;
      assert s == nodes[Succ(i + 1, |nodes|)] && s.prev == removed;
      var n := Link(s);
      assert next == s && s.prev == this;
      assert forall k {:trigger nodes[k].next} | 0 <= k < |nodes| && k != i && k != i + 1 ::
               nodes[k].next == nodes[Succ(k, |nodes|)];
      assert forall k {:trigger nodes[k].prev} | 0 <= k < |nodes| && k != i + 1 && k != Succ(i + 1, |nodes|) ::
               nodes[k].prev == nodes[Pred(k, |nodes|)];
      ShorterLinked(nodes, i);
    }

    /** ring.Len, by walking once around. */
    method Len(ghost nodes: seq<Ring<T>>) returns (n: nat)
      requires Linked(nodes) && nodes[0] == this
      ensures n == |nodes|
    {
      n := 1;
      var p := next;
      while p != this
        invariant 1 <= n <= |nodes|
        invariant p == nodes[if n < |nodes| then n else 0]
        decreases |nodes| - n
      {
        assert p.next == nodes[Succ(n, |nodes|)];
        p := p.next;
        n := n + 1;
      }
    }

    /** ring.New: n elements in a ring, or no ring at all. */
    static method New(n: int) returns (r: Ring?<T>, ghost nodes: seq<Ring<T>>)
      ensures n <= 0 ==> r == null && nodes == []
      ensures n > 0 ==> Linked(nodes) && |nodes| == n && nodes[0] == r
      ensures forall e | e in nodes :: fresh(e) && e.value == None
    {
      if n <= 0 {
        return null, [];
      }
      var first := new Ring<T>();
      var p := first;
      nodes := [first];
      var i := 1;
      while i < n
        invariant 1 <= i == |nodes| <= n
        invariant nodes[0] == first && p == nodes[i - 1] && fresh(p) && fresh(first)
        invariant forall e | e in nodes :: fresh(e) && e.value == None
        invariant forall j, k | 0 <= j < k < |nodes| :: nodes[j] != nodes[k]
        invariant forall j {:trigger nodes[j].next} | 0 <= j < i - 1 :: nodes[j].next == nodes[j + 1]
        invariant forall j {:trigger nodes[j].prev} | 1 <= j < i :: nodes[j].prev == nodes[j - 1]
      {
        var e := new Ring<T>();
        e.prev := p;
        p.next := e;
        p := e;
        nodes := nodes + [e];
        i := i + 1;
      }
      p.next := first;
      first.prev := p;
      r := first;
    }
  }
}
