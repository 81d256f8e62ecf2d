/** The doubly linked list of instructions: `instruction_list`.

    Every other part of the model treats an instruction list as a sequence; here the pointer
    surgery is shown to do to the list what the sequence operation of that name does. */
module InstructionList {

  class Node {
    var prev: Node?
    var next: Node?
    constructor () ensures prev == null && next == null { prev, next := null, null; }
  }

  function Insert(s: seq<Node>, at: nat, n: Node): seq<Node>
    requires at <= |s|
  {
    s[..at] + [n] + s[at..]
  }

  function Without(s: seq<Node>, at: nat): seq<Node>
    requires at < |s|
  {
    s[..at] + s[at + 1..]
  }

  /** The node at a position, or null outside of the list. */
  function Get(s: seq<Node>, i: int): Node? { if 0 <= i < |s| then s[i] else null }

  predicate Distinct(s: seq<Node>) { forall i, j :: 0 <= i < j < |s| ==> s[i] != s[j] }

  lemma WithoutDistinct(s: seq<Node>, at: nat)
    requires Distinct(s) && at < |s|
    ensures Distinct(Without(s, at)) && s[at] !in Without(s, at)
  {
  }

  /** Taking the node at `at` when those from `at` to `k` are already gone. */
  lemma TailStep(all: seq<Node>, at: nat, k: nat, s: seq<Node>)
    requires at <= k < |all| && s == all[..at] + all[k..]
    ensures Get(s, at) == all[k] && Get(s, at + 1) == Get(all, k + 1)
    ensures Without(s, at) == all[..at] + all[k + 1..]
  {
  }

  lemma Gone(all: seq<Node>, at: nat, k: nat)
    requires Distinct(all) && at <= k <= |all|
    ensures forall i :: at <= i < k ==> all[i] !in all[..at] + all[k..]
  {
  }

  lemma Joined(a: seq<Node>, b: seq<Node>)
    requires Distinct(a) && Distinct(b) && forall n :: n in a ==> n !in b
    ensures Distinct(a + b)
  {
    forall i, j | 0 <= i < j < |a + b| ensures (a + b)[i] != (a + b)[j] {
      if i < |a| <= j {
        assert a[i] in a && b[j - |a|] in b;
      }
    }
  }

  /** The links of a node lead past the one at `at`. */
  ghost predicate Bypasses(all: seq<Node>, at: nat, j: nat)
    requires at < |all| && j < |all|
    reads all[j]
  {
    && all[j].prev == Get(all, if j == at + 1 then j - 2 else j - 1)
    && all[j].next == Get(all, if j + 1 == at then j + 2 else j + 1)
  }

  lemma Relinked(all: seq<Node>, at: nat, i: nat)
    requires at < |all| && i < |all| - 1 && Bypasses(all, at, if i < at then i else i + 1)
    ensures var s := Without(all, at); s[i].prev == Get(s, i - 1) && s[i].next == Get(s, i + 1)
  {
  }

  class List {
    var first: Node?
    var last: Node?
    var length: nat
    /** The nodes in list order. */
    ghost var nodes: seq<Node>

    ghost predicate LinkedAt(i: int)
      reads this, nodes
    {
      0 <= i < |nodes| ==> nodes[i].prev == Get(nodes, i - 1) && nodes[i].next == Get(nodes, i + 1)
    }

    ghost predicate Valid()
      reads this, nodes
    {
      && length == |nodes| && first == Get(nodes, 0) && last == Get(nodes, |nodes| - 1)
      && Distinct(nodes) && forall i :: LinkedAt(i)
    }

    /** A node that is in no list. */
    ghost predicate IsFree(n: Node)
      reads this, n
    {
      n !in nodes && n.prev == null && n.next == null
    }

    constructor ()
      ensures Valid() && nodes == []
    {
      first, last, length, nodes := null, null, 0, [];
    }

    method Append(item: Node)
      requires Valid() && IsFree(item)
      modifies this, nodes, item
      ensures Valid() && nodes == old(nodes) + [item]
    {
      var before := last;
      last := item;
      item.prev := before;
      item.next := null;
      if before != null {
        before.next := item;
      }
      length := length + 1;
      if length == 1 {
        first := item;
      }
      nodes := nodes + [item];
      forall i ensures LinkedAt(i) { assert old(LinkedAt(i)); }
    }

    method Prepend(item: Node)
      requires Valid() && IsFree(item)
      modifies this, nodes, item
      ensures Valid() && nodes == [item] + old(nodes)
    {
      var after := first;
      first := item;
      item.next := after;
      item.prev := null;
      if after != null {
        after.prev := item;
      }
      length := length + 1;
      if length == 1 {
        last := item;
      }
      nodes := [item] + nodes;
      forall i ensures LinkedAt(i) { assert old(LinkedAt(i - 1)); }
    }

    /** `chain`: a node between two neighbours. */
    method Chain(before: Node, item: Node, after: Node, ghost at: nat)
      requires Valid() && IsFree(item) && 0 < at < |nodes| && nodes[at - 1] == before && nodes[at] == after
      modifies this, nodes, item
      ensures Valid() && nodes == Insert(old(nodes), at, item)
    {
      length := length + 1;
      item.prev := before;
      before.next := item;
      item.next := after;
      after.prev := item;
      nodes := Insert(nodes, at, item);
      forall i ensures LinkedAt(i) { assert old(LinkedAt(i)) && old(LinkedAt(i - 1)); }
    }

    /** `insert_before`; before nothing means at the front. */
    method InsertBefore(after: Node?, item: Node, ghost at: nat)
      requires Valid() && IsFree(item) && (if after == null then at == 0 else Get(nodes, at) == after)
      modifies this, nodes, item
      ensures Valid() && nodes == Insert(old(nodes), at, item)
    {
      assert LinkedAt(at);
      if 1 >= length || after == null || after.prev == null {
        Prepend(item);
      } else {
        Chain(after.prev, item, after, at);
      }
    }

    /** `insert_after`; after nothing means at the end. */
    method InsertAfter(before: Node?, item: Node, ghost at: int)
      requires Valid() && IsFree(item) && (if before == null then at == |nodes| - 1 else Get(nodes, at) == before)
      modifies this, nodes, item
      ensures Valid() && nodes == Insert(old(nodes), at + 1, item)
    {
      assert LinkedAt(at);
      if 1 >= length || before == null || before.next == null {
        Append(item);
      } else {
        Chain(before, item, before.next, at + 1);
      }
    }

    /** The neighbours of a node, or the ends of the list, are joined. */
    method Bypass(item: Node, ghost at: nat)
      requires Valid() && Get(nodes, at) == item
      modifies this`first, this`last, nodes
      ensures forall j :: 0 <= j < |nodes| && j != at ==> Bypasses(nodes, at, j)
      ensures first == Get(nodes, if at == 0 then 1 else 0)
      ensures last == Get(nodes, if at == |nodes| - 1 then at - 1 else |nodes| - 1)
      ensures item.prev == null && item.next == null
    {
      assert LinkedAt(at);
      var prev, next := item.prev, item.next;
      if prev != null {
        prev.next := next;
      } else {
        first := next;
      }
      if next != null {
        next.prev := prev;
      } else {
        last := prev;
      }
      item.prev := null;
      item.next := null;
      forall j | 0 <= j < |nodes| && j != at ensures Bypasses(nodes, at, j) {
        assert old(LinkedAt(j));
      }
    }

    method Unlink(item: Node, ghost at: nat)
      requires Valid() && Get(nodes, at) == item
      modifies this, nodes
      ensures Valid() && nodes == Without(old(nodes), at) && IsFree(item)
    {
      ghost var all := nodes;
      WithoutDistinct(all, at);
      Bypass(item, at);
      hide Distinct, Bypasses;
      length := length - 1;
      nodes := Without(nodes, at);
      forall i ensures LinkedAt(i) {
        if 0 <= i < |nodes| {
          assert Bypasses(all, at, if i < at then i else i + 1);
          Relinked(all, at, i);
        }
      }
    }

    /** `remove`: the node is free afterwards; no node means no change. */
    method Remove(item: Node?, ghost at: nat)
      requires Valid() && Get(nodes, at) == item
      modifies this, nodes
      ensures Valid() && (item == null ==> nodes == old(nodes))
      ensures item != null ==> nodes == Without(old(nodes), at) && IsFree(item)
    {
      if item != null {
        Unlink(item, at);
      }
    }

    /** One turn of `remove_tail_at`, which gives the node that comes next. */
    method UnlinkTail(ghost all: seq<Node>, node: Node, ghost at: nat, ghost k: nat) returns (next: Node?)
      requires Valid() && at <= k < |all| && all[k] == node && nodes == all[..at] + all[k..]
      modifies this, nodes
      ensures Valid() && nodes == all[..at] + all[k + 1..] && IsFree(node) && next == Get(all, k + 1)
    {
      TailStep(all, at, k, nodes);
      assert LinkedAt(at);
      next := node.next;
      Unlink(node, at);
    }

    /** `remove_tail_at`: everything from a node on is free afterwards. */
    method RemoveTailAt(item: Node?, ghost at: nat)
      requires Valid() && at <= |nodes| && Get(nodes, at) == item
      modifies this, nodes
      ensures Valid() && nodes == old(nodes)[..at] && forall i :: at <= i < |old(nodes)| ==> IsFree(old(nodes)[i])
    {
      ghost var all, k := nodes, at;
      var node := item;
      assert Distinct(all);
      hide Distinct, Without, LinkedAt;
      while node != null
        invariant at <= k <= |all| && node == Get(all, k)
        invariant Valid() && nodes == all[..at] + all[k..]
        invariant forall i :: at <= i < k ==> all[i].prev == null && all[i].next == null
        decreases |all| - k
      {
        Gone(all, at, k);
        node := UnlinkTail(all, node, at, k);
        k := k + 1;
      }
      Gone(all, at, |all|);
    }

    /** `extend`: the other list is empty afterwards. */
    method Extend(that: List)
      requires Valid() && that.Valid() && this != that && forall n :: n in nodes ==> n !in that.nodes
      modifies this, that, nodes, that.nodes
      ensures Valid() && that.Valid() && nodes == old(nodes) + old(that.nodes) && that.nodes == []
    {
      if that.length == 0 {
        return;
      }
      Joined(nodes, that.nodes);
      assert last != null ==> last == (nodes + that.nodes)[|nodes| - 1] && that.first == (nodes + that.nodes)[|nodes|];
      length := length + that.length;
      if last == null {
        first, last := that.first, that.last;
      } else {
        that.first.prev := last;
        last.next := that.first;
        last := that.last;
      }
      that.last := null;
      that.first := null;
      that.length := 0;
      nodes, that.nodes := nodes + that.nodes, [];
      Joined(old(nodes), old(that.nodes));
      ghost var n := |old(nodes)|;
      forall i ensures LinkedAt(i) {
        assert old(LinkedAt(i)) && old(that.LinkedAt(i - n));
      }
    }

    /** Walking along `next` from the first node, as every loop over a list does. */
    method Walk() returns (visited: seq<Node>)
      requires Valid()
      ensures visited == nodes
    {
      visited := [];
      var node := first;
      while node != null
        invariant |visited| <= |nodes| && visited == nodes[..|visited|] && node == Get(nodes, |visited|)
        decreases |nodes| - |visited|
      {
        assert LinkedAt(|visited|);
        visited := visited + [node];
        node := node.next;
      }
    }

    /** Walking along `prev` from the last node meets the same nodes backwards. */
    method WalkBack() returns (visited: seq<Node>)
      requires Valid()
      ensures |visited| == |nodes| && forall i :: 0 <= i < |nodes| ==> visited[i] == nodes[|nodes| - 1 - i]
    {
      visited := [];
      var node := last;
      while node != null
        invariant |visited| <= |nodes| && node == Get(nodes, |nodes| - 1 - |visited|)
        invariant forall i :: 0 <= i < |visited| ==> visited[i] == nodes[|nodes| - 1 - i]
        decreases |nodes| - |visited|
      {
        assert LinkedAt(|nodes| - 1 - |visited|);
        visited := visited + [node];
        node := node.prev;
      }
    }
  }
}
