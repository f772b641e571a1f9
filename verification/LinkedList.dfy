/**
  * The doubly linked list. The header is a node too: its next field is the first entry, its
  * prev field the last one, and an entry's neighbour at either end is the header itself.
  *
  * Used with InsertTail and RemoveHead the list is a first-in first-out queue (Fifo). Used
  * with InsertHead and Remove it is only a forward chain (Stack), because InsertHead leaves
  * the old first entry's prev alone: every prev then is the header.
  */
module LinkedList {
  class Node {
    var next: Node?
    var prev: Node?
    const item: int   // the structure that the entry is embedded in

    constructor (item: int)
      ensures next == null && prev == null && this.item == item
    {
      next, prev := null, null;
      this.item := item;
    }
  }

  // Entry k's neighbours, the header standing at both ends.
  function Before(head: Node, q: seq<Node>, k: nat): Node
    requires k <= |q|
  {
    if k == 0 then head else q[k - 1]
  }

  function After(head: Node, q: seq<Node>, k: nat): Node
    requires k <= |q|
  {
    if k == |q| then head else q[k]
  }

  ghost predicate Distinct(q: seq<Node>) {
    q == [] || (q[0] !in q[1..] && Distinct(q[1..]))
  }

  lemma {:induction false} DistinctAt(q: seq<Node>, i: nat, j: nat)
    requires Distinct(q) && i < j < |q|
    ensures q[i] != q[j]
  {
    if i == 0 {
      assert q[j] == q[1..][j - 1];
    } else {
      DistinctAt(q[1..], i - 1, j - 1);
    }
  }

  lemma {:induction false} DistinctAppend(q: seq<Node>, e: Node)
    requires Distinct(q) && e !in q
    ensures Distinct(q + [e])
  {
    if q != [] {
      DistinctAppend(q[1..], e);
      assert (q + [e])[1..] == q[1..] + [e];
    }
  }

  lemma {:induction false} DistinctDrop(q: seq<Node>, k: nat)
    requires Distinct(q) && k <= |q|
    ensures Distinct(q[k..])
  {
    if k > 0 {
      DistinctDrop(q[1..], k - 1);
      assert q[k..] == q[1..][k - 1..];
    } else {
      assert q[0..] == q;
    }
  }

  class List {
    const head: Node
    var entryCount: nat
    ghost var entries: seq<Node>   // what the list holds, first entry first

    ghost predicate Chained()
      reads this, head, entries
    {
      && head !in entries
      && Distinct(entries)
      && (entries != [] ==> head.next == entries[0])
      && forall k :: 0 <= k < |entries| ==> entries[k].next == After(head, entries, k + 1)
    }

    // Both links agree with the queue; an empty queue is all null or linked to itself.
    ghost predicate Fifo()
      reads this, head, entries
    {
      && Chained()
      && (forall k :: 0 <= k < |entries| ==> entries[k].prev == Before(head, entries, k))
      && (entries == [] ==> (head.next == null && head.prev == null) || (head.next == head && head.prev == head))
      && (entries != [] ==> head.prev == entries[|entries| - 1])
    }

    ghost predicate Stack()
      reads this, head, entries
    {
      && Chained()
      && (forall k :: 0 <= k < |entries| ==> entries[k].prev == head)
      && (head.prev == null || head.prev == head)
      && (entries == [] ==> (head.next == null && head.prev == null) || head.next == head)
    }

    constructor ()
      ensures fresh(head) && entryCount == 0 && entries == []
      ensures Fifo() && Stack()
    {
      head := new Node(0);
      entryCount, entries := 0, [];
    }

    // What linking a new last entry does to the queue.
    twostate lemma Appended()
      requires old(Fifo()) && head.prev != null && head.prev != head && head.prev !in old(entries)
      requires entries == old(entries) + [head.prev]
      requires head.prev.next == head && head.prev.prev == Before(head, old(entries), |old(entries)|)
      requires head.next == entries[0]
      requires forall e :: e in old(entries) ==> e.prev == old(e.prev)
      requires forall e :: e in old(entries) && e != old(head.prev) ==> e.next == old(e.next)
      requires old(entries) != [] ==> old(head.prev).next == head.prev
      ensures Fifo()
    {
      DistinctAppend(old(entries), head.prev);
      forall k | 0 <= k < |entries|
        ensures entries[k].next == After(head, entries, k + 1) && entries[k].prev == Before(head, entries, k)
      {
        if k < |entries| - 1 { assert entries[k] == old(entries)[k]; }
        if k < |entries| - 2 { DistinctAt(old(entries), k, |entries| - 2); }
      }
    }

    // What unlinking the first entry does to the queue.
    twostate lemma FirstRemoved()
      requires old(entries) != [] && old(Fifo()) && entries == old(entries)[1..]
      requires head.next == After(head, entries, 0)
      requires entries == [] ==> head.prev == head
      requires entries != [] ==> head.prev == old(head.prev) && entries[0].prev == head
      requires forall e :: e in entries ==> e.next == old(e.next)
      requires forall e :: e in entries && e != entries[0] ==> e.prev == old(e.prev)
      ensures Fifo()
    {
      DistinctDrop(old(entries), 1);
      assert forall k :: 0 <= k < |entries| ==> entries[k] == old(entries)[k + 1];
    }

    // What linking a new first entry does to the chain.
    twostate lemma Pushed()
      requires old(Stack()) && head.next != null && head.next != head && head.next !in old(entries)
      requires entries == [head.next] + old(entries)
      requires head.next.prev == head && head.next.next == After(head, old(entries), 0)
      requires head.prev == old(head.prev)
      requires forall e :: e in old(entries) ==> e.next == old(e.next) && e.prev == old(e.prev)
      ensures Stack()
    {
      assert entries[1..] == old(entries);
      assert forall k :: 1 <= k < |entries| ==> entries[k] == old(entries)[k - 1];
    }

    // What unlinking entry k does to the chain: the header now points past it.
    twostate lemma Cut(k: nat)
      requires old(Stack()) && k < |old(entries)| && entries == old(entries)[k + 1..]
      requires head.next == After(head, entries, 0)
      requires if entries == [] then head.prev == head else head.prev == old(head.prev)
      requires forall e :: e in entries ==> e.next == old(e.next) && e.prev == head
      ensures Stack()
    {
      DistinctDrop(old(entries), k + 1);
      assert forall j :: 0 <= j < |entries| ==> entries[j] == old(entries)[k + 1 + j];
    }

    // Its panic (a first entry but no last one) cannot happen on a queue.
    method InsertTail(e: Node) returns (panicked: bool)
      requires Fifo() && e != head && e !in entries
      modifies this, head, entries, e
      ensures !panicked && Fifo() && entries == old(entries) + [e] && entryCount == old(entryCount) + 1
    {
      if head.prev == null {
        if head.next != null {
          return true;
        }
        head.prev, head.next := e, e;
        e.next, e.prev := head, head;
      } else {
        var oldLast := head.prev;
        head.prev := e;
        e.next, e.prev := head, oldLast;
        oldLast.next := e;
      }
      entryCount := entryCount + 1;
      entries := entries + [e];
      Appended();
      return false;
    }

    method InsertHead(e: Node) returns (panicked: bool)
      requires Stack() && e != head && e !in entries
      modifies this, head, e
      ensures !panicked && Stack() && entries == [e] + old(entries) && entryCount == old(entryCount) + 1
    {
      if head.next == null {
        if head.prev != null {
          return true;
        }
        head.next := e;
        e.prev, e.next := head, head;
      } else {
        var oldFirst := head.next;
        head.next := e;
        e.prev, e.next := head, oldFirst;
      }
      entryCount := entryCount + 1;
      entries := [e] + entries;
      Pushed();
      return false;
    }

    // Unlinks the first entry of a queue, or any entry of a chain: from a chain every newer
    // entry goes with it.
    method Remove(e: Node, ghost k: nat)
      requires Stack() || (Fifo() && k == 0)
      requires k < |entries| && entries[k] == e
      modifies this`entries, head, entries
      ensures entries == old(entries)[k + 1..]
      ensures old(Fifo()) && k == 0 ==> Fifo()
      ensures old(Stack()) ==> Stack()
    {
      var prev, next := e.prev, e.next;
      if prev != null {
        prev.next := next;
      }
      if next != null {
        next.prev := prev;
      }
      entries := entries[k + 1..];
      if old(Stack()) {
        Cut(k);
      }
      if old(Fifo()) && k == 0 {
        FirstRemoved();
      }
    }

    method RemoveHead() returns (r: Node?)
      requires Fifo() && (entries != [] ==> entryCount > 0)
      modifies this, head, entries
      ensures r == null <==> old(entries) == []
      ensures r == null ==> entries == [] && entryCount == old(entryCount)
      ensures r != null ==> r == old(entries)[0] && entries == old(entries)[1..] && entryCount == old(entryCount) - 1
      ensures Fifo()
    {
      if head.next == null || head.next == head || entryCount == 0 {
        return null;
      }
      r := head.next;
      entryCount := entryCount - 1;
      Remove(r, 0);
    }

    // One turn of Drain, standing on the first entry.
    method DrainOne(entry: Node) returns (next: Node?)
      requires Stack() && entries != [] && entry == entries[0]
      modifies this`entries, head, entries
      ensures entries == old(entries)[1..] && Stack() && next == After(head, entries, 0)
    {
      next := entry.next;
      Remove(entry, 0);
    }

    // The walk that frees a whole chain (a process's pages or threads): every entry exactly
    // once, newest first, although each is unlinked while the walk stands on it.
    method Drain() returns (visited: seq<Node>)
      requires Stack()
      modifies this`entries, head, entries
      ensures visited == old(entries) && entries == [] && Stack()
    {
      visited := [];
      var entry := head.next;
      ghost var all, k := entries, 0;
      while entry != null && entry != head
        invariant 0 <= k <= |all| && entries == all[k..] && visited == all[..k]
        invariant Stack()
        invariant entry == null ==> entries == []
        invariant entry != null ==> entry == After(head, entries, 0)
        decreases |all| - k
      {
        assert entry == all[k];
        visited, k := visited + [entry], k + 1;
        entry := DrainOne(entry);
      }
    }
  }

  /**
    * The disk request queue over the list. Both this layer and the list count an entry, so
    * entryCount is twice the length. The ghost history says that requests complete in the
    * order they were submitted.
    */
  class DiskQueue {
    const list: List
    ghost var submitted: seq<int>
    ghost var completed: seq<int>

    ghost predicate Valid()
      reads this, list, list.head, list.entries
    {
      && list.Fifo()
      && list.entryCount == 2 * |list.entries|
      && submitted == completed + Items(list.entries)
    }

    constructor ()
      ensures Valid() && fresh(list) && fresh(list.head) && list.entries == []
    {
      list := new List();
      submitted, completed := [], [];
    }

    // Queues a request for buffer b, and says whether the disk must be started on it.
    method Submit(b: int) returns (start: bool, panicked: bool)
      requires Valid()
      modifies this, list, list.head, list.entries
      ensures Valid() && !panicked
      ensures submitted == old(submitted) + [b] && completed == old(completed)
      ensures list.entries[..|list.entries| - 1] == old(list.entries)
      ensures start <==> list.entries[0].item == b
    {
      var req := new Node(b);
      panicked := list.InsertTail(req);
      list.entryCount := list.entryCount + 1;
      submitted := submitted + [b];
      ItemsAppend(old(list.entries), [req]);
      start := list.head.next != null && list.head.next.item == b;
    }

    // The disk interrupt: completes the oldest request and names the next one to start.
    method Complete() returns (done: Node?, next: Node?, panicked: bool)
      requires Valid()
      modifies this, list, list.head, list.entries
      ensures Valid() && !panicked && submitted == old(submitted)
      ensures old(list.entries) == [] <==> done == null
      ensures done == null ==> list.entries == [] && next == null && completed == old(completed)
      ensures done != null ==> done == old(list.entries)[0] && list.entries == old(list.entries)[1..]
      ensures done != null ==> completed == old(completed) + [done.item]
      ensures list.entries != [] ==> next == list.entries[0]
      ensures list.entries == [] ==> next == null
    {
      done, next, panicked := null, null, false;
      if list.entryCount != 0 {
        done := list.RemoveHead();
        list.entryCount := list.entryCount - 1;
        if done == null {
          panicked := true;
        } else {
          FirstDone(completed, old(list.entries));
          completed := completed + [done.item];
          if list.entryCount != 0 {
            next := list.head.next;
          }
        }
      }
    }
  }

  ghost function Items(q: seq<Node>): seq<int> {
    seq(|q|, i requires 0 <= i < |q| => q[i].item)
  }

  lemma ItemsAppend(p: seq<Node>, q: seq<Node>)
    ensures Items(p + q) == Items(p) + Items(q)
  {}

  lemma FirstDone(done: seq<int>, q: seq<Node>)
    requires q != []
    ensures done + Items(q) == done + [q[0].item] + Items(q[1..])
  {}
}
