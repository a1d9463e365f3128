/**
 The circular list (cfix/cfix/list.h) under a sequence action (cfix/cfix/sequenceaction.c), and what
 the sequence does with its members.
 */
module SequenceList {

  // An action as a sequence sees it: a reference count
  class Action {
    var references: int

    constructor ()
      ensures references == 1
    {
      references := 1;
    }
  }

  // LIST_ENTRY and the SEQUENCE_ENTRY around it; `live` until it is freed
  class ListEntry {
    var flink: ListEntry
    var blink: ListEntry
    var action: Action?
    var live: bool

    // InitializeListHead
    constructor (action: Action?)
      ensures flink == this && blink == this && this.action == action && live
    {
      flink, blink := this, this;
      this.action := action;
      live := true;
    }
  }

  /* ---------------------------------------------------------------- rings */

  function Successor(i: nat, n: nat): nat
    requires i < n
  {
    if i + 1 == n then 0 else i + 1
  }

  ghost predicate Linked(nodes: seq<ListEntry>, i: nat)
    requires i < |nodes|
    reads nodes
  {
    var j := Successor(i, |nodes|);
    nodes[i].flink == nodes[j] && nodes[j].blink == nodes[i]
  }

  // No other position has the node at position `i`.
  ghost predicate Unique(nodes: seq<ListEntry>, i: nat)
    requires i < |nodes|
  {
    forall k :: 0 <= k < |nodes| && k != i ==> nodes[k] != nodes[i]
  }

  ghost predicate Distinct(nodes: seq<ListEntry>)
  {
    forall i :: 0 <= i < |nodes| ==> Unique(nodes, i)
  }

  // The nodes are linked in this order, forwards and backwards, the last one with the first.
  ghost predicate Ring(nodes: seq<ListEntry>)
    reads nodes
  {
    && nodes != [] && Distinct(nodes)
    && forall i :: 0 <= i < |nodes| ==> Linked(nodes, i)
  }

  // InsertTailList
  method InsertTailList(listHead: ListEntry, entry: ListEntry, ghost nodes: seq<ListEntry>, ghost tail: ListEntry)
    requires Ring(nodes) && nodes[0] == listHead && nodes[|nodes| - 1] == tail && entry !in nodes
    modifies listHead`blink, entry`flink, entry`blink, tail`flink
    ensures Ring(nodes + [entry])
  {
    ghost var n := |nodes|;
    assert Linked(nodes, n - 1) && Unique(nodes, 0) && Unique(nodes, n - 1);
    var oldBlink := listHead.blink;
    entry.flink := listHead;
    entry.blink := oldBlink;
    oldBlink.flink := entry;
    listHead.blink := entry;
    ghost var after := nodes + [entry];
    forall i | 0 <= i < n + 1
      ensures Linked(after, i)
    {
      if i < n - 1 {
        assert old(Linked(nodes, i));
      }
    }
    forall i | 0 <= i < n + 1
      ensures Unique(after, i)
    {
      assert i < n ==> Unique(nodes, i);
    }
  }

  function Without<T>(s: seq<T>, k: nat): seq<T>
    requires k < |s|
  {
    s[..k] + s[k + 1..]
  }

  // RemoveEntryList: the result says whether at most one other node is left.
  method RemoveEntryList(entry: ListEntry, ghost nodes: seq<ListEntry>, ghost k: nat,
                         ghost before: ListEntry, ghost behind: ListEntry)
    returns (last: bool)
    requires Ring(nodes) && 0 < k < |nodes| && nodes[k] == entry
    requires nodes[k - 1] == before && nodes[Successor(k, |nodes|)] == behind
    modifies before`flink, behind`blink
    ensures Ring(Without(nodes, k))
    ensures last <==> |nodes| == 2
  {
    ghost var n := |nodes|;
    assert Linked(nodes, k - 1) && Linked(nodes, k) && Unique(nodes, k - 1) && Unique(nodes, Successor(k, n));
    var oldFlink := entry.flink;
    var oldBlink := entry.blink;
    oldFlink.blink := oldBlink;
    oldBlink.flink := oldFlink;
    ghost var after := Without(nodes, k);
    forall i | 0 <= i < n - 1
      ensures Linked(after, i)
    {
      if i < k - 1 {
        assert old(Linked(nodes, i));
      } else if i >= k {
        assert old(Linked(nodes, i + 1));
      }
    }
    forall i | 0 <= i < n - 1
      ensures Unique(after, i)
    {
      assert Unique(nodes, if i < k then i else i + 1);
    }
    last := oldFlink == oldBlink;
  }

  /* ---------------------------------------------------------------- the sequence action */

  // What happens while a member runs: its result, and the actions that are added to the sequence
  datatype Step = Step(failed: bool, added: seq<Action>)

  // The number of members run if `i` of them have succeeded: up to and including the first that fails
  function Executed(steps: seq<Step>, i: nat): (k: nat)
    requires i <= |steps|
    ensures i <= k <= |steps|
    decreases |steps| - i
  {
    if i == |steps| then i else if steps[i].failed then i + 1 else Executed(steps, i + 1)
  }

  // The members before the last one run have succeeded, and if any is left that one has failed.
  lemma {:induction false} ExecutedUpToFailure(steps: seq<Step>, i: nat)
    requires i <= |steps|
    ensures forall l :: i <= l < Executed(steps, i) - 1 ==> !steps[l].failed
    ensures Executed(steps, i) < |steps| ==> Executed(steps, i) > i && steps[Executed(steps, i) - 1].failed
    decreases |steps| - i
  {
    if i < |steps| {
      ExecutedUpToFailure(steps, i + 1);
    }
  }

  // All actions added while the first `n` members run
  function Added(steps: seq<Step>, n: nat): seq<Action>
    requires n <= |steps|
  {
    if n == 0 then [] else Added(steps, n - 1) + steps[n - 1].added
  }

  // Following the forward links from `head` leads through the entries and back.
  ghost predicate Forward(head: ListEntry, entries: seq<ListEntry>)
    reads head, entries
  {
    && head.flink == NodeAt(head, entries, 0)
    && forall k :: 0 <= k < |entries| ==> entries[k].flink == NodeAt(head, entries, k + 1)
  }

  function NodeAt(head: ListEntry, entries: seq<ListEntry>, k: nat): ListEntry
    requires k <= |entries|
  {
    if k == |entries| then head else entries[k]
  }

  lemma RingForward(head: ListEntry, entries: seq<ListEntry>)
    requires Ring([head] + entries)
    ensures Forward(head, entries)
  {
    var nodes := [head] + entries;
    assert Linked(nodes, 0);
    forall k | 0 <= k < |entries|
      ensures entries[k].flink == NodeAt(head, entries, k + 1)
    {
      assert Linked(nodes, k + 1) && nodes[k + 1] == entries[k];
    }
  }

  lemma RingDistinct(head: ListEntry, entries: seq<ListEntry>)
    requires Distinct([head] + entries)
    ensures Distinct(entries) && head !in entries
  {
    var nodes := [head] + entries;
    assert forall k :: 0 <= k < |entries| ==> entries[k] == nodes[k + 1];
    assert Unique(nodes, 0);
    forall i | 0 <= i < |entries|
      ensures Unique(entries, i)
    {
      assert Unique(nodes, i + 1);
    }
  }

  ghost predicate Populated(entries: seq<ListEntry>)
    reads entries
  {
    forall i :: 0 <= i < |entries| ==> entries[i].live && entries[i].action != null
  }

  class SequenceAction {
    const head: ListEntry
    var count: nat
    ghost var entries: seq<ListEntry>
    ghost var nodes: set<ListEntry>

    ghost predicate Valid()
      reads this, nodes
    {
      && head in nodes && (forall i :: 0 <= i < |entries| ==> entries[i] in nodes)
      && count == |entries| && Ring([head] + entries) && Populated(entries)
    }

    // The members in order of insertion
    ghost function Members(): (m: seq<Action>)
      requires Valid()
      reads this, nodes
      ensures |m| == |entries|
    {
      seq(|entries|, i requires 0 <= i < |entries| && entries[i].action != null reads this, entries =>
                       entries[i].action as Action)
    }

    // CfixCreateSequenceAction
    constructor ()
      ensures Valid() && fresh(nodes) && Members() == []
    {
      head := new ListEntry(null);
      count := 0;
      entries := [];
      nodes := {head};
    }

    // CfixAddEntrySequenceAction
    method AddEntry(action: Action)
      requires Valid()
      modifies this, nodes, action
      ensures Valid() && Members() == old(Members()) + [action] && fresh(nodes - old(nodes))
      ensures action.references == old(action.references) + 1
    {
      var entry := new ListEntry(action);
      action.references := action.references + 1;
      ghost var ring := [head] + entries;
      InsertTailList(head, entry, ring, ring[|ring| - 1]);
      count := count + 1;
      entries := entries + [entry];
      nodes := nodes + {entry};
      assert [head] + entries == ring + [entry];
    }

    method AddAll(xs: seq<Action>)
      requires Valid()
      modifies this, nodes, xs
      ensures Valid() && Members() == old(Members()) + xs && fresh(nodes - old(nodes))
      ensures forall x :: x in xs ==> x.references == old(x.references) + multiset(xs)[x]
    {
      var i := 0;
      while i < |xs|
        invariant 0 <= i <= |xs| && Valid() && Members() == old(Members()) + xs[..i] && fresh(nodes - old(nodes))
        invariant forall x :: x in xs ==> x.references == old(x.references) + multiset(xs[..i])[x]
      {
        AddEntry(xs[i]);
        assert xs[..i + 1] == xs[..i] + [xs[i]];
        i := i + 1;
      }
      assert xs[..i] == xs;
    }

    // The part of CfixsRunSequenceAction under the lock: a snapshot of the members, each referenced
    method Collect(ghost pool: set<Action>) returns (snapshot: seq<Action>)
      requires Valid()
      modifies Members()
      ensures Valid() && snapshot == Members() == old(Members())
      ensures forall x :: x in pool ==> x.references == old(x.references) + multiset(snapshot)[x]
    {
      RingForward(head, entries);
      RingDistinct(head, entries);
      snapshot := CollectFrom(head, entries, Members());
    }

    // Since a point in time `added` was added to the then `members`; `before` has the counts of then.
    ghost predicate Grown(members: seq<Action>, added: seq<Action>, before: map<Action, int>)
      reads this, nodes, before.Keys
      requires Valid()
    {
      && Members() == members + added
      && forall x :: x in before ==> x.references == before[x] + multiset(added)[x]
    }

    // All actions added are among those in `pool`.
    static ghost predicate AllIn(steps: seq<Step>, pool: set<Action>)
    {
      forall k :: 0 <= k < |steps| ==> forall x :: x in steps[k].added ==> x in pool
    }

    // While a member runs, actions are added; nothing else happens to the action counts.
    method RunOne(steps: seq<Step>, k: nat, ghost members: seq<Action>, ghost before: map<Action, int>)
      returns (failed: bool)
      requires k < |steps| && AllIn(steps, before.Keys)
      requires Valid() && Grown(members, Added(steps, k), before)
      modifies this, nodes, before.Keys
      ensures failed == steps[k].failed
      ensures Valid() && Grown(members, Added(steps, k + 1), before) && fresh(nodes - old(nodes))
    {
      ghost var all, added := Added(steps, k), steps[k].added;
      AddAll(steps[k].added);
      assert members + all + added == members + (all + added);
      failed := steps[k].failed;
    }

    // The loop over the snapshot, outside the lock; `k` members are run.
    method RunSnapshot(steps: seq<Step>, ghost before: map<Action, int>) returns (failed: bool, k: nat)
      requires Valid() && Grown(Members(), [], before) && AllIn(steps, before.Keys)
      modifies this, nodes, before.Keys
      ensures k == Executed(steps, 0) && (failed <==> k > 0 && steps[k - 1].failed)
      ensures Valid() && Grown(old(Members()), Added(steps, k), before)
    {
      failed, k := false, 0;
      ghost var members := Members();
      while k < |steps|
        invariant 0 <= k <= |steps| && !failed && (k > 0 ==> !steps[k - 1].failed)
        invariant Executed(steps, k) == Executed(steps, 0)
        invariant Valid() && Grown(members, Added(steps, k), before) && fresh(nodes - old(nodes))
      {
        failed := RunOne(steps, k, members, before);
        k := k + 1;
        if failed {
          break;
        }
      }
    }

    // CfixsRunSequenceAction: runs the members that were there at the beginning, in order, up to the
    // first failure, whatever is added meanwhile.
    method Run(steps: seq<Step>, ghost pool: set<Action>) returns (failed: bool, ran: seq<Action>)
      requires Valid() && |steps| == count
      requires (forall x :: x in Members() ==> x in pool) && AllIn(steps, pool)
      modifies this, nodes, pool
      ensures Valid()
      ensures |ran| == Executed(steps, 0) && ran == old(Members())[..|ran|]
      ensures failed <==> ran != [] && steps[|ran| - 1].failed
      ensures Members() == old(Members()) + Added(steps, |ran|)
      ensures forall x :: x in pool ==> x.references == old(x.references) + multiset(Added(steps, |ran|))[x]
    {
      var snapshot := Collect(pool);
      failed, ran := RunAndRelease(snapshot, steps, map x | x in pool :: x.references);
    }

    // What CfixsRunSequenceAction does after leaving the lock; `before` has the reference counts.
    method RunAndRelease(snapshot: seq<Action>, steps: seq<Step>, ghost before: map<Action, int>)
      returns (failed: bool, ran: seq<Action>)
      requires Valid() && |steps| == |snapshot| && Grown(Members(), [], before)
      requires (forall x :: x in snapshot ==> x in before) && AllIn(steps, before.Keys)
      modifies this, nodes, before.Keys
      ensures |ran| == Executed(steps, 0) && ran == snapshot[..|ran|]
      ensures Valid() && Members() == old(Members()) + Added(steps, |ran|)
      ensures failed <==> ran != [] && steps[|ran| - 1].failed
      ensures forall x :: x in before ==>
                x.references == before[x] + multiset(Added(steps, |ran|))[x] - multiset(snapshot)[x]
    {
      var k;
      failed, k := RunSnapshot(steps, before);
      ran := snapshot[..k];
      Release(snapshot, before.Keys);
    }

    // The references taken by Collect are dropped.
    method Release(snapshot: seq<Action>, ghost pool: set<Action>)
      requires Valid()
      modifies snapshot
      ensures Valid() && Members() == old(Members())
      ensures forall x :: x in pool ==> x.references == old(x.references) - multiset(snapshot)[x]
    {
      var i := 0;
      while i < |snapshot|
        invariant 0 <= i <= |snapshot|
        invariant forall x :: x in pool ==> x.references == old(x.references) - multiset(snapshot[..i])[x]
      {
        snapshot[i].references := snapshot[i].references - 1;
        assert snapshot[..i + 1] == snapshot[..i] + [snapshot[i]];
        i := i + 1;
      }
      assert snapshot[..i] == snapshot;
    }

    // CfixsDeleteSequenceAction: every entry is freed, and none is used after that.
    method Delete()
      requires Valid()
      modifies entries, Members()
      ensures forall i :: 0 <= i < |entries| ==> !entries[i].live
      ensures forall x :: x in old(Members()) ==> x.references == old(x.references) - multiset(old(Members()))[x]
    {
      RingForward(head, entries);
      RingDistinct(head, entries);
      FreeAll(head, entries, Members());
    }
  }

  ghost predicate Holds(entries: seq<ListEntry>, members: seq<Action>)
    reads entries
  {
    |members| == |entries| && forall k :: 0 <= k < |entries| ==> entries[k].action == members[k]
  }

  method TakeReference(action: Action)
    modifies action`references
    ensures action.references == old(action.references) + 1
  {
    action.references := action.references + 1;
  }

  // The loop that fills ActionsArray
  method CollectFrom(head: ListEntry, ghost entries: seq<ListEntry>, ghost members: seq<Action>)
    returns (snapshot: seq<Action>)
    requires Forward(head, entries) && head !in entries && Holds(entries, members)
    modifies members
    ensures snapshot == members
    ensures forall x :: x in members ==> x.references == old(x.references) + multiset(members)[x]
  {
    snapshot := [];
    var entry := head.flink;
    ghost var i: nat := 0;
    while entry != head
      invariant 0 <= i <= |entries| && snapshot == members[..i] && entry == NodeAt(head, entries, i)
      invariant forall x :: x in members ==> x.references == old(x.references) + multiset(snapshot)[x]
      decreases |entries| - i
    {
      var action := entry.action;
      assert action == members[i] && members[i] in members;
      TakeReference(action);
      snapshot := snapshot + [action];
      entry := entry.flink;
      i := i + 1;
    }
    assert members[..i] == members;
  }

  method FreeEntry(entry: ListEntry, ghost action: Action)
    requires entry.live && entry.action == action
    modifies entry`live, action`references
    ensures !entry.live && action.references == old(action.references) - 1
  {
    entry.action.references := entry.action.references - 1;
    entry.live := false;
  }

  // The loop of CfixsDeleteSequenceAction, which reads the link of an entry before it frees it
  method FreeAll(head: ListEntry, ghost entries: seq<ListEntry>, ghost members: seq<Action>)
    requires Forward(head, entries) && head !in entries && Distinct(entries) && Holds(entries, members)
    requires forall k :: 0 <= k < |entries| ==> entries[k].live
    modifies entries, members
    ensures forall k :: 0 <= k < |entries| ==> !entries[k].live
    ensures forall x :: x in members ==> x.references == old(x.references) - multiset(members)[x]
  {
    var entry := head.flink;
    ghost var i: nat := 0;
    while entry != head
      invariant 0 <= i <= |entries| && entry == NodeAt(head, entries, i)
      invariant forall k :: 0 <= k < |entries| ==> entries[k].flink == NodeAt(head, entries, k + 1)
      invariant forall k :: 0 <= k < |entries| ==> entries[k].action == members[k]
      invariant forall k :: 0 <= k < |entries| ==> (entries[k].live <==> k >= i)
      invariant forall x :: x in members ==> x.references == old(x.references) - multiset(members[..i])[x]
      decreases |entries| - i
    {
      assert entry.live && members[i] in members && Unique(entries, i);
      var nextEntry := entry.flink;
      FreeEntry(entry, members[i]);
      assert members[..i + 1] == members[..i] + [members[i]];
      entry := nextEntry;
      i := i + 1;
    }
    assert members[..i] == members;
  }
}
