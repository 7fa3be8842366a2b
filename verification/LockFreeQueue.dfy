/** The queue as an object used by one thread at a time. Each method is a run of the protocol:
    `machine` is the protocol state that `cells`, `head` and `tail` show. */
module LockFreeQueue {
  import opened Wrappers
  import opened QueueProtocol
  import opened QueueRuns

  datatype Cell<T> = Cell(next: Option<Addr>, value: Option<T>)

  // The program's part of a node.
  ghost function View<T>(heap: map<Addr, Node<T>>): map<Addr, Cell<T>> {
    map a | a in heap :: Cell(heap[a].next, heap[a].value)
  }

  ghost predicate Resting<T(!new)>(s: State<T>) {
    Reachable(s) && s.producers == map[] && s.consumer.Outside?
  }

  lemma ThreeSteps<T(!new)>(s: State<T>, a: Action<T>, b: Action<T>, c: Action<T>)
    requires Enabled(s, a) && Enabled(Apply(s, a), b) && Enabled(Apply(Apply(s, a), b), c)
    ensures Leads(s, [a, b, c], Apply(Apply(Apply(s, a), b), c))
  {
    hide Enabled, Apply;
    var s1 := Apply(s, a);
    var s2 := Apply(s1, b);
    var states := [s, s1, s2, Apply(s2, c)];
    assert forall i | 0 <= i < 3 :: Enabled(states[i], [a, b, c][i]) && states[i + 1] == Apply(states[i], [a, b, c][i]);
    assert Path(states, [a, b, c]);
  }

  lemma ReachableShape<T(!new)>(s: State<T>)
    requires Reachable(s)
    ensures s.tail in s.heap && s.order != [] && |s.linker| == |s.order| - 1
  {
    ReachableKeepsInv(s);
  }

  // What the three steps of an uninterrupted push do.
  lemma PushEffect<T(!new)>(s: State<T>, value: T, addr: Addr)
    requires s.producers == map[] && addr !in s.heap && s.tail in s.heap && s.order != [] && |s.linker| == |s.order| - 1
    ensures Enabled(s, NewNode(0, value, addr))
    ensures var s1 := Apply(s, NewNode(0, value, addr));
      Enabled(s1, ExchangeTail(0)) &&
      var s2 := Apply(s1, ExchangeTail(0));
      Enabled(s2, LinkOldTail(0)) &&
      var t := Apply(s2, LinkOldTail(0));
      && t.producers == map[] && t.consumer == s.consumer && t.head == s.head && t.tail == addr
      && t.pushed == s.pushed + [value] && t.delivered == s.delivered
      && View(t.heap) == View(s.heap)[addr := Cell(None, Some(value))][s.tail := Cell(Some(addr), s.heap[s.tail].value)]
  {
  }

  // The three steps of an uninterrupted push.
  lemma PushRun<T(!new)>(s: State<T>, value: T, addr: Addr) returns (t: State<T>)
    requires Resting(s) && addr !in s.heap
    ensures Resting(t) && Leads(s, [NewNode(0, value, addr), ExchangeTail(0), LinkOldTail(0)], t)
    ensures t.head == s.head && t.tail == addr && s.tail in s.heap
    ensures t.pushed == s.pushed + [value] && t.delivered == s.delivered
    ensures View(t.heap) ==
      View(s.heap)[addr := Cell(None, Some(value))][s.tail := Cell(Some(addr), s.heap[s.tail].value)]
  {
    hide View, Inv, Reachable, Leads, Apply, Enabled;
    assert s.tail in s.heap && s.order != [] && |s.linker| == |s.order| - 1 by { ReachableShape(s); }
    PushEffect(s, value, addr);
    var s1 := Apply(s, NewNode(0, value, addr));
    assert Reachable(s1) by { ReachableStep(s, NewNode(0, value, addr)); }
    var s2 := Apply(s1, ExchangeTail(0));
    assert Reachable(s2) by { ReachableStep(s1, ExchangeTail(0)); }
    t := Apply(s2, LinkOldTail(0));
    assert Reachable(t) by { ReachableStep(s2, LinkOldTail(0)); }
    ThreeSteps(s, NewNode(0, value, addr), ExchangeTail(0), LinkOldTail(0));
  }

  // The reads of one attempt of try_pop.
  lemma Attempt<T(!new)>(s: State<T>)
    requires Reachable(s) && s.producers == map[] && s.consumer == Loaded(s.head)
    ensures s.head in s.heap && s.delivered <= s.pushed
    ensures var t := Apply(s, LoadNext);
      Reachable(t) && t == s.(consumer := t.consumer) &&
      if s.heap[s.head].next.None? then t.consumer.Outside? && s.delivered == s.pushed
      else t.consumer == Chained(s.head, s.heap[s.head].next.value) && s.delivered != s.pushed
  {
    ReachableStep(s, LoadNext);
    ReachableKeepsInv(s);
    FalseMeansDrainedWhenQuiet(s);
  }

  lemma NextHoldsOldest<T(!new)>(s: State<T>)
    requires Reachable(s) && s.consumer.Chained? && s.head == s.consumer.oldHead
    ensures var n := s.consumer.next;
      && s.head in s.heap && n in s.heap && n != s.head && s.heap[n].value.Some?
      && |s.delivered| < |s.pushed| && s.heap[n].value.value == s.pushed[|s.delivered|]
      && s.heap[s.head].serial < |s.lives|
  {
    ReachableKeepsInv(s);
  }

  // What the compare-exchange, the move of the value and the delete do.
  lemma TakeEffect<T(!new)>(s: State<T>)
    requires s.consumer.Chained? && s.head == s.consumer.oldHead
    requires var n := s.consumer.next;
      && s.head in s.heap && n in s.heap && n != s.head && s.heap[n].value.Some? && s.heap[s.head].serial < |s.lives|
    ensures Enabled(s, CasHead(true))
    ensures var n, s1 := s.consumer.next, Apply(s, CasHead(true));
      Enabled(s1, MoveValue) &&
      var s2 := Apply(s1, MoveValue);
      Enabled(s2, DeleteOldHead) &&
      var t := Apply(s2, DeleteOldHead);
      && t.producers == s.producers && t.consumer.Outside? && t.head == n && t.tail == s.tail && t.pushed == s.pushed
      && t.delivered == s.delivered + [s.heap[n].value.value]
      && View(t.heap) == View(s.heap)[n := Cell(s.heap[n].next, None)] - {s.head}
  {
  }

  // The compare-exchange, the move of the value and the delete.
  lemma TakeRun<T(!new)>(s: State<T>) returns (t: State<T>)
    requires Reachable(s) && s.producers == map[] && s.consumer.Chained? && s.head == s.consumer.oldHead
    ensures Resting(t) && t.head == s.consumer.next && t.tail == s.tail && t.pushed == s.pushed
    ensures var n := s.consumer.next;
      && s.head in s.heap && n in s.heap && n != s.head && s.heap[n].value.Some?
      && |s.delivered| < |s.pushed| && s.heap[n].value.value == s.pushed[|s.delivered|]
      && t.delivered == s.delivered + [s.heap[n].value.value]
      && View(t.heap) == View(s.heap)[n := Cell(s.heap[n].next, None)] - {s.head}
  {
    hide View, Reachable, Apply, Enabled, Inv;
    var n := s.consumer.next;
    assert s.head in s.heap && n in s.heap && n != s.head && s.heap[n].value.Some?
      && |s.delivered| < |s.pushed| && s.heap[n].value.value == s.pushed[|s.delivered|]
      && s.heap[s.head].serial < |s.lives| by { NextHoldsOldest(s); }
    TakeEffect(s);
    var s1 := Apply(s, CasHead(true));
    assert Reachable(s1) by { ReachableStep(s, CasHead(true)); }
    var s2 := Apply(s1, MoveValue);
    assert Reachable(s2) by { ReachableStep(s1, MoveValue); }
    t := Apply(s2, DeleteOldHead);
    assert Reachable(t) by { ReachableStep(s2, DeleteOldHead); }
  }

  lemma DestroyedOnce<T(!new)>(s: State<T>)
    requires Resting(s)
    ensures s.first < |s.order|
    ensures var end := Walk(s.heap, Some(s.head), s.lives, |s.order| - s.first);
      && end.Some? && end.value.0 == map[] && |end.value.1| == |s.lives|
      && forall k :: 0 <= k < |s.lives| ==> end.value.1[k].deletes == 1
  {
    var states: seq<State<T>>, acts: seq<Action<T>> :| IsRun(states, acts) && states[|acts|] == s;
    DestructionDeletesEachNodeOnce(states, acts);
  }

  lemma ViewRemove<T>(heap: map<Addr, Node<T>>, a: Addr)
    requires a in heap
    ensures View(heap - {a}) == View(heap) - {a}
  {
  }

  class LockFreeQueue<T(!new)> {
    var cells: map<Addr, Cell<T>>
    var head: Option<Addr>    // None once destroyed
    var tail: Addr
    ghost var machine: State<T>

    ghost predicate Shows(s: State<T>)
      reads this
    {
      head == Some(s.head) && tail == s.tail && cells == View(s.heap)
    }

    ghost predicate Valid()
      reads this
    {
      Resting(machine) && Shows(machine)
    }

    constructor (dummy: Addr)
      ensures Valid() && machine == Init(dummy)
    {
      cells := map[dummy := Cell(None, None)];
      head := Some(dummy);
      tail := dummy;
      machine := Init(dummy);
      new;
      assert IsRun([machine], []);
    }

    method Push(value: T, addr: Addr)
      requires Valid() && addr !in cells
      modifies this
      ensures Valid()
      ensures Leads(old(machine), [NewNode(0, value, addr), ExchangeTail(0), LinkOldTail(0)], machine)
      ensures machine.pushed == old(machine.pushed) + [value] && machine.delivered == old(machine.delivered)
    {
      ghost var after := PushRun(machine, value, addr);
      cells := cells[addr := Cell(None, Some(value))];
      var oldTail := tail;
      tail := addr;
      cells := cells[oldTail := cells[oldTail].(next := Some(addr))];
      machine := after;
    }

    /** `spurious` is how often the weak compare-exchange fails although nobody interferes. */
    method TryPop(spurious: nat) returns (out: Option<T>)
      requires Valid()
      modifies this
      ensures Valid() && machine.pushed == old(machine.pushed)
      ensures match out
              case None => machine.delivered == old(machine.delivered) == machine.pushed
              case Some(v) =>
                && |old(machine.delivered)| < |machine.pushed| && v == machine.pushed[|old(machine.delivered)|]
                && machine.delivered == old(machine.delivered) + [v]
    {
      var failures := 0;
      ReachableStep(machine, LoadHead);
      ghost var s := Apply(machine, LoadHead);
      while true
        invariant failures <= spurious && Reachable(s) && s.producers == map[] && Shows(s)
        invariant s.consumer == Loaded(s.head)
        invariant s.pushed == old(machine.pushed) && s.delivered == old(machine.delivered)
        decreases spurious - failures
      {
        Attempt(s);
        var oldHead := head.value;
        var next := cells[oldHead].next;
        s := Apply(s, LoadNext);
        if next.None? {
          machine := s;
          return None;
        }
        if failures < spurious {
          failures := failures + 1;
          ReachableStep(s, CasHead(false));
          s := Apply(s, CasHead(false));
        } else {
          ghost var after := TakeRun(s);
          head := next;
          out := cells[next.value].value;
          cells := cells[next.value := cells[next.value].(value := None)];
          cells := cells - {oldHead};
          machine := after;
          return;
        }
      }
    }

    /** The destructor, with no call in progress: it stops, frees every cell, and every node ever
        allocated has been deleted exactly once. */
    method Destroy() returns (ghost lives: seq<Life>)
      requires Valid()
      modifies this
      ensures head == None && cells == map[]
      ensures |lives| == |old(machine.lives)| && forall k :: 0 <= k < |lives| ==> lives[k].deletes == 1
    {
      DestroyedOnce(machine);
      ghost var heap, left := machine.heap, |machine.order| - machine.first;
      ghost var end := Walk(heap, head, machine.lives, left);
      lives := machine.lives;
      while head.Some?
        invariant left >= 0 && Walk(heap, head, lives, left) == end && cells == View(heap)
        decreases left
      {
        var oldHead := head.value;
        ViewRemove(heap, oldHead);
        head := cells[oldHead].next;
        lives := Delete(lives, heap[oldHead].serial);
        heap := heap - {oldHead};
        cells := cells - {oldHead};
        left := left - 1;
      }
    }
  }
}
