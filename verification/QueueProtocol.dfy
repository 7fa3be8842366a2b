/** The exchange-then-link queue as a step system.

    Any number of producers, each at its own program counter, run against one consumer.
    An address freed by the consumer may be handed out again by the allocator.
    A step that dereferences, or deletes, an address that is not allocated sets `fault`. */
module QueueProtocol {
  import opened Wrappers

  type Addr = nat
  type Tid = nat

  // History: who is responsible for an allocated node.
  datatype Role = Private(p: Tid) | InChain(index: nat) | Retired

  // `serial` numbers the allocations, so that two nodes at one address stay distinct.
  datatype Node<T> = Node(next: Option<Addr>, value: Option<T>, serial: nat, role: Role)

  // A producer absent from the map is outside `push`. `index` is the history of `oldTail`.
  datatype Producer = Holding(node: Addr) | Exchanged(node: Addr, oldTail: Addr, index: nat)

  datatype Consumer =
    | Outside
    | Loaded(oldHead: Addr)
    | Chained(oldHead: Addr, next: Addr)
    | Swung(oldHead: Addr, next: Addr)
    | Moved(oldHead: Addr)

  // One entry per allocation: where it was made and how often it was deleted.
  datatype Life = Life(addr: Addr, deletes: nat)

  // The first five fields are the program's; no step reads the history to decide what to do.
  datatype State<T> = State(
    heap: map<Addr, Node<T>>,
    head: Addr,
    tail: Addr,
    producers: map<Tid, Producer>,
    consumer: Consumer,
    order: seq<Addr>,           // all nodes ever put on the chain, in tail-exchange order
    linker: seq<Option<Tid>>,   // who still has to link order[i] to order[i + 1]
    first: nat,                 // order[first] is the node `head` points at
    pushed: seq<T>,             // values in tail-exchange order
    delivered: seq<T>,          // values handed to the callers of try_pop
    lives: seq<Life>,
    fault: bool)

  datatype Action<T> =
    | NewNode(p: Tid, value: T, addr: Addr)
    | ExchangeTail(p: Tid)
    | LinkOldTail(p: Tid)
    | LoadHead
    | LoadNext
    | CasHead(succeeds: bool)
    | MoveValue
    | DeleteOldHead

  ghost function Init<T>(dummy: Addr): State<T> {
    State(map[dummy := Node(None, None, 0, InChain(0))], dummy, dummy, map[], Outside,
          [dummy], [], 0, [], [], [Life(dummy, 0)], false)
  }

  ghost predicate Enabled<T>(s: State<T>, a: Action<T>) {
    match a
    case NewNode(p, _, addr) => p !in s.producers && addr !in s.heap
    case ExchangeTail(p) => p in s.producers && s.producers[p].Holding?
    case LinkOldTail(p) => p in s.producers && s.producers[p].Exchanged?
    case LoadHead => s.consumer.Outside?
    case LoadNext => s.consumer.Loaded?
    case CasHead(succeeds) => s.consumer.Chained? && (succeeds ==> s.head == s.consumer.oldHead)
    case MoveValue => s.consumer.Swung?
    case DeleteOldHead => s.consumer.Moved?
  }

  ghost function Apply<T>(s: State<T>, a: Action<T>): State<T>
    requires Enabled(s, a)
  {
    match a
    case NewNode(p, v, addr) =>
      s.(heap := s.heap[addr := Node(None, Some(v), |s.lives|, Private(p))],
         producers := s.producers[p := Holding(addr)],
         lives := s.lives + [Life(addr, 0)])
    case ExchangeTail(p) =>
      var n := s.producers[p].node;
      if n !in s.heap || s.heap[n].value.None? || s.order == [] then s.(fault := true) else
      s.(tail := n,
         producers := s.producers[p := Exchanged(n, s.tail, |s.order| - 1)],
         heap := s.heap[n := s.heap[n].(role := InChain(|s.order|))],
         order := s.order + [n],
         linker := s.linker + [Some(p)],
         pushed := s.pushed + [s.heap[n].value.value])
    case LinkOldTail(p) =>
      var Exchanged(n, o, i) := s.producers[p];
      if o !in s.heap || i >= |s.linker| then s.(fault := true) else
      s.(heap := s.heap[o := s.heap[o].(next := Some(n))],
         linker := s.linker[i := None],
         producers := s.producers - {p})
    case LoadHead => s.(consumer := Loaded(s.head))
    case LoadNext =>
      var h := s.consumer.oldHead;
      if h !in s.heap then s.(fault := true) else
      s.(consumer := if s.heap[h].next.None? then Outside else Chained(h, s.heap[h].next.value))
    case CasHead(succeeds) =>
      var h := s.consumer.oldHead;
      if !succeeds then s.(consumer := Loaded(s.head)) else
      s.(head := s.consumer.next,
         consumer := Swung(h, s.consumer.next),
         heap := if h in s.heap then s.heap[h := s.heap[h].(role := Retired)] else s.heap,
         first := s.first + 1)
    case MoveValue =>
      var n := s.consumer.next;
      if n !in s.heap || s.heap[n].value.None? then s.(fault := true) else
      s.(heap := s.heap[n := s.heap[n].(value := None)],
         delivered := s.delivered + [s.heap[n].value.value],
         consumer := Moved(s.consumer.oldHead))
    case DeleteOldHead =>
      var h := s.consumer.oldHead;
      if h !in s.heap || s.heap[h].serial >= |s.lives| then s.(fault := true) else
      s.(heap := s.heap - {h},
         lives := Delete(s.lives, s.heap[h].serial),
         consumer := Outside)
  }

  function Delete(lives: seq<Life>, serial: nat): seq<Life>
    requires serial < |lives|
  {
    lives[serial := lives[serial].(deletes := lives[serial].deletes + 1)]
  }

  // ---------------------------------------------------------------- invariant

  // No leak: each allocated node is a producer's, on the chain, or about to be deleted.
  ghost predicate Accounted<T>(s: State<T>) {
    forall a :: a in s.heap ==>
      match s.heap[a].role
      case Private(p) => p in s.producers && s.producers[p] == Holding(a)
      case InChain(i) => s.first <= i < |s.order| && s.order[i] == a
      case Retired => (s.consumer.Swung? || s.consumer.Moved?) && s.consumer.oldHead == a
  }

  ghost predicate ChainOk<T>(s: State<T>) {
    && s.first < |s.order| && |s.linker| == |s.order| - 1
    && s.order[s.first] == s.head && s.order[|s.order| - 1] == s.tail
    && (forall i :: s.first <= i < |s.order| ==> s.order[i] in s.heap && s.heap[s.order[i]].role == InChain(i))
  }

  // The chain is linked except where an exchanged push has not stored its link yet.
  ghost predicate LinkOk<T>(heap: map<Addr, Node<T>>, producers: map<Tid, Producer>, o: Addr, n: Addr,
                            linker: Option<Tid>, i: nat)
    requires o in heap
  {
    match linker
    case None => heap[o].next == Some(n)
    case Some(p) => heap[o].next == None && p in producers && producers[p] == Exchanged(n, o, i)
  }

  ghost predicate LinksOk<T>(s: State<T>)
    requires ChainOk(s)
  {
    && s.heap[s.tail].next == None
    && (forall i {:trigger s.linker[i]} :: s.first <= i < |s.linker| ==>
          LinkOk(s.heap, s.producers, s.order[i], s.order[i + 1], s.linker[i], i))
  }

  ghost predicate ProducerOk<T>(s: State<T>, p: Tid, at: Producer)
    requires ChainOk(s)
  {
    match at
    case Holding(n) =>
      n in s.heap && s.heap[n].role == Private(p) && s.heap[n].next == None && s.heap[n].value.Some?
    case Exchanged(n, o, i) =>
      s.first <= i < |s.linker| && s.linker[i] == Some(p) && s.order[i] == o && s.order[i + 1] == n
  }

  ghost predicate ProducersOk<T>(s: State<T>)
    requires ChainOk(s)
  {
    forall p {:trigger s.producers[p]} :: p in s.producers ==> ProducerOk(s, p, s.producers[p])
  }

  ghost predicate ConsumerOk<T>(s: State<T>)
    requires ChainOk(s)
  {
    match s.consumer
    case Outside => true
    case Loaded(h) => h == s.head
    case Chained(h, n) => h == s.head && s.first < |s.linker| && s.linker[s.first] == None && n == s.order[s.first + 1]
    case Swung(h, n) => n == s.head && s.first >= 1 && h in s.heap && s.heap[h].role == Retired
    case Moved(h) => s.first >= 1 && h in s.heap && s.heap[h].role == Retired
  }

  // How many values have left the queue: the head node's own value is still due after the CAS.
  ghost function Taken<T>(s: State<T>): int {
    s.first - (if s.consumer.Swung? then 1 else 0)
  }

  ghost predicate ValuesOk<T>(s: State<T>)
    requires ChainOk(s)
  {
    && |s.pushed| == |s.order| - 1
    && 0 <= Taken(s) && s.delivered == s.pushed[..Taken(s)]
    && (forall i :: Taken(s) < i < |s.order| ==> s.heap[s.order[i]].value == Some(s.pushed[i - 1]))
  }

  ghost predicate LivesOk<T>(heap: map<Addr, Node<T>>, lives: seq<Life>) {
    && (forall a :: a in heap ==> heap[a].serial < |lives| && lives[heap[a].serial] == Life(a, 0))
    && (forall k :: 0 <= k < |lives| ==>
          if lives[k].deletes == 0 then lives[k].addr in heap && heap[lives[k].addr].serial == k
          else lives[k].deletes == 1)
  }

  ghost predicate Shape<T>(s: State<T>) {
    !s.fault && Accounted(s) && ChainOk(s) && LinksOk(s) && ProducersOk(s) && ConsumerOk(s)
  }

  ghost predicate Inv<T>(s: State<T>) {
    Shape(s) && ValuesOk(s) && LivesOk(s.heap, s.lives)
  }

  lemma InitInv<T>(dummy: Addr)
    ensures Inv(Init<T>(dummy))
  {
  }

  // ---------------------------------------------------------------- one lemma per step

  lemma NewNodeKeepsChain<T>(s: State<T>, a: Action<T>)
    requires Shape(s) && Enabled(s, a) && a.NewNode?
    ensures var t := Apply(s, a); ChainOk(t) && Accounted(t) && LinksOk(t) && !t.fault
  {
  }

  lemma NewNodeKeepsThreads<T>(s: State<T>, a: Action<T>)
    requires Shape(s) && Enabled(s, a) && a.NewNode? && ChainOk(Apply(s, a))
    ensures var t := Apply(s, a); ProducersOk(t) && ConsumerOk(t)
  {
  }

  lemma ExchangeKeepsChain<T>(s: State<T>, a: Action<T>)
    requires Shape(s) && Enabled(s, a) && a.ExchangeTail?
    ensures var t := Apply(s, a); ChainOk(t) && Accounted(t) && !t.fault
  {
  }

  lemma ExchangeKeepsLinks<T>(s: State<T>, a: Action<T>)
    requires ChainOk(s) && LinksOk(s) && ProducersOk(s) && Enabled(s, a) && a.ExchangeTail? && ChainOk(Apply(s, a))
    ensures LinksOk(Apply(s, a))
  {
    var t := Apply(s, a);
    assert ProducerOk(s, a.p, s.producers[a.p]);
    forall i | t.first <= i < |t.linker|
      ensures LinkOk(t.heap, t.producers, t.order[i], t.order[i + 1], t.linker[i], i)
    {
      if i < |s.linker| { assert LinkOk(s.heap, s.producers, s.order[i], s.order[i + 1], s.linker[i], i); }
    }
  }

  lemma ExchangeKeepsProducers<T>(s: State<T>, a: Action<T>)
    requires ChainOk(s) && ProducersOk(s) && Enabled(s, a) && a.ExchangeTail? && ChainOk(Apply(s, a))
    ensures ProducersOk(Apply(s, a))
  {
    hide LinksOk, ConsumerOk;
    var t := Apply(s, a);
    forall p | p in t.producers
      ensures ProducerOk(t, p, t.producers[p])
    {
      assert ProducerOk(s, p, s.producers[p]);
    }
  }

  lemma ExchangeKeepsConsumer<T>(s: State<T>, a: Action<T>)
    requires ChainOk(s) && ProducersOk(s) && ConsumerOk(s) && Enabled(s, a) && a.ExchangeTail? && ChainOk(Apply(s, a))
    ensures ConsumerOk(Apply(s, a))
  {
  }

  lemma LinkKeepsChain<T>(s: State<T>, a: Action<T>)
    requires Shape(s) && Enabled(s, a) && a.LinkOldTail?
    ensures var t := Apply(s, a); ChainOk(t) && Accounted(t) && !t.fault
  {
  }

  lemma LinkKeepsLinks<T>(s: State<T>, a: Action<T>)
    requires ChainOk(s) && LinksOk(s) && ProducersOk(s) && Enabled(s, a) && a.LinkOldTail? && ChainOk(Apply(s, a))
    ensures LinksOk(Apply(s, a))
  {
    var t := Apply(s, a);
    assert ProducerOk(s, a.p, s.producers[a.p]);
    forall i | t.first <= i < |t.linker|
      ensures LinkOk(t.heap, t.producers, t.order[i], t.order[i + 1], t.linker[i], i)
    {
      assert LinkOk(s.heap, s.producers, s.order[i], s.order[i + 1], s.linker[i], i);
    }
  }

  lemma LinkKeepsProducers<T>(s: State<T>, a: Action<T>)
    requires ChainOk(s) && ProducersOk(s) && Enabled(s, a) && a.LinkOldTail? && ChainOk(Apply(s, a))
    ensures ProducersOk(Apply(s, a))
  {
    hide LinksOk, ConsumerOk;
    var t := Apply(s, a);
    forall p | p in t.producers
      ensures ProducerOk(t, p, t.producers[p])
    {
      assert ProducerOk(s, p, s.producers[p]);
    }
  }

  lemma LinkKeepsConsumer<T>(s: State<T>, a: Action<T>)
    requires ChainOk(s) && ProducersOk(s) && ConsumerOk(s) && Enabled(s, a) && a.LinkOldTail? && ChainOk(Apply(s, a))
    ensures ConsumerOk(Apply(s, a))
  {
  }

  lemma CasKeepsChain<T>(s: State<T>, a: Action<T>)
    requires Shape(s) && Enabled(s, a) && a.CasHead?
    ensures var t := Apply(s, a); ChainOk(t) && Accounted(t) && ConsumerOk(t) && !t.fault
  {
  }

  lemma CasKeepsLinks<T>(s: State<T>, a: Action<T>)
    requires ChainOk(s) && LinksOk(s) && ProducersOk(s) && ConsumerOk(s)
    requires Enabled(s, a) && a.CasHead? && ChainOk(Apply(s, a))
    ensures LinksOk(Apply(s, a)) && ProducersOk(Apply(s, a))
  {
    var t := Apply(s, a);
    forall i | t.first <= i < |t.linker|
      ensures LinkOk(t.heap, t.producers, t.order[i], t.order[i + 1], t.linker[i], i)
    {
      assert LinkOk(s.heap, s.producers, s.order[i], s.order[i + 1], s.linker[i], i);
      assert s.heap[s.order[i]].role == InChain(i);
    }
    forall p | p in t.producers
      ensures ProducerOk(t, p, t.producers[p])
    {
      assert ProducerOk(s, p, s.producers[p]);
    }
  }

  lemma ReadKeepsShape<T>(s: State<T>, a: Action<T>)
    requires Shape(s) && Enabled(s, a) && (a.LoadHead? || a.LoadNext?)
    ensures Shape(Apply(s, a))
  {
  }

  // Moving the value out writes to the head node only.
  lemma MoveState<T>(s: State<T>, a: Action<T>)
    requires ChainOk(s) && ConsumerOk(s) && ValuesOk(s) && Enabled(s, a) && a.MoveValue?
    ensures 0 <= Taken(s) < |s.pushed|
    ensures Apply(s, a) == s.(heap := s.heap[s.head := s.heap[s.head].(value := None)],
                              delivered := s.delivered + [s.pushed[Taken(s)]], consumer := Moved(s.consumer.oldHead))
  {
    assert s.heap[s.order[s.first]].value == Some(s.pushed[s.first - 1]);
  }

  lemma MoveKeepsChain<T>(s: State<T>, t: State<T>)
    requires Accounted(s) && ChainOk(s) && ConsumerOk(s) && s.consumer.Swung?
    requires t == s.(heap := s.heap[s.head := s.heap[s.head].(value := None)], delivered := t.delivered,
                     consumer := Moved(s.consumer.oldHead))
    ensures Accounted(t) && ChainOk(t) && ConsumerOk(t)
  {
  }

  lemma MoveKeepsLinks<T>(s: State<T>, t: State<T>)
    requires ChainOk(s) && LinksOk(s) && ProducersOk(s) && ChainOk(t)
    requires t ==
      s.(heap := s.heap[s.head := s.heap[s.head].(value := None)], delivered := t.delivered, consumer := t.consumer)
    ensures LinksOk(t) && ProducersOk(t)
  {
    forall i | t.first <= i < |t.linker|
      ensures LinkOk(t.heap, t.producers, t.order[i], t.order[i + 1], t.linker[i], i)
    {
      assert LinkOk(s.heap, s.producers, s.order[i], s.order[i + 1], s.linker[i], i);
    }
    forall p | p in t.producers
      ensures ProducerOk(t, p, t.producers[p])
    {
      assert ProducerOk(s, p, s.producers[p]);
    }
  }

  lemma MoveKeepsShape<T>(s: State<T>, a: Action<T>)
    requires Shape(s) && ValuesOk(s) && Enabled(s, a) && a.MoveValue?
    ensures Shape(Apply(s, a))
  {
    hide Apply, Accounted, ChainOk, LinksOk, ProducersOk, ConsumerOk, ValuesOk;
    MoveState(s, a);
    MoveKeepsChain(s, Apply(s, a));
    MoveKeepsLinks(s, Apply(s, a));
  }

  lemma DeleteKeepsChain<T>(s: State<T>, a: Action<T>)
    requires Shape(s) && LivesOk(s.heap, s.lives) && Enabled(s, a) && a.DeleteOldHead?
    ensures var t := Apply(s, a);
      ChainOk(t) && Accounted(t) && !t.fault
        && t == s.(heap := s.heap - {s.consumer.oldHead}, lives := t.lives, consumer := Outside)
  {
    hide LinksOk, ProducersOk;
  }

  lemma DeleteKeepsLinks<T>(s: State<T>, t: State<T>, h: Addr)
    requires ChainOk(s) && LinksOk(s) && ProducersOk(s) && ChainOk(t)
    requires t == s.(heap := s.heap - {h}, lives := t.lives, consumer := Outside)
    requires h in s.heap && s.heap[h].role.Retired?
    ensures LinksOk(t) && ProducersOk(t)
  {
    forall i | t.first <= i < |t.linker|
      ensures LinkOk(t.heap, t.producers, t.order[i], t.order[i + 1], t.linker[i], i)
    {
      assert LinkOk(s.heap, s.producers, s.order[i], s.order[i + 1], s.linker[i], i);
    }
    forall p | p in t.producers
      ensures ProducerOk(t, p, t.producers[p])
    {
      assert ProducerOk(s, p, s.producers[p]);
    }
  }

  lemma DeleteKeepsShape<T>(s: State<T>, a: Action<T>)
    requires Shape(s) && LivesOk(s.heap, s.lives) && Enabled(s, a) && a.DeleteOldHead?
    ensures Shape(Apply(s, a))
  {
    hide Apply, LinksOk, ProducersOk, LivesOk, Accounted;
    DeleteKeepsChain(s, a);
    DeleteKeepsLinks(s, Apply(s, a), s.consumer.oldHead);
  }

  lemma StepKeepsShape<T>(s: State<T>, a: Action<T>)
    requires Inv(s) && Enabled(s, a)
    ensures Shape(Apply(s, a))
  {
    match a
    case NewNode(_, _, _) => NewNodeKeepsChain(s, a); NewNodeKeepsThreads(s, a);
    case ExchangeTail(_) =>
      ExchangeKeepsChain(s, a);
      ExchangeKeepsLinks(s, a);
      ExchangeKeepsProducers(s, a);
      ExchangeKeepsConsumer(s, a);
    case LinkOldTail(_) =>
      LinkKeepsChain(s, a);
      LinkKeepsLinks(s, a);
      LinkKeepsProducers(s, a);
      LinkKeepsConsumer(s, a);
    case CasHead(_) => CasKeepsChain(s, a); CasKeepsLinks(s, a);
    case LoadHead => ReadKeepsShape(s, a);
    case LoadNext => ReadKeepsShape(s, a);
    case MoveValue => MoveKeepsShape(s, a);
    case DeleteOldHead => DeleteKeepsShape(s, a);
  }

  lemma ExchangeKeepsValues<T>(s: State<T>, a: Action<T>)
    requires ChainOk(s) && ProducersOk(s) && ValuesOk(s)
    requires Enabled(s, a) && a.ExchangeTail? && ChainOk(Apply(s, a))
    ensures ValuesOk(Apply(s, a))
  {
  }

  lemma LinkKeepsValues<T>(s: State<T>, a: Action<T>)
    requires ChainOk(s) && ProducersOk(s) && ValuesOk(s)
    requires Enabled(s, a) && (a.NewNode? || a.LinkOldTail?) && ChainOk(Apply(s, a))
    ensures ValuesOk(Apply(s, a))
  {
  }

  // Reads, and a compare-exchange, move no value.
  lemma ReadKeepsValues<T>(s: State<T>, a: Action<T>)
    requires ChainOk(s) && ConsumerOk(s) && ValuesOk(s)
    requires Enabled(s, a) && (a.LoadHead? || a.LoadNext? || a.CasHead?) && ChainOk(Apply(s, a))
    ensures ValuesOk(Apply(s, a))
  {
    var t := Apply(s, a);
    assert Taken(t) == Taken(s) && t.order == s.order && t.pushed == s.pushed && t.delivered == s.delivered;
    forall i | Taken(t) < i < |t.order| ensures t.heap[t.order[i]].value == Some(t.pushed[i - 1]) {
      assert s.heap[s.order[i]].value == Some(s.pushed[i - 1]);
    }
  }

  lemma MoveKeepsValues<T>(s: State<T>, a: Action<T>)
    requires ChainOk(s) && ConsumerOk(s) && ValuesOk(s)
    requires Enabled(s, a) && a.MoveValue? && ChainOk(Apply(s, a))
    ensures ValuesOk(Apply(s, a))
  {
    hide Apply;
    MoveState(s, a);
    var t := Apply(s, a);
    forall i | Taken(t) < i < |t.order| ensures t.heap[t.order[i]].value == Some(t.pushed[i - 1]) {
      assert s.heap[s.order[i]].value == Some(s.pushed[i - 1]);
      assert s.heap[s.order[i]].role == InChain(i);
    }
  }

  lemma DeleteKeepsValues<T>(s: State<T>, a: Action<T>)
    requires ChainOk(s) && ValuesOk(s)
    requires Enabled(s, a) && a.DeleteOldHead? && ChainOk(Apply(s, a))
    ensures ValuesOk(Apply(s, a))
  {
    var t := Apply(s, a);
    forall i | Taken(t) < i < |t.order| ensures t.heap[t.order[i]].value == Some(t.pushed[i - 1]) {
      assert s.heap[s.order[i]].value == Some(s.pushed[i - 1]);
    }
  }

  lemma AllocKeepsLives<T>(heap: map<Addr, Node<T>>, lives: seq<Life>, addr: Addr, node: Node<T>)
    requires LivesOk(heap, lives) && addr !in heap && node.serial == |lives|
    ensures LivesOk(heap[addr := node], lives + [Life(addr, 0)])
  {
  }

  lemma WriteKeepsLives<T>(heap: map<Addr, Node<T>>, lives: seq<Life>, addr: Addr, node: Node<T>)
    requires LivesOk(heap, lives) && addr in heap && node.serial == heap[addr].serial
    ensures LivesOk(heap[addr := node], lives)
  {
  }

  lemma FreeKeepsLives<T>(heap: map<Addr, Node<T>>, lives: seq<Life>, addr: Addr)
    requires LivesOk(heap, lives) && addr in heap
    ensures LivesOk(heap - {addr}, Delete(lives, heap[addr].serial))
  {
  }

  lemma StepKeepsLives<T>(s: State<T>, a: Action<T>)
    requires LivesOk(s.heap, s.lives) && Enabled(s, a)
    ensures LivesOk(Apply(s, a).heap, Apply(s, a).lives)
  {
    match a
    case NewNode(p, v, addr) =>
      AllocKeepsLives(s.heap, s.lives, addr, Node(None, Some(v), |s.lives|, Private(p)));
    case DeleteOldHead =>
      if s.consumer.oldHead in s.heap { FreeKeepsLives(s.heap, s.lives, s.consumer.oldHead); }
    case ExchangeTail(p) =>
      var n := s.producers[p].node;
      if n in s.heap { WriteKeepsLives(s.heap, s.lives, n, s.heap[n].(role := InChain(|s.order|))); }
    case LinkOldTail(p) =>
      var o := s.producers[p].oldTail;
      if o in s.heap { WriteKeepsLives(s.heap, s.lives, o, s.heap[o].(next := Some(s.producers[p].node))); }
    case CasHead(_) =>
      var h := s.consumer.oldHead;
      if h in s.heap { WriteKeepsLives(s.heap, s.lives, h, s.heap[h].(role := Retired)); }
    case MoveValue =>
      var n := s.consumer.next;
      if n in s.heap { WriteKeepsLives(s.heap, s.lives, n, s.heap[n].(value := None)); }
    case LoadHead =>
    case LoadNext =>
  }

  lemma StepKeepsInv<T>(s: State<T>, a: Action<T>)
    requires Inv(s) && Enabled(s, a)
    ensures Inv(Apply(s, a))
  {
    StepKeepsShape(s, a);
    match a {
      case ExchangeTail(_) => ExchangeKeepsValues(s, a);
      case NewNode(_, _, _) => LinkKeepsValues(s, a);
      case LinkOldTail(_) => LinkKeepsValues(s, a);
      case MoveValue => MoveKeepsValues(s, a);
      case DeleteOldHead => DeleteKeepsValues(s, a);
      case _ => ReadKeepsValues(s, a);
    }
    StepKeepsLives(s, a);
  }
}
