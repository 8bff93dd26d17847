/**
 End-to-end consistency: for every document whose last event is committed, that
 event is in the dead-letter topic or both stores hold exactly its row.
 */
module ProtocolConsistency {
  import opened Prelude
  import opened Errors
  import opened Stores
  import opened Events
  import opened ChangeService
  import opened Pipelines
  import opened Handlers
  import opened WorkerPools
  import opened OffsetTracker
  import opened Protocol
  import opened ProtocolSafety

  function EventOf(cfg: Config, m: Message): Result<ChangeEvent, Error> {
    DecodeChangeEvent(cfg.setting, m.value)
  }

  predicate About(cfg: Config, m: Message, id: string) {
    EventOf(cfg, m).Ok? && EventOf(cfg, m).value.id == id
  }

  predicate SameDocument(cfg: Config, m: Message, n: Message) {
    EventOf(cfg, m).Ok? && About(cfg, n, EventOf(cfg, m).value.id)
  }

  predicate Row(cfg: Config, m: Message) {
    EventOf(cfg, m).Ok? && Writable(EventOf(cfg, m).value)
  }

  function RowOf(cfg: Config, m: Message): Document
    requires Row(cfg, m)
  {
    DocumentOf(EventOf(cfg, m).value)
  }

  /** All events of a row share a message key, so a partition, and its versions
      increase along the log, where a change may be published any number of times. */
  ghost predicate KeyedLog(cfg: Config) {
    && ProperLog(cfg)
    && (forall m, n :: m in cfg.log && n in cfg.log && SameDocument(cfg, m, n) ==>
          m.key == n.key && m.key != "" && m.partition == n.partition)
    && (forall m :: m in cfg.log && Row(cfg, m) ==> RowOf(cfg, m).version > 0)
    && (forall m, n | m in cfg.log && n in cfg.log && SameDocument(cfg, m, n) && Row(cfg, m) && Row(cfg, n) ::
          m.offset < n.offset ==> RowOf(cfg, m).version < RowOf(cfg, n).version || RowOf(cfg, m) == RowOf(cfg, n))
  }

  /** The last event of its document. */
  ghost predicate IsLast(cfg: Config, m: Message) {
    && m in cfg.log && EventOf(cfg, m).Ok?
    && forall n :: n in cfg.log && SameDocument(cfg, m, n) ==> n.offset <= m.offset
  }

  /** Both stores hold exactly what the event says. */
  predicate Agrees(embed: Embedder, ev: ChangeEvent, s: Both) {
    if ev.operation == OperationDelete then ev.id !in s.keyword && ev.id !in s.vectors
    else
      && Indexed(ev, s)
      && ev.id in s.vectors && s.vectors[ev.id] == PointOf(embed, DocumentOf(ev))
  }

  predicate Indexed(ev: ChangeEvent, s: Both) {
    Writable(ev) && ev.id in s.keyword && s.keyword[ev.id] == DocumentOf(ev)
  }

  predicate Matches(cfg: Config, s: Both, m: Message)
    requires EventOf(cfg, m).Ok?
  {
    Agrees(cfg.setting.embed, EventOf(cfg, m).value, s)
  }

  ghost predicate Consistent(cfg: Config, w: World, m: Message)
    requires EventOf(cfg, m).Ok?
  {
    InLetters(w.letters, m) || Matches(cfg, w.stores, m)
  }

  // --------------------------------------------------------- one handler's moves

  /** The keyword index holds only rows of the log, and both stores only documents
      of the log. */
  ghost predicate FromLog(cfg: Config, s: Both) {
    && (forall id :: id in s.keyword ==>
          exists m :: m in cfg.log && Row(cfg, m) && About(cfg, m, id) && s.keyword[id] == RowOf(cfg, m))
    && (forall id :: id in s.vectors ==> exists m :: m in cfg.log && About(cfg, m, id))
  }

  /** What the last event of a document has achieved when it gets to a call. */
  predicate Reached(embed: Embedder, ev: ChangeEvent, pc: Pc, s: Both) {
    match pc
    case VersionRead => Indexed(ev, s)
    case Embedding(_) => Indexed(ev, s)
    case VectorWrite(_, vector) => Indexed(ev, s) && vector == embed(EmbeddingText(DocumentOf(ev)))
    case VectorDelete(None) => ev.id !in s.keyword
    case Returned(_, None) => Agrees(embed, ev, s)
    case _ => true
  }

  /** ... and its handler. */
  predicate Knows(cfg: Config, m: Message, h: Handler, s: Both)
    requires EventOf(cfg, m).Ok?
  {
    match h
    case Trying(pc) => Reached(cfg.setting.embed, EventOf(cfg, m).value, pc, s)
    case Finished(OutcomeIndexed) => Matches(cfg, s, m)
    case _ => true
  }

  /** A call gets it further, as long as nothing newer is in its way. */
  lemma StepReached(embed: Embedder, ev: ChangeEvent, pc: Pc, s: Both, call: Call)
    requires PcFor(ev, pc) && Reached(embed, ev, pc, s)
    requires Writable(ev) && Refused(s.keyword, DocumentOf(ev)) ==> Indexed(ev, s)
    ensures
      var (pc', t) := Step(embed, ev, pc, s, call);
      Reached(embed, ev, pc', t)
  {
  }

  lemma LastIsNewest(cfg: Config, m: Message, s: Both)
    requires KeyedLog(cfg) && IsLast(cfg, m) && FromLog(cfg, s) && Row(cfg, m)
    requires Refused(s.keyword, RowOf(cfg, m))
    ensures s.keyword[EventOf(cfg, m).value.id] == RowOf(cfg, m)
  {
    var id := EventOf(cfg, m).value.id;
    var n :| n in cfg.log && Row(cfg, n) && About(cfg, n, id) && s.keyword[id] == RowOf(cfg, n);
    assert SameDocument(cfg, m, n) && SameDocument(cfg, n, m);
    assert n.offset < m.offset ==> RowOf(cfg, n) == RowOf(cfg, m);
  }

  lemma CallKnows(cfg: Config, m: Message, ev: ChangeEvent, pc: Pc, s: Both, call: Call)
    requires KeyedLog(cfg) && IsLast(cfg, m) && FromLog(cfg, s) && EventOf(cfg, m) == Ok(ev)
    requires PcFor(ev, pc) && Reached(cfg.setting.embed, ev, pc, s)
    ensures
      var (pc', t) := Step(cfg.setting.embed, ev, pc, s, call);
      Knows(cfg, m, Landing(pc'), t)
  {
    if Writable(ev) && Refused(s.keyword, DocumentOf(ev)) {
      LastIsNewest(cfg, m, s);
    }
    StepReached(cfg.setting.embed, ev, pc, s, call);
  }

  /** A move keeps what the handler of a document's last event knows. */
  lemma MovedKnows(cfg: Config, m: Message, h: Handler, w: World, move: Move)
    requires KeyedLog(cfg) && IsLast(cfg, m) && FromLog(cfg, w.stores)
    requires HandlerFor(cfg.setting, m, h) && Knows(cfg, m, h, w.stores)
    ensures
      var (g, v) := Moved(cfg.setting, m, h, w, move);
      Knows(cfg, m, g, v.stores)
  {
    if h.Trying? && move.CallStore? {
      CallKnows(cfg, m, EventOf(cfg, m).value, h.pc, w.stores, move.call);
      CallMoves(cfg, m, h.pc, w, move.call);
    } else {
      OtherMovesKnow(cfg, m, h, w, move);
    }
  }

  lemma CallMoves(cfg: Config, m: Message, pc: Pc, w: World, call: Call)
    requires EventOf(cfg, m).Ok? && HandlerFor(cfg.setting, m, Trying(pc))
    ensures
      var (pc', t) := Step(cfg.setting.embed, EventOf(cfg, m).value, pc, w.stores, call);
      Moved(cfg.setting, m, Trying(pc), w, CallStore(call)) == (Landing(pc'), w.(stores := t))
  {
  }

  lemma OtherMovesKnow(cfg: Config, m: Message, h: Handler, w: World, move: Move)
    requires EventOf(cfg, m).Ok? && !(h.Trying? && move.CallStore?)
    requires HandlerFor(cfg.setting, m, h) && Knows(cfg, m, h, w.stores)
    ensures
      var (g, v) := Moved(cfg.setting, m, h, w, move);
      Knows(cfg, m, g, v.stores)
  {
  }

  /** The writes one store call can make. */
  lemma StepStores(embed: Embedder, ev: ChangeEvent, pc: Pc, s: Both, call: Call)
    requires PcFor(ev, pc)
    ensures
      var t := Step(embed, ev, pc, s, call).1;
      && OthersSame(ev.id, s, t)
      && (ev.id in t.keyword ==>
            (Writable(ev) && t.keyword[ev.id] == DocumentOf(ev))
            || (ev.id in s.keyword && t.keyword[ev.id] == s.keyword[ev.id]))
  {
  }

  lemma SameOutside(id: string, s: Both, t: Both, other: string)
    requires OthersSame(id, s, t) && other != id
    ensures other in t.keyword <==> other in s.keyword
    ensures other in s.keyword ==> t.keyword[other] == s.keyword[other]
    ensures other in t.vectors <==> other in s.vectors
    ensures other in s.vectors ==> t.vectors[other] == s.vectors[other]
  {
    assert other in s.keyword <==> other in s.keyword - {id};
    assert other in t.keyword <==> other in t.keyword - {id};
    assert other in s.keyword ==> (s.keyword - {id})[other] == s.keyword[other];
    assert other in t.keyword ==> (t.keyword - {id})[other] == t.keyword[other];
    assert other in s.vectors <==> other in s.vectors - {id};
    assert other in t.vectors <==> other in t.vectors - {id};
    assert other in s.vectors ==> (s.vectors - {id})[other] == s.vectors[other];
    assert other in t.vectors ==> (t.vectors - {id})[other] == t.vectors[other];
  }

  lemma WriteFromLog(cfg: Config, m: Message, s: Both, t: Both)
    requires m in cfg.log && EventOf(cfg, m).Ok? && FromLog(cfg, s) && OthersSame(EventOf(cfg, m).value.id, s, t)
    requires
      var ev := EventOf(cfg, m).value;
      ev.id in t.keyword ==>
        (Writable(ev) && t.keyword[ev.id] == DocumentOf(ev))
        || (ev.id in s.keyword && t.keyword[ev.id] == s.keyword[ev.id])
    ensures FromLog(cfg, t)
  {
    var ev := EventOf(cfg, m).value;
    assert About(cfg, m, ev.id);
    forall id | id in t.keyword
      ensures exists n :: n in cfg.log && Row(cfg, n) && About(cfg, n, id) && t.keyword[id] == RowOf(cfg, n)
    {
      if id != ev.id {
        SameOutside(ev.id, s, t, id);
      }
      if id == ev.id && Writable(ev) && t.keyword[ev.id] == DocumentOf(ev) {
        assert Row(cfg, m) && t.keyword[id] == RowOf(cfg, m);
      } else {
        var n :| n in cfg.log && Row(cfg, n) && About(cfg, n, id) && s.keyword[id] == RowOf(cfg, n);
      }
    }
    forall id | id in t.vectors
      ensures exists n :: n in cfg.log && About(cfg, n, id)
    {
      if id != ev.id {
        SameOutside(ev.id, s, t, id);
      }
    }
  }

  /** A move touches only the document of its message, and writes only its row. */
  lemma MovedTouches(cfg: Config, m: Message, h: Handler, w: World, move: Move)
    requires HandlerFor(cfg.setting, m, h) && m in cfg.log && FromLog(cfg, w.stores)
    ensures FromLog(cfg, Moved(cfg.setting, m, h, w, move).1.stores)
    ensures
      var v := Moved(cfg.setting, m, h, w, move).1;
      v.stores == w.stores || (EventOf(cfg, m).Ok? && OthersSame(EventOf(cfg, m).value.id, w.stores, v.stores))
  {
    if h.Trying? && move.CallStore? {
      var ev := EventOf(cfg, m).value;
      StepStores(cfg.setting.embed, ev, h.pc, w.stores, move.call);
      WriteFromLog(cfg, m, w.stores, Moved(cfg.setting, m, h, w, move).1.stores);
    }
  }

  // ------------------------------------------------------------------ the system

  ghost predicate Here(cfg: Config, s: System, m: Message, w: nat) {
    RoutedHere(cfg.hash, |s.hands|, m, w)
  }

  /** m comes before n, if they are of one partition. */
  predicate Precedes(m: Message, n: Message) {
    m.partition == n.partition ==> m.offset < n.offset
  }

  /** A worker's line: the message in hand, then its queue, in log order; whatever
      was acknowledged of it came before. */
  ghost predicate LineAt(cfg: Config, s: System, w: nat)
    requires Shape(cfg, s) && w < |s.hands|
  {
    var queue, worker := s.pool.queues[w], s.pool.workers[w];
    && (forall i :: 0 <= i < |queue| ==> Here(cfg, s, queue[i], w))
    && (forall i, j :: 0 <= i < j < |queue| ==> Precedes(queue[i], queue[j]))
    && (s.holding.Some? ==> forall i :: 0 <= i < |queue| ==> Precedes(queue[i], s.holding.value))
    && (worker.Handling? ==>
          && Here(cfg, s, worker.msg, w)
          && (forall i :: 0 <= i < |queue| ==> Precedes(worker.msg, queue[i]))
          && (s.holding.Some? ==> Precedes(worker.msg, s.holding.value)))
  }

  ghost predicate AckedBefore(cfg: Config, s: System, w: nat)
    requires Shape(cfg, s) && w < |s.hands|
  {
    var queue, worker := s.pool.queues[w], s.pool.workers[w];
    forall m :: m in s.acked && Here(cfg, s, m, w) ==>
      && (forall i :: 0 <= i < |queue| ==> Precedes(m, queue[i]))
      && (s.hands[w].Working? ==> Precedes(m, worker.msg))
  }

  ghost predicate Orderly(cfg: Config, s: System) {
    && Shape(cfg, s)
    && (forall w :: 0 <= w < |s.hands| ==> LineAt(cfg, s, w) && AckedBefore(cfg, s, w))
    && (s.holding.Some? ==> forall m :: m in s.acked ==> Precedes(m, s.holding.value))
  }

  ghost predicate HandKnows(cfg: Config, s: System, w: nat)
    requires Shape(cfg, s) && w < |s.hands|
  {
    s.hands[w].Working? ==>
      && HandShape(cfg, s.pool.workers[w], s.hands[w])
      && (IsLast(cfg, s.pool.workers[w].msg) ==>
            Knows(cfg, s.pool.workers[w].msg, s.hands[w].handler, s.world.stores))
  }

  ghost predicate Coherent(cfg: Config, s: System) {
    && Safe(cfg, s) && Orderly(cfg, s) && FromLog(cfg, s.world.stores)
    && (forall w :: 0 <= w < |s.hands| ==> HandKnows(cfg, s, w))
    && (forall m :: IsLast(cfg, m) && (m.offset <= StartOf(s, m.partition) || m in s.acked) ==>
          Consistent(cfg, s.world, m))
  }

  // ------------------------------------------------------- order, step by step

  /** A step that leaves the loop's message and the acknowledgements alone, and
      keeps or shortens every line. */
  ghost predicate Shortens(cfg: Config, s: System, t: System)
    requires Shape(cfg, s) && Shape(cfg, t)
  {
    && |t.hands| == |s.hands| && t.acked == s.acked
    && (t.holding.Some? ==> t.holding == s.holding)
    && t.pool.queues == s.pool.queues
    && forall w :: 0 <= w < |s.hands| ==>
         && (t.pool.workers[w].Handling? ==> t.pool.workers[w] == s.pool.workers[w])
         && (t.hands[w].Working? ==> s.hands[w].Working?)
  }

  lemma ShortensOrderly(cfg: Config, s: System, t: System)
    requires Orderly(cfg, s) && Shape(cfg, t) && Shortens(cfg, s, t)
    ensures Orderly(cfg, t)
  {
    forall w | 0 <= w < |t.hands|
      ensures LineAt(cfg, t, w) && AckedBefore(cfg, t, w)
    {
      assert LineAt(cfg, s, w) && AckedBefore(cfg, s, w);
      assert HandShape(cfg, t.pool.workers[w], t.hands[w]);
    }
  }

  lemma FetchOrderly(cfg: Config, s: System, msg: Message)
    requires Safe(cfg, s) && Orderly(cfg, s) && s.holding.None? && IsNext(cfg, s, msg)
    requires Shape(cfg, FetchedNext(cfg, s, msg))
    ensures Orderly(cfg, FetchedNext(cfg, s, msg))
  {
    var t := FetchedNext(cfg, s, msg);
    forall w | 0 <= w < |t.hands|
      ensures LineAt(cfg, t, w) && AckedBefore(cfg, t, w)
    {
      assert LineAt(cfg, s, w) && AckedBefore(cfg, s, w) && HandSafe(cfg, s, w);
      forall i | 0 <= i < |s.pool.queues[w]|
        ensures Precedes(s.pool.queues[w][i], msg)
      {
        assert InSession(cfg, s, s.pool.queues[w][i]);
      }
    }
  }

  lemma SubmitOrderly(cfg: Config, s: System)
    requires Orderly(cfg, s) && CanSubmit(cfg, s)
    ensures Orderly(cfg, SubmittedHeld(cfg, s))
  {
    var t, msg := SubmittedHeld(cfg, s), s.holding.value;
    forall w | 0 <= w < |t.hands|
      ensures LineAt(cfg, t, w) && AckedBefore(cfg, t, w)
    {
      assert LineAt(cfg, s, w) && AckedBefore(cfg, s, w);
      var before, after := s.pool.queues[w], t.pool.queues[w];
      assert after == before || (after == before + [msg] && Here(cfg, s, msg, w));
    }
  }

  lemma TakeOrderly(cfg: Config, s: System, w: nat)
    requires Orderly(cfg, s) && CanTake(s.pool, w)
    ensures Orderly(cfg, TookUp(cfg, s, w))
  {
    var t := TookUp(cfg, s, w);
    forall v | 0 <= v < |t.hands|
      ensures LineAt(cfg, t, v) && AckedBefore(cfg, t, v)
    {
      assert LineAt(cfg, s, v) && AckedBefore(cfg, s, v);
      if v == w {
        var before, after := s.pool.queues[w], t.pool.queues[w];
        assert forall i :: 0 <= i < |after| ==> after[i] == before[i + 1];
      }
    }
  }

  /** A step that only acknowledges the message in a worker's hand and lets go of
      its handler. */
  ghost predicate Acknowledges(cfg: Config, s: System, t: System, w: nat, msg: Message)
    requires Shape(cfg, s) && Shape(cfg, t)
  {
    && w < |s.hands| == |t.hands| && s.pool.workers[w] == Handling(msg) && !t.hands[w].Working?
    && t.world == s.world && t.started == s.started && t.holding == s.holding
    && t.acked == s.acked + {msg} && t.pool.queues == s.pool.queues
    && (t.pool.workers[w].Handling? ==> t.pool.workers[w] == s.pool.workers[w])
    && forall v :: 0 <= v < |s.hands| && v != w ==>
         t.hands[v] == s.hands[v] && t.pool.workers[v] == s.pool.workers[v]
  }

  lemma AcknowledgedSo(cfg: Config, s: System, w: nat)
    requires Shape(cfg, s) && HasMessage(cfg, s, w) && s.hands[w].Working? && s.hands[w].handler.Finished?
    ensures Acknowledges(cfg, s, Acknowledged(cfg, s, w), w, MessageOf(cfg, s, w))
  {
    assert HandShape(cfg, s.pool.workers[w], s.hands[w]);
  }

  lemma AcknowledgeOrderly(cfg: Config, s: System, t: System, w: nat, msg: Message)
    requires Orderly(cfg, s) && Shape(cfg, t) && Acknowledges(cfg, s, t, w, msg)
    ensures Orderly(cfg, t)
  {
    assert LineAt(cfg, s, w);
    forall v | 0 <= v < |t.hands|
      ensures LineAt(cfg, t, v) && AckedBefore(cfg, t, v)
    {
      assert LineAt(cfg, s, v) && AckedBefore(cfg, s, v);
      assert HandShape(cfg, s.pool.workers[v], s.hands[v]);
    }
  }

  // ----------------------------------------------- consistency, step by step

  /** Same document, same worker. */
  lemma SameDocumentSameLine(cfg: Config, s: System, m: Message, n: Message, w: nat)
    requires KeyedLog(cfg) && m in cfg.log && n in cfg.log && SameDocument(cfg, m, n)
    requires Here(cfg, s, n, w)
    ensures m.partition == n.partition && Here(cfg, s, m, w)
  {
  }

  /** A worker that has a message is alone with its document. */
  lemma AloneWithDocument(cfg: Config, s: System, v: nat, w: nat)
    requires KeyedLog(cfg) && Coherent(cfg, s) && HasMessage(cfg, s, v) && HasMessage(cfg, s, w) && v != w
    ensures !SameDocument(cfg, MessageOf(cfg, s, v), MessageOf(cfg, s, w))
  {
    var m, n := MessageOf(cfg, s, v), MessageOf(cfg, s, w);
    assert HandShape(cfg, s.pool.workers[v], s.hands[v]) && HandSafe(cfg, s, v) && LineAt(cfg, s, v);
    assert HandShape(cfg, s.pool.workers[w], s.hands[w]) && HandSafe(cfg, s, w) && LineAt(cfg, s, w);
    if SameDocument(cfg, m, n) {
      SameDocumentSameLine(cfg, s, m, n, w);
    }
  }

  /** While a worker is in the middle of a message, the last event of its document is
      neither behind the session nor acknowledged. */
  lemma LastIsAhead(cfg: Config, s: System, w: nat, last: Message)
    requires KeyedLog(cfg) && Coherent(cfg, s) && HasMessage(cfg, s, w) && s.hands[w].Working?
    requires IsLast(cfg, last) && SameDocument(cfg, last, MessageOf(cfg, s, w))
    ensures last.offset > StartOf(s, last.partition) && last !in s.acked
  {
    var m := MessageOf(cfg, s, w);
    assert HandShape(cfg, s.pool.workers[w], s.hands[w]);
    assert HandSafe(cfg, s, w) && LineAt(cfg, s, w) && AckedBefore(cfg, s, w);
    SameDocumentSameLine(cfg, s, last, m, w);
    assert m.offset <= last.offset;
  }

  /** Stores that agree outside one document agree on what another's handler and
      last event need. */
  lemma OtherDocument(cfg: Config, id: string, s: Both, t: Both, m: Message)
    requires OthersSame(id, s, t) && EventOf(cfg, m).Ok? && !About(cfg, m, id)
    ensures Matches(cfg, s, m) <==> Matches(cfg, t, m)
    ensures forall h :: HandlerFor(cfg.setting, m, h) ==> (Knows(cfg, m, h, s) <==> Knows(cfg, m, h, t))
  {
    SameOutside(id, s, t, EventOf(cfg, m).value.id);
  }

  lemma HandleCoherent(cfg: Config, s: System, w: nat, move: Move)
    requires KeyedLog(cfg) && Coherent(cfg, s) && HasMessage(cfg, s, w) && s.hands[w].Working?
    ensures Coherent(cfg, HandledOnce(cfg, s, w, move))
  {
    var t, m := HandledOnce(cfg, s, w, move), MessageOf(cfg, s, w);
    assert HandShape(cfg, s.pool.workers[w], s.hands[w]) && HandSafe(cfg, s, w) && HandKnows(cfg, s, w);
    HandleSafe(cfg, s, w, move);
    ShortensOrderly(cfg, s, t);
    MovedTouches(cfg, m, s.hands[w].handler, s.world, move);
    MovedLetters(cfg.setting, m, s.hands[w].handler, s.world, move);
    if IsLast(cfg, m) {
      MovedKnows(cfg, m, s.hands[w].handler, s.world, move);
    }
    forall v | 0 <= v < |t.hands|
      ensures HandKnows(cfg, t, v)
    {
      assert HandKnows(cfg, s, v);
      if v != w && s.hands[v].Working? {
        OtherHandKnows(cfg, s, w, move, v);
      }
    }
    forall n | IsLast(cfg, n) && (n.offset <= StartOf(t, n.partition) || n in t.acked)
      ensures Consistent(cfg, t.world, n)
    {
      OtherConsistent(cfg, s, w, move, n);
    }
  }

  lemma OtherHandKnows(cfg: Config, s: System, w: nat, move: Move, v: nat)
    requires KeyedLog(cfg) && Coherent(cfg, s) && HasMessage(cfg, s, w) && s.hands[w].Working?
    requires v < |s.hands| && v != w && s.hands[v].Working?
    ensures HandKnows(cfg, HandledOnce(cfg, s, w, move), v)
  {
    var t, m, n := HandledOnce(cfg, s, w, move), MessageOf(cfg, s, w), MessageOf(cfg, s, v);
    assert HandKnows(cfg, s, v) && HandSafe(cfg, s, w) && HandShape(cfg, s.pool.workers[w], s.hands[w]);
    if IsLast(cfg, n) {
      MovedTouches(cfg, m, s.hands[w].handler, s.world, move);
      if t.world.stores != s.world.stores {
        if About(cfg, n, EventOf(cfg, m).value.id) {
          AloneWithDocument(cfg, s, v, w);
        }
        OtherDocument(cfg, EventOf(cfg, m).value.id, s.world.stores, t.world.stores, n);
      }
    }
  }

  lemma OtherConsistent(cfg: Config, s: System, w: nat, move: Move, n: Message)
    requires KeyedLog(cfg) && Coherent(cfg, s) && HasMessage(cfg, s, w) && s.hands[w].Working?
    requires IsLast(cfg, n) && (n.offset <= StartOf(s, n.partition) || n in s.acked)
    ensures Consistent(cfg, HandledOnce(cfg, s, w, move).world, n)
  {
    var t, m := HandledOnce(cfg, s, w, move), MessageOf(cfg, s, w);
    assert HandSafe(cfg, s, w) && HandShape(cfg, s.pool.workers[w], s.hands[w]);
    assert Consistent(cfg, s.world, n);
    MovedTouches(cfg, m, s.hands[w].handler, s.world, move);
    MovedLetters(cfg.setting, m, s.hands[w].handler, s.world, move);
    if InLetters(s.world.letters, n) {
      LettersStay(s.world.letters, t.world.letters, n);
    } else if t.world.stores != s.world.stores {
      if About(cfg, n, EventOf(cfg, m).value.id) {
        LastIsAhead(cfg, s, w, n);
      }
      OtherDocument(cfg, EventOf(cfg, m).value.id, s.world.stores, t.world.stores, n);
    }
  }

  lemma AcknowledgeCoherent(cfg: Config, s: System, t: System, w: nat, msg: Message)
    requires Coherent(cfg, s) && Safe(cfg, t) && Acknowledges(cfg, s, t, w, msg)
    requires IsLast(cfg, msg) ==> Consistent(cfg, s.world, msg)
    ensures Coherent(cfg, t)
  {
    AcknowledgeOrderly(cfg, s, t, w, msg);
    SameHandsKnow(cfg, s, t);
  }

  /** The handler returned: acknowledge its message or put it down. */
  lemma ConcludeCoherent(cfg: Config, s: System, w: nat)
    requires KeyedLog(cfg) && Coherent(cfg, s) && HasMessage(cfg, s, w)
    requires s.hands[w].Working? && s.hands[w].handler.Finished? && s.hands[w].handler.outcome.Commits()
    ensures Coherent(cfg, Acknowledged(cfg, s, w))
  {
    AcknowledgeSafe(cfg, s, w);
    AcknowledgedSo(cfg, s, w);
    FinishedConsistent(cfg, s, w);
    AcknowledgeCoherent(cfg, s, Acknowledged(cfg, s, w), w, MessageOf(cfg, s, w));
  }

  lemma PutDownCoherent(cfg: Config, s: System, w: nat, outcome: Outcome)
    requires Coherent(cfg, s) && HasMessage(cfg, s, w) && s.hands[w].Working?
    ensures Coherent(cfg, PutDown(cfg, s, w, outcome))
  {
    PutDownSafe(cfg, s, w, outcome);
    StillCoherent(cfg, s, PutDown(cfg, s, w, outcome));
  }

  lemma AskCoherent(cfg: Config, s: System, w: nat, accepted: bool)
    requires Coherent(cfg, s) && HasMessage(cfg, s, w) && s.hands[w].Committing?
    ensures Coherent(cfg, CommitAsked(cfg, s, w, accepted))
  {
    AskSafe(cfg, s, w, accepted);
    StillCoherent(cfg, s, CommitAsked(cfg, s, w, accepted));
  }

  /** A message whose handler ended in a way that commits is consistent, if it is
      the last of its document. */
  lemma FinishedConsistent(cfg: Config, s: System, w: nat)
    requires Coherent(cfg, s) && HasMessage(cfg, s, w)
    requires s.hands[w].Working? && s.hands[w].handler.Finished? && s.hands[w].handler.outcome.Commits()
    ensures IsLast(cfg, MessageOf(cfg, s, w)) ==> Consistent(cfg, s.world, MessageOf(cfg, s, w))
  {
    assert HandShape(cfg, s.pool.workers[w], s.hands[w]) && HandSafe(cfg, s, w) && HandKnows(cfg, s, w);
  }

  lemma SameHandsKnow(cfg: Config, s: System, t: System)
    requires Coherent(cfg, s) && Shape(cfg, t) && t.world == s.world && |t.hands| == |s.hands|
    requires forall w :: 0 <= w < |t.hands| ==>
      t.hands[w].Working? ==> t.hands[w] == s.hands[w] && t.pool.workers[w] == s.pool.workers[w]
    ensures forall w :: 0 <= w < |t.hands| ==> HandKnows(cfg, t, w)
  {
    forall w | 0 <= w < |t.hands|
      ensures HandKnows(cfg, t, w)
    {
      assert HandKnows(cfg, s, w);
    }
  }

  lemma RestartCoherent(cfg: Config, s: System, workers: nat, capacity: nat)
    requires Coherent(cfg, s) && workers > 0
    ensures Coherent(cfg, Session(s.world, s.committed, s.indexed, workers, capacity))
  {
    var t := Session(s.world, s.committed, s.indexed, workers, capacity);
    RestartSafe(cfg, s, workers, capacity);
    forall m | IsLast(cfg, m) && m.offset <= StartOf(t, m.partition)
      ensures Consistent(cfg, t.world, m)
    {
      assert AckedUpTo(cfg, s, m.partition, OffsetAt(s.committed, m.partition));
    }
  }

  lemma NextCoherent(cfg: Config, s: System, a: Protocol.Action)
    requires KeyedLog(cfg) && Coherent(cfg, s)
    ensures Coherent(cfg, Protocol.Next(cfg, s, a))
  {
    var t := Protocol.Next(cfg, s, a);
    if t != s {
      match a {
        case Fetch(msg) => FetchCoherent(cfg, s, msg);
        case Submit => SubmitCoherent(cfg, s);
        case Take(w) => TakeCoherent(cfg, s, w);
        case Handle(w, move) => HandleCoherent(cfg, s, w, move);
        case Conclude(w) =>
          if s.hands[w].handler.outcome.Commits() {
            ConcludeCoherent(cfg, s, w);
          } else {
            PutDownCoherent(cfg, s, w, s.hands[w].handler.outcome);
          }
        case Restart(workers, capacity) => RestartCoherent(cfg, s, workers, capacity);
        case StopFetching =>
          StopSafe(cfg, s);
          StillCoherent(cfg, s, t);
        case CloseQuit => LoopStepCoherent(cfg, s, Close);
        case CheckQuit(w) => LoopStepCoherent(cfg, s, Check(w));
        case SeeQuit(w) => LoopStepCoherent(cfg, s, WorkerPools.SeeQuit(w));
        case AskCommit(w, accepted) => AskCoherent(cfg, s, w, accepted);
        case BrokerCommits(p, offset) =>
          BrokerSafe(cfg, s, p, offset);
          StillCoherent(cfg, s, t);
      }
    }
  }

  lemma StillCoherent(cfg: Config, s: System, t: System)
    requires Coherent(cfg, s) && Safe(cfg, t) && Shortens(cfg, s, t)
    requires t.world == s.world && t.started == s.started
    requires forall w :: 0 <= w < |t.hands| ==>
      t.hands[w].Working? ==> t.hands[w] == s.hands[w] && t.pool.workers[w] == s.pool.workers[w]
    ensures Coherent(cfg, t)
  {
    ShortensOrderly(cfg, s, t);
    SameHandsKnow(cfg, s, t);
  }

  lemma LoopStepCoherent(cfg: Config, s: System, a: WorkerPools.Action)
    requires Coherent(cfg, s) && (a.Check? || a.SeeQuit? || a.Close?)
    ensures Coherent(cfg, PoolStep(cfg, s, a))
  {
    var t := PoolStep(cfg, s, a);
    PoolStepSafe(cfg, s, a);
    assert Shape(cfg, t);
    forall w | 0 <= w < |s.hands|
      ensures t.pool.workers[w].Handling? ==> t.pool.workers[w] == s.pool.workers[w]
      ensures t.hands[w].Working? ==> t.pool.workers[w] == s.pool.workers[w]
    {
      assert HandShape(cfg, t.pool.workers[w], t.hands[w]);
    }
    StillCoherent(cfg, s, t);
  }

  lemma FetchCoherent(cfg: Config, s: System, msg: Message)
    requires KeyedLog(cfg) && Coherent(cfg, s) && s.holding.None? && IsNext(cfg, s, msg)
    ensures Coherent(cfg, FetchedNext(cfg, s, msg))
  {
    FetchSafe(cfg, s, msg);
    FetchOrderly(cfg, s, msg);
    SameHandsKnow(cfg, s, FetchedNext(cfg, s, msg));
  }

  lemma SubmitCoherent(cfg: Config, s: System)
    requires Coherent(cfg, s) && CanSubmit(cfg, s)
    ensures Coherent(cfg, SubmittedHeld(cfg, s))
  {
    SubmitSafe(cfg, s);
    SubmitOrderly(cfg, s);
    SameHandsKnow(cfg, s, SubmittedHeld(cfg, s));
  }

  lemma TakeCoherent(cfg: Config, s: System, w: nat)
    requires Coherent(cfg, s) && CanTake(s.pool, w)
    ensures Coherent(cfg, TookUp(cfg, s, w))
  {
    var t := TookUp(cfg, s, w);
    TakeSafe(cfg, s, w);
    TakeOrderly(cfg, s, w);
    forall v | 0 <= v < |t.hands|
      ensures HandKnows(cfg, t, v)
    {
      assert HandKnows(cfg, s, v) && HandShape(cfg, t.pool.workers[v], t.hands[v]);
    }
  }

  lemma {:induction false} RunCoherent(cfg: Config, workers: nat, capacity: nat, actions: seq<Protocol.Action>)
    requires KeyedLog(cfg) && workers > 0
    ensures Coherent(cfg, Protocol.Run(cfg, Initial(workers, capacity), actions))
  {
    if |actions| > 0 {
      var before := actions[..|actions| - 1];
      RunCoherent(cfg, workers, capacity, before);
      NextCoherent(cfg, Protocol.Run(cfg, Initial(workers, capacity), before), Last(actions));
    }
  }

  // ------------------------------------------------------------------- theorems

  /** End-to-end consistency. In every run -- any number of sessions, crashes,
      retries, partial failures, handlers of different workers interleaved call by
      call -- a document whose last event is committed has that event in the
      dead-letter topic, or both stores hold exactly its row: both nothing, if it
      is a delete. */
  lemma EndToEnd(cfg: Config, workers: nat, capacity: nat, actions: seq<Protocol.Action>, last: Message)
    requires KeyedLog(cfg) && workers > 0
    requires IsLast(cfg, last)
    requires
      last.offset <= OffsetAt(Protocol.Run(cfg, Initial(workers, capacity), actions).committed, last.partition)
    ensures
      var s := Protocol.Run(cfg, Initial(workers, capacity), actions);
      InLetters(s.world.letters, last) || Matches(cfg, s.world.stores, last)
  {
    RunCoherent(cfg, workers, capacity, actions);
    var s := Protocol.Run(cfg, Initial(workers, capacity), actions);
    assert AckedUpTo(cfg, s, last.partition, OffsetAt(s.committed, last.partition));
  }

  /** In every run two workers never hold messages of one document. */
  lemma OneWorkerPerDocument(
    cfg: Config, workers: nat, capacity: nat, actions: seq<Protocol.Action>, v: nat, w: nat)
    requires KeyedLog(cfg) && workers > 0 && v != w
    requires
      var s := Protocol.Run(cfg, Initial(workers, capacity), actions);
      HasMessage(cfg, s, v) && HasMessage(cfg, s, w)
    ensures
      var s := Protocol.Run(cfg, Initial(workers, capacity), actions);
      !SameDocument(cfg, MessageOf(cfg, s, v), MessageOf(cfg, s, w))
  {
    RunCoherent(cfg, workers, capacity, actions);
    AloneWithDocument(cfg, Protocol.Run(cfg, Initial(workers, capacity), actions), v, w);
  }

  /** Every document of the log has a last event. */
  lemma {:induction false} LastExists(cfg: Config, rest: set<Message>, m: Message) returns (last: Message)
    requires KeyedLog(cfg) && m in cfg.log && EventOf(cfg, m).Ok?
    requires forall n :: n in cfg.log && SameDocument(cfg, m, n) && n !in rest ==> n.offset <= m.offset
    ensures IsLast(cfg, last) && SameDocument(cfg, m, last)
    decreases rest
  {
    if n :| n in rest && n in cfg.log && SameDocument(cfg, m, n) && n.offset > m.offset {
      last := LastExists(cfg, rest - {n}, n);
    } else {
      last := m;
    }
  }

  /** Once the whole log is committed and nothing was dead-lettered, the two stores
      hold exactly the final rows of the log: every document whose last event wrote
      a row, with that row and its vector, and no other document. */
  lemma CaughtUp(cfg: Config, workers: nat, capacity: nat, actions: seq<Protocol.Action>, id: string)
    requires KeyedLog(cfg) && workers > 0
    requires
      var s := Protocol.Run(cfg, Initial(workers, capacity), actions);
      && s.world.letters == []
      && forall m :: m in cfg.log ==> m.offset <= OffsetAt(s.committed, m.partition)
    ensures
      var s := Protocol.Run(cfg, Initial(workers, capacity), actions);
      && (id in s.world.stores.keyword <==> id in s.world.stores.vectors)
      && (id in s.world.stores.keyword
          <==> exists m :: IsLast(cfg, m) && About(cfg, m, id) && Row(cfg, m))
      && forall m :: IsLast(cfg, m) && About(cfg, m, id) ==> Matches(cfg, s.world.stores, m)
  {
    RunCoherent(cfg, workers, capacity, actions);
    var s := Protocol.Run(cfg, Initial(workers, capacity), actions);
    forall m | IsLast(cfg, m)
      ensures Matches(cfg, s.world.stores, m)
    {
      EndToEnd(cfg, workers, capacity, actions, m);
    }
    OnlyFinalRows(cfg, s.world.stores, id);
  }

  lemma OnlyFinalRows(cfg: Config, s: Both, id: string)
    requires KeyedLog(cfg) && FromLog(cfg, s)
    requires forall m :: IsLast(cfg, m) ==> Matches(cfg, s, m)
    ensures id in s.keyword <==> id in s.vectors
    ensures id in s.keyword <==> exists m :: IsLast(cfg, m) && About(cfg, m, id) && Row(cfg, m)
  {
    if m :| m in cfg.log && About(cfg, m, id) {
      var last := LastExists(cfg, cfg.log, m);
      assert IsLast(cfg, last) && About(cfg, last, id);
      OneLast(cfg, last, id);
    } else {
      assert forall m :: IsLast(cfg, m) ==> !About(cfg, m, id);
      assert id !in s.keyword && id !in s.vectors;
    }
  }

  /** A document has one last event. */
  lemma OneLast(cfg: Config, last: Message, id: string)
    requires KeyedLog(cfg) && IsLast(cfg, last) && About(cfg, last, id)
    ensures forall m :: IsLast(cfg, m) && About(cfg, m, id) ==> m == last
  {
    forall m | IsLast(cfg, m) && About(cfg, m, id)
      ensures m == last
    {
      assert SameDocument(cfg, m, last) && SameDocument(cfg, last, m);
    }
  }
}
