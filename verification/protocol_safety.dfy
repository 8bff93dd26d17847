/**
 No event is lost: whatever the broker believes to be committed was indexed, was
 nothing to index, or is in the dead-letter topic -- in every run, across any
 number of sessions.
 */
module ProtocolSafety {
  import opened Prelude
  import opened Errors
  import opened Stores
  import opened Events
  import opened ChangeService
  import opened Pipelines
  import opened Handlers
  import opened WorkerPools
  import opened OffsetTracker
  import opened Protocol

  /** Every message of the topic has its own place in the log. */
  ghost predicate ProperLog(cfg: Config) {
    && (forall m :: m in cfg.log ==> m.topic == cfg.topic && m.offset >= 0)
    && forall m, n :: m in cfg.log && n in cfg.log && m.partition == n.partition && m.offset == n.offset ==> m == n
  }

  /** A letter holds the message, unchanged. */
  ghost predicate InLetters(letters: seq<Letter>, m: Message) {
    exists l :: l in letters && Carries(l, m)
  }

  /** What may happen to a message before it is given up for committed. */
  ghost predicate Settled(cfg: Config, s: System, m: Message) {
    m in s.indexed || Skippable(cfg.setting, m) || InLetters(s.world.letters, m)
  }

  function StartOf(s: System, p: int): int {
    OffsetAt(s.started, p)
  }

  function CursorOf(s: System, p: int): int {
    OffsetAt(s.cursor, p)
  }

  function InFlight(cfg: Config, s: System, p: int): seq<int> {
    At(s.tracker, KeyOf(cfg, p)).inFlight
  }

  /** This session acknowledged everything of the partition up to an offset. */
  ghost predicate AckedUpTo(cfg: Config, s: System, p: int, offset: int) {
    && StartOf(s, p) <= offset
    && forall m :: m in cfg.log && m.partition == p && StartOf(s, p) < m.offset <= offset ==> m in s.acked
  }

  /** A partition's tracker: offsets fetched in order, and none missing that is not
      acknowledged. */
  ghost predicate TrackerAt(cfg: Config, s: System, p: int) {
    TrackedAs(cfg, s, p, At(s.tracker, KeyOf(cfg, p)))
  }

  ghost predicate TrackedAs(cfg: Config, s: System, p: int, t: Offsets) {
    && StartOf(s, p) <= CursorOf(s, p)
    && StrictlyIncreasing(t.inFlight)
    && (forall i :: 0 <= i < |t.inFlight| ==> StartOf(s, p) < t.inFlight[i] <= CursorOf(s, p))
    && (forall m :: m in cfg.log && m.partition == p && StartOf(s, p) < m.offset <= CursorOf(s, p) ==>
          m.offset in t.inFlight || m in s.acked)
    && (forall m :: m in cfg.log && m.partition == p && m.offset in t.done ==> m in s.acked)
  }

  /** A message is in the log, fetched in this session. */
  ghost predicate InSession(cfg: Config, s: System, m: Message) {
    m in cfg.log && StartOf(s, m.partition) < m.offset <= CursorOf(s, m.partition)
  }

  ghost predicate HandSafe(cfg: Config, s: System, w: nat)
    requires Shape(cfg, s) && w < |s.hands|
  {
    s.pool.workers[w].Handling? ==>
      var m := s.pool.workers[w].msg;
      && InSession(cfg, s, m)
      && (s.hands[w].Working? && s.hands[w].handler == Finished(OutcomeDeadLettered) ==>
            InLetters(s.world.letters, m))
      && (s.hands[w].Committing? ==> AckedUpTo(cfg, s, m.partition, s.hands[w].offset))
  }

  ghost predicate Safe(cfg: Config, s: System) {
    && Shape(cfg, s)
    && (forall p :: TrackerAt(cfg, s, p))
    && (forall m :: m in s.acked ==> InSession(cfg, s, m) && Settled(cfg, s, m))
    && (forall m :: m in cfg.log && m.offset <= StartOf(s, m.partition) ==> Settled(cfg, s, m))
    && (forall p, o :: (p, o) in s.requested ==> AckedUpTo(cfg, s, p, o))
    && (forall p :: AckedUpTo(cfg, s, p, OffsetAt(s.committed, p)))
    && (forall w :: 0 <= w < |s.hands| ==> HandSafe(cfg, s, w))
    && (s.holding.Some? ==> InSession(cfg, s, s.holding.value))
    && (forall w, i :: 0 <= w < |s.pool.queues| && 0 <= i < |s.pool.queues[w]| ==>
          InSession(cfg, s, s.pool.queues[w][i]))
  }

  /** What any step can only add to. */
  ghost predicate Extends(cfg: Config, s: System, t: System) {
    && t.started == s.started && s.acked <= t.acked && s.indexed <= t.indexed
    && s.world.letters <= t.world.letters
    && forall p :: CursorOf(s, p) <= CursorOf(t, p)
  }

  lemma LettersStay(a: seq<Letter>, b: seq<Letter>, m: Message)
    requires a <= b && InLetters(a, m)
    ensures InLetters(b, m)
  {
    var l :| l in a && Carries(l, m);
    assert l in b;
  }

  lemma ExtendsKeeps(cfg: Config, s: System, t: System)
    requires Safe(cfg, s) && Extends(cfg, s, t)
    ensures forall m :: Settled(cfg, s, m) ==> Settled(cfg, t, m)
    ensures forall m :: InSession(cfg, s, m) ==> InSession(cfg, t, m)
    ensures forall p, o :: AckedUpTo(cfg, s, p, o) ==> AckedUpTo(cfg, t, p, o)
  {
    forall m | InLetters(s.world.letters, m)
      ensures InLetters(t.world.letters, m)
    {
      LettersStay(s.world.letters, t.world.letters, m);
    }
  }

  // ----------------------------------------------------------------- each step

  lemma FetchSafe(cfg: Config, s: System, msg: Message)
    requires ProperLog(cfg) && Safe(cfg, s) && s.holding.None? && IsNext(cfg, s, msg)
    ensures Safe(cfg, FetchedNext(cfg, s, msg))
  {
    var t := FetchedNext(cfg, s, msg);
    assert TrackerAt(cfg, s, msg.partition);
    forall p
      ensures TrackerAt(cfg, t, p)
    {
      assert TrackerAt(cfg, s, p);
      if p == msg.partition {
        FetchTracker(cfg, s, msg);
      }
    }
    assert InSession(cfg, t, msg);
    FetchedSafe(cfg, s, t);
  }

  /** A step that only fetches, with the tracker in order. */
  lemma FetchedSafe(cfg: Config, s: System, t: System)
    requires Safe(cfg, s) && Shape(cfg, t) && forall p :: TrackerAt(cfg, t, p)
    requires t == s.(cursor := t.cursor, holding := t.holding, tracker := t.tracker)
    requires forall p :: CursorOf(s, p) <= CursorOf(t, p)
    requires t.holding.Some? ==> InSession(cfg, t, t.holding.value)
    ensures Safe(cfg, t)
  {
    ExtendsKeeps(cfg, s, t);
    forall w | 0 <= w < |t.hands|
      ensures HandSafe(cfg, t, w)
    {
      assert HandSafe(cfg, s, w);
    }
  }

  lemma FetchTracker(cfg: Config, s: System, msg: Message)
    requires ProperLog(cfg) && TrackerAt(cfg, s, msg.partition) && IsNext(cfg, s, msg)
    ensures TrackerAt(cfg, FetchedNext(cfg, s, msg), msg.partition)
  {
    var p := msg.partition;
    var t := FetchedNext(cfg, s, msg);
    var before, after := InFlight(cfg, s, p), InFlight(cfg, t, p);
    assert after == before + [msg.offset];
    forall m | m in cfg.log && m.partition == p && StartOf(t, p) < m.offset <= CursorOf(t, p)
      ensures m.offset in after || m in t.acked
    {
      if m.offset < msg.offset {
        assert m.offset in before || m in s.acked;
      } else {
        assert after[|before|] == msg.offset;
      }
    }
  }

  /** Steps that leave tracker, letters and history alone and only move messages
      already in the session between the loop, the queues and the workers. */
  lemma MoveSafe(cfg: Config, s: System, t: System)
    requires Safe(cfg, s) && Shape(cfg, t)
    requires t == s.(fetching := t.fetching, holding := t.holding, pool := t.pool, hands := t.hands, requested := t.requested)
    requires t.holding.Some? ==> t.holding == s.holding
    requires forall p, o :: (p, o) in t.requested ==> AckedUpTo(cfg, s, p, o)
    requires forall w :: 0 <= w < |t.hands| ==> HandSafe(cfg, t, w)
    requires forall w, i :: 0 <= w < |t.pool.queues| && 0 <= i < |t.pool.queues[w]| ==>
      InSession(cfg, s, t.pool.queues[w][i])
    ensures Safe(cfg, t)
  {
    ExtendsKeeps(cfg, s, t);
    forall p
      ensures TrackerAt(cfg, t, p)
    {
      assert TrackerAt(cfg, s, p);
    }
    forall p
      ensures AckedUpTo(cfg, t, p, OffsetAt(t.committed, p))
    {
      assert AckedUpTo(cfg, s, p, OffsetAt(s.committed, p));
    }
  }

  lemma SubmitSafe(cfg: Config, s: System)
    requires Safe(cfg, s) && CanSubmit(cfg, s)
    ensures Safe(cfg, SubmittedHeld(cfg, s))
  {
    var t := SubmittedHeld(cfg, s);
    forall w | 0 <= w < |t.hands|
      ensures HandSafe(cfg, t, w)
    {
      assert HandSafe(cfg, s, w);
    }
    MoveSafe(cfg, s, t);
  }

  lemma TakeSafe(cfg: Config, s: System, w: nat)
    requires Safe(cfg, s) && CanTake(s.pool, w)
    ensures Safe(cfg, TookUp(cfg, s, w))
  {
    var t := TookUp(cfg, s, w);
    assert InSession(cfg, s, s.pool.queues[w][0]);
    forall v | 0 <= v < |t.hands|
      ensures HandSafe(cfg, t, v)
    {
      assert HandSafe(cfg, s, v);
    }
    forall v, i | 0 <= v < |t.pool.queues| && 0 <= i < |t.pool.queues[v]|
      ensures InSession(cfg, s, t.pool.queues[v][i])
    {
      assert t.pool.queues[v][i] == s.pool.queues[v][if v == w then i + 1 else i];
    }
    MoveSafe(cfg, s, t);
  }

  lemma PutDownSafe(cfg: Config, s: System, w: nat, outcome: Outcome)
    requires Safe(cfg, s) && HasMessage(cfg, s, w)
    ensures Safe(cfg, PutDown(cfg, s, w, outcome))
  {
    var t := PutDown(cfg, s, w, outcome);
    forall v | 0 <= v < |t.hands|
      ensures HandSafe(cfg, t, v)
    {
      assert HandSafe(cfg, s, v);
    }
    MoveSafe(cfg, s, t);
  }

  lemma PoolStepSafe(cfg: Config, s: System, a: WorkerPools.Action)
    requires Safe(cfg, s) && (a.Check? || a.SeeQuit? || a.Close?)
    ensures Safe(cfg, PoolStep(cfg, s, a))
  {
    var t := PoolStep(cfg, s, a);
    forall v | 0 <= v < |t.hands|
      ensures HandSafe(cfg, t, v)
    {
      assert HandSafe(cfg, s, v);
      assert HandShape(cfg, s.pool.workers[v], s.hands[v]) && HandShape(cfg, t.pool.workers[v], t.hands[v]);
    }
    MoveSafe(cfg, s, t);
  }

  lemma AskSafe(cfg: Config, s: System, w: nat, accepted: bool)
    requires Safe(cfg, s) && HasMessage(cfg, s, w) && s.hands[w].Committing?
    ensures Safe(cfg, CommitAsked(cfg, s, w, accepted))
  {
    var t := CommitAsked(cfg, s, w, accepted);
    assert HandSafe(cfg, s, w) && HandShape(cfg, s.pool.workers[w], s.hands[w]);
    forall v | 0 <= v < |t.hands|
      ensures HandSafe(cfg, t, v)
    {
      assert HandSafe(cfg, s, v);
    }
    MoveSafe(cfg, s, t);
  }

  lemma HandleSafe(cfg: Config, s: System, w: nat, move: Move)
    requires Safe(cfg, s) && HasMessage(cfg, s, w) && s.hands[w].Working?
    ensures Safe(cfg, HandledOnce(cfg, s, w, move))
  {
    var t := HandledOnce(cfg, s, w, move);
    assert HandShape(cfg, s.pool.workers[w], s.hands[w]);
    MovedLetters(cfg.setting, MessageOf(cfg, s, w), s.hands[w].handler, s.world, move);
    ExtendsKeeps(cfg, s, t);
    forall p
      ensures TrackerAt(cfg, t, p)
    {
      assert TrackerAt(cfg, s, p);
    }
    forall v | 0 <= v < |t.hands|
      ensures HandSafe(cfg, t, v)
    {
      assert HandSafe(cfg, s, v);
      if s.pool.workers[v].Handling? && InLetters(s.world.letters, s.pool.workers[v].msg) {
        LettersStay(s.world.letters, t.world.letters, s.pool.workers[v].msg);
      }
    }
  }

  /** A handler's move never removes a letter, and reports a message dead-lettered
      only with its letter stored. */
  lemma MovedLetters(setting: Setting, msg: Message, h: Handler, w: World, m: Move)
    requires HandlerFor(setting, msg, h)
    ensures w.letters <= Moved(setting, msg, h, w, m).1.letters
    ensures
      var (g, v) := Moved(setting, msg, h, w, m);
      g == Finished(OutcomeDeadLettered) && h != g ==> InLetters(v.letters, msg)
  {
    var (g, v) := Moved(setting, msg, h, w, m);
    if g == Finished(OutcomeDeadLettered) && h != g {
      assert Carries(Last(v.letters), msg) && Last(v.letters) in v.letters;
    }
  }

  /** Draining keeps the record in order, and what it hands out ends a prefix of
      acknowledged messages. */
  lemma DrainSafe(cfg: Config, s: System, p: int, before: Offsets)
    requires ProperLog(cfg) && TrackedAs(cfg, s, p, before)
    ensures TrackedAs(cfg, s, p, Drain(before, None).0)
    ensures Drain(before, None).1.Some? ==> AckedUpTo(cfg, s, p, Drain(before, None).1.value)
  {
    var n := DrainIsSafe(before, None);
    DrainedTracked(cfg, s, p, before, Drain(before, None).0, n);
    if n > 0 {
      TakenAcked(cfg, s, p, before, n);
    }
  }

  lemma TakenAcked(cfg: Config, s: System, p: int, before: Offsets, n: nat)
    requires ProperLog(cfg) && TrackedAs(cfg, s, p, before)
    requires 0 < n <= |before.inFlight| && forall i :: 0 <= i < n ==> before.inFlight[i] in before.done
    ensures AckedUpTo(cfg, s, p, before.inFlight[n - 1])
  {
    forall m | m in cfg.log && m.partition == p && StartOf(s, p) < m.offset <= before.inFlight[n - 1]
      ensures m in s.acked
    {
      if m.offset in before.inFlight {
        var i :| 0 <= i < |before.inFlight| && before.inFlight[i] == m.offset;
        assert i < n;
      }
    }
  }

  lemma DrainedTracked(cfg: Config, s: System, p: int, before: Offsets, after: Offsets, n: nat)
    requires ProperLog(cfg) && TrackedAs(cfg, s, p, before)
    requires n <= |before.inFlight| && after.inFlight == before.inFlight[n..] && after.done <= before.done
    requires forall i :: 0 <= i < n ==> before.inFlight[i] in before.done
    ensures TrackedAs(cfg, s, p, after)
  {
    forall m | m in cfg.log && m.partition == p && StartOf(s, p) < m.offset <= CursorOf(s, p)
      ensures m.offset in after.inFlight || m in s.acked
    {
      if m !in s.acked {
        var i :| 0 <= i < |before.inFlight| && before.inFlight[i] == m.offset;
        assert i >= n;
        assert after.inFlight[i - n] == m.offset;
      }
    }
  }

  /** Marking one more offset: what leaves the tracker was acknowledged, and the
      offset handed out ends a prefix of acknowledged messages. */
  lemma MarkSafe(cfg: Config, s: System, msg: Message)
    requires ProperLog(cfg) && TrackerAt(cfg, s, msg.partition) && InSession(cfg, s, msg)
    ensures
      var (tracker, last) := Marked(s.tracker, KeyOf(cfg, msg.partition), msg.offset);
      var t := s.(tracker := tracker, acked := s.acked + {msg});
      && TrackerAt(cfg, t, msg.partition)
      && (last.Some? ==> AckedUpTo(cfg, t, msg.partition, last.value))
  {
    var key := KeyOf(cfg, msg.partition);
    if key in s.tracker {
      var t := s.(tracker := Marked(s.tracker, key, msg.offset).0, acked := s.acked + {msg});
      DrainSafe(cfg, t, msg.partition, s.tracker[key].(done := s.tracker[key].done + {msg.offset}));
    }
  }

  /** A settled message becomes acknowledged. */
  lemma MarkedSafe(cfg: Config, s: System, msg: Message, indexed: set<Message>)
    requires ProperLog(cfg) && Safe(cfg, s) && InSession(cfg, s, msg)
    requires s.indexed <= indexed
    requires msg in indexed || Skippable(cfg.setting, msg) || InLetters(s.world.letters, msg)
    ensures
      var (tracker, last) := Marked(s.tracker, KeyOf(cfg, msg.partition), msg.offset);
      var t := s.(tracker := tracker, acked := s.acked + {msg}, indexed := indexed);
      && Safe(cfg, t)
      && (last.Some? ==> AckedUpTo(cfg, t, msg.partition, last.value))
  {
    var (tracker, last) := Marked(s.tracker, KeyOf(cfg, msg.partition), msg.offset);
    var t := s.(tracker := tracker, acked := s.acked + {msg}, indexed := indexed);
    assert TrackerAt(cfg, s, msg.partition);
    MarkSafe(cfg, s, msg);
    forall p
      ensures TrackerAt(cfg, t, p)
    {
      assert TrackerAt(cfg, s, p);
      assert p != msg.partition ==> At(tracker, KeyOf(cfg, p)) == At(s.tracker, KeyOf(cfg, p));
    }
    GrowSafe(cfg, s, t, msg);
  }

  /** Acknowledging more, with the tracker in order, disturbs nothing else. */
  lemma GrowSafe(cfg: Config, s: System, t: System, msg: Message)
    requires Safe(cfg, s) && Shape(cfg, t)
    requires t == s.(tracker := t.tracker, acked := s.acked + {msg}, indexed := t.indexed)
    requires s.indexed <= t.indexed && InSession(cfg, s, msg) && Settled(cfg, t, msg)
    requires forall p :: TrackerAt(cfg, t, p)
    ensures Safe(cfg, t)
  {
    ExtendsKeeps(cfg, s, t);
    forall p
      ensures AckedUpTo(cfg, t, p, OffsetAt(t.committed, p))
    {
      assert AckedUpTo(cfg, s, p, OffsetAt(s.committed, p));
    }
    forall v | 0 <= v < |t.hands|
      ensures HandSafe(cfg, t, v)
    {
      assert HandSafe(cfg, s, v);
    }
  }

  lemma CommittingSafe(cfg: Config, s: System, w: nat, offset: int, outcome: Outcome)
    requires Safe(cfg, s) && HasMessage(cfg, s, w)
    requires AckedUpTo(cfg, s, MessageOf(cfg, s, w).partition, offset)
    ensures Safe(cfg, s.(hands := s.hands[w := Committing(offset, outcome)]))
  {
    var t := s.(hands := s.hands[w := Committing(offset, outcome)]);
    assert HandShape(cfg, s.pool.workers[w], s.hands[w]);
    forall v | 0 <= v < |t.hands|
      ensures HandSafe(cfg, t, v)
    {
      assert HandSafe(cfg, s, v);
    }
    MoveSafe(cfg, s, t);
  }

  lemma AcknowledgeSafe(cfg: Config, s: System, w: nat)
    requires ProperLog(cfg) && Safe(cfg, s) && HasMessage(cfg, s, w)
    requires s.hands[w].Working? && s.hands[w].handler.Finished? && s.hands[w].handler.outcome.Commits()
    ensures Safe(cfg, Acknowledged(cfg, s, w))
  {
    var msg := MessageOf(cfg, s, w);
    assert HandSafe(cfg, s, w) && HandShape(cfg, s.pool.workers[w], s.hands[w]);
    var (tracker, last) := Marked(s.tracker, KeyOf(cfg, msg.partition), msg.offset);
    var indexed := if s.hands[w].handler.outcome == OutcomeIndexed then s.indexed + {msg} else s.indexed;
    var t := s.(tracker := tracker, acked := s.acked + {msg}, indexed := indexed);
    MarkedSafe(cfg, s, msg, indexed);
    if last.Some? {
      CommittingSafe(cfg, t, w, last.value, s.hands[w].handler.outcome);
    } else {
      PutDownSafe(cfg, t, w, s.hands[w].handler.outcome);
    }
  }

  lemma BrokerSafe(cfg: Config, s: System, p: int, offset: int)
    requires Safe(cfg, s) && (p, offset) in s.requested
    ensures Safe(cfg, s.(committed := s.committed[p := offset]))
  {
    var t := s.(committed := s.committed[p := offset]);
    ExtendsKeeps(cfg, s, t);
    forall q
      ensures AckedUpTo(cfg, t, q, OffsetAt(t.committed, q))
    {
      assert AckedUpTo(cfg, s, q, OffsetAt(s.committed, q));
    }
    forall q
      ensures TrackerAt(cfg, t, q)
    {
      assert TrackerAt(cfg, s, q);
    }
    forall v | 0 <= v < |t.hands|
      ensures HandSafe(cfg, t, v)
    {
      assert HandSafe(cfg, s, v);
    }
  }

  lemma RestartSafe(cfg: Config, s: System, workers: nat, capacity: nat)
    requires Safe(cfg, s) && workers > 0
    ensures Safe(cfg, Session(s.world, s.committed, s.indexed, workers, capacity))
  {
    var t := Session(s.world, s.committed, s.indexed, workers, capacity);
    forall m | m in cfg.log && m.offset <= StartOf(t, m.partition)
      ensures Settled(cfg, t, m)
    {
      assert AckedUpTo(cfg, s, m.partition, OffsetAt(s.committed, m.partition));
      assert Settled(cfg, s, m);
    }
  }

  lemma NextSafe(cfg: Config, s: System, a: Protocol.Action)
    requires ProperLog(cfg) && Safe(cfg, s)
    ensures Safe(cfg, Protocol.Next(cfg, s, a))
  {
    var t := Protocol.Next(cfg, s, a);
    if t != s {
      match a {
        case Fetch(msg) => FetchSafe(cfg, s, msg);
        case Submit => SubmitSafe(cfg, s);
        case StopFetching => StopSafe(cfg, s);
        case CloseQuit => PoolStepSafe(cfg, s, Close);
        case CheckQuit(w) => PoolStepSafe(cfg, s, Check(w));
        case SeeQuit(w) => PoolStepSafe(cfg, s, WorkerPools.SeeQuit(w));
        case Take(w) => TakeSafe(cfg, s, w);
        case Handle(w, move) => HandleSafe(cfg, s, w, move);
        case Conclude(w) =>
          if s.hands[w].handler.outcome.Commits() {
            AcknowledgeSafe(cfg, s, w);
          } else {
            PutDownSafe(cfg, s, w, s.hands[w].handler.outcome);
          }
        case AskCommit(w, accepted) => AskSafe(cfg, s, w, accepted);
        case BrokerCommits(p, offset) => BrokerSafe(cfg, s, p, offset);
        case Restart(workers, capacity) => RestartSafe(cfg, s, workers, capacity);
      }
    }
  }

  lemma StopSafe(cfg: Config, s: System)
    requires Safe(cfg, s)
    ensures Safe(cfg, s.(fetching := false, holding := None))
  {
    var t := s.(fetching := false, holding := None);
    forall v | 0 <= v < |t.hands|
      ensures HandSafe(cfg, t, v)
    {
      assert HandSafe(cfg, s, v);
    }
    MoveSafe(cfg, s, t);
  }

  lemma {:induction false} RunSafe(cfg: Config, workers: nat, capacity: nat, actions: seq<Protocol.Action>)
    requires ProperLog(cfg) && workers > 0
    ensures Safe(cfg, Protocol.Run(cfg, Initial(workers, capacity), actions))
  {
    if |actions| > 0 {
      var before := actions[..|actions| - 1];
      RunSafe(cfg, workers, capacity, before);
      NextSafe(cfg, Protocol.Run(cfg, Initial(workers, capacity), before), Last(actions));
    }
  }

  /** No lost event. In every run -- any number of sessions, crashes at any moment,
      any call failing, commits in any order -- every message at or below the
      committed offset of its partition was indexed, carries nothing to index, or is
      in the dead-letter topic unchanged. */
  lemma NoLostEvent(cfg: Config, workers: nat, capacity: nat, actions: seq<Protocol.Action>, m: Message)
    requires ProperLog(cfg) && workers > 0
    requires m in cfg.log
    requires m.offset <= OffsetAt(Protocol.Run(cfg, Initial(workers, capacity), actions).committed, m.partition)
    ensures
      var s := Protocol.Run(cfg, Initial(workers, capacity), actions);
      m in s.indexed || Skippable(cfg.setting, m) || InLetters(s.world.letters, m)
  {
    RunSafe(cfg, workers, capacity, actions);
    var s := Protocol.Run(cfg, Initial(workers, capacity), actions);
    assert AckedUpTo(cfg, s, m.partition, OffsetAt(s.committed, m.partition));
    assert Settled(cfg, s, m);
  }
}
