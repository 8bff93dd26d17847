/**
 The protocol can always get on: whatever happened before, a consumer that is
 restarted and then left alone commits the whole log.
 */
module ProtocolProgress {
  import opened Prelude
  import opened RetryKinds
  import opened Errors
  import opened Stores
  import opened ChangeService
  import opened Pipelines
  import opened Handlers
  import opened WorkerPools
  import opened OffsetTracker
  import opened Protocol
  import opened ProtocolSafety
  import Retry

  lemma {:induction false} RunConcat(
    cfg: Config, s: System, actions: seq<Protocol.Action>, more: seq<Protocol.Action>)
    requires Shape(cfg, s)
    ensures
      Protocol.Run(cfg, s, actions + more) == Protocol.Run(cfg, Protocol.Run(cfg, s, actions), more)
  {
    if more == [] {
      assert actions + more == actions;
    } else {
      RunConcat(cfg, s, actions, more[..|more| - 1]);
      assert (actions + more)[..|actions + more| - 1] == actions + more[..|more| - 1];
    }
  }

  lemma RunOne(cfg: Config, s: System, a: Protocol.Action)
    requires Shape(cfg, s)
    ensures Protocol.Run(cfg, s, [a]) == Protocol.Next(cfg, s, a)
  {
    assert [a][..0] == [];
  }

  lemma RunFirst(cfg: Config, s: System, a: Protocol.Action, more: seq<Protocol.Action>)
    requires Shape(cfg, s)
    ensures Protocol.Run(cfg, s, [a] + more) == Protocol.Run(cfg, Protocol.Next(cfg, s, a), more)
  {
    RunConcat(cfg, s, [a], more);
    RunOne(cfg, s, a);
  }

  lemma RunThen(cfg: Config, s: System, actions: seq<Protocol.Action>, a: Protocol.Action)
    requires Shape(cfg, s)
    ensures Protocol.Run(cfg, s, actions + [a]) == Protocol.Next(cfg, Protocol.Run(cfg, s, actions), a)
  {
    assert (actions + [a])[..|actions|] == actions;
  }

  lemma RunThree(cfg: Config, s: System, a: Protocol.Action, b: Protocol.Action, c: Protocol.Action)
    requires Shape(cfg, s)
    ensures
      Protocol.Run(cfg, s, [a, b, c])
      == Protocol.Next(cfg, Protocol.Next(cfg, Protocol.Next(cfg, s, a), b), c)
  {
    RunOne(cfg, s, a);
    RunThen(cfg, s, [a], b);
    RunThen(cfg, s, [a, b], c);
    assert [a] + [b] == [a, b] && [a, b] + [c] == [a, b, c];
  }

  // --------------------------------------------------------------- one message

  /** A session of one worker with nothing fetched that is not committed. */
  ghost predicate Idle(cfg: Config, s: System) {
    && Shape(cfg, s) && s.fetching && s.holding.None?
    && |s.hands| == 1 && s.hands[0].Empty? && s.pool.workers[0].Checking?
    && s.pool.queues[0] == [] && s.pool.capacity > 0 && !s.pool.quit
    && forall p :: OffsetAt(s.cursor, p) == OffsetAt(s.committed, p) && At(s.tracker, KeyOf(cfg, p)) == Nothing
  }

  /** Its one worker holds the message, and nothing else is in flight. */
  ghost predicate Busy(cfg: Config, s: System, msg: Message, h: Handler) {
    && Shape(cfg, s) && s.fetching && s.holding.None?
    && |s.hands| == 1 && s.hands[0] == Working(h) && s.pool.workers[0] == Handling(msg)
    && s.pool.queues[0] == [] && s.pool.capacity > 0 && !s.pool.quit
    && OffsetAt(s.cursor, msg.partition) == msg.offset
    && At(s.tracker, KeyOf(cfg, msg.partition)) == Offsets([msg.offset], {})
    && forall p :: p != msg.partition ==>
         OffsetAt(s.cursor, p) == OffsetAt(s.committed, p) && At(s.tracker, KeyOf(cfg, p)) == Nothing
  }

  lemma IdleFetches(cfg: Config, s: System, msg: Message) returns (t: System)
    requires ProperLog(cfg) && Idle(cfg, s) && IsNext(cfg, s, msg)
    ensures Busy(cfg, t, msg, Decoding) && t.cursor == s.cursor[msg.partition := msg.offset]
    ensures
      Protocol.Run(cfg, s, [Fetch(msg), Protocol.Submit, CheckQuit(0)] + [Protocol.Take(0)]) == t
  {
    var s1 := FetchedNext(cfg, s, msg);
    var s2 := SubmittedHeld(cfg, s1);
    var s3 := PoolStep(cfg, s2, Check(0));
    t := TookUp(cfg, s3, 0);
    assert Protocol.Next(cfg, s, Fetch(msg)) == s1;
    assert Protocol.Next(cfg, s1, Protocol.Submit) == s2;
    assert Protocol.Next(cfg, s2, CheckQuit(0)) == s3;
    assert Protocol.Next(cfg, s3, Protocol.Take(0)) == t;
    RunThree(cfg, s, Fetch(msg), Protocol.Submit, CheckQuit(0));
    RunThen(cfg, s, [Fetch(msg), Protocol.Submit, CheckQuit(0)], Protocol.Take(0));
  }

  /** The worker makes the handler's moves. */
  lemma {:induction false} BusyHandles(cfg: Config, s: System, msg: Message, h: Handler, ms: seq<Move>)
    returns (actions: seq<Protocol.Action>, t: System)
    requires Busy(cfg, s, msg, h)
    ensures Protocol.Run(cfg, s, actions) == t && t.cursor == s.cursor
    ensures HandlerFor(cfg.setting, msg, h) && Busy(cfg, t, msg, MovedBy(cfg.setting, msg, h, s.world, ms).0)
    decreases |ms|
  {
    assert HandShape(cfg, s.pool.workers[0], s.hands[0]);
    if ms == [] {
      actions, t := [], s;
    } else {
      var a := Handle(0, ms[0]);
      var next := Protocol.Next(cfg, s, a);
      assert next == HandledOnce(cfg, s, 0, ms[0]);
      var rest, u := BusyHandles(cfg, next, msg, Moved(cfg.setting, msg, h, s.world, ms[0]).0, ms[1..]);
      RunFirst(cfg, s, a, rest);
      actions, t := [a] + rest, u;
    }
  }

  lemma LoneMark(t: Tracked, key: TopicPartition, offset: int)
    requires key in t && t[key] == Offsets([offset], {})
    ensures Marked(t, key, offset) == (t[key := Nothing], Some(offset))
  {
    var p := Offsets([offset], {} + {offset});
    assert Drain(p, None) == Drain(Nothing, Some(offset)) by {
      assert [offset][1..] == [] && {} + {offset} - {offset} == {};
    }
  }

  /** The message is acknowledged, and nothing is in flight any more. */
  ghost predicate Asking(cfg: Config, s: System, msg: Message) {
    && Shape(cfg, s) && s.fetching && s.holding.None?
    && |s.hands| == 1 && s.hands[0].Committing? && s.hands[0].offset == msg.offset && s.pool.workers[0] == Handling(msg)
    && s.pool.queues[0] == [] && s.pool.capacity > 0 && !s.pool.quit
    && OffsetAt(s.cursor, msg.partition) == msg.offset
    && (forall p :: At(s.tracker, KeyOf(cfg, p)) == Nothing)
    && forall p :: p != msg.partition ==> OffsetAt(s.cursor, p) == OffsetAt(s.committed, p)
  }

  lemma BusyAcknowledges(cfg: Config, s: System, msg: Message, outcome: Outcome) returns (t: System)
    requires Busy(cfg, s, msg, Finished(outcome)) && outcome.Commits()
    ensures t == Protocol.Next(cfg, s, Conclude(0)) && Asking(cfg, t, msg) && t.cursor == s.cursor
  {
    assert HandShape(cfg, s.pool.workers[0], s.hands[0]);
    LoneMark(s.tracker, KeyOf(cfg, msg.partition), msg.offset);
    t := Acknowledged(cfg, s, 0);
  }

  lemma AskingCommits(cfg: Config, s: System, msg: Message) returns (t: System)
    requires Asking(cfg, s, msg)
    ensures
      t == Protocol.Next(
        cfg, Protocol.Next(cfg, s, AskCommit(0, true)), BrokerCommits(msg.partition, msg.offset))
    ensures Idle(cfg, t) && t.cursor == s.cursor
  {
    assert HandShape(cfg, s.pool.workers[0], s.hands[0]);
    var s1 := CommitAsked(cfg, s, 0, true);
    t := s1.(committed := s1.committed[msg.partition := msg.offset]);
  }

  /** What it finished is acknowledged and committed. */
  lemma BusyCommits(cfg: Config, s: System, msg: Message, outcome: Outcome) returns (t: System)
    requires Busy(cfg, s, msg, Finished(outcome)) && outcome.Commits()
    ensures Idle(cfg, t) && t.cursor == s.cursor
    ensures
      Protocol.Run(cfg, s, [Conclude(0), AskCommit(0, true), BrokerCommits(msg.partition, msg.offset)]) == t
  {
    var asking := BusyAcknowledges(cfg, s, msg, outcome);
    t := AskingCommits(cfg, asking, msg);
    RunThree(cfg, s, Conclude(0), AskCommit(0, true), BrokerCommits(msg.partition, msg.offset));
  }

  /** Calls that all succeed, and a context that stays live. */
  const Calm := Env(
    Retry.Context(Other(None), None, _ => 0, _ => false),
    _ => Calls(None, Succeeds, Succeeds, Succeeds, Succeeds, Succeeds, Succeeds),
    Succeeds)

  /** Undisturbed, a message comes to an outcome that commits. */
  lemma CalmCommits(setting: Setting, w: World, msg: Message)
    ensures Handled(setting, Calm, w, msg).1.outcome.Commits()
  {
  }

  lemma HandlesNext(cfg: Config, s: System, msg: Message)
    returns (actions: seq<Protocol.Action>, t: System)
    requires ProperLog(cfg) && Idle(cfg, s) && IsNext(cfg, s, msg)
    ensures Protocol.Run(cfg, s, actions) == t
    ensures Idle(cfg, t) && t.cursor == s.cursor[msg.partition := msg.offset]
  {
    var fetched := IdleFetches(cfg, s, msg);
    var ms := HandledIsMoves(cfg.setting, Calm, fetched.world, msg);
    CalmCommits(cfg.setting, fetched.world, msg);
    var handling, handled := BusyHandles(cfg, fetched, msg, Decoding, ms);
    t := BusyCommits(cfg, handled, msg, Handled(cfg.setting, Calm, fetched.world, msg).1.outcome);
    var first := [Fetch(msg), Protocol.Submit, CheckQuit(0)] + [Protocol.Take(0)];
    var last := [Conclude(0), AskCommit(0, true), BrokerCommits(msg.partition, msg.offset)];
    actions := first + handling + last;
    RunConcat(cfg, s, first, handling);
    RunConcat(cfg, s, first + handling, last);
  }

  // --------------------------------------------------------------- the whole log

  ghost function Pending(cfg: Config, s: System): set<Message> {
    set m | m in cfg.log && m.offset > OffsetAt(s.cursor, m.partition)
  }

  lemma {:induction false} NextExists(cfg: Config, s: System, rest: set<Message>, m: Message) returns (next: Message)
    requires m in Pending(cfg, s)
    requires forall n :: n in Pending(cfg, s) && n.partition == m.partition && n.offset < m.offset ==> n in rest
    ensures IsNext(cfg, s, next)
    decreases rest
  {
    if n :| n in rest && n in Pending(cfg, s) && n.partition == m.partition && n.offset < m.offset {
      next := NextExists(cfg, s, rest - {n}, n);
    } else {
      next := m;
    }
  }

  lemma {:induction false} IdleCatchesUp(cfg: Config, s: System) returns (actions: seq<Protocol.Action>)
    requires ProperLog(cfg) && Idle(cfg, s)
    ensures
      var t := Protocol.Run(cfg, s, actions);
      forall m :: m in cfg.log ==> m.offset <= OffsetAt(t.committed, m.partition)
    decreases Pending(cfg, s)
  {
    actions := [];
    if m :| m in Pending(cfg, s) {
      var next := NextExists(cfg, s, Pending(cfg, s), m);
      var one, t := HandlesNext(cfg, s, next);
      assert next in Pending(cfg, s) && next !in Pending(cfg, t);
      assert Pending(cfg, t) <= Pending(cfg, s);
      var more := IdleCatchesUp(cfg, t);
      RunConcat(cfg, s, one, more);
      actions := one + more;
    } else {
      assert forall m :: m in cfg.log ==> m in Pending(cfg, s) || m.offset <= OffsetAt(s.committed, m.partition);
    }
  }

  lemma RestartsIdle(cfg: Config, s: System)
    requires Shape(cfg, s)
    ensures Idle(cfg, Protocol.Next(cfg, s, Restart(1, 1)))
  {
  }

  /** No run ends up stuck: from wherever crashes, failures and cancellations left
      it, some continuation commits every message of the log. */
  lemma EveryRunCanCatchUp(cfg: Config, workers: nat, capacity: nat, actions: seq<Protocol.Action>)
    returns (more: seq<Protocol.Action>)
    requires ProperLog(cfg) && workers > 0
    ensures
      var t := Protocol.Run(cfg, Initial(workers, capacity), actions + more);
      forall m :: m in cfg.log ==> m.offset <= OffsetAt(t.committed, m.partition)
  {
    var start := Initial(workers, capacity);
    var s := Protocol.Run(cfg, start, actions);
    RestartsIdle(cfg, s);
    var rest := IdleCatchesUp(cfg, Protocol.Next(cfg, s, Restart(1, 1)));
    more := [Restart(1, 1)] + rest;
    RunFirst(cfg, s, Restart(1, 1), rest);
    RunConcat(cfg, start, actions, more);
  }
}
