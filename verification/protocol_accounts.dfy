/** Within a session every message fetched and every message handed to the pool is
    accounted for. */
module ProtocolAccounts {
  import opened Prelude
  import opened Pipelines
  import opened Handlers
  import opened WorkerPools
  import opened OffsetTracker
  import opened Protocol
  import opened ProtocolSafety

  ghost predicate Serves(cfg: Config, p: Pool) {
    Serial(p) && Routed(cfg.hash, p)
  }

  /** Each step of the system is a step of its pool, or none, or opens a new one. */
  lemma NextServes(cfg: Config, s: System, a: Protocol.Action)
    requires Shape(cfg, s) && Serves(cfg, s.pool)
    ensures Serves(cfg, Protocol.Next(cfg, s, a).pool)
  {
    match a {
      case Submit => SubmitServes(cfg, s);
      case Take(w) => NextKeeps(cfg.hash, s.pool, WorkerPools.Take(w));
      case CloseQuit => NextKeeps(cfg.hash, s.pool, Close);
      case CheckQuit(w) => NextKeeps(cfg.hash, s.pool, Check(w));
      case SeeQuit(w) => NextKeeps(cfg.hash, s.pool, WorkerPools.SeeQuit(w));
      case Conclude(w) => ConcludeServes(cfg, s, w);
      case AskCommit(w, accepted) => AskServes(cfg, s, w, accepted);
      case Restart(workers, capacity) => OpenedServes(cfg.hash, workers, capacity);
      case _ =>
    }
  }

  lemma SubmitServes(cfg: Config, s: System)
    requires Shape(cfg, s) && Serves(cfg, s.pool)
    ensures Serves(cfg, Protocol.Next(cfg, s, Protocol.Submit).pool)
  {
    if CanSubmit(cfg, s) {
      NextKeeps(cfg.hash, s.pool, WorkerPools.Submit(s.holding.value));
    }
  }

  lemma ConcludeServes(cfg: Config, s: System, w: nat)
    requires Shape(cfg, s) && Serves(cfg, s.pool)
    ensures Serves(cfg, Protocol.Next(cfg, s, Conclude(w)).pool)
  {
    if HasMessage(cfg, s, w) && s.hands[w].Working? && s.hands[w].handler.Finished? {
      PutDownServes(cfg, s, w, s.hands[w].handler.outcome);
    }
  }

  lemma AskServes(cfg: Config, s: System, w: nat, accepted: bool)
    requires Shape(cfg, s) && Serves(cfg, s.pool)
    ensures Serves(cfg, Protocol.Next(cfg, s, AskCommit(w, accepted)).pool)
  {
    if HasMessage(cfg, s, w) && s.hands[w].Committing? {
      PutDownServes(cfg, s, w, s.hands[w].outcome);
    }
  }

  lemma PutDownServes(cfg: Config, s: System, w: nat, outcome: Pipelines.Outcome)
    requires Shape(cfg, s) && HasMessage(cfg, s, w) && Serves(cfg, s.pool)
    ensures Serves(cfg, WorkerPools.Returned(s.pool, w, outcome))
  {
    assert HandShape(cfg, s.pool.workers[w], s.hands[w]);
    NextKeeps(cfg.hash, s.pool, Return(w, outcome));
  }

  lemma {:induction false} RunServes(cfg: Config, workers: nat, capacity: nat, actions: seq<Protocol.Action>)
    requires workers > 0
    ensures Serves(cfg, Protocol.Run(cfg, Initial(workers, capacity), actions).pool)
  {
    if |actions| == 0 {
      OpenedServes(cfg.hash, workers, capacity);
    } else {
      var before := actions[..|actions| - 1];
      RunServes(cfg, workers, capacity, before);
      NextServes(cfg, Protocol.Run(cfg, Initial(workers, capacity), before), Last(actions));
    }
  }

  /** In every run, the messages submitted in the present session are those queued,
      those with a worker, and those that ended in each of the five outcomes. */
  lemma EveryMessageAccounted(cfg: Config, workers: nat, capacity: nat, actions: seq<Protocol.Action>)
    requires workers > 0
    ensures Accounted(Protocol.Run(cfg, Initial(workers, capacity), actions).pool)
  {
    RunServes(cfg, workers, capacity, actions);
    SerialAccounted(Protocol.Run(cfg, Initial(workers, capacity), actions).pool);
  }

  /** The message was handed to the pool in this session. */
  ghost predicate Handed(s: System, m: Message) {
    exists w, i :: 0 <= w < |s.pool.submitted| && 0 <= i < |s.pool.submitted[w]| && s.pool.submitted[w][i] == m
  }

  /** Whatever this session fetched was handed to the pool, or is the one message that
      waits to be, unless fetching has stopped. */
  ghost predicate NoneSlipped(cfg: Config, s: System) {
    && Shape(cfg, s)
    && forall m :: InSession(cfg, s, m) ==> Handed(s, m) || s.holding == Some(m) || !s.fetching
  }

  /** A step that fetches nothing, hands nothing over and forgets nothing. */
  predicate Quiet(s: System, t: System) {
    && t.started == s.started && t.cursor == s.cursor && t.pool.submitted == s.pool.submitted
    && ((t.fetching == s.fetching && t.holding == s.holding) || !t.fetching)
  }

  lemma QuietSlipsNone(cfg: Config, s: System, t: System)
    requires NoneSlipped(cfg, s) && Shape(cfg, t) && Quiet(s, t)
    ensures NoneSlipped(cfg, t)
  {
    forall m | InSession(cfg, t, m)
      ensures Handed(t, m) || t.holding == Some(m) || !t.fetching
    {
      assert InSession(cfg, s, m);
    }
  }

  lemma ConcludeIsQuiet(cfg: Config, s: System, w: nat)
    requires Shape(cfg, s)
    ensures Quiet(s, Protocol.Next(cfg, s, Conclude(w)))
  {
    if HasMessage(cfg, s, w) && s.hands[w].Working? && s.hands[w].handler.Finished? {
      if s.hands[w].handler.outcome.Commits() {
        AcknowledgingIsQuiet(cfg, s, w);
      } else {
        PuttingDownIsQuiet(cfg, s, w, s.hands[w].handler.outcome);
      }
    }
  }

  lemma AcknowledgingIsQuiet(cfg: Config, s: System, w: nat)
    requires Shape(cfg, s) && HasMessage(cfg, s, w) && s.hands[w].Working? && s.hands[w].handler.Finished?
    ensures Quiet(s, Acknowledged(cfg, s, w))
  {
  }

  lemma PuttingDownIsQuiet(cfg: Config, s: System, w: nat, outcome: Pipelines.Outcome)
    requires Shape(cfg, s) && HasMessage(cfg, s, w)
    ensures Quiet(s, PutDown(cfg, s, w, outcome))
  {
  }

  lemma OthersAreQuiet(cfg: Config, s: System, a: Protocol.Action)
    requires Shape(cfg, s) && !a.Fetch? && !a.Submit? && !a.Restart? && !a.Conclude?
    ensures Quiet(s, Protocol.Next(cfg, s, a))
  {
  }

  lemma NextSlipsNone(cfg: Config, s: System, a: Protocol.Action)
    requires ProperLog(cfg) && NoneSlipped(cfg, s)
    ensures NoneSlipped(cfg, Protocol.Next(cfg, s, a))
  {
    match a {
      case Fetch(msg) =>
        forall m | InSession(cfg, Protocol.Next(cfg, s, a), m)
          ensures
            var t := Protocol.Next(cfg, s, a);
            Handed(t, m) || t.holding == Some(m) || !t.fetching
        {
          FetchSlipsNone(cfg, s, msg, m);
        }
      case Submit => SubmitSlipsNone(cfg, s);
      case Restart(workers, capacity) => RestartSlipsNone(cfg, s, workers, capacity);
      case Conclude(w) =>
        ConcludeIsQuiet(cfg, s, w);
        QuietSlipsNone(cfg, s, Protocol.Next(cfg, s, a));
      case _ =>
        OthersAreQuiet(cfg, s, a);
        QuietSlipsNone(cfg, s, Protocol.Next(cfg, s, a));
    }
  }

  lemma RestartSlipsNone(cfg: Config, s: System, workers: nat, capacity: nat)
    requires NoneSlipped(cfg, s)
    ensures NoneSlipped(cfg, Protocol.Next(cfg, s, Restart(workers, capacity)))
  {
  }

  lemma FetchSlipsNone(cfg: Config, s: System, msg: Message, m: Message)
    requires ProperLog(cfg) && NoneSlipped(cfg, s) && InSession(cfg, Protocol.Next(cfg, s, Fetch(msg)), m)
    ensures
      var t := Protocol.Next(cfg, s, Fetch(msg));
      Handed(t, m) || t.holding == Some(m) || !t.fetching
  {
    if s.fetching && s.holding.None? && IsNext(cfg, s, msg) && m != msg {
      assert InSession(cfg, s, m);
    }
  }

  lemma SubmitSlipsNone(cfg: Config, s: System)
    requires NoneSlipped(cfg, s)
    ensures NoneSlipped(cfg, Protocol.Next(cfg, s, Protocol.Submit))
  {
    if CanSubmit(cfg, s) {
      var msg := s.holding.value;
      var w, t := Route(cfg.hash, |s.hands|, msg), SubmittedHeld(cfg, s);
      assert t.pool.submitted[w] == s.pool.submitted[w] + [msg];
      assert t.pool.submitted[w][|s.pool.submitted[w]|] == msg;
      forall m | Handed(s, m)
        ensures Handed(t, m)
      {
        var v, i :| 0 <= v < |s.pool.submitted| && 0 <= i < |s.pool.submitted[v]| && s.pool.submitted[v][i] == m;
        assert t.pool.submitted[v][i] == m;
      }
    }
  }

  /** In every run, while a session fetches, at most one of the messages it has fetched is
      not with the pool yet. */
  lemma {:induction false} RunSlipsNone(cfg: Config, workers: nat, capacity: nat, actions: seq<Protocol.Action>)
    requires ProperLog(cfg) && workers > 0
    ensures NoneSlipped(cfg, Protocol.Run(cfg, Initial(workers, capacity), actions))
  {
    if |actions| > 0 {
      var before := actions[..|actions| - 1];
      RunSlipsNone(cfg, workers, capacity, before);
      NextSlipsNone(cfg, Protocol.Run(cfg, Initial(workers, capacity), before), Last(actions));
    }
  }
}
