/**
 The whole consumer: a partitioned log, the broker's committed offsets, the fetch
 loop, the tracker, the worker pool, the handlers with their store calls, commits
 that may arrive in any order, and crashes at any moment.
 */
module Protocol {
  import opened Prelude
  import opened Errors
  import opened Stores
  import opened Events
  import opened ChangeService
  import opened Pipelines
  import opened Handlers
  import opened WorkerPools
  import opened OffsetTracker

  /** What does not change: the settings, and every message the topic ever holds. */
  datatype Config = Config(setting: Setting, hash: string -> nat, topic: string, log: set<Message>)

  /** What a worker is doing with the message it took. */
  datatype Hand = Empty | Working(handler: Handler) | Committing(offset: int, outcome: Outcome)

  /** The stores, the letters and the committed offsets survive a crash; the rest
      belongs to one session. The last two fields are history: what was ever indexed,
      and what this session acknowledged. */
  datatype System = System(
    world: World, committed: map<int, int>,
    started: map<int, int>, cursor: map<int, int>, fetching: bool, holding: Option<Message>,
    tracker: Tracked, pool: Pool, hands: seq<Hand>, requested: set<(int, int)>,
    indexed: set<Message>, acked: set<Message>)

  /** A partition's offset; -1 stands before its first message. */
  function OffsetAt(offsets: map<int, int>, partition: int): int {
    if partition in offsets then offsets[partition] else -1
  }

  function KeyOf(cfg: Config, partition: int): TopicPartition {
    TopicPartition(cfg.topic, partition)
  }

  /** A session that continues after the committed offsets. */
  function Session(
    world: World, committed: map<int, int>, indexed: set<Message>, workers: nat, capacity: nat): System
  {
    System(world, committed, committed, committed, true, None, map[], Opened(workers, capacity),
           seq(workers, _ => Empty), {}, indexed, {})
  }

  function Initial(workers: nat, capacity: nat): System {
    Session(World(Both(map[], map[]), []), map[], {}, workers, capacity)
  }

  datatype Action =
    | Fetch(msg: Message)                       // the next message of a partition
    | Submit                                    // the held message finds room
    | StopFetching                              // cancelled, refused or out of patience
    | CloseQuit
    | CheckQuit(worker: nat)
    | SeeQuit(worker: nat)
    | Take(worker: nat)
    | Handle(worker: nat, move: Move)           // one call of the message in hand
    | Conclude(worker: nat)                     // the handler returned
    | AskCommit(worker: nat, accepted: bool)
    | BrokerCommits(partition: int, offset: int)
    | Restart(workers: nat, capacity: nat)      // after a crash or a shutdown

  /** Workers have a hand exactly when they have a message, and handlers are where
      handlers of their message can be. */
  ghost predicate Shape(cfg: Config, s: System) {
    && Shaped(s.pool) && |s.hands| == |s.pool.workers| > 0
    && forall w :: 0 <= w < |s.hands| ==> HandShape(cfg, s.pool.workers[w], s.hands[w])
  }

  ghost predicate HandShape(cfg: Config, worker: Worker, hand: Hand) {
    && (hand.Empty? <==> !worker.Handling?)
    && (hand.Working? ==> HandlerFor(cfg.setting, worker.msg, hand.handler))
  }

  /** The next message of its partition to be fetched. */
  ghost predicate IsNext(cfg: Config, s: System, msg: Message) {
    && msg in cfg.log && OffsetAt(s.cursor, msg.partition) < msg.offset
    && forall m :: m in cfg.log && m.partition == msg.partition && m.offset < msg.offset ==>
         m.offset <= OffsetAt(s.cursor, msg.partition)
  }

  /** Tracked before it is submitted. */
  function FetchedNext(cfg: Config, s: System, msg: Message): System {
    s.(cursor := s.cursor[msg.partition := msg.offset], holding := Some(msg),
       tracker := Added(s.tracker, KeyOf(cfg, msg.partition), msg.offset))
  }

  ghost predicate CanSubmit(cfg: Config, s: System)
    requires Shape(cfg, s)
  {
    && s.holding.Some? && s.holding.value.offset >= 0
    && HasRoom(s.pool, Route(cfg.hash, |s.hands|, s.holding.value))
  }

  ghost function SubmittedHeld(cfg: Config, s: System): (t: System)
    requires Shape(cfg, s) && CanSubmit(cfg, s)
    ensures Shape(cfg, t)
  {
    var msg := s.holding.value;
    s.(holding := None, pool := Submitted(s.pool, Route(cfg.hash, |s.hands|, msg), msg))
  }

  ghost predicate HasMessage(cfg: Config, s: System, w: nat)
    requires Shape(cfg, s)
  {
    w < |s.hands| && !s.hands[w].Empty?
  }

  ghost function MessageOf(cfg: Config, s: System, w: nat): Message
    requires Shape(cfg, s) && HasMessage(cfg, s, w)
  {
    assert HandShape(cfg, s.pool.workers[w], s.hands[w]);
    s.pool.workers[w].msg
  }

  ghost function TookUp(cfg: Config, s: System, w: nat): (t: System)
    requires Shape(cfg, s) && CanTake(s.pool, w)
    ensures Shape(cfg, t)
  {
    s.(pool := Taken(s.pool, w), hands := s.hands[w := Working(Decoding)])
  }

  ghost function PutDown(cfg: Config, s: System, w: nat, outcome: Outcome): (t: System)
    requires Shape(cfg, s) && HasMessage(cfg, s, w)
    ensures Shape(cfg, t)
  {
    assert HandShape(cfg, s.pool.workers[w], s.hands[w]);
    s.(pool := WorkerPools.Returned(s.pool, w, outcome), hands := s.hands[w := Empty])
  }

  ghost function HandledOnce(cfg: Config, s: System, w: nat, move: Move): (t: System)
    requires Shape(cfg, s) && HasMessage(cfg, s, w) && s.hands[w].Working?
    ensures Shape(cfg, t)
  {
    assert HandShape(cfg, s.pool.workers[w], s.hands[w]);
    var (h, world) := Moved(cfg.setting, MessageOf(cfg, s, w), s.hands[w].handler, s.world, move);
    s.(world := world, hands := s.hands[w := Working(h)])
  }

  /** Acknowledge a message: mark its offset done, and go on to commit when that
      finished a prefix. */
  ghost function Acknowledged(cfg: Config, s: System, w: nat): (t: System)
    requires Shape(cfg, s) && HasMessage(cfg, s, w) && s.hands[w].Working? && s.hands[w].handler.Finished?
    ensures Shape(cfg, t)
  {
    assert HandShape(cfg, s.pool.workers[w], s.hands[w]);
    var msg := MessageOf(cfg, s, w);
    var (tracker, last) := Marked(s.tracker, KeyOf(cfg, msg.partition), msg.offset);
    var indexed := if s.hands[w].handler.outcome == OutcomeIndexed then s.indexed + {msg} else s.indexed;
    var t := s.(tracker := tracker, acked := s.acked + {msg}, indexed := indexed);
    if last.Some? then t.(hands := s.hands[w := Committing(last.value, s.hands[w].handler.outcome)])
    else PutDown(cfg, t, w, s.hands[w].handler.outcome)
  }

  /** The commit of a finished prefix was handed to the reader, or refused by it. */
  ghost function CommitAsked(cfg: Config, s: System, w: nat, accepted: bool): (t: System)
    requires Shape(cfg, s) && HasMessage(cfg, s, w) && s.hands[w].Committing?
    ensures Shape(cfg, t)
  {
    var asked := {(MessageOf(cfg, s, w).partition, s.hands[w].offset)};
    PutDown(cfg, s.(requested := if accepted then s.requested + asked else s.requested), w, s.hands[w].outcome)
  }

  /** A step of a worker's loop, or the pool's quit, that moves no message. */
  ghost function PoolStep(cfg: Config, s: System, a: WorkerPools.Action): (t: System)
    requires Shape(cfg, s) && (a.Check? || a.SeeQuit? || a.Close?)
    ensures Shape(cfg, t)
  {
    s.(pool := WorkerPools.Next(cfg.hash, s.pool, a))
  }

  /** One step of the system; a step that is not possible changes nothing. */
  ghost function Next(cfg: Config, s: System, a: Action): (t: System)
    requires Shape(cfg, s)
    ensures Shape(cfg, t)
  {
    match a
    case Fetch(msg) => if s.fetching && s.holding.None? && IsNext(cfg, s, msg) then FetchedNext(cfg, s, msg) else s
    case Submit => if CanSubmit(cfg, s) then SubmittedHeld(cfg, s) else s
    case StopFetching => s.(fetching := false, holding := None)
    case CloseQuit => PoolStep(cfg, s, Close)
    case CheckQuit(w) => PoolStep(cfg, s, Check(w))
    case SeeQuit(w) => PoolStep(cfg, s, WorkerPools.SeeQuit(w))
    case Take(w) => if CanTake(s.pool, w) then TookUp(cfg, s, w) else s
    case Handle(w, move) =>
      if HasMessage(cfg, s, w) && s.hands[w].Working? then HandledOnce(cfg, s, w, move) else s
    case Conclude(w) =>
      if HasMessage(cfg, s, w) && s.hands[w].Working? && s.hands[w].handler.Finished? then
        if s.hands[w].handler.outcome.Commits() then Acknowledged(cfg, s, w)
        else PutDown(cfg, s, w, s.hands[w].handler.outcome)
      else s
    case AskCommit(w, accepted) =>
      if HasMessage(cfg, s, w) && s.hands[w].Committing? then CommitAsked(cfg, s, w, accepted) else s
    case BrokerCommits(p, offset) => if (p, offset) in s.requested then s.(committed := s.committed[p := offset]) else s
    case Restart(workers, capacity) =>
      if workers > 0 then Session(s.world, s.committed, s.indexed, workers, capacity) else s
  }

  ghost function Run(cfg: Config, s: System, actions: seq<Action>): (t: System)
    requires Shape(cfg, s)
    ensures Shape(cfg, t)
  {
    if |actions| == 0 then s else Next(cfg, Run(cfg, s, actions[..|actions| - 1]), Last(actions))
  }
}
