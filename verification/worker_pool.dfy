/**
 The worker pool: bounded queues, one worker each, messages routed by key, and a
 shutdown that starts nothing new.
 */
module WorkerPools {
  import opened Prelude
  import opened Pipelines

  /** Where a worker's loop is: about to look at quit on its own, waiting for a
      message or quit, handling a message, or returned. */
  datatype Worker = Checking | Waiting | Handling(msg: Message) | Gone

  /** The pool, with the history of each queue: what was submitted to it, and what
      its worker started and finished, and with what outcome. */
  datatype Pool = Pool(
    capacity: nat, queues: seq<seq<Message>>, workers: seq<Worker>, quit: bool,
    submitted: seq<seq<Message>>, started: seq<seq<Message>>, finished: seq<seq<Message>>,
    outcomes: seq<seq<Outcome>>)

  /** Messages go to a worker by key, or by offset when they have none. The key's
      hash is a 32-bit number. */
  function Route(hash: string -> nat, workers: nat, msg: Message): nat
    requires workers > 0 && msg.offset >= 0
  {
    if msg.key == "" then msg.offset % workers else hash(msg.key) % workers
  }

  function QueueCapacity(workers: nat, queueSize: nat): nat
    requires workers > 0
  {
    var share := queueSize / workers;
    if share > 1 then share else 1
  }

  function Opened(workers: nat, capacity: nat): Pool {
    var empty := seq(workers, _ => []);
    Pool(capacity, empty, seq(workers, _ => Checking), false, empty, empty, empty, seq(workers, _ => []))
  }

  predicate Shaped(p: Pool) {
    && |p.queues| == |p.workers| == |p.submitted| == |p.started| == |p.finished| == |p.outcomes|
  }

  /** Messages without a key go round: one with offset o and the next go to neighbouring
      workers, and after as many as there are workers it starts again. */
  lemma KeylessGoRound(hash: string -> nat, workers: nat, msg: Message, next: Message)
    requires workers > 0 && msg.offset >= 0 && msg.key == "" && next.key == "" && next.offset == msg.offset + 1
    ensures msg.offset < workers ==> Route(hash, workers, msg) == msg.offset
    ensures
      Route(hash, workers, next)
      == if Route(hash, workers, msg) + 1 == workers then 0 else Route(hash, workers, msg) + 1
  {
    var q := msg.offset / workers;
    assert msg.offset + 1 == q * workers + (msg.offset % workers + 1);
    if msg.offset % workers + 1 == workers {
      ModAt(msg.offset + 1, q + 1, 0, workers);
    } else {
      ModAt(msg.offset + 1, q, msg.offset % workers + 1, workers);
    }
  }

  lemma ModAt(x: int, q: int, r: nat, n: nat)
    requires r < n && x == q * n + r
    ensures x % n == r
  {
    var d, m := x / n, x % n;
    assert x == d * n + m;
    Apart(d, q, n);
    Apart(q, d, n);
  }

  lemma Apart(a: int, b: int, n: nat)
    ensures a > b ==> a * n >= b * n + n
  {
    if a > b {
      var more: nat := a - b - 1;
      Distributes(b, 1 + more, n);
      Distributes(1, more, n);
    }
  }

  lemma Distributes(a: int, b: nat, n: nat)
    ensures (a + b) * n == a * n + b * n && b * n >= 0
  {
  }

  /** Each queue's capacity is its even share of the queue size, rounded down, and one
      where that is none. */
  lemma EvenShare(workers: nat, queueSize: nat)
    requires workers > 0
    ensures QueueCapacity(workers, queueSize) >= 1
    ensures workers <= queueSize ==>
      var c := QueueCapacity(workers, queueSize);
      workers * c <= queueSize < workers * (c + 1)
    ensures queueSize < workers ==> QueueCapacity(workers, queueSize) == 1
  {
    assert queueSize == workers * (queueSize / workers) + queueSize % workers;
  }

  // --------------------------------------------------------------- atomic steps

  /** A send that found room. */
  function Submitted(p: Pool, w: nat, msg: Message): Pool
    requires Shaped(p) && w < |p.queues|
  {
    p.(queues := p.queues[w := p.queues[w] + [msg]], submitted := p.submitted[w := p.submitted[w] + [msg]])
  }

  predicate HasRoom(p: Pool, w: nat)
    requires Shaped(p) && w < |p.queues|
  {
    |p.queues[w]| < p.capacity
  }

  function Checked(p: Pool, w: nat): Pool
    requires Shaped(p) && w < |p.workers|
  {
    p.(workers := p.workers[w := if p.quit then Gone else Waiting])
  }

  function SawQuit(p: Pool, w: nat): Pool
    requires Shaped(p) && w < |p.workers|
  {
    p.(workers := p.workers[w := Gone])
  }

  predicate CanTake(p: Pool, w: nat)
    requires Shaped(p)
  {
    w < |p.workers| && p.workers[w].Waiting? && |p.queues[w]| > 0
  }

  function Taken(p: Pool, w: nat): Pool
    requires Shaped(p) && CanTake(p, w)
  {
    var msg := p.queues[w][0];
    p.(queues := p.queues[w := p.queues[w][1..]], workers := p.workers[w := Handling(msg)],
       started := p.started[w := p.started[w] + [msg]])
  }

  function Returned(p: Pool, w: nat, outcome: Outcome): Pool
    requires Shaped(p) && w < |p.workers| && p.workers[w].Handling?
  {
    p.(workers := p.workers[w := Checking], finished := p.finished[w := p.finished[w] + [p.workers[w].msg]],
       outcomes := p.outcomes[w := p.outcomes[w] + [outcome]])
  }

  datatype Action =
    | Submit(msg: Message) | Check(worker: nat) | SeeQuit(worker: nat) | Take(worker: nat)
    | Return(worker: nat, outcome: Outcome) | Close

  /** One step of the pool; a step that is not possible changes nothing. A select
      with several ready cases may take any of them. */
  function Next(hash: string -> nat, p: Pool, a: Action): (q: Pool)
    requires Shaped(p)
    ensures Shaped(q) && |q.workers| == |p.workers|
  {
    match a
    case Submit(msg) =>
      if |p.workers| > 0 && msg.offset >= 0 && HasRoom(p, Route(hash, |p.workers|, msg))
      then Submitted(p, Route(hash, |p.workers|, msg), msg) else p
    case Check(w) => if w < |p.workers| && p.workers[w].Checking? then Checked(p, w) else p
    case SeeQuit(w) => if w < |p.workers| && p.workers[w].Waiting? && p.quit then SawQuit(p, w) else p
    case Take(w) => if CanTake(p, w) then Taken(p, w) else p
    case Return(w, outcome) => if w < |p.workers| && p.workers[w].Handling? then Returned(p, w, outcome) else p
    case Close => p.(quit := true)
  }

  function Run(hash: string -> nat, p: Pool, actions: seq<Action>): (q: Pool)
    requires Shaped(p)
    ensures Shaped(q) && |q.workers| == |p.workers|
  {
    if |actions| == 0 then p else Next(hash, Run(hash, p, actions[..|actions| - 1]), Last(actions))
  }

  // ----------------------------------------------------------------- invariants

  function InHand(w: Worker): seq<Message> {
    if w.Handling? then [w.msg] else []
  }

  /** A queue is served in order, one message at a time: what its worker finished,
      the message in hand and the queue are what was submitted to it. */
  ghost predicate SerialAt(p: Pool, w: nat)
    requires Shaped(p) && w < |p.workers|
  {
    && p.started[w] == p.finished[w] + InHand(p.workers[w])
    && p.submitted[w] == p.started[w] + p.queues[w]
    && |p.queues[w]| <= p.capacity
    && |p.outcomes[w]| == |p.finished[w]|
  }

  ghost predicate Serial(p: Pool) {
    Shaped(p) && forall w :: 0 <= w < |p.workers| ==> SerialAt(p, w)
  }

  predicate RoutedHere(hash: string -> nat, workers: nat, msg: Message, w: nat) {
    workers > 0 && msg.offset >= 0 && Route(hash, workers, msg) == w
  }

  ghost predicate Routed(hash: string -> nat, p: Pool) {
    && Shaped(p)
    && forall w, i :: 0 <= w < |p.submitted| && 0 <= i < |p.submitted[w]| ==>
         RoutedHere(hash, |p.workers|, p.submitted[w][i], w)
  }

  lemma SubmitKeeps(hash: string -> nat, p: Pool, w: nat, msg: Message)
    requires Serial(p) && Routed(hash, p) && w < |p.workers|
    requires HasRoom(p, w) && RoutedHere(hash, |p.workers|, msg, w)
    ensures Serial(Submitted(p, w, msg)) && Routed(hash, Submitted(p, w, msg))
  {
    var q := Submitted(p, w, msg);
    assert SerialAt(p, w);
    forall v | 0 <= v < |p.workers| && v != w
      ensures SerialAt(q, v)
    {
      assert SerialAt(p, v);
    }
  }

  lemma TakeKeeps(p: Pool, w: nat)
    requires Serial(p) && CanTake(p, w)
    ensures Serial(Taken(p, w))
  {
    var q := Taken(p, w);
    assert SerialAt(p, w);
    assert q.started[w] + q.queues[w] == p.started[w] + p.queues[w];
    assert SerialAt(q, w);
    forall v | 0 <= v < |p.workers| && v != w
      ensures SerialAt(q, v)
    {
      assert SerialAt(p, v);
    }
  }

  /** A worker that moves on, leaving its hand empty. */
  lemma MoveKeeps(p: Pool, q: Pool, w: nat)
    requires Serial(p) && w < |p.workers| && Shaped(q) && |q.workers| == |p.workers|
    requires q == p.(workers := q.workers, finished := q.finished, outcomes := q.outcomes)
    requires q.finished == p.finished[w := p.finished[w] + InHand(p.workers[w])]
    requires |q.outcomes[w]| == |q.finished[w]|
    requires forall v :: 0 <= v < |p.workers| && v != w ==> q.outcomes[v] == p.outcomes[v]
    requires !q.workers[w].Handling? && forall v :: 0 <= v < |p.workers| && v != w ==> q.workers[v] == p.workers[v]
    ensures Serial(q)
  {
    assert SerialAt(p, w);
    forall v | 0 <= v < |p.workers| && v != w
      ensures SerialAt(q, v)
    {
      assert SerialAt(p, v);
    }
  }

  lemma NextKeeps(hash: string -> nat, p: Pool, a: Action)
    requires Serial(p) && Routed(hash, p)
    ensures Serial(Next(hash, p, a)) && Routed(hash, Next(hash, p, a))
  {
    var q := Next(hash, p, a);
    if q != p {
      match a {
        case Submit(msg) => SubmitKeeps(hash, p, Route(hash, |p.workers|, msg), msg);
        case Check(w) =>
          assert p.finished[w] + [] == p.finished[w] && SerialAt(p, w);
          MoveKeeps(p, q, w);
        case SeeQuit(w) =>
          assert p.finished[w] + [] == p.finished[w] && SerialAt(p, w);
          MoveKeeps(p, q, w);
        case Take(w) => TakeKeeps(p, w);
        case Return(w, _) =>
          assert SerialAt(p, w);
          MoveKeeps(p, q, w);
        case Close =>
          forall v | 0 <= v < |p.workers|
            ensures SerialAt(q, v)
          {
            assert SerialAt(p, v);
          }
      }
    }
  }

  lemma {:induction false} RunKeeps(hash: string -> nat, p: Pool, actions: seq<Action>)
    requires Serial(p) && Routed(hash, p)
    ensures Serial(Run(hash, p, actions)) && Routed(hash, Run(hash, p, actions))
  {
    if |actions| > 0 {
      RunKeeps(hash, p, actions[..|actions| - 1]);
      NextKeeps(hash, Run(hash, p, actions[..|actions| - 1]), Last(actions));
    }
  }

  lemma OpenedServes(hash: string -> nat, workers: nat, capacity: nat)
    ensures Serial(Opened(workers, capacity)) && Routed(hash, Opened(workers, capacity))
  {
  }

  // ------------------------------------------------------------------- promises

  function OfKey(s: seq<Message>, key: string): seq<Message> {
    if s == [] then [] else (if s[0].key == key then [s[0]] else []) + OfKey(s[1..], key)
  }

  lemma {:induction false} OfKeyConcat(s: seq<Message>, t: seq<Message>, key: string)
    ensures OfKey(s + t, key) == OfKey(s, key) + OfKey(t, key)
  {
    if s == [] {
      assert s + t == t;
    } else {
      OfKeyConcat(s[1..], t, key);
      OfKeyFirst(s[0], s[1..], key);
      OfKeyFirst(s[0], s[1..] + t, key);
      assert s == [s[0]] + s[1..] && s + t == [s[0]] + (s[1..] + t);
    }
  }

  lemma OfKeyFirst(m: Message, s: seq<Message>, key: string)
    ensures OfKey([m] + s, key) == (if m.key == key then [m] else []) + OfKey(s, key)
  {
    assert ([m] + s)[1..] == s;
  }

  lemma {:induction false} NoneOfKey(s: seq<Message>, key: string)
    requires forall i :: 0 <= i < |s| ==> s[i].key != key
    ensures OfKey(s, key) == []
  {
    if s != [] {
      NoneOfKey(s[1..], key);
    }
  }

  /** In every run, the messages of one key all belong to one worker. Its handler
      calls for them start in submit order and one at a time: those finished,
      then at most one in hand, then those still queued, are those submitted. */
  lemma PerKeySerialisation(hash: string -> nat, workers: nat, capacity: nat, actions: seq<Action>, key: string)
    requires workers > 0 && key != ""
    ensures
      var p := Run(hash, Opened(workers, capacity), actions);
      var home := hash(key) % workers;
      && (forall w :: 0 <= w < workers && w != home ==>
            && OfKey(p.submitted[w], key) == [] && OfKey(p.started[w], key) == []
            && !(p.workers[w].Handling? && p.workers[w].msg.key == key))
      && OfKey(p.submitted[home], key)
         == OfKey(p.finished[home], key) + OfKey(InHand(p.workers[home]), key) + OfKey(p.queues[home], key)
      && OfKey(p.started[home], key) <= OfKey(p.submitted[home], key)
  {
    var p := Run(hash, Opened(workers, capacity), actions);
    var home := hash(key) % workers;
    assert home < workers;
    OpenedServes(hash, workers, capacity);
    RunKeeps(hash, Opened(workers, capacity), actions);
    forall w | 0 <= w < workers && w != home
      ensures OfKey(p.submitted[w], key) == [] && OfKey(p.started[w], key) == []
      ensures !(p.workers[w].Handling? && p.workers[w].msg.key == key)
    {
      NoneOfKey(p.submitted[w], key);
      assert SerialAt(p, w);
      assert forall i :: 0 <= i < |p.started[w]| ==> p.started[w][i] == p.submitted[w][i];
      NoneOfKey(p.started[w], key);
      assert p.workers[w].Handling? ==> p.workers[w].msg == p.started[w][|p.finished[w]|];
    }
    assert SerialAt(p, home);
    OfKeyConcat(p.started[home], p.queues[home], key);
    OfKeyConcat(p.finished[home], InHand(p.workers[home]), key);
  }

  /** Once quit is closed a worker starts at most one more message ... */
  lemma {:induction false} LastStart(hash: string -> nat, p: Pool, actions: seq<Action>, w: nat)
    requires Shaped(p) && p.quit && w < |p.workers|
    ensures
      var q := Run(hash, p, actions);
      && q.quit
      && |q.started[w]| <= |p.started[w]| + 1
      && (|q.started[w]| > |p.started[w]| ==> p.workers[w].Waiting? && !q.workers[w].Waiting?)
      && (q.workers[w].Waiting? ==> p.workers[w].Waiting?)
      && StepsLeft(q.workers[w]) <= StepsLeft(p.workers[w])
  {
    if |actions| > 0 {
      LastStart(hash, p, actions[..|actions| - 1], w);
    }
  }

  /** ... and it can start that one exactly when it was waiting, and a message is in
      its queue or could still get there. */
  lemma OneMoreStart(hash: string -> nat, p: Pool, w: nat)
    requires Shaped(p) && p.quit && w < |p.workers|
    ensures
      (exists actions: seq<Action> :: |Run(hash, p, actions).started[w]| == |p.started[w]| + 1)
      <==> p.workers[w].Waiting? && (p.queues[w] != [] || p.capacity > 0)
  {
    if p.workers[w].Waiting? && (p.queues[w] != [] || p.capacity > 0) {
      var actions := StartsOne(hash, p, w);
    }
    forall actions: seq<Action> | |Run(hash, p, actions).started[w]| == |p.started[w]| + 1
      ensures p.workers[w].Waiting? && (p.queues[w] != [] || p.capacity > 0)
    {
      LastStart(hash, p, actions, w);
      NothingEverQueued(hash, p, actions, w);
    }
  }

  /** A worker that was waiting when quit closed takes a message all the same. */
  lemma StartsOne(hash: string -> nat, p: Pool, w: nat) returns (actions: seq<Action>)
    requires Shaped(p) && w < |p.workers| && p.workers[w].Waiting? && (p.queues[w] != [] || p.capacity > 0)
    ensures |Run(hash, p, actions).started[w]| == |p.started[w]| + 1
  {
    if p.queues[w] != [] {
      RunOne(hash, p, Take(w));
      TakesOne(hash, p, w);
      actions := [Take(w)];
    } else {
      var msg := Message("", 0, w, "", "");
      SubmitsTo(hash, p, w, msg);
      TakesOne(hash, Submitted(p, w, msg), w);
      RunTwo(hash, p, Submit(msg), Take(w));
      actions := [Submit(msg), Take(w)];
    }
  }

  lemma TakesOne(hash: string -> nat, p: Pool, w: nat)
    requires Shaped(p) && CanTake(p, w)
    ensures |Next(hash, p, Take(w)).started[w]| == |p.started[w]| + 1
  {
  }

  lemma SubmitsTo(hash: string -> nat, p: Pool, w: nat, msg: Message)
    requires Shaped(p) && w < |p.workers| && HasRoom(p, w) && msg.key == "" && msg.offset == w
    ensures Next(hash, p, Submit(msg)) == Submitted(p, w, msg)
  {
    assert Route(hash, |p.workers|, msg) == w;
  }

  /** A pool told to quit before it started anything never starts anything. */
  lemma EarlyQuitStartsNothing(hash: string -> nat, workers: nat, capacity: nat, actions: seq<Action>, w: nat)
    requires w < workers
    ensures
      var closed := Next(hash, Opened(workers, capacity), Close);
      closed.quit && Run(hash, closed, actions).started[w] == []
  {
    LastStart(hash, Next(hash, Opened(workers, capacity), Close), actions, w);
  }

  lemma RunOne(hash: string -> nat, p: Pool, a: Action)
    requires Shaped(p)
    ensures Run(hash, p, [a]) == Next(hash, p, a)
  {
    assert [a][..0] == [];
  }

  lemma RunTwo(hash: string -> nat, p: Pool, a: Action, b: Action)
    requires Shaped(p)
    ensures Run(hash, p, [a, b]) == Next(hash, Next(hash, p, a), b)
  {
    assert [a, b][..1] == [a];
    RunOne(hash, p, a);
  }

  lemma {:induction false} NothingEverQueued(hash: string -> nat, p: Pool, actions: seq<Action>, w: nat)
    requires Shaped(p) && w < |p.workers|
    ensures
      p.queues[w] == [] && p.capacity == 0 ==>
      var q := Run(hash, p, actions);
      q.queues[w] == [] && q.capacity == 0 && q.started[w] == p.started[w]
  {
    if |actions| > 0 {
      NothingEverQueued(hash, p, actions[..|actions| - 1], w);
    }
  }

  function StepsLeft(w: Worker): nat {
    match w
    case Waiting => 3
    case Handling(_) => 2
    case Checking => 1
    case Gone => 0
  }

  /** ... and then returns: it always has a step to take, if only its handler
      returns, and each brings it closer to its end. */
  lemma WorkersReturn(hash: string -> nat, p: Pool, w: nat)
    requires Shaped(p) && p.quit && w < |p.workers| && !p.workers[w].Gone?
    ensures
      var step :=
        if p.workers[w].Checking? then Check(w)
        else if p.workers[w].Waiting? then SeeQuit(w)
        else Return(w, OutcomeCancelled);
      Next(hash, p, step) != p
    ensures forall a: Action ::
      (a.Check? || a.SeeQuit? || a.Take? || a.Return?) && a.worker == w && Next(hash, p, a) != p ==>
      StepsLeft(Next(hash, p, a).workers[w]) < StepsLeft(p.workers[w])
  {
  }

  function Total(queues: seq<seq<Message>>): nat {
    if queues == [] then 0 else Total(queues[..|queues| - 1]) + |Last(queues)|
  }

  function Busy(workers: seq<Worker>): nat {
    if workers == [] then 0 else Busy(workers[..|workers| - 1]) + |InHand(Last(workers))|
  }

  lemma {:induction false} QueuedBound(queues: seq<seq<Message>>, capacity: nat)
    requires forall w :: 0 <= w < |queues| ==> |queues[w]| <= capacity
    ensures Total(queues) <= |queues| * capacity
  {
    if queues != [] {
      QueuedBound(queues[..|queues| - 1], capacity);
    }
  }

  lemma {:induction false} BusyBound(workers: seq<Worker>)
    ensures Busy(workers) <= |workers|
  {
    if workers != [] {
      BusyBound(workers[..|workers| - 1]);
    }
  }

  lemma CapacityBound(workers: nat, queueSize: nat)
    requires workers > 0
    ensures workers * QueueCapacity(workers, queueSize) <= if queueSize > workers then queueSize else workers
  {
    if queueSize / workers > 1 {
      assert queueSize == workers * (queueSize / workers) + queueSize % workers;
    }
  }

  /** However much arrives, the pool holds no more than its queues and one message
      per worker. */
  lemma BoundedMemory(hash: string -> nat, workers: nat, queueSize: nat, actions: seq<Action>)
    requires workers > 0
    ensures
      var p := Run(hash, Opened(workers, QueueCapacity(workers, queueSize)), actions);
      Total(p.queues) + Busy(p.workers) <= (if queueSize > workers then queueSize else workers) + workers
  {
    var start := Opened(workers, QueueCapacity(workers, queueSize));
    OpenedServes(hash, workers, QueueCapacity(workers, queueSize));
    RunKeeps(hash, start, actions);
    CapacityFixed(hash, start, actions);
    var p := Run(hash, start, actions);
    forall w | 0 <= w < |p.queues|
      ensures |p.queues[w]| <= p.capacity
    {
      assert SerialAt(p, w);
    }
    QueuedBound(p.queues, p.capacity);
    BusyBound(p.workers);
    CapacityBound(workers, queueSize);
  }

  /** What the pool holds. */
  function Held(p: Pool): nat {
    Total(p.queues) + Busy(p.workers)
  }

  /** The pool keeps to as many messages as the workers and the queue size together
      exactly when there are no more workers than that: each has a queue of at least
      one. */
  lemma HoldsNoMore(hash: string -> nat, workers: nat, queueSize: nat)
    requires workers > 0 && queueSize > 0
    ensures
      (forall actions: seq<Action> ::
        Held(Run(hash, Opened(workers, QueueCapacity(workers, queueSize)), actions)) <= workers + queueSize)
      <==> workers <= queueSize
  {
    if workers <= queueSize {
      forall actions: seq<Action>
        ensures Held(Run(hash, Opened(workers, QueueCapacity(workers, queueSize)), actions)) <= workers + queueSize
      {
        BoundedMemory(hash, workers, queueSize, actions);
      }
    } else {
      var actions := Fill(hash, workers, workers);
      AllHeld(Run(hash, Opened(workers, 1), actions));
      assert QueueCapacity(workers, queueSize) == 1;
      assert Held(Run(hash, Opened(workers, QueueCapacity(workers, queueSize)), actions)) == 2 * workers;
    }
  }

  /** The first n workers have a message in hand and one waiting. */
  ghost predicate Filled(p: Pool, workers: nat, n: nat) {
    && Shaped(p) && |p.workers| == workers && p.capacity == 1
    && forall w :: 0 <= w < workers ==>
         if w < n then p.workers[w].Handling? && |p.queues[w]| == 1
         else p.workers[w].Checking? && p.queues[w] == [] && !p.quit
  }

  lemma {:induction false} Fill(hash: string -> nat, workers: nat, n: nat) returns (actions: seq<Action>)
    requires workers > 0 && n <= workers
    ensures Filled(Run(hash, Opened(workers, 1), actions), workers, n)
  {
    actions := [];
    if n > 0 {
      var before := Fill(hash, workers, n - 1);
      var submit := Submit(Message("", 0, n - 1, "", ""));
      var p := Run(hash, Opened(workers, 1), before);
      FillOne(hash, p, workers, n - 1, submit.msg);
      RunThen(hash, Opened(workers, 1), before, submit);
      RunThen(hash, Opened(workers, 1), before + [submit], Check(n - 1));
      RunThen(hash, Opened(workers, 1), before + [submit] + [Check(n - 1)], Take(n - 1));
      RunThen(hash, Opened(workers, 1), before + [submit] + [Check(n - 1)] + [Take(n - 1)], submit);
      actions := before + [submit] + [Check(n - 1)] + [Take(n - 1)] + [submit];
    }
  }

  lemma FillOne(hash: string -> nat, p: Pool, workers: nat, n: nat, msg: Message)
    requires n < workers && Filled(p, workers, n) && msg == Message("", 0, n, "", "")
    ensures
      var waiting := Next(hash, Next(hash, p, Submit(msg)), Check(n));
      Filled(Next(hash, Next(hash, waiting, Take(n)), Submit(msg)), workers, n + 1)
  {
    assert Route(hash, workers, msg) == n;
    var p1 := Submitted(p, n, msg);
    assert Next(hash, p, Submit(msg)) == p1;
    var p2 := Checked(p1, n);
    assert Next(hash, p1, Check(n)) == p2;
    var p3 := Taken(p2, n);
    assert Next(hash, p2, Take(n)) == p3;
    assert Next(hash, p3, Submit(msg)) == Submitted(p3, n, msg);
  }

  lemma RunThen(hash: string -> nat, p: Pool, actions: seq<Action>, a: Action)
    requires Shaped(p)
    ensures Run(hash, p, actions + [a]) == Next(hash, Run(hash, p, actions), a)
  {
    assert (actions + [a])[..|actions|] == actions;
  }

  lemma AllHeld(p: Pool)
    requires Filled(p, |p.workers|, |p.workers|)
    ensures Held(p) == 2 * |p.workers|
  {
    TotalOnes(p.queues);
    BusyAll(p.workers);
  }

  lemma {:induction false} TotalOnes(queues: seq<seq<Message>>)
    requires forall w :: 0 <= w < |queues| ==> |queues[w]| == 1
    ensures Total(queues) == |queues|
  {
    if queues != [] {
      TotalOnes(queues[..|queues| - 1]);
    }
  }

  lemma {:induction false} BusyAll(workers: seq<Worker>)
    requires forall w :: 0 <= w < |workers| ==> workers[w].Handling?
    ensures Busy(workers) == |workers|
  {
    if workers != [] {
      BusyAll(workers[..|workers| - 1]);
    }
  }

  lemma {:induction false} CapacityFixed(hash: string -> nat, p: Pool, actions: seq<Action>)
    requires Shaped(p)
    ensures Run(hash, p, actions).capacity == p.capacity
  {
    if |actions| > 0 {
      CapacityFixed(hash, p, actions[..|actions| - 1]);
    }
  }

  lemma {:induction false} CountsAdd(
    submitted: seq<seq<Message>>, finished: seq<seq<Message>>, workers: seq<Worker>, queues: seq<seq<Message>>)
    requires |submitted| == |finished| == |workers| == |queues|
    requires forall w :: 0 <= w < |workers| ==> |submitted[w]| == |finished[w]| + |InHand(workers[w])| + |queues[w]|
    ensures Total(submitted) == Total(finished) + Busy(workers) + Total(queues)
  {
    if submitted != [] {
      var n := |submitted| - 1;
      CountsAdd(submitted[..n], finished[..n], workers[..n], queues[..n]);
    }
  }

  function Count(outcomes: seq<Outcome>, o: Outcome): nat {
    if outcomes == [] then 0
    else Count(outcomes[..|outcomes| - 1], o) + if Last(outcomes) == o then 1 else 0
  }

  /** How many messages ended in an outcome, over all workers. */
  function Tally(outcomes: seq<seq<Outcome>>, o: Outcome): nat {
    if outcomes == [] then 0 else Tally(outcomes[..|outcomes| - 1], o) + Count(Last(outcomes), o)
  }

  lemma {:induction false} CountEvery(outcomes: seq<Outcome>)
    ensures
      |outcomes|
      == Count(outcomes, OutcomeIndexed) + Count(outcomes, OutcomeSkipped) + Count(outcomes, OutcomeDeadLettered)
         + Count(outcomes, OutcomeCancelled) + Count(outcomes, OutcomeFailed)
  {
    if outcomes != [] {
      CountEvery(outcomes[..|outcomes| - 1]);
    }
  }

  lemma {:induction false} TallyEvery(finished: seq<seq<Message>>, outcomes: seq<seq<Outcome>>)
    requires |finished| == |outcomes|
    requires forall w :: 0 <= w < |finished| ==> |outcomes[w]| == |finished[w]|
    ensures
      Total(finished)
      == Tally(outcomes, OutcomeIndexed) + Tally(outcomes, OutcomeSkipped) + Tally(outcomes, OutcomeDeadLettered)
         + Tally(outcomes, OutcomeCancelled) + Tally(outcomes, OutcomeFailed)
  {
    if finished != [] {
      var n := |finished| - 1;
      TallyEvery(finished[..n], outcomes[..n]);
      CountEvery(outcomes[n]);
    }
  }

  /** Every message is accounted for: it is queued, with a worker, or ended in one of
      the five outcomes. */
  ghost predicate Accounted(p: Pool) {
    Total(p.submitted)
    == Total(p.queues) + Busy(p.workers)
       + Tally(p.outcomes, OutcomeIndexed) + Tally(p.outcomes, OutcomeSkipped)
       + Tally(p.outcomes, OutcomeDeadLettered) + Tally(p.outcomes, OutcomeCancelled)
       + Tally(p.outcomes, OutcomeFailed)
  }

  lemma SerialAccounted(p: Pool)
    requires Serial(p)
    ensures Accounted(p) && Total(p.submitted) == Total(p.finished) + Busy(p.workers) + Total(p.queues)
  {
    forall w | 0 <= w < |p.workers|
      ensures |p.submitted[w]| == |p.finished[w]| + |InHand(p.workers[w])| + |p.queues[w]|
      ensures |p.outcomes[w]| == |p.finished[w]|
    {
      assert SerialAt(p, w);
    }
    CountsAdd(p.submitted, p.finished, p.workers, p.queues);
    TallyEvery(p.finished, p.outcomes);
  }

  /** No message is lost or duplicated inside the pool. */
  lemma Conservation(hash: string -> nat, workers: nat, capacity: nat, actions: seq<Action>)
    ensures
      var p := Run(hash, Opened(workers, capacity), actions);
      Accounted(p) && Total(p.submitted) == Total(p.finished) + Busy(p.workers) + Total(p.queues)
  {
    OpenedServes(hash, workers, capacity);
    RunKeeps(hash, Opened(workers, capacity), actions);
    SerialAccounted(Run(hash, Opened(workers, capacity), actions));
  }

  // ------------------------------------------------------------------ the pool

  lemma {:induction false} BusyUpdate(workers: seq<Worker>, w: nat, x: Worker)
    requires w < |workers|
    ensures Busy(workers[w := x]) == Busy(workers) - |InHand(workers[w])| + |InHand(x)|
  {
    var n := |workers| - 1;
    if w < n {
      BusyUpdate(workers[..n], w, x);
      assert workers[w := x][..n] == workers[..n][w := x];
    } else {
      assert workers[w := x][..n] == workers[..n];
    }
  }

  lemma {:induction false} NoneBusy(n: nat)
    ensures Busy(seq(n, _ => Checking)) == 0
  {
    if n > 0 {
      NoneBusy(n - 1);
      assert seq(n, _ => Checking)[..n - 1] == seq(n - 1, _ => Checking);
    }
  }

  datatype Stats = Stats(workers: nat, active: nat, queued: nat, capacity: nat)

  class WorkerPool {
    const hash: string -> nat
    const capacity: nat
    var queues: seq<seq<Message>>
    var workers: seq<Worker>
    var quit: bool
    var active: nat
    ghost var submitted: seq<seq<Message>>
    ghost var started: seq<seq<Message>>
    ghost var finished: seq<seq<Message>>
    ghost var outcomes: seq<seq<Outcome>>

    ghost function Value(): Pool
      reads this
    {
      Pool(capacity, queues, workers, quit, submitted, started, finished, outcomes)
    }

    /** The counter of active workers counts those inside a handler. */
    ghost predicate Valid()
      reads this
    {
      Shaped(Value()) && active == Busy(workers) && |workers| > 0
    }

    constructor (hash: string -> nat, n: nat, capacity: nat)
      requires n > 0
      ensures Valid() && Value() == Opened(n, capacity) && this.hash == hash
    {
      this.hash, this.capacity, quit, active := hash, capacity, false, 0;
      workers := seq(n, _ => Checking);
      var empty: seq<seq<Message>> := seq(n, _ => []);
      queues, submitted, started, finished := empty, empty, empty, empty;
      outcomes := seq(n, _ => []);
      NoneBusy(n);
    }

    /** A pool for the settings, or none when they are unusable. */
    static method New(workers: int, queueSize: int, hash: string -> nat) returns (pool: Option<WorkerPool>)
      ensures pool.None? <==> workers <= 0 || queueSize <= 0
      ensures pool.Some? ==> fresh(pool.value) && pool.value.Valid() && pool.value.hash == hash
      ensures pool.Some? ==> pool.value.Value() == Opened(workers, QueueCapacity(workers, queueSize))
    {
      if workers <= 0 || queueSize <= 0 {
        return None;
      }
      var p := new WorkerPool(hash, workers, QueueCapacity(workers, queueSize));
      pool := Some(p);
    }

    method Send(w: nat, msg: Message)
      requires Valid() && w < |workers| && HasRoom(Value(), w)
      modifies this
      ensures Valid() && workers == old(workers) && quit == old(quit)
      ensures Value() == Submitted(old(Value()), w, msg)
    {
      queues := queues[w := queues[w] + [msg]];
      submitted := submitted[w := submitted[w] + [msg]];
    }

    /** Queues a message, waiting while there is neither room nor a reason to give
        up; any case that is ready may be taken. */
    method Submit(msg: Message, cancelled: bool) returns (sent: bool)
      requires Valid() && msg.offset >= 0
      requires HasRoom(Value(), Route(hash, |workers|, msg)) || quit || cancelled
      modifies this
      ensures Valid()
      ensures
        var w := Route(hash, |old(workers)|, msg);
        sent ==> HasRoom(old(Value()), w) && Value() == Submitted(old(Value()), w, msg)
      ensures !sent ==> Value() == old(Value()) && (quit || cancelled)
    {
      var w := Route(hash, |workers|, msg);
      assert w < |workers|;
      if
      case |queues[w]| < capacity =>
        Send(w, msg);
        sent := true;
      case quit => sent := false;
      case cancelled => sent := false;
    }

    /** The look at quit before each message. */
    method CheckQuit(w: nat)
      requires Valid() && w < |workers| && workers[w].Checking?
      modifies this
      ensures Valid() && Value() == Next(hash, old(Value()), Check(w)) && workers[w] == if quit then Gone else Waiting
    {
      BusyUpdate(workers, w, if quit then Gone else Waiting);
      workers := workers[w := if quit then Gone else Waiting];
    }

    /** The wait for a message or for quit, whichever is ready. */
    method Receive(w: nat) returns (msg: Option<Message>)
      requires Valid() && w < |workers| && workers[w].Waiting? && (quit || |queues[w]| > 0)
      modifies this
      ensures Valid()
      ensures Value() == Next(hash, old(Value()), if msg.Some? then Take(w) else SeeQuit(w))
      ensures msg.Some? ==> CanTake(old(Value()), w) && workers[w] == Handling(msg.value)
      ensures msg.None? ==> quit && workers[w].Gone?
    {
      if
      case quit =>
        BusyUpdate(workers, w, Gone);
        workers := workers[w := Gone];
        msg := None;
      case |queues[w]| > 0 =>
        var m := queues[w][0];
        BusyUpdate(workers, w, Handling(m));
        queues := queues[w := queues[w][1..]];
        workers := workers[w := Handling(m)];
        started := started[w := started[w] + [m]];
        active := active + 1;
        msg := Some(m);
    }

    /** The handler of the message in hand came back. */
    method HandlerReturned(w: nat, ghost outcome: Outcome)
      requires Valid() && w < |workers| && workers[w].Handling?
      modifies this
      ensures Valid() && Value() == Next(hash, old(Value()), Return(w, outcome)) && active == old(active) - 1
    {
      BusyUpdate(workers, w, Checking);
      finished := finished[w := finished[w] + [workers[w].msg]];
      outcomes := outcomes[w := outcomes[w] + [outcome]];
      workers := workers[w := Checking];
      active := active - 1;
    }

    method CloseQuit()
      requires Valid()
      modifies this
      ensures Valid() && Value() == Next(hash, old(Value()), Close) && quit
    {
      quit := true;
    }

    /** What the pool is doing: every queue counted. */
    method CurrentStats() returns (stats: Stats)
      requires Valid()
      ensures stats == Stats(|workers|, Busy(workers), Total(queues), |workers| * capacity)
    {
      var queued, room := 0, 0;
      for i := 0 to |queues|
        invariant queued == Total(queues[..i]) && room == i * capacity
      {
        assert queues[..i + 1][..i] == queues[..i];
        queued, room := queued + |queues[i]|, room + capacity;
      }
      assert queues[..|queues|] == queues;
      stats := Stats(|workers|, active, queued, room);
    }
  }
}
