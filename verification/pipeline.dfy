/**
 One message through the pipeline: decode, index with retries, dead-letter what
 cannot be indexed, and say whether its offset may be committed.
 */
module Pipelines {
  import opened Prelude
  import opened RetryKinds
  import opened Errors
  import opened Stores
  import opened Events
  import opened ChangeService
  import Retry
  import Idempotence

  datatype Message = Message(topic: string, partition: int, offset: int, key: string, value: string)

  /** A dead-lettered message: where it came from, unchanged, and why. */
  datatype Letter = Letter(
    topic: string, partition: int, offset: int, key: string, payload: string,
    cause: Error, errorType: Kind, attempts: nat)

  datatype Outcome =
    | OutcomeIndexed | OutcomeSkipped | OutcomeDeadLettered | OutcomeCancelled | OutcomeFailed
  {
    /** The commit rules. */
    predicate Commits() {
      OutcomeIndexed? || OutcomeSkipped? || OutcomeDeadLettered?
    }
  }

  datatype Report = Report(outcome: Outcome, effect: Effect, attempts: nat, kind: Kind, err: Option<Error>)

  /** What the pipeline changes: the stores and the dead-letter topic. */
  datatype World = World(stores: Both, letters: seq<Letter>)

  /** What it is built with. Parsing a payload and embedding a text are functions
      of their input. */
  datatype Setting = Setting(
    parse: string -> Result<ChangeEvent, Error>, embed: Embedder, policy: Retry.Policy)

  /** How everything around one message goes. */
  datatype Env = Env(ctx: Retry.Context<Error>, calls: nat -> Calls, publish: Call)

  /** A tombstone is nothing to index, not a malformed event. */
  function DecodeChangeEvent(setting: Setting, value: string): Result<ChangeEvent, Error> {
    match setting.parse(value)
    case Err(e) => if Is(e, ErrTombstone) then Err(Joined([Value(ErrSkipMessage), e])) else Err(e)
    case Ok(ev) => Ok(ev)
  }

  predicate Skippable(setting: Setting, msg: Message) {
    var ev := DecodeChangeEvent(setting, msg.value);
    ev.Err? && Is(ev.error, ErrSkipMessage)
  }

  predicate IsCancellation(e: Error) {
    Is(e, Canceled) || Is(e, DeadlineExceeded)
  }

  function KindOfError(e: Error): Kind {
    ClassifyError(Some(e))
  }

  /** One try at indexing: the stores after it, what it did, its error marked. */
  function IndexOnce(embed: Embedder, ev: ChangeEvent, s: Both, calls: Calls): (Both, Effect, Option<Error>) {
    Idempotence.CompletionDependsOnCalls(embed, ev, s, calls);
    var (pc, t) := Processed(embed, ev, s, calls);
    (t, pc.effect, Classified(pc.error))
  }

  function CallsOf(env: Env, a: nat): Calls {
    env.calls(a).(cancelled := env.ctx.Err(Retry.RunMoment(a)))
  }

  /** Indexing an event, as the operation handed to the retry runner. */
  function Indexing(setting: Setting, env: Env, ev: ChangeEvent): Retry.Operation<(Both, Effect), Error> {
    (s: (Both, Effect), a: nat) =>
      var (t, effect, err) := IndexOnce(setting.embed, ev, s.0, CallsOf(env, a));
      ((t, effect), err)
  }

  function LetterOf(msg: Message, cause: Error, kind: Kind, attempts: nat): Letter {
    Letter(msg.topic, msg.partition, msg.offset, msg.key, msg.value, cause, kind, attempts)
  }

  function DeadLettered(env: Env, w: World, msg: Message, cause: Error, kind: Kind, attempts: nat)
    : (World, Report, Option<Error>)
  {
    var stored := w.(letters := w.letters + [LetterOf(msg, cause, kind, attempts)]);
    match env.publish
    case Succeeds => (stored, Report(OutcomeDeadLettered, EffectNone, attempts, kind, Some(cause)), None)
    case Fails(landed, e) =>
      var after := if landed then stored else w;
      var cancelled := env.ctx.Err(Retry.CheckMoment(attempts + 1));
      if cancelled.Some? then
        (after, Report(OutcomeCancelled, EffectNone, attempts, kind, cancelled), Some(Wrapped(cancelled.value)))
      else
        var joined := Joined([e, cause]);
        (after, Report(OutcomeFailed, EffectNone, attempts, kind, Some(joined)), Some(joined))
  }

  /** Everything that handling one message does. */
  function Handled(setting: Setting, env: Env, w: World, msg: Message): (World, Report, Option<Error>) {
    match DecodeChangeEvent(setting, msg.value)
    case Err(e) =>
      if Is(e, ErrSkipMessage) then (w, Report(OutcomeSkipped, EffectNone, 0, Unknown, None), None)
      else DeadLettered(env, w, msg, e, NonRetryable, 0)
    case Ok(ev) =>
      var (r, s, _) :=
        Retry.Runs(setting.policy, KindOfError, env.ctx, Indexing(setting, env, ev), (w.stores, EffectNone), 1);
      Concluded(env, w.(stores := s.0), msg, r, s.1)
  }

  /** What follows when the tries are over. */
  function Concluded(env: Env, w: World, msg: Message, r: Retry.Outcome<Error>, effect: Effect)
    : (World, Report, Option<Error>)
  {
    if r.err.None? then (w, Report(OutcomeIndexed, effect, r.attempts, Unknown, None), None)
    else if IsCancellation(r.err.value) && env.ctx.Err(Retry.RunMoment(r.attempts + 1)).Some? then
      (w, Report(OutcomeCancelled, EffectNone, r.attempts, Unknown, r.err), Some(Wrapped(r.err.value)))
    else DeadLettered(env, w, msg, r.err.value, r.kind, r.attempts)
  }

  class Pipeline {
    const setting: Setting
    const retries: Retry.Runner<Error>
    var world: World
    var reports: seq<Report>

    ghost predicate Valid() {
      retries.Valid() && retries.policy == setting.policy && retries.classify == KindOfError
    }

    constructor (setting: Setting, world: World)
      requires Retry.Validate(setting.policy).None?
      ensures Valid() && this.setting == setting && this.world == world && reports == []
    {
      this.setting, this.world, this.reports := setting, world, [];
      retries := new Retry.Runner(setting.policy, KindOfError);
    }

    method Observe(r: Report)
      modifies this`reports
      ensures reports == old(reports) + [r]
    {
      reports := reports + [r];
    }

    /** Handles one message and reports it once. No error means that its offset
        may be committed. */
    method Process(env: Env, msg: Message) returns (err: Option<Error>)
      requires Valid()
      modifies this
      ensures
        var (w, report, e) := Handled(setting, env, old(world), msg);
        world == w && err == e && reports == old(reports) + [report]
    {
      var decoded := DecodeChangeEvent(setting, msg.value);
      if decoded.Err? {
        if Is(decoded.error, ErrSkipMessage) {
          Observe(Report(OutcomeSkipped, EffectNone, 0, Unknown, None));
          return None;
        }
        err := DeadLetter(env, msg, decoded.error, NonRetryable, 0);
        return;
      }
      var result, s, _ := retries.Do(env.ctx, Indexing(setting, env, decoded.value), (world.stores, EffectNone));
      world := world.(stores := s.0);
      if result.err.None? {
        Observe(Report(OutcomeIndexed, s.1, result.attempts, Unknown, None));
        return None;
      }
      if IsCancellation(result.err.value) && env.ctx.Err(Retry.RunMoment(result.attempts + 1)).Some? {
        Observe(Report(OutcomeCancelled, EffectNone, result.attempts, Unknown, result.err));
        return Some(Wrapped(result.err.value));
      }
      err := DeadLetter(env, msg, result.err.value, result.kind, result.attempts);
    }

    method DeadLetter(env: Env, msg: Message, cause: Error, kind: Kind, attempts: nat)
      returns (err: Option<Error>)
      modifies this
      ensures
        var (w, report, e) := DeadLettered(env, old(world), msg, cause, kind, attempts);
        world == w && err == e && reports == old(reports) + [report]
    {
      var letter := LetterOf(msg, cause, kind, attempts);
      var failed := Publish(letter, env.publish);
      if failed.Some? {
        var cancelled := env.ctx.Err(Retry.CheckMoment(attempts + 1));
        if cancelled.Some? {
          Observe(Report(OutcomeCancelled, EffectNone, attempts, kind, cancelled));
          return Some(Wrapped(cancelled.value));
        }
        var joined := Joined([failed.value, cause]);
        Observe(Report(OutcomeFailed, EffectNone, attempts, kind, Some(joined)));
        return Some(joined);
      }
      Observe(Report(OutcomeDeadLettered, EffectNone, attempts, kind, Some(cause)));
      return None;
    }

    method Publish(letter: Letter, call: Call) returns (failed: Option<Error>)
      modifies this`world
      ensures failed == if call.Fails? then Some(call.error) else None
      ensures world
        == if call.Succeeds? || call.landed then old(world).(letters := old(world).letters + [letter]) else old(world)
    {
      if call.Succeeds? || call.landed {
        world := world.(letters := world.letters + [letter]);
      }
      failed := if call.Fails? then Some(call.error) else None;
    }
  }

  // ------------------------------------------------------ what handling promises

  /** The letter holds the message unchanged. */
  predicate Carries(letter: Letter, msg: Message) {
    && letter.topic == msg.topic && letter.partition == msg.partition && letter.offset == msg.offset
    && letter.key == msg.key && letter.payload == msg.value
  }

  /** A message has one outcome, which agrees with the decision to commit: its
      offset may be committed exactly when it was indexed, was nothing to index, or
      is stored as a letter. */
  lemma OneOutcome(setting: Setting, env: Env, w: World, msg: Message)
    requires Retry.Validate(setting.policy).None?
    ensures
      var (t, report, err) := Handled(setting, env, w, msg);
      && (err.None? <==> report.outcome.Commits())
      && (report.outcome == OutcomeSkipped <==> Skippable(setting, msg))
      && (report.outcome == OutcomeSkipped ==> t == w)
      && (report.outcome == OutcomeDeadLettered ==>
            |t.letters| == |w.letters| + 1 && w.letters <= t.letters && Carries(Last(t.letters), msg))
      && (report.outcome == OutcomeIndexed ==> t.letters == w.letters && 1 <= report.attempts <= setting.policy.maxAttempts)
      && (report.outcome == OutcomeCancelled ==> env.ctx.cancelledAt.Some?)
      && (report.outcome == OutcomeFailed ==> env.publish.Fails?)
  {
    match DecodeChangeEvent(setting, msg.value) {
      case Err(_) =>
      case Ok(ev) =>
        var op, start := Indexing(setting, env, ev), (w.stores, EffectNone);
        var (r, s, _) := Retry.Runs(setting.policy, KindOfError, env.ctx, op, start, 1);
        assert 1 <= r.attempts <= setting.policy.maxAttempts by {
          Retry.RunMeaning(setting.policy, KindOfError, env.ctx, op, start, 1);
        }
        ConcludedOutcome(env, w.(stores := s.0), msg, r, s.1);
    }
  }

  /** ... once the tries are over. */
  lemma ConcludedOutcome(env: Env, w: World, msg: Message, r: Retry.Outcome<Error>, effect: Effect)
    ensures
      var (t, report, err) := Concluded(env, w, msg, r, effect);
      && (err.None? <==> report.outcome.Commits())
      && report.outcome != OutcomeSkipped
      && report.attempts == r.attempts
      && (report.outcome == OutcomeDeadLettered ==>
            |t.letters| == |w.letters| + 1 && w.letters <= t.letters && Carries(Last(t.letters), msg))
      && (report.outcome == OutcomeIndexed ==> t.letters == w.letters)
      && (report.outcome == OutcomeCancelled ==> env.ctx.cancelledAt.Some?)
      && (report.outcome == OutcomeFailed ==> env.publish.Fails?)
  {
  }

  // ------------------------------------------------------- when what comes out

  type Tries = Retry.Operation<(Both, Effect), Error>

  /** Try b of an operation, on what the tries before it leave. */
  function TryAt(op: Tries, start: (Both, Effect), b: nat): ((Both, Effect), Option<Error>) {
    op(Retry.After(op, start, 1, if b >= 1 then b - 1 else 0), b)
  }

  /** Try b failed, the context was live, the failure may pass, and attempts are left. */
  predicate WorthWaiting(policy: Retry.Policy, env: Env, op: Tries, start: (Both, Effect), b: nat) {
    && TryAt(op, start, b).1.Some? && env.ctx.Err(Retry.CheckMoment(b)).None?
    && ClassifyError(TryAt(op, start, b).1) != NonRetryable
    && b < policy.maxAttempts
  }

  /** ... and the wait after it went by. */
  predicate TriedAgain(policy: Retry.Policy, env: Env, op: Tries, start: (Both, Effect), b: nat) {
    && WorthWaiting(policy, env, op, start, b)
    && env.ctx.WaitErr(b, Retry.Backoff(policy, b)).None?
  }

  /** Try b is the last. */
  ghost predicate LastTry(policy: Retry.Policy, env: Env, op: Tries, start: (Both, Effect), b: nat) {
    && 1 <= b <= policy.maxAttempts
    && (forall c :: 1 <= c < b ==> TriedAgain(policy, env, op, start, c))
    && !TriedAgain(policy, env, op, start, b)
  }

  /** Why a message is given up on after try b failed: the context's error if it was seen
      cancelled at the check or in the wait, or else the try's. */
  function Cause(policy: Retry.Policy, env: Env, op: Tries, start: (Both, Effect), b: nat): Error
    requires TryAt(op, start, b).1.Some?
  {
    if env.ctx.Err(Retry.CheckMoment(b)).Some? then env.ctx.cause
    else if
      WorthWaiting(policy, env, op, start, b) && env.ctx.WaitErr(b, Retry.Backoff(policy, b)).Some?
    then env.ctx.cause
    else TryAt(op, start, b).1.value
  }

  /** The cause is that the context was cancelled, and it is. */
  predicate StoppedAfter(policy: Retry.Policy, env: Env, op: Tries, start: (Both, Effect), b: nat)
    requires TryAt(op, start, b).1.Some?
  {
    var cause := Cause(policy, env, op, start, b);
    (Is(cause, Canceled) || Is(cause, DeadlineExceeded)) && env.ctx.Err(Retry.RunMoment(b + 1)).Some?
  }

  /** The runner's run ends with the last try. */
  lemma RunOfTries(policy: Retry.Policy, env: Env, op: Tries, start: (Both, Effect), b: nat)
    requires LastTry(policy, env, op, start, b)
    ensures
      var (r, s, _) := Retry.Runs(policy, KindOfError, env.ctx, op, start, 1);
      && r.attempts == b && s == TryAt(op, start, b).0
      && (r.err.None? <==> TryAt(op, start, b).1.None?)
      && (TryAt(op, start, b).1.Some? ==>
            r.err == Some(Cause(policy, env, op, start, b)) && r.kind == ClassifyError(TryAt(op, start, b).1))
  {
    forall c | 1 <= c <= b
      ensures Retry.ErrorOf(op, start, 1, c) == TryAt(op, start, c).1
      ensures Retry.Waits(policy, KindOfError, env.ctx, op, start, 1, c) == WorthWaiting(policy, env, op, start, c)
      ensures Retry.Again(policy, KindOfError, env.ctx, op, start, 1, c) == TriedAgain(policy, env, op, start, c)
    {
    }
    Retry.RunLength(policy, KindOfError, env.ctx, op, start, b);
    Retry.RunMeaning(policy, KindOfError, env.ctx, op, start, 1);
    Retry.AfterLast(op, start, 1, b - 1);
  }

  /** What handling an event comes to, once its last try is known. */
  ghost predicate ComesTo(
    policy: Retry.Policy, env: Env, op: Tries, w: World, msg: Message, b: nat, t: World, report: Report,
    err: Option<Error>)
  {
    var start, last := (w.stores, EffectNone), TryAt(op, (w.stores, EffectNone), b);
    && report.attempts == b && t.stores == last.0.0
    && (report.outcome == OutcomeIndexed <==> last.1.None?)
    && (last.1.None? ==>
          && err == None && t.letters == w.letters
          && report.effect == last.0.1 && report.kind == Unknown && report.err == None)
    && (last.1.Some? ==>
          var stopped := StoppedAfter(policy, env, op, start, b);
          var later := env.ctx.Err(Retry.CheckMoment(b + 1)).Some?;
          var letter := Letter(msg.topic, msg.partition, msg.offset, msg.key, msg.value,
            Cause(policy, env, op, start, b), ClassifyError(last.1), b);
          && (err.Some? <==> stopped || env.publish.Fails?)
          && (stopped ==> err == Some(Wrapped(Cause(policy, env, op, start, b))))
          && (!stopped && env.publish.Fails? && later ==>
                report.err == Some(env.ctx.cause) && err == Some(Wrapped(env.ctx.cause)))
          && (!stopped && env.publish.Fails? && !later ==>
                report.err == err == Some(Joined([env.publish.error, Cause(policy, env, op, start, b)])))
          && report.effect == EffectNone && report.kind == (if stopped then Unknown else ClassifyError(last.1))
          && (report.outcome == OutcomeDeadLettered || stopped ==> report.err == Some(Cause(policy, env, op, start, b)))
          && (report.outcome == OutcomeCancelled <==> stopped || (env.publish.Fails? && later))
          && (report.outcome == OutcomeDeadLettered <==> !stopped && env.publish.Succeeds?)
          && (report.outcome == OutcomeFailed <==> !stopped && env.publish.Fails? && !later)
          && t.letters
             == if !stopped && (env.publish.Succeeds? || env.publish.landed) then w.letters + [letter] else w.letters)
  }

  lemma ConcludedComesTo(policy: Retry.Policy, env: Env, op: Tries, w: World, msg: Message, b: nat)
    requires LastTry(policy, env, op, (w.stores, EffectNone), b)
    ensures
      var (r, s, _) := Retry.Runs(policy, KindOfError, env.ctx, op, (w.stores, EffectNone), 1);
      var (t, report, err) := Concluded(env, w.(stores := s.0), msg, r, s.1);
      ComesTo(policy, env, op, w, msg, b, t, report, err)
  {
    RunOfTries(policy, env, op, (w.stores, EffectNone), b);
  }

  /** An event that decodes is indexed exactly when its last try succeeds, with that try's
      stores and effect and without a letter. Otherwise it is left for later exactly when
      the context was cancelled: it was the cause, or the letter could not be stored
      either. Everything else ends with a letter or with a failure to store one, and the
      letter says why, how the try's error was classified and how many tries there were. */
  lemma HandledComesTo(setting: Setting, env: Env, w: World, msg: Message, ev: ChangeEvent, b: nat)
    requires setting.parse(msg.value) == Ok(ev)
    requires LastTry(setting.policy, env, Indexing(setting, env, ev), (w.stores, EffectNone), b)
    ensures
      var (t, report, err) := Handled(setting, env, w, msg);
      ComesTo(setting.policy, env, Indexing(setting, env, ev), w, msg, b, t, report, err)
  {
    ConcludedComesTo(setting.policy, env, Indexing(setting, env, ev), w, msg, b);
  }

  /** A message that does not decode is never tried: a tombstone is skipped, anything
      else goes into a letter with its error, or is left for later. */
  lemma UndecodableHandled(setting: Setting, env: Env, w: World, msg: Message, e: Error)
    requires setting.parse(msg.value) == Err(e)
    ensures
      var (t, report, err) := Handled(setting, env, w, msg);
      var nothing := Is(e, ErrTombstone) || Is(e, ErrSkipMessage);
      var letter := Letter(msg.topic, msg.partition, msg.offset, msg.key, msg.value, e, NonRetryable, 0);
      && t.stores == w.stores && report.attempts == 0 && report.effect == EffectNone
      && report.kind == (if nothing then Unknown else NonRetryable)
      && (err.Some? <==> !nothing && env.publish.Fails?)
      && (report.outcome == OutcomeSkipped <==> nothing)
      && (report.outcome == OutcomeDeadLettered <==> !nothing && env.publish.Succeeds?)
      && (report.outcome == OutcomeCancelled
          <==> !nothing && env.publish.Fails? && env.ctx.Err(Retry.CheckMoment(1)).Some?)
      && t.letters
         == if !nothing && (env.publish.Succeeds? || env.publish.landed) then w.letters + [letter] else w.letters
  {
    var joined := Joined([Value(ErrSkipMessage), e]);
    assert Value(ErrSkipMessage) in Chain(joined) by {
      PairChain(Value(ErrSkipMessage), e);
      assert Chain(Value(ErrSkipMessage))[0] == Value(ErrSkipMessage);
    }
  }

  /** One try is one attempt of the service with the calls given for it, unless the context
      is cancelled when it starts; it succeeds exactly when that attempt completes. */
  lemma TryMeaning(setting: Setting, env: Env, ev: ChangeEvent, x: (Both, Effect), b: nat)
    ensures
      var (y, err) := Indexing(setting, env, ev)(x, b);
      var live, calls := env.ctx.Err(Retry.RunMoment(b)).None?, env.calls(b).(cancelled := None);
      && (err.None? <==> live && Idempotence.Completes(ev, x.0, calls))
      && (live ==>
            && y == (Processed(setting.embed, ev, x.0, calls).1, Processed(setting.embed, ev, x.0, calls).0.effect)
            && err == Classified(Processed(setting.embed, ev, x.0, calls).0.error))
      && (!live ==> y.0 == x.0)
  {
    var calls := CallsOf(env, b);
    Idempotence.CompletionDependsOnCalls(setting.embed, ev, x.0, calls);
    ClassifiedMeaning(Processed(setting.embed, ev, x.0, calls).0.error);
    if env.ctx.Err(Retry.RunMoment(b)).None? {
      assert calls == env.calls(b).(cancelled := None);
    } else {
      CancelledTouchesNothing(setting.embed, ev, x.0, calls);
    }
  }

  lemma TrySucceeds(setting: Setting, env: Env, ev: ChangeEvent, x: (Both, Effect), b: nat)
    ensures
      Indexing(setting, env, ev)(x, b).1.None?
      <==>
      && env.ctx.Err(Retry.RunMoment(b)).None?
      && Idempotence.Completes(ev, x.0, env.calls(b).(cancelled := None))
  {
    TryMeaning(setting, env, ev, x, b);
  }

  lemma CancelledTouchesNothing(embed: Embedder, ev: ChangeEvent, s: Both, calls: Calls)
    requires calls.cancelled.Some?
    ensures Processed(embed, ev, s, calls).1 == s
  {
  }

  /** Every event has one last try. */
  lemma LastTryExists(policy: Retry.Policy, env: Env, op: Tries, start: (Both, Effect), b: nat) returns (last: nat)
    requires 1 <= b <= policy.maxAttempts
    requires forall c :: 1 <= c < b ==> TriedAgain(policy, env, op, start, c)
    ensures LastTry(policy, env, op, start, last) && b <= last
    decreases policy.maxAttempts - b
  {
    if TriedAgain(policy, env, op, start, b) {
      last := LastTryExists(policy, env, op, start, b + 1);
    } else {
      last := b;
    }
  }

  /** A message is indexed with b attempts exactly when try b finds the context live and
      every call it depends on succeeds on the stores the tries before it left, and each of
      those failed in a way that may pass, with the context live through its check and
      wait. */
  lemma IndexedExactly(setting: Setting, env: Env, w: World, msg: Message, ev: ChangeEvent, b: nat)
    requires setting.policy.maxAttempts >= 1 && setting.parse(msg.value) == Ok(ev) && b >= 1
    ensures
      var op, start := Indexing(setting, env, ev), (w.stores, EffectNone);
      var report := Handled(setting, env, w, msg).1;
      report.outcome == OutcomeIndexed && report.attempts == b
      <==>
      && b <= setting.policy.maxAttempts && env.ctx.Err(Retry.RunMoment(b)).None?
      && Idempotence.Completes(ev, Retry.After(op, start, 1, b - 1).0, env.calls(b).(cancelled := None))
      && forall c :: 1 <= c < b ==> TriedAgain(setting.policy, env, op, start, c)
  {
    IndexedByTry(setting, env, w, msg, ev, b);
    TrySucceeds(setting, env, ev, Retry.After(Indexing(setting, env, ev), (w.stores, EffectNone), 1, b - 1), b);
  }

  lemma IndexedByTry(setting: Setting, env: Env, w: World, msg: Message, ev: ChangeEvent, b: nat)
    requires setting.policy.maxAttempts >= 1 && setting.parse(msg.value) == Ok(ev) && b >= 1
    ensures
      var op, start := Indexing(setting, env, ev), (w.stores, EffectNone);
      var report := Handled(setting, env, w, msg).1;
      report.outcome == OutcomeIndexed && report.attempts == b
      <==>
      && b <= setting.policy.maxAttempts && TryAt(op, start, b).1.None?
      && forall c :: 1 <= c < b ==> TriedAgain(setting.policy, env, op, start, c)
  {
    var op, start := Indexing(setting, env, ev), (w.stores, EffectNone);
    var last := LastTryExists(setting.policy, env, op, start, 1);
    HandledComesTo(setting, env, w, msg, ev, last);
    SameLastTry(setting.policy, env, op, start, last, b);
  }

  /** A try that succeeds is the last if it is reached, and no other try is. */
  lemma SameLastTry(policy: Retry.Policy, env: Env, op: Tries, start: (Both, Effect), last: nat, b: nat)
    requires LastTry(policy, env, op, start, last) && b >= 1
    ensures
      last == b && TryAt(op, start, last).1.None?
      <==>
      && b <= policy.maxAttempts && TryAt(op, start, b).1.None?
      && forall c :: 1 <= c < b ==> TriedAgain(policy, env, op, start, c)
  {
    if b < last {
      assert TriedAgain(policy, env, op, start, b);
    } else if last < b {
      assert !TriedAgain(policy, env, op, start, last);
    }
  }

  /** Above all: with a live context and calls that succeed, a message is indexed at once. */
  lemma IndexedAtOnce(setting: Setting, env: Env, w: World, msg: Message, ev: ChangeEvent)
    requires setting.policy.maxAttempts >= 1 && setting.parse(msg.value) == Ok(ev)
    requires env.ctx.Err(Retry.RunMoment(1)).None?
    requires Idempotence.Completes(ev, w.stores, env.calls(1).(cancelled := None))
    ensures
      var (t, report, err) := Handled(setting, env, w, msg);
      var once := Processed(setting.embed, ev, w.stores, env.calls(1).(cancelled := None));
      && once.0.Returned?
      && report.outcome == OutcomeIndexed && report.attempts == 1 && report.effect == once.0.effect && err == None
      && t == w.(stores := once.1)
  {
    Idempotence.CompletionDependsOnCalls(setting.embed, ev, w.stores, env.calls(1).(cancelled := None));
    var op, start := Indexing(setting, env, ev), (w.stores, EffectNone);
    TryMeaning(setting, env, ev, start, 1);
    assert TryAt(op, start, 1) == op(start, 1);
    HandledComesTo(setting, env, w, msg, ev, 1);
  }

  /** Stores agree on every document but one. */
  predicate OthersSame(id: string, s: Both, t: Both) {
    t.keyword - {id} == s.keyword - {id} && t.vectors - {id} == s.vectors - {id}
  }

  /** What an effect claims about the stores it leaves. */
  predicate EffectHolds(embed: Embedder, ev: ChangeEvent, effect: Effect, t: Both) {
    match effect
    case EffectNone => false
    case EffectIndexed =>
      && Writable(ev)
      && ev.id in t.keyword && t.keyword[ev.id] == DocumentOf(ev)
      && ev.id in t.vectors && t.vectors[ev.id] == PointOf(embed, DocumentOf(ev))
    case EffectReapplied =>
      && Writable(ev) && Refused(t.keyword, DocumentOf(ev))
      && ev.id in t.vectors && t.vectors[ev.id] == PointOf(embed, DocumentOf(ev))
    case EffectStale => Idempotence.Overtaken(t.keyword, ev)
    case EffectDeleted => ev.id !in t.keyword && ev.id !in t.vectors
  }

  /** One try without an error leaves stores of which its effect is true. */
  lemma OnceHolds(embed: Embedder, ev: ChangeEvent, s: Both, calls: Calls)
    ensures
      var (t, effect, err) := IndexOnce(embed, ev, s, calls);
      && OthersSame(ev.id, s, t)
      && (err.None? ==> EffectHolds(embed, ev, effect, t))
  {
    Idempotence.EffectIsTrue(embed, ev, s, calls);
    ClassifiedMeaning(Processed(embed, ev, s, calls).0.error);
  }

  /** Through all its retries a message touches no document but its own, and the
      effect finally reported is true of the stores it leaves. */
  lemma ReportedEffectHolds(setting: Setting, env: Env, w: World, msg: Message, ev: ChangeEvent)
    requires DecodeChangeEvent(setting, msg.value) == Ok(ev)
    ensures
      var (t, report, _) := Handled(setting, env, w, msg);
      && OthersSame(ev.id, w.stores, t.stores)
      && (report.outcome == OutcomeIndexed ==> EffectHolds(setting.embed, ev, report.effect, t.stores))
  {
    var (r, s, _) :=
      Retry.Runs(setting.policy, KindOfError, env.ctx, Indexing(setting, env, ev), (w.stores, EffectNone), 1);
    RunHolds(setting, env, ev, (w.stores, EffectNone));
    ConcludedReports(env, w.(stores := s.0), msg, r, s.1);
  }

  lemma RunHolds(setting: Setting, env: Env, ev: ChangeEvent, start: (Both, Effect))
    ensures
      var (r, s, _) := Retry.Runs(setting.policy, KindOfError, env.ctx, Indexing(setting, env, ev), start, 1);
      && OthersSame(ev.id, start.0, s.0)
      && (r.err.None? ==> EffectHolds(setting.embed, ev, s.1, s.0))
  {
    var kept := (x: (Both, Effect), y: (Both, Effect)) => OthersSame(ev.id, x.0, y.0);
    var good := (x: (Both, Effect)) => EffectHolds(setting.embed, ev, x.1, x.0);
    var op := Indexing(setting, env, ev);
    forall x, b: nat
      ensures kept(x, op(x, b).0) && (op(x, b).1.None? ==> good(op(x, b).0))
    {
      TryHolds(setting, env, ev, x, b);
    }
    Retry.RunPreserves(setting.policy, KindOfError, env.ctx, op, start, 1, kept, good);
  }

  /** ... as the operation handed to the runner. */
  lemma TryHolds(setting: Setting, env: Env, ev: ChangeEvent, s: (Both, Effect), a: nat)
    ensures
      var (t, err) := Indexing(setting, env, ev)(s, a);
      && OthersSame(ev.id, s.0, t.0)
      && (err.None? ==> EffectHolds(setting.embed, ev, t.1, t.0))
  {
    OnceHolds(setting.embed, ev, s.0, CallsOf(env, a));
  }

  lemma ConcludedReports(env: Env, w: World, msg: Message, r: Retry.Outcome<Error>, effect: Effect)
    ensures
      var (t, report, _) := Concluded(env, w, msg, r, effect);
      && t.stores == w.stores
      && (report.outcome == OutcomeIndexed <==> r.err.None?)
      && (report.outcome == OutcomeIndexed ==> report.effect == effect)
  {
  }
}
