/**
 A message in a worker's hands, one external call at a time. This is the form in
 which handlers of different workers interleave, and crash.
 */
module Handlers {
  import opened Prelude
  import opened RetryKinds
  import opened Errors
  import opened Stores
  import opened Events
  import opened ChangeService
  import opened Pipelines
  import Idempotence
  import Retry

  datatype Handler =
    | Decoding
    | Trying(pc: Pc)
    | Deciding              // a try failed
    | Publishing            // given up on; the letter is not stored yet
    | Finished(outcome: Outcome)

  datatype Move =
    | Decode(cancelled: Option<Error>)
    | CallStore(call: Call)
    | TryAgain(cancelled: Option<Error>)
    | GiveUp
    | Stop                  // the context was cancelled
    | Publish(call: Call, cause: Error, kind: Kind, attempts: nat, stopped: bool)

  /** The handler is at a point where a handler of this message can be. */
  predicate HandlerFor(setting: Setting, msg: Message, h: Handler) {
    var decoded := DecodeChangeEvent(setting, msg.value);
    match h
    case Trying(pc) => decoded.Ok? && PcFor(decoded.value, pc) && !pc.Returned?
    case Deciding => decoded.Ok?
    case Publishing => !Skippable(setting, msg)
    case Finished(OutcomeSkipped) => Skippable(setting, msg)
    case Finished(OutcomeIndexed) => decoded.Ok?
    case _ => true
  }

  function Landing(pc: Pc): Handler {
    if !pc.Returned? then Trying(pc) else if pc.error.None? then Finished(OutcomeIndexed) else Deciding
  }

  /** One move of a handler; a move that is not possible here changes nothing. */
  function Moved(setting: Setting, msg: Message, h: Handler, w: World, m: Move): (r: (Handler, World))
    requires HandlerFor(setting, msg, h)
    ensures HandlerFor(setting, msg, r.0)
  {
    var decoded := DecodeChangeEvent(setting, msg.value);
    match (h, m)
    case (Decoding, Decode(cancelled)) =>
      (if decoded.Ok? then Landing(Enter(decoded.value, cancelled))
       else if Is(decoded.error, ErrSkipMessage) then Finished(OutcomeSkipped)
       else Publishing, w)
    case (Trying(pc), CallStore(call)) =>
      StepMakesProgress(setting.embed, decoded.value, pc, w.stores, call);
      var (pc', stores) := Step(setting.embed, decoded.value, pc, w.stores, call);
      (Landing(pc'), w.(stores := stores))
    case (Deciding, TryAgain(cancelled)) => (Landing(Enter(decoded.value, cancelled)), w)
    case (Deciding, GiveUp) => (Publishing, w)
    case (Deciding, Stop) => (Finished(OutcomeCancelled), w)
    case (Publishing, Publish(call, cause, kind, attempts, stopped)) =>
      var stored := w.(letters := w.letters + [LetterOf(msg, cause, kind, attempts)]);
      (match call {
        case Succeeds => (Finished(OutcomeDeadLettered), stored)
        case Fails(landed, _) =>
          (Finished(if stopped then OutcomeCancelled else OutcomeFailed), if landed then stored else w)
      })
    case _ => (h, w)
  }

  function MovedBy(setting: Setting, msg: Message, h: Handler, w: World, ms: seq<Move>): (r: (Handler, World))
    requires HandlerFor(setting, msg, h)
    ensures HandlerFor(setting, msg, r.0)
    decreases |ms|
  {
    if ms == [] then (h, w)
    else
      var (g, v) := Moved(setting, msg, h, w, ms[0]);
      MovedBy(setting, msg, g, v, ms[1..])
  }

  lemma {:induction false} MovedByConcat(
    setting: Setting, msg: Message, h: Handler, w: World, ms: seq<Move>, ns: seq<Move>)
    requires HandlerFor(setting, msg, h)
    ensures
      var (g, v) := MovedBy(setting, msg, h, w, ms);
      MovedBy(setting, msg, h, w, ms + ns) == MovedBy(setting, msg, g, v, ns)
    decreases |ms|
  {
    if ms == [] {
      assert ms + ns == ns;
    } else {
      var (g, v) := Moved(setting, msg, h, w, ms[0]);
      MovedByConcat(setting, msg, g, v, ms[1..], ns);
      assert (ms + ns)[1..] == ms[1..] + ns;
    }
  }

  // ---------------------------------------- handling a message is such a sequence

  /** An attempt's calls, as moves. */
  lemma {:induction false} CallingIsMoves(
    setting: Setting, msg: Message, ev: ChangeEvent, pc: Pc, w: World, calls: Calls, n: nat)
    returns (ms: seq<Move>)
    requires DecodeChangeEvent(setting, msg.value) == Ok(ev) && PcFor(ev, pc) && CallsLeft(pc) <= n
    ensures
      var (pc', stores) := Calling(setting.embed, ev, pc, w.stores, calls, n);
      && pc'.Returned?
      && HandlerFor(setting, msg, Landing(pc))
      && MovedBy(setting, msg, Landing(pc), w, ms) == (Landing(pc'), w.(stores := stores))
    decreases n
  {
    if pc.Returned? {
      ms := [];
    } else {
      var call := CallAt(pc, calls);
      StepMakesProgress(setting.embed, ev, pc, w.stores, call);
      var (pc', stores) := Step(setting.embed, ev, pc, w.stores, call);
      var rest := CallingIsMoves(setting, msg, ev, pc', w.(stores := stores), calls, n - 1);
      ms := [CallStore(call)] + rest;
      assert ms[1..] == rest;
    }
  }

  /** One try, entered from decoding or after a failed try. */
  lemma TryIsMoves(setting: Setting, msg: Message, ev: ChangeEvent, h: Handler, w: World, calls: Calls)
    returns (ms: seq<Move>)
    requires DecodeChangeEvent(setting, msg.value) == Ok(ev) && (h.Decoding? || h.Deciding?)
    ensures
      var (t, effect, err) := IndexOnce(setting.embed, ev, w.stores, calls);
      MovedBy(setting, msg, h, w, ms)
      == (if err.None? then Finished(OutcomeIndexed) else Deciding, w.(stores := t))
  {
    var pc := Enter(ev, calls.cancelled);
    var rest := CallingIsMoves(setting, msg, ev, pc, w, calls, MaxCalls);
    var first := if h.Decoding? then Decode(calls.cancelled) else TryAgain(calls.cancelled);
    ms := [first] + rest;
    assert ms[1..] == rest;
    ClassifiedMeaning(Processed(setting.embed, ev, w.stores, calls).0.error);
  }

  /** A run of tries. */
  lemma {:induction false} RunsAreMoves(
    setting: Setting, msg: Message, ev: ChangeEvent, env: Env, h: Handler, w: World, effect: Effect, a: nat)
    returns (ms: seq<Move>)
    requires DecodeChangeEvent(setting, msg.value) == Ok(ev) && (h.Decoding? || h.Deciding?)
    ensures
      var (r, s, _) :=
        Retry.Runs(setting.policy, KindOfError, env.ctx, Indexing(setting, env, ev), (w.stores, effect), a);
      MovedBy(setting, msg, h, w, ms)
      == (if r.err.None? then Finished(OutcomeIndexed) else Deciding, w.(stores := s.0))
    decreases setting.policy.maxAttempts - a
  {
    ms := TryIsMoves(setting, msg, ev, h, w, CallsOf(env, a));
    var (t, effect', err) := IndexOnce(setting.embed, ev, w.stores, CallsOf(env, a));
    if && err.Some? && env.ctx.Err(Retry.CheckMoment(a)).None? && KindOfError(err.value).ShouldRetry()
       && a < setting.policy.maxAttempts && env.ctx.WaitErr(a, Retry.Backoff(setting.policy, a)).None? {
      var rest := RunsAreMoves(setting, msg, ev, env, Deciding, w.(stores := t), effect', a + 1);
      MovedByConcat(setting, msg, h, w, ms, rest);
      ms := ms + rest;
    }
  }

  lemma UndecodedIsMoves(setting: Setting, env: Env, w: World, msg: Message) returns (ms: seq<Move>)
    requires DecodeChangeEvent(setting, msg.value).Err?
    ensures
      var (t, report, _) := Handled(setting, env, w, msg);
      MovedBy(setting, msg, Decoding, w, ms) == (Finished(report.outcome), t)
  {
    var e := DecodeChangeEvent(setting, msg.value).error;
    ms := [Decode(None)];
    OneMove(setting, msg, Decoding, w, Decode(None));
    if !Is(e, ErrSkipMessage) {
      var last := DeadLetterIsMove(setting, env, w, msg, e, NonRetryable, 0);
      MovedByConcat(setting, msg, Decoding, w, ms, [last]);
      ms := ms + [last];
    }
  }

  /** Giving a message up after its tries. */
  lemma GivenUpIsMoves(
    setting: Setting, env: Env, w: World, msg: Message, cause: Error, kind: Kind, attempts: nat)
    returns (ms: seq<Move>)
    requires DecodeChangeEvent(setting, msg.value).Ok?
    ensures
      var (t, report, _) := DeadLettered(env, w, msg, cause, kind, attempts);
      MovedBy(setting, msg, Deciding, w, ms) == (Finished(report.outcome), t)
  {
    var last := DeadLetterIsMove(setting, env, w, msg, cause, kind, attempts);
    OneMove(setting, msg, Deciding, w, GiveUp);
    MovedByConcat(setting, msg, Deciding, w, [GiveUp], [last]);
    ms := [GiveUp] + [last];
  }

  lemma ConcludedIsMoves(
    setting: Setting, env: Env, w: World, msg: Message, r: Retry.Outcome<Error>, effect: Effect)
    returns (ms: seq<Move>)
    requires DecodeChangeEvent(setting, msg.value).Ok?
    ensures
      var (t, report, _) := Concluded(env, w, msg, r, effect);
      MovedBy(setting, msg, if r.err.None? then Finished(OutcomeIndexed) else Deciding, w, ms)
      == (Finished(report.outcome), t)
  {
    if r.err.None? {
      ms := [];
    } else if IsCancellation(r.err.value) && env.ctx.Err(Retry.RunMoment(r.attempts + 1)).Some? {
      OneMove(setting, msg, Deciding, w, Stop);
      ms := [Stop];
    } else {
      ms := GivenUpIsMoves(setting, env, w, msg, r.err.value, r.kind, r.attempts);
    }
  }

  lemma TriedIsMoves(setting: Setting, env: Env, w: World, msg: Message, ev: ChangeEvent) returns (ms: seq<Move>)
    requires DecodeChangeEvent(setting, msg.value) == Ok(ev)
    ensures
      var (t, report, _) := Handled(setting, env, w, msg);
      MovedBy(setting, msg, Decoding, w, ms) == (Finished(report.outcome), t)
  {
    var tries := RunsAreMoves(setting, msg, ev, env, Decoding, w, EffectNone, 1);
    var (r, s, _) :=
      Retry.Runs(setting.policy, KindOfError, env.ctx, Indexing(setting, env, ev), (w.stores, EffectNone), 1);
    var rest := ConcludedIsMoves(setting, env, w.(stores := s.0), msg, r, s.1);
    MovedByConcat(setting, msg, Decoding, w, tries, rest);
    ms := tries + rest;
  }

  /** Handling a message in one go is one of the interleavable sequences of moves:
      the same stores, the same letters and the same outcome. */
  lemma HandledIsMoves(setting: Setting, env: Env, w: World, msg: Message) returns (ms: seq<Move>)
    ensures
      var (t, report, _) := Handled(setting, env, w, msg);
      MovedBy(setting, msg, Decoding, w, ms) == (Finished(report.outcome), t)
  {
    match DecodeChangeEvent(setting, msg.value) {
      case Err(_) => ms := UndecodedIsMoves(setting, env, w, msg);
      case Ok(ev) => ms := TriedIsMoves(setting, env, w, msg, ev);
    }
  }

  lemma OneMove(setting: Setting, msg: Message, h: Handler, w: World, m: Move)
    requires HandlerFor(setting, msg, h)
    ensures MovedBy(setting, msg, h, w, [m]) == Moved(setting, msg, h, w, m)
  {
    assert [m][1..] == [];
  }

  lemma DeadLetterIsMove(
    setting: Setting, env: Env, w: World, msg: Message, cause: Error, kind: Kind, attempts: nat)
    returns (last: Move)
    requires !Skippable(setting, msg)
    ensures
      var (t, report, _) := DeadLettered(env, w, msg, cause, kind, attempts);
      MovedBy(setting, msg, Publishing, w, [last]) == (Finished(report.outcome), t)
  {
    last := PublishMove(env, cause, kind, attempts);
    OneMove(setting, msg, Publishing, w, last);
  }

  function PublishMove(env: Env, cause: Error, kind: Kind, attempts: nat): Move {
    Publish(env.publish, cause, kind, attempts, env.ctx.Err(Retry.CheckMoment(attempts + 1)).Some?)
  }
}
