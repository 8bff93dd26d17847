/**
 The consumer's fetch loop: every fetched message is tracked before it is
 submitted, failures to fetch are endured up to a limit, and a finished message is
 committed as far as the tracker allows.
 */
module Consumers {
  import opened Prelude
  import opened Errors
  import opened Pipelines
  import opened OffsetTracker

  const MaxFetchFailures := 10

  /** One turn of the loop, as the reader, the workers and the context make it: a
      fetch that failed, perhaps because the context was cancelled or before it was
      cancelled during the delay, or a message and what submitting it came to. */
  datatype Turn =
    | Failed(error: Error, cancelled: bool, cancelledInDelay: bool)
    | Accepted(msg: Message)
    | Refused(msg: Message, error: Error, cancelled: bool)
  {
    predicate Fetched() {
      !Failed?
    }
  }

  datatype Ending = Stopped | FetchFailed(failures: nat, cause: Error) | SubmitFailed(cause: Error)

  /** Where the loop ends, from turn i on, and how. A fetch that blocks until the
      context is cancelled is where the turns run out. */
  function Looped(turns: seq<Turn>, i: nat, failures: nat): (r: (Ending, nat))
    requires i <= |turns|
    ensures i <= r.1 <= |turns|
    decreases |turns| - i
  {
    if i == |turns| then (Stopped, i)
    else
      match turns[i]
      case Failed(e, cancelled, cancelledInDelay) =>
        if cancelled then (Stopped, i + 1)
        else if failures + 1 >= MaxFetchFailures then (FetchFailed(failures + 1, e), i + 1)
        else if cancelledInDelay then (Stopped, i + 1)
        else Looped(turns, i + 1, failures + 1)
      case Accepted(_) => Looped(turns, i + 1, 0)
      case Refused(_, e, cancelled) => (if cancelled then Stopped else SubmitFailed(e), i + 1)
  }

  /** The messages fetched, and those the workers accepted. */
  function FetchedIn(turns: seq<Turn>): seq<Message> {
    if turns == [] then []
    else
      var before := FetchedIn(turns[..|turns| - 1]);
      if Last(turns).Fetched() then before + [Last(turns).msg] else before
  }

  function AcceptedIn(turns: seq<Turn>): seq<Message> {
    if turns == [] then []
    else
      var before := AcceptedIn(turns[..|turns| - 1]);
      if Last(turns).Accepted? then before + [Last(turns).msg] else before
  }

  /** The tracker after adding messages in order. */
  function AllAdded(t: Tracked, msgs: seq<Message>): Tracked {
    if msgs == [] then t
    else
      var last := Last(msgs);
      Added(AllAdded(t, msgs[..|msgs| - 1]), TopicPartition(last.topic, last.partition), last.offset)
  }

  class Consumer {
    const offsets: Tracker
    var submitted: seq<Message>
    var commits: seq<(TopicPartition, int)>

    ghost predicate Valid()
      reads this, offsets
    {
      offsets.Valid()
    }

    constructor ()
      ensures Valid() && fresh(offsets) && offsets.Value() == map[] && submitted == [] && commits == []
    {
      offsets := new Tracker();
      submitted, commits := [], [];
    }

    method Track(msg: Message)
      requires Valid()
      modifies offsets, offsets.partitions.Values
      ensures Valid() && fresh(offsets.partitions.Values - old(offsets.partitions.Values))
      ensures offsets.Value() == Added(old(offsets.Value()), TopicPartition(msg.topic, msg.partition), msg.offset)
    {
      offsets.Add(msg.topic, msg.partition, msg.offset);
    }

    /** A message is finished. A commit that is refused is not retried. */
    method Done(msg: Message, accepted: bool)
      requires Valid()
      modifies this`commits, offsets.partitions.Values
      ensures Valid()
      ensures
        var (t, last) := Marked(old(offsets.Value()), TopicPartition(msg.topic, msg.partition), msg.offset);
        && offsets.Value() == t
        && commits
           == if last.Some? && accepted then old(commits) + [(TopicPartition(msg.topic, msg.partition), last.value)]
              else old(commits)
    {
      var offset, ok := offsets.MarkDone(msg.topic, msg.partition, msg.offset);
      if !ok {
        return;
      }
      if accepted {
        commits := commits + [(TopicPartition(msg.topic, msg.partition), offset)];
      }
    }

    /** Track a message, then submit it. */
    method Deliver(turn: Turn)
      requires Valid() && turn.Fetched()
      modifies this`submitted, offsets, offsets.partitions.Values
      ensures Valid() && fresh(offsets.partitions.Values - old(offsets.partitions.Values))
      ensures
        offsets.Value()
        == Added(old(offsets.Value()), TopicPartition(turn.msg.topic, turn.msg.partition), turn.msg.offset)
      ensures submitted == if turn.Accepted? then old(submitted) + [turn.msg] else old(submitted)
    {
      Track(turn.msg);
      if turn.Accepted? {
        submitted := submitted + [turn.msg];
      }
    }

    method Run(turns: seq<Turn>) returns (ending: Ending, taken: nat)
      requires Valid()
      modifies this`submitted, offsets, offsets.partitions.Values
      ensures Valid()
      ensures (ending, taken) == Looped(turns, 0, 0)
      ensures offsets.Value() == AllAdded(old(offsets.Value()), FetchedIn(turns[..taken]))
      ensures submitted == old(submitted) + AcceptedIn(turns[..taken])
    {
      var failures := 0;
      var i := 0;
      ghost var start, fetched := offsets.Value(), [];
      while i < |turns|
        invariant 0 <= i <= |turns| && Valid()
        invariant fresh(offsets.partitions.Values - old(offsets.partitions.Values))
        invariant Looped(turns, 0, 0) == Looped(turns, i, failures)
        invariant fetched == FetchedIn(turns[..i])
        invariant offsets.Value() == AllAdded(start, fetched)
        invariant submitted == old(submitted) + AcceptedIn(turns[..i])
      {
        var turn := turns[i];
        TurnTaken(turns, i);
        i := i + 1;
        if turn.Failed? {
          assert FetchedIn(turns[..i]) == fetched;
          if turn.cancelled {
            return Stopped, i;
          }
          failures := failures + 1;
          if failures >= MaxFetchFailures {
            return FetchFailed(failures, turn.error), i;
          }
          if turn.cancelledInDelay {
            return Stopped, i;
          }
          continue;
        }
        failures := 0;
        Deliver(turn);
        OneMoreAdded(start, fetched, turn.msg);
        fetched := fetched + [turn.msg];
        if turn.Refused? {
          return if turn.cancelled then Stopped else SubmitFailed(turn.error), i;
        }
      }
      return Stopped, i;
    }
  }

  lemma TurnTaken(turns: seq<Turn>, i: nat)
    requires i < |turns|
    ensures
      FetchedIn(turns[..i + 1])
      == if turns[i].Fetched() then FetchedIn(turns[..i]) + [turns[i].msg] else FetchedIn(turns[..i])
    ensures
      AcceptedIn(turns[..i + 1])
      == if turns[i].Accepted? then AcceptedIn(turns[..i]) + [turns[i].msg] else AcceptedIn(turns[..i])
  {
    assert turns[..i + 1][..i] == turns[..i];
  }

  lemma OneMoreAdded(t: Tracked, msgs: seq<Message>, msg: Message)
    ensures AllAdded(t, msgs + [msg]) == Added(AllAdded(t, msgs), TopicPartition(msg.topic, msg.partition), msg.offset)
  {
    assert (msgs + [msg])[..|msgs|] == msgs;
  }

  // ------------------------------------------------------------------ properties

  /** A turn that does not end the loop by itself. */
  predicate Quiet(turn: Turn) {
    turn.Accepted? || (turn.Failed? && !turn.cancelled && !turn.cancelledInDelay)
  }

  /** The last turns before the n-th were failures, as many as are endured. */
  predicate Exhausted(turns: seq<Turn>, n: nat) {
    n <= |turns| && FailuresBefore(turns, n) >= MaxFetchFailures
  }

  /** How many fetches in a row failed before turn n. */
  function FailuresBefore(turns: seq<Turn>, n: nat): (k: nat)
    requires n <= |turns|
    ensures k <= n && (forall i :: n - k <= i < n ==> turns[i].Failed?)
    ensures k < n ==> turns[n - k - 1].Fetched()
  {
    if n > 0 && turns[n - 1].Failed? then 1 + FailuresBefore(turns, n - 1) else 0
  }

  /** The loop ends after the first turn that ends it by itself or is the tenth
      failure in a row -- a fetched message starts the count again -- and it reports
      failure exactly when it was not cancelled there. */
  lemma {:induction false} EndsAt(turns: seq<Turn>, i: nat, n: nat)
    requires i <= n <= |turns|
    requires forall j :: i <= j < n - 1 ==> Quiet(turns[j])
    requires forall j :: i <= j < n ==> !Exhausted(turns, j)
    requires i < n && (Exhausted(turns, n) || !Quiet(turns[n - 1]))
    ensures Looped(turns, i, FailuresBefore(turns, i)).1 == n
    ensures
      Looped(turns, i, FailuresBefore(turns, i)).0
      == match turns[n - 1] {
           case Failed(e, cancelled, _) =>
             if !cancelled && Exhausted(turns, n) then FetchFailed(MaxFetchFailures, e) else Stopped
           case Accepted(_) => Stopped
           case Refused(_, e, cancelled) => if cancelled then Stopped else SubmitFailed(e)
         }
    decreases n - i
  {
    assert !Exhausted(turns, i);
    assert FailuresBefore(turns, i + 1) == if turns[i].Failed? then 1 + FailuresBefore(turns, i) else 0;
    if i < n - 1 {
      assert !Exhausted(turns, i + 1);
      EndsAt(turns, i + 1, n);
    }
  }

  /** Without such a turn it goes on until it is cancelled. */
  lemma {:induction false} GoesOn(turns: seq<Turn>, i: nat)
    requires i <= |turns|
    requires forall j :: i <= j < |turns| ==> Quiet(turns[j])
    requires forall j :: i <= j <= |turns| ==> !Exhausted(turns, j)
    ensures Looped(turns, i, FailuresBefore(turns, i)) == (Stopped, |turns|)
    decreases |turns| - i
  {
    if i < |turns| {
      assert FailuresBefore(turns, i + 1) == if turns[i].Failed? then 1 + FailuresBefore(turns, i) else 0;
      assert !Exhausted(turns, i + 1);
      GoesOn(turns, i + 1);
    }
  }

  /** Ten failures in a row are the end, nine are not. */
  lemma TenthFailureEnds(turns: seq<Turn>)
    requires forall i :: 0 <= i < |turns| ==> turns[i].Failed? && Quiet(turns[i])
    ensures |turns| >= 10 ==> Looped(turns, 0, 0) == (FetchFailed(10, turns[9].error), 10)
    ensures |turns| < 10 ==> Looped(turns, 0, 0) == (Stopped, |turns|)
  {
    FailuresGoOn(turns, 0);
  }

  lemma {:induction false} FailuresGoOn(turns: seq<Turn>, i: nat)
    requires i <= |turns| && i < 10
    requires forall j :: 0 <= j < |turns| ==> turns[j].Failed? && Quiet(turns[j])
    ensures
      Looped(turns, i, i) == if |turns| >= 10 then (FetchFailed(10, turns[9].error), 10) else (Stopped, |turns|)
    decreases 10 - i
  {
    if i < |turns| && i + 1 < 10 {
      FailuresGoOn(turns, i + 1);
    }
  }

  /** The offsets of one partition's messages. */
  function OffsetsOf(msgs: seq<Message>, key: TopicPartition): seq<int> {
    if msgs == [] then []
    else
      var before := OffsetsOf(msgs[..|msgs| - 1], key);
      if TopicPartition(Last(msgs).topic, Last(msgs).partition) == key then before + [Last(msgs).offset] else before
  }

  /** What the loop fetched is in flight, partition by partition in the order it was
      fetched, whether the workers accepted it or not. */
  lemma {:induction false} FetchedAreInFlight(t: Tracked, msgs: seq<Message>, key: TopicPartition)
    ensures At(AllAdded(t, msgs), key) == Offsets(At(t, key).inFlight + OffsetsOf(msgs, key), At(t, key).done)
  {
    if msgs != [] {
      FetchedAreInFlight(t, msgs[..|msgs| - 1], key);
    }
  }

  /** Everything submitted was fetched, and the workers took all that was fetched but
      perhaps the very last message. */
  lemma {:induction false} OnlyLastRefused(turns: seq<Turn>, i: nat, failures: nat)
    requires i <= |turns| && AcceptedIn(turns[..i]) == FetchedIn(turns[..i])
    ensures
      var n := Looped(turns, i, failures).1;
      var fetched, accepted := FetchedIn(turns[..n]), AcceptedIn(turns[..n]);
      accepted == fetched || (n > 0 && turns[n - 1].Refused? && fetched == accepted + [turns[n - 1].msg])
    decreases |turns| - i
  {
    if i < |turns| {
      TurnTaken(turns, i);
      var turn := turns[i];
      if turn.Accepted? {
        OnlyLastRefused(turns, i + 1, 0);
      } else if turn.Failed? && Quiet(turn) && failures + 1 < MaxFetchFailures {
        OnlyLastRefused(turns, i + 1, failures + 1);
      }
    }
  }
}
