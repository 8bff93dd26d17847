/**
 The consumer's offset tracker: which fetched offsets are finished, and how far
 the broker may be told to commit.
 */
module OffsetTracker {
  import opened Prelude

  datatype TopicPartition = TopicPartition(topic: string, partition: int)

  /** What the tracker knows about one partition. */
  datatype Offsets = Offsets(inFlight: seq<int>, done: set<int>)

  type Tracked = map<TopicPartition, Offsets>

  const Nothing := Offsets([], {})

  /** The partition's record; one never added to has an empty record. */
  function At(t: Tracked, key: TopicPartition): Offsets {
    if key in t then t[key] else Nothing
  }

  /** Take finished offsets off the front, remembering the last one taken. */
  function Drain(p: Offsets, last: Option<int>): (Offsets, Option<int>)
    decreases |p.inFlight|
  {
    if |p.inFlight| == 0 || p.inFlight[0] !in p.done then (p, last)
    else Drain(Offsets(p.inFlight[1..], p.done - {p.inFlight[0]}), Some(p.inFlight[0]))
  }

  function Added(t: Tracked, key: TopicPartition, offset: int): Tracked {
    t[key := Offsets(At(t, key).inFlight + [offset], At(t, key).done)]
  }

  function Marked(t: Tracked, key: TopicPartition, offset: int): (Tracked, Option<int>) {
    if key !in t then (t, None)
    else
      var (p, last) := Drain(t[key].(done := t[key].done + {offset}), None);
      (t[key := p], last)
  }

  // ------------------------------------------------------------ the classes

  class PartitionOffsets {
    var inFlight: seq<int>  // fetched, and not known to be finished up to here
    var done: set<int>

    constructor ()
      ensures inFlight == [] && done == {}
    {
      inFlight, done := [], {};
    }

    ghost function Value(): Offsets
      reads this
    {
      Offsets(inFlight, done)
    }
  }

  class Tracker {
    var partitions: map<TopicPartition, PartitionOffsets>

    /** Partitions do not share their records. */
    ghost predicate Valid()
      reads this
    {
      forall k, l :: k in partitions && l in partitions && k != l ==> partitions[k] != partitions[l]
    }

    ghost function Value(): Tracked
      reads this, partitions.Values
    {
      map k | k in partitions :: partitions[k].Value()
    }

    constructor ()
      ensures Valid() && Value() == map[]
    {
      partitions := map[];
    }

    method Add(topic: string, partition: int, offset: int)
      requires Valid()
      modifies this, partitions.Values
      ensures Valid() && fresh(partitions.Values - old(partitions.Values))
      ensures Value() == Added(old(Value()), TopicPartition(topic, partition), offset)
    {
      var key := TopicPartition(topic, partition);
      if key !in partitions {
        var p := new PartitionOffsets();
        partitions := partitions[key := p];
      }
      var p := partitions[key];
      p.inFlight := p.inFlight + [offset];
    }

    method MarkDone(topic: string, partition: int, offset: int)
      returns (committable: int, advanced: bool)
      requires Valid()
      modifies partitions.Values
      ensures Valid()
      ensures
        var (t, last) := Marked(old(Value()), TopicPartition(topic, partition), offset);
        && Value() == t
        && advanced == last.Some?
        && committable == if last.Some? then last.value else 0
    {
      var key := TopicPartition(topic, partition);
      if key !in partitions {
        return 0, false;
      }
      var p := partitions[key];
      p.done := p.done + {offset};
      ghost var start := p.Value();
      ghost var taken := None;
      committable, advanced := 0, false;
      while |p.inFlight| > 0 && p.inFlight[0] in p.done
        invariant Drain(start, None) == Drain(p.Value(), taken)
        invariant advanced == taken.Some?
        invariant committable == if taken.Some? then taken.value else 0
        invariant forall k :: k in partitions && k != key ==> partitions[k].Value() == old(partitions[k].Value())
        decreases |p.inFlight|
        modifies p
      {
        committable, advanced := p.inFlight[0], true;
        taken := Some(p.inFlight[0]);
        p.done := p.done - {p.inFlight[0]};
        p.inFlight := p.inFlight[1..];
      }
    }
  }

  // ------------------------------------------------------------ histories

  datatype Op = Add(key: TopicPartition, offset: int) | Mark(key: TopicPartition, offset: int)

  function Apply(t: Tracked, op: Op): (Tracked, Option<int>) {
    match op
    case Add(key, o) => (Added(t, key, o), None)
    case Mark(key, o) => Marked(t, key, o)
  }

  /** The tracker after the first n calls of a history. */
  function Run(ops: seq<Op>, n: nat): Tracked
    requires n <= |ops|
  {
    if n == 0 then map[] else Apply(Run(ops, n - 1), ops[n - 1]).0
  }

  /** What the call at i returned. */
  function ReturnAt(ops: seq<Op>, i: nat): Option<int>
    requires i < |ops|
  {
    Apply(Run(ops, i), ops[i]).1
  }

  /** The partition's offsets in fetch order, after the first n calls. */
  function Fetched(ops: seq<Op>, n: nat, key: TopicPartition): seq<int>
    requires n <= |ops|
  {
    if n == 0 then []
    else
      var before, op := Fetched(ops, n - 1, key), ops[n - 1];
      if op.Add? && op.key == key then before + [op.offset] else before
  }

  /** The partition's offsets reported finished. */
  function Finished(ops: seq<Op>, n: nat, key: TopicPartition): set<int>
    requires n <= |ops|
  {
    if n == 0 then {}
    else
      var before, op := Finished(ops, n - 1, key), ops[n - 1];
      if op.Mark? && op.key == key then before + {op.offset} else before
  }

  /** How far offsets are finished without a gap, counted from n finished ones. */
  function FinishedFrom(fetched: seq<int>, finished: set<int>, n: nat): (m: nat)
    requires n <= |fetched|
    ensures n <= m <= |fetched|
    decreases |fetched| - n
  {
    if n < |fetched| && fetched[n] in finished then FinishedFrom(fetched, finished, n + 1) else n
  }

  /** How many offsets at the front of the fetch order are all finished. */
  function FinishedPrefix(fetched: seq<int>, finished: set<int>): (n: nat)
    ensures n <= |fetched|
  {
    FinishedFrom(fetched, finished, 0)
  }

  /** The length of a partition's finished prefix. */
  function Progress(ops: seq<Op>, n: nat, key: TopicPartition): (m: nat)
    requires n <= |ops|
    ensures m <= |Fetched(ops, n, key)|
  {
    FinishedPrefix(Fetched(ops, n, key), Finished(ops, n, key))
  }

  /** How the consumer calls the tracker: offsets arrive in increasing order, and
      each is marked at most once, after it was added. */
  ghost predicate WellUsed(ops: seq<Op>) {
    forall n :: 0 <= n < |ops| ==> SuitsAt(ops, n)
  }

  ghost predicate SuitsAt(ops: seq<Op>, n: nat)
    requires n < |ops|
  {
    Suits(ops[n], Fetched(ops, n, ops[n].key), Finished(ops, n, ops[n].key))
  }

  ghost predicate Suits(op: Op, fetched: seq<int>, finished: set<int>) {
    match op
    case Add(_, o) => forall i :: 0 <= i < |fetched| ==> fetched[i] < o
    case Mark(_, o) => o in fetched && o !in finished
  }

  // ------------------------------------------------------------ prefixes

  /** The finished prefix is the one whose offsets are all finished and whose
      next offset, if there is one, is not. */
  lemma {:induction false} PrefixFrom(fetched: seq<int>, finished: set<int>, n: nat, m: nat)
    requires n <= m <= |fetched|
    ensures
      m == FinishedFrom(fetched, finished, n)
      <==>
      (forall i :: n <= i < m ==> fetched[i] in finished) && (m < |fetched| ==> fetched[m] !in finished)
    decreases m - n
  {
    if n < m && fetched[n] in finished {
      PrefixFrom(fetched, finished, n + 1, m);
    }
  }

  lemma PrefixMeaning(fetched: seq<int>, finished: set<int>, n: nat)
    requires n <= |fetched|
    ensures
      n == FinishedPrefix(fetched, finished)
      <==>
      (forall i :: 0 <= i < n ==> fetched[i] in finished) && (n < |fetched| ==> fetched[n] !in finished)
  {
    PrefixFrom(fetched, finished, 0, n);
  }

  /** Finishing more only makes the prefix longer, and it can be counted on from
      where it was. */
  lemma PrefixContinues(fetched: seq<int>, finished: set<int>, later: seq<int>, more: set<int>)
    requires fetched <= later && finished <= more
    ensures
      FinishedPrefix(fetched, finished)
      <= FinishedPrefix(later, more)
      == FinishedFrom(later, more, FinishedPrefix(fetched, finished))
  {
    var n := FinishedPrefix(fetched, finished);
    var m := FinishedFrom(later, more, n);
    PrefixMeaning(fetched, finished, n);
    PrefixFrom(later, more, n, m);
    assert forall i :: 0 <= i < n ==> later[i] == fetched[i];
    PrefixMeaning(later, more, m);
  }

  // ------------------------------------------------------------ refinement

  /** A partition's record, after n fetched offsets went: the offsets past them, and
      the finished ones among those. */
  ghost predicate Holds(p: Offsets, fetched: seq<int>, finished: set<int>, n: nat) {
    && n <= |fetched| && p.inFlight == fetched[n..] && p.done <= finished
    && forall i :: 0 <= i < |fetched| ==> (fetched[i] in p.done <==> i >= n && fetched[i] in finished)
  }

  /** Draining takes the finished offsets up to the first unfinished one, and hands
      out the last it took. */
  lemma {:induction false} DrainTakesPrefix(
    p: Offsets, last: Option<int>, fetched: seq<int>, finished: set<int>, n: nat)
    requires StrictlyIncreasing(fetched) && Holds(p, fetched, finished, n)
    ensures
      var m := FinishedFrom(fetched, finished, n);
      && Holds(Drain(p, last).0, fetched, finished, m)
      && Drain(p, last).1 == if m == n then last else Some(fetched[m - 1])
    decreases |fetched| - n
  {
    if n < |fetched| && fetched[n] in finished {
      var head := fetched[n];
      HoldsWithout(p, fetched, finished, n);
      DrainTakesPrefix(Offsets(p.inFlight[1..], p.done - {head}), Some(head), fetched, finished, n + 1);
    }
  }

  lemma HoldsWithout(p: Offsets, fetched: seq<int>, finished: set<int>, n: nat)
    requires StrictlyIncreasing(fetched) && Holds(p, fetched, finished, n) && n < |fetched|
    ensures p.inFlight != [] && p.inFlight[0] == fetched[n]
    ensures Holds(Offsets(p.inFlight[1..], p.done - {fetched[n]}), fetched, finished, n + 1)
  {
    assert p.inFlight[1..] == fetched[n + 1..];
    assert forall i :: 0 <= i < |fetched| && i != n ==> fetched[i] != fetched[n];
  }

  /** Marking one fetched offset moves the prefix from n to m, and hands out its new
      last offset exactly when it grew. */
  lemma MarkAdvances(p: Offsets, fetched: seq<int>, finished: set<int>, offset: int)
    requires StrictlyIncreasing(fetched) && offset in fetched && offset !in finished
    requires Holds(p, fetched, finished, FinishedPrefix(fetched, finished))
    ensures
      var n, m := FinishedPrefix(fetched, finished), FinishedPrefix(fetched, finished + {offset});
      var drained := Drain(p.(done := p.done + {offset}), None);
      && n <= m
      && Holds(drained.0, fetched, finished + {offset}, m)
      && drained.1 == if n < m then Some(fetched[m - 1]) else None
  {
    var n := FinishedPrefix(fetched, finished);
    PrefixMeaning(fetched, finished, n);
    PrefixContinues(fetched, finished, fetched, finished + {offset});
    DrainTakesPrefix(p.(done := p.done + {offset}), None, fetched, finished + {offset}, n);
  }

  /** A newly fetched offset is in flight and moves no prefix. */
  lemma AddExtends(p: Offsets, fetched: seq<int>, finished: set<int>, offset: int)
    requires offset !in finished
    requires Holds(p, fetched, finished, FinishedPrefix(fetched, finished))
    ensures FinishedPrefix(fetched + [offset], finished) == FinishedPrefix(fetched, finished)
    ensures
      Holds(p.(inFlight := p.inFlight + [offset]), fetched + [offset], finished, FinishedPrefix(fetched, finished))
  {
    var n, longer := FinishedPrefix(fetched, finished), fetched + [offset];
    PrefixMeaning(fetched, finished, n);
    PrefixMeaning(longer, finished, n);
    assert longer[n..] == fetched[n..] + [offset];
  }

  /** In a well-used history offsets were fetched in increasing order, and only
      fetched offsets are finished. */
  lemma {:induction false} WellUsedShape(ops: seq<Op>, n: nat, key: TopicPartition)
    requires WellUsed(ops) && n <= |ops|
    ensures StrictlyIncreasing(Fetched(ops, n, key))
    ensures forall x :: x in Finished(ops, n, key) ==> x in Fetched(ops, n, key)
  {
    if n > 0 {
      var op := ops[n - 1];
      WellUsedShape(ops, n - 1, key);
      assert SuitsAt(ops, n - 1);
      if op.key == key && op.Add? {
        ShapeExtends(Fetched(ops, n - 1, key), Finished(ops, n - 1, key), op.offset);
      }
    }
  }

  lemma ShapeExtends(fetched: seq<int>, finished: set<int>, offset: int)
    requires StrictlyIncreasing(fetched) && forall x :: x in finished ==> x in fetched
    requires forall i :: 0 <= i < |fetched| ==> fetched[i] < offset
    ensures StrictlyIncreasing(fetched + [offset])
    ensures forall x :: x in finished ==> x in fetched + [offset]
  {
  }

  /** A tracker whose record of the partition is what lies past the finished prefix. */
  ghost predicate Refines(t: Tracked, key: TopicPartition, fetched: seq<int>, finished: set<int>) {
    && Holds(At(t, key), fetched, finished, FinishedPrefix(fetched, finished))
    && (key in t <==> fetched != [])
  }

  lemma AddRefines(t: Tracked, key: TopicPartition, offset: int, fetched: seq<int>, finished: set<int>)
    requires offset !in finished && Refines(t, key, fetched, finished)
    ensures Refines(Added(t, key, offset), key, fetched + [offset], finished)
    ensures FinishedPrefix(fetched + [offset], finished) == FinishedPrefix(fetched, finished)
  {
    AddExtends(At(t, key), fetched, finished, offset);
    assert At(Added(t, key, offset), key) == At(t, key).(inFlight := At(t, key).inFlight + [offset]);
  }

  lemma MarkRefines(t: Tracked, key: TopicPartition, offset: int, fetched: seq<int>, finished: set<int>)
    requires StrictlyIncreasing(fetched) && offset in fetched && offset !in finished
    requires Refines(t, key, fetched, finished)
    ensures
      var n, m := FinishedPrefix(fetched, finished), FinishedPrefix(fetched, finished + {offset});
      && n <= m
      && Refines(Marked(t, key, offset).0, key, fetched, finished + {offset})
      && Marked(t, key, offset).1 == if n < m then Some(fetched[m - 1]) else None
  {
    MarkAdvances(t[key], fetched, finished, offset);
  }

  /** After every well-used history the tracker holds exactly what is not in the
      finished prefix of the fetch order. */
  lemma {:induction false} TrackerIsFinishedPrefix(ops: seq<Op>, n: nat, key: TopicPartition)
    requires WellUsed(ops) && n <= |ops|
    ensures Refines(Run(ops, n), key, Fetched(ops, n, key), Finished(ops, n, key))
  {
    if n > 0 {
      TrackerIsFinishedPrefix(ops, n - 1, key);
      StepOfHistory(ops, n, key);
    }
  }

  /** The end of the finished prefix, when it is longer than before. */
  function NewEnd(fetched: seq<int>, before: nat, after: nat): Option<int>
    requires after <= |fetched|
  {
    if before < after then Some(fetched[after - 1]) else None
  }

  lemma StepOfHistory(ops: seq<Op>, n: nat, key: TopicPartition)
    requires WellUsed(ops) && 0 < n <= |ops|
    requires Refines(Run(ops, n - 1), key, Fetched(ops, n - 1, key), Finished(ops, n - 1, key))
    ensures Refines(Run(ops, n), key, Fetched(ops, n, key), Finished(ops, n, key))
    ensures ops[n - 1].key == key ==>
      && Progress(ops, n - 1, key) <= Progress(ops, n, key)
      && ReturnAt(ops, n - 1) == NewEnd(Fetched(ops, n, key), Progress(ops, n - 1, key), Progress(ops, n, key))
  {
    var op := ops[n - 1];
    if op.key != key {
      assert At(Run(ops, n), key) == At(Run(ops, n - 1), key);
    } else {
      SuitsHistory(ops, n - 1);
      if op.Add? {
        AddInHistory(ops, n, key, op.offset);
      } else {
        MarkInHistory(ops, n, key, op.offset);
      }
    }
  }

  lemma AddInHistory(ops: seq<Op>, n: nat, key: TopicPartition, offset: int)
    requires 0 < n <= |ops| && ops[n - 1] == Add(key, offset) && offset !in Finished(ops, n - 1, key)
    requires Refines(Run(ops, n - 1), key, Fetched(ops, n - 1, key), Finished(ops, n - 1, key))
    ensures Refines(Run(ops, n), key, Fetched(ops, n, key), Finished(ops, n, key))
    ensures Progress(ops, n, key) == Progress(ops, n - 1, key) && ReturnAt(ops, n - 1) == None
  {
    AddRefines(Run(ops, n - 1), key, offset, Fetched(ops, n - 1, key), Finished(ops, n - 1, key));
  }

  lemma MarkInHistory(ops: seq<Op>, n: nat, key: TopicPartition, offset: int)
    requires 0 < n <= |ops| && ops[n - 1] == Mark(key, offset)
    requires StrictlyIncreasing(Fetched(ops, n - 1, key))
    requires offset in Fetched(ops, n - 1, key) && offset !in Finished(ops, n - 1, key)
    requires Refines(Run(ops, n - 1), key, Fetched(ops, n - 1, key), Finished(ops, n - 1, key))
    ensures Refines(Run(ops, n), key, Fetched(ops, n, key), Finished(ops, n, key))
    ensures Progress(ops, n - 1, key) <= Progress(ops, n, key)
    ensures ReturnAt(ops, n - 1) == NewEnd(Fetched(ops, n, key), Progress(ops, n - 1, key), Progress(ops, n, key))
  {
    MarkRefines(Run(ops, n - 1), key, offset, Fetched(ops, n - 1, key), Finished(ops, n - 1, key));
  }

  /** What a well-used history lets the n-th call rely on. */
  lemma SuitsHistory(ops: seq<Op>, n: nat)
    requires WellUsed(ops) && n < |ops|
    ensures StrictlyIncreasing(Fetched(ops, n, ops[n].key))
    ensures ops[n].offset !in Finished(ops, n, ops[n].key)
    ensures ops[n].Mark? ==> ops[n].offset in Fetched(ops, n, ops[n].key)
  {
    WellUsedShape(ops, n, ops[n].key);
    assert SuitsAt(ops, n);
  }

  /** What a call of a well-used history returns is the last offset of the finished
      prefix, exactly when the call made it longer. */
  lemma ReturnIsPrefixEnd(ops: seq<Op>, n: nat, key: TopicPartition)
    requires WellUsed(ops) && 0 < n <= |ops| && ops[n - 1].key == key
    ensures Progress(ops, n - 1, key) <= Progress(ops, n, key)
    ensures ReturnAt(ops, n - 1) == NewEnd(Fetched(ops, n, key), Progress(ops, n - 1, key), Progress(ops, n, key))
  {
    TrackerIsFinishedPrefix(ops, n - 1, key);
    StepOfHistory(ops, n, key);
  }

  /** No call in between can shorten what is fetched, finished or finished without a
      gap. */
  lemma {:induction false} HistoryGrows(ops: seq<Op>, i: nat, j: nat, key: TopicPartition)
    requires i <= j <= |ops|
    ensures Fetched(ops, i, key) <= Fetched(ops, j, key)
    ensures Finished(ops, i, key) <= Finished(ops, j, key)
    ensures Progress(ops, i, key) <= Progress(ops, j, key)
  {
    if i < j {
      HistoryGrows(ops, i, j - 1, key);
    }
    PrefixContinues(
      Fetched(ops, i, key), Finished(ops, i, key), Fetched(ops, j, key), Finished(ops, j, key));
  }

  /** The offsets returned for one partition strictly increase. */
  lemma ReturnsIncrease(ops: seq<Op>, i: nat, j: nat)
    requires i < j < |ops| && WellUsed(ops) && ops[i].key == ops[j].key
    requires ReturnAt(ops, i).Some? && ReturnAt(ops, j).Some?
    ensures ReturnAt(ops, i).value < ReturnAt(ops, j).value
  {
    var key := ops[j].key;
    var n := ReturnedValue(ops, i);
    var m := ReturnedValue(ops, j);
    assert n < m by {
      HistoryGrows(ops, i + 1, j, key);
    }
    assert Fetched(ops, i + 1, key) <= Fetched(ops, j + 1, key) by {
      HistoryGrows(ops, i + 1, j + 1, key);
    }
    assert StrictlyIncreasing(Fetched(ops, j + 1, key)) by {
      WellUsedShape(ops, j + 1, key);
    }
    LaterIsGreater(Fetched(ops, i + 1, key), Fetched(ops, j + 1, key), n, m);
  }

  lemma ReturnedValue(ops: seq<Op>, i: nat) returns (n: nat)
    requires i < |ops| && WellUsed(ops) && ReturnAt(ops, i).Some?
    ensures Progress(ops, i, ops[i].key) < n == Progress(ops, i + 1, ops[i].key)
    ensures ReturnAt(ops, i).value == Fetched(ops, i + 1, ops[i].key)[n - 1]
  {
    ReturnIsPrefixEnd(ops, i + 1, ops[i].key);
    n := Progress(ops, i + 1, ops[i].key);
  }

  lemma LaterIsGreater(early: seq<int>, late: seq<int>, n: nat, m: nat)
    requires early <= late && StrictlyIncreasing(late) && 0 < n < m && n <= |early| && m <= |late|
    ensures early[n - 1] < late[m - 1]
  {
    assert early[n - 1] == late[n - 1];
  }

  /** When everything fetched is finished, the call that finished it returned the
      greatest offset and the partition's record is empty: nothing leaks. */
  lemma AllDone(ops: seq<Op>, n: nat, key: TopicPartition)
    requires 0 < n <= |ops| && WellUsed(ops) && ops[n - 1] == Mark(key, ops[n - 1].offset)
    requires forall x :: x in Fetched(ops, n, key) ==> x in Finished(ops, n, key)
    ensures At(Run(ops, n), key) == Nothing
    ensures Fetched(ops, n, key) != [] && ReturnAt(ops, n - 1) == Some(Last(Fetched(ops, n, key)))
    ensures forall x :: x in Fetched(ops, n, key) ==> x <= Last(Fetched(ops, n, key))
  {
    var fetched, before := Fetched(ops, n, key), Finished(ops, n - 1, key);
    TrackerIsFinishedPrefix(ops, n, key);
    ReturnIsPrefixEnd(ops, n, key);
    WellUsedShape(ops, n, key);
    assert SuitsAt(ops, n - 1);
    PrefixMeaning(fetched, Finished(ops, n, key), |fetched|);
    PrefixMeaning(fetched, before, Progress(ops, n - 1, key));
    NothingRemains(At(Run(ops, n), key), fetched, Finished(ops, n, key));
  }

  lemma NothingRemains(p: Offsets, fetched: seq<int>, finished: set<int>)
    requires Holds(p, fetched, finished, |fetched|) && forall x :: x in finished ==> x in fetched
    ensures p == Nothing
  {
    assert forall i :: 0 <= i < |fetched| ==> fetched[i] !in p.done;
    assert forall x :: x in p.done ==> x in fetched;
    assert p.done == {};
  }

  // ------------------------------------------------------------ other guarantees

  /** The calls of a history that concern one partition. */
  function Only(ops: seq<Op>, n: nat, key: TopicPartition): seq<Op>
    requires n <= |ops|
  {
    if n == 0 then []
    else
      var before := Only(ops, n - 1, key);
      if ops[n - 1].key == key then before + [ops[n - 1]] else before
  }

  lemma {:induction false} RunPrefix(ops: seq<Op>, longer: seq<Op>, n: nat)
    requires n <= |ops| && ops <= longer
    ensures Run(ops, n) == Run(longer, n)
  {
    if n > 0 {
      RunPrefix(ops, longer, n - 1);
    }
  }

  /** Partitions do not affect each other, whatever the calls. */
  lemma {:induction false} PartitionsIndependent(ops: seq<Op>, n: nat, key: TopicPartition)
    requires n <= |ops|
    ensures
      var own := Only(ops, n, key);
      && At(Run(ops, n), key) == At(Run(own, |own|), key)
      && (key in Run(ops, n) <==> key in Run(own, |own|))
  {
    if n > 0 {
      PartitionsIndependent(ops, n - 1, key);
      if ops[n - 1].key == key {
        var before, own := Only(ops, n - 1, key), Only(ops, n, key);
        RunPrefix(before, own, |before|);
      }
    }
  }

  /** Draining takes a prefix of the queue, only offsets held as done, and
      reports its last one; it adds nothing to the done set. */
  lemma {:induction false} DrainIsSafe(p: Offsets, last: Option<int>) returns (n: nat)
    ensures n <= |p.inFlight|
    ensures Drain(p, last).0.inFlight == p.inFlight[n..]
    ensures Drain(p, last).0.done <= p.done
    ensures forall i :: 0 <= i < n ==> p.inFlight[i] in p.done
    ensures Drain(p, last).1 == if n == 0 then last else Some(p.inFlight[n - 1])
    decreases |p.inFlight|
  {
    n := 0;
    if |p.inFlight| > 0 && p.inFlight[0] in p.done {
      var m := DrainIsSafe(Offsets(p.inFlight[1..], p.done - {p.inFlight[0]}), Some(p.inFlight[0]));
      n := m + 1;
      assert forall i :: 0 < i < n ==> p.inFlight[i] == p.inFlight[1..][i - 1];
    }
  }

  /** Safety needs no discipline at all: in every history, what is no longer in
      flight is a prefix of the fetch order whose offsets were all reported
      finished. */
  lemma {:induction false} TakenWereFinished(ops: seq<Op>, n: nat, key: TopicPartition) returns (taken: nat)
    requires n <= |ops|
    ensures taken <= |Fetched(ops, n, key)|
    ensures At(Run(ops, n), key).inFlight == Fetched(ops, n, key)[taken..]
    ensures At(Run(ops, n), key).done <= Finished(ops, n, key)
    ensures forall i :: 0 <= i < taken ==> Fetched(ops, n, key)[i] in Finished(ops, n, key)
    ensures n > 0 && ops[n - 1].key == key && ReturnAt(ops, n - 1).Some? ==>
      taken > 0 && ReturnAt(ops, n - 1).value == Fetched(ops, n, key)[taken - 1]
  {
    taken := 0;
    if n > 0 {
      var op := ops[n - 1];
      taken := TakenWereFinished(ops, n - 1, key);
      if op.key == key && op.Mark? && key in Run(ops, n - 1) {
        var m := DrainAgain(
          At(Run(ops, n - 1), key), Fetched(ops, n - 1, key), Finished(ops, n - 1, key), taken, op.offset);
        taken := taken + m;
      }
    }
  }

  lemma DrainAgain(p: Offsets, fetched: seq<int>, finished: set<int>, n: nat, offset: int) returns (m: nat)
    requires n <= |fetched| && p.inFlight == fetched[n..] && p.done <= finished
    ensures n + m <= |fetched|
    ensures
      var drained := Drain(p.(done := p.done + {offset}), None);
      && drained.0.inFlight == fetched[n + m..] && drained.0.done <= finished + {offset}
      && drained.1 == if m == 0 then None else Some(fetched[n + m - 1])
    ensures forall i :: n <= i < n + m ==> fetched[i] in finished + {offset}
  {
    var q := p.(done := p.done + {offset});
    m := DrainIsSafe(q, None);
    assert forall i :: n <= i < n + m ==> fetched[i] == q.inFlight[i - n];
  }

  /** A partition is known from its first fetch on, and not before: until then marks of it
      are ignored and leave nothing behind. */
  lemma {:induction false} KnownWhenFetched(ops: seq<Op>, n: nat, key: TopicPartition)
    requires n <= |ops|
    ensures key in Run(ops, n) <==> Fetched(ops, n, key) != []
    ensures
      n < |ops| && Fetched(ops, n, key) == [] && ops[n].Mark? && ops[n].key == key ==>
      Run(ops, n + 1) == Run(ops, n) && ReturnAt(ops, n) == None
  {
    if n > 0 {
      KnownWhenFetched(ops, n - 1, key);
    }
  }

  /** Exactness does need it: an offset marked before it was fetched is committed
      as soon as its turn comes, though it was never finished after its fetch. */
  lemma StaleMarkIsCommitted(key: TopicPartition)
    ensures
      var ops := [Add(key, 1), Mark(key, 2), Add(key, 2), Mark(key, 1)];
      ReturnAt(ops, 3) == Some(2) && !WellUsed(ops)
  {
    var ops := [Add(key, 1), Mark(key, 2), Add(key, 2), Mark(key, 1)];
    assert Run(ops, 1)[key] == Offsets([1], {});
    assert Run(ops, 2)[key] == Offsets([1], {2});
    assert Run(ops, 3)[key] == Offsets([1, 2], {2});
    var p := Offsets([1, 2], {2} + {1});
    assert Drain(p, None) == Drain(Offsets([2], {2}), Some(1)) by {
      assert p.inFlight[1..] == [2] && p.done - {1} == {2};
    }
    assert Drain(Offsets([2], {2}), Some(1)) == Drain(Offsets([], {}), Some(2)) by {
      assert [2][1..] == [] && {2} - {2} == {};
    }
    assert Fetched(ops, 1, key) == [1];
    assert !SuitsAt(ops, 1);
  }
}
