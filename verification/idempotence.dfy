/**
 What applying change events promises about the two stores when deliveries
 repeat, stop half-way or come out of order, one event at a time.
 */
module Idempotence {
  import opened Prelude
  import opened Errors
  import opened Stores
  import opened Events
  import opened ChangeService

  /** The keyword index has moved past this event. */
  predicate Overtaken(k: Keyword, ev: ChangeEvent) {
    Writable(ev) && Refused(k, DocumentOf(ev)) && DocumentOf(ev).version < k[ev.id].version
  }

  /** What a completed event leaves behind. A row already overtaken is dropped
      when the stored version could be read, and re-sent to the vector index when
      it could not. */
  function Settled(embed: Embedder, ev: ChangeEvent, s: Both, readable: bool): Both {
    if ev.operation == OperationDelete then Both(s.keyword - {ev.id}, s.vectors - {ev.id})
    else if !Writable(ev) || (Overtaken(s.keyword, ev) && readable) then s
    else
      var doc := DocumentOf(ev);
      Both(if Refused(s.keyword, doc) then s.keyword else s.keyword[ev.id := doc],
           s.vectors[ev.id := PointOf(embed, doc)])
  }

  function EffectOf(ev: ChangeEvent, s: Both, readable: bool): Effect {
    if ev.operation == OperationDelete then EffectDeleted
    else if !Writable(ev) then EffectNone
    else if !Refused(s.keyword, DocumentOf(ev)) then EffectIndexed
    else if Overtaken(s.keyword, ev) && readable then EffectStale
    else EffectReapplied
  }

  /** Where an attempt that began on s can be, and with which stores t. */
  ghost predicate Along(embed: Embedder, ev: ChangeEvent, s: Both, calls: Calls, pc: Pc, t: Both) {
    && PcFor(ev, pc)
    && (Overtaken(s.keyword, ev) && calls.read.Succeeds? ==> t.vectors == s.vectors)
    && match pc {
      case KeywordWrite => t == s
      case VersionRead => t == s && Refused(s.keyword, DocumentOf(ev))
      case Embedding(w) => Written(ev, s, calls, w, t)
      case VectorWrite(w, vector) =>
        Written(ev, s, calls, w, t) && vector == embed(EmbeddingText(DocumentOf(ev)))
      case KeywordDelete => t == s
      case VectorDelete(e) =>
        && t.vectors == s.vectors
        && (t.keyword == s.keyword - {ev.id} || (e.Some? && t.keyword == s.keyword))
      case Returned(effect, error) =>
        && (error.Some? <==> effect == EffectNone)
        && (error.None? ==>
              && t == Settled(embed, ev, s, calls.read.Succeeds?)
              && effect == EffectOf(ev, s, calls.read.Succeeds?))
        && (error.Some? ==> Partial(embed, ev, s, t))
    }
  }

  predicate Written(ev: ChangeEvent, s: Both, calls: Calls, w: WriteResult, t: Both)
    requires Writable(ev)
  {
    var doc := DocumentOf(ev);
    match w
    case WriteApplied => !Refused(s.keyword, doc) && t == s.(keyword := s.keyword[ev.id := doc])
    case WriteDuplicate => Refused(s.keyword, doc) && t == s && (Overtaken(s.keyword, ev) ==> calls.read.Fails?)
    case WriteStale => false
  }

  /** The stores a failed attempt can leave: each of its writes done or not. */
  predicate Partial(embed: Embedder, ev: ChangeEvent, s: Both, t: Both) {
    || t == s
    || (Writable(ev)
        && (|| t.keyword == s.keyword
            || (!Refused(s.keyword, DocumentOf(ev)) && t.keyword == s.keyword[ev.id := DocumentOf(ev)]))
        && (t.vectors == s.vectors || t.vectors == s.vectors[ev.id := PointOf(embed, DocumentOf(ev))]))
    || (ev.operation == OperationDelete
        && (t.keyword == s.keyword || t.keyword == s.keyword - {ev.id})
        && (t.vectors == s.vectors || t.vectors == s.vectors - {ev.id}))
  }

  lemma StepAlong(embed: Embedder, ev: ChangeEvent, s: Both, calls: Calls, pc: Pc, t: Both)
    requires Along(embed, ev, s, calls, pc, t)
    ensures
      var (pc', t') := Step(embed, ev, pc, t, CallAt(pc, calls));
      Along(embed, ev, s, calls, pc', t')
  {
    StepMakesProgress(embed, ev, pc, t, CallAt(pc, calls));
  }

  lemma {:induction false} CallingAlong(
    embed: Embedder, ev: ChangeEvent, s: Both, calls: Calls, pc: Pc, t: Both, n: nat)
    requires Along(embed, ev, s, calls, pc, t)
    ensures
      var (pc', t') := Calling(embed, ev, pc, t, calls, n);
      Along(embed, ev, s, calls, pc', t')
    decreases n
  {
    if n > 0 && !pc.Returned? {
      StepAlong(embed, ev, s, calls, pc, t);
      StepMakesProgress(embed, ev, pc, t, CallAt(pc, calls));
      var (pc', t') := Step(embed, ev, pc, t, CallAt(pc, calls));
      CallingAlong(embed, ev, s, calls, pc', t', n - 1);
    }
  }

  /** Wherever an attempt stops, each of its writes happened or did not. */
  lemma InterruptedStores(embed: Embedder, ev: ChangeEvent, s: Both, calls: Calls, n: nat)
    ensures Along(embed, ev, s, calls, Interrupted(embed, ev, s, calls, n).0, Interrupted(embed, ev, s, calls, n).1)
    ensures Partial(embed, ev, s, Interrupted(embed, ev, s, calls, n).1)
  {
    CallingAlong(embed, ev, s, calls, Enter(ev, calls.cancelled), s, n);
  }

  /** Every reported effect is true of the stores it leaves; an error comes with
      no effect, and no other document is touched. */
  lemma EffectIsTrue(embed: Embedder, ev: ChangeEvent, s: Both, calls: Calls)
    ensures
      var (r, t) := Processed(embed, ev, s, calls);
      && r.Returned?
      && (r.error.Some? <==> r.effect == EffectNone)
      && t.keyword - {ev.id} == s.keyword - {ev.id}
      && t.vectors - {ev.id} == s.vectors - {ev.id}
      && match r.effect {
        case EffectNone => Partial(embed, ev, s, t)
        case EffectIndexed =>
          && Writable(ev)
          && ev.id in t.keyword && t.keyword[ev.id] == DocumentOf(ev)
          && ev.id in t.vectors && t.vectors[ev.id] == PointOf(embed, DocumentOf(ev))
        case EffectReapplied =>
          && Writable(ev) && Refused(s.keyword, DocumentOf(ev)) && t.keyword == s.keyword
          && ev.id in t.vectors && t.vectors[ev.id] == PointOf(embed, DocumentOf(ev))
        case EffectStale => t == s && Overtaken(s.keyword, ev)
        case EffectDeleted => ev.id !in t.keyword && ev.id !in t.vectors
      }
  {
    AttemptReturns(embed, ev, Enter(ev, calls.cancelled), s, calls, MaxCalls);
    InterruptedStores(embed, ev, s, calls, MaxCalls);
  }

  /** A completed repeat of a row leaves the index holding that very version --
      or a newer one, exactly when the stored version could not be read back. */
  lemma RepeatOfOvertakenRow(embed: Embedder, ev: ChangeEvent, s: Both, calls: Calls)
    requires Processed(embed, ev, s, calls).0.error.None? && Writable(ev) && Overtaken(s.keyword, ev)
    ensures Processed(embed, ev, s, calls).0.effect == EffectReapplied <==> calls.read.Fails?
    ensures
      Processed(embed, ev, s, calls).1.vectors == s.vectors
      <==> calls.read.Succeeds? || (ev.id in s.vectors && s.vectors[ev.id] == PointOf(embed, DocumentOf(ev)))
  {
    EffectIsTrue(embed, ev, s, calls);
    InterruptedStores(embed, ev, s, calls, MaxCalls);
    var p := PointOf(embed, DocumentOf(ev));
    assert ev.id in s.vectors && s.vectors[ev.id] == p ==> s.vectors[ev.id := p] == s.vectors;
  }

  /** Which calls have to succeed for the event to complete. */
  predicate Completes(ev: ChangeEvent, s: Both, calls: Calls) {
    && ValidKeywordId(ev.id) && calls.cancelled.None?
    && if ev.operation == OperationDelete then calls.deleteKeyword.Succeeds? && calls.deleteVector.Succeeds?
       else
         && Writable(ev) && calls.index.Succeeds?
         && (|| (Overtaken(s.keyword, ev) && calls.read.Succeeds?)
             || (calls.embed.Succeeds? && calls.upsert.Succeeds?))
  }

  lemma CompletionDependsOnCalls(embed: Embedder, ev: ChangeEvent, s: Both, calls: Calls)
    ensures Processed(embed, ev, s, calls).0.Returned?
    ensures Processed(embed, ev, s, calls).0.error.None? <==> Completes(ev, s, calls)
  {
    AttemptReturns(embed, ev, Enter(ev, calls.cancelled), s, calls, MaxCalls);
  }

  /** The calls with which an attempt at an overtaken row sends its vector after all,
      if that is news to the vector index: every one up to the vector write gets
      through but the version read. */
  predicate SendsUnseen(embed: Embedder, ev: ChangeEvent, s: Both, calls: Calls, n: nat)
    requires Writable(ev)
  {
    && n >= MaxCalls && calls.cancelled.None?
    && calls.index.Succeeds? && calls.read.Fails? && calls.embed.Succeeds?
    && (calls.upsert.Succeeds? || calls.upsert.landed)
    && !(ev.id in s.vectors && s.vectors[ev.id] == PointOf(embed, DocumentOf(ev)))
  }

  lemma OvertakenSends(embed: Embedder, ev: ChangeEvent, s: Both, calls: Calls, n: nat)
    requires Overtaken(s.keyword, ev) && ValidKeywordId(ev.id)
    ensures Interrupted(embed, ev, s, calls, n).1.vectors != s.vectors <==> SendsUnseen(embed, ev, s, calls, n)
  {
    var p := PointOf(embed, DocumentOf(ev));
    assert ev.id in s.vectors && s.vectors[ev.id] == p ==> s.vectors[ev.id := p] == s.vectors;
    assert s.vectors[ev.id := p][ev.id] == p;
    if calls.cancelled.None? && calls.index.Succeeds? && calls.read.Fails? {
      UnseenCalls(embed, ev, s, calls, n);
    } else if calls.cancelled.None? {
      SeenCalls(embed, ev, s, calls, n);
    }
  }

  /** Whose version read failed: the vector write is the fourth call. */
  lemma UnseenCalls(embed: Embedder, ev: ChangeEvent, s: Both, calls: Calls, n: nat)
    requires Overtaken(s.keyword, ev) && ValidKeywordId(ev.id)
    requires calls.cancelled.None? && calls.index.Succeeds? && calls.read.Fails?
    ensures
      Interrupted(embed, ev, s, calls, n).1
      == if n >= MaxCalls && calls.embed.Succeeds? && (calls.upsert.Succeeds? || calls.upsert.landed)
         then s.(vectors := s.vectors[ev.id := PointOf(embed, DocumentOf(ev))])
         else s
  {
    var read, sent := Embedding(WriteDuplicate), VectorWrite(WriteDuplicate, embed(EmbeddingText(DocumentOf(ev))));
    OneCall(embed, ev, KeywordWrite, s, calls, n);
    if n > 1 {
      OneCall(embed, ev, VersionRead, s, calls, n - 1);
    }
    if n > 2 {
      OneCall(embed, ev, read, s, calls, n - 2);
      assert Interrupted(embed, ev, s, calls, n) == Calling(embed, ev, read, s, calls, n - 2);
    }
    if n > 3 && calls.embed.Succeeds? {
      OneCall(embed, ev, sent, s, calls, n - 3);
    }
  }

  /** An attempt goes on call by call, and stays where it returned. */
  lemma OneCall(embed: Embedder, ev: ChangeEvent, pc: Pc, s: Both, calls: Calls, n: nat)
    requires PcFor(ev, pc)
    ensures n == 0 ==> Calling(embed, ev, pc, s, calls, n) == (pc, s)
    ensures PcFor(ev, Step(embed, ev, pc, s, CallAt(pc, calls)).0)
    ensures
      n > 0 && !pc.Returned? ==>
      var (pc', s') := Step(embed, ev, pc, s, CallAt(pc, calls));
      && Calling(embed, ev, pc, s, calls, n) == Calling(embed, ev, pc', s', calls, n - 1)
      && (n == 1 || pc'.Returned? ==> Calling(embed, ev, pc, s, calls, n) == (pc', s'))
  {
    StepMakesProgress(embed, ev, pc, s, CallAt(pc, calls));
  }

  /** Whose write or version read stopped it. */
  lemma SeenCalls(embed: Embedder, ev: ChangeEvent, s: Both, calls: Calls, n: nat)
    requires Overtaken(s.keyword, ev) && ValidKeywordId(ev.id)
    requires calls.cancelled.None? && (calls.index.Fails? || calls.read.Succeeds?)
    ensures Interrupted(embed, ev, s, calls, n).1 == s
  {
    OneCall(embed, ev, KeywordWrite, s, calls, n);
    if n > 1 && calls.index.Succeeds? {
      OneCall(embed, ev, VersionRead, s, calls, n - 1);
    }
  }

  /** An attempt that stops after any number of its calls, then the event again to
      completion, leaves what completing it once would have left. The one
      exception: the row was overtaken, this delivery saw that and stopped, and
      the earlier attempt, which had not seen it, had already sent its vector. */
  lemma RedeliveryConverges(
    embed: Embedder, ev: ChangeEvent, s: Both, first: Calls, n: nat, second: Calls)
    requires Completes(ev, s, second)
    ensures
      var mid := Interrupted(embed, ev, s, first, n).1;
      && Completes(ev, mid, second)
      && (Processed(embed, ev, mid, second).1 == Processed(embed, ev, s, second).1
          <==> !(Overtaken(s.keyword, ev) && second.read.Succeeds? && SendsUnseen(embed, ev, s, first, n)))
  {
    var mid := Interrupted(embed, ev, s, first, n).1;
    InterruptedStores(embed, ev, s, first, n);
    CompletionDependsOnCalls(embed, ev, s, second);
    InterruptedStores(embed, ev, s, second, MaxCalls);
    CompletionDependsOnCalls(embed, ev, mid, second);
    InterruptedStores(embed, ev, mid, second, MaxCalls);
    SettledAfterPartial(embed, ev, s, mid, second.read.Succeeds?);
    if Overtaken(s.keyword, ev) {
      OvertakenSends(embed, ev, s, first, n);
    }
  }

  lemma SettledAfterPartial(embed: Embedder, ev: ChangeEvent, s: Both, mid: Both, readable: bool)
    requires Partial(embed, ev, s, mid)
    requires Writable(ev) || ev.operation == OperationDelete
    ensures Writable(ev) ==> (Overtaken(mid.keyword, ev) <==> Overtaken(s.keyword, ev))
    ensures
      Settled(embed, ev, mid, readable) == Settled(embed, ev, s, readable)
      <==> !(Overtaken(s.keyword, ev) && readable && mid.vectors != s.vectors)
  {
  }

  /** A crash between two calls of a delivery, then the same calls in full: always
      what one delivery leaves. */
  lemma CrashThenRedeliver(embed: Embedder, ev: ChangeEvent, s: Both, calls: Calls, n: nat)
    requires Completes(ev, s, calls)
    ensures
      var mid := Interrupted(embed, ev, s, calls, n).1;
      Processed(embed, ev, mid, calls).1 == Processed(embed, ev, s, calls).1
  {
    InterruptedStores(embed, ev, s, calls, n);
    RedeliveryConverges(embed, ev, s, calls, n, calls);
  }

  /** Completing an event twice is completing it once, unless only the first
      time could see that the row was overtaken, and so left its vector unsent. */
  lemma ProcessTwice(embed: Embedder, ev: ChangeEvent, s: Both, first: Calls, second: Calls)
    requires Completes(ev, s, first) && Completes(ev, s, second)
    ensures
      var once := Processed(embed, ev, s, first).1;
      Processed(embed, ev, once, second).1 == once
      <==> !(Overtaken(s.keyword, ev) && first.read.Succeeds? && second.read.Fails?)
           || (ev.id in s.vectors && s.vectors[ev.id] == PointOf(embed, DocumentOf(ev)))
  {
    var once := Processed(embed, ev, s, first).1;
    CompletionDependsOnCalls(embed, ev, s, first);
    InterruptedStores(embed, ev, s, first, MaxCalls);
    RedeliveryConverges(embed, ev, s, first, MaxCalls, second);
    CompletionDependsOnCalls(embed, ev, once, second);
    InterruptedStores(embed, ev, once, second, MaxCalls);
  }

  // --------------------------------------------- where a repeat is not harmless

  /** A version of one row. */
  function Version(n: int): ChangeEvent {
    ChangeEvent("1", OperationUpdate, "public", "documents", Some(Row("a", "b", "", 0, n)), None, 0)
  }

  /** Stores that hold version 2. */
  function AtTwo(embed: Embedder): Both {
    Both(map["1" := DocumentOf(Version(2))], map["1" := PointOf(embed, DocumentOf(Version(2)))])
  }

  /** Calls that all succeed, but perhaps the version read. */
  function AllBut(read: Call): Calls {
    Calls(None, Succeeds, read, Succeeds, Succeeds, Succeeds, Succeeds)
  }

  const Unread := AllBut(Fails(false, Other(None)))

  lemma VersionIsWritable(n: int)
    ensures Writable(Version(n)) && ValidKeywordId(Version(n).id)
  {
    assert TrimLeft("1") == "1" && TrimRight("1") == "1";
    assert ByteLength("1"[..0]) == 0 && ByteLength("1") == 1;
    assert TrimLeft("a") == "a" && TrimRight("a") == "a";
  }

  /** Version 1 after version 2, once with a read that succeeds and once with one
      that fails: the second time undoes what the first left alone. */
  lemma TwiceIsNotOnce(embed: Embedder)
    ensures
      var ev, s := Version(1), AtTwo(embed);
      var once := Processed(embed, ev, s, AllBut(Succeeds)).1;
      && Completes(ev, s, AllBut(Succeeds)) && Completes(ev, s, Unread)
      && once == s
      && Processed(embed, ev, once, Unread).1 != once
      && Processed(embed, ev, once, Unread).0 == Returned(EffectReapplied, None)
  {
    VersionIsWritable(1);
    ProcessTwice(embed, Version(1), AtTwo(embed), AllBut(Succeeds), Unread);
    RepeatOfOvertakenRow(embed, Version(1), AtTwo(embed), Unread);
    CompletionDependsOnCalls(embed, Version(1), AtTwo(embed), Unread);
    CompletionDependsOnCalls(embed, Version(1), AtTwo(embed), AllBut(Succeeds));
    InterruptedStores(embed, Version(1), AtTwo(embed), AllBut(Succeeds), MaxCalls);
  }

  /** The other way round, the redelivery does not repair what the first attempt did,
      though it completes. */
  lemma RedeliveryIsNotOnce(embed: Embedder)
    ensures
      var ev, s := Version(1), AtTwo(embed);
      var mid := Interrupted(embed, ev, s, Unread, MaxCalls).1;
      && Completes(ev, mid, AllBut(Succeeds))
      && Processed(embed, ev, mid, AllBut(Succeeds)).1 != Processed(embed, ev, s, AllBut(Succeeds)).1
  {
    VersionIsWritable(1);
    RedeliveryConverges(embed, Version(1), AtTwo(embed), Unread, MaxCalls, AllBut(Succeeds));
  }
}
