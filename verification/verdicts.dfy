/**
 What a failed store call means for the event: whether it is tried again, by the answer
 the store gave.
 */
module Verdicts {
  import opened Prelude
  import opened RetryKinds
  import opened Errors
  import opened Stores
  import opened Events
  import opened ChangeService

  /** The kind of an event's error, as the runner sees it. */
  function KindOfFailure(e: Option<Error>): Kind {
    ClassifyError(Classified(e))
  }

  /** Every error is of the kind of the first thing it says, unless it is hopeless. */
  lemma KindMeaning(e: Error)
    ensures
      KindOfFailure(Some(e))
      == if Hopeless(e) || FirstVerdict(e) == Some(false) then NonRetryable
         else if FirstVerdict(e) == Some(true) then Retryable
         else Unknown
    ensures KindOfFailure(None) == Unknown
  {
    KindOf(e);
  }

  /** The first request error of a kind in the tree is a refusal. */
  ghost predicate FirstRefuses(e: Error, kind: Error -> bool) {
    exists i :: 0 <= i < |Chain(e)| && kind(Chain(e)[i]) && Temporary(Chain(e)[i]) == Some(false)
      && forall j :: 0 <= j < i ==> !kind(Chain(e)[j])
  }

  lemma RefusesMeaning(e: Error, kind: Error -> bool)
    ensures Refuses(e, kind) <==> FirstRefuses(e, kind)
  {
    FoundIffPresent(Chain(e), kind);
    if FirstWith(Chain(e), kind).Some? {
      var i := FoundAt(Chain(e), kind);
      if FirstRefuses(e, kind) {
        var n :| 0 <= n < |Chain(e)| && kind(Chain(e)[n]) && Temporary(Chain(e)[n]) == Some(false)
          && forall j :: 0 <= j < n ==> !kind(Chain(e)[j]);
        FirstAt(Chain(e), kind, n);
      }
    }
  }

  lemma {:induction false} FoundAt(chain: seq<Error>, p: Error -> bool) returns (i: nat)
    requires FirstWith(chain, p).Some?
    ensures i < |chain| && FirstWith(chain, p) == Some(chain[i]) && p(chain[i])
    ensures forall j :: 0 <= j < i ==> !p(chain[j])
  {
    i := 0;
    if !p(chain[0]) {
      i := FoundAt(chain[1..], p);
      assert forall j :: 0 < j < i + 1 ==> chain[j] == chain[1..][j - 1];
      i := i + 1;
    }
  }

  /** Each store's rule, for every error tree: what counts as permanent is what the first
      store named in the tree calls so -- a value it would never accept, or a refusal as
      the first of its own request errors. */
  lemma StoreRules(e: Error)
    ensures
      PermanentFailure(e)
      <==>
      || IsPermanent(e)
      || match FirstWith(Chain(e), FromStore) {
           case Some(StoreError(StoreKeyword, _, _)) =>
             Value(ErrInvalidDocument) in Chain(e) || FirstRefuses(e, FromKeyword)
           case Some(StoreError(StoreVector, _, _)) =>
             || Value(ErrInvalidPoint) in Chain(e) || Value(ErrInvalidVector) in Chain(e)
             || FirstRefuses(e, FromVector)
           case Some(StoreError(StoreEmbedder, _, _)) =>
             || Value(ErrEmptyText) in Chain(e) || Value(ErrDimensionMismatch) in Chain(e)
             || FirstRefuses(e, FromEmbedder)
           case _ => false
         }
  {
    FoundIffPresent(Chain(e), FromStore);
    RefusalMeaning(e);
    StoreRuleOf(e);
  }

  lemma RefusalMeaning(e: Error)
    ensures RefusedByKeyword(e) <==> Value(ErrInvalidDocument) in Chain(e) || FirstRefuses(e, FromKeyword)
    ensures
      RefusedByVector(e)
      <==> Value(ErrInvalidPoint) in Chain(e) || Value(ErrInvalidVector) in Chain(e) || FirstRefuses(e, FromVector)
    ensures
      RefusedByEmbedder(e)
      <==>
      || Value(ErrEmptyText) in Chain(e) || Value(ErrDimensionMismatch) in Chain(e)
      || FirstRefuses(e, FromEmbedder)
  {
    RefusesMeaning(e, FromKeyword);
    RefusesMeaning(e, FromVector);
    RefusesMeaning(e, FromEmbedder);
  }

  lemma StoreRuleOf(e: Error)
    ensures
      ClassifyStore(e) != e
      <==>
      match FirstWith(Chain(e), FromStore) {
        case Some(StoreError(StoreKeyword, _, _)) => RefusedByKeyword(e)
        case Some(StoreError(StoreVector, _, _)) => RefusedByVector(e)
        case Some(StoreError(StoreEmbedder, _, _)) => RefusedByEmbedder(e)
        case _ => false
      }
  {
    assert |Chain(Permanent(e))| == 1 + |Chain(e)|;
  }

  /** No answer, a timeout, a rate limit or a server error is worth another try; every
      other HTTP status is an answer for good. */
  predicate PassingStatus(status: int) {
    status in {0, 408, 429} || 500 <= status
  }

  lemma KeywordWriteVerdict(
    embed: Embedder, ev: ChangeEvent, s: Both, landed: bool, status: int, cause: Error)
    requires Writable(ev) && ValidKeywordId(ev.id) && Quiet(cause)
    ensures
      var r := Step(embed, ev, KeywordWrite, s, Fails(landed, KeywordRequest(status, cause))).0;
      && r == Returned(EffectNone, Some(StoreError(StoreKeyword, ev.id, Wrapped(KeywordRequest(status, cause)))))
      && KindOfFailure(r.error) == if PassingStatus(status) then Retryable else NonRetryable
  {
    KeywordErrorKind(ev.id, KeywordFault(status, cause));
    KindMeaning(KeywordError(ev.id, KeywordFault(status, cause)));
  }

  /** An id the keyword index cannot hold fails for good, before anything is sent. */
  lemma LongIdVerdict(embed: Embedder, ev: ChangeEvent, s: Both, call: Call)
    requires Writable(ev) && !ValidKeywordId(ev.id)
    ensures
      var (r, t) := Step(embed, ev, KeywordWrite, s, call);
      t == s && r.Returned? && r.effect == EffectNone && KindOfFailure(r.error) == NonRetryable
  {
    KeywordErrorKind(ev.id, BadDocumentId);
    KindMeaning(KeywordError(ev.id, BadDocumentId));
  }

  lemma VectorWriteVerdict(
    embed: Embedder, ev: ChangeEvent, w: WriteResult, vector: seq<real>, s: Both, landed: bool, code: Code, cause: Error)
    requires Writable(ev) && ValidPointId(ev.id) && Quiet(cause)
    ensures
      var r := Step(embed, ev, VectorWrite(w, vector), s, Fails(landed, VectorRequest(code, cause))).0;
      && r == Returned(EffectNone, Some(StoreError(StoreVector, ev.id, Wrapped(VectorRequest(code, cause)))))
      && KindOfFailure(r.error)
         == if code in {CodeUnavailable, CodeDeadlineExceeded, CodeResourceExhausted, CodeAborted, CodeInternal,
                        CodeUnknown, CodeCanceled}
            then Retryable else NonRetryable
  {
    VectorErrorKind(ev.id, VectorFault(code, cause));
    KindMeaning(VectorError(ev.id, VectorFault(code, cause)));
  }

  /** The vector client refuses vectors it cannot store: for good. */
  lemma InvalidVectorVerdict(id: string)
    ensures KindOfFailure(Some(StoreError(StoreVector, id, Wrapped(Value(ErrInvalidVector))))) == NonRetryable
  {
    var inner := Wrapped(Value(ErrInvalidVector));
    var e := StoreError(StoreVector, id, inner);
    assert Chain(Value(ErrInvalidVector)) == [Value(ErrInvalidVector)];
    assert Chain(inner) == [inner] + [Value(ErrInvalidVector)];
    assert Chain(e) == [e] + Chain(inner);
    assert Chain(e)[2] == Value(ErrInvalidVector);
    FirstAt(Chain(e), FromStore, 0);
    assert Failures(e) == [e];
    KindMeaning(e);
  }

  /** Text the provider never accepts, a vector of the wrong size and a refused request
      fail for good; rate limits, timeouts, server errors and what says nothing do not. */
  lemma EmbeddingVerdict(embed: Embedder, ev: ChangeEvent, w: WriteResult, s: Both, landed: bool, cause: Error)
    requires Writable(ev) && (cause.ApiError? || cause.Value? || cause.Other?)
    requires cause.Value? ==> cause.sentinel in {ErrEmptyText, ErrDimensionMismatch, Canceled, DeadlineExceeded}
    ensures
      var r := Step(embed, ev, Embedding(w), s, Fails(landed, cause)).0;
      && r == Returned(EffectNone, Some(StoreError(StoreEmbedder, ev.id, cause)))
      && KindOfFailure(r.error)
         == match cause {
              case ApiError(status) => if PassingStatus(status) then Retryable else NonRetryable
              case Value(ErrEmptyText) => NonRetryable
              case Value(ErrDimensionMismatch) => NonRetryable
              case Value(DeadlineExceeded) => Retryable
              case Other(Some(temporary)) => if temporary then Retryable else NonRetryable
              case _ => Unknown
            }
  {
    var e := StoreError(StoreEmbedder, ev.id, cause);
    assert Chain(cause) == [cause] && Chain(e) == [e] + Chain(cause);
    assert Chain(e) == [e, cause];
    EmbedderError(e, cause);
    KindMeaning(e);
  }

  lemma EmbedderError(e: Error, cause: Error)
    requires e.StoreError? && e.store == StoreEmbedder && e.inner == cause && Chain(e) == [e, cause]
    requires cause.ApiError? || cause.Value? || cause.Other?
    requires cause != Value(ErrMalformedEvent)
    ensures FirstVerdict(e) == Temporary(cause)
    ensures
      Hopeless(e)
      <==> cause == Value(ErrEmptyText) || cause == Value(ErrDimensionMismatch)
           || (cause.ApiError? && Temporary(cause) == Some(false))
  {
    OnlyTwo(e, cause, MarkedPermanent);
    OnlyTwo(e, cause, FromStore);
    OnlyTwo(e, cause, FromEmbedder);
    OnlyTwo(e, cause, SaysTemporary);
    assert Failures(e) == [e] && e in Failures(e);
    assert forall target :: Is(e, target) <==> cause == Value(target);
    assert PermanentFailure(e) <==> RefusedByEmbedder(e);
  }

  /** A search among an error and its only cause. */
  lemma OnlyTwo(e: Error, cause: Error, p: Error -> bool)
    ensures FirstWith([e, cause], p) == if p(e) then Some(e) else if p(cause) then Some(cause) else None
  {
    assert [e, cause][1..] == [cause] && [cause][1..] == [];
    assert FirstWith([cause], p) == if p(cause) then Some(cause) else None;
  }
}
