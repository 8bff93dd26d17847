/**
 Error trees as the pipeline sees them, and the rules that decide whether a
 failed change event is worth retrying.
 */
module Errors {
  import opened Prelude
  import opened RetryKinds

  datatype Store = StoreKeyword | StoreVector | StoreEmbedder | OtherStore(name: string)

  /** Error values compared by identity. */
  datatype Sentinel =
    | ErrMalformedEvent
    | ErrInvalidDocument | ErrInvalidPoint | ErrInvalidVector
    | ErrEmptyText | ErrDimensionMismatch
    | ErrTombstone | ErrSkipMessage
    | Canceled | DeadlineExceeded

  /** The status of a refused vector store request. */
  datatype Code =
    | CodeUnavailable | CodeDeadlineExceeded | CodeResourceExhausted | CodeAborted
    | CodeInternal | CodeUnknown | CodeCanceled | CodeRejected

  datatype Error =
    | Value(sentinel: Sentinel)
    | Wrapped(inner: Error)                                      // one cause
    | Joined(failures: seq<Error>)                               // several causes
    | Permanent(inner: Error)
    | StoreError(store: Store, documentId: string, inner: Error)
    | KeywordRequest(status: int, inner: Error)
    | VectorRequest(code: Code, inner: Error)
    | ApiError(status: int)
    | Other(temporary: Option<bool>)                             // any other leaf; Some when it says itself

  /** What an HTTP status says about trying again. */
  predicate TemporaryStatus(status: int) {
    status == 0 || status == 408 || status == 429 || status >= 500
  }

  /** What an error says about trying again, when it says anything. */
  function Temporary(e: Error): Option<bool> {
    match e
    case KeywordRequest(status, _) => Some(TemporaryStatus(status))
    case VectorRequest(code, _) => Some(code != CodeRejected)
    case ApiError(status) => Some(TemporaryStatus(status))
    case Value(DeadlineExceeded) => Some(true)
    case Other(temporary) => temporary
    case _ => None
  }

  /** The tree's errors in the order a search for a cause meets them: an error
      before its causes, causes from left to right. */
  function Chain(e: Error): seq<Error>
    decreases e, 1
  {
    [e] + match e {
      case Wrapped(inner) => Chain(inner)
      case Joined(failures) => Chains(failures)
      case Permanent(inner) => Chain(inner)
      case StoreError(_, _, inner) => Chain(inner)
      case KeywordRequest(_, inner) => Chain(inner)
      case VectorRequest(_, inner) => Chain(inner)
      case _ => []
    }
  }

  function Chains(es: seq<Error>): seq<Error>
    decreases es, 0
  {
    if es == [] then [] else Chain(es[0]) + Chains(es[1..])
  }

  /** The first error of a search order with a property. */
  function FirstWith(chain: seq<Error>, p: Error -> bool): Option<Error> {
    if chain == [] then None else if p(chain[0]) then Some(chain[0]) else FirstWith(chain[1..], p)
  }

  predicate Is(e: Error, target: Sentinel) {
    Value(target) in Chain(e)
  }

  predicate MarkedPermanent(e: Error) { e.Permanent? }

  predicate FromStore(e: Error) { e.StoreError? }

  predicate FromKeyword(e: Error) { e.KeywordRequest? }

  predicate FromVector(e: Error) { e.VectorRequest? }

  predicate FromEmbedder(e: Error) { e.ApiError? }

  predicate SaysTemporary(e: Error) { Temporary(e).Some? }

  predicate IsPermanent(e: Error) {
    FirstWith(Chain(e), MarkedPermanent).Some?
  }

  // ------------------------------------------------------- each store's rule

  /** The first error of one kind says it is no use trying again. */
  predicate Refuses(e: Error, kind: Error -> bool) {
    var found := FirstWith(Chain(e), kind);
    found.Some? && Temporary(found.value) == Some(false)
  }

  predicate RefusedByKeyword(e: Error) {
    Is(e, ErrInvalidDocument) || Refuses(e, FromKeyword)
  }

  predicate RefusedByVector(e: Error) {
    Is(e, ErrInvalidPoint) || Is(e, ErrInvalidVector) || Refuses(e, FromVector)
  }

  predicate RefusedByEmbedder(e: Error) {
    Is(e, ErrEmptyText) || Is(e, ErrDimensionMismatch) || Refuses(e, FromEmbedder)
  }

  function ClassifyKeyword(e: Error): Error {
    if RefusedByKeyword(e) then Permanent(e) else e
  }

  function ClassifyVector(e: Error): Error {
    if RefusedByVector(e) then Permanent(e) else e
  }

  function ClassifyEmbedding(e: Error): Error {
    if RefusedByEmbedder(e) then Permanent(e) else e
  }

  function ClassifyStore(e: Error): Error {
    match FirstWith(Chain(e), FromStore)
    case Some(StoreError(StoreKeyword, _, _)) => ClassifyKeyword(e)
    case Some(StoreError(StoreVector, _, _)) => ClassifyVector(e)
    case Some(StoreError(StoreEmbedder, _, _)) => ClassifyEmbedding(e)
    case _ => e
  }

  // ------------------------------------------------ the error of a change event

  /** The individual failures inside joins, however deeply joined. */
  function Failures(e: Error): seq<Error>
    decreases e, 1
  {
    match e
    case Joined(failures) => AllFailures(failures)
    case _ => [e]
  }

  function AllFailures(es: seq<Error>): seq<Error>
    decreases es, 0
  {
    if es == [] then [] else AllFailures(es[..|es| - 1]) + Failures(es[|es| - 1])
  }

  lemma AllFailuresAppend(es: seq<Error>, e: Error)
    ensures AllFailures(es + [e]) == AllFailures(es) + Failures(e)
  {
    assert (es + [e])[..|es|] == es;
  }

  method FlattenErrors(e: Error) returns (out: seq<Error>)
    ensures out == Failures(e)
    decreases e
  {
    if !e.Joined? {
      return [e];
    }
    out := [];
    for i := 0 to |e.failures|
      invariant out == AllFailures(e.failures[..i])
    {
      var more := FlattenErrors(e.failures[i]);
      AllFailuresAppend(e.failures[..i], e.failures[i]);
      assert e.failures[..i] + [e.failures[i]] == e.failures[..i + 1];
      out := out + more;
    }
    assert e.failures[..|e.failures|] == e.failures;
  }

  /** Retrying cannot fix this one failure, by the rule of the store it names. */
  predicate PermanentFailure(e: Error) {
    IsPermanent(e) || ClassifyStore(e) != e
  }

  /** Retrying can help with none of it. */
  predicate Hopeless(e: Error) {
    || IsPermanent(e)
    || Is(e, ErrMalformedEvent)
    || forall f :: f in Failures(e) ==> PermanentFailure(f)
  }

  /** What classifying leaves: the error itself, marked when it is hopeless. */
  function Classified(e: Option<Error>): Option<Error> {
    if e.Some? && !IsPermanent(e.value) && Hopeless(e.value) then Some(Permanent(e.value)) else e
  }

  method ClassifyChange(e: Option<Error>) returns (r: Option<Error>)
    ensures r == Classified(e)
  {
    if e.None? || IsPermanent(e.value) {
      return e;
    }
    if Is(e.value, ErrMalformedEvent) {
      return Some(Permanent(e.value));
    }
    var failures := FlattenErrors(e.value);
    for i := 0 to |failures|
      invariant forall f :: f in failures[..i] ==> PermanentFailure(f)
    {
      MarkedIsPermanent(failures[i]);
      if !IsPermanent(ClassifyStore(failures[i])) {
        assert failures[i] in Failures(e.value);
        return e;
      }
      assert failures[..i + 1] == failures[..i] + [failures[i]];
    }
    assert failures[..|failures|] == failures;
    return Some(Permanent(e.value));
  }

  lemma MarkedIsPermanent(e: Error)
    ensures IsPermanent(Permanent(e))
  {
    assert Chain(Permanent(e))[0] == Permanent(e);
  }

  /** The first thing an error tree says about trying again. */
  function FirstVerdict(e: Error): Option<bool> {
    match FirstWith(Chain(e), SaysTemporary)
    case None => None
    case Some(n) => Temporary(n)
  }

  /** Whether another attempt may help, as the pipeline asks its runner. */
  function ClassifyError(e: Option<Error>): Kind {
    if e.None? then Unknown
    else if IsPermanent(e.value) then NonRetryable
    else
      match FirstVerdict(e.value)
      case None => Unknown
      case Some(temporary) => if temporary then Retryable else NonRetryable
  }

  // ------------------------------------------------------------------ theorems

  /** A permanent error is exactly one with a mark somewhere in its tree. */
  lemma {:induction false} FoundIffPresent(chain: seq<Error>, p: Error -> bool)
    ensures FirstWith(chain, p).Some? <==> exists n :: n in chain && p(n)
    ensures FirstWith(chain, p).Some? ==> FirstWith(chain, p).value in chain && p(FirstWith(chain, p).value)
  {
    if chain != [] {
      FoundIffPresent(chain[1..], p);
      assert chain == [chain[0]] + chain[1..];
    }
  }

  /** Classifying marks an error permanent exactly when nothing in it can be
      helped by retrying; nothing stays nothing, and the original error is still
      in the tree. */
  lemma ClassifiedMeaning(e: Option<Error>)
    ensures Classified(e).None? <==> e.None?
    ensures e.Some? ==> e.value in Chain(Classified(e).value)
    ensures e.Some? ==> (IsPermanent(Classified(e).value) <==> Hopeless(e.value))
    ensures Classified(Classified(e)) == Classified(e)
  {
    if e.Some? {
      MarkedIsPermanent(e.value);
      assert Chain(e.value)[0] == e.value;
      assert Chain(Permanent(e.value)) == [Permanent(e.value)] + Chain(e.value);
    }
  }

  /** Joins are taken apart from left to right, however deep; nothing else is. */
  lemma FailuresInOrder(a: Error, b: Error)
    ensures Failures(Joined([a, b])) == Failures(a) + Failures(b)
    ensures !a.Joined? ==> Failures(a) == [a]
  {
    assert [a, b][..1] == [a] && [a][..0] == [];
    assert AllFailures([a]) == [] + Failures(a);
  }

  /** Failures joined together are the failures of each part. */
  lemma {:induction false} JoinedFailures(es: seq<Error>, f: Error)
    ensures f in Failures(Joined(es)) <==> exists i :: 0 <= i < |es| && f in Failures(es[i])
  {
    assert Failures(Joined(es)) == AllFailures(es);
    if es != [] {
      var n := |es| - 1;
      var before := es[..n];
      JoinedFailures(before, f);
      assert Failures(Joined(before)) == AllFailures(before);
      assert forall i :: 0 <= i < n ==> before[i] == es[i];
    }
  }

  lemma {:induction false} ChainsPresent(es: seq<Error>, n: Error)
    ensures n in Chains(es) <==> exists i :: 0 <= i < |es| && n in Chain(es[i])
  {
    if es != [] {
      ChainsPresent(es[1..], n);
      assert forall i :: 0 < i < |es| ==> es[i] == es[1..][i - 1];
      if n in Chains(es[1..]) {
        var j :| 0 <= j < |es[1..]| && n in Chain(es[1..][j]);
        assert n in Chain(es[j + 1]);
      }
    }
  }

  /** A joined failure is as hopeless as all its parts together: one part that
      retrying could help keeps the whole worth retrying, unless some part is
      already marked or malformed. */
  lemma JoinIsHopeless(es: seq<Error>)
    ensures
      Hopeless(Joined(es))
      <==>
      || (exists i :: 0 <= i < |es| && (IsPermanent(es[i]) || Is(es[i], ErrMalformedEvent)))
      || (forall i :: 0 <= i < |es| ==> Hopeless(es[i]))
  {
    var e := Joined(es);
    FoundIffPresent(Chain(e), MarkedPermanent);
    assert forall n :: n in Chain(e) <==> n == e || n in Chains(es);
    forall n {
      ChainsPresent(es, n);
    }
    forall i | 0 <= i < |es| {
      FoundIffPresent(Chain(es[i]), MarkedPermanent);
    }
    forall f {
      JoinedFailures(es, f);
    }
    if forall i :: 0 <= i < |es| ==> !IsPermanent(es[i]) && !Is(es[i], ErrMalformedEvent) {
      assert !IsPermanent(e) && !Is(e, ErrMalformedEvent);
    } else {
      var i :| 0 <= i < |es| && (IsPermanent(es[i]) || Is(es[i], ErrMalformedEvent));
      assert forall n :: n in Chain(es[i]) ==> n in Chain(e);
      assert Hopeless(e);
    }
  }

  /** The cause of a request error carries no verdict of its own. */
  ghost predicate Quiet(e: Error) {
    forall n :: n in Chain(e) ==> !n.Permanent? && (n.Value? ==> n.sentinel.Canceled? || n.sentinel.DeadlineExceeded?)
  }

  /** How one store fails a delete: it refuses the id unseen, or answers with a
      request error. */
  datatype KeywordFault = BadDocumentId | KeywordFault(status: int, cause: Error)

  datatype VectorFault = BadPointId | VectorFault(code: Code, cause: Error)

  function KeywordError(id: string, f: KeywordFault): Error {
    StoreError(StoreKeyword, id, match f {
      case BadDocumentId => Wrapped(Value(ErrInvalidDocument))
      case KeywordFault(status, cause) => Wrapped(KeywordRequest(status, cause))
    })
  }

  function VectorError(id: string, f: VectorFault): Error {
    StoreError(StoreVector, id, match f {
      case BadPointId => Wrapped(Value(ErrInvalidPoint))
      case VectorFault(code, cause) => Wrapped(VectorRequest(code, cause))
    })
  }

  predicate KeywordRefused(f: KeywordFault) {
    f.KeywordFault? ==> !TemporaryStatus(f.status)
  }

  predicate VectorRefused(f: VectorFault) {
    f.VectorFault? ==> f.code == CodeRejected
  }

  /** What a delete reports when one store or both failed it. */
  function DeleteError(id: string, k: Option<KeywordFault>, v: Option<VectorFault>): Error
    requires k.Some? || v.Some?
  {
    if v.None? then Joined([KeywordError(id, k.value)])
    else if k.None? then Joined([VectorError(id, v.value)])
    else Joined([KeywordError(id, k.value), VectorError(id, v.value)])
  }

  predicate GivenUp(e: Error) {
    ClassifyError(Classified(Some(e))) == NonRetryable
  }

  /** A failed delete is marked permanent only when retrying would help neither
      store, as its classifier intends. The retry decision made on top of that stops
      at the first error that says anything, so it also gives up whenever the keyword
      index refused the request. The two agree exactly when it did not, or the vector
      half is not worth retrying either. */
  lemma DeleteKind(id: string, k: Option<KeywordFault>, v: Option<VectorFault>)
    requires k.Some? || v.Some?
    requires k.Some? && k.value.KeywordFault? ==> Quiet(k.value.cause)
    requires v.Some? && v.value.VectorFault? ==> Quiet(v.value.cause)
    ensures
      var e := DeleteError(id, k, v);
      var answered := k.Some? && k.value.KeywordFault? && KeywordRefused(k.value);
      && (Hopeless(e) <==> (k.Some? ==> KeywordRefused(k.value)) && (v.Some? ==> VectorRefused(v.value)))
      && (GivenUp(e) <==> Hopeless(e) || answered)
      && ((GivenUp(e) <==> Hopeless(e)) <==> !answered || v.None? || VectorRefused(v.value))
  {
    if k.Some? {
      KeywordErrorKind(id, k.value);
    }
    if v.Some? {
      VectorErrorKind(id, v.value);
    }
    KindOf(DeleteError(id, k, v));
    if v.None? {
      SingleKind(KeywordError(id, k.value));
    } else if k.None? {
      SingleKind(VectorError(id, v.value));
    } else {
      PairHopeless(KeywordError(id, k.value), VectorError(id, v.value));
      PairVerdict(KeywordError(id, k.value), VectorError(id, v.value));
    }
  }

  lemma KeywordErrorKind(id: string, f: KeywordFault)
    requires f.KeywordFault? ==> Quiet(f.cause)
    ensures
      var e := KeywordError(id, f);
      && !IsPermanent(e) && !Is(e, ErrMalformedEvent)
      && (Hopeless(e) <==> KeywordRefused(f))
      && FirstVerdict(e) == if f.BadDocumentId? then None else Some(TemporaryStatus(f.status))
  {
    var e := KeywordError(id, f);
    match f {
      case BadDocumentId => BadIdKind(e, ErrInvalidDocument);
      case KeywordFault(status, cause) =>
        KeywordHalf(e, e.inner, status, cause);
        RequestVerdict(e, cause);
    }
  }

  lemma VectorErrorKind(id: string, f: VectorFault)
    requires f.VectorFault? ==> Quiet(f.cause)
    ensures
      var e := VectorError(id, f);
      && !IsPermanent(e) && !Is(e, ErrMalformedEvent)
      && (Hopeless(e) <==> VectorRefused(f))
      && FirstVerdict(e) == if f.BadPointId? then None else Some(f.code != CodeRejected)
  {
    var e := VectorError(id, f);
    match f {
      case BadPointId => BadIdKind(e, ErrInvalidPoint);
      case VectorFault(code, cause) =>
        VectorHalf(e, e.inner, code, cause);
        RequestVerdict(e, cause);
    }
  }

  lemma RequestVerdict(e: Error, cause: Error)
    requires e.StoreError? && e.inner.Wrapped?
    requires e.inner.inner.KeywordRequest? || e.inner.inner.VectorRequest?
    requires e.inner.inner.inner == cause
    ensures FirstVerdict(e) == Temporary(e.inner.inner)
  {
    WrappedChain(e, e.inner, e.inner.inner, cause);
    assert Chain(e)[0] == e && Chain(e)[1] == e.inner && Chain(e)[2] == e.inner.inner;
    FirstAt(Chain(e), SaysTemporary, 2);
  }

  /** An id refused before any request is hopeless and says nothing else. */
  lemma BadIdKind(e: Error, bad: Sentinel)
    requires e.StoreError? && e.inner == Wrapped(Value(bad))
    requires (e.store == StoreKeyword && bad == ErrInvalidDocument) || (e.store == StoreVector && bad == ErrInvalidPoint)
    ensures !IsPermanent(e) && !Is(e, ErrMalformedEvent) && Hopeless(e) && FirstVerdict(e) == None
  {
    BadIdChain(e, bad);
    assert Chain(e)[2] in Chain(e);
    FoundIffPresent(Chain(e), MarkedPermanent);
    FoundIffPresent(Chain(e), SaysTemporary);
    FirstAt(Chain(e), FromStore, 0);
    assert Failures(e) == [e];
  }

  lemma BadIdChain(e: Error, bad: Sentinel)
    requires e.StoreError? && e.inner == Wrapped(Value(bad))
    ensures Chain(e) == [e, e.inner, Value(bad)]
  {
    assert Chain(Value(bad)) == [Value(bad)];
    assert Chain(e.inner) == [e.inner] + [Value(bad)];
    assert Chain(e) == [e] + Chain(e.inner);
  }

  lemma SingleKind(a: Error)
    requires !IsPermanent(a) && !Is(a, ErrMalformedEvent)
    ensures Hopeless(Joined([a])) <==> Hopeless(a)
    ensures FirstVerdict(Joined([a])) == FirstVerdict(a)
  {
    JoinIsHopeless([a]);
    assert [a][0] == a && [a][1..] == [];
    assert Chains([a]) == Chain(a) + [];
    assert Chain(Joined([a])) == [Joined([a])] + Chain(a);
    assert ([Joined([a])] + Chain(a))[1..] == Chain(a);
  }

  /** What two joined failures say is what the first of them says, if anything. */
  lemma PairVerdict(a: Error, b: Error)
    ensures
      FirstVerdict(Joined([a, b]))
      == if FirstWith(Chain(a), SaysTemporary).Some? then FirstVerdict(a) else FirstVerdict(b)
  {
    PairChain(a, b);
    FirstAfter(Joined([a, b]), Chain(a), Chain(b));
  }

  lemma FirstAfter(e: Error, s: seq<Error>, t: seq<Error>)
    requires Temporary(e).None?
    ensures
      FirstWith([e] + s + t, SaysTemporary)
      == if FirstWith(s, SaysTemporary).Some? then FirstWith(s, SaysTemporary) else FirstWith(t, SaysTemporary)
  {
    FirstInPrefix(s, t, SaysTemporary);
    assert ([e] + s + t)[1..] == s + t;
  }

  /** When the retry decision gives up: on what is hopeless, and on what first
      says that it is not temporary. */
  lemma KindOf(e: Error)
    ensures GivenUp(e) <==> Hopeless(e) || FirstVerdict(e) == Some(false)
  {
    MarkedIsPermanent(e);
  }

  lemma {:induction false} FirstInPrefix(s: seq<Error>, t: seq<Error>, p: Error -> bool)
    ensures FirstWith(s + t, p) == if FirstWith(s, p).Some? then FirstWith(s, p) else FirstWith(t, p)
  {
    if s == [] {
      assert s + t == t;
    } else if !p(s[0]) {
      FirstInPrefix(s[1..], t, p);
      assert (s + t)[1..] == s[1..] + t;
    }
  }

  lemma PairChain(a: Error, b: Error)
    ensures Chain(Joined([a, b])) == [Joined([a, b])] + Chain(a) + Chain(b)
  {
    var es, rest := [a, b], [b];
    assert es[1..] == rest && rest[1..] == [];
    assert Chains(rest) == Chain(b) by {
      assert Chain(b) + [] == Chain(b);
    }
    assert Chains(es) == Chain(a) + Chains(rest);
  }

  lemma PairHopeless(a: Error, b: Error)
    requires !IsPermanent(a) && !Is(a, ErrMalformedEvent)
    requires !IsPermanent(b) && !Is(b, ErrMalformedEvent)
    ensures Hopeless(Joined([a, b])) <==> Hopeless(a) && Hopeless(b)
    ensures !IsPermanent(Joined([a, b]))
  {
    JoinIsHopeless([a, b]);
    assert [a, b][0] == a && [a, b][1] == b;
    PairChain(a, b);
    FoundIffPresent(Chain(Joined([a, b])), MarkedPermanent);
    FoundIffPresent(Chain(a), MarkedPermanent);
    FoundIffPresent(Chain(b), MarkedPermanent);
  }

  /** One store's refusal of a delete is hopeless by that store's rule. */
  lemma KeywordHalf(e: Error, k: Error, status: int, x: Error)
    requires e.StoreError? && e.store == StoreKeyword && e.inner == k && k == Wrapped(KeywordRequest(status, x))
    requires Quiet(x)
    ensures Hopeless(e) <==> !TemporaryStatus(status)
    ensures !IsPermanent(e) && !Is(e, ErrMalformedEvent)
  {
    WrappedChain(e, k, k.inner, x);
    assert Chain(e)[0] == e && Chain(e)[1] == k && Chain(e)[2] == k.inner;
    QuietHasNoMark(e, [e, k, k.inner], x);
    FirstAt(Chain(e), FromStore, 0);
    FirstAt(Chain(e), FromKeyword, 2);
    assert Failures(e) == [e] && e in Failures(e);
  }

  lemma VectorHalf(e: Error, v: Error, code: Code, y: Error)
    requires e.StoreError? && e.store == StoreVector && e.inner == v && v == Wrapped(VectorRequest(code, y))
    requires Quiet(y)
    ensures Hopeless(e) <==> code == CodeRejected
    ensures !IsPermanent(e) && !Is(e, ErrMalformedEvent)
  {
    WrappedChain(e, v, v.inner, y);
    assert Chain(e)[0] == e && Chain(e)[1] == v && Chain(e)[2] == v.inner;
    QuietHasNoMark(e, [e, v, v.inner], y);
    FirstAt(Chain(e), FromStore, 0);
    FirstAt(Chain(e), FromVector, 2);
    assert Failures(e) == [e] && e in Failures(e);
  }

  lemma WrappedChain(e: Error, k: Error, r: Error, inner: Error)
    requires e.StoreError? && e.inner == k && k.Wrapped? && k.inner == r
    requires (r.KeywordRequest? || r.VectorRequest?) && r.inner == inner
    ensures Chain(e) == [e, k, r] + Chain(inner)
  {
    assert Chain(r) == [r] + Chain(inner);
    assert Chain(k) == [k] + Chain(r);
    assert Chain(e) == [e] + Chain(k);
  }

  /** A tree whose only unusual part is quiet has no mark and no bad value. */
  lemma QuietHasNoMark(e: Error, top: seq<Error>, inner: Error)
    requires Chain(e) == top + Chain(inner) && Quiet(inner)
    requires forall n :: n in top ==> !n.Permanent? && !n.Value?
    ensures !IsPermanent(e) && !Is(e, ErrMalformedEvent)
    ensures !Is(e, ErrInvalidDocument) && !Is(e, ErrInvalidPoint) && !Is(e, ErrInvalidVector)
  {
    FoundIffPresent(Chain(e), MarkedPermanent);
  }

  lemma {:induction false} FirstAt(chain: seq<Error>, p: Error -> bool, i: nat)
    requires i < |chain| && p(chain[i]) && forall j :: 0 <= j < i ==> !p(chain[j])
    ensures FirstWith(chain, p) == Some(chain[i])
  {
    if i > 0 {
      FirstAt(chain[1..], p, i - 1);
    }
  }

  /** The disagreement happens: a rejected keyword delete beside an unreachable
      vector store is given up on, though a retry could still delete the point. */
  lemma DeleteGivenUpEarly(id: string)
    ensures
      var e := DeleteError(
        id, Some(KeywordFault(400, Other(None))), Some(VectorFault(CodeUnavailable, Other(None))));
      !Hopeless(e) && GivenUp(e)
  {
    assert Chain(Other(None)) == [Other(None)];
    DeleteKind(id, Some(KeywordFault(400, Other(None))), Some(VectorFault(CodeUnavailable, Other(None))));
  }
}
