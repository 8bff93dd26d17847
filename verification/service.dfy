/**
 The change service: how one event is applied to the two stores, one store call
 after another, and what it reports.
 */
module ChangeService {
  import opened Prelude
  import opened Errors
  import opened Stores
  import opened Events

  type Embedder = string -> seq<real>

  datatype Both = Both(keyword: Keyword, vectors: Vectors)

  /** Where an event is between two store calls. */
  datatype Pc =
    | KeywordWrite
    | VersionRead
    | Embedding(written: WriteResult)
    | VectorWrite(written: WriteResult, vector: seq<real>)
    | KeywordDelete
    | VectorDelete(keywordError: Option<Error>)
    | Returned(effect: Effect, error: Option<Error>)

  const MissingId := Wrapped(Wrapped(Value(ErrMalformedEvent)))

  const UnknownOperation := Wrapped(Wrapped(Value(ErrMalformedEvent)))

  const UnreadableRow := Wrapped(Value(ErrMalformedEvent))

  const NoEmbeddingText := Wrapped(Wrapped(Value(ErrMalformedEvent)))

  function PointOf(embed: Embedder, doc: Document): Point {
    Point(doc.id, embed(EmbeddingText(doc)), VectorPayload(doc))
  }

  /** An upsert that has something to write. */
  predicate Writable(ev: ChangeEvent) {
    ev.id != "" && ev.operation.IsUpsert() && ev.row.Some? && EmbeddingText(DocumentOf(ev)) != ""
  }

  /** The checks made before any store is called. */
  function Enter(ev: ChangeEvent, cancelled: Option<Error>): Pc {
    if ev.id == "" then Returned(EffectNone, Some(MissingId))
    else if !ev.operation.Valid() then Returned(EffectNone, Some(UnknownOperation))
    else if cancelled.Some? then Returned(EffectNone, cancelled)
    else if ev.operation == OperationDelete then KeywordDelete
    else if ev.row.None? then Returned(EffectNone, Some(UnreadableRow))
    else if EmbeddingText(DocumentOf(ev)) == "" then Returned(EffectNone, Some(NoEmbeddingText))
    else KeywordWrite
  }

  /** The pc belongs to this event. */
  predicate PcFor(ev: ChangeEvent, pc: Pc) {
    && (pc.KeywordWrite? || pc.VersionRead? || pc.Embedding? || pc.VectorWrite? ==> Writable(ev))
    && (pc.KeywordDelete? || pc.VectorDelete? ==> ev.operation == OperationDelete)
  }

  function AfterWrite(w: WriteResult): Pc {
    if w == WriteStale then Returned(EffectStale, None) else Embedding(w)
  }

  function JoinErrors(a: Option<Error>, b: Option<Error>): Option<Error> {
    match (a, b)
    case (None, None) => None
    case (Some(x), None) => Some(Joined([x]))
    case (None, Some(y)) => Some(Joined([y]))
    case (Some(x), Some(y)) => Some(Joined([x, y]))
  }

  /** One store call of an event, and where it leaves the event and the stores. */
  function Step(embed: Embedder, ev: ChangeEvent, pc: Pc, s: Both, call: Call): (Pc, Both)
    requires PcFor(ev, pc)
  {
    match pc
    case KeywordWrite =>
      var doc := DocumentOf(ev);
      if !ValidKeywordId(ev.id) then
        (Returned(EffectNone, Some(StoreError(StoreKeyword, ev.id, InvalidDocument))), s)
      else
        var refused := Refused(s.keyword, doc);
        var written := s.(keyword := s.keyword[ev.id := doc]);
        (match call {
          case Fails(landed, e) =>
            (Returned(EffectNone, Some(StoreError(StoreKeyword, ev.id, Wrapped(e)))),
             if landed && !refused then written else s)
          case Succeeds => if refused then (VersionRead, s) else (Embedding(WriteApplied), written)
        })
    case VersionRead =>
      (AfterWrite(ClassifyConflict(ReadVersion(s.keyword, ev.id, call), DocumentOf(ev))), s)
    case Embedding(w) =>
      (match call {
        case Fails(_, e) => (Returned(EffectNone, Some(StoreError(StoreEmbedder, ev.id, e))), s)
        case Succeeds => (VectorWrite(w, embed(EmbeddingText(DocumentOf(ev)))), s)
      })
    case VectorWrite(w, vector) =>
      var point := Point(ev.id, vector, VectorPayload(DocumentOf(ev)));
      var written := s.(vectors := s.vectors[ev.id := point]);
      if !ValidPointId(ev.id) then
        (Returned(EffectNone, Some(StoreError(StoreVector, ev.id, InvalidPoint))), s)
      else
        (match call {
          case Fails(landed, e) =>
            (Returned(EffectNone, Some(StoreError(StoreVector, ev.id, Wrapped(e)))), if landed then written else s)
          case Succeeds =>
            (Returned(if w == WriteDuplicate then EffectReapplied else EffectIndexed, None), written)
        })
    case KeywordDelete =>
      var removed := s.(keyword := s.keyword - {ev.id});
      if !ValidKeywordId(ev.id) then (VectorDelete(Some(StoreError(StoreKeyword, ev.id, InvalidDocument))), s)
      else
        (match call {
          case Fails(landed, e) =>
            (VectorDelete(Some(StoreError(StoreKeyword, ev.id, Wrapped(e)))), if landed then removed else s)
          case Succeeds => (VectorDelete(None), removed)
        })
    case VectorDelete(keywordError) =>
      var removed := s.(vectors := s.vectors - {ev.id});
      var vectorError :=
        if !ValidPointId(ev.id) then Some(StoreError(StoreVector, ev.id, InvalidPoint))
        else if call.Fails? then Some(StoreError(StoreVector, ev.id, Wrapped(call.error)))
        else None;
      var error := JoinErrors(keywordError, vectorError);
      (Returned(if error.None? then EffectDeleted else EffectNone, error),
       if ValidPointId(ev.id) && (call.Succeeds? || call.landed) then removed else s)
    case Returned(_, _) => (pc, s)
  }

  /** How each call of one attempt goes. */
  datatype Calls = Calls(
    cancelled: Option<Error>, index: Call, read: Call, embed: Call, upsert: Call,
    deleteKeyword: Call, deleteVector: Call)

  function CallAt(pc: Pc, calls: Calls): Call {
    match pc
    case KeywordWrite => calls.index
    case VersionRead => calls.read
    case Embedding(_) => calls.embed
    case VectorWrite(_, _) => calls.upsert
    case KeywordDelete => calls.deleteKeyword
    case VectorDelete(_) => calls.deleteVector
    case Returned(_, _) => Succeeds
  }

  /** How many calls may still follow. */
  function CallsLeft(pc: Pc): nat {
    match pc
    case KeywordWrite => 4
    case VersionRead => 3
    case Embedding(_) => 2
    case VectorWrite(_, _) => 1
    case KeywordDelete => 2
    case VectorDelete(_) => 1
    case Returned(_, _) => 0
  }

  lemma StepMakesProgress(embed: Embedder, ev: ChangeEvent, pc: Pc, s: Both, call: Call)
    requires PcFor(ev, pc)
    ensures PcFor(ev, Step(embed, ev, pc, s, call).0)
    ensures !pc.Returned? ==> CallsLeft(Step(embed, ev, pc, s, call).0) < CallsLeft(pc)
  {
  }

  /** The first n calls of an attempt; fewer when it returns before. */
  function Calling(embed: Embedder, ev: ChangeEvent, pc: Pc, s: Both, calls: Calls, n: nat): (r: (Pc, Both))
    requires PcFor(ev, pc)
    ensures PcFor(ev, r.0)
    decreases n
  {
    if n == 0 || pc.Returned? then (pc, s)
    else
      StepMakesProgress(embed, ev, pc, s, CallAt(pc, calls));
      var (pc', s') := Step(embed, ev, pc, s, CallAt(pc, calls));
      Calling(embed, ev, pc', s', calls, n - 1)
  }

  /** Stopping after any number of calls, as a crash does. */
  function Interrupted(embed: Embedder, ev: ChangeEvent, s: Both, calls: Calls, n: nat): (Pc, Both) {
    Calling(embed, ev, Enter(ev, calls.cancelled), s, calls, n)
  }

  const MaxCalls := 4

  /** The whole attempt. */
  function Processed(embed: Embedder, ev: ChangeEvent, s: Both, calls: Calls): (Pc, Both) {
    Interrupted(embed, ev, s, calls, MaxCalls)
  }

  lemma {:induction false} AttemptReturns(embed: Embedder, ev: ChangeEvent, pc: Pc, s: Both, calls: Calls, n: nat)
    requires PcFor(ev, pc) && CallsLeft(pc) <= n
    ensures Calling(embed, ev, pc, s, calls, n).0.Returned?
    decreases n
  {
    if !pc.Returned? {
      StepMakesProgress(embed, ev, pc, s, CallAt(pc, calls));
      var (pc', s') := Step(embed, ev, pc, s, CallAt(pc, calls));
      AttemptReturns(embed, ev, pc', s', calls, n - 1);
    }
  }

  /** The error of a delete, in terms of what its two calls came to. */
  lemma DeleteReports(
    embed: Embedder, ev: ChangeEvent, s: Both, calls: Calls, k: Option<KeywordFault>, v: Option<VectorFault>)
    requires ev.id != "" && ev.operation == OperationDelete && calls.cancelled.None?
    requires
      if !ValidKeywordId(ev.id) then k == Some(BadDocumentId)
      else if calls.deleteKeyword.Succeeds? then k == None
      else k.Some? && k.value.KeywordFault? && calls.deleteKeyword.error == KeywordRequest(k.value.status, k.value.cause)
    requires
      if !ValidPointId(ev.id) then v == Some(BadPointId)
      else if calls.deleteVector.Succeeds? then v == None
      else v.Some? && v.value.VectorFault? && calls.deleteVector.error == VectorRequest(v.value.code, v.value.cause)
    ensures
      Processed(embed, ev, s, calls).0
      == if k.None? && v.None? then Returned(EffectDeleted, None)
         else Returned(EffectNone, Some(DeleteError(ev.id, k, v)))
  {
    var (pc, t) := Step(embed, ev, KeywordDelete, s, calls.deleteKeyword);
    assert pc == VectorDelete(if k.None? then None else Some(KeywordError(ev.id, k.value)));
    assert Processed(embed, ev, s, calls) == Calling(embed, ev, pc, t, calls, 3);
    var (last, u) := Step(embed, ev, pc, t, calls.deleteVector);
    assert Calling(embed, ev, pc, t, calls, 3) == Calling(embed, ev, last, u, calls, 2) == (last, u);
  }

  class Service {
    const keyword: KeywordIndex
    const vectors: VectorIndex
    const embed: Embedder

    constructor (keyword: KeywordIndex, vectors: VectorIndex, embed: Embedder)
      ensures this.keyword == keyword && this.vectors == vectors && this.embed == embed
    {
      this.keyword, this.vectors, this.embed := keyword, vectors, embed;
    }

    ghost function Value(): Both
      reads keyword, vectors
    {
      Both(keyword.documents, vectors.points)
    }

    method Process(ev: ChangeEvent, calls: Calls) returns (effect: Effect, error: Option<Error>)
      modifies keyword, vectors
      ensures (Returned(effect, error), Value()) == Processed(embed, ev, old(Value()), calls)
    {
      if ev.id == "" {
        return EffectNone, Some(MissingId);
      }
      if !ev.operation.Valid() {
        return EffectNone, Some(UnknownOperation);
      }
      if calls.cancelled.Some? {
        return EffectNone, calls.cancelled;
      }
      if ev.operation == OperationDelete {
        effect, error := Delete(ev, calls);
      } else {
        effect, error := Upsert(ev, calls);
      }
    }

    method Upsert(ev: ChangeEvent, calls: Calls) returns (effect: Effect, error: Option<Error>)
      requires ev.id != "" && ev.operation.IsUpsert() && calls.cancelled.None?
      modifies keyword, vectors
      ensures (Returned(effect, error), Value()) == Processed(embed, ev, old(Value()), calls)
    {
      if ev.row.None? {
        return EffectNone, Some(UnreadableRow);
      }
      var doc := DocumentOf(ev);
      var text := EmbeddingText(doc);
      if text == "" {
        return EffectNone, Some(NoEmbeddingText);
      }
      var written := keyword.IndexDocument(doc, calls.index, calls.read);
      if written.Err? {
        return EffectNone, Some(StoreError(StoreKeyword, ev.id, written.error));
      }
      if written.value == WriteStale {
        return EffectStale, None;
      }
      if calls.embed.Fails? {
        return EffectNone, Some(StoreError(StoreEmbedder, ev.id, calls.embed.error));
      }
      var vector := embed(text);
      var failed := vectors.Upsert(Point(doc.id, vector, VectorPayload(doc)), calls.upsert);
      if failed.Some? {
        return EffectNone, Some(StoreError(StoreVector, ev.id, failed.value));
      }
      effect, error := if written.value == WriteDuplicate then EffectReapplied else EffectIndexed, None;
    }

    method Delete(ev: ChangeEvent, calls: Calls) returns (effect: Effect, error: Option<Error>)
      requires ev.id != "" && ev.operation == OperationDelete && calls.cancelled.None?
      modifies keyword, vectors
      ensures (Returned(effect, error), Value()) == Processed(embed, ev, old(Value()), calls)
    {
      var k := keyword.DeleteDocument(ev.id, calls.deleteKeyword);
      var v := vectors.Delete(ev.id, calls.deleteVector);
      var keywordError := if k.Some? then Some(StoreError(StoreKeyword, ev.id, k.value)) else None;
      var vectorError := if v.Some? then Some(StoreError(StoreVector, ev.id, v.value)) else None;
      error := JoinErrors(keywordError, vectorError);
      effect := if error.None? then EffectDeleted else EffectNone;
    }
  }
}
