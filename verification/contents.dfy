/**
 What a row leaves in the stores, column by column, and what a search then shows of it.
 */
module Contents {
  import opened Prelude
  import opened Errors
  import opened Stores
  import opened Events
  import opened ChangeService
  import opened Idempotence

  // ------------------------------------------------------------ rows in the stores

  /** The text that stands for a row: its title and content without the white space
      around them, "none" for a title that is all white. */
  ghost predicate TextOfRow(r: Row, text: string) {
    exists title, content ::
      && Trimmed(r.title, title) && Trimmed(r.content, content)
      && text == "title: " + (if title == "" then "none" else title) + " | text: " + content
  }

  /** The keyword index holds the row, every column in its place. */
  predicate KeywordHolds(k: Keyword, id: string, r: Row) {
    && id in k && k[id].id == id
    && k[id].title == r.title && k[id].content == r.content && k[id].url == r.url
    && k[id].updatedAt == r.updatedAt && k[id].version == r.version
  }

  /** The vector index holds the embedding of the row's text, beside its title, its
      version and its address if it has one. */
  ghost predicate VectorHolds(embed: Embedder, v: Vectors, id: string, r: Row) {
    && id in v && v[id].id == id
    && (exists text :: TextOfRow(r, text) && v[id].vector == embed(text))
    && v[id].payload.title == r.title && v[id].payload.version == r.version
    && (r.url == "" ==> v[id].payload.url == None) && (r.url != "" ==> v[id].payload.url == Some(r.url))
  }

  lemma TextMeaning(ev: ChangeEvent)
    requires ev.row.Some?
    ensures EmbeddingText(DocumentOf(ev)) != "" <==> !(White(ev.row.value.title) && White(ev.row.value.content))
    ensures EmbeddingText(DocumentOf(ev)) != "" ==> TextOfRow(ev.row.value, EmbeddingText(DocumentOf(ev)))
  {
    var r := ev.row.value;
    BlankIsWhite(r.title);
    BlankIsWhite(r.content);
    TrimTrims(r.title);
    TrimTrims(r.content);
  }

  lemma DocumentHolds(k: Keyword, ev: ChangeEvent)
    requires Writable(ev) && ev.id in k && k[ev.id] == DocumentOf(ev)
    ensures KeywordHolds(k, ev.id, ev.row.value)
  {
  }

  lemma PointHolds(embed: Embedder, v: Vectors, ev: ChangeEvent)
    requires Writable(ev) && ev.id in v && v[ev.id] == PointOf(embed, DocumentOf(ev))
    ensures VectorHolds(embed, v, ev.id, ev.row.value)
  {
    TextMeaning(ev);
    var p := v[ev.id];
    assert p.vector == embed(EmbeddingText(DocumentOf(ev))) && TextOfRow(ev.row.value, EmbeddingText(DocumentOf(ev)));
    assert p.payload == VectorPayload(DocumentOf(ev));
  }

  /** An indexed event left its own row in both stores, column by column; a reapplied one
      at least in the vector index. */
  lemma IndexedRow(embed: Embedder, ev: ChangeEvent, s: Both, calls: Calls)
    ensures
      var (r, t) := Processed(embed, ev, s, calls);
      && r.Returned?
      && (r.effect == EffectIndexed ==>
            && ev.row.Some?
            && KeywordHolds(t.keyword, ev.id, ev.row.value) && VectorHolds(embed, t.vectors, ev.id, ev.row.value))
      && (r.effect == EffectReapplied ==> ev.row.Some? && VectorHolds(embed, t.vectors, ev.id, ev.row.value))
  {
    EffectIsTrue(embed, ev, s, calls);
    var (r, t) := Processed(embed, ev, s, calls);
    if r.effect == EffectIndexed {
      DocumentHolds(t.keyword, ev);
    }
    if r.effect == EffectIndexed || r.effect == EffectReapplied {
      PointHolds(embed, t.vectors, ev);
    }
  }

  // ------------------------------------------------------------ before any call

  /** Which events get as far as the stores: upserts with an id, a readable row and
      something to embed, and deletes with an id, while the context is live. */
  lemma EnterMeaning(ev: ChangeEvent, cancelled: Option<Error>)
    ensures
      Enter(ev, cancelled) == KeywordWrite
      <==>
      && ev.id != "" && cancelled == None && ev.row.Some?
      && (ev.operation == OperationCreate || ev.operation == OperationUpdate || ev.operation == OperationRead)
      && !(White(ev.row.value.title) && White(ev.row.value.content))
    ensures
      Enter(ev, cancelled) == KeywordDelete <==> ev.id != "" && cancelled == None && ev.operation == OperationDelete
    ensures Enter(ev, cancelled).KeywordWrite? || Enter(ev, cancelled).KeywordDelete? || Enter(ev, cancelled).Returned?
  {
    if ev.row.Some? {
      TextMeaning(ev);
    }
  }

  /** An event that does not, while the context is live, is malformed: it fails for good
      and touches nothing. */
  lemma MalformedTouchesNothing(embed: Embedder, ev: ChangeEvent, s: Both, calls: Calls)
    requires calls.cancelled == None && Enter(ev, None).Returned?
    ensures
      var (r, t) := Processed(embed, ev, s, calls);
      && t == s && r.Returned? && r.effect == EffectNone && r.error.Some?
      && Is(r.error.value, ErrMalformedEvent) && GivenUp(r.error.value)
  {
    var e := Enter(ev, None).error.value;
    assert Processed(embed, ev, s, calls) == (Enter(ev, None), s);
    MalformedIsFound(e);
    KindOf(e);
  }

  /** What is wrong with the event itself comes first, then a cancelled context, and only
      then the row is read. */
  lemma ChecksInOrder(ev: ChangeEvent, cancelled: Option<Error>)
    ensures ev.id == "" ==> Enter(ev, cancelled) == Returned(EffectNone, Some(MissingId))
    ensures ev.id != "" && ev.operation.OperationOther? ==>
      Enter(ev, cancelled) == Returned(EffectNone, Some(UnknownOperation))
    ensures ev.id != "" && !ev.operation.OperationOther? && cancelled.Some? ==>
      Enter(ev, cancelled) == Returned(EffectNone, cancelled)
    ensures Is(MissingId, ErrMalformedEvent) && Is(UnknownOperation, ErrMalformedEvent)
  {
    MalformedIsFound(MissingId);
    MalformedIsFound(UnknownOperation);
  }

  lemma MalformedIsFound(e: Error)
    requires e in {MissingId, UnknownOperation, UnreadableRow, NoEmbeddingText}
    ensures Is(e, ErrMalformedEvent)
  {
    var bad := Value(ErrMalformedEvent);
    assert Chain(bad)[0] == bad;
    assert Chain(Wrapped(bad)) == [Wrapped(bad)] + Chain(bad);
    assert Chain(Wrapped(bad))[1] == bad;
    assert Chain(Wrapped(Wrapped(bad))) == [Wrapped(Wrapped(bad))] + Chain(Wrapped(bad));
    assert Chain(Wrapped(Wrapped(bad)))[2] == bad;
  }
}

/** Which effect an event has, by the versions at hand. */
module Versions {
  import opened Prelude
  import opened Errors
  import opened Stores
  import opened Events
  import opened ChangeService
  import opened Idempotence

  /** The version the keyword index holds for an event's document, if a positive one. */
  predicate HeldAt(k: Keyword, ev: ChangeEvent, version: int) {
    ev.id in k && k[ev.id].version == version && version > 0
  }

  /** When every call of an upsert succeeds: a row that carries no version, or meets none,
      or is newer than the one held is indexed; one of the very version held is sent
      again; an older one is dropped. */
  lemma EffectByVersion(embed: Embedder, ev: ChangeEvent, s: Both, calls: Calls)
    requires Writable(ev) && ValidKeywordId(ev.id) && calls.cancelled == None
    requires calls.index.Succeeds? && calls.read.Succeeds? && calls.embed.Succeeds? && calls.upsert.Succeeds?
    ensures
      var effect, version := Processed(embed, ev, s, calls).0, ev.row.value.version;
      && effect.Returned? && effect.error == None
      && (effect.effect == EffectIndexed
          <==> version <= 0 || forall held :: HeldAt(s.keyword, ev, held) ==> version > held)
      && (effect.effect == EffectReapplied <==> HeldAt(s.keyword, ev, version))
      && (effect.effect == EffectStale <==> version > 0 && exists held :: HeldAt(s.keyword, ev, held) && version < held)
  {
    InterruptedStores(embed, ev, s, calls, MaxCalls);
    CompletionDependsOnCalls(embed, ev, s, calls);
    if ev.id in s.keyword && s.keyword[ev.id].version > 0 {
      assert HeldAt(s.keyword, ev, s.keyword[ev.id].version);
    }
  }

  /** What the keyword write comes to: it is refused exactly when a version at least as
      high is held, and otherwise replaces what is held. */
  lemma WriteByVersion(embed: Embedder, ev: ChangeEvent, s: Both)
    requires Writable(ev) && ValidKeywordId(ev.id)
    ensures
      var (pc, t) := Step(embed, ev, KeywordWrite, s, Succeeds);
      if ev.row.value.version > 0 && exists held :: HeldAt(s.keyword, ev, held) && ev.row.value.version <= held
      then pc == VersionRead && t == s
      else pc == Embedding(WriteApplied) && t == s.(keyword := s.keyword[ev.id := DocumentOf(ev)])
  {
    if ev.id in s.keyword && s.keyword[ev.id].version > 0 {
      assert HeldAt(s.keyword, ev, s.keyword[ev.id].version);
    }
  }

  /** What reading the version back after a refusal decides, whatever happened in between:
      a document that is gone or newer ends the event, anything else lets it go on. */
  lemma LookupDecides(embed: Embedder, ev: ChangeEvent, s: Both, read: Call)
    requires Writable(ev)
    ensures
      var (pc, t) := Step(embed, ev, VersionRead, s, read);
      && t == s
      && (read.Succeeds? && ev.id !in s.keyword ==> pc == Returned(EffectStale, None))
      && (read.Succeeds? && ev.id in s.keyword && s.keyword[ev.id].version > ev.row.value.version ==>
            pc == Returned(EffectStale, None))
      && (read.Succeeds? && ev.id in s.keyword && s.keyword[ev.id].version <= ev.row.value.version ==>
            pc == Embedding(WriteDuplicate))
      && (read.Fails? ==> pc == Embedding(WriteDuplicate))
  {
  }
}

/** From a committed row to a search result. */
module CommittedRows {
  import opened Prelude
  import opened Stores
  import opened Events
  import opened ChangeService
  import opened Pipelines
  import opened Protocol
  import opened ProtocolSafety
  import opened ProtocolConsistency
  import opened Contents
  import opened Rrf
  import opened HybridSearch

  /** In every run, a document whose last event is a committed row that was not
      dead-lettered is held by both stores column by column, and a keyword search that
      finds it is shown with that row's title, content and address. */
  lemma CommittedRowShown(
    cfg: Protocol.Config, workers: nat, capacity: nat, actions: seq<Protocol.Action>, last: Message,
    f: Arithmetic, k: int, keyword: seq<KeywordHit>, vector: seq<VectorHit>, i: nat)
    requires KeyedLog(cfg) && workers > 0 && IsLast(cfg, last)
    requires cfg.setting.parse(last.value).Ok? && cfg.setting.parse(last.value).value.operation != OperationDelete
    requires
      var s := Protocol.Run(cfg, Initial(workers, capacity), actions);
      && last.offset <= OffsetAt(s.committed, last.partition) && !InLetters(s.world.letters, last)
      && i < |keyword| && keyword[i].id == cfg.setting.parse(last.value).value.id
      && (keyword[i].id in s.world.stores.keyword ==> keyword[i].document == s.world.stores.keyword[keyword[i].id])
    requires forall j :: 0 <= j < i ==> keyword[j].id != keyword[i].id
    ensures
      var s := Protocol.Run(cfg, Initial(workers, capacity), actions);
      var ev := cfg.setting.parse(last.value).value;
      && ev.row.Some?
      && KeywordHolds(s.world.stores.keyword, ev.id, ev.row.value)
      && VectorHolds(cfg.setting.embed, s.world.stores.vectors, ev.id, ev.row.value)
    ensures
      var ev := cfg.setting.parse(last.value).value;
      var h := ToHit(Fused(f, k, Candidates(keyword, vector), ev.id));
      && ev.row.Some? && h.id == ev.id
      && h.title == ev.row.value.title && h.content == ev.row.value.content && h.url == ev.row.value.url
  {
    EndToEnd(cfg, workers, capacity, actions, last);
    var s := Protocol.Run(cfg, Initial(workers, capacity), actions);
    var ev := cfg.setting.parse(last.value).value;
    assert Agrees(cfg.setting.embed, ev, s.world.stores);
    DocumentHolds(s.world.stores.keyword, ev);
    PointHolds(cfg.setting.embed, s.world.stores.vectors, ev);
    KeywordDocumentShown(f, k, keyword, vector, i);
  }
}
