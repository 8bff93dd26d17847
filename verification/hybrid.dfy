/**
 Hybrid search: which settings and requests are accepted, and how the keyword and
 vector candidates become one list of results.
 */
module HybridSearch {
  import opened Prelude
  import opened Stores
  import opened Events
  import opened Rrf
  import opened RrfProperties

  // ------------------------------------------------------------ what is accepted

  const KeywordMaxLimit := 100

  const VectorMaxLimit := 100

  const MaxQueryLength := 1024

  datatype Config = Config(defaultLimit: int, maxLimit: int, candidateLimit: int, rrfK: int)

  datatype ConfigProblem = DefaultTooSmall | MaxBelowDefault | CandidatesBelowMax | TooManyCandidates | BadK

  function ValidateConfig(cfg: Config): Option<ConfigProblem> {
    var maxCandidates := if KeywordMaxLimit < VectorMaxLimit then KeywordMaxLimit else VectorMaxLimit;
    if cfg.defaultLimit < 1 then Some(DefaultTooSmall)
    else if cfg.maxLimit < cfg.defaultLimit then Some(MaxBelowDefault)
    else if cfg.candidateLimit < cfg.maxLimit then Some(CandidatesBelowMax)
    else if cfg.candidateLimit > maxCandidates then Some(TooManyCandidates)
    else if cfg.rrfK < 1 then Some(BadK)
    else None
  }

  const DefaultConfig := Config(10, 50, 50, 60)

  datatype RequestProblem = EmptyQuery | QueryTooLong | NegativeLimit | LimitTooLarge

  function ValidateRequest(cfg: Config, query: string, limit: int): Result<(string, int), RequestProblem> {
    var text := TrimSpace(query);
    if text == "" then Err(EmptyQuery)
    else if |text| > MaxQueryLength then Err(QueryTooLong)
    else if limit < 0 then Err(NegativeLimit)
    else if limit > cfg.maxLimit then Err(LimitTooLarge)
    else Ok((text, if limit == 0 then cfg.defaultLimit else limit))
  }

  /** The settings that are accepted. */
  lemma ValidConfigs(cfg: Config)
    ensures
      ValidateConfig(cfg).None?
      <==> 1 <= cfg.defaultLimit <= cfg.maxLimit <= cfg.candidateLimit <= 100 && cfg.rrfK >= 1
    ensures ValidateConfig(cfg) == Some(DefaultTooSmall) <==> cfg.defaultLimit <= 0
    ensures ValidateConfig(cfg) == Some(MaxBelowDefault) <==> 1 <= cfg.defaultLimit && cfg.defaultLimit > cfg.maxLimit
    ensures
      ValidateConfig(cfg) == Some(CandidatesBelowMax)
      <==> 1 <= cfg.defaultLimit <= cfg.maxLimit && cfg.maxLimit > cfg.candidateLimit
    ensures
      ValidateConfig(cfg) == Some(TooManyCandidates)
      <==> 1 <= cfg.defaultLimit <= cfg.maxLimit <= cfg.candidateLimit && cfg.candidateLimit > 100
  {
  }

  /** The requests that are accepted, and as what: the query without the white space
      around it, and the limit asked for or else the default. */
  lemma ValidRequests(cfg: Config, query: string, limit: int, text: string, n: int)
    ensures
      ValidateRequest(cfg, query, limit) == Ok((text, n))
      <==>
      && Trimmed(query, text) && 1 <= |text| <= 1024
      && 0 <= limit <= cfg.maxLimit && n == (if limit != 0 then limit else cfg.defaultLimit)
    ensures ValidateRequest(cfg, query, limit) == Err(EmptyQuery) <==> White(query)
    ensures
      Trimmed(query, text) && 1 <= |text| ==>
      && (|text| > 1024 ==> ValidateRequest(cfg, query, limit) == Err(QueryTooLong))
      && (|text| <= 1024 && limit < 0 ==> ValidateRequest(cfg, query, limit) == Err(NegativeLimit))
      && (|text| <= 1024 && 0 <= limit && limit > cfg.maxLimit ==>
            ValidateRequest(cfg, query, limit) == Err(LimitTooLarge))
  {
    TrimMeaning(query, text);
    BlankIsWhite(query);
  }

  // --------------------------------------------------------------------- fusing

  datatype Field = TextField(text: string) | NumberField(number: int)

  datatype KeywordHit = KeywordHit(id: string, document: Document)

  datatype VectorHit = VectorHit(id: string, payload: map<string, Field>)

  /** The payload fusion carries along, from either retriever. */
  datatype Kept = FullDocument(document: Document) | PointFields(fields: map<string, Field>)

  datatype Hit = Hit(id: string, title: string, content: string, url: string, score: real)

  function TextAt(fields: map<string, Field>, name: string): string {
    if name in fields && fields[name].TextField? then fields[name].text else ""
  }

  /** Show the fields of whichever payload was kept. */
  function ToHit(r: Ranked<Kept>): Hit {
    match r.payload
    case None => Hit(r.id, "", "", "", r.score)
    case Some(FullDocument(d)) => Hit(r.id, d.title, d.content, d.url, r.score)
    case Some(PointFields(fields)) => Hit(r.id, TextAt(fields, "title"), "", TextAt(fields, "url"), r.score)
  }

  function KeywordEntry(h: KeywordHit): Entry<Kept> {
    Entry(h.id, Some(FullDocument(h.document)))
  }

  function VectorEntry(h: VectorHit): Entry<Kept> {
    Entry(h.id, Some(PointFields(h.payload)))
  }

  function Mapped<A, B>(f: A -> B, s: seq<A>): (r: seq<B>)
    ensures |r| == |s| && forall i :: 0 <= i < |s| ==> r[i] == f(s[i])
  {
    seq(|s|, i requires 0 <= i < |s| => f(s[i]))
  }

  /** The two lists that are fused, the keyword list first. */
  function Candidates(keyword: seq<KeywordHit>, vector: seq<VectorHit>): seq<seq<Entry<Kept>>> {
    [Mapped(KeywordEntry, keyword), Mapped(VectorEntry, vector)]
  }

  method KeywordList(hits: seq<KeywordHit>) returns (list: seq<Entry<Kept>>)
    ensures list == Mapped(KeywordEntry, hits)
  {
    list := [];
    for i := 0 to |hits|
      invariant |list| == i && forall j :: 0 <= j < i ==> list[j] == KeywordEntry(hits[j])
    {
      list := list + [KeywordEntry(hits[i])];
    }
  }

  method VectorList(hits: seq<VectorHit>) returns (list: seq<Entry<Kept>>)
    ensures list == Mapped(VectorEntry, hits)
  {
    list := [];
    for i := 0 to |hits|
      invariant |list| == i && forall j :: 0 <= j < i ==> list[j] == VectorEntry(hits[j])
    {
      list := list + [VectorEntry(hits[i])];
    }
  }

  method Shown(ranked: seq<Ranked<Kept>>) returns (hits: seq<Hit>)
    ensures hits == Mapped(ToHit, ranked)
  {
    hits := [];
    for i := 0 to |ranked|
      invariant |hits| == i && forall j :: 0 <= j < i ==> hits[j] == ToHit(ranked[j])
    {
      hits := hits + [ToHit(ranked[i])];
    }
  }

  method FuseHits(f: Arithmetic, cfg: Config, keyword: seq<KeywordHit>, vector: seq<VectorHit>, limit: int)
    returns (r: Result<seq<Hit>, Problem>)
    ensures cfg.rrfK < 1 ==> r == Err(InvalidK)
    ensures cfg.rrfK >= 1 && limit < 1 ==> r == Err(InvalidLimit)
    ensures cfg.rrfK >= 1 && limit >= 1 ==> r.Ok?
    ensures r.Ok? ==> r.value == Mapped(ToHit, Top(Ranking(f, cfg.rrfK, Candidates(keyword, vector)), limit))
  {
    var keywordList := KeywordList(keyword);
    var vectorList := VectorList(vector);
    assert [keywordList, vectorList] == Candidates(keyword, vector);
    var ranked := Fuse(f, [keywordList, vectorList], cfg.rrfK, limit);
    if ranked.Err? {
      return Err(ranked.error);
    }
    var hits := Shown(ranked.value);
    r := Ok(hits);
  }

  // ------------------------------------------------------------------ properties

  /** An accepted request never fails in fusion: k and the limit are positive, and the
      limit is no more than the retrievers are asked for. */
  lemma AcceptedLimit(cfg: Config, query: string, limit: int, text: string, n: int)
    requires ValidateConfig(cfg).None? && ValidateRequest(cfg, query, limit) == Ok((text, n))
    ensures cfg.rrfK >= 1 && 1 <= n <= cfg.maxLimit <= cfg.candidateLimit <= KeywordMaxLimit
    ensures limit != 0 ==> n == limit
  {
  }

  /** An answer has as many results as were asked for, or as many as there are. */
  lemma AnswerSize(f: Arithmetic, k: int, keyword: seq<KeywordHit>, vector: seq<VectorHit>, n: nat, r: seq<Ranked<Kept>>)
    requires IsRanking(f, k, Candidates(keyword, vector), r)
    ensures
      |Mapped(ToHit, Top(r, n))|
      == if |Ids(Candidates(keyword, vector))| < n then |Ids(Candidates(keyword, vector))| else n
  {
    RankingCounts(f, k, Candidates(keyword, vector), r);
  }

  lemma PayloadOfTwo<P>(a: seq<Entry<P>>, b: seq<Entry<P>>, id: string)
    requires forall i :: 0 <= i < |a| ==> a[i].payload.Some?
    ensures
      PayloadOf([a, b], id)
      == if RankIn(a, id).Some? then a[RankIn(a, id).value - 1].payload
         else if RankIn(b, id).Some? then b[RankIn(b, id).value - 1].payload
         else None
  {
    assert [a, b][..1] == [a] && [a][..0] == [];
    assert PayloadOf([a], id) == if RankIn(a, id).Some? then a[RankIn(a, id).value - 1].payload else None;
  }

  /** A document the keyword search found, whether or not the vector search found
      it too, is shown as OpenSearch holds it, body included. */
  lemma KeywordDocumentShown(
    f: Arithmetic, k: int, keyword: seq<KeywordHit>, vector: seq<VectorHit>, i: nat)
    requires i < |keyword| && forall j :: 0 <= j < i ==> keyword[j].id != keyword[i].id
    ensures
      var h, d := ToHit(Fused(f, k, Candidates(keyword, vector), keyword[i].id)), keyword[i].document;
      && h.id == keyword[i].id && h.score == ScoreOf(f, k, Candidates(keyword, vector), keyword[i].id)
      && h.title == d.title && h.content == d.content && h.url == d.url
  {
    var lists, id := Candidates(keyword, vector), keyword[i].id;
    RankIsFirst(lists[0], id, i);
    PayloadOfTwo(lists[0], lists[1], id);
    assert lists[0][RankIn(lists[0], id).value - 1] == KeywordEntry(keyword[RankIn(lists[0], id).value - 1]);
  }

  /** The fields of a stored point, as the vector search returns them. */
  function FieldsOf(p: Payload): map<string, Field> {
    var always := map["title" := TextField(p.title), "version" := NumberField(p.version)];
    if p.url.Some? then always["url" := TextField(p.url.value)] else always
  }

  /** A document only the vector search found shows the title and address it was
      indexed with, and no body. */
  lemma VectorDocumentShown(
    f: Arithmetic, k: int, keyword: seq<KeywordHit>, vector: seq<VectorHit>, i: nat, doc: Document)
    requires i < |vector| && forall j :: 0 <= j < i ==> vector[j].id != vector[i].id
    requires forall j :: 0 <= j < |keyword| ==> keyword[j].id != vector[i].id
    requires vector[i].payload == FieldsOf(VectorPayload(doc))
    ensures
      var h := ToHit(Fused(f, k, Candidates(keyword, vector), vector[i].id));
      && h.id == vector[i].id && h.score == ScoreOf(f, k, Candidates(keyword, vector), vector[i].id)
      && h.title == doc.title && h.content == "" && h.url == doc.url
  {
    var lists, id := Candidates(keyword, vector), vector[i].id;
    RankIsFirst(lists[1], id, i);
    PayloadOfTwo(lists[0], lists[1], id);
    assert lists[1][RankIn(lists[1], id).value - 1] == VectorEntry(vector[RankIn(lists[1], id).value - 1]);
  }

  /** Of a point's payload, whatever it holds, only a title and an address that are texts
      are shown. */
  lemma VectorFieldsShown(
    f: Arithmetic, k: int, keyword: seq<KeywordHit>, vector: seq<VectorHit>, i: nat)
    requires i < |vector| && forall j :: 0 <= j < i ==> vector[j].id != vector[i].id
    requires forall j :: 0 <= j < |keyword| ==> keyword[j].id != vector[i].id
    ensures
      var h, p := ToHit(Fused(f, k, Candidates(keyword, vector), vector[i].id)), vector[i].payload;
      && h.content == ""
      && (forall text :: "title" in p && p["title"] == TextField(text) ==> h.title == text)
      && (forall text :: "url" in p && p["url"] == TextField(text) ==> h.url == text)
      && ("title" !in p || p["title"].NumberField? ==> h.title == "")
      && ("url" !in p || p["url"].NumberField? ==> h.url == "")
  {
    var lists, id := Candidates(keyword, vector), vector[i].id;
    RankIsFirst(lists[1], id, i);
    PayloadOfTwo(lists[0], lists[1], id);
    assert lists[1][RankIn(lists[1], id).value - 1] == VectorEntry(vector[RankIn(lists[1], id).value - 1]);
  }

  // ------------------------------------------------------------------- agreement

  /** Hits as the retrievers return them: each document once, under its id. */
  ghost predicate Retrieved(ids: seq<string>) {
    && (forall i :: 0 <= i < |ids| ==> ids[i] != "")
    && forall i, j :: 0 <= i < j < |ids| ==> ids[i] != ids[j]
  }

  function IdOfKeyword(h: KeywordHit): string { h.id }

  function IdOfVector(h: VectorHit): string { h.id }

  predicate FoundBy(list: seq<Entry<Kept>>, id: string) {
    RankIn(list, id).Some?
  }

  /** With a candidate limit, what both retrievers found ranks above what only one
      of them did. */
  ghost predicate AgreementFirst(k: int, candidateLimit: int) {
    forall keyword: seq<KeywordHit>, vector: seq<VectorHit>, r: seq<Ranked<Kept>>, i, j
      | && |keyword| <= candidateLimit && Retrieved(Mapped(IdOfKeyword, keyword))
        && |vector| <= candidateLimit && Retrieved(Mapped(IdOfVector, vector))
        && IsRanking(Exact, k, Candidates(keyword, vector), r) && 0 <= i < |r| && 0 <= j < |r|
        && FoundBy(Mapped(KeywordEntry, keyword), r[i].id) && FoundBy(Mapped(VectorEntry, vector), r[i].id)
        && (!FoundBy(Mapped(KeywordEntry, keyword), r[j].id) || !FoundBy(Mapped(VectorEntry, vector), r[j].id))
      :: i < j
  }

  lemma ShortListsAgree(k: int, candidateLimit: int)
    requires k >= 1 && candidateLimit <= k + 1
    ensures AgreementFirst(k, candidateLimit)
  {
    forall keyword: seq<KeywordHit>, vector: seq<VectorHit>, r: seq<Ranked<Kept>>, i, j
      | && |keyword| <= candidateLimit && Retrieved(Mapped(IdOfKeyword, keyword))
        && |vector| <= candidateLimit && Retrieved(Mapped(IdOfVector, vector))
        && IsRanking(Exact, k, Candidates(keyword, vector), r) && 0 <= i < |r| && 0 <= j < |r|
        && FoundBy(Mapped(KeywordEntry, keyword), r[i].id) && FoundBy(Mapped(VectorEntry, vector), r[i].id)
        && (!FoundBy(Mapped(KeywordEntry, keyword), r[j].id) || !FoundBy(Mapped(VectorEntry, vector), r[j].id))
      ensures i < j
    {
      AgreementWins(k, Mapped(KeywordEntry, keyword), Mapped(VectorEntry, vector), r, i, j);
    }
  }

  lemma RankAt(list: seq<Entry<Kept>>, id: string, n: nat)
    requires n < |list| && list[n].id == id && forall i :: 0 <= i < n ==> list[i].id != id
    ensures RankIn(list, id) == Some(n + 1)
  {
    RankIsFirst(list, id, n);
  }

  function Filler(n: nat): (s: string)
    ensures |s| == n && (n > 0 ==> s[0] == 'c')
  {
    seq(n, _ => 'c')
  }

  /** k+2 different ids, with b in the last place. */
  function Framed(first: string, k: nat): (ids: seq<string>)
    ensures |ids| == k + 2 && ids[0] == first && ids[k + 1] == "b"
    ensures forall i :: 1 <= i <= k ==> ids[i] == Filler(i)
  {
    [first] + seq(k, i requires 0 <= i < k => Filler(i + 1)) + ["b"]
  }

  lemma FramedDiffer(first: string, k: nat)
    requires first == "a" || first == Filler(k + 1)
    ensures Retrieved(Framed(first, k))
    ensures forall i :: 0 <= i < k + 1 ==> Framed(first, k)[i] != "b" && (i > 0 || first != "a" ==> Framed(first, k)[i] != "a")
  {
    var ids := Framed(first, k);
    forall i | 0 <= i < k + 1
      ensures ids[i] != "" && ids[i] != "b" && (i > 0 || first != "a" ==> ids[i] != "a")
    {
      assert i > 0 ==> ids[i][0] == 'c';
      assert first != "a" ==> first[0] == 'c';
    }
    forall i, j | 0 <= i < j < |ids|
      ensures ids[i] != ids[j]
    {
      if j <= k {
        assert |ids[j]| == j;
        assert i > 0 ==> |ids[i]| == i;
      }
    }
  }

  function KeywordHits(ids: seq<string>): (hits: seq<KeywordHit>)
    ensures |hits| == |ids| && forall i :: 0 <= i < |ids| ==> hits[i].id == ids[i]
  {
    seq(|ids|, i requires 0 <= i < |ids| => KeywordHit(ids[i], Document(ids[i], "t", "", "", 0, 1)))
  }

  function VectorHits(ids: seq<string>): (hits: seq<VectorHit>)
    ensures |hits| == |ids| && forall i :: 0 <= i < |ids| ==> hits[i].id == ids[i]
  {
    seq(|ids|, i requires 0 <= i < |ids| => VectorHit(ids[i], map["title" := TextField("t")]))
  }

  /** Lists in which two last places face a first one. */
  ghost predicate LastAgainstFirst(k: int, keyword: seq<Entry<Kept>>, vector: seq<Entry<Kept>>) {
    && RankIn(keyword, "a") == Some(1) && RankIn(vector, "a").None?
    && RankIn(keyword, "b") == RankIn(vector, "b") == Some(k + 2)
  }

  lemma LongLists(k: int) returns (keyword: seq<KeywordHit>, vector: seq<VectorHit>)
    requires k >= 1
    ensures |keyword| == |vector| == k + 2
    ensures Retrieved(Mapped(IdOfKeyword, keyword)) && Retrieved(Mapped(IdOfVector, vector))
    ensures LastAgainstFirst(k, Mapped(KeywordEntry, keyword), Mapped(VectorEntry, vector))
  {
    var ids, others := Framed("a", k), Framed(Filler(k + 1), k);
    FramedDiffer("a", k);
    FramedDiffer(Filler(k + 1), k);
    assert Filler(k + 1)[0] == 'c';
    keyword, vector := KeywordHits(ids), VectorHits(others);
    IdsOfHits(ids, others);
    LastFacesFirst(k, Mapped(KeywordEntry, keyword), Mapped(VectorEntry, vector));
  }

  lemma IdsOfHits(ids: seq<string>, others: seq<string>)
    ensures Mapped(IdOfKeyword, KeywordHits(ids)) == ids && Mapped(IdOfVector, VectorHits(others)) == others
  {
  }

  lemma LastFacesFirst(k: int, keyword: seq<Entry<Kept>>, vector: seq<Entry<Kept>>)
    requires k >= 1 && |keyword| == |vector| == k + 2
    requires keyword[0].id == "a" && keyword[k + 1].id == vector[k + 1].id == "b"
    requires forall i :: 0 <= i < k + 1 ==> keyword[i].id != "b" && vector[i].id != "b" && vector[i].id != "a"
    ensures LastAgainstFirst(k, keyword, vector)
  {
    RankAt(keyword, "a", 0);
    RankAt(keyword, "b", k + 1);
    RankAt(vector, "b", k + 1);
  }

  lemma LastPlacesTie(k: int, keyword: seq<Entry<Kept>>, vector: seq<Entry<Kept>>)
    requires k >= 1 && LastAgainstFirst(k, keyword, vector)
    ensures ScoreOf(Exact, k, [keyword, vector], "a") == ScoreOf(Exact, k, [keyword, vector], "b")
    ensures "a" in Ids([keyword, vector]) && "b" in Ids([keyword, vector])
  {
    TwoLists(keyword, vector, "a");
    TwoLists(keyword, vector, "b");
    assert Ranks([keyword, vector], "a") == [1];
    assert Ranks([keyword, vector], "b") == [k + 2, k + 2];
    IdsMeaning([keyword, vector], "a");
    IdsMeaning([keyword, vector], "b");
    AgreementIsTight(k);
  }

  lemma TiesById(
    lists: seq<seq<Entry<Kept>>>, k: int, r: seq<Ranked<Kept>>, a: string, b: string) returns (i: nat, j: nat)
    requires IsRanking(Exact, k, lists, r) && a in Ids(lists) && b in Ids(lists)
    requires ScoreOf(Exact, k, lists, a) == ScoreOf(Exact, k, lists, b) && Less(a, b)
    ensures j < i < |r| && r[i].id == b && r[j].id == a
  {
    i :| 0 <= i < |r| && r[i].id == b;
    j :| 0 <= j < |r| && r[j].id == a;
    BeforeIsOrder(r[j], r[i], r[j]);
  }

  /** Agreement comes first under exactly the settings whose candidate lists are no
      longer than k+1. */
  lemma AgreementExactly(k: int, candidateLimit: int)
    requires k >= 1
    ensures AgreementFirst(k, candidateLimit) <==> candidateLimit <= k + 1
  {
    if candidateLimit <= k + 1 {
      ShortListsAgree(k, candidateLimit);
    } else {
      var keyword, vector := LongLists(k);
      var lists := Candidates(keyword, vector);
      LastPlacesTie(k, lists[0], lists[1]);
      ghost var r := Ranking(Exact, k, lists);
      var i, j := TiesById(lists, k, r, "a", "b");
      assert !AgreementFirst(k, candidateLimit) by {
        assert IsRanking(Exact, k, Candidates(keyword, vector), r);
      }
    }
  }

  /** The defaults are such settings; not everything that is accepted is. */
  lemma DefaultsAgree()
    ensures ValidateConfig(DefaultConfig).None? && AgreementFirst(DefaultConfig.rrfK, DefaultConfig.candidateLimit)
    ensures exists cfg :: ValidateConfig(cfg).None? && !AgreementFirst(cfg.rrfK, cfg.candidateLimit)
  {
    AgreementExactly(DefaultConfig.rrfK, DefaultConfig.candidateLimit);
    var wide := DefaultConfig.(candidateLimit := 100);
    AgreementExactly(wide.rrfK, wide.candidateLimit);
    assert ValidateConfig(wide).None?;
  }
}
