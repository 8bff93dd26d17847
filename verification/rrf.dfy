/**
 Reciprocal Rank Fusion: ranked lists merged by rank alone. Floating-point
 numbers are reals, and the sum and the term of a score are whatever the hardware
 rounds them to: any two functions. Only where exact values matter are they the
 exact ones.
 */
module Rrf {
  import opened Prelude

  /** One entry of a ranked list; no payload is a nil payload. */
  datatype Entry<+P> = Entry(id: string, payload: Option<P>)

  datatype Ranked<+P> = Ranked(id: string, score: real, payload: Option<P>)

  datatype Problem = InvalidK | InvalidLimit

  /** How scores are computed: a rounded sum, and the rounded 1/(k+rank). */
  datatype Arithmetic = Arithmetic(add: (real, real) -> real, term: (int, int) -> real)

  // ------------------------------------------------------------ what fusion means

  /** The 1-based position of an id's first entry. */
  function RankIn<P>(list: seq<Entry<P>>, id: string): (r: Option<nat>)
    ensures r.Some? ==> 1 <= r.value <= |list| && list[r.value - 1].id == id
    ensures r.None? <==> forall i :: 0 <= i < |list| ==> list[i].id != id
  {
    if list == [] then None
    else
      var before := RankIn(list[..|list| - 1], id);
      if before.Some? then before else if Last(list).id == id then Some(|list|) else None
  }

  /** The ranks of a document, over the lists that contain it. */
  function Ranks<P>(lists: seq<seq<Entry<P>>>, id: string): seq<nat> {
    if lists == [] then []
    else
      var before, rank := Ranks(lists[..|lists| - 1], id), RankIn(Last(lists), id);
      if rank.Some? then before + [rank.value] else before
  }

  /** The first payload among a document's first entries, list by list. */
  function PayloadOf<P>(lists: seq<seq<Entry<P>>>, id: string): Option<P> {
    if lists == [] then None
    else
      var before, rank := PayloadOf(lists[..|lists| - 1], id), RankIn(Last(lists), id);
      if before.Some? || rank.None? then before else Last(lists)[rank.value - 1].payload
  }

  function IdsIn<P>(list: seq<Entry<P>>): set<string> {
    if list == [] then {}
    else
      var before := IdsIn(list[..|list| - 1]);
      if Last(list).id == "" then before else before + {Last(list).id}
  }

  /** The documents of the lists; entries without an id are none. */
  function Ids<P>(lists: seq<seq<Entry<P>>>): set<string> {
    if lists == [] then {} else Ids(lists[..|lists| - 1]) + IdsIn(Last(lists))
  }

  function Insert(r: nat, sorted: seq<nat>): seq<nat> {
    if sorted == [] || r <= sorted[0] then [r] + sorted else [sorted[0]] + Insert(r, sorted[1..])
  }

  function Ascending(ranks: seq<nat>): seq<nat> {
    if ranks == [] then [] else Insert(Last(ranks), Ascending(ranks[..|ranks| - 1]))
  }

  function Sum(f: Arithmetic, k: int, ranks: seq<nat>): real {
    if ranks == [] then 0.0 else f.add(Sum(f, k, ranks[..|ranks| - 1]), f.term(k, Last(ranks)))
  }

  /** A score: the terms added up in ascending order of rank. */
  function Score(f: Arithmetic, k: int, ranks: seq<nat>): real {
    Sum(f, k, Ascending(ranks))
  }

  function ScoreOf<P>(f: Arithmetic, k: int, lists: seq<seq<Entry<P>>>, id: string): real {
    Score(f, k, Ranks(lists, id))
  }

  function Fused<P>(f: Arithmetic, k: int, lists: seq<seq<Entry<P>>>, id: string): Ranked<P> {
    Ranked(id, ScoreOf(f, k, lists, id), PayloadOf(lists, id))
  }

  predicate Less(a: string, b: string) {
    if b == "" then false else if a == "" then true
    else a[0] < b[0] || (a[0] == b[0] && Less(a[1..], b[1..]))
  }

  /** Higher scores first, then ids in ascending order. */
  predicate Before<P>(a: Ranked<P>, b: Ranked<P>) {
    a.score > b.score || (a.score == b.score && Less(a.id, b.id))
  }

  ghost predicate Descending<P>(s: seq<Ranked<P>>) {
    forall i, j :: 0 <= i < j < |s| ==> Before(s[i], s[j])
  }

  /** The ranking of all documents: each once, with its score and payload, in
      strict order. There is exactly one. */
  ghost predicate IsRanking<P>(f: Arithmetic, k: int, lists: seq<seq<Entry<P>>>, r: seq<Ranked<P>>) {
    && Descending(r)
    && (forall i :: 0 <= i < |r| ==> r[i].id in Ids(lists) && r[i] == Fused(f, k, lists, r[i].id))
    && (forall id :: id in Ids(lists) ==> exists i :: 0 <= i < |r| && r[i].id == id)
  }

  // --------------------------------------------------------------- orders and sorts

  lemma {:induction false} LessIsOrder(a: string, b: string, c: string)
    ensures !Less(a, a)
    ensures Less(a, b) ==> !Less(b, a)
    ensures Less(a, b) && Less(b, c) ==> Less(a, c)
    ensures a == b || Less(a, b) || Less(b, a)
    decreases |a| + |b| + |c|
  {
    if a != "" && b != "" {
      LessIsOrder(a[1..], b[1..], if c != "" then c[1..] else c);
      assert a[0] == b[0] && a[1..] == b[1..] ==> a == b by {
        assert a == [a[0]] + a[1..] && b == [b[0]] + b[1..];
      }
    }
    if a != "" && b == "" {
      LessIsOrder(a[1..], b, c);
    }
  }

  /** Texts that agree on their first n characters, where a ends or has the smaller
      next one. */
  predicate SmallerAt(a: string, b: string, n: int) {
    0 <= n <= |a| && n < |b| && a[..n] == b[..n] && (n == |a| || a[n] < b[n])
  }

  /** Less is the order of texts, character by character. */
  lemma {:induction false} LessMeaning(a: string, b: string)
    ensures Less(a, b) <==> exists n :: SmallerAt(a, b, n)
  {
    if b == "" {
      assert forall n :: !SmallerAt(a, b, n);
    } else if a == "" {
      assert SmallerAt(a, b, 0);
    } else if a[0] != b[0] {
      assert a[0] < b[0] ==> SmallerAt(a, b, 0);
      forall n
        ensures SmallerAt(a, b, n) ==> n == 0
      {
        FirstDiffers(a, b, n);
      }
    } else {
      LessMeaning(a[1..], b[1..]);
      if n :| SmallerAt(a, b, n) {
        SmallerTails(a, b, n - 1);
        assert SmallerAt(a[1..], b[1..], n - 1);
      }
      if n :| SmallerAt(a[1..], b[1..], n) {
        SmallerTails(a, b, n);
        assert SmallerAt(a, b, n + 1);
      }
    }
  }

  lemma FirstDiffers(a: string, b: string, n: int)
    requires a != "" && b != "" && a[0] != b[0]
    ensures SmallerAt(a, b, n) ==> n == 0
  {
    if 0 < n <= |a| && n < |b| {
      assert a[..n][0] == a[0] && b[..n][0] == b[0];
    }
  }

  lemma SmallerTails(a: string, b: string, n: int)
    requires a != "" && b != "" && a[0] == b[0]
    ensures n >= 0 ==> (SmallerAt(a, b, n + 1) <==> SmallerAt(a[1..], b[1..], n))
  {
    if 0 <= n && n + 1 <= |a| && n + 1 < |b| {
      assert a[..n + 1] == [a[0]] + a[1..][..n] && b[..n + 1] == [b[0]] + b[1..][..n];
    }
  }

  lemma BeforeIsOrder<P>(a: Ranked<P>, b: Ranked<P>, c: Ranked<P>)
    ensures !Before(a, a)
    ensures Before(a, b) ==> !Before(b, a)
    ensures Before(a, b) && Before(b, c) ==> Before(a, c)
    ensures a.id == b.id || Before(a, b) || Before(b, a)
  {
    LessIsOrder(a.id, b.id, c.id);
  }

  /** Put one entry in its place among sorted ones. */
  function Place<P>(e: Ranked<P>, s: seq<Ranked<P>>): seq<Ranked<P>> {
    if s == [] || Before(e, s[0]) then [e] + s else [s[0]] + Place(e, s[1..])
  }

  lemma {:induction false} PlaceContents<P>(e: Ranked<P>, s: seq<Ranked<P>>)
    ensures multiset(Place(e, s)) == multiset(s) + multiset{e}
    ensures |Place(e, s)| == |s| + 1
  {
    if s != [] && !Before(e, s[0]) {
      PlaceContents(e, s[1..]);
      assert s == [s[0]] + s[1..];
    } else {
      assert multiset([e] + s) == multiset([e]) + multiset(s);
    }
  }

  lemma {:induction false} PlaceSorts<P>(e: Ranked<P>, s: seq<Ranked<P>>)
    requires Descending(s) && forall i :: 0 <= i < |s| ==> s[i].id != e.id
    ensures Descending(Place(e, s))
  {
    if s == [] {
    } else if Before(e, s[0]) {
      forall j | 0 < j < |s|
        ensures Before(e, s[j])
      {
        BeforeIsOrder(e, s[0], s[j]);
      }
    } else {
      BeforeIsOrder(s[0], e, e);
      var tail := Place(e, s[1..]);
      PlaceSorts(e, s[1..]);
      PlaceContents(e, s[1..]);
      forall j | 0 <= j < |tail|
        ensures Before(s[0], tail[j])
      {
        assert tail[j] in multiset(tail);
        assert tail[j] == e || tail[j] in s[1..];
      }
    }
  }

  ghost predicate Within<T>(s: seq<T>, t: seq<T>) {
    forall i :: 0 <= i < |s| ==> s[i] in t
  }

  lemma SameFirst<P>(s: seq<Ranked<P>>, t: seq<Ranked<P>>)
    requires Descending(s) && Descending(t) && Within(s, t) && Within(t, s) && s != []
    ensures t != [] && s[0] == t[0]
  {
    assert s[0] in t;
    assert t[0] in s;
    var i :| 0 <= i < |t| && t[i] == s[0];
    var j :| 0 <= j < |s| && s[j] == t[0];
    BeforeIsOrder(s[0], t[0], s[0]);
  }

  lemma TailWithin<P>(s: seq<Ranked<P>>, t: seq<Ranked<P>>)
    requires Descending(s) && Within(s, t) && s != [] && t != [] && s[0] == t[0]
    ensures Within(s[1..], t[1..])
  {
    forall m | 0 <= m < |s[1..]|
      ensures s[1..][m] in t[1..]
    {
      BeforeIsOrder(s[0], s[m + 1], s[0]);
      assert s[m + 1] in t;
      var n :| 0 <= n < |t| && t[n] == s[m + 1];
      assert t[1..][n - 1] == s[m + 1];
    }
  }

  /** Two strictly sorted sequences of the same entries are the same. */
  lemma {:induction false} SortedUnique<P>(s: seq<Ranked<P>>, t: seq<Ranked<P>>)
    requires Descending(s) && Descending(t) && Within(s, t) && Within(t, s)
    ensures s == t
  {
    if s != [] {
      SameFirst(s, t);
      TailWithin(s, t);
      TailWithin(t, s);
      SortedUnique(s[1..], t[1..]);
      assert s == [s[0]] + s[1..] && t == [t[0]] + t[1..];
    }
  }

  lemma RankingUnique<P>(
    f: Arithmetic, k: int, lists: seq<seq<Entry<P>>>, s: seq<Ranked<P>>, t: seq<Ranked<P>>)
    requires IsRanking(f, k, lists, s) && IsRanking(f, k, lists, t)
    ensures s == t
  {
    RankingWithin(f, k, lists, s, t);
    RankingWithin(f, k, lists, t, s);
    SortedUnique(s, t);
  }

  lemma RankingWithin<P>(
    f: Arithmetic, k: int, lists: seq<seq<Entry<P>>>, s: seq<Ranked<P>>, t: seq<Ranked<P>>)
    requires IsRanking(f, k, lists, s) && IsRanking(f, k, lists, t)
    ensures Within(s, t)
  {
    forall i | 0 <= i < |s|
      ensures s[i] in t
    {
      var id := s[i].id;
      assert id in Ids(lists);
      var j :| 0 <= j < |t| && t[j].id == id;
      assert t[j] == Fused(f, k, lists, id) == s[i];
    }
  }

  /** Some documents, ranked. */
  ghost function RankSome<P>(f: Arithmetic, k: int, lists: seq<seq<Entry<P>>>, ids: set<string>): seq<Ranked<P>> {
    if ids == {} then []
    else
      var id :| id in ids;
      Place(Fused(f, k, lists, id), RankSome(f, k, lists, ids - {id}))
  }

  lemma PlaceMembers<P>(e: Ranked<P>, s: seq<Ranked<P>>)
    ensures forall i :: 0 <= i < |Place(e, s)| ==> Place(e, s)[i] == e || Place(e, s)[i] in s
    ensures e in Place(e, s) && Within(s, Place(e, s))
  {
    PlaceContents(e, s);
    var r := Place(e, s);
    forall i | 0 <= i < |r|
      ensures r[i] == e || r[i] in s
    {
      assert r[i] in multiset(r);
    }
    forall i | 0 <= i < |s|
      ensures s[i] in r
    {
      assert s[i] in multiset(r);
    }
    assert e in multiset(r);
  }

  /** r ranks exactly these documents. */
  ghost predicate RanksOnly<P>(f: Arithmetic, k: int, lists: seq<seq<Entry<P>>>, ids: set<string>, r: seq<Ranked<P>>) {
    && Descending(r)
    && (forall i :: 0 <= i < |r| ==> r[i].id in ids && r[i] == Fused(f, k, lists, r[i].id))
    && (forall id :: id in ids ==> Fused(f, k, lists, id) in r)
  }

  lemma RanksOneMore<P>(
    f: Arithmetic, k: int, lists: seq<seq<Entry<P>>>, ids: set<string>, id: string, rest: seq<Ranked<P>>)
    requires id in ids && RanksOnly(f, k, lists, ids - {id}, rest)
    ensures RanksOnly(f, k, lists, ids, Place(Fused(f, k, lists, id), rest))
  {
    PlaceSorts(Fused(f, k, lists, id), rest);
    PlaceMembers(Fused(f, k, lists, id), rest);
  }

  lemma {:induction false} RankSomeRanks<P>(f: Arithmetic, k: int, lists: seq<seq<Entry<P>>>, ids: set<string>)
    ensures RanksOnly(f, k, lists, ids, RankSome(f, k, lists, ids))
    decreases ids
  {
    if ids != {} {
      var id :| id in ids && RankSome(f, k, lists, ids) == Place(Fused(f, k, lists, id), RankSome(f, k, lists, ids - {id}));
      RankSomeRanks(f, k, lists, ids - {id});
      RanksOneMore(f, k, lists, ids, id, RankSome(f, k, lists, ids - {id}));
    }
  }

  lemma MembersRank<P>(f: Arithmetic, k: int, lists: seq<seq<Entry<P>>>, r: seq<Ranked<P>>)
    requires Descending(r)
    requires forall i :: 0 <= i < |r| ==> r[i].id in Ids(lists) && r[i] == Fused(f, k, lists, r[i].id)
    requires forall id :: id in Ids(lists) ==> Fused(f, k, lists, id) in r
    ensures IsRanking(f, k, lists, r)
  {
    forall id | id in Ids(lists)
      ensures exists i :: 0 <= i < |r| && r[i].id == id
    {
      assert Fused(f, k, lists, id) in r;
    }
  }

  /** The ranking. */
  ghost function Ranking<P>(f: Arithmetic, k: int, lists: seq<seq<Entry<P>>>): (r: seq<Ranked<P>>)
    ensures IsRanking(f, k, lists, r)
  {
    RankSomeRanks(f, k, lists, Ids(lists));
    var r := RankSome(f, k, lists, Ids(lists));
    MembersRank(f, k, lists, r);
    r
  }

  function Top<T>(s: seq<T>, limit: nat): seq<T> {
    if |s| > limit then s[..limit] else s
  }

  // ------------------------------------------------------------------- the code

  datatype Candidate<+P> = Candidate(ranks: seq<nat>, payload: Option<P>)

  /** The candidates are the documents of the lists, with their ranks and payload. */
  ghost predicate Tallied<P>(lists: seq<seq<Entry<P>>>, candidates: map<string, Candidate<P>>) {
    && candidates.Keys == Ids(lists)
    && forall id :: id in candidates ==> candidates[id] == CandidateOf(lists, id)
  }

  function CandidateOf<P>(lists: seq<seq<Entry<P>>>, id: string): Candidate<P> {
    Candidate(Ranks(lists, id), PayloadOf(lists, id))
  }

  /** A document appears once more. */
  function Appearing<P>(c: Candidate<P>, e: Entry<P>, rank: nat): Candidate<P> {
    Candidate(c.ranks + [rank], if c.payload.None? then e.payload else c.payload)
  }

  lemma {:induction false} IdsInMeaning<P>(list: seq<Entry<P>>, id: string)
    ensures id in IdsIn(list) <==> id != "" && RankIn(list, id).Some?
  {
    if list != [] {
      IdsInMeaning(list[..|list| - 1], id);
    }
  }

  lemma {:induction false} IdsMeaning<P>(lists: seq<seq<Entry<P>>>, id: string)
    ensures id in Ids(lists) <==> id != "" && Ranks(lists, id) != []
  {
    if lists != [] {
      IdsMeaning(lists[..|lists| - 1], id);
      IdsInMeaning(Last(lists), id);
    }
  }

  /** One more entry in the last list. */
  lemma EntryAdded<P>(before: seq<seq<Entry<P>>>, list: seq<Entry<P>>, e: Entry<P>, id: string)
    ensures
      var prior, after := before + [list], before + [list + [e]];
      CandidateOf(after, id)
      == if e.id == id && RankIn(list, id).None? then Appearing(CandidateOf(prior, id), e, |list| + 1)
         else CandidateOf(prior, id)
  {
    var prior, after := before + [list], before + [list + [e]];
    assert prior[..|prior| - 1] == before && after[..|after| - 1] == before;
    assert (list + [e])[..|list|] == list;
  }

  lemma EntryIds<P>(before: seq<seq<Entry<P>>>, list: seq<Entry<P>>, e: Entry<P>)
    ensures IdsIn(list + [e]) == if e.id == "" then IdsIn(list) else IdsIn(list) + {e.id}
    ensures Ids(before + [list + [e]]) == if e.id == "" then Ids(before + [list]) else Ids(before + [list]) + {e.id}
  {
    var prior, after := before + [list], before + [list + [e]];
    assert prior[..|prior| - 1] == before && after[..|after| - 1] == before;
    assert (list + [e])[..|list|] == list;
  }

  /** What handling one entry does to the candidates. */
  function Counted<P>(candidates: map<string, Candidate<P>>, seen: set<string>, e: Entry<P>, rank: nat)
    : map<string, Candidate<P>>
  {
    if e.id == "" || e.id in seen then candidates
    else
      var c := if e.id in candidates then candidates[e.id] else Candidate([], None);
      candidates[e.id := Appearing(c, e, rank)]
  }

  lemma CountedTallies<P>(
    before: seq<seq<Entry<P>>>, list: seq<Entry<P>>, e: Entry<P>, candidates: map<string, Candidate<P>>)
    requires Tallied(before + [list], candidates)
    ensures Tallied(before + [list + [e]], Counted(candidates, IdsIn(list), e, |list| + 1))
  {
    var next := Counted(candidates, IdsIn(list), e, |list| + 1);
    assert next.Keys == Ids(before + [list + [e]]) by {
      EntryIds(before, list, e);
      SeenBefore(before, list);
      CountedKeys(candidates, IdsIn(list), e, |list| + 1);
    }
    forall id | id in next
      ensures next[id] == CandidateOf(before + [list + [e]], id)
    {
      CountedHere(before, list, e, candidates, id);
    }
  }

  lemma CountedKeys<P>(candidates: map<string, Candidate<P>>, seen: set<string>, e: Entry<P>, rank: nat)
    requires seen <= candidates.Keys
    ensures Counted(candidates, seen, e, rank).Keys == if e.id == "" then candidates.Keys else candidates.Keys + {e.id}
  {
  }

  lemma SeenBefore<P>(before: seq<seq<Entry<P>>>, list: seq<Entry<P>>)
    ensures IdsIn(list) <= Ids(before + [list])
  {
    assert (before + [list])[..|before|] == before;
  }

  lemma CountedHere<P>(
    before: seq<seq<Entry<P>>>, list: seq<Entry<P>>, e: Entry<P>, candidates: map<string, Candidate<P>>, id: string)
    requires Tallied(before + [list], candidates) && id in Counted(candidates, IdsIn(list), e, |list| + 1)
    ensures Counted(candidates, IdsIn(list), e, |list| + 1)[id] == CandidateOf(before + [list + [e]], id)
  {
    var prior, after, seen := before + [list], before + [list + [e]], IdsIn(list);
    NoEmptyId(prior);
    IdsInMeaning(list, e.id);
    EntryAdded(before, list, e, id);
    if id !in Ids(prior) {
      NewCandidate(prior, id);
    }
    CountedAt(prior, after, seen, e, |list| + 1, candidates, id);
  }

  lemma CountedAt<P>(
    prior: seq<seq<Entry<P>>>, after: seq<seq<Entry<P>>>, seen: set<string>, e: Entry<P>, rank: nat,
    candidates: map<string, Candidate<P>>, id: string)
    requires Tallied(prior, candidates) && id in Counted(candidates, seen, e, rank)
    requires id !in Ids(prior) ==> CandidateOf(prior, id) == Candidate([], None)
    requires
      CandidateOf(after, id)
      == if e.id == id && (id == "" || id !in seen) then Appearing(CandidateOf(prior, id), e, rank)
         else CandidateOf(prior, id)
    requires id != ""
    ensures Counted(candidates, seen, e, rank)[id] == CandidateOf(after, id)
  {
  }

  lemma {:induction false} NoEmptyId<P>(lists: seq<seq<Entry<P>>>)
    ensures "" !in Ids(lists)
  {
    IdsMeaning(lists, "");
  }

  lemma NewCandidate<P>(lists: seq<seq<Entry<P>>>, id: string)
    requires id != "" && id !in Ids(lists)
    ensures CandidateOf(lists, id) == Candidate([], None)
  {
    IdsMeaning(lists, id);
    NoRanksNoPayload(lists, id);
  }

  lemma {:induction false} NoRanksNoPayload<P>(lists: seq<seq<Entry<P>>>, id: string)
    requires Ranks(lists, id) == []
    ensures PayloadOf(lists, id) == None
  {
    if lists != [] {
      NoRanksNoPayload(lists[..|lists| - 1], id);
    }
  }

  lemma {:induction false} InsertContents(r: nat, s: seq<nat>)
    ensures multiset(Insert(r, s)) == multiset(s) + multiset{r}
  {
    if s != [] && r > s[0] {
      InsertContents(r, s[1..]);
      assert s == [s[0]] + s[1..];
    } else {
      assert multiset([r] + s) == multiset([r]) + multiset(s);
    }
  }

  ghost predicate Sorted(s: seq<nat>) {
    forall i, j :: 0 <= i < j < |s| ==> s[i] <= s[j]
  }

  lemma {:induction false} InsertSorts(r: nat, s: seq<nat>)
    requires Sorted(s)
    ensures Sorted(Insert(r, s))
  {
    if s != [] && r > s[0] {
      InsertSorts(r, s[1..]);
      InsertContents(r, s[1..]);
      var tail := Insert(r, s[1..]);
      forall j | 0 <= j < |tail|
        ensures s[0] <= tail[j]
      {
        assert tail[j] in multiset(tail);
        assert tail[j] == r || tail[j] in s[1..];
      }
    }
  }

  lemma {:induction false} AscendingSorts(s: seq<nat>)
    ensures Sorted(Ascending(s)) && multiset(Ascending(s)) == multiset(s)
  {
    if s != [] {
      var before, last := s[..|s| - 1], Last(s);
      AscendingSorts(before);
      InsertSorts(last, Ascending(before));
      InsertContents(last, Ascending(before));
      LastCounts(s);
    }
  }

  lemma LastCounts(s: seq<nat>)
    requires s != []
    ensures multiset(s) == multiset(s[..|s| - 1]) + multiset{Last(s)}
  {
    assert s == s[..|s| - 1] + [Last(s)];
  }

  /** The library sort of a slice of ranks. */
  method SortRanks(ranks: seq<nat>) returns (sorted: seq<nat>)
    ensures sorted == Ascending(ranks)
  {
    sorted := [];
    for i := 0 to |ranks|
      invariant sorted == Ascending(ranks[..i])
    {
      assert ranks[..i + 1][..i] == ranks[..i];
      sorted := Insert(ranks[i], sorted);
    }
    assert ranks[..|ranks|] == ranks;
  }

  method ScoreRanks(f: Arithmetic, ranks: seq<nat>, k: int) returns (sum: real)
    ensures sum == Score(f, k, ranks)
  {
    var sorted := SortRanks(ranks);
    sum := 0.0;
    for i := 0 to |sorted|
      invariant sum == Sum(f, k, sorted[..i])
    {
      assert sorted[..i + 1][..i] == sorted[..i];
      sum := f.add(sum, f.term(k, sorted[i]));
    }
    assert sorted[..|sorted|] == sorted;
  }

  /** The library sort of the results, by the comparison it is given. */
  method SortResults<P>(results: seq<Ranked<P>>) returns (sorted: seq<Ranked<P>>)
    requires forall i, j :: 0 <= i < j < |results| ==> results[i].id != results[j].id
    ensures Descending(sorted) && multiset(sorted) == multiset(results)
  {
    sorted := [];
    for i := 0 to |results|
      invariant Descending(sorted) && multiset(sorted) == multiset(results[..i])
    {
      assert results[..i + 1] == results[..i] + [results[i]];
      forall j | 0 <= j < |sorted|
        ensures sorted[j].id != results[i].id
      {
        assert sorted[j] in multiset(sorted);
        assert sorted[j] in results[..i];
      }
      PlaceSorts(results[i], sorted);
      PlaceContents(results[i], sorted);
      sorted := Place(results[i], sorted);
    }
    assert results[..|results|] == results;
  }

  /** The top of the fused ranking. The candidates are visited in an arbitrary
      order, as the entries of a map are. */
  method Fuse<P>(f: Arithmetic, resultSets: seq<seq<Entry<P>>>, k: int, limit: int)
    returns (r: Result<seq<Ranked<P>>, Problem>)
    ensures k < 1 ==> r == Err(InvalidK)
    ensures k >= 1 && limit < 1 ==> r == Err(InvalidLimit)
    ensures k >= 1 && limit >= 1 ==> r == Ok(Top(Ranking(f, k, resultSets), limit))
  {
    if k < 1 {
      return Err(InvalidK);
    }
    if limit < 1 {
      return Err(InvalidLimit);
    }
    var candidates: map<string, Candidate<P>> := map[];
    for n := 0 to |resultSets|
      invariant Tallied(resultSets[..n], candidates)
    {
      candidates := CountList(resultSets[..n], resultSets[n], candidates);
      assert resultSets[..n + 1] == resultSets[..n] + [resultSets[n]];
    }
    assert resultSets[..|resultSets|] == resultSets;
    var results := ScoreAll(f, k, resultSets, candidates);
    var sorted := SortResults(results);
    SortedIsRanking(f, k, resultSets, results, sorted);
    RankingUnique(f, k, resultSets, sorted, Ranking(f, k, resultSets));
    r := Ok(if |sorted| > limit then sorted[..limit] else sorted);
  }

  method CountList<P>(ghost before: seq<seq<Entry<P>>>, list: seq<Entry<P>>, start: map<string, Candidate<P>>)
    returns (candidates: map<string, Candidate<P>>)
    requires Tallied(before, start)
    ensures Tallied(before + [list], candidates)
  {
    candidates := start;
    var seen := {};
    EmptyListTallies(before, start);
    for i := 0 to |list|
      invariant seen == IdsIn(list[..i])
      invariant Tallied(before + [list[..i]], candidates)
    {
      var e := list[i];
      CountStep(before, list, i, candidates);
      SeenStep(list, i);
      ghost var next := Counted(candidates, seen, e, i + 1);
      if e.id != "" && e.id !in seen {
        seen := seen + {e.id};
        var c := if e.id in candidates then candidates[e.id] else Candidate([], None);
        c := c.(ranks := c.ranks + [i + 1]);
        if c.payload.None? {
          c := c.(payload := e.payload);
        }
        candidates := candidates[e.id := c];
      }
      assert candidates == next;
    }
    assert list[..|list|] == list;
  }

  lemma CountStep<P>(before: seq<seq<Entry<P>>>, list: seq<Entry<P>>, i: nat, candidates: map<string, Candidate<P>>)
    requires i < |list| && Tallied(before + [list[..i]], candidates)
    ensures Tallied(before + [list[..i + 1]], Counted(candidates, IdsIn(list[..i]), list[i], i + 1))
  {
    assert list[..i + 1] == list[..i] + [list[i]];
    CountedTallies(before, list[..i], list[i], candidates);
  }

  lemma SeenStep<P>(list: seq<Entry<P>>, i: nat)
    requires i < |list|
    ensures IdsIn(list[..i + 1]) == if list[i].id == "" then IdsIn(list[..i]) else IdsIn(list[..i]) + {list[i].id}
  {
    assert list[..i + 1][..i] == list[..i];
  }

  lemma EmptyListTallies<P>(before: seq<seq<Entry<P>>>, candidates: map<string, Candidate<P>>)
    requires Tallied(before, candidates)
    ensures Tallied(before + [[]], candidates)
  {
    assert (before + [[]])[..|before|] == before;
  }

  /** The results are the documents not left, each once with its score and payload. */
  ghost predicate ScoredBut<P>(
    f: Arithmetic, k: int, lists: seq<seq<Entry<P>>>, left: set<string>, results: seq<Ranked<P>>)
  {
    && (forall i :: 0 <= i < |results| ==>
          results[i].id in Ids(lists) - left && results[i] == Fused(f, k, lists, results[i].id))
    && (forall i, j :: 0 <= i < j < |results| ==> results[i].id != results[j].id)
    && (forall id :: id in Ids(lists) && id !in left ==> Fused(f, k, lists, id) in results)
  }

  lemma ScoredOneMore<P>(
    f: Arithmetic, k: int, lists: seq<seq<Entry<P>>>, left: set<string>, results: seq<Ranked<P>>, id: string)
    requires ScoredBut(f, k, lists, left, results) && id in left && id in Ids(lists)
    ensures ScoredBut(f, k, lists, left - {id}, results + [Fused(f, k, lists, id)])
  {
  }

  method ScoreAll<P>(
    f: Arithmetic, k: int, ghost lists: seq<seq<Entry<P>>>, candidates: map<string, Candidate<P>>)
    returns (results: seq<Ranked<P>>)
    requires Tallied(lists, candidates)
    ensures ScoredBut(f, k, lists, {}, results)
  {
    results := [];
    var left := candidates.Keys;
    while left != {}
      invariant left <= candidates.Keys && ScoredBut(f, k, lists, left, results)
      decreases left
    {
      var id :| id in left;
      var score := ScoreRanks(f, candidates[id].ranks, k);
      TallyScores(f, k, lists, candidates, id);
      ScoredOneMore(f, k, lists, left, results, id);
      results := results + [Ranked(id, score, candidates[id].payload)];
      left := left - {id};
    }
  }

  lemma TallyScores<P>(
    f: Arithmetic, k: int, lists: seq<seq<Entry<P>>>, candidates: map<string, Candidate<P>>, id: string)
    requires Tallied(lists, candidates) && id in candidates
    ensures Ranked(id, Score(f, k, candidates[id].ranks), candidates[id].payload) == Fused(f, k, lists, id)
  {
  }

  lemma SortedIsRanking<P>(
    f: Arithmetic, k: int, lists: seq<seq<Entry<P>>>, results: seq<Ranked<P>>, sorted: seq<Ranked<P>>)
    requires Descending(sorted) && multiset(sorted) == multiset(results)
    requires forall i :: 0 <= i < |results| ==>
      results[i].id in Ids(lists) && results[i] == Fused(f, k, lists, results[i].id)
    requires forall id :: id in Ids(lists) ==> Fused(f, k, lists, id) in results
    ensures IsRanking(f, k, lists, sorted)
  {
    forall i | 0 <= i < |sorted|
      ensures sorted[i].id in Ids(lists) && sorted[i] == Fused(f, k, lists, sorted[i].id)
    {
      assert sorted[i] in multiset(sorted);
      assert sorted[i] in results;
    }
    forall id | id in Ids(lists)
      ensures Fused(f, k, lists, id) in sorted
    {
      assert Fused(f, k, lists, id) in multiset(results);
    }
    MembersRank(f, k, lists, sorted);
  }
}
