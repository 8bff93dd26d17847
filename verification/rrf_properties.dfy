/** What fusing ranked lists guarantees. */
module RrfProperties {
  import opened Prelude
  import opened Rrf

  // ------------------------------------------------------- ranks and payloads

  /** The payload kept for a document is the first one that is not nil among its
      first entries, in the order of the lists. */
  lemma {:induction false} PayloadIsFirstKept<P>(lists: seq<seq<Entry<P>>>, id: string) returns (at: nat)
    requires PayloadOf(lists, id).Some?
    ensures at < |lists| && RankIn(lists[at], id).Some?
    ensures lists[at][RankIn(lists[at], id).value - 1].payload == PayloadOf(lists, id)
    ensures forall n :: 0 <= n < at && RankIn(lists[n], id).Some? ==>
      lists[n][RankIn(lists[n], id).value - 1].payload.None?
  {
    var n := |lists| - 1;
    if PayloadOf(lists[..n], id).Some? {
      at := PayloadIsFirstKept(lists[..n], id);
      assert forall m :: 0 <= m < n ==> lists[..n][m] == lists[m];
    } else {
      at := n;
      forall m | 0 <= m < n && RankIn(lists[m], id).Some?
        ensures lists[m][RankIn(lists[m], id).value - 1].payload.None?
      {
        NoPayloadKept(lists[..n], id, m);
        assert lists[..n][m] == lists[m];
      }
    }
  }

  lemma {:induction false} NoPayloadKept<P>(lists: seq<seq<Entry<P>>>, id: string, n: nat)
    requires PayloadOf(lists, id).None? && n < |lists| && RankIn(lists[n], id).Some?
    ensures lists[n][RankIn(lists[n], id).value - 1].payload.None?
  {
    if n < |lists| - 1 {
      NoPayloadKept(lists[..|lists| - 1], id, n);
    }
  }

  /** A document counts once per list, where it appears first. */
  lemma {:induction false} RankIsFirst<P>(list: seq<Entry<P>>, id: string, i: nat)
    requires i < |list| && list[i].id == id
    ensures RankIn(list, id).Some? && RankIn(list, id).value <= i + 1
  {
    if i < |list| - 1 {
      RankIsFirst(list[..|list| - 1], id, i);
    }
  }

  // ------------------------------------------------------------------- scores

  lemma LeastFirst(s: seq<nat>, t: seq<nat>)
    requires Sorted(s) && Sorted(t) && multiset(s) == multiset(t) && s != []
    ensures t != [] && s[0] == t[0]
  {
    assert s[0] in multiset(t);
    assert t[0] in multiset(s);
    var i :| 0 <= i < |t| && t[i] == s[0];
    var j :| 0 <= j < |s| && s[j] == t[0];
  }

  lemma WithoutFirst(s: seq<nat>)
    requires s != []
    ensures multiset(s[1..]) == multiset(s) - multiset{s[0]}
  {
    assert s == [s[0]] + s[1..];
  }

  lemma {:induction false} SortedRanksUnique(s: seq<nat>, t: seq<nat>)
    requires Sorted(s) && Sorted(t) && multiset(s) == multiset(t)
    ensures s == t
  {
    if s == [] {
      assert |multiset(t)| == 0;
    } else {
      LeastFirst(s, t);
      WithoutFirst(s);
      WithoutFirst(t);
      SortedRanksUnique(s[1..], t[1..]);
      assert s == [s[0]] + s[1..] && t == [t[0]] + t[1..];
    }
  }

  /** Whatever the arithmetic, a score depends only on which ranks there are, not
      on the order they came in. */
  lemma ScoreOfMultiset(f: Arithmetic, k: int, r: seq<nat>, s: seq<nat>)
    requires multiset(r) == multiset(s)
    ensures Score(f, k, r) == Score(f, k, s)
  {
    AscendingSorts(r);
    AscendingSorts(s);
    SortedRanksUnique(Ascending(r), Ascending(s));
  }

  /** Without the sort this is false of rounded sums: here a sum that keeps only
      its last term. */
  lemma UnsortedSumDependsOnOrder()
    ensures
      var f := Arithmetic((a, b) => b, (k, r) => r as real);
      Sum(f, 60, [1, 2]) != Sum(f, 60, [2, 1])
  {
    var f := Arithmetic((a, b) => b, (k, r) => r as real);
    assert Sum(f, 60, [1, 2]) == 2.0 && Sum(f, 60, [2, 1]) == 1.0;
  }

  // -------------------------------------------------------- order of the lists

  lemma {:induction false} RanksSplit<P>(s: seq<seq<Entry<P>>>, t: seq<seq<Entry<P>>>, id: string)
    ensures Ranks(s + t, id) == Ranks(s, id) + Ranks(t, id)
  {
    if t == [] {
      assert s + t == s;
    } else {
      RanksSplit(s, t[..|t| - 1], id);
      assert (s + t)[..|s + t| - 1] == s + t[..|t| - 1];
    }
  }

  lemma CancelOne<T>(a: multiset<T>, b: multiset<T>, x: T)
    requires a + multiset{x} == b + multiset{x}
    ensures a == b
  {
    assert a == a + multiset{x} - multiset{x} && b == b + multiset{x} - multiset{x};
  }

  lemma {:induction false} RanksOfPermutation<P>(s: seq<seq<Entry<P>>>, t: seq<seq<Entry<P>>>, id: string)
    requires multiset(s) == multiset(t)
    ensures multiset(Ranks(s, id)) == multiset(Ranks(t, id))
  {
    assert |multiset(s)| == |s| && |multiset(t)| == |t|;
    if s != [] {
      var x, rest := Last(s), s[..|s| - 1];
      assert s == rest + [x];
      var a, b := TakeOut(rest, t, x);
      RanksOfPermutation(rest, a + b, id);
      RanksOfMoved(rest, [], x, id);
      RanksOfMoved(a, b, x, id);
      assert rest + [x] + [] == s && rest + [] == rest;
    }
  }

  lemma TakeOut<T>(rest: seq<T>, t: seq<T>, x: T) returns (a: seq<T>, b: seq<T>)
    requires multiset(rest + [x]) == multiset(t)
    ensures t == a + [x] + b && multiset(rest) == multiset(a + b)
  {
    assert x in multiset(t);
    var j :| 0 <= j < |t| && t[j] == x;
    a, b := t[..j], t[j + 1..];
    assert t == a + [x] + b;
    CancelOne(multiset(rest), multiset(a + b), x);
  }

  lemma RanksOfMoved<P>(a: seq<seq<Entry<P>>>, b: seq<seq<Entry<P>>>, x: seq<Entry<P>>, id: string)
    ensures multiset(Ranks(a + [x] + b, id)) == multiset(Ranks(a + b, id)) + multiset(Ranks([x], id))
  {
    RanksSplit(a + [x], b, id);
    RanksSplit(a, [x], id);
    RanksSplit(a, b, id);
  }

  /** The order in which the lists are given changes no document, no score and no
      place in the ranking. */
  lemma ListOrderIrrelevant<P>(
    f: Arithmetic, k: int, s: seq<seq<Entry<P>>>, t: seq<seq<Entry<P>>>, r: seq<Ranked<P>>, q: seq<Ranked<P>>)
    requires multiset(s) == multiset(t)
    requires IsRanking(f, k, s, r) && IsRanking(f, k, t, q)
    ensures |r| == |q|
    ensures forall i :: 0 <= i < |r| ==> r[i].id == q[i].id && r[i].score == q[i].score
  {
    forall id
      ensures ScoreOf(f, k, s, id) == ScoreOf(f, k, t, id)
      ensures id in Ids(s) <==> id in Ids(t)
    {
      RanksOfPermutation(s, t, id);
      ScoreOfMultiset(f, k, Ranks(s, id), Ranks(t, id));
      IdsMeaning(s, id);
      IdsMeaning(t, id);
      assert |Ranks(s, id)| == |multiset(Ranks(s, id))| == |multiset(Ranks(t, id))| == |Ranks(t, id)|;
    }
    BareWithin(f, k, s, t, r, q);
    BareWithin(f, k, t, s, q, r);
    SortedUnique(Bare(r), Bare(q));
    assert |Bare(r)| == |r| && |Bare(q)| == |q|;
    forall i | 0 <= i < |r|
      ensures r[i].id == q[i].id && r[i].score == q[i].score
    {
      assert Bare(r)[i] == Bare(q)[i];
    }
  }

  /** A ranking without its payloads. */
  function Bare<P>(r: seq<Ranked<P>>): seq<Ranked<()>> {
    seq(|r|, i requires 0 <= i < |r| => Ranked(r[i].id, r[i].score, None))
  }

  lemma BareWithin<P>(
    f: Arithmetic, k: int, s: seq<seq<Entry<P>>>, t: seq<seq<Entry<P>>>, r: seq<Ranked<P>>, q: seq<Ranked<P>>)
    requires forall id :: ScoreOf(f, k, s, id) == ScoreOf(f, k, t, id) && (id in Ids(s) <==> id in Ids(t))
    requires IsRanking(f, k, s, r) && IsRanking(f, k, t, q)
    ensures Descending(Bare(r))
    ensures Within(Bare(r), Bare(q))
  {
    forall i, j | 0 <= i < j < |r|
      ensures Before(Bare(r)[i], Bare(r)[j])
    {
      assert Before(r[i], r[j]);
    }
    forall i | 0 <= i < |r|
      ensures Bare(r)[i] in Bare(q)
    {
      var j :| 0 <= j < |q| && q[j].id == r[i].id;
      assert Bare(q)[j] == Bare(r)[i];
    }
  }

  // ---------------------------------------------------------------------- limits

  /** A smaller limit gives the beginning of what a larger one gives, and nothing
      it leaves out ranks above anything it keeps. */
  lemma TopIsBest<P>(
    f: Arithmetic, k: int, lists: seq<seq<Entry<P>>>, r: seq<Ranked<P>>, a: nat, b: nat, i: nat, id: string)
    requires a <= b
    requires IsRanking(f, k, lists, r) && i < |Top(r, a)| && id in Ids(lists)
    ensures Top(r, a) <= Top(r, b)
    ensures |Top(r, a)| == if |Ids(lists)| < a then |Ids(lists)| else a
    ensures Fused(f, k, lists, id) in Top(r, a) || Before(Top(r, a)[i], Fused(f, k, lists, id))
  {
    assert |Top(r, a)| == if |Ids(lists)| < a then |Ids(lists)| else a by {
      RankingCounts(f, k, lists, r);
    }
    BestOf(f, k, lists, r, a, i, id);
    TopGrows(r, a, b);
  }

  lemma TopGrows<T>(s: seq<T>, a: nat, b: nat)
    requires a <= b
    ensures Top(s, a) <= Top(s, b)
  {
  }

  lemma BestOf<P>(
    f: Arithmetic, k: int, lists: seq<seq<Entry<P>>>, r: seq<Ranked<P>>, a: nat, i: nat, id: string)
    requires IsRanking(f, k, lists, r) && i < |Top(r, a)| && id in Ids(lists)
    ensures Fused(f, k, lists, id) in Top(r, a) || Before(Top(r, a)[i], Fused(f, k, lists, id))
  {
    var j :| 0 <= j < |r| && r[j].id == id;
    KeptOrBelow(r, a, i, j);
  }

  lemma KeptOrBelow<P>(r: seq<Ranked<P>>, a: nat, i: nat, j: nat)
    requires Descending(r) && i < |Top(r, a)| && j < |r|
    ensures r[j] in Top(r, a) || Before(Top(r, a)[i], r[j])
  {
    assert j < |Top(r, a)| ==> Top(r, a)[j] == r[j];
  }

  /** The ranking has each document once. */
  lemma RankingCounts<P>(f: Arithmetic, k: int, lists: seq<seq<Entry<P>>>, r: seq<Ranked<P>>)
    requires IsRanking(f, k, lists, r)
    ensures |r| == |Ids(lists)|
  {
    forall i, j | 0 <= i < j < |r|
      ensures r[i].id != r[j].id
    {
      BeforeIsOrder(r[i], r[j], r[i]);
    }
    DistinctCount(r, Ids(lists));
  }

  lemma {:induction false} DistinctCount<P>(r: seq<Ranked<P>>, ids: set<string>)
    requires forall i, j :: 0 <= i < j < |r| ==> r[i].id != r[j].id
    requires forall i :: 0 <= i < |r| ==> r[i].id in ids
    requires forall id :: id in ids ==> exists i :: 0 <= i < |r| && r[i].id == id
    ensures |r| == |ids|
  {
    if r == [] {
      if id :| id in ids {
        assert false;
      }
    } else {
      var id := r[0].id;
      forall x | x in ids - {id}
        ensures exists i :: 0 <= i < |r[1..]| && r[1..][i].id == x
      {
        var i :| 0 <= i < |r| && r[i].id == x;
        assert r[1..][i - 1].id == x;
      }
      DistinctCount(r[1..], ids - {id});
    }
  }

  /** In the result each entry scores more than the next, or as much and has the smaller
      id, compared as text. */
  lemma NeighboursInOrder<P>(
    f: Arithmetic, k: int, lists: seq<seq<Entry<P>>>, r: seq<Ranked<P>>, limit: nat, i: nat)
    requires IsRanking(f, k, lists, r) && i + 1 < |Top(r, limit)|
    ensures
      var a, b := Top(r, limit)[i], Top(r, limit)[i + 1];
      a.score > b.score || (a.score == b.score && exists n :: SmallerAt(a.id, b.id, n))
  {
    LessMeaning(r[i].id, r[i + 1].id);
    assert Before(r[i], r[i + 1]);
  }

  // ------------------------------------------------------------- better positions

  /** Arithmetic that keeps order, as rounded addition and division do. */
  ghost predicate Monotone(f: Arithmetic, k: int) {
    && (forall a, b, c, d :: a <= b && c <= d ==> f.add(a, c) <= f.add(b, d))
    && (forall r: int, s: int :: 1 <= r <= s ==> f.term(k, s) <= f.term(k, r))
  }

  ghost predicate NoWorse(r: seq<nat>, s: seq<nat>) {
    |r| == |s| && forall i :: 0 <= i < |r| ==> r[i] <= s[i]
  }

  lemma {:induction false} InsertNoWorse(a: nat, r: seq<nat>, b: nat, s: seq<nat>)
    requires a <= b && NoWorse(r, s) && Sorted(r) && Sorted(s)
    ensures NoWorse(Insert(a, r), Insert(b, s))
    decreases |r|
  {
    if r != [] {
      if a <= r[0] && b > s[0] {
        assert Insert(r[0], r[1..]) == r;
        InsertNoWorse(r[0], r[1..], b, s[1..]);
      } else if a > r[0] && b <= s[0] {
        assert Insert(s[0], s[1..]) == s;
        InsertNoWorse(a, r[1..], s[0], s[1..]);
      } else if a > r[0] {
        InsertNoWorse(a, r[1..], b, s[1..]);
      }
    }
  }

  lemma {:induction false} AscendingNoWorse(r: seq<nat>, s: seq<nat>)
    requires NoWorse(r, s)
    ensures NoWorse(Ascending(r), Ascending(s))
  {
    if r != [] {
      AscendingNoWorse(r[..|r| - 1], s[..|s| - 1]);
      AscendingSorts(r[..|r| - 1]);
      AscendingSorts(s[..|s| - 1]);
      InsertNoWorse(Last(r), Ascending(r[..|r| - 1]), Last(s), Ascending(s[..|s| - 1]));
    }
  }

  lemma {:induction false} SumNoWorse(f: Arithmetic, k: int, r: seq<nat>, s: seq<nat>)
    requires Monotone(f, k) && NoWorse(r, s) && forall i :: 0 <= i < |r| ==> r[i] >= 1
    ensures Sum(f, k, r) >= Sum(f, k, s)
  {
    if r != [] {
      SumNoWorse(f, k, r[..|r| - 1], s[..|s| - 1]);
    }
  }

  /** A document's rank in a list did not get worse. */
  predicate NoLower(a: Option<nat>, b: Option<nat>) {
    match (a, b)
    case (None, None) => true
    case (Some(r), Some(s)) => r <= s
    case _ => false
  }

  lemma MoreNoWorse(r: seq<nat>, s: seq<nat>, a: nat, b: nat)
    requires NoWorse(r, s) && a <= b
    ensures NoWorse(r + [a], s + [b])
  {
  }

  lemma {:induction false} RanksNoWorse<P>(better: seq<seq<Entry<P>>>, lists: seq<seq<Entry<P>>>, id: string)
    requires |better| == |lists|
    requires forall n :: 0 <= n < |lists| ==> NoLower(RankIn(better[n], id), RankIn(lists[n], id))
    ensures NoWorse(Ranks(better, id), Ranks(lists, id))
  {
    if lists != [] {
      var n := |lists| - 1;
      var r, s := better[..n], lists[..n];
      assert forall m :: 0 <= m < n ==> r[m] == better[m] && s[m] == lists[m];
      RanksNoWorse(r, s, id);
      assert NoLower(RankIn(better[n], id), RankIn(lists[n], id));
      if RankIn(lists[n], id).Some? {
        MoreNoWorse(Ranks(r, id), Ranks(s, id), RankIn(better[n], id).value, RankIn(lists[n], id).value);
      }
    }
  }

  lemma {:induction false} RanksPositive<P>(lists: seq<seq<Entry<P>>>, id: string)
    ensures forall i :: 0 <= i < |Ranks(lists, id)| ==> Ranks(lists, id)[i] >= 1
  {
    if lists != [] {
      RanksPositive(lists[..|lists| - 1], id);
    }
  }

  /** A document that moves up in some of its lists never scores less, under
      rounding as much as exactly. */
  lemma EarlierNeverScoresLess<P>(
    f: Arithmetic, k: int, better: seq<seq<Entry<P>>>, lists: seq<seq<Entry<P>>>, id: string)
    requires Monotone(f, k) && |better| == |lists|
    requires forall n :: 0 <= n < |lists| ==> NoLower(RankIn(better[n], id), RankIn(lists[n], id))
    ensures ScoreOf(f, k, better, id) >= ScoreOf(f, k, lists, id)
  {
    RanksNoWorse(better, lists, id);
    RanksPositive(better, id);
    var r, s := Ranks(better, id), Ranks(lists, id);
    AscendingNoWorse(r, s);
    AscendingSorts(r);
    forall i | 0 <= i < |Ascending(r)|
      ensures Ascending(r)[i] >= 1
    {
      assert Ascending(r)[i] in multiset(r);
    }
    SumNoWorse(f, k, Ascending(r), Ascending(s));
  }

  // ------------------------------------------------------------------- agreement

  /** Exact sums of exact terms. */
  const Exact := Arithmetic((a, b) => a + b, (k, r) => if k + r == 0 then 0.0 else 1.0 / (k + r) as real)

  lemma ExactScores(k: int, r: nat, s: nat)
    requires k >= 1
    ensures Score(Exact, k, [r]) == 1.0 / (k + r) as real
    ensures Score(Exact, k, [r, s]) == 1.0 / (k + r) as real + 1.0 / (k + s) as real
  {
    AscendingFew(r, s);
    OneSum(k, r);
    TwoSum(k, r, s);
    TwoSum(k, s, r);
  }

  lemma AscendingFew(r: nat, s: nat)
    ensures Ascending([r]) == [r]
    ensures Ascending([r, s]) == if s <= r then [s, r] else [r, s]
  {
    assert [r][..0] == [] && [r, s][..1] == [r];
    assert Ascending([r]) == [r];
    assert Ascending([r, s]) == Insert(s, [r]);
    assert [r][1..] == [] && Insert(s, []) == [s];
  }

  lemma OneSum(k: int, r: nat)
    ensures Sum(Exact, k, [r]) == Exact.term(k, r)
  {
    assert [r][..0] == [];
  }

  lemma TwoSum(k: int, r: nat, s: nat)
    ensures Sum(Exact, k, [r, s]) == Exact.term(k, r) + Exact.term(k, s)
  {
    assert [r, s][..1] == [r];
    OneSum(k, r);
  }

  lemma Reciprocals(x: real, y: real)
    requires 0.0 < x <= y
    ensures 1.0 / y <= 1.0 / x
  {
  }

  /** Two votes from places up to k+1 outweigh one from the first. */
  lemma TwoVotesOutweigh(k: int, r: nat, s: nat, t: nat)
    requires k >= 1 && 1 <= r <= k + 1 && 1 <= s <= k + 1 && 1 <= t
    ensures Score(Exact, k, [r, s]) > Score(Exact, k, [t])
  {
    ExactScores(k, r, s);
    ExactScores(k, t, t);
    var last := (2 * k + 1) as real;
    Reciprocals((k + r) as real, last);
    Reciprocals((k + s) as real, last);
    Reciprocals((k + 1) as real, (k + t) as real);
    VotesMargin(k);
  }

  lemma VotesMargin(k: int)
    requires k >= 1
    ensures 2.0 / (2 * k + 1) as real > 1.0 / (k + 1) as real
    ensures 2.0 / (2 * k + 1) as real == 1.0 / (2 * k + 1) as real + 1.0 / (2 * k + 1) as real
  {
  }

  /** With two lists no longer than k+1, every document both retrievers found ranks
      strictly above every document only one of them found. */
  lemma AgreementWins<P>(
    k: int, keyword: seq<Entry<P>>, vector: seq<Entry<P>>, r: seq<Ranked<P>>, i: nat, j: nat)
    requires k >= 1 && |keyword| <= k + 1 && |vector| <= k + 1
    requires IsRanking(Exact, k, [keyword, vector], r) && i < |r| && j < |r|
    requires RankIn(keyword, r[i].id).Some? && RankIn(vector, r[i].id).Some?
    requires RankIn(keyword, r[j].id).None? || RankIn(vector, r[j].id).None?
    ensures i < j
  {
    AgreedScore(k, keyword, vector, r[i].id, r[j].id);
    BeforeIsOrder(r[i], r[j], r[i]);
  }

  lemma AgreedScore<P>(k: int, keyword: seq<Entry<P>>, vector: seq<Entry<P>>, x: string, y: string)
    requires k >= 1 && |keyword| <= k + 1 && |vector| <= k + 1
    requires RankIn(keyword, x).Some? && RankIn(vector, x).Some?
    requires RankIn(keyword, y).None? || RankIn(vector, y).None?
    requires y in Ids([keyword, vector])
    ensures ScoreOf(Exact, k, [keyword, vector], x) > ScoreOf(Exact, k, [keyword, vector], y)
  {
    TwoLists(keyword, vector, x);
    TwoLists(keyword, vector, y);
    IdsMeaning([keyword, vector], y);
    var r, s := RankIn(keyword, x).value, RankIn(vector, x).value;
    var t := if RankIn(keyword, y).Some? then RankIn(keyword, y).value else RankIn(vector, y).value;
    assert Ranks([keyword, vector], x) == [r, s];
    assert Ranks([keyword, vector], y) == [t];
    TwoVotesOutweigh(k, r, s, t);
  }

  lemma TwoLists<P>(a: seq<Entry<P>>, b: seq<Entry<P>>, id: string)
    ensures
      Ranks([a, b], id)
      == (if RankIn(a, id).Some? then [RankIn(a, id).value] else [])
         + (if RankIn(b, id).Some? then [RankIn(b, id).value] else [])
  {
    assert [a, b][..1] == [a] && [a][..0] == [];
    assert Ranks([a], id) == if RankIn(a, id).Some? then [RankIn(a, id).value] else [];
  }

  /** One place further the bound fails: two votes from place k+2 are worth exactly
      one from the first, and the id decides. */
  lemma AgreementIsTight(k: int)
    requires k >= 1
    ensures Score(Exact, k, [k + 2, k + 2]) == Score(Exact, k, [1])
  {
    ExactScores(k, k + 2, k + 2);
    ExactScores(k, 1, 1);
    assert (k + (k + 2)) as real == 2.0 * (k + 1) as real;
    TwoHalves((k + 1) as real);
  }

  lemma TwoHalves(x: real)
    requires x > 0.0
    ensures 1.0 / (2.0 * x) + 1.0 / (2.0 * x) == 1.0 / x
  {
  }
}
