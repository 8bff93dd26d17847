/**
 Any number of versioned upserts in progress at once, their store calls
 interleaved one by one: overlapping consumers, retries, abandoned attempts and
 version reads that fail.
 */
module Interleaving {
  import opened Prelude
  import opened Errors
  import opened Stores
  import opened Events
  import opened ChangeService

  datatype Attempt = Attempt(ev: ChangeEvent, pc: Pc)

  datatype State = State(stores: Both, attempts: seq<Attempt>)

  /** An attempt begins, or one in progress makes its next store call. An attempt
      that is given up or crashes makes no further call. */
  datatype Action = Begin(ev: ChangeEvent, cancelled: Option<Error>) | Make(attempt: nat, call: Call)

  ghost predicate WellFormed(st: State) {
    forall i :: 0 <= i < |st.attempts| ==> PcFor(st.attempts[i].ev, st.attempts[i].pc)
  }

  ghost function Next(embed: Embedder, st: State, a: Action): (r: State)
    requires WellFormed(st)
    ensures WellFormed(r)
  {
    match a
    case Begin(ev, cancelled) => st.(attempts := st.attempts + [Attempt(ev, Enter(ev, cancelled))])
    case Make(i, call) =>
      if i >= |st.attempts| then st
      else
        var at := st.attempts[i];
        StepMakesProgress(embed, at.ev, at.pc, st.stores, call);
        var (pc, stores) := Step(embed, at.ev, at.pc, st.stores, call);
        State(stores, st.attempts[i := at.(pc := pc)])
  }

  ghost function Run(embed: Embedder, st: State, actions: seq<Action>): (r: State)
    requires WellFormed(st)
    ensures WellFormed(r)
  {
    if |actions| == 0 then st
    else Next(embed, Run(embed, st, actions[..|actions| - 1]), Last(actions))
  }

  predicate VersionedUpsert(ev: ChangeEvent) {
    ev.operation.IsUpsert() && (ev.row.Some? ==> ev.row.value.version > 0)
  }

  /** Every vector is of a row no newer than the keyword index holds. */
  ghost predicate KeywordNotBehind(s: Both) {
    forall id :: id in s.vectors ==>
      id in s.keyword && s.vectors[id].payload.version <= s.keyword[id].version
  }

  /** No document's version went down. */
  ghost predicate KeywordAdvances(k: Keyword, l: Keyword) {
    forall id :: id in k ==> id in l && k[id].version <= l[id].version
  }

  /** Past its keyword write, an attempt knows the index holds its row or a newer
      one. */
  ghost predicate Passed(at: Attempt, k: Keyword)
    requires PcFor(at.ev, at.pc)
  {
    at.pc.VersionRead? || at.pc.Embedding? || at.pc.VectorWrite? ==>
      at.ev.id in k && DocumentOf(at.ev).version <= k[at.ev.id].version
  }

  ghost predicate Inv(st: State) {
    && WellFormed(st)
    && KeywordNotBehind(st.stores)
    && forall i :: 0 <= i < |st.attempts| ==>
         VersionedUpsert(st.attempts[i].ev) && Passed(st.attempts[i], st.stores.keyword)
  }

  lemma StepKeeps(embed: Embedder, at: Attempt, s: Both, call: Call)
    requires PcFor(at.ev, at.pc) && VersionedUpsert(at.ev) && Passed(at, s.keyword) && KeywordNotBehind(s)
    ensures PcFor(at.ev, Step(embed, at.ev, at.pc, s, call).0)
    ensures
      var (pc, t) := Step(embed, at.ev, at.pc, s, call);
      KeywordNotBehind(t) && KeywordAdvances(s.keyword, t.keyword) && Passed(at.(pc := pc), t.keyword)
  {
    StepMakesProgress(embed, at.ev, at.pc, s, call);
  }

  lemma NextKeeps(embed: Embedder, st: State, a: Action)
    requires Inv(st) && (a.Begin? ==> VersionedUpsert(a.ev))
    ensures Inv(Next(embed, st, a))
    ensures KeywordAdvances(st.stores.keyword, Next(embed, st, a).stores.keyword)
  {
    if a.Make? && a.attempt < |st.attempts| {
      StepKeeps(embed, st.attempts[a.attempt], st.stores, a.call);
    }
  }

  lemma {:induction false} RunKeeps(embed: Embedder, st: State, actions: seq<Action>)
    requires Inv(st)
    requires forall a :: a in actions && a.Begin? ==> VersionedUpsert(a.ev)
    ensures Inv(Run(embed, st, actions))
  {
    if |actions| > 0 {
      assert Last(actions) in actions;
      RunKeeps(embed, st, actions[..|actions| - 1]);
      NextKeeps(embed, Run(embed, st, actions[..|actions| - 1]), Last(actions));
    }
  }

  /** In every interleaving of versioned upserts, from any stores whose keyword
      index is not behind, the version held for a document never goes down, and
      no document's vector is ever newer than its keyword entry. */
  lemma {:induction false} KeywordIndexNeverBehind(
    embed: Embedder, start: Both, actions: seq<Action>, i: nat, j: nat)
    requires KeywordNotBehind(start)
    requires forall a :: a in actions && a.Begin? ==> VersionedUpsert(a.ev)
    requires i <= j <= |actions|
    ensures KeywordNotBehind(Run(embed, State(start, []), actions[..j]).stores)
    ensures
      KeywordAdvances(
        Run(embed, State(start, []), actions[..i]).stores.keyword,
        Run(embed, State(start, []), actions[..j]).stores.keyword)
    decreases j
  {
    RunKeeps(embed, State(start, []), actions[..j]);
    if i < j {
      KeywordIndexNeverBehind(embed, start, actions, i, j - 1);
      assert actions[..j][..j - 1] == actions[..j - 1];
      RunKeeps(embed, State(start, []), actions[..j - 1]);
      NextKeeps(embed, Run(embed, State(start, []), actions[..j - 1]), actions[j - 1]);
    }
  }

  lemma RunAppend(embed: Embedder, st: State, actions: seq<Action>, a: Action)
    requires WellFormed(st)
    ensures Run(embed, st, actions + [a]) == Next(embed, Run(embed, st, actions), a)
  {
    assert (actions + [a])[..|actions|] == actions;
  }

  /** An older row that is about to embed while the newer row goes all the way. */
  ghost predicate OlderWaits(embed: Embedder, older: ChangeEvent, newer: ChangeEvent, st: State)
    requires Writable(newer)
  {
    && |st.attempts| == 2
    && st.attempts[0] == Attempt(older, Embedding(WriteApplied))
    && st.attempts[1].ev == newer && st.attempts[1].pc.Returned? && st.attempts[1].pc.error.None?
    && newer.id in st.stores.keyword && st.stores.keyword[newer.id] == DocumentOf(newer)
    && newer.id in st.stores.vectors && st.stores.vectors[newer.id] == PointOf(embed, DocumentOf(newer))
  }

  /** The vector index has no such guarantee: for every two rows of a document,
      some interleaving in which every call succeeds leaves the newer row in the
      keyword index and the older one's vector in the vector index. */
  lemma VectorIndexCanRegress(embed: Embedder, older: ChangeEvent, newer: ChangeEvent)
    returns (actions: seq<Action>)
    requires Writable(older) && Writable(newer) && older.id == newer.id && ValidKeywordId(older.id)
    requires 0 < DocumentOf(older).version < DocumentOf(newer).version
    ensures forall a :: a in actions ==> (a.Make? ==> a.call.Succeeds?) && (a.Begin? ==> VersionedUpsert(a.ev))
    ensures
      var s := Run(embed, State(Both(map[], map[]), []), actions).stores;
      && newer.id in s.keyword && s.keyword[newer.id] == DocumentOf(newer)
      && newer.id in s.vectors && s.vectors[newer.id] == PointOf(embed, DocumentOf(older))
  {
    var start := State(Both(map[], map[]), []);
    actions := OlderFallsBehind(embed, older, newer);
    OlderFinishes(embed, older, newer, Run(embed, start, actions));
    RunAppend(embed, start, actions, Make(0, Succeeds));
    RunAppend(embed, start, actions + [Make(0, Succeeds)], Make(0, Succeeds));
    actions := actions + [Make(0, Succeeds)] + [Make(0, Succeeds)];
  }

  lemma OlderFinishes(embed: Embedder, older: ChangeEvent, newer: ChangeEvent, st: State)
    requires WellFormed(st) && Writable(older) && Writable(newer) && older.id == newer.id && ValidKeywordId(older.id)
    requires OlderWaits(embed, older, newer, st)
    ensures
      var s := Next(embed, Next(embed, st, Make(0, Succeeds)), Make(0, Succeeds)).stores;
      && newer.id in s.keyword && s.keyword[newer.id] == DocumentOf(newer)
      && newer.id in s.vectors && s.vectors[newer.id] == PointOf(embed, DocumentOf(older))
  {
    var sent := Next(embed, st, Make(0, Succeeds));
    assert sent.stores == st.stores;
    assert sent.attempts[0] == Attempt(older, VectorWrite(WriteApplied, embed(EmbeddingText(DocumentOf(older)))));
  }

  /** An older row written to the keyword index and no further. */
  ghost predicate OlderWritten(older: ChangeEvent, st: State)
    requires Writable(older)
  {
    && st.attempts == [Attempt(older, Embedding(WriteApplied))]
    && st.stores == Both(map[older.id := DocumentOf(older)], map[])
  }

  lemma OlderWrites(embed: Embedder, older: ChangeEvent) returns (actions: seq<Action>, st: State)
    requires Writable(older) && ValidKeywordId(older.id)
    ensures actions == [Begin(older, None), Make(0, Succeeds)]
    ensures st == Run(embed, State(Both(map[], map[]), []), actions) && OlderWritten(older, st)
  {
    var start := State(Both(map[], map[]), []);
    actions := Two(embed, start, Begin(older, None), Make(0, Succeeds));
    st := Run(embed, start, actions);
  }

  lemma NewerWrites(embed: Embedder, older: ChangeEvent, newer: ChangeEvent, st: State)
    returns (actions: seq<Action>, t: State)
    requires WellFormed(st) && Writable(older) && Writable(newer) && older.id == newer.id && ValidKeywordId(older.id)
    requires 0 < DocumentOf(older).version < DocumentOf(newer).version && OlderWritten(older, st)
    ensures actions == [Begin(newer, None), Make(1, Succeeds)] && t == Run(embed, st, actions)
    ensures
      && t.attempts == [Attempt(older, Embedding(WriteApplied)), Attempt(newer, Embedding(WriteApplied))]
      && t.stores == Both(map[newer.id := DocumentOf(newer)], map[])
  {
    var begun := Next(embed, st, Begin(newer, None));
    assert begun.attempts[1] == Attempt(newer, KeywordWrite) && !Refused(begun.stores.keyword, DocumentOf(newer));
    actions := Two(embed, st, Begin(newer, None), Make(1, Succeeds));
    t := Run(embed, st, actions);
  }

  lemma NewerFinishes(embed: Embedder, older: ChangeEvent, newer: ChangeEvent, st: State)
    returns (actions: seq<Action>, t: State)
    requires WellFormed(st) && Writable(older) && Writable(newer) && older.id == newer.id && ValidKeywordId(older.id)
    requires st.attempts == [Attempt(older, Embedding(WriteApplied)), Attempt(newer, Embedding(WriteApplied))]
    requires st.stores == Both(map[newer.id := DocumentOf(newer)], map[])
    ensures actions == [Make(1, Succeeds), Make(1, Succeeds)] && t == Run(embed, st, actions)
    ensures OlderWaits(embed, older, newer, t)
  {
    var sent := Next(embed, st, Make(1, Succeeds));
    assert sent.attempts[1] == Attempt(newer, VectorWrite(WriteApplied, embed(EmbeddingText(DocumentOf(newer)))));
    actions := Two(embed, st, Make(1, Succeeds), Make(1, Succeeds));
    t := Run(embed, st, actions);
  }

  lemma OlderFallsBehind(embed: Embedder, older: ChangeEvent, newer: ChangeEvent)
    returns (actions: seq<Action>)
    requires Writable(older) && Writable(newer) && older.id == newer.id && ValidKeywordId(older.id)
    requires 0 < DocumentOf(older).version < DocumentOf(newer).version
    ensures forall a :: a in actions ==> (a.Make? ==> a.call.Succeeds?) && (a.Begin? ==> VersionedUpsert(a.ev))
    ensures OlderWaits(embed, older, newer, Run(embed, State(Both(map[], map[]), []), actions))
  {
    var start := State(Both(map[], map[]), []);
    var a1, s1 := OlderWrites(embed, older);
    var a2, s2 := NewerWrites(embed, older, newer, s1);
    var a3, s3 := NewerFinishes(embed, older, newer, s2);
    RunConcat(embed, start, a1, a2);
    RunConcat(embed, start, a1 + a2, a3);
    actions := a1 + a2 + a3;
  }

  lemma {:induction false} RunConcat(embed: Embedder, st: State, actions: seq<Action>, more: seq<Action>)
    requires WellFormed(st)
    ensures Run(embed, st, actions + more) == Run(embed, Run(embed, st, actions), more)
  {
    if more == [] {
      assert actions + more == actions;
    } else {
      RunConcat(embed, st, actions, more[..|more| - 1]);
      assert (actions + more)[..|actions + more| - 1] == actions + more[..|more| - 1];
    }
  }

  lemma Two(embed: Embedder, st: State, a: Action, b: Action) returns (actions: seq<Action>)
    requires WellFormed(st)
    ensures actions == [a, b] && Run(embed, st, actions) == Next(embed, Next(embed, st, a), b)
  {
    actions := [a, b];
    RunAppend(embed, st, [], a);
    RunAppend(embed, st, [a], b);
    assert [] + [a] == [a] && [a] + [b] == actions;
  }
}
