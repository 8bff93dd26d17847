/**
 Versioned rows of one document, delivered in any order, any number of times
 and stopped anywhere: the newest row wins in both stores.
 */
module Convergence {
  import opened Prelude
  import opened Stores
  import opened Events
  import opened ChangeService
  import opened Idempotence

  /** One delivery of an event, stopped after some number of store calls. */
  datatype Delivery = Delivery(ev: ChangeEvent, calls: Calls, stop: nat)

  function Deliver(embed: Embedder, s: Both, d: Delivery): Both {
    Interrupted(embed, d.ev, s, d.calls, d.stop).1
  }

  function DeliverAll(embed: Embedder, s: Both, ds: seq<Delivery>): Both {
    if |ds| == 0 then s else Deliver(embed, DeliverAll(embed, s, ds[..|ds| - 1]), Last(ds))
  }

  /** A versioned row of the document, no newer than top, and top itself if it
      has top's version. */
  predicate RowBefore(ev: ChangeEvent, top: ChangeEvent) {
    && Writable(ev) && Writable(top) && ev.id == top.id
    && 0 < DocumentOf(ev).version <= DocumentOf(top).version
    && (DocumentOf(ev).version == DocumentOf(top).version ==> DocumentOf(ev) == DocumentOf(top))
  }

  /** The keyword index holds nothing newer than top. */
  predicate NotPast(s: Both, top: ChangeEvent)
    requires Writable(top)
  {
    top.id in s.keyword ==>
      && s.keyword[top.id].version <= DocumentOf(top).version
      && (s.keyword[top.id].version == DocumentOf(top).version ==> s.keyword[top.id] == DocumentOf(top))
  }

  /** Both stores hold exactly this row. */
  predicate Holds(embed: Embedder, s: Both, ev: ChangeEvent)
    requires Writable(ev)
  {
    && ev.id in s.keyword && s.keyword[ev.id] == DocumentOf(ev)
    && ev.id in s.vectors && s.vectors[ev.id] == PointOf(embed, DocumentOf(ev))
  }

  lemma {:induction false} NeverPast(embed: Embedder, s: Both, ds: seq<Delivery>, top: ChangeEvent)
    requires forall d :: d in ds ==> RowBefore(d.ev, top)
    requires Writable(top) && NotPast(s, top)
    ensures NotPast(DeliverAll(embed, s, ds), top)
  {
    if |ds| > 0 {
      var before, d := ds[..|ds| - 1], Last(ds);
      assert d in ds && forall e :: e in before ==> e in ds;
      NeverPast(embed, s, before, top);
      InterruptedStores(embed, d.ev, DeliverAll(embed, s, before), d.calls, d.stop);
    }
  }

  lemma {:induction false} StaysNewest(embed: Embedder, s: Both, ds: seq<Delivery>, top: ChangeEvent)
    requires forall d :: d in ds ==> RowBefore(d.ev, top) && d.calls.read.Succeeds?
    requires Writable(top) && DocumentOf(top).version > 0 && Holds(embed, s, top)
    ensures Holds(embed, DeliverAll(embed, s, ds), top)
  {
    if |ds| > 0 {
      var before, d := ds[..|ds| - 1], Last(ds);
      assert d in ds && forall e :: e in before ==> e in ds;
      StaysNewest(embed, s, before, top);
      InterruptedStores(embed, d.ev, DeliverAll(embed, s, before), d.calls, d.stop);
    }
  }

  lemma {:induction false} DeliverAllConcat(embed: Embedder, s: Both, ds: seq<Delivery>, es: seq<Delivery>)
    ensures DeliverAll(embed, s, ds + es) == DeliverAll(embed, DeliverAll(embed, s, ds), es)
  {
    if |es| == 0 {
      assert ds + es == ds;
    } else {
      DeliverAllConcat(embed, s, ds, es[..|es| - 1]);
      assert (ds + es)[..|ds + es| - 1] == ds + es[..|es| - 1];
    }
  }

  /** Once the newest row has been delivered to completion, both stores hold it
      for good: whatever was delivered before, in whatever order, and whatever is
      delivered again afterwards, as long as stored versions can be read back. */
  lemma NewestWins(
    embed: Embedder, s: Both, before: seq<Delivery>, top: Delivery, after: seq<Delivery>)
    requires Writable(top.ev) && DocumentOf(top.ev).version > 0 && NotPast(s, top.ev)
    requires forall d :: d in before ==> RowBefore(d.ev, top.ev)
    requires forall d :: d in after ==> RowBefore(d.ev, top.ev) && d.calls.read.Succeeds?
    requires top.stop == MaxCalls && Completes(top.ev, DeliverAll(embed, s, before), top.calls)
    ensures Holds(embed, DeliverAll(embed, s, before + [top] + after), top.ev)
  {
    NeverPast(embed, s, before, top.ev);
    var mid := DeliverAll(embed, s, before);
    CompletionDependsOnCalls(embed, top.ev, mid, top.calls);
    InterruptedStores(embed, top.ev, mid, top.calls, MaxCalls);
    assert (before + [top])[..|before|] == before;
    StaysNewest(embed, Deliver(embed, mid, top), after, top.ev);
    DeliverAllConcat(embed, s, before + [top], after);
  }

  /** Readability matters: one overtaken delivery whose version read fails puts
      its older vector back, unless it stops before the vector write. */
  lemma UnreadableVersionRegresses(embed: Embedder, s: Both, top: ChangeEvent, d: Delivery)
    requires Writable(top) && Holds(embed, s, top) && RowBefore(d.ev, top)
    requires DocumentOf(d.ev).version < DocumentOf(top).version
    requires d.stop == MaxCalls && Completes(d.ev, s, d.calls)
    ensures Holds(embed, Deliver(embed, s, d), top) <==> d.calls.read.Succeeds?
  {
    CompletionDependsOnCalls(embed, d.ev, s, d.calls);
    InterruptedStores(embed, d.ev, s, d.calls, MaxCalls);
  }

  /** It happens: both stores hold version 2, version 1 is delivered once more, the
      version cannot be read back, and the vector of version 1 is back. */
  lemma OlderVectorReturns(embed: Embedder)
    ensures
      var s := AtTwo(embed);
      var t := Deliver(embed, s, Delivery(Version(1), Unread, MaxCalls));
      && Holds(embed, s, Version(2))
      && t.keyword["1"] == DocumentOf(Version(2)) && t.vectors["1"] == PointOf(embed, DocumentOf(Version(1)))
  {
    VersionIsWritable(1);
    VersionIsWritable(2);
    EffectIsTrue(embed, Version(1), AtTwo(embed), Unread);
    RepeatOfOvertakenRow(embed, Version(1), AtTwo(embed), Unread);
    CompletionDependsOnCalls(embed, Version(1), AtTwo(embed), Unread);
  }
}
