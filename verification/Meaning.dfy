/** What "whole" and "half-restored" mean for the facts: data that the step machine calls intact under the
    restoring marker is a complete restore of one collection into an empty keyspace, as long as nothing but the
    restore itself touches marked data. */
module Meaning {
  import opened CrawlState
  import opened Store
  import opened Persistence

  /** The facts mention no URL without a row. */
  predicate Within(docs: Docs, f: Facts) {
    Urls(f) <= UrlsIn(docs)
  }

  /** The facts of a row's URL are what the row says under some clock reading. */
  ghost predicate RowDone(f: Facts, r: CrawlState.Row)
    requires r.barren >= 0
  {
    exists now :: At(f, r.url) == Target(r, now)
  }

  /** The first k batches have been restored, and the facts mention no URL without a row. */
  ghost predicate Progress(docs: Docs, f: Facts, k: nat) {
    Within(docs, f) && forall i :: 0 <= i < Upto(docs, k) ==> RowDone(f, docs[i])
  }

  /** All of it has. */
  ghost predicate FullRestore(docs: Docs, f: Facts) {
    Within(docs, f) && forall i :: 0 <= i < |docs| ==> RowDone(f, docs[i])
  }

  // ---- batches ----

  lemma {:induction false} PerformWithin(docs: Docs, f: Facts, cs: seq<Command>, mask: seq<bool>)
    requires Within(docs, f) && forall c :: c in cs ==> c.url in UrlsIn(docs)
    ensures Within(docs, PerformSome(f, cs, mask))
    decreases |cs|
  {
    if cs != [] && mask != [] {
      assert cs[0] in cs;
      PerformWithin(docs, if mask[0] then Perform(f, cs[0]) else f, cs[1..], mask[1..]);
    }
  }

  lemma {:induction false} CommandsWithin(docs: Docs, rows: seq<CrawlState.Row>, nows: seq<int>)
    requires |rows| == |nows| && AllCounted(rows) && UrlsIn(rows) <= UrlsIn(docs)
    ensures forall c :: c in Commands(rows, nows) ==> c.url in UrlsIn(docs)
    decreases |rows|
  {
    if rows != [] {
      assert rows[0] in rows && rows[0].url in UrlsIn(rows);
      assert UrlsIn(rows[1..]) <= UrlsIn(rows);
      CommandsWithin(docs, rows[1..], nows[1..]);
    }
  }

  lemma BatchUrls(docs: Docs, k: nat)
    ensures UrlsIn(Batch(docs, k)) <= UrlsIn(docs)
  {
  }

  lemma PartWithin(docs: Docs, k: nat, now: int, mask: seq<bool>, f: Facts)
    requires Within(docs, f)
    ensures Within(docs, BatchPart(docs, k, now, mask, f))
  {
    var b := Batch(docs, k);
    BatchUrls(docs, k);
    CommandsWithin(docs, b, Const(|b|, now));
    PerformWithin(docs, f, Commands(b, Const(|b|, now)), mask);
  }

  lemma LoadedWithin(docs: Docs, k: nat, now: int, f: Facts)
    requires Within(docs, f)
    ensures Within(docs, BatchLoaded(docs, k, now, f))
  {
    var b := Batch(docs, k);
    var cs := Commands(b, Const(|b|, now));
    SomeIsAll(f, cs);
    PartWithin(docs, k, now, Trues(|cs|), f);
  }

  lemma ProgressStart(docs: Docs, f: Facts)
    requires Within(docs, f)
    ensures Progress(docs, f, 0)
  {
  }

  lemma BatchDone(docs: Docs, k: nat, now: int, f: Facts, i: nat)
    requires Upto(docs, k) <= i < Upto(docs, k + 1)
    ensures RowDone(BatchLoaded(docs, k, now, f), docs[i])
  {
    var b := Batch(docs, k);
    RestoreAt(f, b, Const(|b|, now), i - Upto(docs, k));
    assert At(BatchLoaded(docs, k, now, f), docs[i].url) == Target(docs[i], now);
  }

  lemma BatchLeaves(docs: Docs, k: nat, now: int, f: Facts, i: nat)
    requires i < Upto(docs, k) && RowDone(f, docs[i])
    ensures RowDone(BatchLoaded(docs, k, now, f), docs[i])
  {
    var b := Batch(docs, k);
    forall r | r in b
      ensures r.url != docs[i].url
    {
      var m :| 0 <= m < |b| && b[m] == r;
      assert r == docs[Upto(docs, k) + m];
    }
    RestoreElsewhere(f, b, Const(|b|, now), docs[i].url);
    var t :| At(f, docs[i].url) == Target(docs[i], t);
    assert At(BatchLoaded(docs, k, now, f), docs[i].url) == Target(docs[i], t);
  }

  lemma BatchAdvances(docs: Docs, f: Facts, k: nat, now: int, g: Facts)
    requires g == BatchLoaded(docs, k, now, f)
    ensures Progress(docs, f, k) ==> Progress(docs, g, k + 1)
  {
    if Progress(docs, f, k) {
      LoadedWithin(docs, k, now, f);
      forall i | 0 <= i < Upto(docs, k + 1)
        ensures RowDone(g, docs[i])
      {
        if i < Upto(docs, k) {
          BatchLeaves(docs, k, now, f, i);
        } else {
          BatchDone(docs, k, now, f, i);
        }
      }
    }
  }

  lemma UptoAll(docs: Docs)
    ensures Upto(docs, Batches(docs)) == |docs|
  {
  }

  lemma LastProgress(docs: Docs, f: Facts, k: nat)
    requires Progress(docs, f, k) && k == Batches(docs)
    ensures FullRestore(docs, f)
  {
    UptoAll(docs);
  }

  lemma NothingIsWhole()
    ensures FullRestore([], NO_FACTS)
  {
  }

  /** A full restore is what one uninterrupted restore into an empty keyspace leaves, for some clock readings. */
  lemma FullRestoreIsRestore(docs: Docs, f: Facts) returns (nows: seq<int>)
    requires FullRestore(docs, f)
    ensures |nows| == |docs| && f == RestoreAll(NO_FACTS, docs, nows)
  {
    nows := ClockOf(docs, f, |docs|);
    var g := RestoreAll(NO_FACTS, docs, nows);
    forall u
      ensures At(f, u) == At(g, u)
    {
      if i: nat :| i < |docs| && docs[i].url == u {
        RestoreAt(NO_FACTS, docs, nows, i);
      } else {
        assert forall r :: r in docs ==> r.url != u;
        RestoreElsewhere(NO_FACTS, docs, nows, u);
        assert u !in UrlsIn(docs) && u !in Urls(f);
      }
    }
    SameEverywhere(f, g);
  }

  lemma {:induction false} ClockOf(docs: Docs, f: Facts, n: nat) returns (nows: seq<int>)
    requires FullRestore(docs, f) && n <= |docs|
    ensures |nows| == n && forall i :: 0 <= i < n ==> At(f, docs[i].url) == Target(docs[i], nows[i])
  {
    nows := [];
    if n > 0 {
      nows := ClockOf(docs, f, n - 1);
      assert RowDone(f, docs[n - 1]);
      var now :| At(f, docs[n - 1].url) == Target(docs[n - 1], now);
      nows := nows + [now];
    }
  }

  // ---- the invariant ----

  /** Restore attempt a is under way. */
  predicate Current(w: World, a: nat) {
    w.crawler.Up? && InRestore(w.crawler.pc) && w.crawler.attempt == a
  }

  ghost predicate IsRestore(f: Facts) {
    exists docs: Docs :: FullRestore(docs, f)
  }

  /** Marked data holds nothing but rows; if intact, all rows of some collection; if torn by the attempt under
      way, as many batches as it says. */
  ghost predicate Means(w: World, d: Image) {
    && (d.content.Torn? ==> d.content.attempt <= w.attempts)
    && (d.marker.Restoring? ==>
          && Within(w.docs, d.facts)
          && (d.content.Intact? ==> IsRestore(d.facts))
          && (d.content.Torn? && Current(w, d.content.attempt) ==> Progress(w.docs, d.facts, d.content.done)))
  }

  /** The attempt's own bookkeeping. */
  ghost predicate Booked(w: World) {
    var c, f := w.crawler, w.redis.data.facts;
    c.Up? ==>
      && c.attempt <= w.attempts
      && (c.pc.Mark? || c.pc.Guard? || c.pc.Look? || c.pc.Write? || c.pc.Check? ==> c.pc.batches == Batches(w.docs))
      && (c.pc.Guard? || c.pc.Look? || c.pc.Write? ==> c.pc.batch <= c.pc.batches)
      && (c.pc.Check? ==> c.pc.batch < c.pc.batches)
      && (Same(w) && (c.pc.Mark? || (c.pc.Open? && !c.pc.resuming)) ==> f == NO_FACTS && Unmarked(w))
      && (Same(w) && (c.pc.Guard? || c.pc.Look? || c.pc.Write?) && 0 < c.pc.batch == c.pc.batches ==>
            FullRestore(w.docs, f))
      && (Same(w) && c.pc.Check? && c.pc.batch + 1 == c.pc.batches ==> FullRestore(w.docs, f))
  }

  ghost predicate Meant(w: World) {
    Booked(w) && Means(w, w.redis.data) && forall d :: d in w.images ==> Means(w, d)
  }

  /** Nothing but a restore touches marked data, and a restore begins on an empty keyspace. */
  predicate Clean(w: World, e: Event) {
    && (e.Work? && w.crawler.Up? && w.crawler.complete ==> !w.redis.data.marker.Restoring?)
    && (Marks(w, e) ==> w.redis.data.facts == NO_FACTS && w.redis.data.content.Intact?)
  }

  /** The restoring marker is written. */
  predicate Marks(w: World, e: Event) {
    && e.Step? && w.crawler.Up? && w.crawler.pc.Mark? && !(e.luck.fail && !e.luck.applied)
    && !(w.crawler.pc.absent && !w.redis.data.marker.Absent?)
  }

  /** In the recorded process everything is clean. */
  lemma SameIsClean(w: World, e: Event)
    requires Steady(w) && Booked(w) && Same(w)
    ensures Clean(w, e)
  {
  }

  // ---- one event ----

  /** v follows w: collections only gain URLs, and an attempt under way keeps its collection. */
  ghost predicate Follows(w: World, v: World) {
    && w.attempts <= v.attempts && UrlsIn(w.docs) <= UrlsIn(v.docs)
    && forall a: nat :: Current(v, a) ==> a > w.attempts || (Current(w, a) && v.docs == w.docs)
  }

  lemma StepFollows(w: World, l: Luck)
    requires w.crawler.Up? && Booked(w)
    ensures Follows(w, Advance(w, l))
  {
    if InRestore(w.crawler.pc) {
      assert Advance(w, l).docs == w.docs && Advance(w, l).attempts == w.attempts;
    }
  }

  lemma NextFollows(w: World, e: Event)
    requires Booked(w)
    ensures Follows(w, Next(w, e))
  {
    if e.Step? && w.crawler.Up? {
      StepFollows(w, e.luck);
    }
  }

  lemma MeansKept(w: World, v: World, d: Image)
    requires Follows(w, v) && Means(w, d)
    ensures Means(v, d)
  {
  }

  /** The facts on which batch k goes have the first k batches, if the data says so. */
  lemma ProgressAt(w: World, k: nat)
    requires w.crawler.Up? && InRestore(w.crawler.pc) && Means(w, w.redis.data) && w.redis.data.marker.Restoring?
    requires k == 0 || w.redis.data.content == Torn(w.crawler.attempt, k)
    ensures Progress(w.docs, w.redis.data.facts, k)
  {
    if k == 0 {
      ProgressStart(w.docs, w.redis.data.facts);
    }
  }

  /** One batch further on marked data, and at the last one the whole collection. */
  lemma NextProgress(w: World, k: nat, g: Facts)
    requires w.crawler.Up? && InRestore(w.crawler.pc) && Means(w, w.redis.data) && w.redis.data.marker.Restoring?
    requires k == 0 || w.redis.data.content == Torn(w.crawler.attempt, k)
    requires Progress(w.docs, w.redis.data.facts, k) ==> Progress(w.docs, g, k + 1)
    ensures Progress(w.docs, g, k + 1) && (k + 1 == Batches(w.docs) ==> FullRestore(w.docs, g))
  {
    ProgressAt(w, k);
    if k + 1 == Batches(w.docs) {
      LastProgress(w.docs, g, k + 1);
    }
  }

  /** Filled says of facts g what is true of them. */
  lemma FilledTruly(w: World, k: nat, n: nat, g: Facts, d: Image)
    requires w.crawler.Up? && w.crawler.attempt <= w.attempts
    requires d == w.redis.data.(content := Filled(w.redis.data, w.crawler.attempt, k, n), facts := g)
    requires d.marker.Restoring? ==> Within(w.docs, g) && Progress(w.docs, g, 0)
    requires d.marker.Restoring? && (k == 0 || w.redis.data.content == Torn(w.crawler.attempt, k)) ==>
               Progress(w.docs, g, k + 1) && (k + 1 == n ==> IsRestore(g))
    ensures Means(w, d)
  {
  }

  lemma FilledMeans(w: World, k: nat, now: int, d: Image)
    requires w.crawler.Up? && InRestore(w.crawler.pc) && Means(w, w.redis.data) && k < Batches(w.docs)
    requires d == w.redis.data.(content := Filled(w.redis.data, w.crawler.attempt, k, Batches(w.docs)),
                                facts := BatchLoaded(w.docs, k, now, w.redis.data.facts))
    requires w.crawler.attempt <= w.attempts
    ensures Means(w, d)
  {
    var r, g := w.redis.data, BatchLoaded(w.docs, k, now, w.redis.data.facts);
    if r.marker.Restoring? {
      LoadedWithin(w.docs, k, now, r.facts);
      ProgressStart(w.docs, g);
      if k == 0 || r.content == Torn(w.crawler.attempt, k) {
        BatchAdvances(w.docs, r.facts, k, now, g);
        NextProgress(w, k, g);
      }
    }
    FilledTruly(w, k, Batches(w.docs), g, d);
  }

  lemma PartMeans(w: World, k: nat, now: int, mask: seq<bool>, d: Image)
    requires w.crawler.Up? && Means(w, w.redis.data) && w.crawler.attempt <= w.attempts
    requires d == w.redis.data.(content := Torn(w.crawler.attempt, 0),
                                facts := BatchPart(w.docs, k, now, mask, w.redis.data.facts))
    ensures Means(w, d)
  {
    if d.marker.Restoring? {
      PartWithin(w.docs, k, now, mask, w.redis.data.facts);
      ProgressStart(w.docs, d.facts);
    }
  }

  /** What a write of a restore makes of the data. */
  lemma WriteMeans(w: World, e: Event)
    requires e.Step? && w.crawler.Up? && (w.crawler.pc.Mark? || w.crawler.pc.Write?)
    requires Booked(w) && Means(w, w.redis.data) && Clean(w, e)
    ensures Means(w, Next(w, e).redis.data)
  {
    var c, l, d := w.crawler, e.luck, Next(w, e).redis.data;
    if c.pc.Mark? {
      NothingIsWhole();
    } else if c.pc.batch < c.pc.batches {
      if l.fail && l.applied {
        PartMeans(w, c.pc.batch, l.now, l.mask, d);
      } else if !l.fail {
        FilledMeans(w, c.pc.batch, l.now, d);
      }
    }
  }

  /** Where the data and the snapshots come from. */
  lemma NextImages(w: World, e: Event)
    ensures Next(w, e).images <= w.images + {w.redis.data}
    ensures || Next(w, e).redis.data in w.images + {w.redis.data}
            || (e.Work? && w.crawler.Up? && w.crawler.complete)
            || (e.Step? && w.crawler.Up? && (w.crawler.pc.Mark? || w.crawler.pc.Write?))
  {
  }

  lemma WorkMeans(w: World, e: Event)
    requires e.Work? && w.crawler.Up? && w.crawler.complete && Means(w, w.redis.data) && Clean(w, e)
    ensures Means(w, Next(w, e).redis.data)
  {
  }

  lemma DataMeans(w: World, e: Event, v: World)
    requires Meant(w) && Clean(w, e) && v == Next(w, e) && Follows(w, v)
    ensures Means(v, v.redis.data)
  {
    NextImages(w, e);
    if v.redis.data !in w.images + {w.redis.data} {
      if e.Work? {
        WorkMeans(w, e);
      } else {
        WriteMeans(w, e);
      }
    }
    MeansKept(w, v, v.redis.data);
  }

  lemma NoEntries(f: Facts)
    requires |f.next| == 0 && |f.barren| == 0 && |f.dead| == 0
    ensures f == NO_FACTS
  {
    assert f.next == map[] && f.barren == map[] && f.dead == map[];
  }

  lemma RestoreBooked(w: World, l: Luck)
    requires w.crawler.Up? && InRestore(w.crawler.pc) && !w.crawler.pc.Mark? && !w.crawler.pc.Write?
    requires Known(w) && Booked(w)
    ensures Booked(RestoreStep(w, l))
  {
    var d := w.redis.data;
    LoadIsSafe(d.marker, CensusOf(d));
    if w.crawler.pc.Inspect? && Decide(d.marker, CensusOf(d)) == Load(false) {
      NoEntries(d.facts);
    }
  }

  lemma WriteBooked(w: World, l: Luck)
    requires w.crawler.Up? && (w.crawler.pc.Mark? || w.crawler.pc.Write?)
    requires OnTrack(w) && Booked(w) && Means(w, w.redis.data)
    ensures Booked(WriteStep(w, l))
  {
    var c, r := w.crawler, w.redis.data;
    if Same(w) && !l.fail && c.pc.Write? && c.pc.batch + 1 == c.pc.batches {
      var g := BatchLoaded(w.docs, c.pc.batch, l.now, r.facts);
      BatchAdvances(w.docs, r.facts, c.pc.batch, l.now, g);
      NextProgress(w, c.pc.batch, g);
    }
  }

  lemma CheckpointBooked(w: World, l: Luck)
    requires w.crawler.Up? && !InRestore(w.crawler.pc) && Booked(w)
    ensures Booked(CheckpointStep(w, l))
  {
  }

  lemma NextBooked(w: World, e: Event)
    requires Known(w) && OnTrack(w) && Booked(w) && Means(w, w.redis.data)
    ensures Booked(Next(w, e))
  {
    if e.Step? && w.crawler.Up? {
      if w.crawler.pc.Mark? || w.crawler.pc.Write? {
        WriteBooked(w, e.luck);
      } else if InRestore(w.crawler.pc) {
        RestoreBooked(w, e.luck);
      } else {
        CheckpointBooked(w, e.luck);
      }
    }
  }

  lemma NextMeant(w: World, e: Event)
    requires Known(w) && OnTrack(w) && Meant(w) && Clean(w, e)
    ensures Meant(Next(w, e))
  {
    var v := Next(w, e);
    NextBooked(w, e);
    NextFollows(w, e);
    DataMeans(w, e, v);
    NextImages(w, e);
    forall d | d in v.images
      ensures Means(v, d)
    {
      MeansKept(w, v, d);
    }
  }

  // ---- whole runs ----

  predicate AllClean(w: World, es: seq<Event>)
    decreases |es|
  {
    es == [] || (Clean(w, es[0]) && AllClean(Next(w, es[0]), es[1..]))
  }

  lemma StartMeant(docs: Docs)
    ensures Meant(Start(docs)) && OnTrack(Start(docs)) && Informed(Start(docs))
  {
  }

  /** Over every run, crashes and restarts from any snapshot included, in which only restores touch marked data:
      marked data that counts as intact is a complete restore of a collection into an empty keyspace. */
  lemma {:induction false} IntactIsRestored(w: World, es: seq<Event>)
    requires Informed(w) && OnTrack(w) && Meant(w) && AllClean(w, es)
    ensures Informed(After(w, es)) && OnTrack(After(w, es)) && Meant(After(w, es))
    decreases |es|
  {
    if es != [] {
      NextInformed(w, es[0]);
      NextTrack(w, es[0]);
      NextMeant(w, es[0]);
      IntactIsRestored(Next(w, es[0]), es[1..]);
    }
  }

  /** What the complete marker goes onto, in the recorded process: exactly the collection, restored into an empty
      keyspace. In another process, if the write is safe and finds the restoring marker: some collection. */
  lemma CompleteIsWhole(w: World)
    requires OnTrack(w) && Meant(w) && w.crawler.Up? && w.crawler.pc.Write?
    requires w.crawler.pc.batch == w.crawler.pc.batches > 0
    ensures Same(w) ==> FullRestore(w.docs, w.redis.data.facts)
    ensures w.redis.data.marker.Restoring? && Safe(w) ==> IsRestore(w.redis.data.facts)
  {
  }
}
