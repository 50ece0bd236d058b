/** A checkpoint followed by a cold restore gives back the frontier's per-URL facts, up to a stated
    normalisation, and the restored frontier satisfies the exact invariant again. */
module RoundTrip {
  import opened Keyspace
  import opened Scripts
  import opened Discipline
  import opened Exactness
  import opened CrawlState
  import opened Documents
  import opened Store

  /** rows are the tuples of exactly the URLs the facts mention, each once, in some order. */
  ghost predicate IsSnapshot(f: Facts, rows: seq<Row>) {
    && DistinctUrls(rows)
    && (forall r :: r in rows ==> r == ReadRow(f, r.url))
    && (forall u :: u in Urls(f) <==> exists i :: 0 <= i < |rows| && rows[i].url == u)
  }

  /** A frontier rebuilt from facts: no work, no failure counters, a reset job counter. The Bloom
      filter is rebuilt from elsewhere and may hold anything. */
  function ColdState(f: Facts, claimed: set<Url>): State {
    EMPTY.(next := f.next, barren := f.barren, dead := f.dead, claimed := claimed)
  }

  /** The record a checkpoint reads for a URL of a reachable frontier is valid exactly when the URL is. */
  lemma ReadRowValid(cfg: Config, s: State, parses: Url -> bool, u: Url)
    requires Classed(cfg, s)
    ensures ValidRow(parses, ReadRow(FactsOf(s), u)) <==> parses(u) && CleanUrl(u)
  {
  }

  // ---- what comes back for one URL ----

  function Normalised(next: Option<int>): Option<int> {
    if next == Some(PENDING_SCORE) then Some(0) else next
  }

  function Unexpired(dead: Option<Dead>, now: int): Option<Dead> {
    if dead.Some? && dead.value.until != 0 && dead.value.until <= now then None else dead
  }

  lemma PendingNotDead(cfg: Config, s: State, u: Url)
    requires Exact(cfg, s)
    ensures !(Pending(s, u) && u in s.dead)
  {
  }

  /** On an exact state a running quarantine never moves the due time, and no PENDING listing is dead. */
  lemma ExactTarget(cfg: Config, s: State, u: Url, now: int)
    requires Exact(cfg, s)
    ensures var e := Target(ReadRow(FactsOf(s), u), now);
            && e.next == Normalised(Lookup(s.next, u))
            && e.dead == Unexpired(Lookup(s.dead, u), now)
            && (if e.barren.Some? then e.barren.value else 0) == Get(s.barren, u)
  {
    PendingNotDead(cfg, s, u);
  }

  /** rows[i] is restored under clock nows[i]; the clock of a URL without a row does not matter. */
  ghost predicate IsCold(s: State, rows: seq<Row>, nows: seq<int>, claimed: set<Url>, t: State) {
    && IsSnapshot(FactsOf(s), rows) && |nows| == |rows|
    && t == ColdState(RestoreAll(NO_FACTS, rows, nows), claimed)
  }

  lemma ColdAt(cfg: Config, s: State, rows: seq<Row>, nows: seq<int>, claimed: set<Url>, t: State, i: nat)
    requires Exact(cfg, s) && IsCold(s, rows, nows, claimed, t) && i < |rows|
    ensures var u := rows[i].url;
            && Lookup(t.next, u) == Normalised(Lookup(s.next, u))
            && Lookup(t.dead, u) == Unexpired(Lookup(s.dead, u), nows[i])
            && Get(t.barren, u) == Get(s.barren, u)
  {
    RestoreAt(NO_FACTS, rows, nows, i);
    assert rows[i] in rows;
    ExactTarget(cfg, s, rows[i].url, nows[i]);
  }

  lemma ColdElsewhere(cfg: Config, s: State, rows: seq<Row>, nows: seq<int>, claimed: set<Url>, t: State, u: Url)
    requires IsCold(s, rows, nows, claimed, t) && u !in Urls(FactsOf(s))
    ensures u !in t.next && u !in t.dead && u !in t.barren
    ensures u !in s.next && u !in s.dead && u !in s.barren
  {
    RestoreElsewhere(NO_FACTS, rows, nows, u);
    assert At(RestoreAll(NO_FACTS, rows, nows), u) == At(NO_FACTS, u);
  }

  /** Every schedule survives, except that PENDING becomes due now; every barren count survives; a dead
      entry survives unless its quarantine had ended when its row was restored. */
  lemma RoundTripFacts(cfg: Config, s: State, rows: seq<Row>, nows: seq<int>, claimed: set<Url>, t: State, u: Url)
    requires Exact(cfg, s) && IsCold(s, rows, nows, claimed, t)
    ensures Lookup(t.next, u) == Normalised(Lookup(s.next, u))
    ensures Get(t.barren, u) == Get(s.barren, u)
    ensures u !in s.dead ==> u !in t.dead
    ensures u in s.dead ==> exists i :: 0 <= i < |rows| && rows[i].url == u
                                        && Lookup(t.dead, u) == Unexpired(Some(s.dead[u]), nows[i])
  {
    if u in Urls(FactsOf(s)) {
      var i :| 0 <= i < |rows| && rows[i].url == u;
      ColdAt(cfg, s, rows, nows, claimed, t, i);
    } else {
      ColdElsewhere(cfg, s, rows, nows, claimed, t, u);
    }
  }

  /** What the invariant asks of one URL of a frontier without work. */
  predicate ColdOk(cfg: Config, t: State, u: Url) {
    && (u in t.next ==> !cfg.IsVideo(u) && 0 <= t.next[u] < PENDING_SCORE)
    && (u in t.dead ==> DeadOk(cfg, u, t.dead[u]))
    && (u in t.dead && !cfg.IsVideo(u) ==> u in t.next && t.dead[u].until <= t.next[u])
    && (u in t.barren && cfg.IsVideo(u) ==> t.barren[u] == 0)
  }

  lemma NormalisedOk(cfg: Config, s: State, t: State, u: Url)
    requires Exact(cfg, s)
    requires Lookup(t.next, u) == Normalised(Lookup(s.next, u)) && Get(t.barren, u) == Get(s.barren, u)
    requires u in t.dead ==> u in s.dead && t.dead[u] == s.dead[u]
    ensures ColdOk(cfg, t, u)
  {
    PendingNotDead(cfg, s, u);
  }

  lemma ColdExact(cfg: Config, f: Facts, claimed: set<Url>)
    requires cfg.Valid() && forall u :: ColdOk(cfg, ColdState(f, claimed), u)
    ensures Exact(cfg, ColdState(f, claimed))
  {
    var t := ColdState(f, claimed);
    forall u
      ensures !Pending(t, u)
      ensures u in t.next ==> !cfg.IsVideo(u) && 0 <= t.next[u] <= PENDING_SCORE
      ensures u in t.dead ==> DeadOk(cfg, u, t.dead[u])
      ensures u in t.dead && !cfg.IsVideo(u) ==> u in t.next && t.dead[u].until <= t.next[u]
      ensures u in t.barren && cfg.IsVideo(u) ==> t.barren[u] == 0
    {
      assert ColdOk(cfg, t, u);
    }
  }

  /** The restored frontier is a state from which all the theorems about runs apply, and no listing in it is
      PENDING, so one that had been stranded is due again. */
  lemma RoundTripExact(cfg: Config, s: State, rows: seq<Row>, nows: seq<int>, claimed: set<Url>, t: State)
    requires cfg.Valid() && Exact(cfg, s) && IsCold(s, rows, nows, claimed, t)
    ensures Exact(cfg, t) && forall u :: !Pending(t, u)
  {
    forall u
      ensures ColdOk(cfg, t, u) && !Pending(t, u)
    {
      RoundTripFacts(cfg, s, rows, nows, claimed, t, u);
      NormalisedOk(cfg, s, t, u);
    }
    ColdExact(cfg, RestoreAll(NO_FACTS, rows, nows), claimed);
  }

  /** A listing answers an admission after the restore as it would have before, at any clock from the
      restore on, exactly when it was not PENDING. */
  lemma RoundTripAnswers(cfg: Config, s: State, rows: seq<Row>, nows: seq<int>, claimed: set<Url>, t: State,
                         u: Url, now: int)
    requires cfg.Valid() && Exact(cfg, s) && IsCold(s, rows, nows, claimed, t)
    requires 0 <= now < PENDING_SCORE && forall x :: x in nows ==> x <= now
    ensures Answer(cfg, t, AdmitListing(u, now)) == Answer(cfg, s, AdmitListing(u, now)) <==> !Pending(s, u)
  {
    RoundTripFacts(cfg, s, rows, nows, claimed, t, u);
    PendingNotDead(cfg, s, u);
  }

  // ---- through the store ----

  /** An attempt that is cut short changes nothing that the next completed one does not overwrite. */
  lemma PartialForgotten(table: Table, f: Facts, g: Facts, rows: seq<Row>, nows: seq<int>)
    requires Decodes(table, rows) && |rows| == |table| == |nows| && DistinctUrls(rows) && Partial(table, f, g)
    ensures RestoreAll(g, rows, nows) == RestoreAll(f, rows, nows)
  {
    var part, a :| Decodes(table, part) && CutShort(f, part, a, g);
    forall k | 0 <= k < |part|
      ensures part[k] == rows[k]
    {
      assert table[k] == Some(part[k]) && table[k] == Some(rows[k]);
    }
    assert part == rows[..|a.nows|];
    assert Interrupted(f, rows, [a]) == Interrupted(g, rows, [a][1..]);
    CrashResume(f, rows, [a], nows);
  }

  /** Any number of failed restores of the same collection, then one that completes: the outcome is that of
      the completed one alone, on what was there at first and with its own clock readings. */
  lemma {:induction false} ResumeEquivalence(table: Table, gs: seq<Facts>, rows: seq<Row>, nows: seq<int>, g: Facts)
    requires Decodes(table, rows) && |rows| == |table| == |nows| && DistinctUrls(rows)
    requires gs != [] && Loaded(gs[|gs| - 1], rows, nows, g)
    requires forall i :: 0 <= i < |gs| - 1 ==> gs[i + 1] == gs[i] || Partial(table, gs[i], gs[i + 1])
    ensures Loaded(gs[0], rows, nows, g)
    decreases |gs|
  {
    if |gs| > 1 {
      var n := |gs| - 2;
      if gs[n + 1] != gs[n] {
        PartialForgotten(table, gs[n], gs[n + 1], rows, nows);
      }
      ResumeEquivalence(table, gs[..n + 1], rows, nows, g);
    }
  }

  lemma {:induction false} PagesAppend(a: seq<seq<string>>, b: seq<seq<string>>)
    ensures PagesUrls(a + b) == PagesUrls(a) + PagesUrls(b)
  {
    if a == [] {
      assert a + b == b;
    } else {
      assert (a + b)[1..] == a[1..] + b;
      PagesAppend(a[1..], b);
    }
  }

  /** Scans that return every member of the three structures cover every URL. */
  lemma FullScan(f: Facts, next: seq<seq<string>>, barren: seq<seq<string>>, dead: seq<seq<string>>)
    requires PagesUrls(next) == f.next.Keys && PagesUrls(barren) == f.barren.Keys && PagesUrls(dead) == f.dead.Keys
    ensures PagesUrls(next + barren + dead) == Urls(f)
  {
    PagesAppend(next, barren);
    PagesAppend(next + barren, dead);
  }

  /** cursor lists the documents of the collection by key, each once. */
  ghost predicate IsCursor(docs: map<Url, Document>, order: seq<Url>, cursor: seq<Document>) {
    && |cursor| == |order|
    && Distinct(order)
    && (forall u :: u in docs <==> u in order)
    && (forall k :: 0 <= k < |order| ==> order[k] in docs && cursor[k] == docs[order[k]])
  }

  lemma StoredRow(parses: Url -> bool, f: Facts, us: set<Url>, docs: map<Url, Document>, u: Url)
    requires All(us, Sound(parses, f)) && docs == Saved(map[], f, us)
    ensures u in docs <==> u in us
    ensures u in docs ==> DecodeRow(parses, docs[u]) == Some(ReadRow(f, u))
  {
    if u in us {
      assert Sound(parses, f)(u);
      RowReadBack(parses, ReadRow(f, u));
    }
  }

  lemma SnapshotOf(f: Facts, order: seq<Url>, rows: seq<Row>)
    requires Distinct(order) && |rows| == |order| && (forall u :: u in Urls(f) <==> u in order)
    requires forall k :: 0 <= k < |order| ==> rows[k] == ReadRow(f, order[k])
    ensures IsSnapshot(f, rows)
  {
    forall u | u in Urls(f)
      ensures exists i :: 0 <= i < |rows| && rows[i].url == u
    {
      assert u in order;
      var i :| 0 <= i < |order| && order[i] == u;
      assert rows[i].url == u;
    }
  }

  ghost predicate DecodesTo(parses: Url -> bool, docs: map<Url, Document>, f: Facts) {
    forall u :: u in docs ==> DecodeRow(parses, docs[u]) == Some(ReadRow(f, u))
  }

  /** A checkpoint of all the URLs, from an empty collection, decodes to a snapshot. */
  lemma CheckpointSnapshot(parses: Url -> bool, f: Facts, docs: map<Url, Document>, order: seq<Url>,
                           cursor: seq<Document>, table: Table) returns (rows: seq<Row>)
    requires All(Urls(f), Sound(parses, f)) && docs == Saved(map[], f, Urls(f))
    requires IsCursor(docs, order, cursor) && IsTable(parses, cursor, table)
    ensures IsSnapshot(f, rows) && |rows| == |table| && forall k :: 0 <= k < |rows| ==> table[k] == Some(rows[k])
  {
    forall u
      ensures u in docs <==> u in Urls(f)
      ensures u in docs ==> DecodeRow(parses, docs[u]) == Some(ReadRow(f, u))
    {
      StoredRow(parses, f, Urls(f), docs, u);
    }
    rows := DecodedRows(parses, f, docs, order, cursor, table);
    SnapshotOf(f, order, rows);
  }

  lemma DecodedRows(parses: Url -> bool, f: Facts, docs: map<Url, Document>, order: seq<Url>,
                    cursor: seq<Document>, table: Table) returns (rows: seq<Row>)
    requires DecodesTo(parses, docs, f) && IsCursor(docs, order, cursor) && IsTable(parses, cursor, table)
    ensures |rows| == |order| == |table| && forall k :: 0 <= k < |rows| ==> rows[k] == ReadRow(f, order[k])
    ensures forall k :: 0 <= k < |rows| ==> table[k] == Some(rows[k])
  {
    rows := seq(|order|, k requires 0 <= k < |order| => ReadRow(f, order[k]));
  }

  /** The whole trip: a quiescent checkpoint of a reachable frontier with valid URLs into an empty
      collection, then a completed restore into an empty Redis. */
  lemma CheckpointThenRestore(cfg: Config, parses: Url -> bool, s: State, docs: map<Url, Document>, order: seq<Url>,
                              cursor: seq<Document>, table: Table, g: Facts, claimed: set<Url>)
    returns (rows: seq<Row>, nows: seq<int>)
    requires cfg.Valid() && Exact(cfg, s) && forall u :: u in Urls(FactsOf(s)) ==> parses(u) && CleanUrl(u)
    requires docs == Saved(map[], FactsOf(s), Urls(FactsOf(s)))
    requires IsCursor(docs, order, cursor) && IsTable(parses, cursor, table)
    requires Whole(table, NO_FACTS, g)
    ensures IsCold(s, rows, nows, claimed, ColdState(g, claimed)) && Exact(cfg, ColdState(g, claimed))
  {
    var f := FactsOf(s);
    forall u | u in Urls(f)
      ensures Sound(parses, f)(u)
    {
      ReadRowValid(cfg, s, parses, u);
    }
    rows := CheckpointSnapshot(parses, f, docs, order, cursor, table);
    var found, ns :| Decodes(table, found) && |found| == |table| && Loaded(NO_FACTS, found, ns, g);
    forall k | 0 <= k < |rows|
      ensures rows[k] == found[k]
    {
      assert table[k] == Some(rows[k]) && table[k] == Some(found[k]);
    }
    assert rows == found;
    nows := ns;
    RoundTripExact(cfg, s, rows, nows, claimed, ColdState(g, claimed));
  }
}
