/** Checkpoint rows and cold restore, as functions on the per-URL facts of the frontier. */
module CrawlState {
  import opened Keyspace
  import opened Scripts
  import Codec

  const BATCH_SIZE: nat := 100

  /** The three URL-keyed structures a checkpoint covers. */
  datatype Facts = Facts(next: map<Url, int>, barren: map<Url, nat>, dead: map<Url, Dead>)

  const NO_FACTS: Facts := Facts(map[], map[], map[])

  function FactsOf(s: State): Facts {
    Facts(s.next, s.barren, s.dead)
  }

  function Urls(f: Facts): set<Url> {
    f.next.Keys + f.barren.Keys + f.dead.Keys
  }

  /** A document of crawler_state_v1 (schema 1). */
  datatype Row = Row(url: Url, next: Option<int>, barren: int, dead: Option<Dead>)

  function Lookup<V>(m: map<Url, V>, u: Url): Option<V> {
    if u in m then Some(m[u]) else None
  }

  /** The tuple a checkpoint reads for one URL. */
  function ReadRow(f: Facts, u: Url): Row {
    Row(u, Lookup(f.next, u), Get(f.barren, u), Lookup(f.dead, u))
  }

  /** The part of `validate` that does not depend on net/url. */
  predicate CleanUrl(u: Url) {
    '|' !in u && '\r' !in u && '\n' !in u && '\t' !in u && ' ' !in u
  }

  predicate ValidRow(parses: Url -> bool, r: Row) {
    && parses(r.url) && CleanUrl(r.url)
    && r.barren >= 0
    && (r.next.Some? ==> 0 <= r.next.value <= PENDING_SCORE)
    && (r.dead.Some? ==> ValidReason(r.dead.value.reason) && 0 <= r.dead.value.until < PENDING_SCORE)
  }

  // ---- how a checkpoint reads a tuple ----

  /** The replies to ZSCORE, HGET listing:barren and HGET dead. */
  datatype RawTuple = RawTuple(next: Option<int>, barren: Option<string>, dead: Option<string>)

  function RawOf(f: Facts, u: Url): RawTuple {
    RawTuple(Lookup(f.next, u),
             if u in f.barren then Some(Codec.Digits(f.barren[u])) else None,
             if u in f.dead then Some(Codec.EncodeDead(f.dead[u])) else None)
  }

  /** A counter; counters are taken to fit in 64 bits. */
  function ParseCount(s: string): Option<nat> {
    if s != "" && Codec.AllDigits(s) then Some(Codec.ValueOf(s)) else None
  }

  /** The row a tuple stands for, unless a score, a counter or a dead entry is malformed. */
  function ParseTuple(u: Url, raw: RawTuple): Option<Row> {
    if raw.next.Some? && !(0 <= raw.next.value <= PENDING_SCORE) then None
    else
      var barren := if raw.barren.None? then Some(0) else ParseCount(raw.barren.value);
      var dead := if raw.dead.None? then None else Codec.DecodeDead(raw.dead.value);
      if barren.None? || (raw.dead.Some? && dead.None?) then None
      else Some(Row(u, raw.next, barren.value, dead))
  }

  /** Parsing and validating what Redis holds accepts exactly the valid tuples, and reads them back exactly. */
  lemma TupleReadBack(parses: Url -> bool, f: Facts, u: Url)
    ensures var parsed := ParseTuple(u, RawOf(f, u));
            var row := ReadRow(f, u);
            && (ValidRow(parses, row) ==> parsed == Some(row))
            && (parsed.Some? && ValidRow(parses, parsed.value) ==> ValidRow(parses, row))
  {
    if u in f.barren {
      Codec.ValueOfDigits(f.barren[u]);
    }
    if u in f.dead {
      Codec.DeadRoundTrip(f.dead[u]);
    }
  }

  /** A tuple is accepted exactly if the URL parses and has no separator, line break, tab or blank, its due time is at
      most PENDING, and its dead entry has a reason that fits on its line and an end before PENDING. */
  lemma TupleAccepted(parses: Url -> bool, f: Facts, u: Url)
    ensures var parsed := ParseTuple(u, RawOf(f, u));
            parsed.Some? && ValidRow(parses, parsed.value) <==>
              && parses(u) && (forall c :: c in u ==> c !in "|\r\n\t ")
              && (u in f.next ==> 0 <= f.next[u] <= 253402300799)
              && (u in f.dead ==> && f.dead[u].reason != "" && (forall c :: c in f.dead[u].reason ==> c !in "|\r\n")
                                  && 0 <= f.dead[u].until < 253402300799)
  {
    TupleReadBack(parses, f, u);
    assert forall c :: c in "|\r\n\t " <==> c == '|' || c == '\r' || c == '\n' || c == '\t' || c == ' ';
    assert forall c :: c in "|\r\n" <==> c == '|' || c == '\r' || c == '\n';
    if u in f.dead {
      assert '|' in "|\r\n" && '\r' in "|\r\n" && '\n' in "|\r\n";
    }
  }

  // ---- what a restore writes ----

  datatype Command =
    | ZAddNext(url: Url, at: int)
    | ZRemNext(url: Url)
    | HSetBarren(url: Url, n: nat)
    | HDelBarren(url: Url)
    | HSetDead(url: Url, entry: Dead)
    | HDelDead(url: Url)

  function Perform(f: Facts, c: Command): Facts {
    match c
    case ZAddNext(u, at) => f.(next := f.next[u := at])
    case ZRemNext(u) => f.(next := f.next - {u})
    case HSetBarren(u, n) => f.(barren := f.barren[u := n])
    case HDelBarren(u) => f.(barren := f.barren - {u})
    case HSetDead(u, d) => f.(dead := f.dead[u := d])
    case HDelDead(u) => f.(dead := f.dead - {u})
  }

  /** PENDING becomes due now; a permanent death drops the schedule; a running quarantine pushes it back. */
  function RestoredNext(r: Row, now: int): Option<int> {
    var next := if r.next == Some(PENDING_SCORE) then Some(0) else r.next;
    match r.dead
    case None => next
    case Some(d) =>
      if d.until == 0 then None
      else if d.until <= now then next
      else if next.Some? && next.value < d.until then Some(d.until)
      else next
  }

  function RestoredDead(r: Row, now: int): Option<Dead> {
    if r.dead.Some? && r.dead.value.until != 0 && r.dead.value.until <= now then None else r.dead
  }

  function RestoredBarren(r: Row, now: int): Option<nat>
    requires r.barren >= 0
  {
    if RestoredNext(r, now).None? && RestoredDead(r, now).None? && r.barren == 0 then None else Some(r.barren)
  }

  function RowCommands(r: Row, now: int): seq<Command>
    requires r.barren >= 0
  {
    [match RestoredNext(r, now) case None => ZRemNext(r.url) case Some(at) => ZAddNext(r.url, at),
     match RestoredBarren(r, now) case None => HDelBarren(r.url) case Some(n) => HSetBarren(r.url, n),
     match RestoredDead(r, now) case None => HDelDead(r.url) case Some(d) => HSetDead(r.url, d)]
  }

  predicate AllCounted(rows: seq<Row>) {
    forall r :: r in rows ==> r.barren >= 0
  }

  /** The pipelined commands for rows in cursor order, row i under clock reading nows[i]. */
  function Commands(rows: seq<Row>, nows: seq<int>): seq<Command>
    requires |rows| == |nows| && AllCounted(rows)
  {
    if rows == [] then [] else RowCommands(rows[0], nows[0]) + Commands(rows[1..], nows[1..])
  }

  function PerformAll(f: Facts, cs: seq<Command>): Facts
    decreases |cs|
  {
    if cs == [] then f else PerformAll(Perform(f, cs[0]), cs[1..])
  }

  /** An aborted attempt: of the commands, exactly those that mask marks took effect. Redis runs later
      commands of a transaction even when an earlier one fails, so any subset is possible. */
  function PerformSome(f: Facts, cs: seq<Command>, mask: seq<bool>): Facts
    decreases |cs|
  {
    if cs == [] || mask == [] then f
    else PerformSome(if mask[0] then Perform(f, cs[0]) else f, cs[1..], mask[1..])
  }

  function RestoreAll(f: Facts, rows: seq<Row>, nows: seq<int>): Facts
    requires |rows| == |nows| && AllCounted(rows)
  {
    PerformAll(f, Commands(rows, nows))
  }

  // ---- one URL at a time ----

  datatype Entry = Entry(next: Option<int>, barren: Option<nat>, dead: Option<Dead>)

  function At(f: Facts, u: Url): Entry {
    Entry(Lookup(f.next, u), Lookup(f.barren, u), Lookup(f.dead, u))
  }

  function Target(r: Row, now: int): Entry
    requires r.barren >= 0
  {
    Entry(RestoredNext(r, now), RestoredBarren(r, now), RestoredDead(r, now))
  }

  lemma SameMap<V>(m: map<Url, V>, n: map<Url, V>)
    requires forall u :: Lookup(m, u) == Lookup(n, u)
    ensures m == n
  {
    forall u
      ensures u in m <==> u in n
      ensures u in m ==> m[u] == n[u]
    {
      assert Lookup(m, u) == Lookup(n, u);
    }
  }

  lemma SameEverywhere(f: Facts, g: Facts)
    requires forall u :: At(f, u) == At(g, u)
    ensures f == g
  {
    forall u
      ensures Lookup(f.next, u) == Lookup(g.next, u)
      ensures Lookup(f.barren, u) == Lookup(g.barren, u)
      ensures Lookup(f.dead, u) == Lookup(g.dead, u)
    {
      assert At(f, u) == At(g, u);
    }
    SameMap(f.next, g.next);
    SameMap(f.barren, g.barren);
    SameMap(f.dead, g.dead);
  }

  lemma PerformElsewhere(f: Facts, c: Command, u: Url)
    requires c.url != u
    ensures At(Perform(f, c), u) == At(f, u)
  {
  }

  lemma {:induction false} SomeElsewhere(f: Facts, cs: seq<Command>, mask: seq<bool>, u: Url)
    requires forall c :: c in cs ==> c.url != u
    ensures At(PerformSome(f, cs, mask), u) == At(f, u)
    decreases |cs|
  {
    if cs != [] && mask != [] {
      assert cs[0] in cs;
      PerformElsewhere(f, cs[0], u);
      SomeElsewhere(if mask[0] then Perform(f, cs[0]) else f, cs[1..], mask[1..], u);
    }
  }

  lemma {:induction false} AllElsewhere(f: Facts, cs: seq<Command>, u: Url)
    requires forall c :: c in cs ==> c.url != u
    ensures At(PerformAll(f, cs), u) == At(f, u)
    decreases |cs|
  {
    if cs != [] {
      assert cs[0] in cs;
      PerformElsewhere(f, cs[0], u);
      AllElsewhere(Perform(f, cs[0]), cs[1..], u);
    }
  }

  lemma {:induction false} AllAppend(f: Facts, a: seq<Command>, b: seq<Command>)
    ensures PerformAll(f, a + b) == PerformAll(PerformAll(f, a), b)
    decreases |a|
  {
    if a == [] {
      assert a + b == b;
    } else {
      assert (a + b)[1..] == a[1..] + b;
      AllAppend(Perform(f, a[0]), a[1..], b);
    }
  }

  lemma RowRestored(f: Facts, r: Row, now: int)
    requires r.barren >= 0
    ensures At(PerformAll(f, RowCommands(r, now)), r.url) == Target(r, now)
  {
    var cs := RowCommands(r, now);
    var f1 := Perform(f, cs[0]);
    var f2 := Perform(f1, cs[1]);
    var f3 := Perform(f2, cs[2]);
    assert PerformAll(f, cs) == PerformAll(f1, cs[1..]);
    assert PerformAll(f1, cs[1..]) == PerformAll(f2, cs[1..][1..]);
    assert cs[1..][1..] == [cs[2]];
    assert PerformAll(f2, [cs[2]]) == PerformAll(f3, []);
  }

  predicate DistinctUrls(rows: seq<Row>) {
    forall a, b :: 0 <= a < b < |rows| ==> rows[a].url != rows[b].url
  }

  lemma {:induction false} CommandUrls(rows: seq<Row>, nows: seq<int>, u: Url)
    requires |rows| == |nows| && AllCounted(rows) && (forall r :: r in rows ==> r.url != u)
    ensures forall c :: c in Commands(rows, nows) ==> c.url != u
  {
    if rows != [] {
      CommandUrls(rows[1..], nows[1..], u);
      assert rows[0] in rows;
    }
  }

  /** A URL without a row keeps whatever it had. */
  lemma RestoreElsewhere(f: Facts, rows: seq<Row>, nows: seq<int>, u: Url)
    requires |rows| == |nows| && AllCounted(rows) && (forall r :: r in rows ==> r.url != u)
    ensures At(RestoreAll(f, rows, nows), u) == At(f, u)
  {
    CommandUrls(rows, nows, u);
    AllElsewhere(f, Commands(rows, nows), u);
  }

  /** A URL with a row ends as that row says, whatever it had before. */
  lemma {:induction false} RestoreAt(f: Facts, rows: seq<Row>, nows: seq<int>, i: nat)
    requires |rows| == |nows| && AllCounted(rows) && DistinctUrls(rows) && i < |rows|
    ensures At(RestoreAll(f, rows, nows), rows[i].url) == Target(rows[i], nows[i])
    decreases |rows|
  {
    var first := RowCommands(rows[0], nows[0]);
    AllAppend(f, first, Commands(rows[1..], nows[1..]));
    var g := PerformAll(f, first);
    if i == 0 {
      RowRestored(f, rows[0], nows[0]);
      forall r | r in rows[1..]
        ensures r.url != rows[0].url
      {
      }
      RestoreElsewhere(g, rows[1..], nows[1..], rows[0].url);
    } else {
      RestoreAt(g, rows[1..], nows[1..], i - 1);
    }
  }

  /** In the structures themselves: an expired quarantine is dropped and any other dead entry kept; one for good takes
      the URL off the schedule; otherwise the due time is the row's, 0 for PENDING, but not before a quarantine ends;
      the barren count is kept, but a zero is stored only beside another entry. */
  lemma RestoredLaw(f: Facts, rows: seq<Row>, nows: seq<int>, i: nat, g: Facts)
    requires |rows| == |nows| && AllCounted(rows) && DistinctUrls(rows) && i < |rows|
    requires g == RestoreAll(f, rows, nows)
    ensures var r, now, u := rows[i], nows[i], rows[i].url;
            var forever := r.dead.Some? && r.dead.value.until == 0;
            var running := r.dead.Some? && r.dead.value.until > now && !forever;
            && (u in g.dead <==> forever || running) && (u in g.dead ==> g.dead[u] == r.dead.value)
            && (u in g.next <==> r.next.Some? && !forever)
            && (u in g.next ==>
                  var due := if r.next.value == 253402300799 then 0 else r.next.value;
                  g.next[u] == if running && due < r.dead.value.until then r.dead.value.until else due)
            && (u in g.barren <==> u in g.next || u in g.dead || r.barren > 0)
            && (u in g.barren ==> g.barren[u] == r.barren)
  {
    RestoreAt(f, rows, nows, i);
    var e := At(g, rows[i].url);
    assert rows[i].url in g.next ==> e.next == Some(g.next[rows[i].url]);
    assert rows[i].url in g.dead ==> e.dead == Some(g.dead[rows[i].url]);
    assert rows[i].url in g.barren ==> e.barren == Some(g.barren[rows[i].url]);
  }

  // ---- crash and resume ----

  /** One interrupted attempt: the clock readings for the rows it got to, and the commands that took effect. */
  datatype Attempt = Attempt(nows: seq<int>, mask: seq<bool>)

  /** The facts after a series of interrupted attempts. */
  function Interrupted(f: Facts, rows: seq<Row>, attempts: seq<Attempt>): Facts
    requires AllCounted(rows) && forall a :: a in attempts ==> |a.nows| <= |rows|
    decreases |attempts|
  {
    if attempts == [] then f
    else
      var a := attempts[0];
      Interrupted(PerformSome(f, Commands(rows[..|a.nows|], a.nows), a.mask), rows, attempts[1..])
  }

  lemma {:induction false} InterruptedElsewhere(f: Facts, rows: seq<Row>, attempts: seq<Attempt>, u: Url)
    requires AllCounted(rows) && forall a :: a in attempts ==> |a.nows| <= |rows|
    requires forall r :: r in rows ==> r.url != u
    ensures At(Interrupted(f, rows, attempts), u) == At(f, u)
    decreases |attempts|
  {
    if attempts != [] {
      var a := attempts[0];
      var cs := Commands(rows[..|a.nows|], a.nows);
      CommandUrls(rows[..|a.nows|], a.nows, u);
      SomeElsewhere(f, cs, a.mask, u);
      InterruptedElsewhere(PerformSome(f, cs, a.mask), rows, attempts[1..], u);
    }
  }

  /** However many attempts were cut short, at whatever commands and clocks, the attempt that completes
      leaves exactly what one uninterrupted restore with its clocks would have left. */
  lemma CrashResume(f: Facts, rows: seq<Row>, attempts: seq<Attempt>, nows: seq<int>)
    requires AllCounted(rows) && DistinctUrls(rows) && |nows| == |rows|
    requires forall a :: a in attempts ==> |a.nows| <= |rows|
    ensures RestoreAll(Interrupted(f, rows, attempts), rows, nows) == RestoreAll(f, rows, nows)
  {
    var g := Interrupted(f, rows, attempts);
    forall u
      ensures At(RestoreAll(g, rows, nows), u) == At(RestoreAll(f, rows, nows), u)
    {
      if i: nat :| i < |rows| && rows[i].url == u {
        RestoreAt(g, rows, nows, i);
        RestoreAt(f, rows, nows, i);
      } else {
        RestoreElsewhere(g, rows, nows, u);
        RestoreElsewhere(f, rows, nows, u);
        InterruptedElsewhere(f, rows, attempts, u);
      }
    }
    SameEverywhere(RestoreAll(g, rows, nows), RestoreAll(f, rows, nows));
  }
}
