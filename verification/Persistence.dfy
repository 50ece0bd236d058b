/** Checkpoint and restore as a step machine: every I/O operation of NewCrawlStateStore, Restore and
    Checkpoint is one step, and between any two steps Redis may be snapshotted, may restart from any
    earlier snapshot, workers may run, and the crawler may crash. */
module Persistence {
  import opened CrawlState
  import opened Store

  /** The rows of crawler_state_v1 in _id order, each decodable. */
  type Docs = ds: seq<CrawlState.Row> | AllCounted(ds) && DistinctUrls(ds) witness []

  function UrlsIn(docs: seq<CrawlState.Row>): set<string> {
    set r | r in docs :: r.url
  }

  /** How many rows the first k batches hold. */
  function Upto(docs: Docs, k: nat): (n: nat)
    ensures n <= |docs|
  {
    if BATCH_SIZE * k <= |docs| then BATCH_SIZE * k else |docs|
  }

  function Batches(docs: Docs): nat {
    (|docs| + BATCH_SIZE - 1) / BATCH_SIZE
  }

  function Batch(docs: Docs, k: nat): (b: Docs) {
    docs[Upto(docs, k)..Upto(docs, k + 1)]
  }

  /** What a transaction with batch k makes of the facts, and what one that fails may make of them. */
  function BatchLoaded(docs: Docs, k: nat, now: int, f: Facts): Facts {
    RestoreAll(f, Batch(docs, k), Const(|Batch(docs, k)|, now))
  }

  function BatchPart(docs: Docs, k: nat, now: int, mask: seq<bool>, f: Facts): Facts {
    PerformSome(f, Commands(Batch(docs, k), Const(|Batch(docs, k)|, now)), mask)
  }

  /** Torn(a, k): restore attempt a has written its first k batches here, and not all of them. */
  datatype Content = Intact | Torn(attempt: nat, done: nat)

  /** What a Redis process persists: the marker, the size of queues, leases and retry counters, and the per-URL
      facts. content is not stored anywhere; it tells how the facts came about. */
  datatype Image = Image(marker: Marker, work: nat, facts: Facts, content: Content)

  const BLANK: Image := Image(Absent, 0, NO_FACTS, Intact)

  function CensusOf(d: Image): Census {
    Census(|d.facts.next|, |d.facts.barren|, |d.facts.dead|, d.work)
  }

  datatype Redis = Redis(run: nat, data: Image)

  /** What one tuple transaction of a checkpoint saw, and in which process. */
  datatype Read = Read(run: nat, data: Image)

  /** The next I/O operation of the store. In Guard, Look and Write, batch = batches is the final barrier. */
  datatype Pc =
    | Idle
    | Inspect
    | Open(resuming: bool, absent: bool)
    | Mark(absent: bool, batches: nat)
    | Guard(batch: nat, batches: nat)
    | Look(batch: nat, batches: nat)
    | Write(batch: nat, batches: nat)
    | Check(batch: nat, batches: nat)
    | Confirm
    | Scan
    | Fetch
    | Verify(read: Read)
    | Save(read: Read)

  /** run is redisRunID, recorded at construction; complete is startupComplete. */
  datatype Crawler = Down | Up(run: nat, complete: bool, attempt: nat, pc: Pc)

  /** Rows stored by a crawler that recorded process `run`. */
  datatype StoredRow = StoredRow(run: nat, read: Read)

  datatype World = World(redis: Redis, images: set<Image>, crawler: Crawler, attempts: nat, restored: set<nat>,
                         rows: seq<StoredRow>, docs: Docs)

  /** An empty Redis, and a collection left by some earlier installation. */
  function Start(docs: Docs): World {
    World(Redis(0, BLANK), {BLANK}, Down, 0, {}, [], docs)
  }

  /** What an operation meets: failure, and whether a failing write took effect all the same; at Idle, which
      method is called; at Scan, whether the scan has ended; in a batch, the clock and the commands that a failing
      transaction performs; at Save, the collection afterwards. */
  datatype Luck = Luck(fail: bool, applied: bool, checkpoint: bool, end: bool, now: int, mask: seq<bool>, docs: Docs)

  datatype Event =
    | Snapshot
    | Restart(image: Image)
    | Crash
    | Construct
    | Work(work: nat, facts: Facts)
    | Step(luck: Luck)

  function Goto(w: World, pc: Pc): World
    requires w.crawler.Up?
  {
    w.(crawler := w.crawler.(pc := pc))
  }

  /** checkIdentity passes. */
  predicate Same(w: World) {
    w.crawler.Up? && w.redis.run == w.crawler.run
  }

  /** checkIdentity, then pc. */
  function Identify(w: World, l: Luck, pc: Pc): World
    requires w.crawler.Up?
  {
    Goto(w, if Same(w) && !l.fail then pc else Idle)
  }

  function SetData(w: World, d: Image): World {
    w.(redis := w.redis.(data := d))
  }

  /** The content after attempt a has written batch k of n over d. */
  function Filled(d: Image, a: nat, k: nat, n: nat): Content {
    if !d.marker.Restoring? || (k > 0 && d.content != Torn(a, k)) then Torn(a, 0)
    else if k + 1 == n then Intact
    else Torn(a, k + 1)
  }

  /** The marker and batch writes of Restore. */
  function WriteStep(w: World, l: Luck): World
    requires w.crawler.Up? && (w.crawler.pc.Mark? || w.crawler.pc.Write?)
  {
    var c, d := w.crawler, w.redis.data;
    match c.pc
    case Mark(absent, n) =>
      if (absent && !d.marker.Absent?) || (l.fail && !l.applied) then Goto(w, Idle)
      else Goto(SetData(w, d.(marker := Restoring)), if l.fail then Idle else Guard(0, n))
    case Write(k, n) =>
      if l.fail && !l.applied then Goto(w, Idle)
      else if k == n then Goto(SetData(w, d.(marker := Complete)), if l.fail then Idle else Confirm)
      else if l.fail then
        var f := BatchPart(w.docs, k, l.now, l.mask, d.facts);
        Goto(SetData(w, d.(content := Torn(c.attempt, 0), facts := f)), Idle)
      else
        var f := BatchLoaded(w.docs, k, l.now, d.facts);
        Goto(SetData(w, d.(content := Filled(d, c.attempt, k, n), facts := f)), Check(k, n))
  }

  predicate InRestore(pc: Pc) {
    pc.Inspect? || pc.Open? || pc.Mark? || pc.Guard? || pc.Look? || pc.Write? || pc.Check? || pc.Confirm?
  }

  /** The other operations of Restore. */
  function RestoreStep(w: World, l: Luck): World
    requires w.crawler.Up? && InRestore(w.crawler.pc) && !w.crawler.pc.Mark? && !w.crawler.pc.Write?
  {
    var c, d := w.crawler, w.redis.data;
    match c.pc
    case Inspect =>
      if l.fail then Goto(w, Idle)
      else
        (match Decide(d.marker, CensusOf(d))
         case Refuse => Goto(w, Idle)
         case Preserve => Goto(w, Confirm)
         case Load(resuming) => Goto(w, Open(resuming, d.marker.Absent?)))
    case Open(resuming, absent) =>
      var n := Batches(w.docs);
      if l.fail || (n == 0 && resuming) then Goto(w, Idle)
      else if n == 0 then Goto(w, Confirm)
      else Identify(w, l, if resuming then Guard(0, n) else Mark(absent, n))
    case Guard(k, n) => Identify(w, l, Look(k, n))
    case Look(k, n) => Goto(w, if !l.fail && d.marker.Restoring? && d.work == 0 then Write(k, n) else Idle)
    case Check(k, n) => Identify(w, l, Guard(k + 1, n))
    case Confirm =>
      if Same(w) && !l.fail then w.(crawler := c.(complete := true, pc := Idle), restored := w.restored + {c.run})
      else Goto(w, Idle)
  }

  /** The calls of the two methods, and the operations of Checkpoint. */
  function CheckpointStep(w: World, l: Luck): World
    requires w.crawler.Up? && !InRestore(w.crawler.pc)
  {
    var c := w.crawler;
    match c.pc
    case Idle =>
      if l.checkpoint then if c.complete then Identify(w, l, Scan) else w
      else
        var a := w.attempts + 1;
        Identify(w.(attempts := a, crawler := c.(complete := false, attempt := a)), l, Inspect)
    case Scan => Identify(w, l, if l.end then Idle else Fetch)
    case Fetch => Goto(w, if l.fail then Idle else Verify(Read(w.redis.run, w.redis.data)))
    case Verify(read) => Identify(w, l, Save(read))
    case Save(read) =>
      var docs := if UrlsIn(w.docs) <= UrlsIn(l.docs) then l.docs else w.docs;
      Goto(if l.fail && !l.applied then w else w.(rows := w.rows + [StoredRow(c.run, read)], docs := docs),
           if l.fail then Idle else Scan)
  }

  function Advance(w: World, l: Luck): World
    requires w.crawler.Up?
  {
    if w.crawler.pc.Mark? || w.crawler.pc.Write? then WriteStep(w, l)
    else if InRestore(w.crawler.pc) then RestoreStep(w, l)
    else CheckpointStep(w, l)
  }

  /** An event that cannot happen leaves the world as it is. */
  function Next(w: World, e: Event): World {
    match e
    case Snapshot => w.(images := w.images + {w.redis.data})
    case Restart(image) => if image in w.images then w.(redis := Redis(w.redis.run + 1, image)) else w
    case Crash => w.(crawler := Down)
    case Construct => if w.crawler.Down? then w.(crawler := Up(w.redis.run, false, 0, Idle)) else w
    case Work(work, facts) =>
      if w.crawler.Up? && w.crawler.complete then SetData(w, w.redis.data.(work := work, facts := facts)) else w
    case Step(l) => if w.crawler.Up? then Advance(w, l) else w
  }

  function After(w: World, es: seq<Event>): World
    decreases |es|
  {
    if es == [] then w else After(Next(w, es[0]), es[1..])
  }

  // ---- every stored row comes from the process in which Restore succeeded ----

  predicate Unmarked(w: World) {
    !w.redis.data.marker.Restoring?
  }

  /** What the store knows of Redis, should the process still be the one it recorded. */
  predicate Known(w: World) {
    var c := w.crawler;
    c.Up? ==>
      && c.run <= w.redis.run
      && (InRestore(c.pc) ==> !c.complete)
      && ((c.pc.Scan? || c.pc.Fetch? || c.pc.Verify? || c.pc.Save?) ==> c.complete)
      && (c.complete ==> c.run in w.restored)
      && (Same(w) && (c.complete || c.pc.Confirm? || (c.pc.Open? && !c.pc.resuming)) ==> Unmarked(w))
  }

  /** What it knows of the tuples it has just read. */
  predicate ReadKnown(w: World) {
    var c := w.crawler;
    c.Up? ==>
      && (c.pc.Verify? ==> c.run <= c.pc.read.run <= w.redis.run)
      && (c.pc.Verify? && c.pc.read.run == c.run ==> !c.pc.read.data.marker.Restoring?)
      && (c.pc.Save? ==> c.pc.read.run == c.run && !c.pc.read.data.marker.Restoring?)
  }

  predicate Informed(w: World) {
    Known(w) && ReadKnown(w)
  }

  /** Read in the process the store recorded, in which Restore had succeeded, while not marked as restoring. */
  predicate Trusted(w: World, r: StoredRow) {
    r.read.run == r.run && r.run in w.restored && !r.read.data.marker.Restoring?
  }

  ghost predicate Sane(w: World) {
    Informed(w) && forall r :: r in w.rows ==> Trusted(w, r)
  }

  lemma WriteKnown(w: World, l: Luck)
    requires w.crawler.Up? && (w.crawler.pc.Mark? || w.crawler.pc.Write?) && Known(w)
    ensures Known(WriteStep(w, l)) && ReadKnown(WriteStep(w, l))
  {
  }

  lemma RestoreKnown(w: World, l: Luck)
    requires w.crawler.Up? && InRestore(w.crawler.pc) && !w.crawler.pc.Mark? && !w.crawler.pc.Write? && Known(w)
    ensures Known(RestoreStep(w, l)) && ReadKnown(RestoreStep(w, l))
  {
  }

  lemma CheckpointKnown(w: World, l: Luck)
    requires w.crawler.Up? && !InRestore(w.crawler.pc) && Informed(w)
    ensures Known(CheckpointStep(w, l)) && ReadKnown(CheckpointStep(w, l))
  {
  }

  lemma NextInformed(w: World, e: Event)
    requires Informed(w)
    ensures Informed(Next(w, e))
  {
    if e.Step? && w.crawler.Up? {
      if w.crawler.pc.Mark? || w.crawler.pc.Write? {
        WriteKnown(w, e.luck);
      } else if InRestore(w.crawler.pc) {
        RestoreKnown(w, e.luck);
      } else {
        CheckpointKnown(w, e.luck);
      }
    }
  }

  lemma NextSane(w: World, e: Event)
    requires Sane(w)
    ensures Sane(Next(w, e))
  {
    NextInformed(w, e);
  }

  /** Over every run: crashes, restarts from any snapshot and failures at any operation included. */
  lemma {:induction false} RowsAreTrusted(w: World, es: seq<Event>)
    requires Sane(w)
    ensures Sane(After(w, es))
    decreases |es|
  {
    if es != [] {
      NextSane(w, es[0]);
      RowsAreTrusted(Next(w, es[0]), es[1..]);
    }
  }

  lemma StartSane(docs: Docs)
    ensures Sane(Start(docs)) && Steady(Start(docs))
  {
  }

  // ---- half-restored data ----

  /** Half-restored data carries the marker. */
  predicate TornMarked(d: Image) {
    d.content.Torn? ==> d.marker.Restoring?
  }

  /** How far the attempt under way has got, should the process still be the one it began in. */
  predicate OnTrack(w: World) {
    var c, d := w.crawler, w.redis.data;
    Same(w) ==>
      && (c.pc.Guard? || c.pc.Look? || c.pc.Write? ==>
            && c.pc.batch <= c.pc.batches
            && (0 < c.pc.batch < c.pc.batches ==> d.content == Torn(c.attempt, c.pc.batch))
            && (0 < c.pc.batch == c.pc.batches ==> d.content.Intact?) && c.pc.batches > 0)
      && (c.pc.Write? ==> d.marker.Restoring?)
      && (c.pc.Check? ==> c.pc.batch < c.pc.batches
                          && d.content == if c.pc.batch + 1 == c.pc.batches then Intact
                                          else Torn(c.attempt, c.pc.batch + 1))
      && (c.pc.Mark? ==> c.pc.batches > 0)
  }

  predicate ReadMarked(c: Crawler) {
    c.Up? ==> (c.pc.Verify? || c.pc.Save? ==> TornMarked(c.pc.read.data))
  }

  ghost predicate Steady(w: World) {
    && Sane(w) && TornMarked(w.redis.data) && OnTrack(w) && ReadMarked(w.crawler)
    && (forall i :: i in w.images ==> TornMarked(i))
    && (forall r :: r in w.rows ==> r.read.data.content.Intact?)
  }

  // ---- which writes keep half-restored data marked ----

  /** A write of a restore that takes effect, whether or not its reply arrives. */
  predicate Writes(w: World, e: Event) {
    e.Step? && w.crawler.Up? && w.crawler.pc.Write? && !(e.luck.fail && !e.luck.applied)
  }

  /** A batch goes onto marked data, the complete marker onto whole data. */
  predicate Safe(w: World)
    requires w.crawler.Up? && w.crawler.pc.Write?
  {
    if w.crawler.pc.batch == w.crawler.pc.batches then w.redis.data.content.Intact? else w.redis.data.marker.Restoring?
  }

  predicate SafeEvent(w: World, e: Event) {
    Writes(w, e) ==> Safe(w)
  }

  predicate AllSafe(w: World, es: seq<Event>)
    decreases |es|
  {
    es == [] || (SafeEvent(w, es[0]) && AllSafe(Next(w, es[0]), es[1..]))
  }

  ghost predicate AlwaysSteady(w: World, es: seq<Event>)
    decreases |es|
  {
    Steady(w) && (es == [] || AlwaysSteady(Next(w, es[0]), es[1..]))
  }

  lemma WriteTrack(w: World, l: Luck)
    requires w.crawler.Up? && (w.crawler.pc.Mark? || w.crawler.pc.Write?) && OnTrack(w)
    ensures OnTrack(WriteStep(w, l))
  {
  }

  lemma RestoreTrack(w: World, l: Luck)
    requires w.crawler.Up? && InRestore(w.crawler.pc) && !w.crawler.pc.Mark? && !w.crawler.pc.Write? && OnTrack(w)
    ensures OnTrack(RestoreStep(w, l))
  {
  }

  lemma CheckpointTrack(w: World, l: Luck)
    requires w.crawler.Up? && !InRestore(w.crawler.pc)
    ensures OnTrack(CheckpointStep(w, l))
  {
  }

  /** Where an attempt has got to does not depend on stray writes: they leave another process's data. */
  lemma NextTrack(w: World, e: Event)
    requires Informed(w) && OnTrack(w)
    ensures OnTrack(Next(w, e))
  {
    if e.Step? && w.crawler.Up? {
      if w.crawler.pc.Mark? || w.crawler.pc.Write? {
        WriteTrack(w, e.luck);
      } else if InRestore(w.crawler.pc) {
        RestoreTrack(w, e.luck);
      } else {
        CheckpointTrack(w, e.luck);
      }
    }
  }

  lemma NextMarked(w: World, e: Event)
    requires TornMarked(w.redis.data) && forall i :: i in w.images ==> TornMarked(i)
    ensures TornMarked(Next(w, e).redis.data) <==> SafeEvent(w, e)
  {
  }

  lemma NextReads(w: World, e: Event)
    requires Sane(w) && TornMarked(w.redis.data) && ReadMarked(w.crawler)
    requires forall r :: r in w.rows ==> r.read.data.content.Intact?
    ensures ReadMarked(Next(w, e).crawler)
    ensures forall r :: r in Next(w, e).rows ==> r.read.data.content.Intact?
  {
  }

  /** One event keeps half-restored data marked, in Redis and in every snapshot, and out of the stored rows,
      exactly when it is not an unsafe write. */
  lemma NextSteadyIff(w: World, e: Event)
    requires Steady(w)
    ensures Steady(Next(w, e)) <==> SafeEvent(w, e)
  {
    NextSane(w, e);
    NextTrack(w, e);
    NextMarked(w, e);
    NextReads(w, e);
  }

  /** Over whole runs: the invariant holds throughout exactly when every write of a restore is safe. */
  lemma {:induction false} AlwaysSteadyIff(w: World, es: seq<Event>)
    requires Steady(w)
    ensures AlwaysSteady(w, es) <==> AllSafe(w, es)
    decreases |es|
  {
    if es != [] {
      NextSteadyIff(w, es[0]);
      if SafeEvent(w, es[0]) {
        AlwaysSteadyIff(Next(w, es[0]), es[1..]);
      }
    }
  }

  /** With safe writes half-restored data is never stored, whatever crashes and restarts happen. */
  lemma {:induction false} TornNeverSaved(w: World, es: seq<Event>)
    requires Steady(w) && AllSafe(w, es)
    ensures Steady(After(w, es)) && forall r :: r in After(w, es).rows ==> r.read.data.content.Intact?
    decreases |es|
  {
    if es != [] {
      NextSteadyIff(w, es[0]);
      TornNeverSaved(Next(w, es[0]), es[1..]);
    }
  }

  // ---- what a check made together with the write could test ----

  /** The process is the recorded one, or its data is not marked; for a batch, the data is marked. */
  predicate Testable(w: World)
    requires w.crawler.Up? && w.crawler.pc.Write?
  {
    if w.crawler.pc.batch == w.crawler.pc.batches then Same(w) || !w.redis.data.marker.Restoring?
    else w.redis.data.marker.Restoring?
  }

  lemma TestableIsSafe(w: World)
    requires Steady(w) && w.crawler.Up? && w.crawler.pc.Write? && Testable(w)
    ensures Safe(w)
  {
  }

  /** Alike in everything but whether the data is half-restored, which no Redis structure records. */
  predicate LooksLike(w: World, v: World) {
    w == v.(redis := v.redis.(data := v.redis.data.(content := w.redis.data.content)))
  }

  /** No weaker test will do: a state that fails it looks like one, also allowed by the invariant, in which the
      write is unsafe. */
  lemma TestableIsWeakest(w: World) returns (v: World)
    requires Steady(w) && w.crawler.Up? && w.crawler.pc.Write? && !Testable(w)
    ensures Steady(v) && LooksLike(w, v) && !Safe(v)
  {
    v := w;
    if w.crawler.pc.batch == w.crawler.pc.batches {
      v := SetData(w, w.redis.data.(content := Torn(0, 0)));
    }
  }

  /** A run in which Redis is always as such a test asks when a restore writes. */
  predicate AllTestable(w: World, es: seq<Event>)
    decreases |es|
  {
    es == [] || ((Writes(w, es[0]) ==> Testable(w)) && AllTestable(Next(w, es[0]), es[1..]))
  }

  lemma {:induction false} TestableNeverSaved(w: World, es: seq<Event>)
    requires Steady(w) && AllTestable(w, es)
    ensures AllSafe(w, es)
    decreases |es|
  {
    if es != [] {
      if Writes(w, es[0]) {
        TestableIsSafe(w);
      }
      NextSteadyIff(w, es[0]);
      TestableNeverSaved(Next(w, es[0]), es[1..]);
    }
  }

  // ---- what an unsafe write leads to ----

  /** A step that succeeds, with Restore or Checkpoint called at Idle. */
  function Try(checkpoint: bool): Event {
    Step(Luck(false, false, checkpoint, false, 0, [], []))
  }

  lemma {:induction false} AfterAppend(w: World, a: seq<Event>, b: seq<Event>)
    ensures After(w, a + b) == After(After(w, a), b)
    decreases |a|
  {
    if a == [] {
      assert a + b == b;
    } else {
      assert (a + b)[1..] == a[1..] + b;
      AfterAppend(Next(w, a[0]), a[1..], b);
    }
  }

  lemma Two(w: World, a: Event, b: Event)
    ensures After(w, [a, b]) == Next(Next(w, a), b)
  {
    assert [a, b][1..] == [b];
    assert After(w, [a, b]) == After(Next(w, a), [b]);
    assert After(Next(w, a), [b]) == After(Next(Next(w, a), b), [b][1..]);
  }

  lemma Four(w: World, a: Event, b: Event, c: Event, d: Event)
    ensures After(w, [a, b, c, d]) == Next(Next(Next(Next(w, a), b), c), d)
  {
    assert [a, b, c, d] == [a, b] + [c, d];
    AfterAppend(w, [a, b], [c, d]);
    Two(w, a, b);
    Two(Next(Next(w, a), b), c, d);
  }

  /** The data after the first batch of a restore at clock 0. */
  function Half(docs: Docs): Image {
    Image(Restoring, 0, BatchLoaded(docs, 0, 0, NO_FACTS), Torn(1, 1))
  }

  /** A first restore of two batches, just after the first batch. */
  lemma FirstBatch(docs: Docs) returns (w: World, es: seq<Event>)
    requires Batches(docs) == 2
    ensures w == Start(docs).(redis := Redis(0, Half(docs)), crawler := Up(0, false, 1, Check(0, 2)), attempts := 1)
    ensures w == After(Start(docs), es)
  {
    var go, start := Try(false), Start(docs);
    var m := start.(crawler := Up(0, false, 1, Mark(true, 2)), attempts := 1);
    w := start.(redis := Redis(0, Half(docs)), crawler := Up(0, false, 1, Check(0, 2)), attempts := 1);
    Four(start, Construct, go, go, go);
    assert Next(Next(Next(Next(start, Construct), go), go), go) == m;
    Four(m, go, go, go, go);
    assert Next(Next(Next(Next(m, go), go), go), go) == w;
    es := [Construct, go, go, go] + [go, go, go, go];
    AfterAppend(start, [Construct, go, go, go], [go, go, go, go]);
  }

  /** The same restore, snapshotted there, and now about to write the complete marker. */
  lemma LastBarrier(docs: Docs, v: World) returns (w: World, es: seq<Event>)
    requires v == Start(docs).(redis := Redis(0, Half(docs)), crawler := Up(0, false, 1, Check(0, 2)), attempts := 1)
    ensures var half := Half(docs);
            w == v.(redis := Redis(0, half.(facts := BatchLoaded(docs, 1, 0, half.facts), content := Intact)),
                    images := v.images + {half}, crawler := Up(0, false, 1, Write(2, 2)))
    ensures w == After(v, es)
  {
    var go, half := Try(false), Half(docs);
    var m := v.(images := v.images + {half}, crawler := Up(0, false, 1, Write(1, 2)));
    w := m.(redis := Redis(0, half.(facts := BatchLoaded(docs, 1, 0, half.facts), content := Intact)),
            crawler := Up(0, false, 1, Write(2, 2)));
    Four(v, Snapshot, go, go, go);
    assert Next(Next(Next(Next(v, Snapshot), go), go), go) == m;
    Four(m, go, go, go, go);
    assert Next(Next(Next(Next(m, go), go), go), go) == w;
    es := [Snapshot, go, go, go] + [go, go, go, go];
    AfterAppend(v, [Snapshot, go, go, go], [go, go, go, go]);
  }

  /** A new crawler preserves the data and is about to confirm. */
  lemma Preserves(w: World) returns (x: World, es: seq<Event>)
    requires Decide(w.redis.data.marker, CensusOf(w.redis.data)).Preserve?
    ensures x == w.(crawler := Up(w.redis.run, false, w.attempts + 1, Confirm), attempts := w.attempts + 1)
    ensures x == After(w, es)
  {
    var go := Try(false);
    x := w.(crawler := Up(w.redis.run, false, w.attempts + 1, Confirm), attempts := w.attempts + 1);
    Four(w, Crash, Construct, go, go);
    assert Next(Next(Next(Next(w, Crash), Construct), go), go) == x;
    es := [Crash, Construct, go, go];
  }

  /** It confirms, and its first checkpoint reads and stores the data. */
  lemma Confirms(x: World) returns (es: seq<Event>)
    requires x.crawler.Up? && Same(x) && x.crawler.pc.Confirm?
    ensures After(x, es).rows == x.rows + [StoredRow(x.redis.run, Read(x.redis.run, x.redis.data))]
  {
    var go, check, run := Try(false), Try(true), x.redis.run;
    var read := Read(run, x.redis.data);
    var y := x.(crawler := x.crawler.(complete := true, pc := Verify(read)), restored := x.restored + {run});
    Four(x, go, check, go, go);
    assert Next(Next(Next(Next(x, go), check), go), go) == y;
    Two(y, go, go);
    assert Next(Next(y, go), go).rows == y.rows + [StoredRow(run, read)];
    es := [go, check, go, go] + [go, go];
    AfterAppend(x, [go, check, go, go], [go, go]);
  }

  /** Half-restored data that the startup decision preserves gets stored: the next crawler keeps it, and its
      first checkpoint reads it. */
  lemma PreservedIsSaved(w: World) returns (es: seq<Event>)
    requires w.redis.data.content.Torn? && Decide(w.redis.data.marker, CensusOf(w.redis.data)).Preserve?
    ensures After(w, es).rows == w.rows + [StoredRow(w.redis.run, Read(w.redis.run, w.redis.data))]
  {
    var x, a := Preserves(w);
    var b := Confirms(x);
    es := a + b;
    AfterAppend(w, a, b);
  }

  ghost predicate TornStored(w: World) {
    exists r :: r in w.rows && r.read.data.content.Torn?
  }

  /** So an unsafe write after which the startup decision is to preserve has a continuation that stores
      half-restored data. */
  lemma UnsafeIsSaved(w: World, e: Event) returns (es: seq<Event>)
    requires TornMarked(w.redis.data) && Writes(w, e) && !Safe(w)
    requires Decide(Next(w, e).redis.data.marker, CensusOf(Next(w, e).redis.data)).Preserve?
    ensures TornStored(After(w, [e] + es))
  {
    var v := Next(w, e);
    assert v.redis.data.content.Torn?;
    es := PreservedIsSaved(v);
    assert ([e] + es)[1..] == es;
    assert StoredRow(v.redis.run, Read(v.redis.run, v.redis.data)) in After(v, es).rows;
  }

  lemma HalfHasListing(docs: Docs)
    requires docs != [] && RestoredNext(docs[0], 0).Some?
    ensures |Half(docs).facts.next| > 0
  {
    var b := Batch(docs, 0);
    assert b[0] == docs[0];
    RestoreAt(NO_FACTS, b, Const(|b|, 0), 0);
    assert docs[0].url in Half(docs).facts.next;
  }

  /** Such a write does occur, for any collection of two batches whose first row has a schedule: Redis restarts
      from a snapshot of the restore under way between the last barrier and the complete marker. */
  lemma TornSavedExample(docs: Docs) returns (es: seq<Event>)
    requires Batches(docs) == 2 && RestoredNext(docs[0], 0).Some?
    ensures TornStored(After(Start(docs), es))
  {
    var go, half := Try(false), Half(docs);
    var v, a := FirstBatch(docs);
    var x, b := LastBarrier(docs, v);
    var y := Next(x, Restart(half));
    HalfHasListing(docs);
    assert Next(y, go).redis.data == half.(marker := Complete);
    var c := UnsafeIsSaved(y, go);
    var tail := [Restart(half)] + ([go] + c);
    assert tail[1..] == [go] + c;
    es := a + b + tail;
    AfterAppend(Start(docs), a + b, tail);
    AfterAppend(Start(docs), a, b);
  }
}
