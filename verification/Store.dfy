/** CrawlStateStore: the startup decision, the batched restore with its marker, and the checkpoint pass,
    with a failure possible at any one I/O operation. Nothing else touches Redis meanwhile; module
    `Persistence` lets Redis restart and the crawler crash between any two operations. */
module Store {
  import opened Keyspace
  import opened CrawlState
  import opened Documents

  /** The persisted restore marker; Foreign is one that does not parse or names another source. */
  datatype Marker = Absent | Restoring | Complete | Foreign

  /** How many entries readStartupState counts in each structure; work covers queues, leases and retry counters. */
  datatype Census = Census(listing: nat, barren: nat, dead: nat, work: nat)

  datatype Decision = Refuse | Preserve | Load(resuming: bool)

  function Decide(m: Marker, c: Census): Decision {
    if m.Foreign? then Refuse
    else if m.Restoring? then if c.work != 0 then Refuse else Load(true)
    else if c.listing > 0 || (m.Complete? && c.work == 0 && (c.barren > 0 || c.dead > 0)) then Preserve
    else if c.work != 0 || c.barren != 0 || c.dead != 0 then Refuse
    else Load(false)
  }

  /** A fresh restore starts only on an empty keyspace, and live work is never overwritten. */
  lemma LoadIsSafe(m: Marker, c: Census)
    ensures Decide(m, c) == Load(false) <==> !m.Foreign? && !m.Restoring? && c == Census(0, 0, 0, 0)
    ensures Decide(m, c) == Load(true) <==> m.Restoring? && c.work == 0
    ensures Decide(m, c).Preserve? ==> !m.Restoring? && (c.listing > 0 || c.work == 0)
  {
  }

  /** Starting on this keyspace is unsafe: the marker is foreign; or an unfinished restore finds work; or there is no
      schedule, and something else is left that no complete marker vouches for. */
  predicate Unsafe(m: Marker, c: Census) {
    || m == Foreign
    || (m == Restoring && c.work > 0)
    || ((m == Absent || m == Complete) && c.listing == 0 && c.work > 0)
    || (m == Absent && c.listing == 0 && (c.barren > 0 || c.dead > 0))
  }

  /** The decision refuses exactly the unsafe keyspaces. It preserves whatever has a schedule, and what a complete
      marker vouches for if nothing is queued; it loads into what a restore began or what is empty. */
  lemma DecisionLaw(m: Marker, c: Census)
    ensures Decide(m, c) == Refuse <==> Unsafe(m, c)
    ensures (m == Absent || m == Complete) && c.listing > 0 ==> Decide(m, c) == Preserve
    ensures m == Complete && c.work == 0 && (c.barren > 0 || c.dead > 0) ==> Decide(m, c) == Preserve
    ensures Decide(m, c) == Preserve ==>
              c.listing > 0 || (m == Complete && c.work == 0 && (c.barren > 0 || c.dead > 0))
  {
  }

  datatype Mode = Empty | Preserved | Restored | Failed

  /** The I/O operation that fails, if any; what a failing pipeline or marker write did all the same;
      how many documents a failing bulk write had written. */
  datatype Fault = Fault(at: Option<nat>, mask: seq<bool>, applied: bool, written: nat)

  function Trues(n: nat): (s: seq<bool>)
    ensures |s| == n && forall i :: 0 <= i < n ==> s[i]
  {
    seq(n, _ => true)
  }

  function Const(n: nat, x: int): (s: seq<int>)
    ensures |s| == n && forall i :: 0 <= i < n ==> s[i] == x
  {
    seq(n, _ => x)
  }

  lemma {:induction false} SomeIsAll(f: Facts, cs: seq<Command>)
    ensures PerformSome(f, cs, Trues(|cs|)) == PerformAll(f, cs)
    decreases |cs|
  {
    if cs != [] {
      assert Trues(|cs|)[1..] == Trues(|cs| - 1);
      SomeIsAll(Perform(f, cs[0]), cs[1..]);
    }
  }

  lemma {:induction false} SomeAppend(f: Facts, a: seq<Command>, b: seq<Command>, mask: seq<bool>)
    ensures PerformSome(f, a + b, Trues(|a|) + mask) == PerformSome(PerformAll(f, a), b, mask)
    decreases |a|
  {
    if a == [] {
      assert a + b == b && Trues(0) + mask == mask;
    } else {
      var m := Trues(|a|) + mask;
      assert (a + b)[1..] == a[1..] + b;
      assert m[1..] == Trues(|a| - 1) + mask;
      SomeAppend(Perform(f, a[0]), a[1..], b, mask);
    }
  }

  lemma CommandsStep(rows: seq<Row>, nows: seq<int>) returns (first: seq<Command>)
    requires rows != [] && |rows| == |nows| && AllCounted(rows)
    ensures first == RowCommands(rows[0], nows[0])
    ensures Commands(rows, nows) == first + Commands(rows[1..], nows[1..])
  {
    first := RowCommands(rows[0], nows[0]);
  }

  lemma Shift(a: seq<Command>, b: seq<Command>, c: seq<Command>)
    ensures a + (b + c) == (a + b) + c
  {
  }

  lemma {:induction false} CommandsAppend(rs: seq<Row>, ns: seq<int>, ts: seq<Row>, ms: seq<int>)
    requires |rs| == |ns| && |ts| == |ms| && AllCounted(rs) && AllCounted(ts) && AllCounted(rs + ts)
    ensures Commands(rs + ts, ns + ms) == Commands(rs, ns) + Commands(ts, ms)
    decreases |rs|
  {
    if rs == [] {
      assert rs + ts == ts && ns + ms == ms;
    } else {
      assert (rs + ts)[1..] == rs[1..] + ts && (ns + ms)[1..] == ns[1..] + ms;
      CommandsAppend(rs[1..], ns[1..], ts, ms);
      var a := CommandsStep(rs, ns);
      var b := CommandsStep(rs + ts, ns + ms);
      Shift(a, Commands(rs[1..], ns[1..]), Commands(ts, ms));
    }
  }

  lemma CommandsSnoc(rows: seq<Row>, i: nat, now: int)
    requires i < |rows| && AllCounted(rows)
    ensures Commands(rows[..i + 1], Const(i + 1, now)) == Commands(rows[..i], Const(i, now)) + RowCommands(rows[i], now)
  {
    assert rows[..i + 1] == rows[..i] + [rows[i]];
    assert Const(i + 1, now) == Const(i, now) + [now];
    CommandsAppend(rows[..i], Const(i, now), [rows[i]], [now]);
    var last := Commands([rows[i]], [now]);
    assert last == RowCommands(rows[i], now) + Commands([rows[i]][1..], [now][1..]);
    assert Commands([rows[i]][1..], [now][1..]) == [];
  }

  /** What each document of the cursor decodes to, if it is valid. */
  type Table = seq<Option<Row>>

  ghost predicate IsTable(parses: Url -> bool, cursor: seq<Document>, table: Table) {
    |table| == |cursor| && forall k :: 0 <= k < |cursor| ==> table[k] == DecodeRow(parses, cursor[k])
  }

  /** rows decode the first documents of the cursor. */
  ghost predicate Decodes(table: Table, rows: seq<Row>) {
    && |rows| <= |table| && AllCounted(rows)
    && forall k :: 0 <= k < |rows| ==> table[k] == Some(rows[k])
  }

  ghost predicate Decodable(table: Table) {
    forall k :: 0 <= k < |table| ==> table[k].Some?
  }

  /** f with all the rows restored over it is g. */
  ghost predicate Loaded(f: Facts, rows: seq<Row>, nows: seq<int>, g: Facts) {
    |nows| == |rows| && AllCounted(rows) && g == RestoreAll(f, rows, nows)
  }

  /** f with some of the rows' commands performed is g. */
  ghost predicate CutShort(f: Facts, rows: seq<Row>, a: Attempt, g: Facts) {
    |a.nows| == |rows| && AllCounted(rows) && g == PerformSome(f, Commands(rows, a.nows), a.mask)
  }

  lemma LoadedThenCut(f: Facts, rs: seq<Row>, ns: seq<int>, g: Facts, bs: seq<Row>, a: Attempt, h: Facts)
    requires Loaded(f, rs, ns, g) && CutShort(g, bs, a, h)
    ensures CutShort(f, rs + bs, Attempt(ns + a.nows, Trues(|Commands(rs, ns)|) + a.mask), h)
  {
    CommandsAppend(rs, ns, bs, a.nows);
    SomeAppend(f, Commands(rs, ns), Commands(bs, a.nows), a.mask);
  }

  lemma LoadedThenLoaded(f: Facts, rs: seq<Row>, ns: seq<int>, g: Facts, bs: seq<Row>, ms: seq<int>, h: Facts)
    requires Loaded(f, rs, ns, g) && Loaded(g, bs, ms, h)
    ensures Loaded(f, rs + bs, ns + ms, h)
  {
    CommandsAppend(rs, ns, bs, ms);
    AllAppend(f, Commands(rs, ns), Commands(bs, ms));
  }

  /** g is what an attempt to restore the documents over f may leave. */
  ghost predicate Partial(table: Table, f: Facts, g: Facts) {
    exists rows, a :: Decodes(table, rows) && CutShort(f, rows, a, g)
  }

  /** g is what a completed restore of the documents over f leaves. */
  ghost predicate Whole(table: Table, f: Facts, g: Facts) {
    exists rows, nows :: Decodes(table, rows) && |rows| == |table| && Loaded(f, rows, nows, g)
  }

  /** The cursor loop between two documents: those done are restored over f, those buffered are decoded. */
  ghost predicate Ready(table: Table, f: Facts, done: seq<Row>, nows: seq<int>, buffer: seq<Row>, g: Facts) {
    Decodes(table, done + buffer) && AllCounted(buffer) && Loaded(f, done, nows, g)
  }

  lemma ReadySnoc(table: Table, f: Facts, done: seq<Row>, nows: seq<int>, buffer: seq<Row>, g: Facts, r: Row)
    requires Ready(table, f, done, nows, buffer, g)
    requires var i := |done| + |buffer|; i < |table| && table[i] == Some(r)
    requires r.barren >= 0
    ensures Ready(table, f, done, nows, buffer + [r], g)
  {
    assert done + (buffer + [r]) == (done + buffer) + [r];
  }

  lemma ReadyWhole(table: Table, f: Facts, done: seq<Row>, nows: seq<int>, g: Facts)
    requires Ready(table, f, done, nows, [], g) && |done| == |table|
    ensures Whole(table, f, g) && Decodable(table)
  {
    assert done + [] == done;
  }

  /** The mode of a restore during which no operation fails. */
  ghost function Expected(table: Table, d: Decision): Mode {
    match d
    case Refuse => Failed
    case Preserve => Preserved
    case Load(resuming) =>
      if table == [] then if resuming then Failed else Empty
      else if Decodable(table) then Restored else Failed
  }

  class CrawlStateStore {
    const parses: Url -> bool
    const clock: nat -> int         // the time at each operation
    const fault: Fault
    var ops: nat                    // I/O operations so far
    var facts: Facts                // Redis: listing:next, listing:barren and dead
    var work: nat                   // Redis: size of the queues, leases and retry counters
    var marker: Marker              // Redis: crawler:state:restore:v1
    var docs: map<Url, Document>    // Mongo: crawler_state_v1 by _id
    var startupComplete: bool

    constructor (parses: Url -> bool, clock: nat -> int, fault: Fault, facts: Facts, work: nat, marker: Marker,
                 docs: map<Url, Document>)
      ensures this.parses == parses && this.clock == clock && this.fault == fault && !startupComplete
      ensures this.facts == facts && this.work == work && this.marker == marker && this.docs == docs
    {
      this.parses, this.clock, this.fault := parses, clock, fault;
      this.facts, this.work, this.marker, this.docs := facts, work, marker, docs;
      ops, startupComplete := 0, false;
    }

    /** A load is called for, but the collection does not allow it: a document is invalid, or the collection is empty
        while a restore is unfinished. */
    ghost predicate Unusable(m: Marker, c: Census, cursor: seq<Document>) {
      && (if m == Restoring then c.work == 0 else c == Census(0, 0, 0, 0) && m != Foreign)
      && ((m == Restoring && cursor == []) || exists k :: 0 <= k < |cursor| && DecodeRow(parses, cursor[k]).None?)
    }

    function Count(): Census
      reads this
    {
      Census(|facts.next|, |facts.barren|, |facts.dead|, work)
    }

    /** One I/O operation: an identity check, a read, a cursor step or the attempt of a write. */
    method Try() returns (ok: bool)
      modifies this`ops
      ensures ops == old(ops) + 1 && (ok <==> fault.at != Some(old(ops)))
    {
      ok := fault.at != Some(ops);
      ops := ops + 1;
    }

    method SetMarker(m: Marker) returns (ok: bool)
      modifies this`ops, this`marker
      ensures marker == if ok || fault.applied then m else old(marker)
      ensures fault.at.None? ==> ok
    {
      ok := Try();
      if ok || fault.applied {
        marker := m;
      }
    }

    /** checkRestoreBarrier. */
    method Barrier() returns (ok: bool)
      modifies this`ops
      ensures ok ==> marker.Restoring? && work == 0
      ensures fault.at.None? && marker.Restoring? && work == 0 ==> ok
    {
      ok := Try();
      if ok {
        ok := Try();
        ok := ok && marker.Restoring? && work == 0;
      }
    }

    /** Redis performs the commands one by one; a failing transaction performs those the mask marks. */
    method Perform(cs: seq<Command>, mask: seq<bool>)
      modifies this`facts
      ensures facts == PerformSome(old(facts), cs, mask)
    {
      var i := 0;
      while i < |cs| && i < |mask|
        invariant i <= |cs| && i <= |mask|
        invariant PerformSome(facts, cs[i..], mask[i..]) == PerformSome(old(facts), cs, mask)
      {
        assert cs[i..][0] == cs[i] && cs[i..][1..] == cs[i + 1..];
        assert mask[i..][0] == mask[i] && mask[i..][1..] == mask[i + 1..];
        if mask[i] {
          facts := CrawlState.Perform(facts, cs[i]);
        }
        i := i + 1;
      }
    }

    /** The three commands of one row. */
    method PipeRow(row: Row, now: int) returns (cs: seq<Command>)
      requires row.barren >= 0
      ensures cs == RowCommands(row, now)
    {
      var next, dead := row.next, row.dead;
      if next == Some(PENDING_SCORE) {
        next := Some(0);
      }
      if dead.Some? {
        if dead.value.until == 0 {
          next := None;
        } else if dead.value.until <= now {
          dead := None;
        } else if next.Some? && next.value < dead.value.until {
          next := Some(dead.value.until);
        }
      }
      var first := if next.None? then ZRemNext(row.url) else ZAddNext(row.url, next.value);
      var second := if next.None? && dead.None? && row.barren == 0 then HDelBarren(row.url)
                    else HSetBarren(row.url, row.barren);
      var third := if dead.None? then HDelDead(row.url) else HSetDead(row.url, dead.value);
      cs := [first, second, third];
    }

    /** The pipeline of a batch, all under one clock reading. */
    method BuildPipe(rows: seq<Row>, now: int) returns (pipe: seq<Command>)
      requires AllCounted(rows)
      ensures pipe == Commands(rows, Const(|rows|, now))
    {
      pipe := [];
      var i := 0;
      while i < |rows|
        invariant i <= |rows|
        invariant pipe == Commands(rows[..i], Const(i, now))
      {
        assert rows[i] in rows;
        var cs := PipeRow(rows[i], now);
        CommandsSnoc(rows, i, now);
        pipe := pipe + cs;
        i := i + 1;
      }
      assert rows[..i] == rows;
    }

    /** restoreBatch. Unless it succeeds, any of its commands may have taken effect. */
    method RestoreBatch(rows: seq<Row>) returns (ok: bool, ghost now: int, ghost mask: seq<bool>)
      requires |rows| <= BATCH_SIZE && AllCounted(rows)
      modifies this`facts, this`ops
      ensures CutShort(old(facts), rows, Attempt(Const(|rows|, now), mask), facts)
      ensures ok ==> Loaded(old(facts), rows, Const(|rows|, now), facts)
      ensures facts != old(facts) || ok ==> marker.Restoring? && work == 0
      ensures fault.at.None? && marker.Restoring? && work == 0 ==> ok
    {
      now, mask := 0, [];
      ok := Barrier();
      if !ok {
        return;
      }
      var t := clock(ops);
      now := t;
      var pipe := BuildPipe(rows, t);
      ok := Try();
      mask := if ok then Trues(|pipe|) else fault.mask;
      SomeIsAll(facts, pipe);
      Perform(pipe, if ok then Trues(|pipe|) else fault.mask);
      if ok {
        ok := Try();
      }
    }

    /** A batch on top of those done: afterwards both are restored, or the attempt is cut short. */
    method Flush(ghost table: Table, ghost f: Facts, ghost done: seq<Row>, ghost nows: seq<int>,
                 buffer: seq<Row>)
      returns (ok: bool, ghost nows': seq<int>)
      requires |buffer| <= BATCH_SIZE && Ready(table, f, done, nows, buffer, facts)
      modifies this`facts, this`ops
      ensures ok ==> Ready(table, f, done + buffer, nows', [], facts)
      ensures Partial(table, f, facts)
      ensures facts != old(facts) || ok ==> marker.Restoring? && work == 0
      ensures fault.at.None? && marker.Restoring? && work == 0 ==> ok
    {
      ghost var g, now, mask := facts, 0, [];
      ok, now, mask := RestoreBatch(buffer);
      nows' := nows + Const(|buffer|, now);
      LoadedThenCut(f, done, nows, g, buffer, Attempt(Const(|buffer|, now), mask), facts);
      if ok {
        LoadedThenLoaded(f, done, nows, g, buffer, Const(|buffer|, now), facts);
        assert done + buffer + [] == done + buffer;
      }
    }

    /** The first row found: from here on the keyspace is marked. */
    method Begin() returns (ok: bool)
      modifies this`ops, this`marker
      ensures ok ==> marker.Restoring?
      ensures marker == old(marker) || marker.Restoring?
      ensures fault.at.None? ==> ok
    {
      ok := Try();
      if ok && !marker.Restoring? {
        ok := SetMarker(Restoring);
      }
    }

    /** The next document of the cursor, decoded; the first one begins the restore. */
    method FetchRow(doc: Document, first: bool) returns (row: Option<Row>)
      modifies this`marker, this`ops
      ensures row.Some? ==> row == DecodeRow(parses, doc) && row.value.barren >= 0
      ensures marker == old(marker) || marker.Restoring?
      ensures row.Some? && (first || old(marker).Restoring?) ==> marker.Restoring?
      ensures fault.at.None? && row.None? ==> DecodeRow(parses, doc).None?
    {
      var ok := Try();
      if ok && first {
        ok := Begin();
      }
      if !ok {
        return None;
      }
      row := Decode(parses, doc);
    }

    /** Buffer a row, and flush a full buffer. */
    method TakeRow(ghost table: Table, n: nat, buffer: seq<Row>, row: Row,
                   ghost f: Facts, ghost done: seq<Row>, ghost nows: seq<int>)
      returns (ok: bool, n': nat, buffer': seq<Row>, ghost done': seq<Row>, ghost nows': seq<int>)
      requires work == 0 && marker.Restoring? && n == |done| && |buffer| < BATCH_SIZE
      requires Ready(table, f, done, nows, buffer + [row], facts)
      modifies this`facts, this`ops
      ensures ok ==> n' == |done'| && n' + |buffer'| == n + |buffer| + 1 && |buffer'| < BATCH_SIZE
      ensures ok ==> Ready(table, f, done', nows', buffer', facts)
      ensures facts == old(facts) || Partial(table, f, facts)
      ensures fault.at.None? ==> ok
    {
      n', buffer', done', nows', ok := n, buffer + [row], done, nows, true;
      if |buffer'| == BATCH_SIZE {
        ok, nows' := Flush(table, f, done, nows, buffer');
        done' := done + buffer';
        n', buffer' := n + |buffer'|, [];
      }
    }

    /** The cursor loop; n counts the rows of acknowledged batches, buffer holds the rest. */
    method LoadBatches(cursor: seq<Document>, ghost table: Table)
      returns (ok: bool, n: nat, buffer: seq<Row>, ghost done: seq<Row>, ghost nows: seq<int>)
      requires IsTable(parses, cursor, table) && work == 0
      modifies this`facts, this`marker, this`ops
      ensures ok ==> n == |done| && n + |buffer| == |cursor| && |buffer| < BATCH_SIZE
      ensures ok ==> Ready(table, old(facts), done, nows, buffer, facts)
      ensures facts == old(facts) || Partial(table, old(facts), facts)
      ensures marker == old(marker) || marker.Restoring?
      ensures facts != old(facts) || (ok && cursor != []) ==> marker.Restoring?
      ensures fault.at.None? && !ok ==> !Decodable(table)
    {
      ghost var f := facts;
      done, nows, buffer, n := [], [], [], 0;
      var i := 0;
      ok := true;
      while i < |cursor|
        invariant i <= |cursor| && ok && |buffer| < BATCH_SIZE
        invariant n == |done| && n + |buffer| == i && Ready(table, f, done, nows, buffer, facts)
        invariant facts == f || Partial(table, f, facts)
        invariant marker == old(marker) || marker.Restoring?
        invariant facts != f || i > 0 ==> marker.Restoring?
      {
        var row := FetchRow(cursor[i], i == 0);
        if row.None? {
          ok := false;
          return;
        }
        ReadySnoc(table, f, done, nows, buffer, facts, row.value);
        ok, n, buffer, done, nows := TakeRow(table, n, buffer, row.value, f, done, nows);
        if !ok {
          return;
        }
        i := i + 1;
      }
    }

    /** All documents: full batches, then the last short one. */
    method LoadRows(cursor: seq<Document>, ghost table: Table) returns (ok: bool, n: nat)
      requires IsTable(parses, cursor, table) && work == 0
      modifies this`facts, this`marker, this`ops
      ensures facts == old(facts) || Partial(table, old(facts), facts)
      ensures ok ==> n == |cursor| && Whole(table, old(facts), facts)
      ensures marker == old(marker) || marker.Restoring?
      ensures facts != old(facts) || (ok && cursor != []) ==> marker.Restoring?
      ensures fault.at.None? ==> (ok <==> Decodable(table))
    {
      ghost var f, done, nows := facts, [], [];
      var buffer;
      ok, n, buffer, done, nows := LoadBatches(cursor, table);
      if ok {
        ok := Try();
      }
      if ok && |buffer| > 0 {
        ok, nows := Flush(table, f, done, nows, buffer);
        done := done + buffer;
        n := n + |buffer|;
      }
      if ok {
        ReadyWhole(table, f, done, nows, facts);
      }
    }

    /** The barrier once more, then the marker in a write of its own, then the process identity. */
    method Finish() returns (ok: bool)
      modifies this`marker, this`ops
      ensures marker.Complete? || marker == old(marker)
      ensures ok ==> marker.Complete?
      ensures fault.at.None? && old(marker).Restoring? && work == 0 ==> ok
    {
      ok := Barrier();
      if ok {
        ok := SetMarker(Complete);
        if ok {
          ok := Try();
        }
      }
    }

    /** From an opened cursor to its end. */
    method Load(cursor: seq<Document>, ghost table: Table) returns (mode: Mode, n: nat)
      requires IsTable(parses, cursor, table) && work == 0
      modifies this`facts, this`marker, this`ops
      ensures facts == old(facts) || Partial(table, old(facts), facts)
      ensures mode.Restored? ==> cursor != [] && n == |cursor| && marker.Complete?
      ensures mode.Restored? || (marker.Complete? && marker != old(marker)) ==> Whole(table, old(facts), facts)
      ensures mode.Empty? ==> cursor == [] && facts == old(facts) && marker == old(marker) && !marker.Restoring?
      ensures !mode.Preserved?
      ensures facts != old(facts) ==> marker.Restoring? || (marker.Complete? && Whole(table, old(facts), facts))
      ensures fault.at.None? ==> mode == Expected(table, Decision.Load(old(marker).Restoring?))
    {
      n := 0;
      var resuming := marker.Restoring?;
      var ok := Try();
      if !ok {
        return Failed, n;
      }
      if cursor == [] {
        ok := Try();
        return if ok && !resuming then Empty else Failed, n;
      }
      ok, n := LoadRows(cursor, table);
      if ok {
        ok := Finish();
      }
      mode := if ok then Restored else Failed;
    }

    /** Restore: the startup barrier. cursor is the collection in _id order. Whatever operation fails, the
        keyspace is as before, or marked, or fully restored; and only success opens the way to checkpoints. */
    method Restore(cursor: seq<Document>, ghost table: Table) returns (mode: Mode, n: nat)
      requires IsTable(parses, cursor, table)
      modifies this`facts, this`marker, this`ops, this`startupComplete
      ensures startupComplete <==> !mode.Failed?
      ensures facts == old(facts) || Partial(table, old(facts), facts)
      ensures facts != old(facts) ==> Decide(old(marker), old(Count())).Load?
      ensures facts != old(facts) ==> marker.Restoring? || (marker.Complete? && Whole(table, old(facts), facts))
      ensures mode.Restored? ==> cursor != [] && n == |cursor| && marker.Complete? && Whole(table, old(facts), facts)
      ensures marker.Complete? && marker != old(marker) ==> Whole(table, old(facts), facts)
      ensures mode.Empty? || mode.Preserved? ==> facts == old(facts) && marker == old(marker) && !marker.Restoring?
      ensures !Decide(old(marker), old(Count())).Load? ==> facts == old(facts) && marker == old(marker)
      ensures fault.at.None? ==> mode == Expected(table, Decide(old(marker), old(Count())))
      ensures fault.at.None? && (old(marker) == Absent || old(marker) == Complete) && old(facts).next != map[] ==>
                mode == Preserved && facts == old(facts) && marker == old(marker) && startupComplete
      ensures fault.at.None? ==>
                (mode == Failed <==> Unsafe(old(marker), old(Count())) || Unusable(old(marker), old(Count()), cursor))
      ensures fault.at.None? && cursor == [] && (old(marker) == Absent || old(marker) == Complete) ==>
                (mode == Empty <==> old(facts) == NO_FACTS && old(work) == 0)
    {
      startupComplete, n := false, 0;
      LoadIsSafe(marker, Count());
      DecisionLaw(marker, Count());
      var ok := Try();
      if !ok {
        return Failed, n;
      }
      ok := Try();
      var d := Decide(marker, Count());
      if !ok || d.Refuse? {
        return Failed, n;
      }
      if d.Preserve? {
        ok := Try();
        startupComplete := ok;
        return if ok then Preserved else Failed, n;
      }
      ok := Try();
      if !ok {
        return Failed, n;
      }
      mode, n := Load(cursor, table);
      ok := Try();
      if !ok {
        mode := Failed;
      }
      startupComplete := !mode.Failed?;
    }

    // ---- checkpoint ----

    /** The URLs of a part of a scan reply, first occurrences only. */
    method Dedupe(pairs: seq<string>) returns (urls: seq<Url>)
      requires |pairs| <= 2 * BATCH_SIZE
      ensures Distinct(urls) && |urls| <= BATCH_SIZE && Elements(urls) == ScanUrls(pairs)
    {
      urls := [];
      var seen: set<Url> := {};
      var i := 0;
      while i < |pairs|
        invariant 2 * |urls| <= i <= |pairs| + 1
        invariant Distinct(urls) && Elements(urls) == seen
        invariant seen + ScanUrls(if i <= |pairs| then pairs[i..] else []) == ScanUrls(pairs)
      {
        assert pairs[i..][0] == pairs[i];
        assert i + 2 <= |pairs| ==> pairs[i..][2..] == pairs[i + 2..];
        if pairs[i] !in seen {
          assert pairs[i] !in urls;
          urls := urls + [pairs[i]];
          seen := seen + {pairs[i]};
        }
        i := i + 2;
      }
    }

    /** readRedisCrawlRecords: identity, one transaction, identity, then every tuple is parsed and validated. */
    method ReadRecords(urls: seq<Url>) returns (rows: Option<seq<Row>>)
      modifies this`ops
      ensures rows.Some? ==> |rows.value| == |urls|
      ensures rows.Some? ==> forall k :: 0 <= k < |urls| ==> rows.value[k] == ReadRow(facts, urls[k])
      ensures rows.Some? ==> forall k :: 0 <= k < |urls| ==> ValidRow(parses, ReadRow(facts, urls[k]))
      ensures fault.at.None? && rows.None? ==> exists u :: u in urls && !ValidRow(parses, ReadRow(facts, u))
    {
      var before := Try();
      var tx := Try();
      var after := Try();
      if !before || !tx || !after {
        return None;
      }
      var found: seq<Row> := [];
      var i := 0;
      while i < |urls|
        invariant i == |found| <= |urls|
        invariant forall k :: 0 <= k < i ==> found[k] == ReadRow(facts, urls[k])
        invariant forall k :: 0 <= k < i ==> ValidRow(parses, ReadRow(facts, urls[k]))
      {
        TupleReadBack(parses, facts, urls[i]);
        var row := ParseTuple(urls[i], RawOf(facts, urls[i]));
        if row.None? || !ValidRow(parses, row.value) {
          return None;
        }
        found := found + [row.value];
        i := i + 1;
      }
      rows := Some(found);
    }

    method BuildWrites(rows: seq<Row>) returns (writes: seq<Document>)
      ensures |writes| == |rows| && forall k :: 0 <= k < |rows| ==> writes[k] == EncodeRow(rows[k])
    {
      writes := [];
      var i := 0;
      while i < |rows|
        invariant i == |writes| <= |rows| && forall k :: 0 <= k < i ==> writes[k] == EncodeRow(rows[k])
      {
        writes := writes + [EncodeRow(rows[i])];
        i := i + 1;
      }
    }

    /** An ordered bulk write: a failing one stops after some of its documents. */
    method BulkWrite(urls: seq<Url>, writes: seq<Document>, ghost f: Url -> Document)
      returns (ok: bool, ghost saved: set<Url>)
      requires |writes| == |urls| && forall k :: 0 <= k < |urls| ==> writes[k] == f(urls[k])
      modifies this`ops, this`docs
      ensures docs == Overlay(old(docs), saved, f) && saved <= Elements(urls)
      ensures ok ==> saved == Elements(urls)
      ensures fault.at.None? ==> ok
    {
      ok := Try();
      var n := if ok || fault.written > |writes| then |writes| else fault.written;
      var i := 0;
      saved := {};
      while i < n
        invariant i <= n && saved == Elements(urls[..i]) && docs == Overlay(old(docs), saved, f)
      {
        OverlayOne(old(docs), saved, urls[i], f);
        docs := docs[urls[i] := writes[i]];
        assert urls[..i + 1] == urls[..i] + [urls[i]];
        saved := saved + {urls[i]};
        i := i + 1;
      }
      assert ok ==> urls[..i] == urls;
    }

    /** One bounded batch of a scan reply. */
    method SaveBatch(pairs: seq<string>) returns (ok: bool, ghost saved: set<Url>)
      requires |pairs| <= 2 * BATCH_SIZE
      modifies this`ops, this`docs
      ensures docs == Saved(old(docs), facts, saved) && All(saved, Sound(parses, facts))
      ensures saved <= ScanUrls(pairs) && (ok ==> saved == ScanUrls(pairs))
      ensures fault.at.None? ==> (ok <==> All(ScanUrls(pairs), Sound(parses, facts)))
    {
      var urls := Dedupe(pairs);
      var rows := ReadRecords(urls);
      if rows.None? {
        assert forall u :: u in urls ==> u in Elements(urls);
        saved := {};
        return false, saved;
      }
      var writes := BuildWrites(rows.value);
      ok, saved := BulkWrite(urls, writes, StoredDoc(facts));
    }

    /** The first n entries of what is left of a reply: a full batch, or all of it. */
    method SaveNext(rest: seq<string>, ghost left: nat)
      returns (ok: bool, n: nat, ghost size: nat, ghost saved: set<Url>)
      requires |rest| == 2 * left > 0
      modifies this`ops, this`docs
      ensures n == 2 * size && 0 < size <= left
      ensures docs == Saved(old(docs), facts, saved) && All(saved, Sound(parses, facts))
      ensures saved <= ScanUrls(rest[..n]) && (ok ==> saved == ScanUrls(rest[..n]))
      ensures fault.at.None? ==> (ok <==> All(ScanUrls(rest[..n]), Sound(parses, facts)))
      ensures ScanUrls(rest) == ScanUrls(rest[..n]) + ScanUrls(rest[n..])
    {
      n := if 2 * BATCH_SIZE <= |rest| then 2 * BATCH_SIZE else |rest|;
      size := if BATCH_SIZE <= left then BATCH_SIZE else left;
      ScanSplit(rest, size);
      ok, saved := SaveBatch(rest[..n]);
    }

    /** A whole scan reply, batch by batch. */
    method SavePage(pairs: seq<string>) returns (ok: bool, ghost saved: set<Url>)
      modifies this`ops, this`docs
      ensures docs == Saved(old(docs), facts, saved) && All(saved, Sound(parses, facts))
      ensures saved <= ScanUrls(pairs) && (ok ==> saved == ScanUrls(pairs))
      ensures fault.at.None? ==> (ok <==> |pairs| % 2 == 0 && All(ScanUrls(pairs), Sound(parses, facts)))
    {
      ghost var f, valid := StoredDoc(facts), Sound(parses, facts);
      saved := {};
      ok := |pairs| % 2 == 0;
      if !ok {
        return;
      }
      var rest := pairs;
      ghost var left := |pairs| / 2;
      while |rest| > 0
        invariant |rest| == 2 * left && ok
        invariant docs == Overlay(old(docs), saved, f) && All(saved, valid)
        invariant saved + ScanUrls(rest) == ScanUrls(pairs)
      {
        ghost var d := docs;
        ghost var size, more := 0, {};
        var n;
        ok, n, size, more := SaveNext(rest, left);
        assert docs == Overlay(d, more, f);
        OverlayTwice(old(docs), saved, more, f);
        SaveStep(saved, more, ScanUrls(rest[..n]), ScanUrls(rest[n..]), ScanUrls(rest), ScanUrls(pairs), ok, valid);
        saved := saved + more;
        rest, left := rest[n..], left - size;
        if !ok {
          return;
        }
      }
    }

    /** The scan of one structure: a page per cursor step. */
    method SaveScan(pages: seq<seq<string>>) returns (ok: bool, ghost saved: set<Url>)
      modifies this`ops, this`docs
      ensures docs == Saved(old(docs), facts, saved) && All(saved, Sound(parses, facts))
      ensures saved <= PagesUrls(pages) && (ok ==> saved == PagesUrls(pages))
      ensures fault.at.None? ==> (ok <==> EvenPages(pages) && All(PagesUrls(pages), Sound(parses, facts)))
    {
      ghost var f, valid := StoredDoc(facts), Sound(parses, facts);
      saved, ok := {}, true;
      var i := 0;
      while i < |pages|
        invariant i <= |pages| && ok
        invariant docs == Overlay(old(docs), saved, f) && All(saved, valid)
        invariant saved + PagesUrls(pages[i..]) == PagesUrls(pages)
        invariant fault.at.None? ==> EvenPages(pages[..i])
      {
        assert pages[i..][0] == pages[i] && pages[i..][1..] == pages[i + 1..];
        assert pages[..i + 1] == pages[..i] + [pages[i]];
        ghost var d, more := docs, {};
        ok := Try();
        if !ok {
          return;
        }
        ok, more := SavePage(pages[i]);
        assert docs == Overlay(d, more, f);
        OverlayTwice(old(docs), saved, more, f);
        SaveStep(saved, more, ScanUrls(pages[i]), PagesUrls(pages[i + 1..]), PagesUrls(pages[i..]), PagesUrls(pages),
                 ok, valid);
        saved := saved + more;
        i := i + 1;
        if !ok {
          return;
        }
      }
      assert pages[..i] == pages;
    }

    /** Checkpoint. Each stored document is the valid tuple of a scanned URL, and nothing else changes;
        success means that every scanned URL was stored. */
    method Checkpoint(next: seq<seq<string>>, barren: seq<seq<string>>, dead: seq<seq<string>>)
      returns (ok: bool, ghost saved: set<Url>)
      modifies this`ops, this`docs
      ensures docs == Saved(old(docs), facts, saved) && All(saved, Sound(parses, facts))
      ensures saved <= PagesUrls(next + barren + dead)
      ensures saved != {} || ok ==> startupComplete
      ensures ok ==> saved == PagesUrls(next + barren + dead)
      ensures fault.at.None? ==> (ok <==> && startupComplete && EvenPages(next + barren + dead)
                                          && All(PagesUrls(next + barren + dead), Sound(parses, facts)))
    {
      saved, ok := {}, startupComplete;
      if ok {
        ok := Try();
      }
      if ok {
        ok, saved := SaveScan(next + barren + dead);
      }
      if ok {
        ok := Try();
      }
    }
  }

  function Overlay<V>(m: map<Url, V>, us: set<Url>, f: Url -> V): map<Url, V> {
    m + map u | u in us :: f(u)
  }

  lemma OverlayTwice<V>(m: map<Url, V>, us: set<Url>, vs: set<Url>, f: Url -> V)
    ensures Overlay(Overlay(m, us, f), vs, f) == Overlay(m, us + vs, f)
  {
  }

  lemma OverlayOne<V>(m: map<Url, V>, us: set<Url>, u: Url, f: Url -> V)
    ensures Overlay(m, us, f)[u := f(u)] == Overlay(m, us + {u}, f)
  {
  }

  /** The document a checkpoint of the facts stores for a URL. */
  function StoredDoc(facts: Facts): Url -> Document {
    u => EncodeRow(ReadRow(facts, u))
  }

  /** docs with those of the URLs in us replaced by what the facts say. */
  function Saved(docs: map<Url, Document>, facts: Facts, us: set<Url>): map<Url, Document> {
    Overlay(docs, us, StoredDoc(facts))
  }

  /** Whether the tuple of a URL passes `validate`. */
  function Sound(parses: Url -> bool, facts: Facts): Url -> bool {
    u => ValidRow(parses, ReadRow(facts, u))
  }

  predicate All(us: set<Url>, p: Url -> bool) {
    forall u :: u in us ==> p(u)
  }

  lemma {:induction false} ScanAppend(a: seq<string>, b: seq<string>, half: nat)
    requires |a| == 2 * half
    ensures ScanUrls(a + b) == ScanUrls(a) + ScanUrls(b)
    decreases half
  {
    if a == [] {
      assert a + b == b;
    } else {
      assert (a + b)[2..] == a[2..] + b;
      ScanAppend(a[2..], b, half - 1);
    }
  }

  lemma ScanSplit(pairs: seq<string>, half: nat)
    requires 2 * half <= |pairs|
    ensures ScanUrls(pairs) == ScanUrls(pairs[..2 * half]) + ScanUrls(pairs[2 * half..])
  {
    assert pairs == pairs[..2 * half] + pairs[2 * half..];
    ScanAppend(pairs[..2 * half], pairs[2 * half..], half);
  }

  function PagesUrls(pages: seq<seq<string>>): set<Url> {
    if pages == [] then {} else ScanUrls(pages[0]) + PagesUrls(pages[1..])
  }

  predicate EvenPages(pages: seq<seq<string>>) {
    forall p :: p in pages ==> |p| % 2 == 0
  }

  /** One batch of what is left to save has been tried. */
  lemma SaveStep(saved: set<Url>, more: set<Url>, batch: set<Url>, after: set<Url>, left: set<Url>, all: set<Url>,
                 ok: bool, valid: Url -> bool)
    requires saved + left == all && left == batch + after && more <= batch && (ok ==> more == batch)
    requires All(saved, valid) && All(more, valid)
    ensures saved + more <= all && All(saved + more, valid) && (ok ==> saved + more + after == all)
    ensures All(all, valid) ==> All(batch, valid)
  {
  }

  /** The members of a scan reply, which alternates members and values. */
  function ScanUrls(pairs: seq<string>): set<Url> {
    if pairs == [] then {} else if |pairs| == 1 then {pairs[0]} else {pairs[0]} + ScanUrls(pairs[2..])
  }

  /** They are the entries at the even positions. */
  lemma {:induction false} ScanMember(pairs: seq<string>, k: nat)
    requires 2 * k < |pairs|
    ensures pairs[2 * k] in ScanUrls(pairs)
    decreases k
  {
    if k > 0 {
      assert pairs[2..][2 * (k - 1)] == pairs[2 * k];
      ScanMember(pairs[2..], k - 1);
    }
  }

  lemma {:induction false} MemberScanned(pairs: seq<string>, u: Url) returns (k: nat)
    requires u in ScanUrls(pairs)
    ensures 2 * k < |pairs| && pairs[2 * k] == u
    decreases |pairs|
  {
    if pairs[0] == u {
      k := 0;
    } else {
      k := MemberScanned(pairs[2..], u);
      assert pairs[2 * (k + 1)] == pairs[2..][2 * k];
      k := k + 1;
    }
  }
}
