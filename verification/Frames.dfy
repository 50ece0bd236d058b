/** What a script leaves alone: a URL none of its writes is about keeps its jobs, scores and counters. */
module Frames {
  import opened Keyspace
  import opened Scripts

  predicate About(w: Write, u: Url) {
    match w
    case Incr => false
    case Claim(_) => false
    case MoveReady => true
    case PushReady(j) => j.url == u
    case RemReady(j) => j.url == u
    case RemProcessing(j) => j.url == u
    case SetLease(j, _) => j.url == u
    case RemLease(j) => j.url == u
    case SetDelayed(j, _) => j.url == u
    case RemDelayed(j) => j.url == u
    case _ => w.url == u
  }

  predicate Avoids(ws: Writes, u: Url) {
    match ws
    case Done => true
    case Do(w, rest) => !About(w, u) && Avoids(rest, u)
  }

  predicate SameAt<V(==)>(m: map<Url, V>, n: map<Url, V>, u: Url) {
    (u in m <==> u in n) && (u in m && u in n ==> m[u] == n[u])
  }

  ghost predicate SameJobs(s: State, t: State, u: Url) {
    && (forall j: Job :: j.url == u ==> (j in s.ready <==> j in t.ready))
    && (forall j: Job :: j.url == u ==> (j in s.processing <==> j in t.processing))
    && (forall j: Job :: j.url == u ==> (j in s.delayed <==> j in t.delayed))
    && (forall j: Job :: j.url == u && j in s.delayed && j in t.delayed ==> s.delayed[j] == t.delayed[j])
  }

  ghost predicate SameFacts(s: State, t: State, u: Url) {
    && SameAt(s.next, t.next, u) && SameAt(s.dead, t.dead, u) && SameAt(s.barren, t.barren, u)
    && SameAt(s.attempts, t.attempts, u) && SameAt(s.strikes, t.strikes, u)
  }

  ghost predicate SameUrl(s: State, t: State, u: Url) {
    SameJobs(s, t, u) && SameFacts(s, t, u)
  }

  lemma WriteKeepsQueues(s: State, w: Write, u: Url, t: State)
    requires !About(w, u) && t == Apply(s, w)
    ensures forall j: Job :: j.url == u ==> (j in s.ready <==> j in t.ready)
    ensures forall j: Job :: j.url == u ==> (j in s.processing <==> j in t.processing)
  {
    match w
    case RemReady(j) => RemoveOnly(s.ready, j);
    case RemProcessing(j) => RemoveOnly(s.processing, j);
    case _ =>
  }

  lemma WriteKeepsDelayed(s: State, w: Write, u: Url, t: State)
    requires !About(w, u) && t == Apply(s, w)
    ensures forall j: Job :: j.url == u ==> (j in s.delayed <==> j in t.delayed)
    ensures forall j: Job :: j.url == u && j in s.delayed && j in t.delayed ==> s.delayed[j] == t.delayed[j]
  {
  }

  lemma WriteKeepsFacts(s: State, w: Write, u: Url)
    requires !About(w, u)
    ensures SameFacts(s, Apply(s, w), u)
  {
  }

  lemma WriteFrame(s: State, w: Write, u: Url, t: State)
    requires !About(w, u) && t == Apply(s, w)
    ensures SameUrl(s, t, u)
  {
    WriteKeepsQueues(s, w, u, t);
    WriteKeepsDelayed(s, w, u, t);
    WriteKeepsFacts(s, w, u);
  }

  lemma SameUrlTrans(s: State, t: State, r: State, u: Url)
    requires SameUrl(s, t, u) && SameUrl(t, r, u)
    ensures SameUrl(s, r, u)
  {
  }

  lemma {:induction false} PrefixFrame(s: State, ws: Writes, k: nat, u: Url)
    requires Avoids(ws, u)
    ensures SameUrl(s, RunPrefix(s, ws, k), u)
    decreases ws
  {
    if k > 0 && ws.Do? {
      var t := Apply(s, ws.first);
      WriteFrame(s, ws.first, u, t);
      PrefixFrame(t, ws.rest, k - 1, u);
      SameUrlTrans(s, t, RunPrefix(t, ws.rest, k - 1), u);
    }
  }

  /** The URLs a call is about. */
  function Subjects(s: State, c: Call): set<Url> {
    match c
    case Lease(_) => if s.ready == [] then {} else {Last(s.ready).url}
    case AdmitVideo(u, _, _) => {u}
    case AdmitListing(u, _) => {u}
    case SeedListing(u) => {u}
    case Schedule(_, urls) => set u | u in urls
    case Promote(_, jobs) => set j | j in jobs :: j.url
    case Reap(_, jobs) => set j | j in jobs :: j.url
    case Sweep => set j | j in SweepItems(s) :: j.url
    case _ => {c.job.url}
  }

  lemma {:induction false} ScheduleAvoids(s: State, due: seq<Url>, now: int, u: Url)
    requires u !in due
    ensures Avoids(ScheduleScript(s, due, now), u)
    decreases |due|
  {
    if due != [] {
      var v := due[0];
      assert v in due;
      if v in s.dead && s.dead[v].until == 0 {
        ScheduleAvoids(Apply(s, RemNext(v)), due[1..], now, u);
      } else if v in s.dead && s.dead[v].until > now {
        ScheduleAvoids(Apply(s, SetNext(v, s.dead[v].until)), due[1..], now, u);
      } else {
        ScheduleAvoids(Scheduled(s, v), due[1..], now, u);
        var rest := ScheduleScript(Scheduled(s, v), due[1..], now);
        assert Avoids(Do(SetNext(v, PENDING_SCORE), rest), u);
        assert Avoids(Do(PushReady(Fresh(s, v)), Do(SetNext(v, PENDING_SCORE), rest)), u);
      }
    }
  }

  lemma {:induction false} PromoteAvoids(s: State, due: seq<Job>, u: Url)
    requires forall j :: j in due ==> j.url != u
    ensures Avoids(PromoteScript(s, due), u)
    decreases |due|
  {
    if due != [] {
      PromoteAvoids(Promoted(s, due[0]), due[1..], u);
      assert Avoids(Do(RemDelayed(due[0]), PromoteScript(Promoted(s, due[0]), due[1..])), u);
    }
  }

  lemma {:induction false} ReapAvoids(s: State, expired: seq<Job>, u: Url)
    requires forall j :: j in expired ==> j.url != u
    ensures Avoids(ReapScript(s, expired), u)
    decreases |expired|
  {
    if expired != [] {
      var j := expired[0];
      ReapAvoids(s, expired[1..], u);
      ReapAvoids(Reaped(s, j), expired[1..], u);
      var rest := Do(RemProcessing(j), ReapScript(Reaped(s, j), expired[1..]));
      assert Avoids(rest, u);
      assert Avoids(Do(PushReady(Fresh(s, j.url)), rest), u);
      assert Avoids(Do(Incr, Do(PushReady(Fresh(s, j.url)), rest)), u);
    }
  }

  lemma {:induction false} SweepAvoids(s: State, items: seq<Job>, u: Url)
    requires forall j :: j in items ==> j.url != u
    ensures Avoids(SweepScript(s, items), u)
    decreases |items|
  {
    if items != [] {
      var j := items[0];
      SweepAvoids(s, items[1..], u);
      SweepAvoids(Swept(s, j), items[1..], u);
      assert Avoids(Do(RemProcessing(j), SweepScript(Swept(s, j), items[1..])), u);
    }
  }

  lemma CloseAvoids(j: Job, u: Url)
    requires j.url != u
    ensures Avoids(Do(RemProcessing(j), Do(RemAttempts(j.url), Do(RemStrikes(j.url), Done))), u)
  {
    assert Avoids(Do(RemAttempts(j.url), Do(RemStrikes(j.url), Done)), u);
  }

  lemma BuryAvoids(j: Job, d: Dead, u: Url)
    requires j.url != u
    ensures Avoids(Bury(j, d), u)
  {
    CloseAvoids(j, u);
    var tail := Do(RemProcessing(j), Do(RemAttempts(j.url), Do(RemStrikes(j.url), Done)));
    assert Avoids(Do(SetDead(j.url, d), tail), u);
  }

  lemma StrikeAvoids(s: State, j: Job, kind: FailClass, tail: Writes, u: Url)
    requires j.url != u && Avoids(tail, u)
    ensures Avoids(Strike(s, j, kind, tail), u)
  {
    var rest := if kind.Strikeable? then Do(SetStrikes(j.url, Strikes(s, j.url, kind)), tail) else tail;
    assert Avoids(rest, u);
    assert Avoids(Do(SetAttempts(j.url, Get(s.attempts, j.url) + 1), rest), u);
  }

  lemma FailAvoids(cfg: Config, s: State, c: Call, u: Url)
    requires cfg.Valid() && c.Fail? && c.job.url != u
    ensures Avoids(FailScript(cfg, s, c.job, c.kind, c.now), u)
  {
    var j := c.job;
    BuryAvoids(j, Dead(EXHAUSTED, QuarantineUntil(cfg, j.url, c.now)), u);
    StrikeAvoids(s, j, c.kind, Bury(j, Dead(EXHAUSTED, QuarantineUntil(cfg, j.url, c.now))), u);
    var at := c.now + Backoff(Ladder(cfg, c.kind), Get(s.attempts, j.url) + 1);
    assert Avoids(Do(SetDelayed(Fresh(s, j.url), at), Do(RemProcessing(j), Done)), u);
    assert Avoids(Delay(Fresh(s, j.url), j, at), u);
    StrikeAvoids(s, j, c.kind, Delay(Fresh(s, j.url), j, at), u);
  }

  lemma CompleteAvoids(cfg: Config, s: State, c: Call, u: Url)
    requires c.CompleteListing? && c.job.url != u
    ensures Avoids(CompleteScript(cfg, s, c.job, c.newChildren, c.now), u)
  {
    var j := c.job;
    CloseAvoids(j, u);
    var b := Barren(s, j.url, c.newChildren);
    var w := SetNext(j.url, c.now + Ttl(cfg, j.url, b));
    var tail := Do(RemDead(j.url), Do(RemProcessing(j), Do(RemAttempts(j.url), Do(RemStrikes(j.url), Done))));
    assert Avoids(tail, u);
    assert Avoids(Do(w, tail), u);
    assert Avoids(Do(SetBarren(j.url, b), Do(w, tail)), u);
  }

  lemma AdmitAvoids(s: State, v: Url, now: int, added: bool, u: Url)
    requires v != u
    ensures Avoids(AdmitVideoScript(s, v, now, added), u) && Avoids(AdmitListingScript(s, v, now), u)
  {
    var j := Fresh(s, v);
    var rest := Do(Claim(v), if added then Done else Do(RemReady(j), Done));
    assert Avoids(rest, u);
    assert Avoids(Do(PushReady(j), rest), u);
    assert Avoids(Do(Incr, Do(PushReady(j), rest)), u);
    assert Avoids(Do(PushReady(j), Do(SetNext(v, PENDING_SCORE), Done)), u);
    assert Avoids(Do(Incr, Do(PushReady(j), Do(SetNext(v, PENDING_SCORE), Done))), u);
  }

  lemma NackAvoids(s: State, j: Job, u: Url)
    requires j.url != u
    ensures Avoids(NackScript(s, j), u) && Avoids(AckScript(s, j), u)
  {
    CloseAvoids(j, u);
    assert Avoids(Do(PushReady(Fresh(s, j.url)), Do(RemProcessing(j), Done)), u);
    assert Avoids(Do(Incr, Do(PushReady(Fresh(s, j.url)), Do(RemProcessing(j), Done))), u);
  }

  lemma ScriptAvoids(cfg: Config, s: State, c: Call, u: Url)
    requires cfg.Valid() && !c.Lease? && u !in Subjects(s, c)
    ensures Avoids(Script(cfg, s, c), u)
  {
    match c
    case AdmitVideo(v, now, added) => AdmitAvoids(s, v, now, added, u);
    case AdmitListing(v, now) => AdmitAvoids(s, v, now, true, u);
    case SeedListing(_) =>
    case Schedule(now, urls) => ScheduleAvoids(s, urls, now, u);
    case Ack(j) => NackAvoids(s, j, u);
    case CompleteListing(_, _, _) => CompleteAvoids(cfg, s, c, u);
    case Nack(j) => NackAvoids(s, j, u);
    case Fail(_, _, _) => FailAvoids(cfg, s, c, u);
    case Terminal(j, reason, now) => BuryAvoids(j, Dead(reason, QuarantineUntil(cfg, j.url, now)), u);
    case Promote(_, jobs) => PromoteAvoids(s, jobs, u);
    case Reap(_, jobs) => ReapAvoids(s, jobs, u);
    case Sweep => SweepAvoids(s, SweepItems(s), u);
  }

  /** A call changes nothing for a URL it is not about. */
  lemma CallFrame(cfg: Config, s: State, c: Call, u: Url)
    requires cfg.Valid() && !c.Lease? && u !in Subjects(s, c)
    ensures SameUrl(s, Exec(cfg, s, c), u)
  {
    ScriptAvoids(cfg, s, c, u);
    var ws := Script(cfg, s, c);
    PrefixFrame(s, ws, Length(ws), u);
    WholePrefix(s, ws, Length(ws));
  }

  /** Lease changes only where the job it takes is kept, and no per-URL fact. */
  lemma LeaseFrame(cfg: Config, s: State, c: Call, u: Url)
    requires cfg.Valid() && c.Lease?
    ensures SameFacts(s, Exec(cfg, s, c), u)
    ensures u !in Subjects(s, c) ==> SameUrl(s, Exec(cfg, s, c), u)
  {
    if s.ready != [] {
      var s1 := Apply(s, MoveReady);
      var w := SetLease(Last(s.ready), c.now + cfg.leaseTimeout);
      Run2(s, MoveReady, w, Done);
      assert s.ready == s1.ready + [Last(s.ready)];
      assert s1.processing == [Last(s.ready)] + s.processing;
    }
  }

  lemma MoveFrame(s: State, u: Url, t: State)
    requires s.ready != [] && Last(s.ready).url != u && t == Apply(s, MoveReady)
    ensures SameUrl(s, t, u)
  {
    assert s.ready == t.ready + [Last(s.ready)];
    assert t.processing == [Last(s.ready)] + s.processing;
  }

  lemma LeaseCutFrame(cfg: Config, s: State, c: Call, k: nat, u: Url)
    requires cfg.Valid() && c.Lease? && u !in Subjects(s, c)
    ensures SameUrl(s, RunPrefix(s, Script(cfg, s, c), k), u)
  {
    if s.ready != [] && k > 0 {
      var s1 := Apply(s, MoveReady);
      var ws := Do(SetLease(Last(s.ready), c.now + cfg.leaseTimeout), Done);
      MoveFrame(s, u, s1);
      PrefixFrame(s1, ws, k - 1, u);
      SameUrlTrans(s, s1, RunPrefix(s1, ws, k - 1), u);
    }
  }

  /** The same for a call that stops after any of its writes. */
  lemma CutFrame(cfg: Config, s: State, c: Call, k: nat, u: Url)
    requires cfg.Valid() && u !in Subjects(s, c)
    ensures SameUrl(s, RunPrefix(s, Script(cfg, s, c), k), u)
  {
    if c.Lease? {
      LeaseCutFrame(cfg, s, c, k, u);
    } else {
      ScriptAvoids(cfg, s, c, u);
      PrefixFrame(s, Script(cfg, s, c), k, u);
    }
  }
}
