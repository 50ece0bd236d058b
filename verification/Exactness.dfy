/** The invariant of runs in which every script completes: a URL has at most one live job, a listing
    with one is PENDING, dead and live exclude each other, and the failure counters stay inside their
    bounds. Module `Runs` adds which PENDING listings have no job: those discarded by an Ack. */
module Exactness {
  import opened Keyspace
  import opened Scripts
  import opened Discipline
  import opened CrashSafety
  import opened Effects

  ghost predicate AllLeased(s: State) {
    forall j :: j in s.processing ==> j in s.lease
  }

  /** At most one live job per URL. */
  ghost predicate Solo(s: State) {
    forall i, j :: IsLive(s, i) && IsLive(s, j) && i.url == j.url ==> i == j
  }

  /** A live listing is PENDING, a live video is claimed, and neither is dead. */
  ghost predicate Marked(cfg: Config, s: State) {
    forall j :: IsLive(s, j) ==>
      j.url !in s.dead && if cfg.IsVideo(j.url) then j.url in s.claimed else Pending(s, j.url)
  }

  /** A quarantined listing is not PENDING, and not due before its quarantine ends. */
  ghost predicate Quarantined(cfg: Config, s: State) {
    forall u :: u in s.dead && !cfg.IsVideo(u) ==> u in s.next && s.dead[u].until <= s.next[u] < PENDING_SCORE
  }

  ghost predicate Counted(cfg: Config, s: State) {
    && (forall u :: u in s.attempts ==> LiveUrl(s, u) && s.attempts[u] >= 1)
    && (forall u :: u in s.strikes ==> u in s.attempts && 1 <= s.strikes[u] <= s.attempts[u])
    && (forall u :: u in s.strikes ==> s.strikes[u] < cfg.maxStrikes)
  }

  ghost predicate Exact(cfg: Config, s: State) {
    && Consistent(cfg, s) && AllLeased(s) && Solo(s)
    && Marked(cfg, s) && Quarantined(cfg, s) && Counted(cfg, s)
  }

  lemma EmptyExact(cfg: Config)
    requires cfg.Valid()
    ensures Exact(cfg, EMPTY)
  {
  }

  // ---- how a completed script changes the set of live jobs ----

  ghost predicate SameLive(s: State, t: State) {
    forall x :: IsLive(t, x) <==> IsLive(s, x)
  }

  ghost predicate Added(s: State, t: State, i: Job) {
    forall x :: IsLive(t, x) <==> IsLive(s, x) || x == i
  }

  ghost predicate Dropped(s: State, t: State, j: Job) {
    forall x :: IsLive(t, x) <==> IsLive(s, x) && x != j
  }

  ghost predicate Replaced(s: State, t: State, j: Job, i: Job) {
    forall x :: IsLive(t, x) <==> (IsLive(s, x) && x != j) || x == i
  }

  lemma EnqueuedLive(s: State, u: Url)
    ensures Added(s, Enqueued(s, u), Fresh(s, u))
  {
    assert Enqueued(s, u).ready == [Fresh(s, u)] + s.ready;
  }

  lemma AdmittedLive(s: State, u: Url)
    ensures Added(s, Admitted(s, u), Fresh(s, u)) && (AllLeased(s) ==> AllLeased(Admitted(s, u)))
  {
  }

  lemma ScheduledLive(s: State, u: Url)
    ensures Added(s, Scheduled(s, u), Fresh(s, u)) && (AllLeased(s) ==> AllLeased(Scheduled(s, u)))
    ensures Scheduled(s, u).dead == s.dead - {u} && Scheduled(s, u).next == s.next[u := PENDING_SCORE]
    ensures Scheduled(s, u).attempts == s.attempts && Scheduled(s, u).strikes == s.strikes
    ensures Scheduled(s, u).claimed == s.claimed
  {
    EnqueuedLive(Forgiven(s, u), u);
    assert Fresh(Forgiven(s, u), u) == Fresh(s, u);
  }

  lemma SeedLive(s: State, u: Url)
    ensures var t := s.(next := s.next[u := 0]); SameLive(s, t) && (AllLeased(s) ==> AllLeased(t))
  {
  }

  lemma ProcessingDropped(s: State, j: Job)
    requires Ordered(s) && Identified(s) && j in s.processing
    ensures Dropped(s, Apply(s, RemProcessing(j)), j)
  {
    RemoveOnly(s.processing, j);
    RemoveDescending(s.processing, j);
    assert IsLive(s, j);
    assert j !in s.ready;
    forall x | x in s.delayed
      ensures x != j
    {
      assert IsLive(s, x);
    }
  }

  lemma LiveUrlStays(s: State, t: State, j: Job, i: Job)
    requires Replaced(s, t, j, i) && i.url == j.url
    ensures forall u :: LiveUrl(s, u) ==> LiveUrl(t, u)
  {
    forall u | LiveUrl(s, u)
      ensures LiveUrl(t, u)
    {
      var x :| IsLive(s, x) && x.url == u;
      assert IsLive(t, if x == j then i else x);
    }
  }

  /** j gives way to i and no per-URL fact but a failure counter changes. */
  ghost predicate Swapped(s: State, t: State, j: Job, i: Job) {
    && Replaced(s, t, j, i) && i.url == j.url && AllLeased(t)
    && t.next == s.next && t.dead == s.dead && t.claimed == s.claimed
  }

  /** A job is replaced by a fresh one of the same URL. */
  lemma ReplaceExact(cfg: Config, s: State, t: State, j: Job, i: Job)
    requires Exact(cfg, s) && Consistent(cfg, t) && IsLive(s, j) && Swapped(s, t, j, i) && Counted(cfg, t)
    ensures Exact(cfg, t)
  {
  }

  /** A URL without work gets its one job. */
  lemma AddExact(cfg: Config, s: State, t: State, i: Job)
    requires Exact(cfg, s) && Consistent(cfg, t) && AllLeased(t)
    requires !LiveUrl(s, i.url) && Added(s, t, i)
    requires t.attempts == s.attempts && t.strikes == s.strikes
    requires t.dead == s.dead - {i.url} && s.claimed <= t.claimed
    requires if cfg.IsVideo(i.url) then t.next == s.next && i.url in t.claimed
             else t.next == s.next[i.url := PENDING_SCORE]
    ensures Exact(cfg, t)
  {
    AddMarks(cfg, s, t, i);
    forall u | LiveUrl(s, u)
      ensures LiveUrl(t, u)
    {
      var x :| IsLive(s, x) && x.url == u;
      assert IsLive(t, x);
    }
  }

  lemma AddMarks(cfg: Config, s: State, t: State, i: Job)
    requires Solo(s) && Marked(cfg, s) && Quarantined(cfg, s) && Classed(cfg, s) && !LiveUrl(s, i.url) && Added(s, t, i)
    requires t.dead == s.dead - {i.url} && s.claimed <= t.claimed
    requires if cfg.IsVideo(i.url) then t.next == s.next && i.url in t.claimed
             else t.next == s.next[i.url := PENDING_SCORE]
    ensures Solo(t) && Marked(cfg, t) && Quarantined(cfg, t)
  {
    forall x | IsLive(s, x)
      ensures x.url != i.url
    {
    }
  }

  /** A URL's one job is resolved. */
  lemma DropExact(cfg: Config, s: State, t: State, j: Job)
    requires Exact(cfg, s) && Consistent(cfg, t) && AllLeased(t)
    requires IsLive(s, j) && Dropped(s, t, j)
    requires t.attempts == s.attempts - {j.url} && t.strikes == s.strikes - {j.url} && t.claimed == s.claimed
    requires t.next - {j.url} == s.next - {j.url} && t.dead - {j.url} == s.dead - {j.url}
    requires j.url in t.dead && !cfg.IsVideo(j.url) ==>
               j.url in t.next && t.dead[j.url].until <= t.next[j.url] < PENDING_SCORE
    ensures Exact(cfg, t)
  {
    DropMarks(cfg, s, t, j);
    forall u | LiveUrl(s, u) && u != j.url
      ensures LiveUrl(t, u)
    {
      var x :| IsLive(s, x) && x.url == u;
      assert IsLive(t, x);
    }
  }

  lemma DropMarks(cfg: Config, s: State, t: State, j: Job)
    requires Solo(s) && Marked(cfg, s) && Quarantined(cfg, s) && IsLive(s, j) && Dropped(s, t, j)
    requires t.claimed == s.claimed
    requires t.next - {j.url} == s.next - {j.url} && t.dead - {j.url} == s.dead - {j.url}
    requires j.url in t.dead && !cfg.IsVideo(j.url) ==>
               j.url in t.next && t.dead[j.url].until <= t.next[j.url] < PENDING_SCORE
    ensures Solo(t) && Marked(cfg, t) && Quarantined(cfg, t)
  {
    forall x | IsLive(t, x)
      ensures x.url != j.url
    {
      assert IsLive(s, x) && x != j;
    }
    forall u | u != j.url
      ensures u in t.next <==> u in s.next
      ensures u in t.dead <==> u in s.dead
      ensures u in t.next ==> t.next[u] == s.next[u]
      ensures u in t.dead ==> t.dead[u] == s.dead[u]
    {
      assert u in t.next - {j.url} <==> u in t.next;
      assert u in t.dead - {j.url} <==> u in t.dead;
    }
  }

  /** Nothing happens to the work itself. */
  lemma SameExact(cfg: Config, s: State, t: State)
    requires Exact(cfg, s) && Consistent(cfg, t) && AllLeased(t) && SameLive(s, t)
    requires t.attempts == s.attempts && t.strikes == s.strikes && s.claimed <= t.claimed
    requires forall u :: u in t.dead ==> u in s.dead && t.dead[u] == s.dead[u]
    requires forall u :: u in s.next ==> u in t.next && t.next[u] == s.next[u]
    ensures Exact(cfg, t)
  {
    forall u | LiveUrl(s, u)
      ensures LiveUrl(t, u)
    {
      var x :| IsLive(s, x) && x.url == u;
      assert IsLive(t, x);
    }
  }

  // ---- the scripts, run to their end ----

  lemma ExecReached(cfg: Config, s: State, c: Call)
    requires cfg.Valid() && Consistent(cfg, s) && Enabled(cfg, s, c)
    ensures Reached(cfg, s, c, Exec(cfg, s, c))
  {
    var ws := Script(cfg, s, c);
    CrashSafe(cfg, s, c, Length(ws));
    WholePrefix(s, ws, Length(ws));
  }

  lemma ExecConsistent(cfg: Config, s: State, c: Call)
    requires cfg.Valid() && Consistent(cfg, s) && Enabled(cfg, s, c)
    ensures Consistent(cfg, Exec(cfg, s, c))
  {
    ExecReached(cfg, s, c);
  }

  lemma LeaseLive(s: State, at: int)
    requires s.ready != [] && AllLeased(s)
    ensures var t := Apply(Apply(s, MoveReady), SetLease(Last(s.ready), at));
            AllLeased(t) && SameLive(s, t)
  {
    var s1 := Apply(s, MoveReady);
    assert s.ready == s1.ready + [Last(s.ready)];
    assert s1.processing == [Last(s.ready)] + s.processing;
  }

  lemma LeaseExact(cfg: Config, s: State, c: Call)
    requires cfg.Valid() && Exact(cfg, s) && c.Lease?
    ensures Exact(cfg, Exec(cfg, s, c))
  {
    ExecConsistent(cfg, s, c);
    LeaseRun(cfg, s, c);
    if s.ready != [] {
      LeaseLive(s, c.now + cfg.leaseTimeout);
      SameExact(cfg, s, Exec(cfg, s, c));
    }
  }

  lemma VideoAddedExact(cfg: Config, s: State, u: Url, t: State)
    requires Exact(cfg, s) && cfg.IsVideo(u) && u !in s.claimed && u !in s.dead
    requires t == Admitted(s, u) && Consistent(cfg, t)
    ensures Exact(cfg, t)
  {
    AdmittedLive(s, u);
    assert s.dead - {u} == s.dead;
    AddExact(cfg, s, t, Fresh(s, u));
  }

  lemma VideoRefusedExact(cfg: Config, s: State, u: Url, t: State)
    requires Exact(cfg, s) && t == Refused(s, u) && Consistent(cfg, t)
    ensures Exact(cfg, t)
  {
    SameExact(cfg, s, t);
  }

  lemma AdmitVideoExact(cfg: Config, s: State, c: Call)
    requires cfg.Valid() && Exact(cfg, s) && c.AdmitVideo? && Enabled(cfg, s, c)
    ensures Exact(cfg, Exec(cfg, s, c))
  {
    if c.url !in s.dead {
      ExecConsistent(cfg, s, c);
      AdmitVideoRun(cfg, s, c);
      if c.added {
        VideoAddedExact(cfg, s, c.url, Exec(cfg, s, c));
      } else {
        VideoRefusedExact(cfg, s, c.url, Exec(cfg, s, c));
      }
    }
  }

  lemma NotPendingNotLive(cfg: Config, s: State, u: Url)
    requires Marked(cfg, s) && !cfg.IsVideo(u) && !Pending(s, u)
    ensures !LiveUrl(s, u)
  {
  }

  lemma ScheduledExact(cfg: Config, s: State, u: Url)
    requires Exact(cfg, s) && Consistent(cfg, Scheduled(s, u)) && !cfg.IsVideo(u) && !Pending(s, u)
    ensures Exact(cfg, Scheduled(s, u))
  {
    ScheduledLive(s, u);
    NotPendingNotLive(cfg, s, u);
    AddExact(cfg, s, Scheduled(s, u), Fresh(s, u));
  }

  lemma AdmitListingExact(cfg: Config, s: State, c: Call)
    requires cfg.Valid() && Exact(cfg, s) && c.AdmitListing? && Enabled(cfg, s, c)
    ensures Exact(cfg, Exec(cfg, s, c))
  {
    ExecConsistent(cfg, s, c);
    if !(c.url in s.dead && s.dead[c.url].Blocks(c.now)) {
      AdmitListingRun(cfg, s, c);
      if c.url in s.next && s.next[c.url] > c.now {
        SameExact(cfg, s, Forgiven(s, c.url));
      } else {
        ScheduledExact(cfg, s, c.url);
      }
    }
  }

  lemma SeededExact(cfg: Config, s: State, u: Url, t: State)
    requires Exact(cfg, s) && u !in s.next && t == s.(next := s.next[u := 0]) && Consistent(cfg, t)
    ensures Exact(cfg, t)
  {
    SeedLive(s, u);
    SameExact(cfg, s, t);
  }

  lemma SeedExact(cfg: Config, s: State, c: Call)
    requires cfg.Valid() && Exact(cfg, s) && c.SeedListing? && Enabled(cfg, s, c)
    ensures Exact(cfg, Exec(cfg, s, c))
  {
    ExecConsistent(cfg, s, c);
    if c.url !in s.next {
      Run1(s, SetNext(c.url, 0));
      SeededExact(cfg, s, c.url, Exec(cfg, s, c));
    }
  }

  /** Each due listing is a known URL whose due time has passed. */
  ghost predicate AllDue(s: State, due: seq<Url>, now: int) {
    && (forall u :: u in due ==> u in s.next && s.next[u] <= now)
    && (forall a, b :: 0 <= a < b < |due| ==> due[a] != due[b])
  }

  /** Every due listing admitted, one after the other. */
  function ScheduledAll(s: State, due: seq<Url>): State
    decreases |due|
  {
    if due == [] then s else ScheduledAll(Scheduled(s, due[0]), due[1..])
  }

  lemma DueRest(s: State, due: seq<Url>, now: int)
    requires due != [] && AllDue(s, due, now)
    ensures AllDue(Scheduled(s, due[0]), due[1..], now)
  {
    ScheduledLive(s, due[0]);
  }

  lemma DueAdmitted(cfg: Config, s: State, u: Url, now: int)
    requires Exact(cfg, s) && u in s.next && s.next[u] <= now < PENDING_SCORE
    ensures Exact(cfg, Scheduled(s, u)) && !(u in s.dead && s.dead[u].Blocks(now))
  {
    ScheduledConsistent(cfg, s, Sweep, s, u);
    ScheduledExact(cfg, s, u);
  }

  lemma PendOne(m: map<Url, int>, due: seq<Url>)
    requires due != []
    ensures m[due[0] := PENDING_SCORE] + (map u | u in due[1..] :: PENDING_SCORE)
            == m + map u | u in due :: PENDING_SCORE
  {
    assert due == [due[0]] + due[1..];
    var a := map u | u in due[1..] :: PENDING_SCORE;
    var b := map u | u in due :: PENDING_SCORE;
    forall u
      ensures u in b <==> u == due[0] || u in a
    {
    }
  }

  lemma {:induction false} ScheduledAllNext(s: State, due: seq<Url>)
    ensures ScheduledAll(s, due).next == s.next + map u | u in due :: PENDING_SCORE
    decreases |due|
  {
    if due != [] {
      ScheduledLive(s, due[0]);
      ScheduledAllNext(Scheduled(s, due[0]), due[1..]);
      PendOne(s.next, due);
    }
  }

  /** On an exact state no due listing is ever blocked: each one is admitted. */
  lemma {:induction false} ScheduleExact(cfg: Config, s: State, due: seq<Url>, now: int)
    requires Exact(cfg, s) && now < PENDING_SCORE && AllDue(s, due, now)
    ensures Exact(cfg, ScheduledAll(s, due))
    ensures Run(s, ScheduleScript(s, due, now)) == ScheduledAll(s, due)
    ensures ScheduleCount(s, due, now) == |due|
    decreases |due|
  {
    if due != [] {
      DueAdmitted(cfg, s, due[0], now);
      ScheduleRun(s, due, now);
      DueRest(s, due, now);
      ScheduleExact(cfg, Scheduled(s, due[0]), due[1..], now);
    }
  }

  // ---- resolutions ----

  lemma ClosedLive(s: State, j: Job)
    requires Ordered(s) && Identified(s) && j in s.processing
    ensures Dropped(s, Closed(s, j), j)
    ensures Closed(s, j).processing == Remove(s.processing, j)
  {
    ProcessingDropped(s, j);
    var s1 := Apply(s, RemProcessing(j));
    assert SameLive(s1, Closed(s, j));
  }

  /** Once the lease is gone and the processing entry is gone, the rest is still leased. */
  lemma StillLeased(s: State, j: Job, t: State)
    requires AllLeased(s) && Descending(s.processing)
    requires t.processing == Remove(s.processing, j) && t.lease == s.lease - {j}
    ensures AllLeased(t)
  {
    RemoveOnly(s.processing, j);
    RemoveDescending(s.processing, j);
  }

  /** t is s with the lease of j given up; only what concerns the URL of j may differ otherwise. */
  ghost predicate Released(s: State, j: Job, t: State) {
    && t.jobSeq == s.jobSeq && t.ready == s.ready && t.processing == s.processing && t.delayed == s.delayed
    && t.lease == s.lease - {j} && t.claimed == s.claimed
    && t.attempts - {j.url} == s.attempts - {j.url} && t.strikes - {j.url} == s.strikes - {j.url}
    && t.next - {j.url} == s.next - {j.url} && t.dead - {j.url} == s.dead - {j.url}
  }

  lemma ClosedDropped(s: State, j: Job, t: State)
    requires Ordered(s) && Identified(s) && AllLeased(s) && j in s.processing && Released(s, j, t)
    ensures Dropped(s, Closed(t, j), j) && AllLeased(Closed(t, j))
  {
    assert Identified(t) by {
      assert forall x :: IsLive(t, x) <==> IsLive(s, x);
    }
    ClosedLive(t, j);
    StillLeased(s, j, Closed(t, j));
  }

  lemma ClosedExact(cfg: Config, s: State, j: Job, t: State)
    requires Exact(cfg, s) && j in s.lease && Released(s, j, t) && Consistent(cfg, Closed(t, j))
    requires j.url in t.dead && !cfg.IsVideo(j.url) ==>
               j.url in t.next && t.dead[j.url].until <= t.next[j.url] < PENDING_SCORE
    ensures Exact(cfg, Closed(t, j))
  {
    ClosedDropped(s, j, t);
    assert IsLive(s, j);
    DropExact(cfg, s, Closed(t, j), j);
  }

  lemma UnleasedReleased(s: State, j: Job)
    ensures Released(s, j, Apply(s, RemLease(j))) && Apply(s, RemLease(j)).dead == s.dead
  {
  }

  lemma AckConsistent(cfg: Config, s: State, c: Call)
    requires cfg.Valid() && Consistent(cfg, s) && c.Ack? && Enabled(cfg, s, c) && c.job in s.lease
    ensures Consistent(cfg, Closed(Apply(s, RemLease(c.job)), c.job))
  {
    ExecConsistent(cfg, s, c);
    AckRun(cfg, s, c);
  }

  lemma AckExact(cfg: Config, s: State, c: Call)
    requires cfg.Valid() && Exact(cfg, s) && c.Ack? && Enabled(cfg, s, c)
    ensures Exact(cfg, Exec(cfg, s, c))
  {
    if c.job in s.lease {
      AckConsistent(cfg, s, c);
      UnleasedReleased(s, c.job);
      ClosedExact(cfg, s, c.job, Apply(s, RemLease(c.job)));
      AckRun(cfg, s, c);
    }
  }

  lemma RescheduledReleased(s: State, j: Job, b: nat, at: int)
    ensures Released(s, j, Rescheduled(s, j, b, at)) && j.url !in Rescheduled(s, j, b, at).dead
  {
  }

  lemma RescheduledExact(cfg: Config, s: State, j: Job, b: nat, at: int, t: State)
    requires Exact(cfg, s) && j in s.lease && t == Closed(Rescheduled(s, j, b, at), j) && Consistent(cfg, t)
    ensures Exact(cfg, t)
  {
    RescheduledReleased(s, j, b, at);
    ClosedExact(cfg, s, j, Rescheduled(s, j, b, at));
  }

  lemma CompleteExact(cfg: Config, s: State, c: Call)
    requires cfg.Valid() && Exact(cfg, s) && c.CompleteListing? && Enabled(cfg, s, c)
    ensures Exact(cfg, Exec(cfg, s, c))
  {
    if c.job in s.lease {
      ExecConsistent(cfg, s, c);
      var b, at := CompleteShape(cfg, s, c);
      RescheduledExact(cfg, s, c.job, b, at, Exec(cfg, s, c));
    }
  }

  lemma EntombedReleased(cfg: Config, s: State, j: Job, t: State, d: Dead)
    requires Released(s, j, t) && DeadOk(cfg, j.url, d)
    ensures var e := Entombed(t, j, d);
            Released(s, j, e) && (!cfg.IsVideo(j.url) ==> j.url in e.next && e.dead[j.url].until <= e.next[j.url])
  {
  }

  lemma BuriedExact(cfg: Config, s: State, j: Job, t: State, d: Dead)
    requires Exact(cfg, s) && j in s.lease && Released(s, j, t) && DeadOk(cfg, j.url, d)
    requires Consistent(cfg, Buried(t, j, d))
    ensures Exact(cfg, Buried(t, j, d))
  {
    EntombedReleased(cfg, s, j, t, d);
    ClosedExact(cfg, s, j, Entombed(t, j, d));
  }

  lemma TerminalConsistent(cfg: Config, s: State, c: Call)
    requires cfg.Valid() && Consistent(cfg, s) && c.Terminal? && Enabled(cfg, s, c) && c.job in s.lease
    ensures Consistent(cfg, Buried(Apply(s, RemLease(c.job)), c.job,
                                   Dead(c.reason, QuarantineUntil(cfg, c.job.url, c.now))))
  {
    ExecConsistent(cfg, s, c);
    TerminalRun(cfg, s, c);
  }

  lemma TerminalExact(cfg: Config, s: State, c: Call)
    requires cfg.Valid() && Exact(cfg, s) && c.Terminal? && Enabled(cfg, s, c)
    ensures Exact(cfg, Exec(cfg, s, c))
  {
    if c.job in s.lease {
      TerminalConsistent(cfg, s, c);
      UnleasedReleased(s, c.job);
      BuriedExact(cfg, s, c.job, Apply(s, RemLease(c.job)), Dead(c.reason, QuarantineUntil(cfg, c.job.url, c.now)));
      TerminalRun(cfg, s, c);
    }
  }

  lemma StruckReleased(s: State, j: Job, kind: FailClass)
    ensures Released(s, j, Struck(s, j, kind))
    ensures Struck(s, j, kind).next == s.next && Struck(s, j, kind).dead == s.dead
  {
  }

  lemma PostponedLive(s: State, j: Job, t: State, at: int)
    requires Ordered(s) && Identified(s) && AllLeased(s) && j in s.processing && Released(s, j, t)
    requires t.next == s.next && t.dead == s.dead
    ensures Swapped(s, Postponed(t, j, at), j, Fresh(t, j.url)) && IsLive(Postponed(t, j, at), Fresh(t, j.url))
    ensures Postponed(t, j, at).attempts == t.attempts && Postponed(t, j, at).strikes == t.strikes
  {
    RemoveOnly(s.processing, j);
    RemoveDescending(s.processing, j);
    StillLeased(s, j, Postponed(t, j, at));
    assert IsLive(s, j);
    assert j !in s.ready && j !in s.delayed;
  }

  lemma StruckCounted(cfg: Config, s: State, j: Job, kind: FailClass, t: State)
    requires Counted(cfg, s) && !Dies(cfg, s, j.url, kind)
    requires t.attempts == Struck(s, j, kind).attempts && t.strikes == Struck(s, j, kind).strikes
    requires forall u :: LiveUrl(s, u) ==> LiveUrl(t, u)
    requires LiveUrl(t, j.url)
    ensures Counted(cfg, t)
  {
  }

  lemma FailDelayedExact(cfg: Config, s: State, j: Job, kind: FailClass, at: int)
    requires Exact(cfg, s) && j in s.lease && !Dies(cfg, s, j.url, kind)
    requires Consistent(cfg, Postponed(Struck(s, j, kind), j, at))
    ensures Exact(cfg, Postponed(Struck(s, j, kind), j, at))
  {
    var t := Postponed(Struck(s, j, kind), j, at);
    var i := Fresh(Struck(s, j, kind), j.url);
    StruckReleased(s, j, kind);
    PostponedLive(s, j, Struck(s, j, kind), at);
    LiveUrlStays(s, t, j, i);
    assert IsLive(s, j);
    StruckCounted(cfg, s, j, kind, t);
    ReplaceExact(cfg, s, t, j, i);
  }

  lemma FailExact(cfg: Config, s: State, c: Call)
    requires cfg.Valid() && Exact(cfg, s) && c.Fail? && Enabled(cfg, s, c)
    ensures Exact(cfg, Exec(cfg, s, c))
  {
    if c.job in s.lease {
      ExecConsistent(cfg, s, c);
      FailRun(cfg, s, c);
      if Dies(cfg, s, c.job.url, c.kind) {
        StruckReleased(s, c.job, c.kind);
        ExhaustedReason();
        BuriedExact(cfg, s, c.job, Struck(s, c.job, c.kind),
                    Dead(EXHAUSTED, QuarantineUntil(cfg, c.job.url, c.now)));
      } else {
        FailDelayedExact(cfg, s, c.job, c.kind, RetryAt(cfg, s, c.job.url, c.kind, c.now));
      }
    }
  }

  // ---- requeues and reconcilers ----

  lemma ReapedLive(s: State, j: Job)
    requires Ordered(s) && Identified(s) && AllLeased(s) && j in s.processing
    ensures Swapped(s, Reaped(s, j), j, Fresh(s, j.url))
    ensures Reaped(s, j).attempts == s.attempts && Reaped(s, j).strikes == s.strikes
  {
    RemoveOnly(s.processing, j);
    RemoveDescending(s.processing, j);
    StillLeased(s, j, Reaped(s, j));
    assert IsLive(s, j);
    assert j !in s.ready && j !in s.delayed;
    assert Reaped(s, j).ready == [Fresh(s, j.url)] + s.ready;
  }

  lemma SameCounted(cfg: Config, s: State, t: State, j: Job, i: Job)
    requires Counted(cfg, s) && Swapped(s, t, j, i)
    requires t.attempts == s.attempts && t.strikes == s.strikes
    ensures Counted(cfg, t)
  {
    LiveUrlStays(s, t, j, i);
  }

  lemma ReapedExact(cfg: Config, s: State, j: Job)
    requires Exact(cfg, s) && j in s.lease
    ensures Exact(cfg, Reaped(s, j))
  {
    assert IsLive(s, j);
    ReapedConsistent(cfg, s, Sweep, s, j);
    ReapedLive(s, j);
    SameCounted(cfg, s, Reaped(s, j), j, Fresh(s, j.url));
    ReplaceExact(cfg, s, Reaped(s, j), j, Fresh(s, j.url));
  }

  lemma {:induction false} ReapExact(cfg: Config, s: State, expired: seq<Job>)
    requires Exact(cfg, s)
    ensures Exact(cfg, Run(s, ReapScript(s, expired)))
    decreases |expired|
  {
    if expired != [] {
      if expired[0] in s.lease {
        ReapedExact(cfg, s, expired[0]);
        ReapRun(s, expired);
        ReapExact(cfg, Reaped(s, expired[0]), expired[1..]);
      } else {
        ReapExact(cfg, s, expired[1..]);
      }
    }
  }

  lemma PromotedLive(s: State, j: Job)
    requires Identified(s) && j in s.delayed
    ensures AllLeased(s) ==> Swapped(s, Promoted(s, j), j, Fresh(s, j.url))
    ensures Promoted(s, j).attempts == s.attempts && Promoted(s, j).strikes == s.strikes
  {
    assert IsLive(s, j);
    assert j !in s.ready && j !in s.processing;
    assert Promoted(s, j).ready == [Fresh(s, j.url)] + s.ready;
  }

  lemma PromotedExact(cfg: Config, s: State, j: Job)
    requires Exact(cfg, s) && j in s.delayed
    ensures Exact(cfg, Promoted(s, j))
  {
    assert IsLive(s, j);
    PromotedSafe(cfg, s, Sweep, s, j);
    PromotedLive(s, j);
    SameCounted(cfg, s, Promoted(s, j), j, Fresh(s, j.url));
    ReplaceExact(cfg, s, Promoted(s, j), j, Fresh(s, j.url));
  }

  ghost predicate AllDelayed(s: State, due: seq<Job>) {
    && (forall j :: j in due ==> j in s.delayed)
    && (forall a, b :: 0 <= a < b < |due| ==> due[a] != due[b])
  }

  lemma PromoteRest(s: State, due: seq<Job>)
    requires due != [] && AllDelayed(s, due)
    ensures AllDelayed(Promoted(s, due[0]), due[1..])
  {
  }

  lemma {:induction false} PromoteExact(cfg: Config, s: State, due: seq<Job>)
    requires Exact(cfg, s) && AllDelayed(s, due)
    ensures Exact(cfg, Run(s, PromoteScript(s, due)))
    decreases |due|
  {
    if due != [] {
      PromotedExact(cfg, s, due[0]);
      PromoteRun(s, due);
      PromoteRest(s, due);
      PromoteExact(cfg, Promoted(s, due[0]), due[1..]);
    }
  }

  /** With every processing job leased there is nothing to sweep. */
  lemma {:induction false} SweepNothing(s: State, items: seq<Job>)
    requires forall j :: j in items ==> j in s.lease
    ensures SweepScript(s, items) == Done && SweepCount(s, items) == 0
  {
    if items != [] {
      assert items[0] in items;
      SweepNothing(s, items[1..]);
    }
  }

  lemma ScheduleCallExact(cfg: Config, s: State, c: Call)
    requires cfg.Valid() && Exact(cfg, s) && c.Schedule? && Enabled(cfg, s, c)
    ensures Exact(cfg, Exec(cfg, s, c))
  {
    ScheduleExact(cfg, s, c.urls, c.now);
  }

  lemma AdmissionExact(cfg: Config, s: State, c: Call)
    requires cfg.Valid() && Exact(cfg, s) && Enabled(cfg, s, c)
    requires c.AdmitVideo? || c.AdmitListing? || c.SeedListing? || c.Schedule?
    ensures Exact(cfg, Exec(cfg, s, c))
  {
    if c.AdmitVideo? {
      AdmitVideoExact(cfg, s, c);
    } else if c.AdmitListing? {
      AdmitListingExact(cfg, s, c);
    } else if c.SeedListing? {
      SeedExact(cfg, s, c);
    } else {
      ScheduleCallExact(cfg, s, c);
    }
  }

  lemma ResolutionExact(cfg: Config, s: State, c: Call)
    requires cfg.Valid() && Exact(cfg, s) && Enabled(cfg, s, c) && IsResolution(c)
    ensures Exact(cfg, Exec(cfg, s, c))
  {
    match c
    case Ack(_) => AckExact(cfg, s, c);
    case CompleteListing(_, _, _) => CompleteExact(cfg, s, c);
    case Nack(j) => if j in s.lease { NackRun(cfg, s, c); ReapedExact(cfg, s, j); }
    case Fail(_, _, _) => FailExact(cfg, s, c);
    case Terminal(_, _, _) => TerminalExact(cfg, s, c);
  }

  lemma MoveExact(cfg: Config, s: State, c: Call)
    requires cfg.Valid() && Exact(cfg, s) && Enabled(cfg, s, c) && (c.Promote? || c.Reap? || c.Sweep?)
    ensures Exact(cfg, Exec(cfg, s, c))
  {
    match c
    case Promote(_, jobs) => PromoteExact(cfg, s, jobs);
    case Reap(_, jobs) => ReapExact(cfg, s, jobs);
    case Sweep => SweepNothing(s, SweepItems(s));
  }

  /** Every completed script keeps the frontier exact. */
  lemma StepExact(cfg: Config, s: State, c: Call)
    requires cfg.Valid() && Exact(cfg, s) && Enabled(cfg, s, c)
    ensures Exact(cfg, Exec(cfg, s, c))
  {
    if c.Lease? {
      LeaseExact(cfg, s, c);
    } else if IsResolution(c) {
      ResolutionExact(cfg, s, c);
    } else if c.Promote? || c.Reap? || c.Sweep? {
      MoveExact(cfg, s, c);
    } else {
      AdmissionExact(cfg, s, c);
    }
  }
}
