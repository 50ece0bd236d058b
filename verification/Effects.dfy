/** Net effects: what each script's list of writes comes to when it runs to its end. */
module Effects {
  import opened Keyspace
  import opened Scripts

  lemma LeaseRun(cfg: Config, s: State, c: Call)
    requires cfg.Valid() && c.Lease?
    ensures Exec(cfg, s, c) == if s.ready == [] then s
                               else Apply(Apply(s, MoveReady), SetLease(Last(s.ready), c.now + cfg.leaseTimeout))
  {
    if s.ready != [] {
      Run2(s, MoveReady, SetLease(Last(s.ready), c.now + cfg.leaseTimeout), Done);
    }
  }

  lemma RemoveHead<T>(q: seq<T>, x: T)
    ensures Remove([x] + q, x) == q
  {
    assert ([x] + q)[1..] == q;
  }

  lemma EnqueueRun(s: State, u: Url, rest: Writes)
    ensures Run(s, Do(Incr, Do(PushReady(Fresh(s, u)), rest))) == Run(Enqueued(s, u), rest)
  {
    var s1 := s.(jobSeq := s.jobSeq + 1);
    RunDo(s, Incr, s1, Do(PushReady(Fresh(s, u)), rest));
    RunDo(s1, PushReady(Fresh(s, u)), Enqueued(s, u), rest);
  }

  /** A duplicate admission restores ready exactly. */
  lemma FreshVideoRun(s: State, u: Url, added: bool)
    ensures Run(s, Do(Incr, Do(PushReady(Fresh(s, u)), Do(Claim(u),
                      if added then Done else Do(RemReady(Fresh(s, u)), Done)))))
            == if added then Admitted(s, u) else Refused(s, u)
  {
    var j, t := Fresh(s, u), Admitted(s, u);
    var rest := if added then Done else Do(RemReady(j), Done);
    EnqueueRun(s, u, Do(Claim(u), rest));
    RunDo(Enqueued(s, u), Claim(u), t, rest);
    RemoveHead(s.ready, j);
    RunDo(t, RemReady(j), Refused(s, u), Done);
  }

  lemma AdmitVideoRun(cfg: Config, s: State, c: Call)
    requires cfg.Valid() && c.AdmitVideo? && c.url !in s.dead
    ensures Exec(cfg, s, c) == if c.added then Admitted(s, c.url) else Refused(s, c.url)
  {
    FreshVideoRun(s, c.url, c.added);
  }

  /** The three ways an admission of a video ends. */
  lemma AdmitVideoEffect(cfg: Config, s: State, c: Call)
    requires cfg.Valid() && c.AdmitVideo?
    ensures Exec(cfg, s, c) == if c.url in s.dead && s.dead[c.url].Blocks(c.now) then s
                               else if c.added then Admitted(Forgiven(s, c.url), c.url)
                               else Refused(Forgiven(s, c.url), c.url)
  {
    var f := Forgiven(s, c.url);
    FreshVideoRun(f, c.url, c.added);
    ForgiveThen(s, c.url, AdmitVideoScript(f, c.url, c.now, c.added));
  }

  lemma ForgiveThen(s: State, u: Url, tail: Writes)
    ensures Run(s, Forgive(s, u, tail)) == Run(Forgiven(s, u), tail)
  {
    if u in s.dead {
      RunDo(s, RemDead(u), Forgiven(s, u), tail);
    } else {
      ForgivenAbsent(s, u);
    }
  }

  lemma ScheduledRun(s: State, u: Url, rest: Writes)
    ensures Run(s, Forgive(s, u, Do(Incr, Do(PushReady(Fresh(s, u)), Do(SetNext(u, PENDING_SCORE), rest)))))
            == Run(Scheduled(s, u), rest)
  {
    var f, w := Forgiven(s, u), SetNext(u, PENDING_SCORE);
    ForgiveThen(s, u, Do(Incr, Do(PushReady(Fresh(f, u)), Do(w, rest))));
    EnqueueRun(f, u, Do(w, rest));
    RunDo(Enqueued(f, u), w, Scheduled(s, u), rest);
  }

  /** The three ways an admission of a listing ends. */
  lemma AdmitListingRun(cfg: Config, s: State, c: Call)
    requires cfg.Valid() && c.AdmitListing?
    ensures Exec(cfg, s, c) == if c.url in s.dead && s.dead[c.url].Blocks(c.now) then s
                               else if c.url in s.next && s.next[c.url] > c.now then Forgiven(s, c.url)
                               else Scheduled(s, c.url)
  {
    ForgiveThen(s, c.url, Done);
    ScheduledRun(s, c.url, Done);
  }

  lemma ScheduleRun(s: State, due: seq<Url>, now: int)
    requires due != [] && !(due[0] in s.dead && s.dead[due[0]].Blocks(now))
    ensures Run(s, ScheduleScript(s, due, now))
            == Run(Scheduled(s, due[0]), ScheduleScript(Scheduled(s, due[0]), due[1..], now))
  {
    ScheduledRun(s, due[0], ScheduleScript(Scheduled(s, due[0]), due[1..], now));
  }

  /** The state after one turn of the scheduler's loop. */
  function ScheduledOne(s: State, u: Url, now: int): State {
    if u in s.dead && s.dead[u].until == 0 then Apply(s, RemNext(u))
    else if u in s.dead && s.dead[u].until > now then Apply(s, SetNext(u, s.dead[u].until))
    else Scheduled(s, u)
  }

  lemma ScheduleOneRun(s: State, due: seq<Url>, now: int)
    requires due != []
    ensures var t := ScheduledOne(s, due[0], now);
            && Run(s, ScheduleScript(s, due, now)) == Run(t, ScheduleScript(t, due[1..], now))
            && ScheduleCount(s, due, now) == ScheduleCount(t, due[1..], now)
                                             + if due[0] in s.dead && s.dead[due[0]].Blocks(now) then 0 else 1
  {
    if !(due[0] in s.dead && s.dead[due[0]].Blocks(now)) {
      ScheduleRun(s, due, now);
    }
  }

  lemma AckRun(cfg: Config, s: State, c: Call)
    requires cfg.Valid() && c.Ack? && c.job in s.lease
    ensures Exec(cfg, s, c) == Closed(Apply(s, RemLease(c.job)), c.job)
  {
    var j := c.job;
    var s1 := Apply(s, RemLease(j));
    Run2(s, RemLease(j), RemProcessing(j), Do(RemAttempts(j.url), Do(RemStrikes(j.url), Done)));
    Run2(Apply(s1, RemProcessing(j)), RemAttempts(j.url), RemStrikes(j.url), Done);
  }

  lemma CloseRun(s: State, j: Job)
    ensures Run(s, Do(RemProcessing(j), Do(RemAttempts(j.url), Do(RemStrikes(j.url), Done)))) == Closed(s, j)
  {
    Run2(s, RemProcessing(j), RemAttempts(j.url), Do(RemStrikes(j.url), Done));
    Run1(Apply(Apply(s, RemProcessing(j)), RemAttempts(j.url)), RemStrikes(j.url));
  }

  lemma RescheduleRun(s: State, j: Job, b: nat, at: int, tail: Writes)
    ensures Run(s, Do(RemLease(j), Do(SetBarren(j.url, b), Do(SetNext(j.url, at), Do(RemDead(j.url), tail)))))
            == Run(Rescheduled(s, j, b, at), tail)
  {
    var u := j.url;
    var s1 := s.(lease := s.lease - {j});
    var s2 := s1.(barren := s.barren[u := b]);
    var s3 := s2.(next := s.next[u := at]);
    var rest := Do(SetNext(u, at), Do(RemDead(u), tail));
    RunDo(s, RemLease(j), s1, Do(SetBarren(u, b), rest));
    RunDo(s1, SetBarren(u, b), s2, rest);
    RunDo(s2, SetNext(u, at), s3, Do(RemDead(u), tail));
    RunDo(s3, RemDead(u), Rescheduled(s, j, b, at), tail);
  }

  lemma CompleteRun(cfg: Config, s: State, c: Call)
    requires cfg.Valid() && c.CompleteListing? && c.job in s.lease
    ensures Exec(cfg, s, c) == Completed(cfg, s, c.job, c.newChildren, c.now)
  {
    var j, u := c.job, c.job.url;
    var b := Barren(s, u, c.newChildren);
    var w := SetNext(u, c.now + Ttl(cfg, u, b));
    var tail := Do(RemProcessing(j), Do(RemAttempts(u), Do(RemStrikes(u), Done)));
    RescheduleRun(s, j, b, w.at, tail);
    CloseRun(Rescheduled(s, j, b, w.at), j);
  }

  lemma CompleteShape(cfg: Config, s: State, c: Call) returns (b: nat, at: int)
    requires cfg.Valid() && c.CompleteListing? && c.job in s.lease
    ensures Exec(cfg, s, c) == Closed(Rescheduled(s, c.job, b, at), c.job)
    ensures b == Barren(s, c.job.url, c.newChildren) && at == c.now + Ttl(cfg, c.job.url, b)
  {
    CompleteRun(cfg, s, c);
    b := Barren(s, c.job.url, c.newChildren);
    at := c.now + Ttl(cfg, c.job.url, b);
  }

  lemma BuryRun(s: State, j: Job, d: Dead)
    ensures Run(s, Bury(j, d)) == Buried(s, j, d)
  {
    var s1 := if d.until > 0 then Apply(s, SetNext(j.url, d.until)) else s;
    CloseRun(Apply(s1, SetDead(j.url, d)), j);
    var tail := Do(RemProcessing(j), Do(RemAttempts(j.url), Do(RemStrikes(j.url), Done)));
    assert Run(s1, Do(SetDead(j.url, d), tail)) == Run(Apply(s1, SetDead(j.url, d)), tail);
  }

  lemma StrikeRun(s: State, j: Job, kind: FailClass, tail: Writes)
    ensures Run(s, Strike(s, j, kind, tail)) == Run(Struck(s, j, kind), tail)
  {
    var w, x := SetAttempts(j.url, Get(s.attempts, j.url) + 1), SetStrikes(j.url, Strikes(s, j.url, kind));
    var s1 := s.(lease := s.lease - {j});
    var s2 := s1.(attempts := s.attempts[j.url := w.n]);
    var rest := if kind.Strikeable? then Do(x, tail) else tail;
    RunDo(s, RemLease(j), s1, Do(w, rest));
    RunDo(s1, w, s2, rest);
    if kind.Strikeable? {
      RunDo(s2, x, Struck(s, j, kind), tail);
    }
  }

  lemma DelayRun(s: State, j: Job, at: int)
    ensures Run(s, Delay(Fresh(s, j.url), j, at)) == Postponed(s, j, at)
  {
    Run2(s, Incr, SetDelayed(Fresh(s, j.url), at), Do(RemProcessing(j), Done));
    Run1(Apply(Apply(s, Incr), SetDelayed(Fresh(s, j.url), at)), RemProcessing(j));
  }

  /** When the job failed at now is next due. */
  function RetryAt(cfg: Config, s: State, url: Url, kind: FailClass, now: int): int
    requires cfg.Valid()
  {
    now + Backoff(Ladder(cfg, kind), Get(s.attempts, url) + 1)
  }

  lemma FailRun(cfg: Config, s: State, c: Call)
    requires cfg.Valid() && c.Fail? && c.job in s.lease
    ensures Exec(cfg, s, c) ==
            if Dies(cfg, s, c.job.url, c.kind)
            then Buried(Struck(s, c.job, c.kind), c.job, Dead(EXHAUSTED, QuarantineUntil(cfg, c.job.url, c.now)))
            else Postponed(Struck(s, c.job, c.kind), c.job, RetryAt(cfg, s, c.job.url, c.kind, c.now))
  {
    var j, t := c.job, Struck(s, c.job, c.kind);
    if Dies(cfg, s, j.url, c.kind) {
      var d := Dead(EXHAUSTED, QuarantineUntil(cfg, j.url, c.now));
      StrikeRun(s, j, c.kind, Bury(j, d));
      BuryRun(t, j, d);
    } else {
      var at := RetryAt(cfg, s, j.url, c.kind, c.now);
      StrikeRun(s, j, c.kind, Delay(Fresh(s, j.url), j, at));
      DelayRun(t, j, at);
    }
  }

  lemma TerminalRun(cfg: Config, s: State, c: Call)
    requires cfg.Valid() && c.Terminal? && c.job in s.lease
    ensures Exec(cfg, s, c)
            == Buried(Apply(s, RemLease(c.job)), c.job, Dead(c.reason, QuarantineUntil(cfg, c.job.url, c.now)))
  {
    var d := Dead(c.reason, QuarantineUntil(cfg, c.job.url, c.now));
    BuryRun(Apply(s, RemLease(c.job)), c.job, d);
    assert Run(s, Do(RemLease(c.job), Bury(c.job, d))) == Run(Apply(s, RemLease(c.job)), Bury(c.job, d));
  }

  lemma NackRun(cfg: Config, s: State, c: Call)
    requires cfg.Valid() && c.Nack? && c.job in s.lease
    ensures Exec(cfg, s, c) == Reaped(s, c.job)
  {
    var s1 := Apply(s, RemLease(c.job));
    Run2(s, RemLease(c.job), Incr, Do(PushReady(Fresh(s, c.job.url)), Do(RemProcessing(c.job), Done)));
    Run2(Apply(s1, Incr), PushReady(Fresh(s, c.job.url)), RemProcessing(c.job), Done);
  }

  lemma ReapRun(s: State, expired: seq<Job>)
    requires expired != [] && expired[0] in s.lease
    ensures Run(s, ReapScript(s, expired))
         == Run(Reaped(s, expired[0]), ReapScript(Reaped(s, expired[0]), expired[1..]))
  {
    var j := expired[0];
    var s1 := Apply(s, RemLease(j));
    var rest := ReapScript(Reaped(s, j), expired[1..]);
    Run2(s, RemLease(j), Incr, Do(PushReady(Fresh(s, j.url)), Do(RemProcessing(j), rest)));
    Run2(Apply(s1, Incr), PushReady(Fresh(s, j.url)), RemProcessing(j), rest);
  }

  lemma PromoteRun(s: State, due: seq<Job>)
    requires due != []
    ensures Run(s, PromoteScript(s, due)) == Run(Promoted(s, due[0]), PromoteScript(Promoted(s, due[0]), due[1..]))
  {
    var j := due[0];
    var rest := PromoteScript(Promoted(s, j), due[1..]);
    Run2(s, Incr, PushReady(Fresh(s, j.url)), Do(RemDelayed(j), rest));
    assert Run(Enqueued(s, j.url), Do(RemDelayed(j), rest)) == Run(Promoted(s, j), rest);
  }

  lemma SweepExec(cfg: Config, s: State, items: seq<Job>)
    requires cfg.Valid() && items == SweepItems(s)
    ensures Exec(cfg, s, Call.Sweep) == Run(s, SweepScript(s, items))
    ensures Answer(cfg, s, Call.Sweep) == Count(SweepCount(s, items))
  {
  }

  lemma ReapExec(cfg: Config, s: State, now: int, expired: seq<Job>)
    requires cfg.Valid()
    ensures Exec(cfg, s, Call.Reap(now, expired)) == Run(s, ReapScript(s, expired))
    ensures Answer(cfg, s, Call.Reap(now, expired)) == Count(ReapCount(s, expired))
  {
  }
}
