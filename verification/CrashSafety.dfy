/** Every script obeys the write discipline, from every consistent state. */
module CrashSafety {
  import opened Keyspace
  import opened Scripts
  import opened Discipline

  lemma LeaseSafe(cfg: Config, s: State, c: Call)
    requires cfg.Valid() && Consistent(cfg, s) && c.Lease?
    ensures SafeAll(cfg, s, c, s, LeaseScript(cfg, s, c.now))
  {
    if s.ready != [] {
      var s1 := Apply(s, MoveReady);
      var w := SetLease(Last(s.ready), c.now + cfg.leaseTimeout);
      assert s1.processing[0] == Last(s.ready);
      assert SafeAll(cfg, s, c, s1, Do(w, Done));
    }
  }

  lemma ForgiveSafe(cfg: Config, base: State, c: Call, s: State, u: Url, rest: Writes)
    requires !cfg.IsVideo(u) && SafeAll(cfg, base, c, Forgiven(s, u), rest)
    ensures SafeAll(cfg, base, c, s, Forgive(s, u, rest))
  {
    if u !in s.dead {
      ForgivenAbsent(s, u);
    }
  }

  /** INCR then LPUSH: the new ID is fresh, and the URL is live again before anything is removed. */
  lemma EnqueueSafe(cfg: Config, base: State, c: Call, s: State, u: Url)
    requires Identified(s) && base.jobSeq <= s.jobSeq && !c.Lease?
    ensures Safe(cfg, base, c, s, Incr) && Safe(cfg, base, c, Apply(s, Incr), PushReady(Fresh(s, u)))
    ensures IsLive(Enqueued(s, u), Fresh(s, u)) && LiveUrl(Enqueued(s, u), u)
    ensures forall i :: IsLive(s, i) ==> i != Fresh(s, u) && IsLive(Enqueued(s, u), i)
  {
    var s1, j := Apply(s, Incr), Fresh(s, u);
    forall i | IsLive(s1, i)
      ensures i.id < s1.jobSeq
    {
      assert IsLive(s, i);
    }
    var s2 := Enqueued(s, u);
    assert s2.ready == [j] + s.ready;
    assert j in s2.ready;
    assert IsLive(s2, j);
    forall i | IsLive(s, i)
      ensures i != j && IsLive(s2, i)
    {
    }
  }

  lemma EnqueueConsistent(cfg: Config, base: State, c: Call, s: State, u: Url)
    requires Consistent(cfg, s) && base.jobSeq <= s.jobSeq && !c.Lease?
    ensures Consistent(cfg, Enqueued(s, u))
  {
    EnqueueSafe(cfg, base, c, s, u);
    SafeConsistent(cfg, base, c, s, Incr);
    SafeConsistent(cfg, base, c, Apply(s, Incr), PushReady(Fresh(s, u)));
  }

  lemma EnqueueThen(cfg: Config, base: State, c: Call, s: State, u: Url, rest: Writes)
    requires Identified(s) && base.jobSeq <= s.jobSeq && !c.Lease?
    requires SafeAll(cfg, base, c, Enqueued(s, u), rest)
    ensures SafeAll(cfg, base, c, s, Do(Incr, Do(PushReady(Fresh(s, u)), rest)))
  {
    EnqueueSafe(cfg, base, c, s, u);
    assert SafeAll(cfg, base, c, Apply(s, Incr), Do(PushReady(Fresh(s, u)), rest));
  }

  lemma RollbackSafe(cfg: Config, s: State, c: Call)
    requires Identified(s) && c.AdmitVideo? && cfg.IsVideo(c.url) && c.url !in s.dead
    ensures SafeAll(cfg, s, c, Enqueued(s, c.url).(claimed := s.claimed + {c.url}),
                    Do(RemReady(Fresh(s, c.url)), Done))
  {
    var s3 := Enqueued(s, c.url).(claimed := s.claimed + {c.url});
    EnqueueSafe(cfg, s, c, s, c.url);
    if Covered(cfg, s, c.url) {
      var i :| IsLive(s, i) && i.url == c.url;
      assert IsLive(s3, i);
    }
    assert Safe(cfg, s, c, s3, RemReady(Fresh(s, c.url)));
  }

  lemma FreshVideoSafe(cfg: Config, s: State, c: Call)
    requires Identified(s) && c.AdmitVideo? && cfg.IsVideo(c.url) && c.url !in s.dead
    ensures SafeAll(cfg, s, c, s, AdmitVideoScript(s, c.url, c.now, c.added))
  {
    var u, s2 := c.url, Enqueued(s, c.url);
    var rest := if c.added then Done else Do(RemReady(Fresh(s, u)), Done);
    RollbackSafe(cfg, s, c);
    SafeDo(cfg, s, c, s2, Claim(u), s2.(claimed := s.claimed + {u}), rest);
    EnqueueThen(cfg, s, c, s, u, Do(Claim(u), rest));
  }

  lemma AdmitVideoSafe(cfg: Config, s: State, c: Call)
    requires cfg.Valid() && Consistent(cfg, s) && c.AdmitVideo? && Enabled(cfg, s, c)
    ensures SafeAll(cfg, s, c, s, AdmitVideoScript(s, c.url, c.now, c.added))
  {
    if c.url !in s.dead {
      FreshVideoSafe(cfg, s, c);
    }
  }

  lemma ForgivenIdentified(s: State, u: Url)
    requires Identified(s)
    ensures Identified(Forgiven(s, u))
  {
    assert forall j :: IsLive(Forgiven(s, u), j) ==> IsLive(s, j);
  }

  lemma AdmitSafe(cfg: Config, base: State, c: Call, s: State, u: Url, rest: Writes)
    requires Identified(s) && base.jobSeq <= s.jobSeq && !c.Lease? && !cfg.IsVideo(u)
    requires SafeAll(cfg, base, c, Scheduled(s, u), rest)
    ensures SafeAll(cfg, base, c, s,
                    Forgive(s, u, Do(Incr, Do(PushReady(Fresh(s, u)), Do(SetNext(u, PENDING_SCORE), rest)))))
  {
    var f, w := Forgiven(s, u), SetNext(u, PENDING_SCORE);
    var e := Enqueued(f, u);
    ForgivenIdentified(s, u);
    assert LiveUrl(e, u) by {
      EnqueueSafe(cfg, base, c, f, u);
    }
    SafeDo(cfg, base, c, e, w, Scheduled(s, u), rest);
    EnqueueThen(cfg, base, c, f, u, Do(w, rest));
    ForgiveSafe(cfg, base, c, s, u, Do(Incr, Do(PushReady(Fresh(f, u)), Do(SetNext(u, PENDING_SCORE), rest))));
  }

  lemma AdmitListingSafe(cfg: Config, s: State, c: Call)
    requires cfg.Valid() && Consistent(cfg, s) && c.AdmitListing? && Enabled(cfg, s, c)
    ensures SafeAll(cfg, s, c, s, AdmitListingScript(s, c.url, c.now))
  {
    AdmitSafe(cfg, s, c, s, c.url, Done);
  }

  lemma ForgivenConsistent(cfg: Config, s: State, u: Url, f: State)
    requires Consistent(cfg, s) && !cfg.IsVideo(u) && f == Forgiven(s, u)
    ensures Consistent(cfg, f)
  {
    SafeConsistent(cfg, s, Sweep, s, RemDead(u));
    assert f == Apply(s, RemDead(u));
  }

  lemma EnqueuedPending(cfg: Config, base: State, c: Call, f: State, u: Url, t: State)
    requires Consistent(cfg, f) && base.jobSeq <= f.jobSeq && !c.Lease? && !cfg.IsVideo(u)
    requires t == Apply(Enqueued(f, u), SetNext(u, PENDING_SCORE))
    ensures Consistent(cfg, t)
  {
    var e, w := Enqueued(f, u), SetNext(u, PENDING_SCORE);
    assert LiveUrl(e, u) by {
      EnqueueSafe(cfg, base, c, f, u);
    }
    EnqueueConsistent(cfg, base, c, f, u);
    SafeConsistent(cfg, base, c, e, w);
  }

  lemma ScheduledConsistent(cfg: Config, base: State, c: Call, s: State, u: Url)
    requires Consistent(cfg, s) && base.jobSeq <= s.jobSeq && !c.Lease? && !cfg.IsVideo(u)
    ensures Consistent(cfg, Scheduled(s, u))
  {
    var f := Forgiven(s, u);
    ForgivenConsistent(cfg, s, u, f);
    EnqueuedPending(cfg, base, c, f, u, Scheduled(s, u));
  }

  lemma PushedBack(cfg: Config, base: State, c: Call, s: State, w: Write, t: State)
    requires Consistent(cfg, s) && w.SetNext? && w.url in s.dead && w.at == s.dead[w.url].until && t == Apply(s, w)
    requires !cfg.IsVideo(w.url)
    ensures Safe(cfg, base, c, s, w) && Consistent(cfg, t) && t.jobSeq == s.jobSeq
  {
    SafeConsistent(cfg, base, c, s, w);
  }

  lemma SchedulePushes(cfg: Config, base: State, c: Call, s: State, due: seq<Url>, now: int, t: State)
    requires due != [] && due[0] in s.dead && s.dead[due[0]].until > 0 && s.dead[due[0]].until > now
    requires var w := SetNext(due[0], s.dead[due[0]].until); t == Apply(s, w) && Safe(cfg, base, c, s, w)
    requires SafeAll(cfg, base, c, t, ScheduleScript(t, due[1..], now))
    ensures SafeAll(cfg, base, c, s, ScheduleScript(s, due, now))
  {
    SafeDo(cfg, base, c, s, SetNext(due[0], s.dead[due[0]].until), t, ScheduleScript(t, due[1..], now));
  }

  lemma ScheduleAdmits(cfg: Config, base: State, c: Call, s: State, due: seq<Url>, now: int)
    requires due != [] && (due[0] in s.dead ==> 0 < s.dead[due[0]].until <= now)
    requires Identified(s) && base.jobSeq <= s.jobSeq && !c.Lease? && !cfg.IsVideo(due[0])
    requires SafeAll(cfg, base, c, Scheduled(s, due[0]), ScheduleScript(Scheduled(s, due[0]), due[1..], now))
    ensures SafeAll(cfg, base, c, s, ScheduleScript(s, due, now))
  {
    AdmitSafe(cfg, base, c, s, due[0], ScheduleScript(Scheduled(s, due[0]), due[1..], now));
  }

  lemma DueDead(cfg: Config, s: State, u: Url)
    requires Classed(cfg, s) && !cfg.IsVideo(u)
    ensures u in s.dead ==> s.dead[u].until > 0
  {
    assert u in s.dead ==> DeadOk(cfg, u, s.dead[u]);
  }

  lemma {:induction false} ScheduleSafe(cfg: Config, base: State, c: Call, s: State, due: seq<Url>, now: int)
    requires Consistent(cfg, s) && base.jobSeq <= s.jobSeq && !c.Lease?
    requires forall u :: u in due ==> !cfg.IsVideo(u)
    ensures SafeAll(cfg, base, c, s, ScheduleScript(s, due, now))
    decreases |due|
  {
    if due != [] {
      var u := due[0];
      assert u in due;
      DueDead(cfg, s, u);
      if u in s.dead && s.dead[u].until > now {
        var w := SetNext(u, s.dead[u].until);
        var t := Apply(s, w);
        PushedBack(cfg, base, c, s, w, t);
        ScheduleSafe(cfg, base, c, t, due[1..], now);
        SchedulePushes(cfg, base, c, s, due, now, t);
      } else {
        var t := Scheduled(s, u);
        ScheduledConsistent(cfg, base, c, s, u);
        ScheduleSafe(cfg, base, c, t, due[1..], now);
        ScheduleAdmits(cfg, base, c, s, due, now);
      }
    }
  }

  lemma AckSafe(cfg: Config, s: State, c: Call)
    requires c.Ack?
    ensures SafeAll(cfg, s, c, s, AckScript(s, c.job))
  {
    var j := c.job;
    if j in s.lease {
      var s1 := Apply(s, RemLease(j));
      assert Safe(cfg, s, c, s1, RemProcessing(j));
      var s2 := Apply(s1, RemProcessing(j));
      assert SafeAll(cfg, s, c, s2, Do(RemAttempts(j.url), Do(RemStrikes(j.url), Done)));
    }
  }

  /** The tail every resolution ends with once the URL is settled. */
  lemma CloseSafe(cfg: Config, base: State, c: Call, s: State, j: Job)
    requires j !in s.lease && Settled(cfg, s, j.url)
    ensures SafeAll(cfg, base, c, s, Do(RemProcessing(j), Do(RemAttempts(j.url), Do(RemStrikes(j.url), Done))))
  {
    var s1 := s.(processing := Remove(s.processing, j));
    var s2 := s1.(attempts := s.attempts - {j.url});
    assert SafeAll(cfg, base, c, s2, Do(RemStrikes(j.url), Done));
    SafeDo(cfg, base, c, s1, RemAttempts(j.url), s2, Do(RemStrikes(j.url), Done));
    SafeDo(cfg, base, c, s, RemProcessing(j), s1, Do(RemAttempts(j.url), Do(RemStrikes(j.url), Done)));
  }

  lemma DoubledPositive(base: int, n: nat)
    requires base > 0
    ensures Doubled(base, n) > 0
  {
  }

  lemma TtlRange(cfg: Config, u: Url, barren: nat)
    requires cfg.Valid()
    ensures 0 < Ttl(cfg, u, barren) <= cfg.listingMaxTtl
  {
    DoubledPositive(BaseTtl(cfg, u), barren);
  }

  /** Write w may come first if it is safe and the rest is. */
  lemma SafeDo(cfg: Config, base: State, c: Call, s: State, w: Write, t: State, rest: Writes)
    requires t == Apply(s, w) && Safe(cfg, base, c, s, w) && SafeAll(cfg, base, c, t, rest)
    ensures SafeAll(cfg, base, c, s, Do(w, rest))
  {
  }

  /** Writes that are safe at any time. */
  predicate Harmless(w: Write) {
    w.RemLease? || w.SetAttempts? || w.RemAttempts? || w.SetStrikes? || w.RemStrikes? || w.Incr?
  }

  lemma HarmlessDo(cfg: Config, base: State, c: Call, s: State, w: Write, t: State, rest: Writes)
    requires t == Apply(s, w) && Harmless(w) && SafeAll(cfg, base, c, t, rest)
    ensures SafeAll(cfg, base, c, s, Do(w, rest))
  {
    assert Safe(cfg, base, c, s, w);
  }

  lemma DueSafe(cfg: Config, base: State, c: Call, s: State, u: Url, at: int, rest: Writes)
    requires !cfg.IsVideo(u) && 0 <= at < PENDING_SCORE
    requires SafeAll(cfg, base, c, s.(next := s.next[u := at], dead := s.dead - {u}), rest)
    ensures SafeAll(cfg, base, c, s, Do(SetNext(u, at), Do(RemDead(u), rest)))
  {
    var s1 := s.(next := s.next[u := at]);
    SafeDo(cfg, base, c, s1, RemDead(u), s1.(dead := s.dead - {u}), rest);
    SafeDo(cfg, base, c, s, SetNext(u, at), s1, Do(RemDead(u), rest));
  }

  lemma RescheduleSafe(cfg: Config, base: State, c: Call, s: State, j: Job, b: nat, at: int)
    requires !cfg.IsVideo(j.url) && 0 <= at < PENDING_SCORE
    ensures SafeAll(cfg, base, c, s,
                    Do(RemLease(j), Do(SetBarren(j.url, b), Do(SetNext(j.url, at), Do(RemDead(j.url),
                       Do(RemProcessing(j), Do(RemAttempts(j.url), Do(RemStrikes(j.url), Done))))))))
  {
    var u := j.url;
    var s1 := s.(lease := s.lease - {j});
    var s2 := s1.(barren := s.barren[u := b]);
    var s3 := s2.(next := s.next[u := at], dead := s.dead - {u});
    var tail := Do(RemProcessing(j), Do(RemAttempts(u), Do(RemStrikes(u), Done)));
    CloseSafe(cfg, base, c, s3, j);
    DueSafe(cfg, base, c, s2, u, at, tail);
    SafeDo(cfg, base, c, s1, SetBarren(u, b), s2, Do(SetNext(u, at), Do(RemDead(u), tail)));
    HarmlessDo(cfg, base, c, s, RemLease(j), s1, Do(SetBarren(u, b), Do(SetNext(u, at), Do(RemDead(u), tail))));
  }

  lemma CompleteSafe(cfg: Config, s: State, c: Call)
    requires cfg.Valid() && c.CompleteListing? && Enabled(cfg, s, c)
    ensures SafeAll(cfg, s, c, s, CompleteScript(cfg, s, c.job, c.newChildren, c.now))
  {
    if c.job in s.lease {
      var b := Barren(s, c.job.url, c.newChildren);
      TtlRange(cfg, c.job.url, b);
      RescheduleSafe(cfg, s, c, s, c.job, b, c.now + Ttl(cfg, c.job.url, b));
    }
  }

  /** Replacing j by a fresh job of the same URL. */
  lemma ReplaceSafe(cfg: Config, base: State, c: Call, s: State, j: Job, rest: Writes)
    requires Identified(s) && base.jobSeq <= s.jobSeq && !c.Lease? && IsLive(s, j) && j !in s.lease
    requires SafeAll(cfg, base, c, Swept(s, j), rest)
    ensures SafeAll(cfg, base, c, s, Do(Incr, Do(PushReady(Fresh(s, j.url)), Do(RemProcessing(j), rest))))
  {
    EnqueueSafe(cfg, base, c, s, j.url);
    assert OtherLive(Enqueued(s, j.url), j);
    EnqueueThen(cfg, base, c, s, j.url, Do(RemProcessing(j), rest));
  }

  lemma UnleasedIdentified(s: State, j: Job)
    requires Identified(s)
    ensures Identified(Apply(s, RemLease(j)))
  {
    assert forall i :: IsLive(Apply(s, RemLease(j)), i) ==> IsLive(s, i);
  }

  lemma NackSafe(cfg: Config, s: State, c: Call)
    requires Consistent(cfg, s) && c.Nack?
    ensures SafeAll(cfg, s, c, s, NackScript(s, c.job))
  {
    if c.job in s.lease {
      assert IsLive(s, c.job);
      ReapedSafe(cfg, s, c, s, c.job, Done);
    }
  }

  lemma BurySafe(cfg: Config, base: State, c: Call, s: State, j: Job, d: Dead)
    requires j !in s.lease && DeadOk(cfg, j.url, d)
    ensures SafeAll(cfg, base, c, s, Bury(j, d))
  {
    var s1 := if d.until > 0 then Apply(s, SetNext(j.url, d.until)) else s;
    CloseSafe(cfg, base, c, Apply(s1, SetDead(j.url, d)), j);
    assert SafeAll(cfg, base, c, s1,
                   Do(SetDead(j.url, d), Do(RemProcessing(j), Do(RemAttempts(j.url), Do(RemStrikes(j.url), Done)))));
  }

  lemma DelaySafe(cfg: Config, base: State, c: Call, s: State, j: Job, at: int)
    requires Identified(s) && base.jobSeq <= s.jobSeq && IsLive(s, j) && j !in s.lease
    ensures SafeAll(cfg, base, c, s, Delay(Fresh(s, j.url), j, at))
  {
    var i := Fresh(s, j.url);
    var s1 := Apply(s, Incr);
    assert forall x :: IsLive(s1, x) ==> IsLive(s, x);
    var s2 := Apply(s1, SetDelayed(i, at));
    assert IsLive(s2, i);
    assert OtherLive(s2, j);
    assert SafeAll(cfg, base, c, s2, Do(RemProcessing(j), Done));
    assert SafeAll(cfg, base, c, s1, Do(SetDelayed(i, at), Do(RemProcessing(j), Done)));
  }

  lemma StruckIdentified(s: State, j: Job, kind: FailClass)
    requires Identified(s)
    ensures Identified(Struck(s, j, kind)) && j !in Struck(s, j, kind).lease
    ensures IsLive(Struck(s, j, kind), j) == IsLive(s, j) && Fresh(Struck(s, j, kind), j.url) == Fresh(s, j.url)
  {
    assert forall i :: IsLive(Struck(s, j, kind), i) <==> IsLive(s, i);
  }

  lemma AttemptSafe(cfg: Config, base: State, c: Call, s: State, j: Job, w: Write, t: State, rest: Writes)
    requires w.SetAttempts? && w.url == j.url
    requires t == s.(lease := s.lease - {j}, attempts := s.attempts[j.url := w.n])
    requires SafeAll(cfg, base, c, t, rest)
    ensures SafeAll(cfg, base, c, s, Do(RemLease(j), Do(w, rest)))
  {
    var s1 := s.(lease := s.lease - {j});
    HarmlessDo(cfg, base, c, s1, w, t, rest);
    HarmlessDo(cfg, base, c, s, RemLease(j), s1, Do(w, rest));
  }

  lemma StrikeSafe(cfg: Config, base: State, c: Call, s: State, j: Job, w: Write, x: Write, t: State, rest: Writes)
    requires w.SetAttempts? && x.SetStrikes? && w.url == x.url == j.url
    requires t == s.(lease := s.lease - {j}, attempts := s.attempts[j.url := w.n], strikes := s.strikes[j.url := x.n])
    requires SafeAll(cfg, base, c, t, rest)
    ensures SafeAll(cfg, base, c, s, Do(RemLease(j), Do(w, Do(x, rest))))
  {
    var s2 := s.(lease := s.lease - {j}, attempts := s.attempts[j.url := w.n]);
    HarmlessDo(cfg, base, c, s2, x, t, rest);
    AttemptSafe(cfg, base, c, s, j, w, s2, Do(x, rest));
  }

  lemma StruckSafe(cfg: Config, base: State, c: Call, s: State, j: Job, kind: FailClass, tail: Writes)
    requires SafeAll(cfg, base, c, Struck(s, j, kind), tail)
    ensures SafeAll(cfg, base, c, s, Strike(s, j, kind, tail))
  {
    var w, x := SetAttempts(j.url, Get(s.attempts, j.url) + 1), SetStrikes(j.url, Strikes(s, j.url, kind));
    if kind.Strikeable? {
      StrikeSafe(cfg, base, c, s, j, w, x, Struck(s, j, kind), tail);
    } else {
      AttemptSafe(cfg, base, c, s, j, w, Struck(s, j, kind), tail);
    }
  }

  lemma FailDeadSafe(cfg: Config, s: State, c: Call)
    requires cfg.Valid() && c.Fail? && cfg.ClockOk(c.now) && c.job in s.lease && Dies(cfg, s, c.job.url, c.kind)
    ensures SafeAll(cfg, s, c, s, FailScript(cfg, s, c.job, c.kind, c.now))
  {
    var d := Dead(EXHAUSTED, QuarantineUntil(cfg, c.job.url, c.now));
    ExhaustedReason();
    BurySafe(cfg, s, c, Struck(s, c.job, c.kind), c.job, d);
    StruckSafe(cfg, s, c, s, c.job, c.kind, Bury(c.job, d));
  }

  lemma FailDelayedSafe(cfg: Config, s: State, c: Call, at: int)
    requires Identified(s) && c.Fail? && IsLive(s, c.job)
    ensures SafeAll(cfg, s, c, s, Strike(s, c.job, c.kind, Delay(Fresh(s, c.job.url), c.job, at)))
  {
    StruckIdentified(s, c.job, c.kind);
    var t := Struck(s, c.job, c.kind);
    DelaySafe(cfg, s, c, t, c.job, at);
    StruckSafe(cfg, s, c, s, c.job, c.kind, Delay(Fresh(t, c.job.url), c.job, at));
  }

  lemma FailSafe(cfg: Config, s: State, c: Call)
    requires cfg.Valid() && Identified(s) && LeasesHeld(s) && c.Fail? && Enabled(cfg, s, c)
    ensures SafeAll(cfg, s, c, s, FailScript(cfg, s, c.job, c.kind, c.now))
  {
    if c.job in s.lease {
      assert IsLive(s, c.job);
      if Dies(cfg, s, c.job.url, c.kind) {
        FailDeadSafe(cfg, s, c);
      } else {
        FailDelayedSafe(cfg, s, c, c.now + Backoff(Ladder(cfg, c.kind), Get(s.attempts, c.job.url) + 1));
      }
    }
  }

  lemma TerminalSafe(cfg: Config, s: State, c: Call)
    requires cfg.Valid() && c.Terminal? && Enabled(cfg, s, c)
    ensures SafeAll(cfg, s, c, s, TerminalScript(cfg, s, c.job, c.reason, c.now))
  {
    if c.job in s.lease {
      BurySafe(cfg, s, c, Apply(s, RemLease(c.job)), c.job, Dead(c.reason, QuarantineUntil(cfg, c.job.url, c.now)));
    }
  }

  // ---- reconcilers ----

  lemma PromotedSafe(cfg: Config, base: State, c: Call, s: State, j: Job)
    requires Consistent(cfg, s) && base.jobSeq <= s.jobSeq && !c.Lease? && j in s.delayed
    ensures OtherLive(Enqueued(s, j.url), j) && Consistent(cfg, Promoted(s, j))
  {
    var e, w := Enqueued(s, j.url), RemDelayed(j);
    assert OtherLive(e, j) by {
      EnqueueSafe(cfg, base, c, s, j.url);
      assert IsLive(s, j);
    }
    EnqueueConsistent(cfg, base, c, s, j.url);
    SafeConsistent(cfg, base, c, e, w);
    assert Apply(e, w) == Promoted(s, j);
  }

  lemma {:induction false} PromoteSafe(cfg: Config, base: State, c: Call, s: State, due: seq<Job>)
    requires Consistent(cfg, s) && base.jobSeq <= s.jobSeq && !c.Lease?
    requires forall j :: j in due ==> j in s.delayed
    requires forall a, b :: 0 <= a < b < |due| ==> due[a] != due[b]
    ensures SafeAll(cfg, base, c, s, PromoteScript(s, due))
    decreases |due|
  {
    if due != [] {
      var j := due[0];
      PromotedSafe(cfg, base, c, s, j);
      PromoteSafe(cfg, base, c, Promoted(s, j), due[1..]);
      EnqueueThen(cfg, base, c, s, j.url, Do(RemDelayed(j), PromoteScript(Promoted(s, j), due[1..])));
    }
  }

  lemma SweptConsistent(cfg: Config, base: State, c: Call, s: State, j: Job)
    requires Consistent(cfg, s) && base.jobSeq <= s.jobSeq && !c.Lease? && IsLive(s, j) && j !in s.lease
    ensures Consistent(cfg, Swept(s, j))
  {
    var e, w := Enqueued(s, j.url), RemProcessing(j);
    assert OtherLive(e, j) by {
      EnqueueSafe(cfg, base, c, s, j.url);
    }
    EnqueueConsistent(cfg, base, c, s, j.url);
    SafeConsistent(cfg, base, c, e, w);
    assert Apply(e, w) == Swept(s, j);
  }

  lemma ReapedSafe(cfg: Config, base: State, c: Call, s: State, j: Job, rest: Writes)
    requires Identified(s) && base.jobSeq <= s.jobSeq && !c.Lease? && IsLive(s, j)
    requires SafeAll(cfg, base, c, Reaped(s, j), rest)
    ensures SafeAll(cfg, base, c, s,
                    Do(RemLease(j), Do(Incr, Do(PushReady(Fresh(s, j.url)), Do(RemProcessing(j), rest)))))
  {
    UnleasedIdentified(s, j);
    ReplaceSafe(cfg, base, c, Apply(s, RemLease(j)), j, rest);
  }

  lemma ReapedConsistent(cfg: Config, base: State, c: Call, s: State, j: Job)
    requires Consistent(cfg, s) && base.jobSeq <= s.jobSeq && !c.Lease? && IsLive(s, j)
    ensures Consistent(cfg, Reaped(s, j))
  {
    SafeConsistent(cfg, base, c, s, RemLease(j));
    SweptConsistent(cfg, base, c, Apply(s, RemLease(j)), j);
  }

  lemma {:induction false} ReapSafe(cfg: Config, base: State, c: Call, s: State, expired: seq<Job>)
    requires Consistent(cfg, s) && base.jobSeq <= s.jobSeq && !c.Lease?
    ensures SafeAll(cfg, base, c, s, ReapScript(s, expired))
    decreases |expired|
  {
    if expired != [] {
      var j := expired[0];
      if j in s.lease {
        assert IsLive(s, j);
        ReapedConsistent(cfg, base, c, s, j);
        ReapSafe(cfg, base, c, Reaped(s, j), expired[1..]);
        ReapedSafe(cfg, base, c, s, j, ReapScript(Reaped(s, j), expired[1..]));
      } else {
        ReapSafe(cfg, base, c, s, expired[1..]);
      }
    }
  }

  ghost predicate AllProcessing(s: State, items: seq<Job>) {
    Descending(items) && forall j :: j in items ==> j in s.processing
  }

  lemma SweepRest(s: State, items: seq<Job>)
    requires items != [] && AllProcessing(s, items)
    ensures AllProcessing(Swept(s, items[0]), items[1..]) && AllProcessing(s, items[1..])
    ensures |Swept(s, items[0]).processing| == |s.processing| - 1 && IsLive(s, items[0])
    ensures Swept(s, items[0]).lease == s.lease && Swept(s, items[0]).delayed == s.delayed
  {
    RemoveOnly(s.processing, items[0]);
  }

  lemma SweepItemsProcessing(s: State)
    requires Descending(s.processing)
    ensures AllProcessing(s, SweepItems(s))
  {
  }

  lemma {:induction false} SweepSafe(cfg: Config, base: State, c: Call, s: State, items: seq<Job>)
    requires Consistent(cfg, s) && base.jobSeq <= s.jobSeq && !c.Lease?
    requires AllProcessing(s, items)
    ensures SafeAll(cfg, base, c, s, SweepScript(s, items))
    decreases |items|
  {
    if items != [] {
      var j := items[0];
      SweepRest(s, items);
      if j in s.lease {
        SweepSafe(cfg, base, c, s, items[1..]);
      } else {
        SweptConsistent(cfg, base, c, s, j);
        SweepSafe(cfg, base, c, Swept(s, j), items[1..]);
        ReplaceSafe(cfg, base, c, s, j, SweepScript(Swept(s, j), items[1..]));
      }
    }
  }

  // ---- all scripts ----

  lemma ScriptSafe(cfg: Config, s: State, c: Call)
    requires cfg.Valid() && Consistent(cfg, s) && Enabled(cfg, s, c)
    ensures SafeAll(cfg, s, c, s, Script(cfg, s, c))
  {
    match c
    case Lease(_) => LeaseSafe(cfg, s, c);
    case AdmitVideo(_, _, _) => AdmitVideoSafe(cfg, s, c);
    case AdmitListing(_, _) => AdmitListingSafe(cfg, s, c);
    case SeedListing(_) =>
    case Schedule(now, urls) => ScheduleSafe(cfg, s, c, s, urls, now);
    case Ack(_) => AckSafe(cfg, s, c);
    case CompleteListing(_, _, _) => CompleteSafe(cfg, s, c);
    case Nack(_) => NackSafe(cfg, s, c);
    case Fail(_, _, _) => FailSafe(cfg, s, c);
    case Terminal(_, _, _) => TerminalSafe(cfg, s, c);
    case Promote(_, jobs) => PromoteSafe(cfg, s, c, s, jobs);
    case Reap(_, jobs) => ReapSafe(cfg, s, c, s, jobs);
    case Sweep => SweepItemsProcessing(s); SweepSafe(cfg, s, c, s, SweepItems(s));
  }

  /** Whatever prefix of whatever script runs, the frontier stays consistent, job IDs are never
      reused, every covered URL stays covered unless a leased job of it is acknowledged, and only the Ack of
      a listing leaves a PENDING mark without a job. */
  lemma CrashSafe(cfg: Config, s: State, c: Call, k: nat)
    requires cfg.Valid() && Consistent(cfg, s) && Enabled(cfg, s, c)
    ensures Reached(cfg, s, c, RunPrefix(s, Script(cfg, s, c), k))
  {
    ScriptSafe(cfg, s, c);
    SafePrefix(cfg, s, c, Script(cfg, s, c), k);
  }
}
