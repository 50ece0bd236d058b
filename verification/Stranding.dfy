/** Listings whose PENDING mark has lost its job, because the worker acknowledged a listing it no longer
    accepts. While Redis keeps its data such a listing is never admitted, scheduled or leased again. */
module Stranding {
  import opened Keyspace
  import opened Scripts
  import opened Discipline
  import opened Frames
  import opened CrashRuns

  lemma SubjectsLive(cfg: Config, s: State, c: Call, u: Url)
    requires Consistent(cfg, s) && Enabled(cfg, s, c) && u in Subjects(s, c)
    requires c.Lease? || c.Promote? || c.Reap? || c.Sweep?
    ensures LiveUrl(s, u)
  {
    if c.Lease? {
      assert IsLive(s, Last(s.ready));
    } else if c.Promote? {
      var j :| j in c.jobs && j.url == u;
      assert IsLive(s, j);
    } else if c.Reap? {
      var j :| j in c.jobs && j.url == u;
      assert IsLive(s, j);
    } else {
      var j :| j in SweepItems(s) && j.url == u;
      assert IsLive(s, j);
    }
  }

  lemma StaleWhenNotLive(cfg: Config, s: State, c: Call)
    requires cfg.Valid() && Consistent(cfg, s) && IsResolution(c) && !LiveUrl(s, c.job.url)
    ensures Script(cfg, s, c) == Done && Exec(cfg, s, c) == s
  {
    assert c.job in s.lease ==> IsLive(s, c.job);
    StaleIsNoop(cfg, s, c);
  }

  lemma SameStranded(s: State, t: State, u: Url)
    requires SameUrl(s, t, u) && Stranded(s, u)
    ensures Stranded(t, u)
  {
    assert forall j :: IsLive(t, j) && j.url == u ==> IsLive(s, j);
  }

  /** A call about a stranded listing issues nothing, or at most drops a dead entry. */
  lemma StrandedScript(cfg: Config, s: State, c: Call, u: Url)
    requires cfg.Valid() && Consistent(cfg, s) && Enabled(cfg, s, c) && Stranded(s, u) && u in Subjects(s, c)
    ensures Script(cfg, s, c) == Done || Script(cfg, s, c) == Do(RemDead(u), Done)
  {
    if c.Lease? || c.Promote? || c.Reap? || c.Sweep? {
      SubjectsLive(cfg, s, c, u);
    } else if IsResolution(c) {
      StaleWhenNotLive(cfg, s, c);
    }
  }

  lemma StrandedWrites(s: State, ws: Writes, k: nat, u: Url)
    requires Stranded(s, u) && (ws == Done || ws == Do(RemDead(u), Done))
    ensures Stranded(RunPrefix(s, ws, k), u)
  {
    if ws.Do? && k > 0 {
      var t := Apply(s, RemDead(u));
      assert RunPrefix(s, ws, k) == RunPrefix(t, Done, k - 1) == t;
      assert forall j :: IsLive(t, j) <==> IsLive(s, j);
    }
  }

  lemma StrandedStep(cfg: Config, s: State, c: Call, k: nat, u: Url)
    requires cfg.Valid() && Consistent(cfg, s) && Enabled(cfg, s, c) && Stranded(s, u)
    ensures Stranded(RunPrefix(s, Script(cfg, s, c), k), u)
  {
    if u in Subjects(s, c) {
      StrandedScript(cfg, s, c, u);
      StrandedWrites(s, Script(cfg, s, c), k, u);
    } else {
      CutFrame(cfg, s, c, k, u);
      SameStranded(s, RunPrefix(s, Script(cfg, s, c), k), u);
    }
  }

  /** Once stranded, a listing stays PENDING without a job through every run, cut scripts included. */
  lemma {:induction false} StrandedForever(cfg: Config, h: History, i: nat, m: nat, u: Url)
    requires IsRun(cfg, h) && i <= m <= |h.calls| && Stranded(h.states[i], u)
    ensures Stranded(h.states[m], u)
    decreases m
  {
    if i < m {
      StrandedForever(cfg, h, i, m - 1, u);
      RunConsistent(cfg, h, m - 1);
      StrandedStep(cfg, h.states[m - 1], h.calls[m - 1], h.cuts[m - 1], u);
    }
  }
}
