/** Crash safety. Every script writes its destination before it removes its source; `Safe` states
    that rule for one write, every script obeys it, and obeying it is enough for any prefix of any
    script to keep the frontier consistent and to lose no work. */
module Discipline {
  import opened Keyspace
  import opened Scripts

  // ---- what holds in every state, however many scripts were cut short ----

  ghost predicate Ordered(s: State) {
    && Descending(s.ready)
    && Descending(s.processing)
    && (forall r, p :: r in s.ready && p in s.processing ==> r.id > p.id)
  }

  ghost predicate Identified(s: State) {
    && (forall j :: IsLive(s, j) ==> j.id <= s.jobSeq)
    && (forall i, j :: IsLive(s, i) && IsLive(s, j) && i.id == j.id ==> i == j)
    && (forall j :: j in s.delayed ==> j !in s.ready && j !in s.processing)
  }

  ghost predicate LeasesHeld(s: State) {
    forall j :: j in s.lease ==> j in s.processing
  }

  predicate DeadOk(cfg: Config, u: Url, d: Dead) {
    ValidReason(d.reason) && (cfg.IsVideo(u) <==> d.until == 0) && 0 <= d.until < PENDING_SCORE
  }

  ghost predicate Classed(cfg: Config, s: State) {
    && (forall u :: u in s.next ==> !cfg.IsVideo(u) && 0 <= s.next[u] <= PENDING_SCORE)
    && (forall u :: u in s.dead ==> DeadOk(cfg, u, s.dead[u]))
    && (forall u :: u in s.barren && cfg.IsVideo(u) ==> s.barren[u] == 0)
  }

  ghost predicate Consistent(cfg: Config, s: State) {
    Ordered(s) && Identified(s) && LeasesHeld(s) && Classed(cfg, s)
  }

  /** The URL needs no live job: a dead video, or a listing with a due time. */
  predicate Settled(cfg: Config, s: State, u: Url) {
    if cfg.IsVideo(u) then u in s.dead else u in s.next && s.next[u] != PENDING_SCORE
  }

  /** The frontier has not forgotten the URL. */
  ghost predicate Covered(cfg: Config, s: State, u: Url) {
    LiveUrl(s, u) || Settled(cfg, s, u)
  }

  // ---- what one (possibly aborted) script can have done since it began in base ----

  predicate Suffix<T(==)>(p: seq<T>, q: seq<T>) {
    |p| <= |q| && q[|q| - |p|..] == p
  }

  /** ready only gains fresh jobs on the left; Lease alone takes the rightmost one. */
  ghost predicate Queued(base: State, c: Call, s: State) {
    || Suffix(base.ready, s.ready)
    || (c.Lease? && base.ready != [] && s.ready == base.ready[..|base.ready| - 1])
  }

  ghost predicate Evolves(base: State, c: Call, s: State) {
    && base.jobSeq <= s.jobSeq
    && (forall j :: j in s.ready ==> j in base.ready || j.id > base.jobSeq)
    && (forall j :: IsLive(s, j) ==> IsLive(base, j) || j.id > base.jobSeq)
    && (forall j :: j in s.lease ==> j in base.lease || (c.Lease? && base.ready != [] && j == Last(base.ready)))
    && Queued(base, c, s)
  }

  /** c acknowledges a leased job of u. */
  predicate Acknowledges(base: State, c: Call, u: Url) {
    c.Ack? && c.job in base.lease && c.job.url == u
  }

  /** Ack resolves a URL for good; nothing else makes one uncovered. */
  ghost predicate Kept(cfg: Config, base: State, c: Call, s: State) {
    forall u :: Covered(cfg, base, u) ==> Covered(cfg, s, u) || Acknowledges(base, c, u)
  }

  /** A PENDING mark without a job that could release it. */
  ghost predicate Stranded(s: State, u: Url) {
    Pending(s, u) && !LiveUrl(s, u)
  }

  /** Only the Ack of a listing strands it. */
  ghost predicate StrandsOnlyAcked(cfg: Config, base: State, c: Call, s: State) {
    forall u :: Stranded(s, u) ==> Stranded(base, u) || (Acknowledges(base, c, u) && !cfg.IsVideo(u))
  }

  // ---- the rule ----

  ghost predicate FreshJob(base: State, s: State, j: Job) {
    j.id == s.jobSeq && base.jobSeq < j.id && forall i :: IsLive(s, i) ==> i.id < s.jobSeq
  }

  /** w may be issued in s by a script that began in base. */
  ghost predicate Safe(cfg: Config, base: State, c: Call, s: State, w: Write) {
    match w
    case PushReady(j) => FreshJob(base, s, j) && !c.Lease?
    case SetDelayed(j, _) => FreshJob(base, s, j)
    case MoveReady => c.Lease? && s == base && s.ready != []
    case SetLease(j, _) => c.Lease? && j in s.processing && base.ready != [] && j == Last(base.ready)
    case RemReady(j) =>
      && base.jobSeq < j.id && cfg.IsVideo(j.url)
      && (Covered(cfg, base, j.url) ==> OtherLive(s, j)) && !c.Lease?
    case RemProcessing(j) =>
      && j !in s.lease
      && (OtherLive(s, j) || Settled(cfg, s, j.url)
          || Acknowledges(base, c, j.url))
    case RemDelayed(j) => OtherLive(s, j)
    case SetNext(u, at) => !cfg.IsVideo(u) && 0 <= at <= PENDING_SCORE && (at == PENDING_SCORE ==> LiveUrl(s, u))
    case RemNext(u) => false
    case Claim(u) => c.AdmitVideo? && c.url == u
    case SetDead(u, d) => DeadOk(cfg, u, d)
    case RemDead(u) => !cfg.IsVideo(u)
    case SetBarren(u, _) => !cfg.IsVideo(u)
    case _ => true
  }

  ghost predicate SafeAll(cfg: Config, base: State, c: Call, s: State, ws: Writes)
    decreases ws
  {
    match ws
    case Done => true
    case Do(w, rest) => Safe(cfg, base, c, s, w) && SafeAll(cfg, base, c, Apply(s, w), rest)
  }

  // ---- one safe write ----

  lemma SafeOrdered(cfg: Config, base: State, c: Call, s: State, w: Write)
    requires Ordered(s) && Safe(cfg, base, c, s, w)
    ensures Ordered(Apply(s, w))
  {
    match w
    case RemReady(j) => RemoveDescending(s.ready, j); RemoveOnly(s.ready, j);
    case RemProcessing(j) => RemoveDescending(s.processing, j); RemoveOnly(s.processing, j);
    case PushReady(j) =>
      assert forall i :: i in s.ready || i in s.processing ==> IsLive(s, i);
    case _ =>
  }

  lemma SafeAdds(cfg: Config, base: State, c: Call, s: State, w: Write)
    requires Safe(cfg, base, c, s, w)
    ensures forall j :: IsLive(Apply(s, w), j) ==> IsLive(s, j) || ((w.PushReady? || w.SetDelayed?) && j == w.job)
  {
    match w
    case RemReady(j) => RemoveOnly(s.ready, j);
    case RemProcessing(j) => RemoveOnly(s.processing, j);
    case MoveReady => assert s.ready == s.ready[..|s.ready| - 1] + [Last(s.ready)];
    case _ =>
  }

  lemma SafeTakes(cfg: Config, base: State, c: Call, s: State, w: Write)
    requires Safe(cfg, base, c, s, w)
    ensures forall j :: IsLive(s, j) ==> IsLive(Apply(s, w), j)
                                         || ((w.RemReady? || w.RemProcessing? || w.RemDelayed?) && j == w.job)
  {
    match w
    case RemReady(j) => RemoveOnly(s.ready, j);
    case RemProcessing(j) => RemoveOnly(s.processing, j);
    case MoveReady => assert s.ready == s.ready[..|s.ready| - 1] + [Last(s.ready)];
    case _ =>
  }

  /** Which jobs a safe write adds to or takes from the live work. */
  lemma SafeLive(cfg: Config, base: State, c: Call, s: State, w: Write)
    requires Safe(cfg, base, c, s, w)
    ensures forall j :: IsLive(Apply(s, w), j) ==> IsLive(s, j) || ((w.PushReady? || w.SetDelayed?) && j == w.job)
    ensures forall j :: IsLive(s, j) ==> IsLive(Apply(s, w), j)
                                         || ((w.RemReady? || w.RemProcessing? || w.RemDelayed?) && j == w.job)
  {
    SafeAdds(cfg, base, c, s, w);
    SafeTakes(cfg, base, c, s, w);
  }

  lemma SafeIdentified(cfg: Config, base: State, c: Call, s: State, w: Write)
    requires Identified(s) && Safe(cfg, base, c, s, w)
    ensures Identified(Apply(s, w))
  {
    SafeLive(cfg, base, c, s, w);
    match w
    case RemReady(j) => RemoveOnly(s.ready, j);
    case RemProcessing(j) => RemoveOnly(s.processing, j);
    case PushReady(j) => assert j in s.delayed ==> IsLive(s, j);
    case SetDelayed(j, _) => assert !IsLive(s, j);
    case MoveReady => assert Last(s.ready) in s.ready;
    case _ =>
  }

  lemma SafeLeases(cfg: Config, base: State, c: Call, s: State, w: Write)
    requires LeasesHeld(s) && Safe(cfg, base, c, s, w)
    ensures LeasesHeld(Apply(s, w))
  {
    if w.RemProcessing? {
      RemoveOnly(s.processing, w.job);
    }
  }

  lemma SafeCovered(cfg: Config, base: State, c: Call, s: State, w: Write, u: Url)
    requires Safe(cfg, base, c, s, w) && Covered(cfg, s, u)
    ensures || Covered(cfg, Apply(s, w), u)
            || Acknowledges(base, c, u)
            || (w.RemReady? && w.job.url == u && !Covered(cfg, base, u))
  {
    SafeLive(cfg, base, c, s, w);
    var t := Apply(s, w);
    if LiveUrl(s, u) {
      var j :| IsLive(s, j) && j.url == u;
      assert IsLive(t, j) || OtherLive(s, j) || Settled(cfg, t, u) || Acknowledges(base, c, u) || w.RemReady?;
      if !IsLive(t, j) && OtherLive(s, j) {
        var i :| IsLive(s, i) && i != j && i.url == j.url;
        assert IsLive(t, i);
      }
    } else if w.SetNext? && w.url == u && w.at == PENDING_SCORE {
      assert false;
    }
  }

  lemma SafeStranded(cfg: Config, base: State, c: Call, s: State, w: Write, u: Url)
    requires Classed(cfg, s) && Safe(cfg, base, c, s, w) && Stranded(Apply(s, w), u)
    ensures Stranded(s, u) || (Acknowledges(base, c, u) && !cfg.IsVideo(u))
  {
    var t := Apply(s, w);
    SafeLive(cfg, base, c, s, w);
    if LiveUrl(s, u) {
      var j :| IsLive(s, j) && j.url == u;
      assert !IsLive(t, j);
    }
  }

  lemma SafeStrands(cfg: Config, base: State, c: Call, s: State, w: Write)
    requires Classed(cfg, s) && StrandsOnlyAcked(cfg, base, c, s) && Safe(cfg, base, c, s, w)
    ensures StrandsOnlyAcked(cfg, base, c, Apply(s, w))
  {
    forall u | Stranded(Apply(s, w), u)
      ensures Stranded(base, u) || (Acknowledges(base, c, u) && !cfg.IsVideo(u))
    {
      SafeStranded(cfg, base, c, s, w, u);
    }
  }

  lemma RemovedSuffix<T>(p: seq<T>, q: seq<T>, x: T)
    requires Suffix(p, q) && x !in p
    ensures Suffix(p, Remove(q, x))
  {
    var n := |q| - |p|;
    assert q == q[..n] + p;
    if x in q[..n] {
      RemoveInPrefix(q[..n], p, x);
    } else {
      RemoveAbsent(q, x);
    }
  }

  lemma SafeEvolves(cfg: Config, base: State, c: Call, s: State, w: Write)
    requires Identified(base) && Evolves(base, c, s) && Safe(cfg, base, c, s, w)
    ensures Evolves(base, c, Apply(s, w))
  {
    SafeLive(cfg, base, c, s, w);
    match w
    case RemReady(j) =>
      RemoveOnly(s.ready, j);
      assert j in base.ready ==> IsLive(base, j);
      RemovedSuffix(base.ready, s.ready, j);
    case PushReady(j) => assert Suffix(base.ready, s.ready) ==> Suffix(base.ready, [j] + s.ready);
    case _ =>
  }

  lemma SafeKept(cfg: Config, base: State, c: Call, s: State, w: Write)
    requires Kept(cfg, base, c, s) && Safe(cfg, base, c, s, w)
    ensures Kept(cfg, base, c, Apply(s, w))
  {
    forall u | Covered(cfg, base, u)
      ensures Covered(cfg, Apply(s, w), u) || Acknowledges(base, c, u)
    {
      if Covered(cfg, s, u) {
        SafeCovered(cfg, base, c, s, w, u);
      }
    }
  }

  lemma SafeClassed(cfg: Config, base: State, c: Call, s: State, w: Write)
    requires Classed(cfg, s) && Safe(cfg, base, c, s, w)
    ensures Classed(cfg, Apply(s, w))
  {
    match w
    case SetNext(_, _) =>
    case SetDead(_, _) =>
    case SetBarren(_, _) =>
    case _ => assert Apply(s, w).next.Keys <= s.next.Keys;
  }

  lemma SafeConsistent(cfg: Config, base: State, c: Call, s: State, w: Write)
    requires Consistent(cfg, s) && Safe(cfg, base, c, s, w)
    ensures Consistent(cfg, Apply(s, w))
  {
    SafeOrdered(cfg, base, c, s, w);
    SafeIdentified(cfg, base, c, s, w);
    SafeLeases(cfg, base, c, s, w);
    SafeClassed(cfg, base, c, s, w);
  }

  /** Everything a script that began in base may rely on in s. */
  ghost predicate Reached(cfg: Config, base: State, c: Call, s: State) {
    && Consistent(cfg, s) && Evolves(base, c, s)
    && Kept(cfg, base, c, s) && StrandsOnlyAcked(cfg, base, c, s)
  }

  lemma SafeReached(cfg: Config, base: State, c: Call, s: State, w: Write)
    requires Identified(base) && Reached(cfg, base, c, s) && Safe(cfg, base, c, s, w)
    ensures Reached(cfg, base, c, Apply(s, w))
  {
    SafeConsistent(cfg, base, c, s, w);
    SafeEvolves(cfg, base, c, s, w);
    SafeKept(cfg, base, c, s, w);
    SafeStrands(cfg, base, c, s, w);
  }

  /** A property kept by every safe write survives any prefix of a script that obeys the rule. */
  lemma {:induction false} PrefixInduction(cfg: Config, base: State, c: Call, P: State -> bool,
                                           s: State, ws: Writes, k: nat)
    requires forall t, w :: P(t) && Safe(cfg, base, c, t, w) ==> P(Apply(t, w))
    requires P(s) && SafeAll(cfg, base, c, s, ws)
    ensures P(RunPrefix(s, ws, k))
    decreases ws
  {
    if k > 0 && ws.Do? {
      assert P(Apply(s, ws.first));
      PrefixInduction(cfg, base, c, P, Apply(s, ws.first), ws.rest, k - 1);
    }
  }

  /** A script that obeys the rule may stop anywhere. */
  lemma SafePrefix(cfg: Config, base: State, c: Call, ws: Writes, k: nat)
    requires Consistent(cfg, base) && SafeAll(cfg, base, c, base, ws)
    ensures Reached(cfg, base, c, RunPrefix(base, ws, k))
  {
    ghost var P := t => Reached(cfg, base, c, t);
    forall t, w | P(t) && Safe(cfg, base, c, t, w)
      ensures P(Apply(t, w))
    {
      SafeReached(cfg, base, c, t, w);
    }
    PrefixInduction(cfg, base, c, P, base, ws, k);
  }
}
