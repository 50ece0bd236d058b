/** The startup reconcile of the Bloom filter with the stored videos, and what it is for: a stored video is
    never admitted as new. */
module Videos {
  import opened Keyspace
  import opened Scripts
  import opened Effects
  import opened Exactness
  import opened Frames
  import opened Discipline
  import opened CrashSafety
  import opened CrashRuns
  import opened Stranding
  import Runs

  function Concat(bs: seq<seq<Url>>): seq<Url> {
    if bs == [] then [] else Concat(bs[..|bs| - 1]) + bs[|bs| - 1]
  }

  lemma ConcatSnoc(bs: seq<seq<Url>>, b: seq<Url>)
    ensures Concat(bs + [b]) == Concat(bs) + b
  {
    assert (bs + [b])[..|bs|] == bs;
  }

  /** A filter without false negatives, and the batches it was given. broken is the batch that fails. */
  class Bloom {
    var claimed: set<Url>
    ghost var batches: seq<seq<Url>>
    const broken: Option<nat>
    const partial: nat              // how much of that batch is added all the same
    var calls: nat

    ghost predicate Valid()
      reads this
    {
      forall u :: u in Concat(batches) ==> u in claimed
    }

    constructor (claimed: set<Url>, broken: Option<nat>, partial: nat)
      ensures Valid() && this.claimed == claimed && batches == [] && this.broken == broken
    {
      this.claimed, batches, this.broken, this.partial, calls := claimed, [], broken, partial, 0;
    }

    /** BloomAddBatch: a pipeline of BF.ADD. */
    method AddBatch(urls: seq<Url>) returns (ok: bool)
      requires Valid()
      modifies this
      ensures Valid() && old(claimed) <= claimed
      ensures batches == if ok then old(batches) + [urls] else old(batches)
      ensures broken.None? ==> ok
    {
      ok := broken != Some(calls);
      calls := calls + 1;
      if ok {
        ConcatSnoc(batches, urls);
        batches := batches + [urls];
      }
      var n := if ok || partial > |urls| then |urls| else partial;
      var i := 0;
      while i < n
        invariant i <= n && old(claimed) <= claimed && forall k :: 0 <= k < i ==> urls[k] in claimed
        modifies this`claimed
      {
        claimed := claimed + {urls[i]};
        i := i + 1;
      }
    }
  }

  ghost predicate Bounded(bs: seq<seq<Url>>, batch: nat) {
    forall b :: b in bs ==> 1 <= |b| && (|b| <= batch || |b| == 1)
  }

  /** What has been passed on and what is still buffered make up the first i documents. */
  ghost predicate Streamed(stored: seq<Url>, i: nat, passed: seq<Url>, urls: seq<Url>) {
    i <= |stored| && passed + urls == stored[..i]
  }

  lemma StreamOne(stored: seq<Url>, i: nat, passed: seq<Url>, urls: seq<Url>)
    requires Streamed(stored, i, passed, urls) && i < |stored|
    ensures Streamed(stored, i + 1, passed, urls + [stored[i]])
  {
    assert passed + (urls + [stored[i]]) == (passed + urls) + [stored[i]];
  }

  lemma StreamFlush(stored: seq<Url>, i: nat, passed: seq<Url>, urls: seq<Url>)
    requires Streamed(stored, i, passed, urls)
    ensures Streamed(stored, i, passed + urls, []) && passed <= stored
  {
    assert (passed + urls) + [] == passed + urls;
    assert passed == (passed + urls)[..|passed|] == stored[..|passed|];
  }

  lemma BoundedSnoc(bs: seq<seq<Url>>, b: seq<Url>, batch: nat)
    requires Bounded(bs, batch) && 1 <= |b| && (|b| <= batch || |b| == 1)
    ensures Bounded(bs + [b], batch)
  {
  }

  /** EachVideoURL: every stored URL exactly once, in cursor order, in batches of at most `batch`. lost is how
      many documents the cursor yields before it fails. */
  method EachVideoUrl(stored: seq<Url>, batch: nat, bloom: Bloom, lost: Option<nat>) returns (ok: bool)
    requires bloom.Valid() && bloom.batches == []
    modifies bloom
    ensures bloom.Valid() && old(bloom.claimed) <= bloom.claimed && Bounded(bloom.batches, batch)
    ensures Concat(bloom.batches) <= stored
    ensures ok ==> Concat(bloom.batches) == stored
    ensures lost.None? && bloom.broken.None? ==> ok
  {
    var urls: seq<Url>, i := [], 0;
    while i < |stored|
      invariant Streamed(stored, i, Concat(bloom.batches), urls) && (|urls| < batch || urls == [])
      invariant bloom.Valid() && old(bloom.claimed) <= bloom.claimed && Bounded(bloom.batches, batch)
    {
      StreamFlush(stored, i, Concat(bloom.batches), urls);
      if lost == Some(i) {
        return false;
      }
      StreamOne(stored, i, Concat(bloom.batches), urls);
      urls := urls + [stored[i]];
      i := i + 1;
      if |urls| >= batch {
        StreamFlush(stored, i, Concat(bloom.batches), urls);
        ok := Pass(urls, batch, bloom);
        if !ok {
          return;
        }
        urls := [];
      }
    }
    StreamFlush(stored, i, Concat(bloom.batches), urls);
    assert stored[..i] == stored;
    if lost.Some? && lost.value >= |stored| {
      return false;
    }
    ok := true;
    if |urls| > 0 {
      ok := Pass(urls, batch, bloom);
    } else {
      assert Concat(bloom.batches) + [] == Concat(bloom.batches);
    }
  }

  /** The call of fn with a nonempty batch. */
  method Pass(urls: seq<Url>, batch: nat, bloom: Bloom) returns (ok: bool)
    requires bloom.Valid() && Bounded(bloom.batches, batch) && 1 <= |urls| && (|urls| <= batch || |urls| == 1)
    modifies bloom
    ensures bloom.Valid() && old(bloom.claimed) <= bloom.claimed && Bounded(bloom.batches, batch)
    ensures Concat(bloom.batches) == if ok then old(Concat(bloom.batches)) + urls else old(Concat(bloom.batches))
    ensures bloom.broken.None? ==> ok
  {
    ConcatSnoc(bloom.batches, urls);
    BoundedSnoc(bloom.batches, urls, batch);
    ok := bloom.AddBatch(urls);
  }

  /** reconcileBloomFromMongo: afterwards the filter knows every stored video. */
  method Reconcile(stored: seq<Url>, batch: nat, bloom: Bloom, lost: Option<nat>) returns (ok: bool)
    requires bloom.Valid() && bloom.batches == []
    modifies bloom
    ensures old(bloom.claimed) <= bloom.claimed
    ensures ok ==> forall u :: u in stored ==> u in bloom.claimed
  {
    ok := EachVideoUrl(stored, batch, bloom, lost);
  }

  // ---- from then on ----

  lemma ClaimKept(s: State, w: Write)
    ensures s.claimed <= Apply(s, w).claimed
  {
  }

  lemma {:induction false} ClaimsKept(s: State, ws: Writes, k: nat)
    ensures s.claimed <= RunPrefix(s, ws, k).claimed
    decreases ws
  {
    if k > 0 && ws.Do? {
      var t := Apply(s, ws.first);
      ClaimKept(s, ws.first);
      ClaimsKept(t, ws.rest, k - 1);
    }
  }

  lemma {:induction false} ClaimsKeptOver(cfg: Config, h: History, i: nat, j: nat)
    requires IsRun(cfg, h) && i <= j <= |h.calls|
    ensures h.states[i].claimed <= h.states[j].claimed
    decreases j
  {
    if i < j {
      ClaimsKeptOver(cfg, h, i, j - 1);
      ClaimsKept(h.states[j - 1], Script(cfg, h.states[j - 1], h.calls[j - 1]), h.cuts[j - 1]);
    }
  }

  /** Call i admits u as a new video and runs to its end. */
  ghost predicate NewAt(cfg: Config, h: History, i: nat, u: Url)
    requires IsRun(cfg, h) && i < |h.calls|
  {
    var s, c := h.states[i], h.calls[i];
    && c.AdmitVideo? && c.url == u && Answer(cfg, s, c) == New
    && h.cuts[i] >= Length(Script(cfg, s, c))
  }

  lemma NewClaims(cfg: Config, h: History, i: nat, u: Url)
    requires IsRun(cfg, h) && i < |h.calls| && NewAt(cfg, h, i, u)
    ensures u !in h.states[i].claimed && u in h.states[i + 1].claimed
  {
    var s, c := h.states[i], h.calls[i];
    assert Enabled(cfg, s, c);
    WholePrefix(s, Script(cfg, s, c), h.cuts[i]);
    AdmitVideoEffect(cfg, s, c);
  }

  /** A video is new at most once, and never if the filter knew it, however calls interleave and break off. */
  lemma NewAtMostOnce(cfg: Config, h: History, i: nat, j: nat, u: Url)
    requires IsRun(cfg, h) && i <= j < |h.calls|
    requires u in h.states[i].claimed || (i < j && NewAt(cfg, h, i, u))
    ensures !NewAt(cfg, h, j, u)
  {
    if NewAt(cfg, h, j, u) {
      NewClaims(cfg, h, j, u);
      ClaimsKeptOver(cfg, h, i, j);
      NewClaims(cfg, h, i, u);
      ClaimsKeptOver(cfg, h, i + 1, j);
      assert false;
    }
  }

  /** Some job of u was on lease at some point up to state n. */
  ghost predicate HadOnLease(states: seq<State>, n: nat, u: Url)
    requires n < |states|
  {
    exists k: nat :: k <= n && LeasedIn(states[k], u)
  }

  ghost predicate LeasedIn(s: State, u: Url) {
    exists j :: j in s.lease && j.url == u
  }

  /** A worker stores only videos it has had on lease. */
  ghost predicate StoresOnly(cfg: Config, states: seq<State>, n: nat, before: set<Url>, after: set<Url>)
    requires n < |states|
  {
    forall u :: u in after && u !in before ==> cfg.IsVideo(u) && HadOnLease(states, n, u)
  }

  /** stored[i] is what Mongo holds before call i. */
  ghost predicate Stores(cfg: Config, states: seq<State>, stored: seq<set<Url>>) {
    && |stored| == |states|
    && forall i :: 0 < i < |stored| ==> StoresOnly(cfg, states, i - 1, stored[i - 1], stored[i])
  }

  lemma LeasedIsClaimed(cfg: Config, s: State, j: Job)
    requires Exact(cfg, s) && j in s.lease && cfg.IsVideo(j.url)
    ensures j.url in s.claimed
  {
    assert IsLive(s, j);
  }

  lemma {:induction false} TraceClaims(cfg: Config, tr: Runs.Trace, i: nat, j: nat)
    requires Runs.IsTrace(cfg, tr) && i <= j <= |tr.calls|
    ensures tr.states[i].claimed <= tr.states[j].claimed
  {
    var h := Runs.TraceIsRun(cfg, tr);
    ClaimsKeptOver(cfg, h, i, j);
  }

  /** After a reconcile the stored videos stay inside the filter for the whole run. */
  lemma {:induction false} StoredStaysClaimed(cfg: Config, tr: Runs.Trace, stored: seq<set<Url>>, i: nat)
    requires Runs.IsTrace(cfg, tr) && Stores(cfg, tr.states, stored) && i < |stored|
    requires stored[0] <= tr.states[0].claimed
    ensures stored[i] <= tr.states[i].claimed
  {
    if i > 0 {
      StoredStaysClaimed(cfg, tr, stored, i - 1);
      TraceClaims(cfg, tr, i - 1, i);
      forall u | u in stored[i] && u !in stored[i - 1]
        ensures u in tr.states[i].claimed
      {
        assert StoresOnly(cfg, tr.states, i - 1, stored[i - 1], stored[i]);
        var k: nat :| k <= i - 1 && LeasedIn(tr.states[k], u);
        var j :| j in tr.states[k].lease && j.url == u;
        Runs.TraceExact(cfg, tr, k);
        LeasedIsClaimed(cfg, tr.states[k], j);
        TraceClaims(cfg, tr, k, i);
      }
    }
  }

  // ---- the same with scripts that are cut short ----

  /** Writes that AdmitVideo issues before INCR. */
  function Lead(s: State, u: Url): nat {
    if u in s.dead then 1 else 0
  }

  /** Call k is an AdmitVideo of u that gets past the dead check. */
  ghost predicate AdmitsAt(cfg: Config, h: History, k: nat, u: Url)
    requires IsRun(cfg, h) && k < |h.calls|
  {
    var s, c := h.states[k], h.calls[k];
    c.AdmitVideo? && c.url == u && !(u in s.dead && s.dead[u].Blocks(c.now))
  }

  /** It also reaches BF.ADD. */
  ghost predicate ClaimsUrlAt(cfg: Config, h: History, k: nat, u: Url)
    requires IsRun(cfg, h) && k < |h.calls|
  {
    AdmitsAt(cfg, h, k, u) && h.cuts[k] >= Lead(h.states[k], u) + 3
  }

  /** It stops between LPUSH and BF.ADD. */
  ghost predicate CutAt(cfg: Config, h: History, k: nat, u: Url)
    requires IsRun(cfg, h) && k < |h.calls|
  {
    AdmitsAt(cfg, h, k, u) && h.cuts[k] == Lead(h.states[k], u) + 2
  }

  lemma FreshPrefix(s: State, u: Url, rest: Writes, k: nat)
    ensures var t := RunPrefix(s, Do(Incr, Do(PushReady(Fresh(s, u)), Do(Claim(u), rest))), k);
            && (k <= 1 ==> t.ready == s.ready && t.processing == s.processing && t.delayed == s.delayed)
            && (k == 2 ==> t.ready == [Fresh(s, u)] + s.ready && t.dead == s.dead)
            && (k <= 2 ==> t.claimed == s.claimed)
            && (k >= 3 ==> u in t.claimed)
  {
    var s1 := Apply(s, Incr);
    var s2 := Apply(s1, PushReady(Fresh(s, u)));
    var s3 := Apply(s2, Claim(u));
    var ws1 := Do(PushReady(Fresh(s, u)), Do(Claim(u), rest));
    if k >= 1 {
      assert RunPrefix(s, Do(Incr, ws1), k) == RunPrefix(s1, ws1, k - 1);
    }
    if k == 2 {
      assert RunPrefix(s1, ws1, 1) == RunPrefix(s2, Do(Claim(u), rest), 0) == s2;
    }
    if k >= 3 {
      assert RunPrefix(s1, ws1, k - 1) == RunPrefix(s2, Do(Claim(u), rest), k - 2) == RunPrefix(s3, rest, k - 3);
      ClaimsKept(s3, rest, k - 3);
    }
  }

  lemma AdmitPrefix(s: State, u: Url, now: int, added: bool, k: nat)
    requires !(u in s.dead && s.dead[u].Blocks(now))
    ensures var t := RunPrefix(s, AdmitVideoScript(s, u, now, added), k);
            && (k <= Lead(s, u) + 1 ==> t.ready == s.ready && t.processing == s.processing && t.delayed == s.delayed)
            && (k == Lead(s, u) + 2 ==> t.ready == [Fresh(s, u)] + s.ready && t.dead == s.dead - {u})
            && (k <= Lead(s, u) + 2 ==> t.claimed == s.claimed)
            && (k >= Lead(s, u) + 3 ==> u in t.claimed)
  {
    var rest := if added then Done else Do(RemReady(Fresh(s, u)), Done);
    if u in s.dead {
      if k > 0 {
        FreshPrefix(Apply(s, RemDead(u)), u, rest, k - 1);
      }
    } else {
      FreshPrefix(s, u, rest, k);
    }
  }

  // ---- which videos the filter knows ----

  lemma UnclaimedWrite(cfg: Config, base: State, c: Call, s: State, w: Write, u: Url)
    requires Safe(cfg, base, c, s, w) && !(c.AdmitVideo? && c.url == u)
    ensures u in Apply(s, w).claimed <==> u in s.claimed
  {
  }

  lemma {:induction false} UnclaimedPrefix(cfg: Config, base: State, c: Call, s: State, ws: Writes, k: nat, u: Url)
    requires SafeAll(cfg, base, c, s, ws) && !(c.AdmitVideo? && c.url == u)
    ensures u in RunPrefix(s, ws, k).claimed <==> u in s.claimed
    decreases ws
  {
    if k > 0 && ws.Do? {
      var t := Apply(s, ws.first);
      UnclaimedWrite(cfg, base, c, s, ws.first, u);
      UnclaimedPrefix(cfg, base, c, t, ws.rest, k - 1, u);
    }
  }

  lemma ClaimedStep(cfg: Config, h: History, i: nat, u: Url)
    requires IsRun(cfg, h) && i < |h.calls|
    ensures u in h.states[i + 1].claimed <==> u in h.states[i].claimed || ClaimsUrlAt(cfg, h, i, u)
  {
    var s, c, k := h.states[i], h.calls[i], h.cuts[i];
    ClaimsKept(s, Script(cfg, s, c), k);
    if AdmitsAt(cfg, h, i, u) {
      AdmitPrefix(s, u, c.now, c.added, k);
    } else if !(c.AdmitVideo? && c.url == u) {
      RunConsistent(cfg, h, i);
      ScriptSafe(cfg, s, c);
      UnclaimedPrefix(cfg, s, c, s, Script(cfg, s, c), k, u);
    }
  }

  /** Over every run, cut scripts included: the filter knows a URL exactly when it knew it at first or some
      admission of it that passed the dead check got as far as BF.ADD. */
  lemma {:induction false} ClaimedIff(cfg: Config, h: History, i: nat, u: Url)
    requires IsRun(cfg, h) && i <= |h.calls|
    ensures u in h.states[i].claimed
       <==> u in h.states[0].claimed || exists k: nat :: k < i && ClaimsUrlAt(cfg, h, k, u)
  {
    if i > 0 {
      ClaimedIff(cfg, h, i - 1, u);
      ClaimedStep(cfg, h, i - 1, u);
    }
  }

  // ---- stored videos ----

  /** A video live but unknown to the filter was so before, or has just been admitted by a call cut at the
      one place between LPUSH and BF.ADD. */
  lemma UnclaimedStep(cfg: Config, h: History, i: nat, u: Url)
    requires IsRun(cfg, h) && i < |h.calls| && cfg.IsVideo(u)
    requires LiveUrl(h.states[i + 1], u) && u !in h.states[i + 1].claimed && !LiveUrl(h.states[i], u)
    ensures CutAt(cfg, h, i, u)
  {
    var s, c, k := h.states[i], h.calls[i], h.cuts[i];
    RunConsistent(cfg, h, i);
    if u !in Subjects(s, c) {
      CutFrame(cfg, s, c, k, u);
    } else if c.Lease? || c.Promote? || c.Reap? || c.Sweep? {
      SubjectsLive(cfg, s, c, u);
    } else if IsResolution(c) {
      StaleWhenNotLive(cfg, s, c);
    } else if c.AdmitVideo? && !(u in s.dead && s.dead[u].Blocks(c.now)) {
      AdmitPrefix(s, u, c.now, c.added, k);
    }
  }

  ghost predicate WasCut(cfg: Config, h: History, n: nat, u: Url)
    requires IsRun(cfg, h) && n <= |h.calls|
  {
    exists k: nat :: k < n && CutAt(cfg, h, k, u)
  }

  ghost predicate WasClaimed(cfg: Config, h: History, n: nat, u: Url)
    requires IsRun(cfg, h) && n <= |h.calls|
  {
    u in h.states[0].claimed || exists k: nat :: k < n && ClaimsUrlAt(cfg, h, k, u)
  }

  ghost predicate VideosClaimed(cfg: Config, s: State) {
    forall u :: cfg.IsVideo(u) && LiveUrl(s, u) ==> u in s.claimed
  }

  lemma {:induction false} LiveClaimedOrCut(cfg: Config, h: History, i: nat, u: Url)
    requires IsRun(cfg, h) && i <= |h.calls| && VideosClaimed(cfg, h.states[0])
    requires cfg.IsVideo(u) && LiveUrl(h.states[i], u)
    ensures u in h.states[i].claimed || WasCut(cfg, h, i, u)
  {
    if i > 0 && u !in h.states[i].claimed {
      if LiveUrl(h.states[i - 1], u) {
        LiveClaimedOrCut(cfg, h, i - 1, u);
        ClaimsKeptOver(cfg, h, i - 1, i);
      } else {
        UnclaimedStep(cfg, h, i - 1, u);
      }
    }
  }

  lemma LeasedClaimedOrCut(cfg: Config, h: History, k: nat, i: nat, u: Url)
    requires IsRun(cfg, h) && k <= i <= |h.calls| && VideosClaimed(cfg, h.states[0])
    requires cfg.IsVideo(u) && LeasedIn(h.states[k], u)
    ensures u in h.states[i].claimed || WasCut(cfg, h, i, u)
  {
    var j :| j in h.states[k].lease && j.url == u;
    RunConsistent(cfg, h, k);
    assert IsLive(h.states[k], j);
    LiveClaimedOrCut(cfg, h, k, u);
    ClaimsKeptOver(cfg, h, k, i);
  }

  lemma {:induction false} StoredClaimedOrCut(cfg: Config, h: History, stored: seq<set<Url>>, i: nat, u: Url)
    requires IsRun(cfg, h) && Stores(cfg, h.states, stored) && i < |stored| && u in stored[i]
    requires stored[0] <= h.states[0].claimed && VideosClaimed(cfg, h.states[0])
    ensures u in h.states[i].claimed || WasCut(cfg, h, i, u)
  {
    if i > 0 {
      if u in stored[i - 1] {
        StoredClaimedOrCut(cfg, h, stored, i - 1, u);
        ClaimsKeptOver(cfg, h, i - 1, i);
      } else {
        assert StoresOnly(cfg, h.states, i - 1, stored[i - 1], stored[i]);
        var k: nat :| k <= i - 1 && LeasedIn(h.states[k], u);
        LeasedClaimedOrCut(cfg, h, k, i, u);
      }
    }
  }

  /** However scripts are cut short, a stored video is outside the filter exactly when no admission of it reached
      BF.ADD; and then one of them stopped just before, between LPUSH and BF.ADD. */
  lemma StoredOutsideIff(cfg: Config, h: History, stored: seq<set<Url>>, i: nat, u: Url)
    requires IsRun(cfg, h) && Stores(cfg, h.states, stored) && i < |stored| && u in stored[i]
    requires stored[0] <= h.states[0].claimed && VideosClaimed(cfg, h.states[0])
    ensures u !in h.states[i].claimed <==> WasCut(cfg, h, i, u) && !WasClaimed(cfg, h, i, u)
  {
    ClaimedIff(cfg, h, i, u);
    StoredClaimedOrCut(cfg, h, stored, i, u);
  }

  // ---- and such videos do occur ----

  /** h followed by the first cut writes of c. */
  ghost function Extend(cfg: Config, h: History, c: Call, cut: nat): History
    requires IsRun(cfg, h)
  {
    var s := Last(h.states);
    History(h.states + [RunPrefix(s, Script(cfg, s, c), cut)], h.calls + [c], h.cuts + [cut])
  }

  lemma ExtendIsRun(cfg: Config, h: History, c: Call, cut: nat)
    requires IsRun(cfg, h) && Enabled(cfg, Last(h.states), c)
    ensures IsRun(cfg, Extend(cfg, h, c, cut))
  {
    var g := Extend(cfg, h, c, cut);
    forall i | 0 <= i < |g.calls|
      ensures Enabled(cfg, g.states[i], g.calls[i])
      ensures g.states[i + 1] == RunPrefix(g.states[i], Script(cfg, g.states[i], g.calls[i]), g.cuts[i])
    {
      if i < |h.calls| {
        assert g.states[i] == h.states[i] && g.states[i + 1] == h.states[i + 1] && g.calls[i] == h.calls[i];
      }
    }
  }

  /** One Lease, run to its end. */
  lemma LeaseNext(cfg: Config, s: State, now: int, t: State)
    requires cfg.Valid() && s.ready != []
    requires t == RunPrefix(s, Script(cfg, s, Call.Lease(now)), 2)
    ensures t.ready == s.ready[..|s.ready| - 1] && Last(s.ready) in t.lease
    ensures t.claimed == s.claimed && t.dead == s.dead
  {
    var ws := Script(cfg, s, Call.Lease(now));
    var s1 := Apply(s, MoveReady);
    assert RunPrefix(s, ws, 2) == RunPrefix(s1, ws.rest, 1) == RunPrefix(Apply(s1, ws.rest.first), Done, 0);
  }

  /** Enough leases reach the job at the left end of ready. */
  lemma {:induction false} LeaseAll(cfg: Config, h: History, now: int) returns (g: History)
    requires IsRun(cfg, h) && Last(h.states).ready != []
    ensures IsRun(cfg, g) && h.states <= g.states && h.calls <= g.calls
    ensures Last(h.states).ready[0] in Last(g.states).lease
    ensures Last(g.states).claimed == Last(h.states).claimed && Last(g.states).dead == Last(h.states).dead
    decreases |Last(h.states).ready|
  {
    var s, c := Last(h.states), Call.Lease(now);
    g := Extend(cfg, h, c, 2);
    ExtendIsRun(cfg, h, c, 2);
    LeaseNext(cfg, s, now, Last(g.states));
    if |s.ready| > 1 {
      g := LeaseAll(cfg, g, now);
    }
  }

  lemma OneState(cfg: Config, s: State) returns (h: History)
    requires cfg.Valid() && Consistent(cfg, s)
    ensures IsRun(cfg, h) && h == History([s], [], [])
  {
    h := History([s], [], []);
  }

  /** From any state that knows nothing of video u: an admission cut between LPUSH and BF.ADD, then leases until a
      worker has the job. */
  lemma CutThenLeased(cfg: Config, s: State, u: Url, now: int) returns (h: History)
    requires cfg.Valid() && Consistent(cfg, s) && cfg.IsVideo(u) && u !in s.dead && u !in s.claimed
    ensures IsRun(cfg, h) && h.states[0] == s
    ensures var t := Last(h.states); LeasedIn(t, u) && u !in t.claimed && u !in t.dead
  {
    var h0 := OneState(cfg, s);
    var c := Call.AdmitVideo(u, now, true);
    ExtendIsRun(cfg, h0, c, 2);
    AdmitPrefix(s, u, now, true, 2);
    var h1 := Extend(cfg, h0, c, 2);
    assert Last(h1.states).ready[0] == Fresh(s, u);
    h := LeaseAll(cfg, h1, now);
    assert h.states[0] == h1.states[0];
  }

  lemma StoreAt(cfg: Config, states: seq<State>, n: nat, u: Url) returns (stored: seq<set<Url>>)
    requires cfg.IsVideo(u) && 0 < n < |states| && LeasedIn(states[n - 1], u)
    ensures Stores(cfg, states, stored) && stored[0] == {} && u in stored[n]
  {
    stored := seq(|states|, i => if i < n then {} else {u});
    forall i | 0 < i < |stored|
      ensures StoresOnly(cfg, states, i - 1, stored[i - 1], stored[i])
    {
      if i == n {
        assert HadOnLease(states, i - 1, u);
      }
    }
  }

  lemma NewNext(cfg: Config, h: History, u: Url, now: int) returns (g: History)
    requires IsRun(cfg, h) && cfg.IsVideo(u) && u !in Last(h.states).claimed && u !in Last(h.states).dead
    ensures IsRun(cfg, g) && h.states <= g.states && |g.calls| == |h.calls| + 1 && NewAt(cfg, g, |h.calls|, u)
  {
    var s, c := Last(h.states), Call.AdmitVideo(u, now, true);
    var k := Length(Script(cfg, s, c));
    ExtendIsRun(cfg, h, c, k);
    g := Extend(cfg, h, c, k);
  }

  /** The video is stored, the filter still does not know it, and another admission answers New. */
  lemma StoredThenNew(cfg: Config, s: State, u: Url, now: int) returns (h: History, stored: seq<set<Url>>, n: nat)
    requires cfg.Valid() && Consistent(cfg, s) && cfg.IsVideo(u) && u !in s.dead && u !in s.claimed
    ensures IsRun(cfg, h) && h.states[0] == s && Stores(cfg, h.states, stored) && stored[0] == {}
    ensures n < |h.calls| && u in stored[n] && u !in h.states[n].claimed && NewAt(cfg, h, n, u)
  {
    var h2 := CutThenLeased(cfg, s, u, now);
    var t := Last(h2.states);
    ExtendIsRun(cfg, h2, Call.Lease(now), 0);
    var h3 := Extend(cfg, h2, Call.Lease(now), 0);
    assert Last(h3.states) == t;
    n := |h3.calls|;
    h := NewNext(cfg, h3, u, now);
    assert h.states[n] == h3.states[n] && h.states[n - 1] == h3.states[n - 1] == t && h.states[0] == h3.states[0];
    stored := StoreAt(cfg, h.states, n, u);
  }
}
