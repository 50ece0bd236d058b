/** Child admission: enqueueChildren, and what makes a retry after an aborted attempt safe. */
module Children {
  import opened Keyspace
  import opened Scripts
  import opened Effects
  import opened Frontier
  import opened Laws

  /** admitURL for a canonical URL, with exact answers of the filter. */
  function AdmitCall(cfg: Config, s: State, u: Url, now: int): Call {
    if cfg.IsVideo(u) then AdmitVideo(u, now, u !in s.claimed) else AdmitListing(u, now)
  }

  /** Nothing more comes of admitting u at this clock. */
  predicate Answered(cfg: Config, s: State, u: Url, now: int) {
    if u in s.dead then s.dead[u].Blocks(now)
    else if cfg.IsVideo(u) then u in s.claimed
    else u in s.next && s.next[u] > now
  }

  predicate Blocked(s: State, u: Url, now: int) {
    u in s.dead && s.dead[u].Blocks(now)
  }

  /** The admission of u enqueues a job. */
  predicate Enqueues(cfg: Config, s: State, u: Url, now: int) {
    !Blocked(s, u, now) && if cfg.IsVideo(u) then u !in s.claimed else !(u in s.next && s.next[u] > now)
  }

  /** The frontier after one admission. */
  function Admit(cfg: Config, s: State, u: Url, now: int): State {
    var enqueues := Enqueues(cfg, s, u, now);
    if Blocked(s, u, now) then s
    else s.(jobSeq := if enqueues || cfg.IsVideo(u) then s.jobSeq + 1 else s.jobSeq,
            ready := if enqueues then [Fresh(s, u)] + s.ready else s.ready,
            dead := s.dead - {u},
            next := if enqueues && !cfg.IsVideo(u) then s.next[u := PENDING_SCORE] else s.next,
            claimed := if cfg.IsVideo(u) then s.claimed + {u} else s.claimed)
  }

  function AdmitReply(cfg: Config, s: State, u: Url, now: int): Reply {
    if u in s.dead && s.dead[u].Blocks(now) then Suppressed
    else if cfg.IsVideo(u) then if u in s.claimed then Suppressed else New
    else if u !in s.next then New
    else if s.next[u] > now then Suppressed else DueRevisit
  }

  /** Both are what the scripts do. */
  lemma AdmitIsExec(cfg: Config, s: State, u: Url, now: int)
    requires cfg.Valid()
    ensures Admit(cfg, s, u, now) == Exec(cfg, s, AdmitCall(cfg, s, u, now))
    ensures AdmitReply(cfg, s, u, now) == Answer(cfg, s, AdmitCall(cfg, s, u, now))
  {
    if cfg.IsVideo(u) {
      AdmitVideoEffect(cfg, s, AdmitCall(cfg, s, u, now));
    } else {
      AdmitListingRun(cfg, s, AdmitCall(cfg, s, u, now));
    }
  }

  /** A link to admit, and the clock reading under which it is admitted. */
  datatype Child = Child(url: Url, now: int)

  /** The frontier after every child has been admitted in turn. */
  function AdmitAll(cfg: Config, s: State, us: seq<Child>): State
    decreases |us|
  {
    if us == [] then s else AdmitAll(cfg, Admit(cfg, s, us[0].url, us[0].now), us[1..])
  }

  /** The replies on the way. */
  function Replies(cfg: Config, s: State, us: seq<Child>): (rs: seq<Reply>)
    ensures |rs| == |us|
    decreases |us|
  {
    if us == [] then []
    else [AdmitReply(cfg, s, us[0].url, us[0].now)] + Replies(cfg, Admit(cfg, s, us[0].url, us[0].now), us[1..])
  }

  function CountNew(rs: seq<Reply>): nat {
    if rs == [] then 0 else (if rs[0].New? then 1 else 0) + CountNew(rs[1..])
  }

  // ---- one admission ----

  lemma AdmitAnswers(cfg: Config, s: State, u: Url, now: int)
    requires now < PENDING_SCORE
    ensures Answered(cfg, Admit(cfg, s, u, now), u, now)
  {
  }

  lemma AnsweredStays(cfg: Config, s: State, u: Url, now: int, c: Child)
    requires Answered(cfg, s, u, now) && now < PENDING_SCORE
    ensures Answered(cfg, Admit(cfg, s, c.url, c.now), u, now)
  {
  }

  /** Repeating it is suppressed and moves nothing but the job counter. */
  lemma AnsweredIsNoop(cfg: Config, s: State, u: Url, now: int)
    requires Answered(cfg, s, u, now)
    ensures AdmitReply(cfg, s, u, now) == Suppressed
    ensures Admit(cfg, s, u, now) == s.(jobSeq := Admit(cfg, s, u, now).jobSeq)
  {
    assert u !in s.dead ==> s.dead - {u} == s.dead;
    assert cfg.IsVideo(u) && u in s.claimed ==> s.claimed + {u} == s.claimed;
  }

  // ---- frontiers alike but for job IDs ----

  /** Equal in everything but the job counter and the IDs of ready jobs. */
  predicate Alike(s: State, t: State) {
    && UrlsOf(s.ready) == UrlsOf(t.ready)
    && s == t.(jobSeq := s.jobSeq, ready := s.ready)
  }

  lemma UrlsPush(j: Job, q: seq<Job>)
    ensures UrlsOf([j] + q) == [j.url] + UrlsOf(q)
  {
  }

  lemma AlikeAdmit(cfg: Config, s: State, t: State, u: Url, now: int)
    requires Alike(s, t)
    ensures Alike(Admit(cfg, s, u, now), Admit(cfg, t, u, now))
    ensures AdmitReply(cfg, s, u, now) == AdmitReply(cfg, t, u, now)
  {
    UrlsPush(Fresh(s, u), s.ready);
    UrlsPush(Fresh(t, u), t.ready);
  }

  lemma {:induction false} AlikeAdmitAll(cfg: Config, s: State, t: State, us: seq<Child>)
    requires Alike(s, t)
    ensures Alike(AdmitAll(cfg, s, us), AdmitAll(cfg, t, us))
    ensures Replies(cfg, s, us) == Replies(cfg, t, us)
    decreases |us|
  {
    if us != [] {
      var c := us[0];
      AlikeAdmit(cfg, s, t, c.url, c.now);
      AlikeAdmitAll(cfg, Admit(cfg, s, c.url, c.now), Admit(cfg, t, c.url, c.now), us[1..]);
    }
  }

  // ---- whole link lists ----

  ghost predicate AllAnswered(cfg: Config, s: State, us: seq<Child>) {
    forall c :: c in us ==> Answered(cfg, s, c.url, c.now)
  }

  /** Clock readings stay below PENDING. */
  predicate Timely(us: seq<Child>) {
    forall c :: c in us ==> c.now < PENDING_SCORE
  }

  lemma {:induction false} AnsweredStaysAll(cfg: Config, s: State, u: Url, now: int, us: seq<Child>)
    requires Answered(cfg, s, u, now) && now < PENDING_SCORE
    ensures Answered(cfg, AdmitAll(cfg, s, us), u, now)
    decreases |us|
  {
    if us != [] {
      AnsweredStays(cfg, s, u, now, us[0]);
      AnsweredStaysAll(cfg, Admit(cfg, s, us[0].url, us[0].now), u, now, us[1..]);
    }
  }

  lemma {:induction false} AdmitAllAnswers(cfg: Config, s: State, us: seq<Child>)
    requires Timely(us)
    ensures AllAnswered(cfg, AdmitAll(cfg, s, us), us)
    decreases |us|
  {
    if us != [] {
      var c := us[0];
      var t := Admit(cfg, s, c.url, c.now);
      assert c in us && forall x :: x in us[1..] ==> x in us;
      AdmitAllAnswers(cfg, t, us[1..]);
      AdmitAnswers(cfg, s, c.url, c.now);
      AnsweredStaysAll(cfg, t, c.url, c.now, us[1..]);
      assert forall x :: x in us ==> x == c || x in us[1..];
    }
  }

  /** A run over answered URLs reports nothing new and changes nothing but the job counter. */
  lemma {:induction false} RerunIsNoop(cfg: Config, s: State, us: seq<Child>)
    requires AllAnswered(cfg, s, us) && Timely(us)
    ensures AdmitAll(cfg, s, us) == s.(jobSeq := AdmitAll(cfg, s, us).jobSeq)
    ensures forall r :: r in Replies(cfg, s, us) ==> r == Suppressed
    decreases |us|
  {
    if us != [] {
      var c := us[0];
      var t := Admit(cfg, s, c.url, c.now);
      assert c in us;
      AnsweredIsNoop(cfg, s, c.url, c.now);
      forall x | x in us[1..]
        ensures Answered(cfg, t, x.url, x.now) && x.now < PENDING_SCORE
      {
        assert x in us;
        AnsweredStays(cfg, s, x.url, x.now, c);
      }
      RerunIsNoop(cfg, t, us[1..]);
    }
  }

  lemma {:induction false} AdmitAllAppend(cfg: Config, s: State, a: seq<Child>, b: seq<Child>)
    ensures AdmitAll(cfg, s, a + b) == AdmitAll(cfg, AdmitAll(cfg, s, a), b)
    ensures Replies(cfg, s, a + b) == Replies(cfg, s, a) + Replies(cfg, AdmitAll(cfg, s, a), b)
    decreases |a|
  {
    if a == [] {
      assert a + b == b;
    } else {
      assert (a + b)[1..] == a[1..] + b;
      AdmitAllAppend(cfg, Admit(cfg, s, a[0].url, a[0].now), a[1..], b);
    }
  }

  /** An attempt that stops after k of the links, then a whole one with the same clock readings: the second
      suppresses the first k, gives the others the replies an uninterrupted attempt would have given, and ends
      in the same frontier but for job IDs. */
  lemma RetryAdmitsTheRest(cfg: Config, s: State, us: seq<Child>, k: nat)
    requires k <= |us| && Timely(us)
    ensures var t := AdmitAll(cfg, s, us[..k]);
            && (forall i :: 0 <= i < k ==> Replies(cfg, t, us)[i] == Suppressed)
            && Replies(cfg, t, us)[k..] == Replies(cfg, s, us)[k..]
            && Alike(AdmitAll(cfg, t, us), AdmitAll(cfg, s, us))
  {
    var a, b := us[..k], us[k..];
    var t := AdmitAll(cfg, s, a);
    assert us == a + b;
    AdmitAllAppend(cfg, s, a, b);
    AdmitAllAppend(cfg, t, a, b);
    AdmitAllAnswers(cfg, s, a);
    RerunIsNoop(cfg, t, a);
    forall i | 0 <= i < k
      ensures Replies(cfg, t, us)[i] == Suppressed
    {
      assert Replies(cfg, t, us)[i] == Replies(cfg, t, a)[i];
      assert Replies(cfg, t, a)[i] in Replies(cfg, t, a);
    }
    AlikeAdmitAll(cfg, AdmitAll(cfg, t, a), t, b);
  }

  lemma {:induction false} CountSuppressed(rs: seq<Reply>)
    requires forall r :: r in rs ==> r == Suppressed
    ensures CountNew(rs) == 0
  {
    if rs != [] {
      assert rs[0] in rs && forall r :: r in rs[1..] ==> r in rs;
      CountSuppressed(rs[1..]);
    }
  }

  lemma {:induction false} CountAppend(a: seq<Reply>, b: seq<Reply>)
    ensures CountNew(a + b) == CountNew(a) + CountNew(b)
  {
    if a == [] {
      assert a + b == b;
    } else {
      assert (a + b)[1..] == a[1..] + b;
      CountAppend(a[1..], b);
    }
  }

  /** The aborted attempt and its retry count each new child once, and a further run counts none and changes
      nothing but the job counter. */
  lemma RetryCounts(cfg: Config, s: State, us: seq<Child>, k: nat)
    requires k <= |us| && Timely(us)
    ensures var t := AdmitAll(cfg, s, us[..k]);
            var v := AdmitAll(cfg, t, us);
            && CountNew(Replies(cfg, s, us[..k])) + CountNew(Replies(cfg, t, us)) == CountNew(Replies(cfg, s, us))
            && CountNew(Replies(cfg, v, us)) == 0
            && AdmitAll(cfg, v, us) == v.(jobSeq := AdmitAll(cfg, v, us).jobSeq)
  {
    var t := AdmitAll(cfg, s, us[..k]);
    RetryCountsRest(cfg, s, us, k, t);
    AdmitAllAnswers(cfg, t, us);
    RerunCountsNone(cfg, AdmitAll(cfg, t, us), us);
  }

  lemma RerunCountsNone(cfg: Config, s: State, us: seq<Child>)
    requires AllAnswered(cfg, s, us) && Timely(us)
    ensures CountNew(Replies(cfg, s, us)) == 0
    ensures AdmitAll(cfg, s, us) == s.(jobSeq := AdmitAll(cfg, s, us).jobSeq)
  {
    RerunIsNoop(cfg, s, us);
    CountSuppressed(Replies(cfg, s, us));
  }

  lemma RetryCountsRest(cfg: Config, s: State, us: seq<Child>, k: nat, t: State)
    requires k <= |us| && Timely(us) && t == AdmitAll(cfg, s, us[..k])
    ensures CountNew(Replies(cfg, s, us[..k])) + CountNew(Replies(cfg, t, us)) == CountNew(Replies(cfg, s, us))
  {
    var x, y := Replies(cfg, s, us), Replies(cfg, t, us);
    RetryAdmitsTheRest(cfg, s, us, k);
    assert us == us[..k] + us[k..];
    AdmitAllAppend(cfg, s, us[..k], us[k..]);
    CountAppend(Replies(cfg, s, us[..k]), x[k..]);
    assert y == y[..k] + y[k..];
    CountAppend(y[..k], y[k..]);
    CountSuppressed(y[..k]);
  }

  // ---- what New counts ----

  /** The frontier has admitted the video, or has a due time for the listing. */
  predicate Known(cfg: Config, s: State, u: Url) {
    if cfg.IsVideo(u) then u in s.claimed else u in s.next
  }

  function ChildUrls(us: seq<Child>): set<Url> {
    set c | c in us :: c.url
  }

  /** The links that s does not know and t does. */
  function Discovered(cfg: Config, s: State, t: State, us: seq<Child>): set<Url> {
    set u | u in ChildUrls(us) && !Known(cfg, s, u) && Known(cfg, t, u)
  }

  /** An admission is answered New exactly when it makes an unknown URL known, and then the URL has its job. */
  lemma NewIsUnknown(cfg: Config, s: State, u: Url, now: int, t: State, r: Reply)
    requires cfg.Valid() && t == Admit(cfg, s, u, now) && r == AdmitReply(cfg, s, u, now)
    ensures r == New <==> !Known(cfg, s, u) && Known(cfg, t, u)
    ensures r == New ==> t.ready == [Job(s.jobSeq + 1, u)] + s.ready
    ensures forall v :: v != u ==> (Known(cfg, t, v) <==> Known(cfg, s, v))
    ensures Known(cfg, s, u) ==> Known(cfg, t, u)
  {
    AdmitIsExec(cfg, s, u, now);
    CallNew(cfg, s, u, now, AdmitCall(cfg, s, u, now), t, r);
  }

  lemma CallNew(cfg: Config, s: State, u: Url, now: int, c: Call, t: State, r: Reply)
    requires cfg.Valid() && c == AdmitCall(cfg, s, u, now) && t == Exec(cfg, s, c) && r == Answer(cfg, s, c)
    ensures r == New <==> !Known(cfg, s, u) && Known(cfg, t, u)
    ensures r == New ==> t.ready == [Job(s.jobSeq + 1, u)] + s.ready
    ensures forall v :: v != u ==> (Known(cfg, t, v) <==> Known(cfg, s, v))
    ensures Known(cfg, s, u) ==> Known(cfg, t, u)
  {
    if cfg.IsVideo(u) {
      NewVideo(cfg, s, u, now, t, r);
    } else {
      NewListing(cfg, s, u, now, t, r);
    }
  }

  lemma NewVideo(cfg: Config, s: State, u: Url, now: int, t: State, r: Reply)
    requires cfg.Valid() && cfg.IsVideo(u)
    requires var c := AdmitVideo(u, now, u !in s.claimed); t == Exec(cfg, s, c) && r == Answer(cfg, s, c)
    ensures r == New <==> u !in s.claimed && u in t.claimed
    ensures r == New ==> t.ready == [Job(s.jobSeq + 1, u)] + s.ready
    ensures t.next == s.next && s.claimed <= t.claimed <= s.claimed + {u}
  {
    AdmitVideoLaw(cfg, s, u, now, u !in s.claimed, t, r);
  }

  lemma NewListing(cfg: Config, s: State, u: Url, now: int, t: State, r: Reply)
    requires cfg.Valid() && t == Exec(cfg, s, AdmitListing(u, now)) && r == Answer(cfg, s, AdmitListing(u, now))
    ensures r == New <==> u !in s.next && u in t.next
    ensures r == New ==> t.ready == [Job(s.jobSeq + 1, u)] + s.ready
    ensures t.claimed == s.claimed && s.next.Keys <= t.next.Keys <= s.next.Keys + {u}
  {
    AdmitListingLaw(cfg, s, u, now, t, r);
  }

  lemma {:induction false} KnownElsewhere(cfg: Config, s: State, us: seq<Child>, u: Url)
    requires cfg.Valid()
    ensures Known(cfg, s, u) ==> Known(cfg, AdmitAll(cfg, s, us), u)
    ensures u !in ChildUrls(us) ==> (Known(cfg, AdmitAll(cfg, s, us), u) <==> Known(cfg, s, u))
    decreases |us|
  {
    if us != [] {
      var c := us[0];
      var r := Admit(cfg, s, c.url, c.now);
      assert us == [c] + us[1..];
      NewIsUnknown(cfg, s, c.url, c.now, r, AdmitReply(cfg, s, c.url, c.now));
      KnownElsewhere(cfg, r, us[1..], u);
    }
  }

  lemma DiscoveredFirst(cfg: Config, s: State, c: Child, r: State, us: seq<Child>, t: State, isNew: bool)
    requires forall v :: v != c.url ==> (Known(cfg, r, v) <==> Known(cfg, s, v))
    requires isNew <==> !Known(cfg, s, c.url) && Known(cfg, r, c.url)
    requires Known(cfg, s, c.url) ==> Known(cfg, r, c.url)
    requires Known(cfg, r, c.url) ==> Known(cfg, t, c.url)
    requires c.url !in ChildUrls(us) ==> (Known(cfg, t, c.url) <==> Known(cfg, r, c.url))
    ensures |Discovered(cfg, s, t, [c] + us)| == |Discovered(cfg, r, t, us)| + if isNew then 1 else 0
  {
    assert ChildUrls([c] + us) == {c.url} + ChildUrls(us);
    if isNew {
      assert Discovered(cfg, s, t, [c] + us) == Discovered(cfg, r, t, us) + {c.url};
    } else {
      assert Discovered(cfg, s, t, [c] + us) == Discovered(cfg, r, t, us);
    }
  }

  /** The New replies to a list of links are as many as the links among them that the frontier did not know before
      and knows afterwards, however often a link occurs. */
  lemma {:induction false} NewCountsUnknown(cfg: Config, s: State, us: seq<Child>)
    requires cfg.Valid()
    ensures CountNew(Replies(cfg, s, us)) == |Discovered(cfg, s, AdmitAll(cfg, s, us), us)|
    decreases |us|
  {
    if us != [] {
      var c, rest, t := us[0], us[1..], AdmitAll(cfg, s, us);
      var r, reply := Admit(cfg, s, c.url, c.now), AdmitReply(cfg, s, c.url, c.now);
      NewIsUnknown(cfg, s, c.url, c.now, r, reply);
      KnownElsewhere(cfg, r, rest, c.url);
      NewCountsUnknown(cfg, r, rest);
      DiscoveredFirst(cfg, s, c, r, rest, t, reply == New);
      assert us == [c] + rest;
      assert Replies(cfg, s, us) == [reply] + Replies(cfg, r, rest);
    }
  }

  // ---- the loop ----

  /** The children among the first n raw links: those that canonicalise to something, link i under clock(i). */
  function Canonical(canonicalize: string -> Url, links: seq<string>, clock: nat -> int, n: nat): seq<Child>
    requires n <= |links|
  {
    if n == 0 then []
    else
      var u := canonicalize(links[n - 1]);
      Canonical(canonicalize, links, clock, n - 1) + if u == "" then [] else [Child(u, clock(n - 1))]
  }

  /** The child of link k comes right after those of the links before it. */
  lemma {:induction false} CanonicalAt(canonicalize: string -> Url, links: seq<string>, clock: nat -> int, k: nat,
                                       n: nat)
    requires k < n <= |links| && canonicalize(links[k]) != ""
    ensures var p, all := |Canonical(canonicalize, links, clock, k)|, Canonical(canonicalize, links, clock, n);
            p < |all| && all[p] == Child(canonicalize(links[k]), clock(k))
  {
    if k < n - 1 {
      CanonicalAt(canonicalize, links, clock, k, n - 1);
    }
  }

  /** There are no others: as many as links that canonicalise to something. */
  lemma {:induction false} CanonicalCount(canonicalize: string -> Url, links: seq<string>, clock: nat -> int, n: nat)
    requires n <= |links|
    ensures |Canonical(canonicalize, links, clock, n)|
            == |Below(n, HasUrl(canonicalize, links))|
  {
    var p := HasUrl(canonicalize, links);
    if n == 0 {
      BelowNext(0, p);
    } else {
      CanonicalCount(canonicalize, links, clock, n - 1);
      BelowNext(n - 1, p);
      assert p(n - 1) <==> canonicalize(links[n - 1]) != "";
    }
  }

  /** The admission of link i returns an error: it is the broken one, and there is something to admit. */
  predicate Fails(canonicalize: string -> Url, links: seq<string>, broken: Option<nat>, i: nat) {
    i < |links| && broken == Some(i) && canonicalize(links[i]) != ""
  }

  /** enqueueChildren. A failing admission writes nothing. */
  method EnqueueChildren(f: RedisFrontier, canonicalize: string -> Url, links: seq<string>, clock: nat -> int,
                         broken: Option<nat>) returns (newCount: nat, ok: bool, ghost done: nat)
    requires f.cfg.Valid()
    modifies f
    ensures done <= |links| && (ok ==> done == |links|)
    ensures f.View() == AdmitAll(f.cfg, old(f.View()), Canonical(canonicalize, links, clock, done))
    ensures newCount == CountNew(Replies(f.cfg, old(f.View()), Canonical(canonicalize, links, clock, done)))
    ensures newCount == |Discovered(f.cfg, old(f.View()), f.View(), Canonical(canonicalize, links, clock, done))|
    ensures ok <==> forall i :: 0 <= i < |links| ==> !Fails(canonicalize, links, broken, i)
    ensures !ok ==> Fails(canonicalize, links, broken, done)
  {
    newCount, ok := 0, true;
    var i := 0;
    ghost var s := f.View();
    while i < |links| && ok
      invariant i <= |links|
      invariant forall k :: 0 <= k < i ==> !Fails(canonicalize, links, broken, k)
      invariant !ok ==> Fails(canonicalize, links, broken, i)
      invariant EnqueuedTo(f.cfg, canonicalize, links, clock, s, i, f.View(), newCount)
      decreases |links| - i, ok
    {
      if Fails(canonicalize, links, broken, i) {
        ok := false;
      } else {
        newCount := AdmitLink(f, s, canonicalize, links, clock, i, newCount);
        i := i + 1;
      }
    }
    done := i;
    NewCountsUnknown(f.cfg, s, Canonical(canonicalize, links, clock, i));
  }

  /** The first n links have been admitted, which took the frontier from s to v. */
  ghost predicate EnqueuedTo(cfg: Config, canonicalize: string -> Url, links: seq<string>, clock: nat -> int, s: State,
                             n: nat, v: State, newCount: nat)
  {
    && n <= |links| && v == AdmitAll(cfg, s, Canonical(canonicalize, links, clock, n))
    && newCount == CountNew(Replies(cfg, s, Canonical(canonicalize, links, clock, n)))
  }

  method AdmitLink(f: RedisFrontier, ghost s: State, canonicalize: string -> Url, links: seq<string>,
                   clock: nat -> int, i: nat, newCount: nat) returns (newCount': nat)
    requires f.cfg.Valid() && i < |links|
    requires EnqueuedTo(f.cfg, canonicalize, links, clock, s, i, f.View(), newCount)
    modifies f
    ensures EnqueuedTo(f.cfg, canonicalize, links, clock, s, i + 1, f.View(), newCount')
  {
    ghost var v := f.View();
    var reply := AdmitUrl(f, canonicalize(links[i]), clock(i));
    LinkStep(f.cfg, s, canonicalize, links, clock, i, v, f.View(), reply);
    newCount' := newCount + if reply == New then 1 else 0;
  }

  /** What admitting a possibly excluded URL does. */
  predicate AdmitsTo(cfg: Config, s: State, url: Url, now: int, t: State, r: Reply) {
    if url == "" then t == s && r == Suppressed
    else t == Admit(cfg, s, url, now) && r == AdmitReply(cfg, s, url, now)
  }

  lemma LinkStep(cfg: Config, s: State, canonicalize: string -> Url, links: seq<string>, clock: nat -> int, i: nat,
                 v: State, t: State, r: Reply)
    requires i < |links| && AdmitsTo(cfg, v, canonicalize(links[i]), clock(i), t, r)
    requires v == AdmitAll(cfg, s, Canonical(canonicalize, links, clock, i))
    ensures t == AdmitAll(cfg, s, Canonical(canonicalize, links, clock, i + 1))
    ensures CountNew(Replies(cfg, s, Canonical(canonicalize, links, clock, i + 1)))
         == CountNew(Replies(cfg, s, Canonical(canonicalize, links, clock, i))) + if r.New? then 1 else 0
  {
    AdmitSnoc(cfg, s, Canonical(canonicalize, links, clock, i), Child(canonicalize(links[i]), clock(i)));
  }

  /** admitURL. */
  method AdmitUrl(f: RedisFrontier, url: Url, now: int) returns (r: Reply)
    requires f.cfg.Valid()
    modifies f
    ensures AdmitsTo(f.cfg, old(f.View()), url, now, f.View(), r)
  {
    if url == "" {
      return Suppressed;
    }
    AdmitIsExec(f.cfg, f.View(), url, now);
    if f.cfg.IsVideo(url) {
      r := f.AdmitVideo(url, now, false);
    } else {
      r := f.AdmitListing(url, now);
    }
  }

  lemma AdmitSnoc(cfg: Config, s: State, us: seq<Child>, c: Child)
    ensures var t := AdmitAll(cfg, s, us);
            && AdmitAll(cfg, s, us + [c]) == Admit(cfg, t, c.url, c.now)
            && CountNew(Replies(cfg, s, us + [c]))
               == CountNew(Replies(cfg, s, us)) + if AdmitReply(cfg, t, c.url, c.now).New? then 1 else 0
    ensures us + [] == us
  {
    var t := AdmitAll(cfg, s, us);
    var r := AdmitReply(cfg, t, c.url, c.now);
    AdmitAllAppend(cfg, s, us, [c]);
    assert AdmitAll(cfg, t, [c]) == AdmitAll(cfg, Admit(cfg, t, c.url, c.now), [c][1..]);
    assert Replies(cfg, t, [c]) == [r];
    CountAppend(Replies(cfg, s, us), [r]);
    assert [r][1..] == [];
  }
}
