/**
  What the publish protocol guarantees over whole runs, and where its own documentation promises
  more than the statements deliver.
 */
module PublishTheorems {
  import opened Platforms
  import opened PublishProtocol
  import opened PublishSafety

  // ---------------------------------------------------------------- at most one live post

  ghost predicate Targets(s: State, i: nat, content: ContentId, platform: Platform)
    requires i < |s.log|
  {
    s.log[i].post in s.posts && s.posts[s.log[i].post].content == content
      && s.posts[s.log[i].post].platform == platform
  }

  /** Live posts the adapters have made for one (content, platform), among the first n calls. */
  ghost function LivePosts(s: State, content: ContentId, platform: Platform, n: nat): nat
    requires n <= |s.log|
  {
    if n == 0 then 0
    else
      var here := if Targets(s, n - 1, content, platform) && s.log[n - 1].live then 1 else 0;
      LivePosts(s, content, platform, n - 1) + here
  }

  /** Of those, the ones an adapter error or an admin wrongly declared "not posted". */
  ghost function FalseVerdicts(s: State, content: ContentId, platform: Platform, n: nat): nat
    requires n <= |s.log|
  {
    if n == 0 then 0
    else
      var here :=
        if Targets(s, n - 1, content, platform) && s.log[n - 1].live && s.log[n - 1].refuted then 1 else 0;
      FalseVerdicts(s, content, platform, n - 1) + here
  }

  lemma {:induction false} RefutedCancel(s: State, content: ContentId, platform: Platform, n: nat)
    requires n <= |s.log|
    requires forall i | 0 <= i < n && Targets(s, i, content, platform) && s.log[i].live :: s.log[i].refuted
    ensures LivePosts(s, content, platform, n) == FalseVerdicts(s, content, platform, n)
  {
    if n > 0 {
      RefutedCancel(s, content, platform, n - 1);
    }
  }

  lemma {:induction false} LiveBoundPrefix(s: State, content: ContentId, platform: Platform, n: nat)
    requires AtMostOneUnrefuted(s) && n <= |s.log|
    ensures LivePosts(s, content, platform, n) <= 1 + FalseVerdicts(s, content, platform, n)
  {
    if n > 0 {
      if Targets(s, n - 1, content, platform) && Outstanding(s.log[n - 1]) {
        forall i | 0 <= i < n - 1 && Targets(s, i, content, platform) && s.log[i].live
          ensures s.log[i].refuted
        {
          assert SamePair(s, i, n - 1);
        }
        RefutedCancel(s, content, platform, n - 1);
      } else {
        LiveBoundPrefix(s, content, platform, n - 1);
      }
    }
  }

  /**
    In every interleaving each (content, platform) has at most one live adapter-dispatched post,
    plus one for each live post that was wrongly declared "not posted".
   */
  lemma LiveBound(s0: State, steps: seq<Step>, content: ContentId, platform: Platform)
    requires Init(s0)
    ensures var s := Run(s0, steps);
            LivePosts(s, content, platform, |s.log|) <= 1 + FalseVerdicts(s, content, platform, |s.log|)
  {
    InitInv(s0);
    RunKeeps(s0, steps);
    LiveBoundPrefix(Run(s0, steps), content, platform, |Run(s0, steps).log|);
  }

  ghost predicate VerdictsTrue(log: seq<Attempt>) {
    forall i | 0 <= i < |log| && log[i].refuted :: !log[i].live
  }

  /**
    What the world may do: no error read as "not posted" hides a live post, and no admin resolves as
    "not posted" a row with a live post nobody has written off.
   */
  ghost predicate TruthfulStep(s: State, step: Step) {
    match step
    case Dispatch(w, reply) => PhaseOf(s, w).Claimed? ==> !(reply.Refused? && reply.live)
    case ResolveNotPosted(id, version, _) => ResolveMatches(s, id, version) ==> NoneOutstanding(s.log, id)
    case _ => true
  }

  ghost predicate Truthful(s: State, steps: seq<Step>)
    decreases |steps|
  {
    steps == [] || (TruthfulStep(s, steps[0]) && Truthful(Next(s, steps[0]), steps[1..]))
  }

  /** A row about to be failed has no live post left standing, though `Reject` gives no verdict of its own. */
  ghost predicate RejectsSafely(s: State) {
    forall w | w in s.workers && s.workers[w].Rejecting? :: NoneOutstanding(s.log, s.workers[w].post)
  }

  /** Refuting a row without an outstanding attempt declares nothing false. */
  lemma RefuteTrue(log: seq<Attempt>, id: PostId)
    requires VerdictsTrue(log) && NoneOutstanding(log, id)
    ensures VerdictsTrue(Refute(log, id))
    ensures forall other :: NoneOutstanding(log, other) ==> NoneOutstanding(Refute(log, id), other)
  {
    forall i | 0 <= i < |log| ensures Refute(log, id)[i].live == log[i].live {
      RefuteAt(log, id, i);
    }
  }

  lemma DispatchTrue(s: State, w: WorkerId, reply: Reply)
    requires Inv(s) && VerdictsTrue(s.log) && RejectsSafely(s) && TruthfulStep(s, Step.Dispatch(w, reply))
    ensures VerdictsTrue(DispatchStep(s, w, reply).log) && RejectsSafely(DispatchStep(s, w, reply))
  {
    var phase := PhaseOf(s, w);
    if phase.Claimed? {
      var t := DispatchStep(s, w, reply);
      forall v | v in t.workers && t.workers[v].Rejecting? ensures NoneOutstanding(t.log, t.workers[v].post) {
        if v != w {
          assert s.workers[v].post != phase.post;
        }
      }
    }
  }

  lemma RejectTrue(s: State, w: WorkerId, fault: Fault)
    requires VerdictsTrue(s.log) && RejectsSafely(s)
    ensures VerdictsTrue(RejectStep(s, w, fault).log) && RejectsSafely(RejectStep(s, w, fault))
  {
    if PhaseOf(s, w).Rejecting? {
      RefuteTrue(s.log, PhaseOf(s, w).post);
    }
  }

  lemma ResolveTrue(s: State, id: PostId, version: nat, user: UserId)
    requires VerdictsTrue(s.log) && RejectsSafely(s)
    requires ResolveMatches(s, id, version) ==> NoneOutstanding(s.log, id)
    ensures VerdictsTrue(ResolveNotPostedStep(s, id, version, user).log)
    ensures RejectsSafely(ResolveNotPostedStep(s, id, version, user))
  {
    if ResolveMatches(s, id, version) {
      RefuteTrue(s.log, id);
    }
  }

  /** An attempt abandoned between claim and dispatch finds everything on its row settled. */
  lemma AbortTrue(s: State, w: WorkerId)
    requires HolderIsLatest(s) && VerdictsTrue(s.log) && RejectsSafely(s)
    ensures VerdictsTrue(AbortStep(s, w).log) && RejectsSafely(AbortStep(s, w))
  {
  }

  /** The other steps leave the log alone and send no worker to `Reject`. */
  lemma QuietStep(s: State, step: Step)
    requires !step.Dispatch? && !step.Reject? && !step.Abort? && !step.ResolveNotPosted?
    ensures Next(s, step).log == s.log
    ensures forall w | w in Next(s, step).workers && Next(s, step).workers[w].Rejecting? ::
      w in s.workers && s.workers[w] == Next(s, step).workers[w]
  {
  }

  lemma NextTrue(s: State, step: Step)
    requires Inv(s) && VerdictsTrue(s.log) && RejectsSafely(s) && TruthfulStep(s, step)
    ensures VerdictsTrue(Next(s, step).log) && RejectsSafely(Next(s, step))
  {
    match step
    case Dispatch(w, reply) => DispatchTrue(s, w, reply);
    case Reject(w, fault) => RejectTrue(s, w, fault);
    case ResolveNotPosted(id, version, user) => ResolveTrue(s, id, version, user);
    case Abort(w) => AbortTrue(s, w);
    case _ => QuietStep(s, step);
  }

  /** Truthful errors and resolutions leave no false verdict in the log, however the run interleaves. */
  lemma {:induction false} TruthfulRun(s: State, steps: seq<Step>)
    requires Inv(s) && VerdictsTrue(s.log) && RejectsSafely(s) && Truthful(s, steps)
    ensures VerdictsTrue(Run(s, steps).log)
    decreases |steps|
  {
    if steps != [] {
      NextTrue(s, steps[0]);
      NextKeeps(s, steps[0]);
      TruthfulRun(Next(s, steps[0]), steps[1..]);
    }
  }

  /** With truthful errors and truthful "not posted" resolutions, no target is live twice. */
  lemma NoDoublePost(s0: State, steps: seq<Step>, i: nat, j: nat)
    requires Init(s0) && Truthful(s0, steps)
    requires var s := Run(s0, steps);
             i < j < |s.log| && s.log[i].live && s.log[j].live
    ensures var s := Run(s0, steps);
            s.log[i].post in s.posts && s.log[j].post in s.posts
            && !SameTarget(s.posts[s.log[i].post], s.posts[s.log[j].post])
  {
    InitInv(s0);
    RunKeeps(s0, steps);
    TruthfulRun(s0, steps);
    assert !SamePair(Run(s0, steps), i, j);
  }

  lemma {:induction false} RunAppend(s: State, a: seq<Step>, b: seq<Step>)
    ensures Run(s, a + b) == Run(Run(s, a), b)
    decreases |a|
  {
    if a == [] {
      assert a + b == b;
    } else {
      assert (a + b)[1..] == a[1..] + b;
      RunAppend(Next(s, a[0]), a[1..], b);
    }
  }

  // ---------------------------------------------------------------- one dispatch per version

  /** Every adapter call for a post carries its own claimed version, in increasing order. */
  lemma OneDispatchPerVersion(s0: State, steps: seq<Step>, i: nat, j: nat)
    requires Init(s0)
    requires i < j < |Run(s0, steps).log|
    requires Run(s0, steps).log[i].post == Run(s0, steps).log[j].post
    ensures Run(s0, steps).log[i].version < Run(s0, steps).log[j].version
  {
    InitInv(s0);
    RunKeeps(s0, steps);
  }

  /** When exactly the conditional claim hands a worker the row. */
  lemma ClaimWinsIff(s: State, w: WorkerId)
    requires PhaseOf(s, w).Read?
    ensures var phase := PhaseOf(s, w);
            PhaseOf(ClaimStep(s, w, Sound), w).Claimed? <==>
              && phase.post in s.posts
              && (s.posts[phase.post].status.Draft? || s.posts[phase.post].status.Failed?)
              && s.posts[phase.post].version == phase.version
              && (forall other | other in s.posts && other != phase.post ::
                    SameTarget(s.posts[other], s.posts[phase.post]) ==> !Active(s.posts[other].status))
  {
    var phase := PhaseOf(s, w);
    if ClaimMatches(s, phase.post, phase.version) {
      var row := Written(s.posts[phase.post], Scheduled, phase.user, None);
      forall other | other in s.posts
        ensures SameTarget(s.posts[other], row) == SameTarget(s.posts[other], s.posts[phase.post])
      {
      }
    }
  }

  /** Versions never fall, so a snapshot the row has moved past can never match again. */
  lemma {:induction false} SnapshotSpent(s: State, steps: seq<Step>, id: PostId, version: nat)
    requires id in s.posts && s.posts[id].version > version
    ensures !ClaimMatches(Run(s, steps), id, version) && !ResolveMatches(Run(s, steps), id, version)
    decreases |steps|
  {
    if steps != [] {
      RowMoves(s, steps[0], id);
      SnapshotSpent(Next(s, steps[0]), steps[1..], id, version);
    }
  }

  /** One delivery of a job to an idle worker, up to and including the adapter's answer. */
  function Delivery(w: WorkerId, job: Job, reply: Reply): seq<Step> {
    [Start(w, job), Claim(w, Sound), Dispatch(w, reply)]
  }

  ghost predicate Deliverable(s: State, w: WorkerId, job: Job) {
    && PhaseOf(s, w).Idle? && job in s.jobs
    && job.post in s.posts && s.posts[job.post].selected.Some?
    && Dispatchable(s.posts[job.post].status)
    && !Blocked(s.posts, job.post, s.posts[job.post].(status := Scheduled))
  }

  lemma DeliveryDispatches(s: State, w: WorkerId, job: Job, reply: Reply)
    requires Deliverable(s, w, job)
    ensures var v, id := s.posts[job.post].version + 1, job.post;
            Run(s, Delivery(w, job, reply)) ==
              State(s.posts[id := Written(s.posts[id], Scheduled, job.user, None)],
                    s.workers[w := AfterReply(id, v, job.user, reply)], s.jobs,
                    s.log + [Attempt(id, v, w, WentLive(reply), false)])
  {
    var id, steps := job.post, Delivery(w, job, reply);
    var read := Next(s, Start(w, job));
    assert PhaseOf(read, w) == Read(id, s.posts[id].version, job.user);
    BlockedIgnoresRest(s.posts, id, s.posts[id].(status := Scheduled),
                       Written(s.posts[id], Scheduled, job.user, None));
    var claimed := Next(read, Claim(w, Sound));
    assert PhaseOf(claimed, w) == Claimed(id, s.posts[id].version + 1, job.user);
    var called := Next(claimed, Dispatch(w, reply));
    assert steps[1..] == [Claim(w, Sound), Dispatch(w, reply)] && steps[1..][1..] == [Dispatch(w, reply)];
    assert Run(called, []) == called;
    assert Run(claimed, [Dispatch(w, reply)]) == called;
    assert Run(read, steps[1..]) == called;
    assert called.workers == s.workers[w := AfterReply(id, s.posts[id].version + 1, job.user, reply)];
  }

  lemma BlockedIgnoresRest(posts: map<PostId, Post>, id: PostId, a: Post, b: Post)
    requires SameTarget(a, b) && a.status == b.status
    ensures Blocked(posts, id, a) == Blocked(posts, id, b)
  {
    forall other | other in posts
      ensures SameTarget(posts[other], a) == SameTarget(posts[other], b)
    {
    }
  }

  /**
    A redelivered job does not simply lose: once its attempt has failed, the same job delivered
    again claims a later version and calls the platform again.
   */
  lemma RedeliveryDispatchesAgain(s: State, w: WorkerId, job: Job, refusedLive: bool, reply: Reply)
    requires Deliverable(s, w, job)
    ensures var v := s.posts[job.post].version;
            Run(s, Delivery(w, job, Refused(refusedLive)) + [Reject(w, Sound)] + Delivery(w, job, reply)).log ==
              Refute(s.log, job.post) + [Attempt(job.post, v + 1, w, refusedLive, true),
                                         Attempt(job.post, v + 3, w, WentLive(reply), false)]
  {
    var first := Delivery(w, job, Refused(refusedLive));
    var failed := Run(s, first + [Reject(w, Sound)]);
    RejectedDelivery(s, w, job, refusedLive);
    DeliveryDispatches(failed, w, job, reply);
    RunAppend(s, first + [Reject(w, Sound)], Delivery(w, job, reply));
  }

  /** After a refusal has been recorded the same job can be delivered again. */
  lemma RejectedDelivery(s: State, w: WorkerId, job: Job, live: bool)
    requires Deliverable(s, w, job)
    ensures var t, v := Run(s, Delivery(w, job, Refused(live)) + [Reject(w, Sound)]), s.posts[job.post].version;
            && Deliverable(t, w, job) && t.posts[job.post].version == v + 2
            && t.log == Refute(s.log, job.post) + [Attempt(job.post, v + 1, w, live, true)]
  {
    var id, v, first := job.post, s.posts[job.post].version, Delivery(w, job, Refused(live));
    DeliveryDispatches(s, w, job, Refused(live));
    var called := Run(s, first);
    assert PhaseOf(called, w) == Rejecting(id, v + 1, job.user);
    var failed := Next(called, Reject(w, Sound));
    RunAppend(s, first, [Reject(w, Sound)]);
    assert Run(failed, []) == failed;
    assert Run(called, [Reject(w, Sound)]) == failed;
    assert failed.log == Refute(s.log, id) + [Attempt(id, v + 1, w, live, true)];
    var a, b := s.posts[id].(status := Scheduled), failed.posts[id].(status := Scheduled);
    forall other | other in failed.posts && other != id
      ensures failed.posts[other] == s.posts[other] && SameTarget(s.posts[other], a) == SameTarget(s.posts[other], b)
    {
    }
  }

  lemma {:induction false} TwoLive(s: State, content: ContentId, platform: Platform, n: nat, i: nat, j: nat)
    requires i < j < n <= |s.log| && s.log[i].live && s.log[j].live
    requires Targets(s, i, content, platform) && Targets(s, j, content, platform)
    ensures LivePosts(s, content, platform, n) >= 2
  {
    if j < n - 1 {
      TwoLive(s, content, platform, n - 1, i, j);
    } else {
      OneLive(s, content, platform, j, i);
    }
  }

  lemma {:induction false} OneLive(s: State, content: ContentId, platform: Platform, n: nat, i: nat)
    requires i < n <= |s.log| && s.log[i].live && Targets(s, i, content, platform)
    ensures LivePosts(s, content, platform, n) >= 1
  {
    if i < n - 1 {
      OneLive(s, content, platform, n - 1, i);
    }
  }

  /** Some continuation of the run puts two live posts on the target of row `id`. */
  ghost predicate CanDoublePost(s: State, id: PostId)
    requires id in s.posts
  {
    exists more :: var t := Run(s, more); LivePosts(t, s.posts[id].content, s.posts[id].platform, |t.log|) >= 2
  }

  /** A failed row whose live post was written off is dispatched again by any worker that takes its job. */
  lemma FailedDispatches(s: State, w: WorkerId, id: PostId, i: nat)
    requires id in s.posts && s.posts[id].status.Failed? && s.posts[id].selected.Some?
    requires !Blocked(s.posts, id, s.posts[id].(status := Scheduled))
    requires i < |s.log| && s.log[i].post == id && s.log[i].live
    ensures CanDoublePost(s, id)
  {
    var job := Job(id, 0);
    var a := Next(s, Crash(w));
    var b := Next(a, Enqueue(job));
    assert Deliverable(b, w, job);
    DeliveryDispatches(b, w, job, Accepted(0));
    var steps := [Crash(w), Enqueue(job)] + Delivery(w, job, Accepted(0));
    assert steps[1..] == [Enqueue(job)] + Delivery(w, job, Accepted(0));
    assert steps[1..][1..] == Delivery(w, job, Accepted(0));
    var t := Run(b, Delivery(w, job, Accepted(0)));
    assert Run(s, steps) == t;
    assert t.log[i] == s.log[i];
    assert SameTarget(t.posts[id], s.posts[id]);
    TwoLive(t, s.posts[id].content, s.posts[id].platform, |t.log|, i, |s.log|);
  }

  /** Does the step speak for a row, and which? */
  ghost predicate SpeaksFor(s: State, step: Step, id: PostId) {
    match step
    case Dispatch(w, _) => PhaseOf(s, w).Claimed? && PhaseOf(s, w).post == id
    case ResolveNotPosted(i, version, _) => i == id && ResolveMatches(s, id, version)
    case _ => false
  }

  /**
    Truthfulness cannot be dropped anywhere: after any single false "not posted" about a row that can
    be dispatched, be it an error or a resolution, some continuation posts twice.
   */
  lemma FalseVerdictCanDoublePost(s: State, step: Step, id: PostId)
    requires Inv(s) && !TruthfulStep(s, step) && SpeaksFor(s, step, id) && s.posts[id].selected.Some?
    ensures id in Next(s, step).posts && CanDoublePost(Next(s, step), id)
  {
    match step
    case Dispatch(w, reply) =>
      var t := Next(s, step);
      assert HeldRow(s, s.workers[w]);
      var u := Next(t, Reject(w, Sound));
      RefuteAt(t.log, id, |s.log|);
      SiblingsInactive(s, id, u.posts[id].(status := Scheduled));
      FailedDispatches(u, w, id, |s.log|);
      DoublePostEarlier(t, Reject(w, Sound), id);
    case ResolveNotPosted(i, version, user) =>
      var t := Next(s, step);
      var k :| 0 <= k < |s.log| && s.log[k].post == id && Outstanding(s.log[k]);
      RefuteAt(s.log, id, k);
      SiblingsInactive(s, id, t.posts[id].(status := Scheduled));
      FailedDispatches(t, 0, id, k);
  }

  /** While a row is active the index keeps its siblings out. */
  lemma SiblingsInactive(s: State, id: PostId, row: Post)
    requires IndexOk(s.posts) && id in s.posts && Active(s.posts[id].status) && SameTarget(row, s.posts[id])
    ensures forall posts: map<PostId, Post> |
      posts.Keys == s.posts.Keys && (forall other | other in posts && other != id :: posts[other] == s.posts[other]) ::
      !Blocked(posts, id, row)
  {
  }

  lemma DoublePostEarlier(s: State, step: Step, id: PostId)
    requires id in s.posts && id in Next(s, step).posts && CanDoublePost(Next(s, step), id)
    ensures CanDoublePost(s, id)
  {
    var t := Next(s, step);
    RowMoves(s, step, id);
    var more :| LivePosts(Run(t, more), t.posts[id].content, t.posts[id].platform, |Run(t, more).log|) >= 2;
    assert ([step] + more)[1..] == more;
    assert Run(s, [step] + more) == Run(t, more);
  }

  /**
    Nor can truthfulness be dropped: a post that went live behind an error the taxonomy reads as
    "not posted" is live twice after the retry.
   */
  lemma FalseVerdictDoublePosts(job: Job, w: WorkerId, content: ContentId, platform: Platform)
    ensures exists s: State, steps: seq<Step> :: Init(s)
              && LivePosts(Run(s, steps), content, platform, |Run(s, steps).log|) == 2
  {
    var s := State(map[job.post := NewPost(content, platform, None)], map[], {job}, []);
    var steps := Delivery(w, job, Refused(true)) + [Reject(w, Sound)] + Delivery(w, job, Accepted(0));
    RedeliveryDispatchesAgain(s, w, job, true, Accepted(0));
    var t := Run(s, steps);
    RowKept(s, steps, job.post);
    assert t.log == [Attempt(job.post, 1, w, true, true), Attempt(job.post, 3, w, true, false)];
    assert Targets(t, 0, content, platform) && Targets(t, 1, content, platform);
    assert LivePosts(t, content, platform, 1) == 1;
    assert LivePosts(t, content, platform, 2) == 2;
    assert Init(s);
  }

  lemma {:induction false} RowKept(s: State, steps: seq<Step>, id: PostId)
    requires id in s.posts
    ensures id in Run(s, steps).posts && SameTarget(Run(s, steps).posts[id], s.posts[id])
    decreases |steps|
  {
    if steps != [] {
      RowMoves(s, steps[0], id);
      RowKept(Next(s, steps[0]), steps[1..], id);
    }
  }

  // ---------------------------------------------------------------- what an insert leaves

  /** Does a row that is neither failed nor cancelled hold the target already? */
  ghost predicate Taken(posts: map<PostId, Post>, content: ContentId, platform: Platform) {
    exists other | other in posts ::
      && posts[other].content == content && posts[other].platform == platform
      && posts[other].status in {Draft, Scheduled, Posted, PostedUnconfirmed}
  }

  /** The row carries the target and the facts of its own decision. */
  ghost predicate Decided(row: Post, content: ContentId, platform: Platform, rec: Option<Platform>) {
    && row.content == content && row.platform == platform && row.selected == Some(platform)
    && row.recommended == rec && (row.wasOverride <==> rec.Some? && rec.value != platform)
    && row.version == 0
  }

  ghost predicate FreshDraft(row: Post, content: ContentId, platform: Platform, rec: Option<Platform>) {
    Decided(row, content, platform, rec) && row.status.Draft? && !row.manual
      && row.executedBy.None? && row.external.None?
  }

  ghost predicate FreshRecord(row: Post, content: ContentId, platform: Platform, rec: Option<Platform>,
                              user: UserId, ext: ExternalId) {
    Decided(row, content, platform, rec) && row.status.Posted? && row.manual
      && row.executedBy == Some(user) && row.external == Some(ext)
  }

  /** One more row, and nothing else changed. */
  ghost predicate AddsRow(s: State, t: State, id: PostId) {
    && id !in s.posts && t.posts.Keys == s.posts.Keys + {id}
    && (forall other | other in s.posts :: t.posts[other] == s.posts[other])
    && t.workers == s.workers && t.jobs == s.jobs && t.log == s.log
  }

  lemma BlockedIffTaken(posts: map<PostId, Post>, id: PostId, row: Post)
    requires id !in posts && row.status in {Draft, Posted}
    ensures Blocked(posts, id, row) <==> Taken(posts, row.content, row.platform)
  {
    if Blocked(posts, id, row) {
      var other :| other in posts && other != id && Active(posts[other].status) && SameTarget(posts[other], row);
      assert posts[other].content == row.content && posts[other].platform == row.platform;
    }
    if Taken(posts, row.content, row.platform) {
      var other :| other in posts && posts[other].content == row.content && posts[other].platform == row.platform
                   && posts[other].status in {Draft, Scheduled, Posted, PostedUnconfirmed};
      assert other != id && Active(posts[other].status) && SameTarget(posts[other], row);
    }
  }

  /** A create adds exactly a draft with its recommendation on it, and only where the target is free. */
  lemma CreateIff(s: State, id: PostId, content: ContentId, platform: Platform, rec: Option<Platform>)
    ensures var t := Next(s, Create(id, content, platform, rec));
            if id !in s.posts && !Taken(s.posts, content, platform)
            then AddsRow(s, t, id) && FreshDraft(t.posts[id], content, platform, rec)
            else t == s
  {
    if id !in s.posts {
      BlockedIffTaken(s.posts, id, NewPost(content, platform, rec));
    }
  }

  /** A manual record adds exactly a posted row naming its author and its external post. */
  lemma RecordManualIff(s: State, id: PostId, content: ContentId, platform: Platform, rec: Option<Platform>,
                        user: UserId, ext: ExternalId)
    ensures var t := Next(s, RecordManual(id, content, platform, rec, user, ext));
            if id !in s.posts && !Taken(s.posts, content, platform)
            then AddsRow(s, t, id) && FreshRecord(t.posts[id], content, platform, rec, user, ext)
            else t == s
  {
    if id !in s.posts {
      BlockedIffTaken(s.posts, id, ManualPost(content, platform, rec, user, ext));
    }
  }

  /**
    Once a row is created its target is taken: whatever runs in between, until the row has failed or
    been cancelled neither a second create nor a manual record of the target does anything.
   */
  lemma SecondCreateRefused(s: State, id: PostId, content: ContentId, platform: Platform, rec: Option<Platform>,
                            steps: seq<Step>, id2: PostId, rec2: Option<Platform>, user: UserId, ext: ExternalId)
    requires id !in s.posts && !Taken(s.posts, content, platform)
    ensures var t := Run(Next(s, Create(id, content, platform, rec)), steps);
            && id in t.posts
            && (steps == [] ==> t.posts[id].status.Draft?)
            && (!t.posts[id].status.Failed? && !t.posts[id].status.Cancelled? ==>
                  && Next(t, Create(id2, content, platform, rec2)) == t
                  && Next(t, RecordManual(id2, content, platform, rec2, user, ext)) == t)
  {
    var created := Next(s, Create(id, content, platform, rec));
    CreateIff(s, id, content, platform, rec);
    RowKept(created, steps, id);
    var t := Run(created, steps);
    if !t.posts[id].status.Failed? && !t.posts[id].status.Cancelled? {
      assert Taken(t.posts, content, platform);
      CreateIff(t, id2, content, platform, rec2);
      RecordManualIff(t, id2, content, platform, rec2, user, ext);
    }
  }

  /** A refresh replaces the recommendation of a row with a selection, and nothing but its facts. */
  lemma RefreshIff(s: State, id: PostId, rec: Option<Platform>)
    ensures var t := Next(s, Refresh(id, rec));
            && t.posts.Keys == s.posts.Keys && t.workers == s.workers && t.jobs == s.jobs && t.log == s.log
            && (forall other | other in s.posts && other != id :: t.posts[other] == s.posts[other])
            && (id in s.posts && s.posts[id].selected.None? ==> t.posts[id] == s.posts[id])
            && (id in s.posts && s.posts[id].selected.Some? ==>
                  && t.posts[id].recommended == rec
                  && (t.posts[id].wasOverride <==> rec.Some? && Some(rec.value) != s.posts[id].selected)
                  && t.posts[id].(recommended := s.posts[id].recommended, wasOverride := s.posts[id].wasOverride)
                     == s.posts[id])
  {
    assert id in s.posts && s.posts[id].selected.None? ==> Next(s, Refresh(id, rec)) == s;
  }

  // ---------------------------------------------------------------- what one step may do to a row

  /** The only status changes any step performs, and whose step performs them. */
  ghost predicate Allowed(s: State, step: Step, id: PostId, before: Status, after: Status) {
    match step
    case Claim(w, _) => Dispatchable(before) && after.Scheduled?
    case Confirm(w, _) => Owns(s, w, id) && before.Scheduled? && after.Posted?
    case Reject(w, _) => Owns(s, w, id) && before.Scheduled? && after.Failed?
    case Flag(w, _) => Owns(s, w, id) && (before.Scheduled? || before.Posted?) && after.PostedUnconfirmed?
    case ResolvePosted(i, _, _, _) => i == id && before.PostedUnconfirmed? && after.Posted?
    case ResolveNotPosted(i, _, _) => i == id && before.PostedUnconfirmed? && after.Failed?
    case _ => false
  }

  ghost predicate Owns(s: State, w: WorkerId, id: PostId) {
    PhaseOf(s, w).Holds() && PhaseOf(s, w).post == id
  }

  /** Rows are never removed or retargeted, and a version moves by one or not at all. */
  lemma RowMoves(s: State, step: Step, id: PostId)
    requires id in s.posts
    ensures id in Next(s, step).posts
    ensures var a, b := s.posts[id], Next(s, step).posts[id];
            && SameTarget(a, b) && a.selected == b.selected && a.manual == b.manual
            && (b.version == a.version || b.version == a.version + 1)
            && (b.version == a.version ==>
                  a.status == b.status && a.executedBy == b.executedBy && a.external == b.external)
            && (!step.Refresh? ==> a.recommended == b.recommended && a.wasOverride == b.wasOverride)
  {
  }

  /**
    Every status write names its author and bumps the version, and follows the state machine:
    nothing automatic leaves `posted_unconfirmed`, and only its holder takes a row out of
    `scheduled` or back out of `posted`.
   */
  lemma StatusMoves(s: State, step: Step, id: PostId)
    requires HoldersOk(s) && id in s.posts
    ensures var a, b := s.posts[id], Next(s, step).posts[id];
            b.version != a.version ==>
              && b.version == a.version + 1 && b.executedBy.Some?
              && Allowed(s, step, id, a.status, b.status)
  {
  }

  /** A platform's post id is recorded by a success, unconfirmed or resolving write, and no write takes it away. */
  lemma ExternalMoves(s: State, step: Step, id: PostId)
    requires id in s.posts
    ensures var a, b := s.posts[id], Next(s, step).posts[id];
            b.external != a.external ==> b.external.Some? && (step.Confirm? || step.Flag? || step.ResolvePosted?)
  {
  }

  /** So once recorded an id stays recorded, through failures, retries and resolutions. */
  lemma {:induction false} ExternalKept(s: State, steps: seq<Step>, id: PostId)
    requires id in s.posts && s.posts[id].external.Some?
    ensures id in Run(s, steps).posts && Run(s, steps).posts[id].external.Some?
    decreases |steps|
  {
    if steps != [] {
      RowMoves(s, steps[0], id);
      ExternalMoves(s, steps[0], id);
      ExternalKept(Next(s, steps[0]), steps[1..], id);
    }
  }

  // ---------------------------------------------------------------- the claim isolates its holder

  ghost predicate SameClaim(s: State, t: State, w: WorkerId)
    requires PhaseOf(s, w).Holds()
  {
    && PhaseOf(t, w) == PhaseOf(s, w)
    && var id := PhaseOf(s, w).post;
    && id in s.posts && id in t.posts
    && t.posts[id].status == s.posts[id].status && t.posts[id].version == s.posts[id].version
    && t.posts[id].executedBy == s.posts[id].executedBy && t.posts[id].external == s.posts[id].external
  }

  lemma OthersLeaveClaim(s: State, step: Step, w: WorkerId)
    requires HoldersOk(s) && Exclusive(s) && PhaseOf(s, w).Holds() && !ByWorker(step, w)
    ensures SameClaim(s, Next(s, step), w)
  {
    StatusMoves(s, step, PhaseOf(s, w).post);
    RowMoves(s, step, PhaseOf(s, w).post);
  }

  /** From the claim to the holder's own terminal write, nobody else moves the row. */
  lemma {:induction false} ClaimIsolation(s: State, steps: seq<Step>, w: WorkerId)
    requires Inv(s) && PhaseOf(s, w).Holds()
    requires forall step | step in steps :: !ByWorker(step, w)
    ensures Inv(Run(s, steps)) && SameClaim(s, Run(s, steps), w)
    decreases |steps|
  {
    if steps != [] {
      assert steps[0] in steps;
      OthersLeaveClaim(s, steps[0], w);
      NextKeeps(s, steps[0]);
      ClaimIsolation(Next(s, steps[0]), steps[1..], w);
    }
  }

  /**
    The terminal writes always match their row, and the index never refuses them: `count !== 1`
    in the success path needs a database error.
   */
  lemma TerminalWritesMatch(s: State, w: WorkerId)
    requires HoldersOk(s) && IndexOk(s.posts)
    ensures PhaseOf(s, w).Confirming? ==>
              var t, id := ConfirmStep(s, w, Sound), PhaseOf(s, w).post;
              && PhaseOf(t, w).Idle? && t.posts[id].status.Posted?
              && t.posts[id].external == Some(PhaseOf(s, w).ext) && t.posts[id].executedBy == Some(PhaseOf(s, w).user)
    ensures PhaseOf(s, w).Rejecting? ==> RejectStep(s, w, Sound).posts[PhaseOf(s, w).post].status.Failed?
    ensures PhaseOf(s, w).Flagging? ==>
              FlagStep(s, w, Sound).posts[PhaseOf(s, w).post].status.PostedUnconfirmed?
  {
  }

  /** The unguarded unconfirmed write lands on its own worker's attempt, the last one on the row. */
  lemma FlagLandsOnOwnAttempt(s: State, w: WorkerId) returns (i: nat)
    requires Inv(s) && PhaseOf(s, w).Flagging?
    ensures i < |s.log| && s.log[i].post == PhaseOf(s, w).post && s.log[i].worker == w
    ensures s.log[i].version == PhaseOf(s, w).version
    ensures forall j | 0 <= j < |s.log| && j != i && s.log[j].post == s.log[i].post :: j < i
  {
    i :| 0 <= i < |s.log| && IsAttemptOf(s.log[i], w, PhaseOf(s, w));
    assert NoneNewer(s.log, PhaseOf(s, w).post, PhaseOf(s, w).version);
  }

  // ---------------------------------------------------------------- records and decisions

  /** A natively published record is never dispatched and never changes status. */
  lemma ManualNeverDispatched(s0: State, steps: seq<Step>, id: PostId)
    requires Init(s0)
    requires id in Run(s0, steps).posts && Run(s0, steps).posts[id].manual
    ensures Run(s0, steps).posts[id].status.Posted?
    ensures forall i | 0 <= i < |Run(s0, steps).log| :: Run(s0, steps).log[i].post != id
  {
    InitInv(s0);
    RunKeeps(s0, steps);
  }

  /** Nor does it ever share its target with an adapter's live post that nobody has written off. */
  lemma ManualNeverDoubled(s0: State, steps: seq<Step>, i: nat, id: PostId)
    requires Init(s0) && i < |Run(s0, steps).log| && Outstanding(Run(s0, steps).log[i])
    requires id in Run(s0, steps).posts && Run(s0, steps).posts[id].manual
    ensures var s := Run(s0, steps);
            s.log[i].post in s.posts && !SameTarget(s.posts[s.log[i].post], s.posts[id])
  {
    InitInv(s0);
    RunKeeps(s0, steps);
  }

  /** The override flag is exactly "a recommendation existed and was not the selection". */
  ghost predicate DecisionsOk(posts: map<PostId, Post>) {
    forall id | id in posts ::
      var row := posts[id];
      row.wasOverride <==> row.recommended.Some? && row.selected.Some?
                           && row.recommended.value != row.selected.value
  }

  lemma DecisionsKeptStep(s: State, step: Step)
    requires DecisionsOk(s.posts)
    ensures DecisionsOk(Next(s, step).posts)
  {
    var t := Next(s, step);
    forall id | id in t.posts
      ensures var row := t.posts[id];
              row.wasOverride <==> row.recommended.Some? && row.selected.Some?
                                   && row.recommended.value != row.selected.value
    {
      if id in s.posts {
        RowMoves(s, step, id);
      }
    }
  }

  lemma {:induction false} DecisionsKept(s: State, steps: seq<Step>)
    requires DecisionsOk(s.posts)
    ensures DecisionsOk(Run(s, steps).posts)
    decreases |steps|
  {
    if steps != [] {
      DecisionsKeptStep(s, steps[0]);
      DecisionsKept(Next(s, steps[0]), steps[1..]);
    }
  }
}
