/**
  What every interleaving of the publish protocol keeps.  `Inv` is the joint invariant; each
  conjunct leans on the others, which is why the claim, the index and the statuses no automatic
  step leaves are needed together.
 */
module PublishSafety {
  import opened Platforms
  import opened PublishProtocol

  /** The partial unique index. */
  ghost predicate IndexOk(posts: map<PostId, Post>) {
    forall i, j | i in posts && j in posts && i != j && Active(posts[i].status) && Active(posts[j].status) ::
      !SameTarget(posts[i], posts[j])
  }

  /**
    The row a worker holds is still exactly as that worker left it: `scheduled` at the claimed
    version or, when the acknowledgement of its own success write was lost, `posted` one version on.
   */
  ghost predicate HeldRow(s: State, phase: Phase)
    requires phase.Holds()
  {
    && phase.post in s.posts
    && var row := s.posts[phase.post];
    && !row.manual
    && row.executedBy == Some(phase.user)
    && (|| (row.status.Scheduled? && row.version == phase.version)
        || (phase.Flagging? && row.status.Posted? && row.version == phase.version + 1))
  }

  ghost predicate HoldersOk(s: State) {
    forall w | w in s.workers && s.workers[w].Holds() :: HeldRow(s, s.workers[w])
  }

  ghost predicate Exclusive(s: State) {
    forall w, v | w in s.workers && v in s.workers && s.workers[w].Holds() && s.workers[v].Holds() ::
      s.workers[w].post == s.workers[v].post ==> w == v
  }

  /** Every attempt belongs to an adapter row and to a version that row has reached. */
  ghost predicate LogOk(s: State) {
    forall i | 0 <= i < |s.log| ::
      && s.log[i].post in s.posts
      && !s.posts[s.log[i].post].manual
      && s.log[i].version <= s.posts[s.log[i].post].version
  }

  ghost predicate Distinct(log: seq<Attempt>) {
    forall i, j | 0 <= i < j < |log| :: log[i].post == log[j].post ==> log[i].version < log[j].version
  }

  /**
    No attempt on a held row is newer than the holder's version; between claim and dispatch every
    one is older, and is written off or never went live.
   */
  ghost predicate HolderIsLatest(s: State) {
    forall w | w in s.workers && s.workers[w].Holds() ::
      && NoneNewer(s.log, s.workers[w].post, s.workers[w].version)
      && (s.workers[w].Claimed? ==> AllSettled(s.log, s.workers[w].post, s.workers[w].version))
  }

  ghost predicate NoneNewer(log: seq<Attempt>, id: PostId, version: nat) {
    forall i | 0 <= i < |log| && log[i].post == id :: log[i].version <= version
  }

  ghost predicate AllSettled(log: seq<Attempt>, id: PostId, version: nat) {
    forall i | 0 <= i < |log| && log[i].post == id :: log[i].version < version && !Outstanding(log[i])
  }

  /** After dispatch, the holder's own attempt is the last one on the row. */
  ghost predicate OwnAttempt(s: State) {
    forall w | w in s.workers && (s.workers[w].Confirming? || s.workers[w].Flagging?) ::
      HasAttempt(s.log, w, s.workers[w])
  }

  ghost predicate HasAttempt(log: seq<Attempt>, w: WorkerId, phase: Phase)
    requires phase.Holds()
  {
    exists i | 0 <= i < |log| :: IsAttemptOf(log[i], w, phase)
  }

  ghost predicate IsAttemptOf(a: Attempt, w: WorkerId, phase: Phase)
    requires phase.Holds()
  {
    a.post == phase.post && a.version == phase.version && a.worker == w
      && (phase.Confirming? ==> a.live)
  }

  ghost predicate Outstanding(a: Attempt) {
    a.live && !a.refuted
  }

  /** A live post nobody has declared absent keeps its row in a status no automatic step leaves. */
  ghost predicate OutstandingOwned(s: State) {
    forall i | 0 <= i < |s.log| && Outstanding(s.log[i]) ::
      s.log[i].post in s.posts && OwnsLivePost(s.posts[s.log[i].post].status)
  }

  predicate OwnsLivePost(status: Status) {
    status.Scheduled? || status.Posted? || status.PostedUnconfirmed?
  }

  ghost predicate SamePair(s: State, i: nat, j: nat)
    requires i < |s.log| && j < |s.log|
  {
    s.log[i].post in s.posts && s.log[j].post in s.posts
      && SameTarget(s.posts[s.log[i].post], s.posts[s.log[j].post])
  }

  /** Two live posts of one (content, platform): the earlier had been declared "not posted". */
  ghost predicate AtMostOneUnrefuted(s: State) {
    forall i, j | 0 <= i < j < |s.log| && s.log[i].live && s.log[j].live ::
      SamePair(s, i, j) ==> s.log[i].refuted
  }

  /** A natively published record stays `posted`. */
  ghost predicate ManualOk(posts: map<PostId, Post>) {
    forall id | id in posts && posts[id].manual :: posts[id].status.Posted?
  }

  ghost predicate Inv(s: State) {
    && IndexOk(s.posts)
    && HoldersOk(s)
    && Exclusive(s)
    && LogOk(s)
    && Distinct(s.log)
    && HolderIsLatest(s)
    && OwnAttempt(s)
    && OutstandingOwned(s)
    && AtMostOneUnrefuted(s)
    && ManualOk(s.posts)
  }

  /** Any table the index accepts, any queue, no worker busy, no adapter called yet. */
  ghost predicate Init(s: State) {
    IndexOk(s.posts) && ManualOk(s.posts) && s.workers == map[] && s.log == []
  }

  lemma InitInv(s: State)
    requires Init(s)
    ensures Inv(s)
  {
  }

  lemma StartKeeps(s: State, w: WorkerId, job: Job)
    requires Inv(s)
    ensures Inv(StartStep(s, w, job))
  {
  }

  /**
    Each step that moves a row is a release of the worker, a change of the table, and an
    acquisition of the worker's next phase; the three lemmas below are those moves.
   */
  lemma ReleaseKeeps(s: State, w: WorkerId)
    requires Inv(s)
    ensures Inv(Goto(s, w, Idle))
  {
  }

  ghost predicate Unheld(s: State, id: PostId) {
    forall v | v in s.workers && s.workers[v].Holds() :: s.workers[v].post != id
  }

  lemma ReleaseUnholds(s: State, w: WorkerId)
    requires Inv(s) && PhaseOf(s, w).Holds()
    ensures Unheld(Goto(s, w, Idle), PhaseOf(s, w).post)
  {
  }

  lemma IndexStore(posts: map<PostId, Post>, id: PostId, row: Post)
    requires IndexOk(posts) && !Blocked(posts, id, row)
    ensures IndexOk(posts[id := row])
  {
  }

  /** `row` is the next version of an adapter row nobody holds. */
  ghost predicate MovesOn(s: State, id: PostId, row: Post) {
    && id in s.posts
    && Unheld(s, id)
    && SameTarget(row, s.posts[id])
    && !row.manual && !s.posts[id].manual
    && row.version == s.posts[id].version + 1
    && !Blocked(s.posts, id, row)
  }

  lemma StoreKeeps(s: State, id: PostId, row: Post)
    requires Inv(s) && MovesOn(s, id, row)
    requires OwnsLivePost(row.status) || NoneOutstanding(s.log, id)
    ensures Inv(Store(s, id, row))
  {
    IndexStore(s.posts, id, row);
  }

  ghost predicate NoneOutstanding(log: seq<Attempt>, id: PostId) {
    forall i | 0 <= i < |log| && log[i].post == id :: !Outstanding(log[i])
  }

  /** Refuting changes no entry's post, version or worker, and makes no post live. */
  lemma RefuteAt(log: seq<Attempt>, id: PostId, i: nat)
    requires i < |log|
    ensures |Refute(log, id)| == |log|
    ensures Refute(log, id)[i] == log[i].(refuted := log[i].refuted || log[i].post == id)
  {
  }

  lemma RefuteKeepsOwn(s: State, id: PostId)
    requires OwnAttempt(s)
    ensures OwnAttempt(s.(log := Refute(s.log, id)))
  {
    forall w | w in s.workers && (s.workers[w].Confirming? || s.workers[w].Flagging?)
      ensures HasAttempt(Refute(s.log, id), w, s.workers[w])
    {
      var i :| 0 <= i < |s.log| && IsAttemptOf(s.log[i], w, s.workers[w]);
      RefuteAt(s.log, id, i);
    }
  }

  lemma RefuteKeepsLog(s: State, id: PostId)
    requires LogOk(s) && Distinct(s.log) && HolderIsLatest(s) && OutstandingOwned(s) && AtMostOneUnrefuted(s)
    ensures var t := s.(log := Refute(s.log, id));
            LogOk(t) && Distinct(t.log) && HolderIsLatest(t) && OutstandingOwned(t) && AtMostOneUnrefuted(t)
            && NoneOutstanding(t.log, id)
  {
    var t := s.(log := Refute(s.log, id));
    forall i, j | 0 <= i < j < |t.log| && t.log[i].live && t.log[j].live && SamePair(t, i, j)
      ensures t.log[i].refuted
    {
      assert SamePair(s, i, j);
    }
  }

  lemma RefuteKeeps(s: State, id: PostId)
    requires Inv(s)
    ensures Inv(s.(log := Refute(s.log, id))) && NoneOutstanding(Refute(s.log, id), id)
  {
    RefuteKeepsOwn(s, id);
    RefuteKeepsLog(s, id);
  }

  lemma AcquireKeeps(s: State, w: WorkerId, phase: Phase)
    requires Inv(s) && phase.Holds() && HeldRow(s, phase) && Unheld(s, phase.post)
    requires NoneNewer(s.log, phase.post, phase.version)
    requires phase.Claimed? ==> AllSettled(s.log, phase.post, phase.version)
    requires phase.Confirming? || phase.Flagging? ==> HasAttempt(s.log, w, phase)
    ensures Inv(Goto(s, w, phase))
  {
  }

  lemma AppendKeepsOwn(s: State, a: Attempt)
    requires OwnAttempt(s)
    ensures OwnAttempt(s.(log := s.log + [a]))
  {
    forall w | w in s.workers && (s.workers[w].Confirming? || s.workers[w].Flagging?)
      ensures HasAttempt(s.log + [a], w, s.workers[w])
    {
      var i :| 0 <= i < |s.log| && IsAttemptOf(s.log[i], w, s.workers[w]);
      assert IsAttemptOf((s.log + [a])[i], w, s.workers[w]);
    }
  }

  /** The heart of the argument: the index leaves room for one active row, and the claim settles it. */
  lemma AppendKeepsPairs(s: State, a: Attempt)
    requires IndexOk(s.posts) && OutstandingOwned(s) && AtMostOneUnrefuted(s)
    requires a.post in s.posts && s.posts[a.post].status.Scheduled? && AllSettled(s.log, a.post, a.version)
    ensures AtMostOneUnrefuted(s.(log := s.log + [a]))
  {
    var t := s.(log := s.log + [a]);
    forall i, j | 0 <= i < j < |t.log| && t.log[i].live && t.log[j].live && SamePair(t, i, j)
      ensures t.log[i].refuted
    {
      if j < |s.log| {
        assert SamePair(s, i, j);
      }
    }
  }

  lemma AppendKeeps(s: State, a: Attempt)
    requires Inv(s) && a.post in s.posts && Unheld(s, a.post) && AllSettled(s.log, a.post, a.version)
    requires var row := s.posts[a.post]; row.status.Scheduled? && row.version == a.version && !row.manual
    ensures Inv(s.(log := s.log + [a]))
  {
    AppendKeepsOwn(s, a);
    AppendKeepsPairs(s, a);
  }

  lemma StoreAfterRelease(s: State, w: WorkerId, id: PostId, row: Post, phase: Phase)
    ensures Goto(Store(Goto(s, w, Idle), id, row), w, phase) == Goto(Store(s, id, row), w, phase)
    ensures Store(Goto(s, w, Idle), id, row) == Goto(Store(s, id, row), w, Idle)
  {
  }

  lemma ClaimedKeeps(s: State, w: WorkerId, id: PostId, version: nat, user: UserId)
    requires Inv(s) && Unheld(s, id) && ClaimMatches(s, id, version)
    requires !Blocked(s.posts, id, Written(s.posts[id], Scheduled, user, None))
    ensures var t := Store(s, id, Written(s.posts[id], Scheduled, user, None));
            Inv(t) && Inv(Goto(t, w, Claimed(id, version + 1, user)))
  {
    var row := Written(s.posts[id], Scheduled, user, None);
    StoreKeeps(s, id, row);
    AcquireKeeps(Store(s, id, row), w, Claimed(id, version + 1, user));
  }

  lemma ClaimWonKeeps(s: State, w: WorkerId, id: PostId, version: nat, user: UserId, phase: Phase)
    requires Inv(s) && ClaimMatches(s, id, version)
    requires !Blocked(s.posts, id, Written(s.posts[id], Scheduled, user, None))
    requires phase == Idle || phase == Claimed(id, version + 1, user)
    ensures Inv(Goto(Store(s, id, Written(s.posts[id], Scheduled, user, None)), w, phase))
  {
    ReleaseKeeps(s, w);
    UnclaimedUnheld(s, id);
    ClaimedKeeps(Goto(s, w, Idle), w, id, version, user);
    StoreAfterRelease(s, w, id, Written(s.posts[id], Scheduled, user, None), phase);
  }

  lemma ClaimKeeps(s: State, w: WorkerId, fault: Fault)
    requires Inv(s)
    ensures Inv(ClaimStep(s, w, fault))
  {
    match PhaseOf(s, w)
    case Read(id, version, user) =>
      if && ClaimMatches(s, id, version) && !fault.LostBefore?
         && !Blocked(s.posts, id, Written(s.posts[id], Scheduled, user, None)) {
        var phase := if fault.Sound? then Claimed(id, version + 1, user) else Idle;
        ClaimWonKeeps(s, w, id, version, user, phase);
        assert ClaimStep(s, w, fault) == Goto(Store(s, id, Written(s.posts[id], Scheduled, user, None)), w, phase);
      } else {
        ReleaseKeeps(s, w);
        assert ClaimStep(s, w, fault) == Goto(s, w, Idle);
      }
    case _ =>
  }

  lemma UnclaimedUnheld(s: State, id: PostId)
    requires HoldersOk(s) && id in s.posts && Dispatchable(s.posts[id].status)
    ensures Unheld(s, id)
  {
  }

  lemma AbortKeeps(s: State, w: WorkerId)
    requires Inv(s)
    ensures Inv(AbortStep(s, w))
  {
  }

  lemma DispatchKeeps(s: State, w: WorkerId, reply: Reply)
    requires Inv(s)
    ensures Inv(DispatchStep(s, w, reply))
  {
    var phase := PhaseOf(s, w);
    if phase.Claimed? {
      ReleaseKeeps(s, w);
      ReleaseUnholds(s, w);
      var free := Goto(s, w, Idle);
      var a := Attempt(phase.post, phase.version, w, WentLive(reply), false);
      AppendKeeps(free, a);
      var called := free.(log := free.log + [a]);
      var next := AfterReply(phase.post, phase.version, phase.user, reply);
      assert next.Confirming? || next.Flagging? ==> IsAttemptOf(called.log[|free.log|], w, next);
      AcquireKeeps(called, w, next);
      assert DispatchStep(s, w, reply) == Goto(called, w, next);
    }
  }

  lemma ConfirmKeeps(s: State, w: WorkerId, fault: Fault)
    requires Inv(s)
    ensures Inv(ConfirmStep(s, w, fault))
  {
    var phase := PhaseOf(s, w);
    if phase.Confirming? {
      var id := phase.post;
      ReleaseKeeps(s, w);
      ReleaseUnholds(s, w);
      var free := Goto(s, w, Idle);
      var flag := Flagging(id, phase.version, phase.user, Some(phase.ext));
      FlagInherits(s.log, w, phase, flag);
      AcquireKeeps(free, w, flag);
      assert Goto(s, w, flag) == Goto(free, w, flag);
      var row := Written(s.posts[id], Posted, phase.user, Some(phase.ext));
      if !Blocked(s.posts, id, row) {
        StoreKeeps(free, id, row);
        AcquireKeeps(Store(free, id, row), w, flag);
        StoreAfterRelease(s, w, id, row, flag);
      }
    }
  }

  lemma FlagInherits(log: seq<Attempt>, w: WorkerId, phase: Phase, flag: Phase)
    requires phase.Confirming? && flag.Flagging? && flag.post == phase.post && flag.version == phase.version
    requires HasAttempt(log, w, phase)
    ensures HasAttempt(log, w, flag)
  {
    var i :| 0 <= i < |log| && IsAttemptOf(log[i], w, phase);
    assert IsAttemptOf(log[i], w, flag);
  }

  lemma RejectKeeps(s: State, w: WorkerId, fault: Fault)
    requires Inv(s)
    ensures Inv(RejectStep(s, w, fault))
  {
    var phase := PhaseOf(s, w);
    if phase.Rejecting? {
      var id := phase.post;
      ReleaseKeeps(s, w);
      ReleaseUnholds(s, w);
      var free := Goto(s, w, Idle);
      FailKeeps(free, id, phase.user);
      var row := Written(s.posts[id], Failed, phase.user, None);
      assert Goto(Store(s, id, row).(log := Refute(s.log, id)), w, Idle)
          == Store(free, id, row).(log := Refute(s.log, id));
    }
  }

  /** An adapter row nobody holds may be failed, provided its attempts are refuted with it. */
  lemma FailKeeps(s: State, id: PostId, user: UserId)
    requires Inv(s) && id in s.posts && !s.posts[id].manual && Unheld(s, id)
    ensures Inv(Store(s, id, Written(s.posts[id], Failed, user, None)).(log := Refute(s.log, id)))
  {
    RefuteKeeps(s, id);
    var refuted := s.(log := Refute(s.log, id));
    var row := Written(s.posts[id], Failed, user, None);
    StoreKeeps(refuted, id, row);
    assert Store(refuted, id, row) == Store(s, id, row).(log := Refute(s.log, id));
  }

  lemma FlagKeeps(s: State, w: WorkerId, fault: Fault)
    requires Inv(s)
    ensures Inv(FlagStep(s, w, fault))
  {
    var phase := PhaseOf(s, w);
    ReleaseKeeps(s, w);
    if phase.Flagging? {
      ReleaseUnholds(s, w);
      var free := Goto(s, w, Idle);
      var row := Written(s.posts[phase.post], PostedUnconfirmed, phase.user, phase.known);
      if !Blocked(s.posts, phase.post, row) {
        StoreKeeps(free, phase.post, row);
        StoreAfterRelease(s, w, phase.post, row, Idle);
      }
    }
  }

  lemma InsertKeeps(s: State, id: PostId, row: Post)
    requires Inv(s)
    requires row.manual ==> row.status.Posted?
    ensures Inv(Insert(s, id, row))
  {
  }

  lemma RefreshKeeps(s: State, id: PostId, rec: Option<Platform>)
    requires Inv(s)
    ensures Inv(RefreshStep(s, id, rec))
  {
  }

  lemma ResolveKeeps(s: State, id: PostId, version: nat, user: UserId, ext: ExternalId)
    requires Inv(s)
    ensures Inv(ResolvePostedStep(s, id, version, user, ext))
    ensures Inv(ResolveNotPostedStep(s, id, version, user))
  {
    if ResolveMatches(s, id, version) {
      FailKeeps(s, id, user);
      var row := Written(s.posts[id], Posted, user, Some(ext));
      if !Blocked(s.posts, id, row) {
        StoreKeeps(s, id, row);
      }
    }
  }

  lemma WorkerStepKeeps(s: State, step: Step)
    requires Inv(s) && WorkerStep(step)
    ensures Inv(Next(s, step))
  {
    match step
    case Start(w, job) => StartKeeps(s, w, job);
    case Claim(w, fault) => ClaimKeeps(s, w, fault);
    case Abort(w) => AbortKeeps(s, w);
    case Dispatch(w, reply) => DispatchKeeps(s, w, reply);
    case Confirm(w, fault) => ConfirmKeeps(s, w, fault);
    case Reject(w, fault) => RejectKeeps(s, w, fault);
    case Flag(w, fault) => FlagKeeps(s, w, fault);
    case Crash(w) => ReleaseKeeps(s, w);
  }

  lemma TableStepKeeps(s: State, step: Step)
    requires Inv(s) && !WorkerStep(step)
    ensures Inv(Next(s, step))
  {
    match step
    case Create(id, content, platform, rec) => InsertKeeps(s, id, NewPost(content, platform, rec));
    case RecordManual(id, content, platform, rec, user, ext) =>
      InsertKeeps(s, id, ManualPost(content, platform, rec, user, ext));
    case Refresh(id, rec) => RefreshKeeps(s, id, rec);
    case Enqueue(job) =>
    case ResolvePosted(id, version, user, ext) => ResolveKeeps(s, id, version, user, ext);
    case ResolveNotPosted(id, version, user) => ResolveKeeps(s, id, version, user, 0);
  }

  lemma NextKeeps(s: State, step: Step)
    requires Inv(s)
    ensures Inv(Next(s, step))
  {
    if WorkerStep(step) {
      WorkerStepKeeps(s, step);
    } else {
      TableStepKeeps(s, step);
    }
  }

  lemma {:induction false} RunKeeps(s: State, steps: seq<Step>)
    requires Inv(s)
    ensures Inv(Run(s, steps))
    decreases |steps|
  {
    if steps != [] {
      NextKeeps(s, steps[0]);
      RunKeeps(Next(s, steps[0]), steps[1..]);
    }
  }
}
