/**
  The publish protocol as a table of posts that several actors change one database statement at
  a time: queue workers, the orchestrator's creates and redispatches, and the two admin
  resolutions.  `Next` performs one such statement; a statement that is not enabled changes
  nothing, so every sequence of steps is an interleaving the system can show.
 */
module PublishProtocol {
  import opened Platforms

  type PostId = nat
  type WorkerId = nat
  type UserId = nat
  type ContentId = nat
  type ExternalId = nat

  datatype Status = Draft | Scheduled | Posted | Failed | Cancelled | PostedUnconfirmed

  /** The statuses the partial unique index on (content, platform) covers. */
  predicate Active(status: Status) {
    !status.Failed? && !status.Cancelled?
  }

  predicate Dispatchable(status: Status) {
    status.Draft? || status.Failed?
  }

  datatype Post = Post(
    content: ContentId,
    platform: Platform,
    selected: Option<Platform>,
    status: Status,
    version: nat,
    executedBy: Option<UserId>,
    external: Option<ExternalId>,
    recommended: Option<Platform>,
    wasOverride: bool,
    manual: bool)

  predicate SameTarget(a: Post, b: Post) {
    a.content == b.content && a.platform == b.platform
  }

  datatype Job = Job(post: PostId, user: UserId)

  /** What one worker is about to do; every constructor is a point between two awaits. */
  datatype Phase =
    | Idle
    | Read(post: PostId, version: nat, user: UserId)
    | Claimed(post: PostId, version: nat, user: UserId)
    | Confirming(post: PostId, version: nat, user: UserId, ext: ExternalId)
    | Rejecting(post: PostId, version: nat, user: UserId)
    | Flagging(post: PostId, version: nat, user: UserId, known: Option<ExternalId>)
  {
    predicate Holds() {
      !Idle? && !Read?
    }
  }

  /** One adapter call: did a post go live, and has a "not posted" verdict been recorded since. */
  datatype Attempt = Attempt(post: PostId, version: nat, worker: WorkerId, live: bool, refuted: bool)

  datatype State = State(
    posts: map<PostId, Post>,
    workers: map<WorkerId, Phase>,
    jobs: set<Job>,
    log: seq<Attempt>)

  /** An error can arrive whether or not a post went live. */
  datatype Reply = Accepted(ext: ExternalId) | Refused(live: bool) | Unknown(live: bool)

  datatype Step =
    | Start(w: WorkerId, job: Job)
    | Claim(w: WorkerId, fault: Fault)
    | Abort(w: WorkerId)
    | Dispatch(w: WorkerId, reply: Reply)
    | Confirm(w: WorkerId, fault: Fault)
    | Reject(w: WorkerId, fault: Fault)
    | Flag(w: WorkerId, fault: Fault)
    | Crash(w: WorkerId)
    | Create(id: PostId, content: ContentId, platform: Platform, rec: Option<Platform>)
    | RecordManual(id: PostId, content: ContentId, platform: Platform, rec: Option<Platform>,
                   user: UserId, ext: ExternalId)
    | Refresh(id: PostId, rec: Option<Platform>)
    | Enqueue(job: Job)
    | ResolvePosted(id: PostId, version: nat, user: UserId, ext: ExternalId)
    | ResolveNotPosted(id: PostId, version: nat, user: UserId)

  predicate WorkerStep(step: Step) {
    step.Start? || step.Claim? || step.Abort? || step.Dispatch? || step.Confirm? || step.Reject?
      || step.Flag? || step.Crash?
  }

  predicate ByWorker(step: Step, w: WorkerId) {
    WorkerStep(step) && step.w == w
  }

  /** Would the partial unique index refuse `row` under this id? */
  predicate Blocked(posts: map<PostId, Post>, id: PostId, row: Post) {
    Active(row.status) && exists other | other in posts ::
      other != id && Active(posts[other].status) && SameTarget(posts[other], row)
  }

  function PhaseOf(s: State, w: WorkerId): Phase {
    if w in s.workers then s.workers[w] else Idle
  }

  function Goto(s: State, w: WorkerId, phase: Phase): State {
    s.(workers := s.workers[w := phase])
  }

  /** A status write: it always names its author and raises the version. */
  function Written(row: Post, status: Status, user: UserId, ext: Option<ExternalId>): Post {
    row.(status := status, version := row.version + 1, executedBy := Some(user),
         external := if ext.Some? then ext else row.external)
  }

  function Store(s: State, id: PostId, row: Post): State {
    s.(posts := s.posts[id := row])
  }

  /** A row entering `failed` says of its attempts so far that none is live. */
  function Refute(log: seq<Attempt>, id: PostId): seq<Attempt> {
    seq(|log|, i requires 0 <= i < |log| =>
      if log[i].post == id then log[i].(refuted := true) else log[i])
  }

  function StartStep(s: State, w: WorkerId, job: Job): State {
    if PhaseOf(s, w).Idle? && job in s.jobs && job.post in s.posts && s.posts[job.post].selected.Some?
    then Goto(s, w, Read(job.post, s.posts[job.post].version, job.user))
    else s
  }

  /** Does the conditional claim match the row, and does the index let it through? */
  predicate ClaimMatches(s: State, id: PostId, version: nat) {
    id in s.posts && Dispatchable(s.posts[id].status) && s.posts[id].version == version
  }

  function ClaimStep(s: State, w: WorkerId, fault: Fault): State {
    match PhaseOf(s, w)
    case Read(id, version, user) =>
      if !ClaimMatches(s, id, version) || fault.LostBefore? then Goto(s, w, Idle)
      else
        var row := Written(s.posts[id], Scheduled, user, None);
        if Blocked(s.posts, id, row) then Goto(s, w, Idle)
        else Goto(Store(s, id, row), w, if fault.Sound? then Claimed(id, version + 1, user) else Idle)
    case _ => s
  }

  function AbortStep(s: State, w: WorkerId): State {
    match PhaseOf(s, w)
    case Claimed(id, version, user) => Goto(s, w, Rejecting(id, version, user))
    case _ => s
  }

  predicate WentLive(reply: Reply) {
    match reply
    case Accepted(_) => true
    case Refused(live) => live
    case Unknown(live) => live
  }

  function AfterReply(id: PostId, version: nat, user: UserId, reply: Reply): Phase {
    match reply
    case Accepted(ext) => Confirming(id, version, user, ext)
    case Refused(_) => Rejecting(id, version, user)
    case Unknown(_) => Flagging(id, version, user, None)
  }

  function DispatchStep(s: State, w: WorkerId, reply: Reply): State {
    match PhaseOf(s, w)
    case Claimed(id, version, user) =>
      Goto(s.(log := s.log + [Attempt(id, version, w, WentLive(reply), false)]),
           w, AfterReply(id, version, user, reply))
    case _ => s
  }

  function ConfirmStep(s: State, w: WorkerId, fault: Fault): State {
    match PhaseOf(s, w)
    case Confirming(id, version, user, ext) =>
      var flag := Flagging(id, version, user, Some(ext));
      if id !in s.posts || s.posts[id].version != version || fault.LostBefore? then Goto(s, w, flag)
      else
        var row := Written(s.posts[id], Posted, user, Some(ext));
        if Blocked(s.posts, id, row) then Goto(s, w, flag)
        else Goto(Store(s, id, row), w, if fault.Sound? then Idle else flag)
    case _ => s
  }

  function RejectStep(s: State, w: WorkerId, fault: Fault): State {
    match PhaseOf(s, w)
    case Rejecting(id, version, user) =>
      if id !in s.posts || s.posts[id].version != version || fault.LostBefore? then Goto(s, w, Idle)
      else Goto(Store(s, id, Written(s.posts[id], Failed, user, None)).(log := Refute(s.log, id)), w, Idle)
    case _ => s
  }

  /** The best-effort write: no condition on status or version. */
  function FlagStep(s: State, w: WorkerId, fault: Fault): State {
    match PhaseOf(s, w)
    case Flagging(id, version, user, known) =>
      if id !in s.posts || fault.LostBefore? then Goto(s, w, Idle)
      else
        var row := Written(s.posts[id], PostedUnconfirmed, user, known);
        if Blocked(s.posts, id, row) then Goto(s, w, Idle) else Goto(Store(s, id, row), w, Idle)
    case _ => s
  }

  predicate Overrides(rec: Option<Platform>, selected: Platform) {
    rec.Some? && rec.value != selected
  }

  function NewPost(content: ContentId, platform: Platform, rec: Option<Platform>): Post {
    Post(content, platform, Some(platform), Draft, 0, None, None, rec, Overrides(rec, platform), false)
  }

  function ManualPost(content: ContentId, platform: Platform, rec: Option<Platform>,
                      user: UserId, ext: ExternalId): Post {
    NewPost(content, platform, rec).(status := Posted, manual := true,
                                     executedBy := Some(user), external := Some(ext))
  }

  function Insert(s: State, id: PostId, row: Post): State {
    if id in s.posts || Blocked(s.posts, id, row) then s else Store(s, id, row)
  }

  function RefreshStep(s: State, id: PostId, rec: Option<Platform>): State {
    if id in s.posts && s.posts[id].selected.Some? then
      Store(s, id, s.posts[id].(recommended := rec,
                                wasOverride := Overrides(rec, s.posts[id].selected.value)))
    else s
  }

  predicate ResolveMatches(s: State, id: PostId, version: nat) {
    id in s.posts && s.posts[id].status.PostedUnconfirmed? && s.posts[id].version == version
  }

  function ResolvePostedStep(s: State, id: PostId, version: nat, user: UserId, ext: ExternalId): State {
    if !ResolveMatches(s, id, version) then s else
    var row := Written(s.posts[id], Posted, user, Some(ext));
    if Blocked(s.posts, id, row) then s else Store(s, id, row)
  }

  function ResolveNotPostedStep(s: State, id: PostId, version: nat, user: UserId): State {
    if !ResolveMatches(s, id, version) then s
    else Store(s, id, Written(s.posts[id], Failed, user, None)).(log := Refute(s.log, id))
  }

  function Next(s: State, step: Step): State {
    match step
    case Start(w, job) => StartStep(s, w, job)
    case Claim(w, fault) => ClaimStep(s, w, fault)
    case Abort(w) => AbortStep(s, w)
    case Dispatch(w, reply) => DispatchStep(s, w, reply)
    case Confirm(w, fault) => ConfirmStep(s, w, fault)
    case Reject(w, fault) => RejectStep(s, w, fault)
    case Flag(w, fault) => FlagStep(s, w, fault)
    case Crash(w) => Goto(s, w, Idle)
    case Create(id, content, platform, rec) => Insert(s, id, NewPost(content, platform, rec))
    case RecordManual(id, content, platform, rec, user, ext) =>
      Insert(s, id, ManualPost(content, platform, rec, user, ext))
    case Refresh(id, rec) => RefreshStep(s, id, rec)
    case Enqueue(job) => if job.post in s.posts then s.(jobs := s.jobs + {job}) else s
    case ResolvePosted(id, version, user, ext) => ResolvePostedStep(s, id, version, user, ext)
    case ResolveNotPosted(id, version, user) => ResolveNotPostedStep(s, id, version, user)
  }

  function Run(s: State, steps: seq<Step>): State
    decreases |steps|
  {
    if steps == [] then s else Run(Next(s, steps[0]), steps[1..])
  }
}
