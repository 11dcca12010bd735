/**
  The services behind the protocol, written as the code runs them: one database statement at a
  time, with other actors' steps between every two awaits.  Each method is proved to be a run of
  the step machine, so everything proved of runs holds of it.
 */
module PublishServices {
  import opened Platforms
  import opened PublishProtocol
  import opened PublishSafety
  import opened PublishTheorems

  datatype WriteResult = Count(n: nat) | Threw

  /** The shared tables, the job queue, where each worker stands, and what the platforms received. */
  class Database {
    var posts: map<PostId, Post>
    var workers: map<WorkerId, Phase>
    var jobs: set<Job>
    var log: seq<Attempt>

    function Shared(): State
      reads this
    {
      State(posts, workers, jobs, log)
    }

    /** Other actors run while this one awaits. */
    method Others(steps: seq<Step>)
      modifies this
      ensures Shared() == Run(old(Shared()), steps)
    {
      var s := Shared();
      var i := 0;
      while i < |steps|
        invariant 0 <= i <= |steps|
        invariant Run(s, steps[i..]) == Run(old(Shared()), steps)
      {
        assert steps[i..][1..] == steps[i + 1..];
        s := Next(s, steps[i]);
        i := i + 1;
      }
      posts, workers, jobs, log := s.posts, s.workers, s.jobs, s.log;
    }

    /** One conditional UPDATE of one row; the unique index is checked by the database. */
    method UpdateMany(id: PostId, where: Post -> bool, data: Post -> Post, fault: Fault) returns (r: WriteResult)
      modifies this`posts
      ensures var hit := id in old(posts) && where(old(posts)[id]);
              var refused := hit && Blocked(old(posts), id, data(old(posts)[id]));
              && r == (if refused || !fault.Sound? then Threw else Count(if hit then 1 else 0))
              && posts == if hit && !refused && !fault.LostBefore?
                          then old(posts)[id := data(old(posts)[id])] else old(posts)
    {
      var hit := id in posts && where(posts[id]);
      if hit && Blocked(posts, id, data(posts[id])) {
        return Threw;
      }
      if hit && !fault.LostBefore? {
        posts := posts[id := data(posts[id])];
      }
      r := if fault.Sound? then Count(if hit then 1 else 0) else Threw;
    }
  }

  /** How often a worker has called an adapter. */
  function CallsBy(log: seq<Attempt>, w: WorkerId): nat {
    if log == [] then 0
    else CallsBy(log[..|log| - 1], w) + if log[|log| - 1].worker == w then 1 else 0
  }

  lemma {:induction false} CallsBySameWorkers(a: seq<Attempt>, b: seq<Attempt>, w: WorkerId)
    requires |a| == |b| && forall i | 0 <= i < |a| :: a[i].worker == b[i].worker
    ensures CallsBy(a, w) == CallsBy(b, w)
  {
    if a != [] {
      CallsBySameWorkers(a[..|a| - 1], b[..|b| - 1], w);
    }
  }

  lemma CallsByAppend(log: seq<Attempt>, a: Attempt, w: WorkerId)
    ensures CallsBy(log + [a], w) == CallsBy(log, w) + if a.worker == w then 1 else 0
  {
    assert (log + [a])[..|log|] == log;
  }

  /** Only a worker's own dispatch adds a call by that worker. */
  lemma CallsByStep(s: State, step: Step, w: WorkerId)
    requires !(step.Dispatch? && step.w == w)
    ensures CallsBy(Next(s, step).log, w) == CallsBy(s.log, w)
  {
    var t := Next(s, step);
    if |t.log| == |s.log| {
      CallsBySameWorkers(t.log, s.log, w);
    } else {
      CallsByAppend(s.log, t.log[|s.log|], w);
    }
  }

  lemma {:induction false} CallsByRun(s: State, steps: seq<Step>, w: WorkerId)
    requires forall step | step in steps :: !ByWorker(step, w)
    ensures CallsBy(Run(s, steps).log, w) == CallsBy(s.log, w)
    decreases |steps|
  {
    if steps != [] {
      assert steps[0] in steps;
      CallsByStep(s, steps[0], w);
      CallsByRun(Next(s, steps[0]), steps[1..], w);
    }
  }

  lemma OtherLeavesPhase(s: State, step: Step, w: WorkerId)
    requires !ByWorker(step, w)
    ensures PhaseOf(Next(s, step), w) == PhaseOf(s, w)
  {
  }

  lemma {:induction false} OthersLeavePhase(s: State, steps: seq<Step>, w: WorkerId)
    requires forall step | step in steps :: !ByWorker(step, w)
    ensures PhaseOf(Run(s, steps), w) == PhaseOf(s, w)
    decreases |steps|
  {
    if steps != [] {
      assert steps[0] in steps;
      OtherLeavesPhase(s, steps[0], w);
      OthersLeavePhase(Next(s, steps[0]), steps[1..], w);
    }
  }

  datatype ClaimResult = Won(version: nat) | Lost | ClaimThrew

  datatype Lookup = Found | Absent | LookupThrew

  datatype Outcome = Published | Unpublished | Unconfirmed | LostClaim | Missing | Rejected

  /** What the world does to one execution: other actors' steps and every fault. */
  datatype World = World(
    gaps: seq<seq<Step>>,
    claim: Fault,
    token: bool,
    account: Lookup,
    reply: Reply,
    terminal: Fault,
    flag: Fault)

  /** How an execution that holds its claim ends, by what the world does to it. */
  function Concluded(world: World): Outcome {
    if !world.token || world.account.Absent? then FailureOutcome(world) else
    if world.account.LookupThrew? then Rejected else
    match world.reply
    case Accepted(_) => if world.terminal.Sound? then Published else Unconfirmed
    case Refused(_) => FailureOutcome(world)
    case Unknown(_) => Unconfirmed
  }

  /** The failure write is all that is left to do. */
  function FailureOutcome(world: World): Outcome {
    if world.terminal.Sound? then Unpublished else Rejected
  }

  lemma NoneInGap(gap: seq<Step>, w: WorkerId)
    requires forall step | step in gap :: !ByWorker(step, w)
    ensures Step.Crash(w) !in gap
  {
  }

  class PublishExecution {
    const db: Database
    const me: WorkerId

    constructor (db: Database, me: WorkerId)
      ensures this.db == db && this.me == me
    {
      this.db, this.me := db, me;
    }

    /** Awaiting lets others run; they can move neither this worker nor a row it holds. */
    method Await(gap: seq<Step>)
      requires Inv(db.Shared()) && forall step | step in gap :: !ByWorker(step, me)
      modifies db
      ensures Inv(db.Shared()) && db.Shared() == Run(old(db.Shared()), gap)
      ensures PhaseOf(db.Shared(), me) == PhaseOf(old(db.Shared()), me)
      ensures PhaseOf(old(db.Shared()), me).Holds() ==> SameClaim(old(db.Shared()), db.Shared(), me)
      ensures CallsBy(db.log, me) == CallsBy(old(db.log), me)
    {
      ghost var s := db.Shared();
      db.Others(gap);
      RunKeeps(s, gap);
      OthersLeavePhase(s, gap, me);
      CallsByRun(s, gap, me);
      if PhaseOf(s, me).Holds() {
        ClaimIsolation(s, gap, me);
      }
    }

    method Claim(id: PostId, version: nat, user: UserId, fault: Fault) returns (r: ClaimResult)
      requires PhaseOf(db.Shared(), me) == Read(id, version, user)
      modifies db
      ensures db.Shared() == Next(old(db.Shared()), Step.Claim(me, fault))
      ensures PhaseOf(db.Shared(), me) == if r.Won? then Claimed(id, r.version, user) else Idle
      ensures r.Won? ==> r.version == version + 1 && fault.Sound?
      ensures r.Lost? <==> fault.Sound? && !ClaimMatches(old(db.Shared()), id, version)
      ensures r.Lost? ==> db.posts == old(db.posts)
    {
      var result := db.UpdateMany(id,
        (p: Post) => Dispatchable(p.status) && p.version == version,
        (p: Post) => Written(p, Scheduled, user, None), fault);
      r := if result == Count(1) then Won(version + 1) else if result.Count? then Lost else ClaimThrew;
      db.workers := db.workers[me := if r.Won? then Claimed(id, version + 1, user) else Idle];
    }

    method MarkFailed(id: PostId, version: nat, user: UserId, fault: Fault) returns (r: WriteResult)
      requires PhaseOf(db.Shared(), me) == Rejecting(id, version, user)
      modifies db
      ensures db.Shared() == Next(old(db.Shared()), Step.Reject(me, fault))
      ensures r.Threw? <==> !fault.Sound?
    {
      var before := db.posts;
      r := db.UpdateMany(id, (p: Post) => p.version == version,
                         (p: Post) => Written(p, Failed, user, None), fault);
      if id in before && before[id].version == version && !fault.LostBefore? {
        db.log := Refute(db.log, id);
      }
      db.workers := db.workers[me := Idle];
    }

    /** Best effort: the result is not even looked at. */
    method MarkUnconfirmed(id: PostId, version: nat, user: UserId, known: Option<ExternalId>, fault: Fault)
      requires Inv(db.Shared()) && PhaseOf(db.Shared(), me) == Flagging(id, version, user, known)
      modifies db
      ensures db.Shared() == Next(old(db.Shared()), Step.Flag(me, fault)) && Inv(db.Shared())
      ensures PhaseOf(db.Shared(), me).Idle? && id in db.posts && OwnsLivePost(db.posts[id].status)
      ensures !fault.LostBefore? ==>
                && db.posts[id].status.PostedUnconfirmed? && db.posts[id].executedBy == Some(user)
                && (known.Some? ==> db.posts[id].external == known)
    {
      ghost var s0 := db.Shared();
      assert HeldRow(s0, s0.workers[me]);
      NextKeeps(s0, Step.Flag(me, fault));
      var _ := db.UpdateMany(id, (p: Post) => true,
                             (p: Post) => Written(p, PostedUnconfirmed, user, known), fault);
      db.workers := db.workers[me := Idle];
    }

    /** The success write and the count it must return. */
    method WriteSuccess(id: PostId, version: nat, user: UserId, ext: ExternalId, fault: Fault) returns (done: bool)
      requires Inv(db.Shared()) && PhaseOf(db.Shared(), me) == Confirming(id, version, user, ext)
      modifies db
      ensures db.Shared() == Next(old(db.Shared()), Step.Confirm(me, fault)) && Inv(db.Shared())
      ensures done == fault.Sound?
      ensures PhaseOf(db.Shared(), me) == if done then Idle else Flagging(id, version, user, Some(ext))
      ensures done ==> id in db.posts && Recorded(db.posts[id], Posted, version + 1, user, Some(ext))
    {
      ghost var s0 := db.Shared();
      TerminalWritesMatch(s0, me);
      assert HeldRow(s0, s0.workers[me]);
      var result := db.UpdateMany(id, (p: Post) => p.version == version,
                                  (p: Post) => Written(p, Posted, user, Some(ext)), fault);
      done := result == Count(1);
      db.workers := db.workers[me := if done then Idle else Flagging(id, version, user, Some(ext))];
      NextKeeps(s0, Step.Confirm(me, fault));
    }

    /** Platform confirmed success: record it, or fall back to the unconfirmed write. */
    method RecordSuccess(id: PostId, version: nat, user: UserId, ext: ExternalId, world: World)
      returns (outcome: Outcome, ghost steps: seq<Step>)
      requires Inv(db.Shared()) && PhaseOf(db.Shared(), me) == Confirming(id, version, user, ext)
      requires |world.gaps| == 5 && forall step | step in world.gaps[4] :: !ByWorker(step, me)
      modifies db
      ensures steps == [Step.Confirm(me, world.terminal)]
                       + if world.terminal.Sound? then [] else world.gaps[4] + [Step.Flag(me, world.flag)]
      ensures Inv(db.Shared()) && db.Shared() == Run(old(db.Shared()), steps)
      ensures PhaseOf(db.Shared(), me).Idle? && CallsBy(db.log, me) == CallsBy(old(db.log), me)
      ensures id in db.posts
      ensures outcome == if world.terminal.Sound? then Published else Unconfirmed
      ensures outcome.Published? ==> Recorded(db.posts[id], Posted, version + 1, user, Some(ext))
      ensures outcome.Unconfirmed? && !world.flag.LostBefore? ==>
                && db.posts[id].status.PostedUnconfirmed? && db.posts[id].executedBy == Some(user)
                && db.posts[id].external == Some(ext)
      ensures outcome.Unconfirmed? ==> OwnsLivePost(db.posts[id].status)
    {
      ghost var s0 := db.Shared();
      var done := WriteSuccess(id, version, user, ext, world.terminal);
      TakeStep(s0, [], Step.Confirm(me, world.terminal), me);
      steps := [Step.Confirm(me, world.terminal)];
      if done {
        return Published, steps;
      }
      ghost var more := FallBack(id, version, user, ext, world);
      RunAppend(s0, steps, more);
      steps := steps + more;
      outcome := Unconfirmed;
    }

    /** The success could not be recorded: the best-effort write, with the platform's id. */
    method FallBack(id: PostId, version: nat, user: UserId, ext: ExternalId, world: World)
      returns (ghost steps: seq<Step>)
      requires Inv(db.Shared()) && PhaseOf(db.Shared(), me) == Flagging(id, version, user, Some(ext))
      requires |world.gaps| == 5 && forall step | step in world.gaps[4] :: !ByWorker(step, me)
      modifies db
      ensures Inv(db.Shared()) && db.Shared() == Run(old(db.Shared()), steps)
      ensures steps == world.gaps[4] + [Step.Flag(me, world.flag)]
      ensures PhaseOf(db.Shared(), me).Idle? && CallsBy(db.log, me) == CallsBy(old(db.log), me)
      ensures id in db.posts && OwnsLivePost(db.posts[id].status)
      ensures !world.flag.LostBefore? ==>
                && db.posts[id].status.PostedUnconfirmed? && db.posts[id].executedBy == Some(user)
                && db.posts[id].external == Some(ext)
    {
      ghost var s0 := db.Shared();
      Await(world.gaps[4]);
      MarkUnconfirmed(id, version, user, Some(ext), world.flag);
      TakeStep(s0, world.gaps[4], Step.Flag(me, world.flag), me);
      steps := world.gaps[4] + [Step.Flag(me, world.flag)];
    }

    method DispatchAndRecord(id: PostId, version: nat, user: UserId, world: World)
      returns (outcome: Outcome, ghost steps: seq<Step>)
      requires Inv(db.Shared()) && PhaseOf(db.Shared(), me) == Claimed(id, version, user)
      requires |world.gaps| == 5 && forall gap, step | gap in world.gaps && step in gap :: !ByWorker(step, me)
      modifies db
      ensures Step.Crash(me) in steps ==> world.account.LookupThrew?
      ensures Inv(db.Shared()) && db.Shared() == Run(old(db.Shared()), steps)
      ensures id in db.posts && PhaseOf(db.Shared(), me).Idle?
      ensures outcome == Concluded(world.(token := true))
      ensures CallsBy(db.log, me) == CallsBy(old(db.log), me) + if world.account.Found? then 1 else 0
      ensures outcome.Published? ==>
                && world.reply.Accepted? && world.terminal.Sound?
                && Recorded(db.posts[id], Posted, version + 1, user, Some(world.reply.ext))
      ensures outcome.Unpublished? ==>
                && (world.account.Found? ==> world.reply.Refused?)
                && db.posts[id].status.Failed? && db.posts[id].version == version + 1
                && db.posts[id].executedBy == Some(user)
      ensures outcome.Unconfirmed? ==> OwnsLivePost(db.posts[id].status)
      ensures outcome.Unconfirmed? && !world.flag.LostBefore? ==> db.posts[id].status.PostedUnconfirmed?
    {
      if world.account.LookupThrew? {
        steps := Abandon(id, version, user);
        return Rejected, steps;
      }
      if world.account.Absent? {
        outcome, steps := Fail(id, version, user, world.terminal);
        return;
      }
      assert world.gaps[2] in world.gaps && world.gaps[3] in world.gaps && world.gaps[4] in world.gaps;
      ghost var s0 := db.Shared();
      steps := AwaitAdapter(id, version, user, world);
      NoneInGap(world.gaps[2], me);
      NoneInGap(world.gaps[3], me);
      ghost var first := steps;
      ghost var more;
      outcome, more := Conclude(id, version, user, world);
      steps := first + more;
      RunAppend(s0, first, more);
    }

    /** An exception nobody catches: the row stays `scheduled`, with its author on it. */
    method Abandon(id: PostId, version: nat, user: UserId) returns (ghost steps: seq<Step>)
      requires Inv(db.Shared()) && PhaseOf(db.Shared(), me) == Claimed(id, version, user)
      modifies db
      ensures Inv(db.Shared()) && db.Shared() == Run(old(db.Shared()), steps)
      ensures id in db.posts && db.posts[id].status.Scheduled? && db.posts[id].executedBy == Some(user)
      ensures PhaseOf(db.Shared(), me).Idle? && CallsBy(db.log, me) == CallsBy(old(db.log), me)
    {
      ghost var s0 := db.Shared();
      assert HeldRow(s0, Claimed(id, version, user)) by {
        assert s0.workers[me].Holds();
      }
      db.workers := db.workers[me := Idle];
      ghost var t := Next(s0, Step.Crash(me));
      assert db.Shared() == t;
      NextKeeps(s0, Step.Crash(me));
      TakeStep(s0, [], Step.Crash(me), me);
      steps := [] + [Step.Crash(me)];
    }

    method AwaitAdapter(id: PostId, version: nat, user: UserId, world: World) returns (ghost steps: seq<Step>)
      requires Inv(db.Shared()) && PhaseOf(db.Shared(), me) == Claimed(id, version, user)
      requires |world.gaps| == 5 && forall gap, step | gap in world.gaps && step in gap :: !ByWorker(step, me)
      modifies db
      ensures steps == world.gaps[2] + [Step.Dispatch(me, world.reply)] + world.gaps[3]
      ensures Inv(db.Shared()) && db.Shared() == Run(old(db.Shared()), steps)
      ensures PhaseOf(db.Shared(), me) == AfterReply(id, version, user, world.reply)
      ensures CallsBy(db.log, me) == CallsBy(old(db.log), me) + 1
    {
      ghost var s0 := db.Shared();
      assert world.gaps[2] in world.gaps && world.gaps[3] in world.gaps;
      Await(world.gaps[2]);
      steps := world.gaps[2];
      CallAdapter(id, version, user, world.reply);
      RunAppend(s0, steps, [Step.Dispatch(me, world.reply)]);
      steps := steps + [Step.Dispatch(me, world.reply)];
      Await(world.gaps[3]);
      RunAppend(s0, steps, world.gaps[3]);
      steps := steps + world.gaps[3];
    }

    method CallAdapter(id: PostId, version: nat, user: UserId, reply: Reply)
      requires Inv(db.Shared()) && PhaseOf(db.Shared(), me) == Claimed(id, version, user)
      modifies db
      ensures db.Shared() == Run(old(db.Shared()), [Step.Dispatch(me, reply)]) && Inv(db.Shared())
      ensures db.log == old(db.log) + [Attempt(id, version, me, WentLive(reply), false)]
      ensures PhaseOf(db.Shared(), me) == AfterReply(id, version, user, reply)
      ensures CallsBy(db.log, me) == CallsBy(old(db.log), me) + 1
    {
      ghost var s0 := db.Shared();
      NextKeeps(s0, Step.Dispatch(me, reply));
      TakeStep(s0, [], Step.Dispatch(me, reply), me);
      var call := Attempt(id, version, me, WentLive(reply), false);
      CallsByAppend(db.log, call, me);
      db.log := db.log + [call];
      db.workers := db.workers[me := AfterReply(id, version, user, reply)];
      assert db.Shared() == DispatchStep(s0, me, reply);
      assert [] + [Step.Dispatch(me, reply)] == [Step.Dispatch(me, reply)];
    }

    /** What follows the adapter's answer. */
    method Conclude(id: PostId, version: nat, user: UserId, world: World)
      returns (outcome: Outcome, ghost steps: seq<Step>)
      requires Inv(db.Shared()) && PhaseOf(db.Shared(), me) == AfterReply(id, version, user, world.reply)
      requires |world.gaps| == 5 && forall step | step in world.gaps[4] :: !ByWorker(step, me)
      modifies db
      ensures Step.Crash(me) !in steps
      ensures Inv(db.Shared()) && db.Shared() == Run(old(db.Shared()), steps)
      ensures PhaseOf(db.Shared(), me).Idle? && CallsBy(db.log, me) == CallsBy(old(db.log), me)
      ensures id in db.posts && outcome == Concluded(world.(token := true, account := Found))
      ensures outcome.Published? ==>
                && world.reply.Accepted? && world.terminal.Sound?
                && Recorded(db.posts[id], Posted, version + 1, user, Some(world.reply.ext))
      ensures outcome.Unpublished? ==>
                && world.reply.Refused?
                && db.posts[id].status.Failed? && db.posts[id].version == version + 1
                && db.posts[id].executedBy == Some(user)
      ensures outcome.Unconfirmed? ==> OwnsLivePost(db.posts[id].status)
      ensures outcome.Unconfirmed? && !world.flag.LostBefore? ==> db.posts[id].status.PostedUnconfirmed?
    {
      match world.reply {
        case Accepted(ext) =>
          outcome, steps := RecordSuccess(id, version, user, ext, world);
          NoneInGap(world.gaps[4], me);
        case Refused(_) =>
          outcome, steps := FailAfterReply(id, version, user, world.terminal);
        case Unknown(_) =>
          ghost var s0 := db.Shared();
          MarkUnconfirmed(id, version, user, None, world.flag);
          TakeStep(s0, [], Step.Flag(me, world.flag), me);
          outcome, steps := Unconfirmed, [Step.Flag(me, world.flag)];
      }
    }

    /** Token or account missing: nothing was dispatched, the row becomes retryable. */
    method Fail(id: PostId, version: nat, user: UserId, fault: Fault)
      returns (outcome: Outcome, ghost steps: seq<Step>)
      requires Inv(db.Shared()) && PhaseOf(db.Shared(), me) == Claimed(id, version, user)
      modifies db
      ensures Step.Crash(me) !in steps
      ensures Inv(db.Shared()) && db.Shared() == Run(old(db.Shared()), steps)
      ensures id in db.posts && PhaseOf(db.Shared(), me).Idle?
      ensures CallsBy(db.log, me) == CallsBy(old(db.log), me)
      ensures outcome == if fault.Sound? then Unpublished else Rejected
      ensures outcome.Unpublished? ==>
                db.posts[id].status.Failed? && db.posts[id].version == version + 1
                && db.posts[id].executedBy == Some(user)
    {
      ghost var s0 := db.Shared();
      db.workers := db.workers[me := Rejecting(id, version, user)];
      TakeStep(s0, [], Step.Abort(me), me);
      NextKeeps(s0, Step.Abort(me));
      ghost var more;
      outcome, more := FailAfterReply(id, version, user, fault);
      steps := [Step.Abort(me)] + more;
      RunAppend(s0, [Step.Abort(me)], more);
    }

    method FailAfterReply(id: PostId, version: nat, user: UserId, fault: Fault)
      returns (outcome: Outcome, ghost steps: seq<Step>)
      requires Inv(db.Shared()) && PhaseOf(db.Shared(), me) == Rejecting(id, version, user)
      modifies db
      ensures Step.Crash(me) !in steps
      ensures Inv(db.Shared()) && db.Shared() == Run(old(db.Shared()), steps)
      ensures id in db.posts && PhaseOf(db.Shared(), me).Idle?
      ensures CallsBy(db.log, me) == CallsBy(old(db.log), me)
      ensures outcome == if fault.Sound? then Unpublished else Rejected
      ensures outcome.Unpublished? ==>
                db.posts[id].status.Failed? && db.posts[id].version == version + 1
                && db.posts[id].executedBy == Some(user)
    {
      ghost var s0 := db.Shared();
      var result := MarkFailed(id, version, user, fault);
      TakeStep(s0, [], Step.Reject(me, fault), me);
      NextKeeps(s0, Step.Reject(me, fault));
      steps := [Step.Reject(me, fault)];
      outcome := if result.Count? then Unpublished else Rejected;
    }

    /**
      One delivery of a job.  Whatever the others do and whatever fails, the execution is a run of
      the protocol; losing the claim means the adapter is not called; and each outcome says what
      the row and the adapter saw.
     */
    method Execute(job: Job, world: World) returns (outcome: Outcome, ghost steps: seq<Step>, ghost won: bool)
      requires Inv(db.Shared()) && PhaseOf(db.Shared(), me).Idle? && job in db.jobs
      requires |world.gaps| == 5 && forall gap, step | gap in world.gaps && step in gap :: !ByWorker(step, me)
      modifies db
      ensures Step.Crash(me) in steps ==> won && world.token && world.account.LookupThrew?
      ensures Inv(db.Shared()) && db.Shared() == Run(old(db.Shared()), steps)
      ensures PhaseOf(db.Shared(), me).Idle?
      ensures outcome.Missing? <==> job.post !in old(db.posts) || old(db.posts)[job.post].selected.None?
      ensures won ==> outcome == Concluded(world)
      ensures !won ==> outcome.Missing? || outcome.LostClaim? || outcome.Rejected?
      ensures !outcome.Missing? ==>
                var s := Run(old(db.Shared()), [Step.Start(me, job)] + world.gaps[0]);
                && won == PhaseOf(Next(s, Step.Claim(me, world.claim)), me).Claimed?
                && (outcome.LostClaim? <==>
                      world.claim.Sound? && !ClaimMatches(s, job.post, old(db.posts)[job.post].version))
      ensures CallsBy(db.log, me)
           == CallsBy(old(db.log), me) + if won && world.token && world.account.Found? then 1 else 0
      ensures !outcome.Missing? ==> job.post in db.posts
      ensures outcome.Published? ==>
                && world.reply.Accepted?
                && Recorded(db.posts[job.post], Posted, old(db.posts)[job.post].version + 2, job.user,
                            Some(world.reply.ext))
      ensures outcome.Unpublished? ==>
                && db.posts[job.post].status.Failed?
                && db.posts[job.post].version == old(db.posts)[job.post].version + 2
      ensures outcome.Unconfirmed? ==> OwnsLivePost(db.posts[job.post].status)
      ensures outcome.Unconfirmed? && !world.flag.LostBefore? ==> db.posts[job.post].status.PostedUnconfirmed?
    {
      ghost var s0 := db.Shared();
      if job.post !in db.posts || db.posts[job.post].selected.None? {
        return Missing, [], false;
      }
      var claim;
      claim, steps := TryClaim(job, world);
      won := claim.Won?;
      if claim.Lost? {
        return LostClaim, steps, won;
      }
      if claim.ClaimThrew? {
        return Rejected, steps, won;
      }
      assert world.gaps[1] in world.gaps;
      NoneInGap(world.gaps[1], me);
      Await(world.gaps[1]);
      RunAppend(s0, steps, world.gaps[1]);
      steps := steps + world.gaps[1];
      ghost var more;
      if world.token {
        outcome, more := DispatchAndRecord(job.post, claim.version, job.user, world);
      } else {
        outcome, more := Fail(job.post, claim.version, job.user, world.terminal);
      }
      RunAppend(s0, steps, more);
      steps := steps + more;
    }

    /** Read the row, let others run, then try to take it at the version that was read. */
    method TryClaim(job: Job, world: World) returns (claim: ClaimResult, ghost steps: seq<Step>)
      requires Inv(db.Shared()) && PhaseOf(db.Shared(), me).Idle? && job in db.jobs
      requires job.post in db.posts && db.posts[job.post].selected.Some?
      requires |world.gaps| == 5 && forall gap, step | gap in world.gaps && step in gap :: !ByWorker(step, me)
      modifies db
      ensures Step.Crash(me) !in steps
      ensures Inv(db.Shared()) && db.Shared() == Run(old(db.Shared()), steps)
      ensures job.post in db.posts && CallsBy(db.log, me) == CallsBy(old(db.log), me)
      ensures PhaseOf(db.Shared(), me) == if claim.Won? then Claimed(job.post, claim.version, job.user) else Idle
      ensures claim.Won? ==> claim.version == old(db.posts)[job.post].version + 1
      ensures var s := Run(old(db.Shared()), [Step.Start(me, job)] + world.gaps[0]);
              && (claim.Won? <==> PhaseOf(Next(s, Step.Claim(me, world.claim)), me).Claimed?)
              && (claim.Lost? <==> world.claim.Sound? && !ClaimMatches(s, job.post, old(db.posts)[job.post].version))
    {
      ghost var s0 := db.Shared();
      var version := db.posts[job.post].version;
      db.workers := db.workers[me := Read(job.post, version, job.user)];
      TakeStep(s0, [], Step.Start(me, job), me);
      NextKeeps(s0, Step.Start(me, job));
      steps := [] + [Step.Start(me, job)];
      assert db.Shared() == Next(s0, Step.Start(me, job));
      assert world.gaps[0] in world.gaps;
      NoneInGap(world.gaps[0], me);
      Await(world.gaps[0]);
      RunAppend(s0, steps, world.gaps[0]);
      steps := steps + world.gaps[0];
      NextKeeps(db.Shared(), Step.Claim(me, world.claim));
      TakeStep(s0, steps, Step.Claim(me, world.claim), me);
      claim := Claim(job.post, version, job.user, world.claim);
      steps := steps + [Step.Claim(me, world.claim)];
      RowKept(s0, steps, job.post);
    }
  }

  predicate Recorded(row: Post, status: Status, version: nat, user: UserId, ext: Option<ExternalId>) {
    row.status == status && row.version == version && row.executedBy == Some(user) && row.external == ext
  }

  /** Extending a run by one step; a step that is not the worker's dispatch adds no call by it. */
  lemma TakeStep(s: State, steps: seq<Step>, step: Step, w: WorkerId)
    ensures Run(s, steps + [step]) == Next(Run(s, steps), step)
    ensures !step.Dispatch? ==> CallsBy(Next(Run(s, steps), step).log, w) == CallsBy(Run(s, steps).log, w)
  {
    RunAppend(s, steps, [step]);
    assert Run(Next(Run(s, steps), step), []) == Next(Run(s, steps), step);
    if !step.Dispatch? {
      CallsByStep(Run(s, steps), step, w);
    }
  }

  /** A request is answered, refused, or ends in an exception nobody catches. */
  datatype Answer = Done | NotFound | Conflict | Uncaught

  /** What the orchestrator decides before it touches the posts table. */
  datatype Checks = Checks(ready: bool, account: bool, recommended: Option<Platform>)

  class PublishOrchestrator {
    const db: Database

    constructor (db: Database)
      ensures this.db == db
    {
      this.db := db;
    }

    /** `assertNoActiveDuplicate`: the friendly check asks exactly what the index will ask. */
    method HasActiveDuplicate(content: ContentId, platform: Platform) returns (found: bool)
      ensures found <==> Taken(db.posts, content, platform)
    {
      found := exists other | other in db.posts ::
        Active(db.posts[other].status) && db.posts[other].content == content
        && db.posts[other].platform == platform;
    }

    /** `createPostOrConflict`: the index's refusal is a conflict, any other error is passed on. */
    method InsertRow(id: PostId, row: Post, fault: Fault) returns (r: Answer)
      requires id !in db.posts
      modifies db`posts
      ensures var blocked := Blocked(old(db.posts), id, row);
              && r == (if fault.LostBefore? then Uncaught else if blocked then Conflict
                       else if fault.Sound? then Done else Uncaught)
              && db.Shared() == if fault.LostBefore? then old(db.Shared()) else Insert(old(db.Shared()), id, row)
    {
      if fault.LostBefore? {
        return Uncaught;
      }
      if Blocked(db.posts, id, row) {
        return Conflict;
      }
      db.posts := db.posts[id := row];
      r := if fault.Sound? then Done else Uncaught;
    }

    /** `auditAndEnqueue`: the row is there already; the queue may refuse, or answer too late. */
    method Enqueue(id: PostId, user: UserId, gap: seq<Step>, fault: Fault, ghost start: State, ghost done: seq<Step>)
      returns (r: Answer, ghost steps: seq<Step>)
      requires db.Shared() == Run(start, done) && id in db.posts
      modifies db
      ensures db.Shared() == Run(start, steps)
      ensures id in db.posts && SameTarget(db.posts[id], old(db.posts)[id])
      ensures gap == [] ==> db.posts == old(db.posts)
      ensures r == if fault.Sound? then Done else Uncaught
      ensures steps == done + gap + if fault.LostBefore? then [] else [Step.Enqueue(Job(id, user))]
      ensures !fault.LostBefore? ==> Job(id, user) in db.jobs
    {
      ghost var s1 := db.Shared();
      db.Others(gap);
      RunAppend(start, done, gap);
      RowKept(s1, gap, id);
      steps := done + gap;
      if !fault.LostBefore? {
        db.jobs := db.jobs + {Job(id, user)};
        TakeStep(start, steps, Step.Enqueue(Job(id, user)), 0);
      }
      assert steps + [] == steps;
      steps := steps + if fault.LostBefore? then [] else [Step.Enqueue(Job(id, user))];
      r := if fault.Sound? then Done else Uncaught;
    }

    /**
      Create the intent row, then enqueue.  A duplicate that slips in between the check and the
      insert is refused by the index, so exactly the requests that leave a row try to enqueue a job;
      one whose insert went through but whose enqueue failed leaves its draft behind.
     */
    method CreateAndDispatch(id: PostId, content: ContentId, platform: Platform, user: UserId,
                             checks: Checks, insert: Fault, enqueue: Fault, gap: seq<Step>, gap2: seq<Step>)
      returns (r: Answer, ghost steps: seq<Step>)
      requires id !in db.posts && id !in Run(db.Shared(), gap).posts
      modifies db
      ensures db.Shared() == Run(old(db.Shared()), steps) && !r.NotFound?
      ensures !checks.ready || !checks.account || Taken(old(db.posts), content, platform) ==>
                r.Conflict? && steps == []
      ensures r.Conflict? <==>
                || !checks.ready || !checks.account || Taken(old(db.posts), content, platform)
                || (!insert.LostBefore? && Taken(Run(old(db.Shared()), gap).posts, content, platform))
      ensures r.Conflict? && steps != [] ==> db.Shared() == Run(old(db.Shared()), gap)
      ensures r.Done? ==>
                && insert.Sound? && enqueue.Sound?
                && steps == gap + [Create(id, content, platform, checks.recommended)] + gap2
                            + [Step.Enqueue(Job(id, user))]
                && id in db.posts && Job(id, user) in db.jobs
                && !Taken(Run(old(db.Shared()), gap).posts, content, platform)
      ensures r.Done? || (r.Uncaught? && !insert.LostBefore?) ==>
                var s := Run(old(db.Shared()), gap + [Create(id, content, platform, checks.recommended)]);
                && id in s.posts && FreshDraft(s.posts[id], content, platform, checks.recommended)
                && (insert.LostAfter? || gap2 == [] ==> db.posts == s.posts)
      ensures r.Uncaught? && insert.LostBefore? ==> steps == gap
      ensures r.Uncaught? && insert.LostAfter? ==>
                steps == gap + [Create(id, content, platform, checks.recommended)] && id in db.posts
      ensures r.Uncaught? && insert.Sound? ==>
                && !enqueue.Sound? && id in db.posts
                && steps == gap + [Create(id, content, platform, checks.recommended)] + gap2
                            + (if enqueue.LostBefore? then [] else [Step.Enqueue(Job(id, user))])
    {
      ghost var s0 := db.Shared();
      var row := NewPost(content, platform, checks.recommended);
      if !checks.ready || !checks.account {
        return Conflict, [];
      }
      var duplicate := HasActiveDuplicate(content, platform);
      if duplicate {
        return Conflict, [];
      }
      db.Others(gap);
      BlockedIffTaken(db.posts, id, row);
      CreateIff(db.Shared(), id, content, platform, checks.recommended);
      r := InsertRow(id, row, insert);
      steps := gap;
      if !insert.LostBefore? {
        TakeStep(s0, gap, Create(id, content, platform, checks.recommended), 0);
        steps := gap + [Create(id, content, platform, checks.recommended)];
      }
      if r.Done? {
        r, steps := Enqueue(id, user, gap2, enqueue, s0, steps);
      }
    }

    /** Re-dispatch: refresh the recommendation facts, leave status and version alone, enqueue. */
    method Redispatch(id: PostId, user: UserId, checks: Checks, update: Fault, enqueue: Fault,
                      gap: seq<Step>, gap2: seq<Step>)
      returns (r: Answer, ghost steps: seq<Step>)
      modifies db
      ensures db.Shared() == Run(old(db.Shared()), steps)
      ensures r.NotFound? <==> id !in old(db.posts)
      ensures r.Conflict? <==> && id in old(db.posts)
                               && !(Dispatchable(old(db.posts)[id].status) && old(db.posts)[id].selected.Some?
                                    && checks.ready && checks.account)
      ensures r.NotFound? || r.Conflict? ==> steps == []
      ensures r.Done? ==> update.Sound? && enqueue.Sound?
      ensures r.Done? ==> steps == gap + [Refresh(id, checks.recommended)] + gap2 + [Step.Enqueue(Job(id, user))]
      ensures r.Done? || (r.Uncaught? && !update.LostBefore?) ==>
                var s := Run(old(db.Shared()), gap + [Refresh(id, checks.recommended)]);
                && id in s.posts && s.posts[id].recommended == checks.recommended
                && (s.posts[id].wasOverride <==>
                      checks.recommended.Some? && checks.recommended != old(db.posts)[id].selected)
                && (update.LostAfter? || gap2 == [] ==> db.posts == s.posts)
      ensures r.Uncaught? && !update.Sound? ==>
                steps == gap + if update.LostBefore? then [] else [Refresh(id, checks.recommended)]
      ensures r.Uncaught? && update.Sound? ==>
                && !enqueue.Sound?
                && steps == gap + [Refresh(id, checks.recommended)] + gap2
                            + (if enqueue.LostBefore? then [] else [Step.Enqueue(Job(id, user))])
    {
      ghost var s0 := db.Shared();
      if id !in db.posts {
        return NotFound, [];
      }
      var post := db.posts[id];
      if !Dispatchable(post.status) || post.selected.None? || !checks.ready || !checks.account {
        return Conflict, [];
      }
      db.Others(gap);
      RowKept(s0, gap, id);
      SelectedKept(s0, gap, id);
      steps := gap;
      if update.LostBefore? {
        assert gap + [] == gap;
        return Uncaught, steps;
      }
      db.posts := db.posts[id := db.posts[id].(recommended := checks.recommended,
                                              wasOverride := Overrides(checks.recommended, post.selected.value))];
      RefreshIff(Run(s0, gap), id, checks.recommended);
      TakeStep(s0, gap, Refresh(id, checks.recommended), 0);
      steps := gap + [Refresh(id, checks.recommended)];
      if !update.Sound? {
        return Uncaught, steps;
      }
      r, steps := Enqueue(id, user, gap2, enqueue, s0, steps);
    }

    /** A record of something already live: inserted as `posted`, nothing enqueued, no adapter. */
    method RecordManualExternal(id: PostId, content: ContentId, platform: Platform, user: UserId,
                                ext: ExternalId, checks: Checks, insert: Fault, gap: seq<Step>)
      returns (r: Answer, ghost steps: seq<Step>)
      requires id !in db.posts && id !in Run(db.Shared(), gap).posts
      modifies db
      ensures db.Shared() == Run(old(db.Shared()), steps) && !r.NotFound?
      ensures !checks.ready || Taken(old(db.posts), content, platform) ==> r.Conflict? && steps == []
      ensures r.Conflict? <==>
                || !checks.ready || Taken(old(db.posts), content, platform)
                || (!insert.LostBefore? && Taken(Run(old(db.Shared()), gap).posts, content, platform))
      ensures r.Conflict? && steps != [] ==> db.Shared() == Run(old(db.Shared()), gap)
      ensures r.Done? ==> insert.Sound?
      ensures r.Done? || (r.Uncaught? && insert.LostAfter?) ==>
                && steps == gap + [RecordManual(id, content, platform, checks.recommended, user, ext)]
                && AddsRow(Run(old(db.Shared()), gap), db.Shared(), id)
                && FreshRecord(db.posts[id], content, platform, checks.recommended, user, ext)
      ensures r.Uncaught? ==> !insert.Sound? && (insert.LostBefore? ==> steps == gap)
    {
      ghost var s0 := db.Shared();
      var row := ManualPost(content, platform, checks.recommended, user, ext);
      if !checks.ready {
        return Conflict, [];
      }
      var duplicate := HasActiveDuplicate(content, platform);
      if duplicate {
        return Conflict, [];
      }
      db.Others(gap);
      BlockedIffTaken(db.posts, id, row);
      RecordManualIff(db.Shared(), id, content, platform, checks.recommended, user, ext);
      r := InsertRow(id, row, insert);
      steps := gap;
      if !insert.LostBefore? {
        TakeStep(s0, gap, RecordManual(id, content, platform, checks.recommended, user, ext), 0);
        steps := gap + [RecordManual(id, content, platform, checks.recommended, user, ext)];
      }
    }
  }

  lemma {:induction false} SelectedKept(s: State, steps: seq<Step>, id: PostId)
    requires id in s.posts
    ensures id in Run(s, steps).posts && Run(s, steps).posts[id].selected == s.posts[id].selected
    decreases |steps|
  {
    if steps != [] {
      RowMoves(s, steps[0], id);
      SelectedKept(Next(s, steps[0]), steps[1..], id);
    }
  }

  class PostResolution {
    const db: Database

    constructor (db: Database)
      ensures this.db == db
    {
      this.db := db;
    }

    /**
      "Confirmed posted".  The write is conditional on the version that was shown to the admin, so
      it applies exactly when nobody resolved or moved the row in between.
     */
    method ResolveAsPosted(id: PostId, admin: UserId, ext: ExternalId, gap: seq<Step>, fault: Fault) returns (r: Answer)
      requires Inv(db.Shared())
      modifies db
      ensures r.NotFound? <==> id !in old(db.posts)
      ensures id !in old(db.posts) || !old(db.posts)[id].status.PostedUnconfirmed? ==>
                !r.Done? && db.Shared() == old(db.Shared())
      ensures id in old(db.posts) && old(db.posts)[id].status.PostedUnconfirmed? ==>
                var s, version := Run(old(db.Shared()), gap), old(db.posts)[id].version;
                && id in s.posts
                && db.Shared() == (if fault.LostBefore? then s else Next(s, ResolvePosted(id, version, admin, ext)))
                && r == if !fault.Sound? then Uncaught else if s.posts[id].version == version then Done else Conflict
      ensures r.Done? ==>
                Recorded(db.posts[id], Posted, old(db.posts)[id].version + 1, admin, Some(ext))
    {
      ghost var s0 := db.Shared();
      if id !in db.posts {
        return NotFound;
      }
      var post := db.posts[id];
      if !post.status.PostedUnconfirmed? {
        return Conflict;
      }
      db.Others(gap);
      RunKeeps(s0, gap);
      UnmovedKeepsStatus(s0, gap, id);
      NotBlocked(db.Shared(), id, Written(db.posts[id], Posted, admin, Some(ext)));
      var result := db.UpdateMany(id, (p: Post) => p.status.PostedUnconfirmed? && p.version == post.version,
                                  (p: Post) => Written(p, Posted, admin, Some(ext)), fault);
      r := if result.Threw? then Uncaught else if result == Count(1) then Done else Conflict;
    }

    /** "Confirmed not posted": the row re-enters the retry path and its attempts are written off. */
    method ResolveAsNotPosted(id: PostId, admin: UserId, gap: seq<Step>, fault: Fault) returns (r: Answer)
      requires Inv(db.Shared())
      modifies db
      ensures r.NotFound? <==> id !in old(db.posts)
      ensures id !in old(db.posts) || !old(db.posts)[id].status.PostedUnconfirmed? ==>
                !r.Done? && db.Shared() == old(db.Shared())
      ensures id in old(db.posts) && old(db.posts)[id].status.PostedUnconfirmed? ==>
                var s, version := Run(old(db.Shared()), gap), old(db.posts)[id].version;
                && id in s.posts
                && db.Shared() == (if fault.LostBefore? then s else Next(s, ResolveNotPosted(id, version, admin)))
                && r == if !fault.Sound? then Uncaught else if s.posts[id].version == version then Done else Conflict
      ensures r.Done? ==> db.posts[id].status.Failed? && db.posts[id].version == old(db.posts)[id].version + 1
    {
      ghost var s0 := db.Shared();
      if id !in db.posts {
        return NotFound;
      }
      var post := db.posts[id];
      if !post.status.PostedUnconfirmed? {
        return Conflict;
      }
      db.Others(gap);
      RunKeeps(s0, gap);
      UnmovedKeepsStatus(s0, gap, id);
      var before := db.posts[id];
      var result := db.UpdateMany(id, (p: Post) => p.status.PostedUnconfirmed? && p.version == post.version,
                                  (p: Post) => Written(p, Failed, admin, None), fault);
      r := if result.Threw? then Uncaught else if result == Count(1) then Done else Conflict;
      if before.status.PostedUnconfirmed? && before.version == post.version && !fault.LostBefore? {
        db.log := Refute(db.log, id);
      }
    }
  }

  /** An active row can change between active statuses without meeting the index. */
  lemma NotBlocked(s: State, id: PostId, row: Post)
    requires IndexOk(s.posts) && id in s.posts && SameTarget(row, s.posts[id])
    ensures Active(s.posts[id].status) ==> !Blocked(s.posts, id, row)
  {
  }

  /** A row whose version has not moved has not changed status either. */
  lemma {:induction false} UnmovedKeepsStatus(s: State, steps: seq<Step>, id: PostId)
    requires id in s.posts
    ensures id in Run(s, steps).posts && Run(s, steps).posts[id].version >= s.posts[id].version
    ensures Run(s, steps).posts[id].version == s.posts[id].version ==>
              Run(s, steps).posts[id].status == s.posts[id].status
    decreases |steps|
  {
    if steps != [] {
      RowMoves(s, steps[0], id);
      UnmovedKeepsStatus(Next(s, steps[0]), steps[1..], id);
    }
  }
}
