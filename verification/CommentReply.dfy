/**
  Replying to one comment: claim by a conditional update, dispatch to the platform, record the text,
  and give the claim back when anything fails.  Requests interleave one await at a time; any write
  may fail before or after it took effect, and any request may die.
 */
module CommentReply {
  import opened Platforms

  type RequestId = nat
  type UserId = nat

  /** What dispatching does: nothing is sent, the reply goes out, or the call errs and the reply may have gone out. */
  datatype Sending = NotReady | Sent | Erred(delivered: bool)

  datatype Phase = Idle | Loaded | Holding | Recording | GivingBack(delivered: bool)

  predicate Holds(p: Phase) {
    p.Holding? || p.Recording? || p.GivingBack?
  }

  /**
    The comment's row; where each request stands; how many replies the platform received; how many
    requests succeeded; how many claims were given back after their reply had been delivered.
    `sentUnderClaim` says whether the claim now on the row has had its reply delivered.
   */
  datatype State = State(
    replyable: bool, repliedBy: Option<UserId>, replyText: Option<string>,
    requests: map<RequestId, Phase>, delivered: nat, succeeded: nat, undone: nat, sentUnderClaim: bool)

  datatype Step =
    | Load(r: RequestId)
    | Claim(r: RequestId, user: UserId, fault: Fault)
    | Dispatch(r: RequestId, sending: Sending)
    | Record(r: RequestId, text: string, fault: Fault)
    | GiveBack(r: RequestId, fault: Fault)
    | Crash(r: RequestId)

  function PhaseOf(s: State, r: RequestId): Phase {
    if r in s.requests then s.requests[r] else Idle
  }

  function Goto(s: State, r: RequestId, p: Phase): State {
    s.(requests := s.requests[r := p])
  }

  function DoLoad(s: State, r: RequestId): State {
    if s.replyable && s.repliedBy.None? then Goto(s, r, Loaded) else s
  }

  /** `updateMany where repliedAt is null`: a lost acknowledgement leaves the claim and throws. */
  function DoClaim(s: State, r: RequestId, user: UserId, fault: Fault): State {
    if s.repliedBy.Some? || fault.LostBefore? then Goto(s, r, Idle)
    else Goto(s.(repliedBy := Some(user), sentUnderClaim := false), r, if fault.Sound? then Holding else Idle)
  }

  function DoDispatch(s: State, r: RequestId, sending: Sending): State {
    var out := sending.Sent? || (sending.Erred? && sending.delivered);
    var next := if sending.Sent? then Recording else GivingBack(out);
    if out then Goto(s.(delivered := s.delivered + 1, sentUnderClaim := true), r, next) else Goto(s, r, next)
  }

  /** The text is recorded after the reply went out; if that write throws, the claim is given back too. */
  function DoRecord(s: State, r: RequestId, text: string, fault: Fault): State {
    var written := if fault.LostBefore? then s else s.(replyText := Some(text));
    if fault.Sound? then Goto(written.(succeeded := s.succeeded + 1), r, Idle) else Goto(written, r, GivingBack(true))
  }

  /** `updateMany where id`: unguarded. */
  function DoGiveBack(s: State, r: RequestId, fault: Fault): State {
    var given := if fault.LostBefore? then s
                 else s.(repliedBy := None, sentUnderClaim := false,
                         undone := if PhaseOf(s, r) == GivingBack(true) then s.undone + 1 else s.undone);
    Goto(given, r, Idle)
  }

  function Next(s: State, step: Step): State {
    var p := PhaseOf(s, step.r);
    match step
    case Load(r) => if p.Idle? then DoLoad(s, r) else s
    case Claim(r, user, fault) => if p.Loaded? then DoClaim(s, r, user, fault) else s
    case Dispatch(r, sending) => if p.Holding? then DoDispatch(s, r, sending) else s
    case Record(r, text, fault) => if p.Recording? then DoRecord(s, r, text, fault) else s
    case GiveBack(r, fault) => if p.GivingBack? then DoGiveBack(s, r, fault) else s
    case Crash(r) => Goto(s, r, Idle)
  }

  function Run(s: State, steps: seq<Step>): State
    decreases |steps|
  {
    if steps == [] then s else Run(Next(s, steps[0]), steps[1..])
  }

  // ---------------------------------------------------------------- the invariant

  ghost predicate OneHolder(s: State) {
    forall r, q | r in s.requests && q in s.requests && Holds(s.requests[r]) && Holds(s.requests[q]) :: r == q
  }

  /** A holder's phase agrees with whether its reply went out. */
  ghost predicate HolderOk(s: State) {
    forall r | r in s.requests && Holds(s.requests[r]) ::
      s.repliedBy.Some? && PhaseTells(s.requests[r], s.sentUnderClaim)
  }

  predicate PhaseTells(p: Phase, sent: bool) {
    match p
    case Holding => !sent
    case Recording => sent
    case GivingBack(delivered) => delivered == sent
    case _ => true
  }

  ghost predicate Inv(s: State) {
    && OneHolder(s) && HolderOk(s)
    && (s.repliedBy.None? ==> !s.sentUnderClaim)
    && s.delivered == s.undone + (if s.sentUnderClaim then 1 else 0)
    && s.succeeded <= 1
    && (s.succeeded == 1 ==> s.sentUnderClaim && forall r | r in s.requests :: !Holds(s.requests[r]))
  }

  ghost predicate Init(s: State) {
    && s.repliedBy.None? && s.replyText.None? && s.delivered == 0 && s.succeeded == 0 && s.undone == 0
    && !s.sentUnderClaim && forall r | r in s.requests :: s.requests[r].Idle?
  }

  /** If nobody but `r` holds the claim, `r`'s step keeps what concerns the holders. */
  lemma HoldersKept(s: State, t: State, r: RequestId)
    requires forall q | q in s.requests && q != r :: !Holds(s.requests[q])
    requires forall q | q in t.requests && q != r :: q in s.requests && t.requests[q] == s.requests[q]
    requires r in t.requests && Holds(t.requests[r]) ==>
      t.repliedBy.Some? && PhaseTells(t.requests[r], t.sentUnderClaim)
    ensures OneHolder(t) && HolderOk(t)
  {
  }

  lemma LoadKeeps(s: State, r: RequestId)
    requires Inv(s) && PhaseOf(s, r).Idle?
    ensures Inv(DoLoad(s, r))
  {
  }

  lemma ClaimKeeps(s: State, r: RequestId, user: UserId, fault: Fault)
    requires Inv(s) && PhaseOf(s, r).Loaded?
    ensures Inv(DoClaim(s, r, user, fault))
  {
    if s.repliedBy.None? {
      HoldersKept(s, DoClaim(s, r, user, fault), r);
    }
  }

  lemma DispatchKeeps(s: State, r: RequestId, sending: Sending)
    requires Inv(s) && PhaseOf(s, r).Holding?
    ensures Inv(DoDispatch(s, r, sending))
  {
    HoldersKept(s, DoDispatch(s, r, sending), r);
  }

  lemma RecordKeeps(s: State, r: RequestId, text: string, fault: Fault)
    requires Inv(s) && PhaseOf(s, r).Recording?
    ensures Inv(DoRecord(s, r, text, fault))
  {
    HoldersKept(s, DoRecord(s, r, text, fault), r);
  }

  lemma GiveBackKeeps(s: State, r: RequestId, fault: Fault)
    requires Inv(s) && PhaseOf(s, r).GivingBack?
    ensures Inv(DoGiveBack(s, r, fault))
  {
    HoldersKept(s, DoGiveBack(s, r, fault), r);
  }

  lemma NextKeeps(s: State, step: Step)
    requires Inv(s)
    ensures Inv(Next(s, step))
  {
    var p := PhaseOf(s, step.r);
    match step
    case Load(r) => if p.Idle? { LoadKeeps(s, r); }
    case Claim(r, user, fault) => if p.Loaded? { ClaimKeeps(s, r, user, fault); }
    case Dispatch(r, sending) => if p.Holding? { DispatchKeeps(s, r, sending); }
    case Record(r, text, fault) => if p.Recording? { RecordKeeps(s, r, text, fault); }
    case GiveBack(r, fault) => if p.GivingBack? { GiveBackKeeps(s, r, fault); }
    case Crash(r) =>
  }

  lemma {:induction false} RunKeeps(s: State, steps: seq<Step>)
    requires Inv(s)
    ensures Inv(Run(s, steps))
    decreases |steps|
  {
    if steps != [] {
      NextKeeps(s, steps[0]);
      RunKeeps(Next(s, steps[0]), steps[1..]);
    }
  }

  // ---------------------------------------------------------------- what every run keeps

  /** At most one request is between its claim and the end of it, and the row then carries a claim. */
  lemma OneInFlight(s: State, steps: seq<Step>, r: RequestId, q: RequestId)
    requires Init(s)
    ensures var t := Run(s, steps);
            Holds(PhaseOf(t, r)) && Holds(PhaseOf(t, q)) ==> r == q && t.repliedBy.Some?
  {
    RunKeeps(s, steps);
  }

  /**
    At most one request ever succeeds, and the platform receives at most one reply more than there were
    claims given back after a delivery.
   */
  lemma DeliveriesBounded(s: State, steps: seq<Step>)
    requires Init(s)
    ensures var t := Run(s, steps);
            t.succeeded <= 1 && t.undone <= t.delivered <= t.undone + 1
  {
    RunKeeps(s, steps);
  }

  /** After a success nothing more is delivered and nobody succeeds again. */
  lemma {:induction false} SuccessIsFinal(s: State, steps: seq<Step>)
    requires Inv(s) && s.succeeded == 1
    ensures var t := Run(s, steps);
            t.succeeded == 1 && t.delivered == s.delivered && t.repliedBy == s.repliedBy && t.replyText == s.replyText
    decreases |steps|
  {
    if steps != [] {
      StandingClaimStep(s, steps[0]);
      NextKeeps(s, steps[0]);
      SuccessIsFinal(Next(s, steps[0]), steps[1..]);
    }
  }

  /** A claim that nobody is left to work on. */
  ghost predicate Abandoned(s: State) {
    s.repliedBy.Some? && forall r | r in s.requests :: !Holds(s.requests[r])
  }

  lemma StandingClaimStep(s: State, step: Step)
    requires Abandoned(s)
    ensures var t := Next(s, step);
            && Abandoned(t) && t.repliedBy == s.repliedBy && t.replyText == s.replyText
            && t.delivered == s.delivered && t.succeeded == s.succeeded
  {
    var t := Next(s, step);
    assert forall r | r in t.requests && r != step.r :: r in s.requests && t.requests[r] == s.requests[r];
  }

  /** It stands forever: the comment counts as replied, and no request reaches the platform again. */
  lemma {:induction false} AbandonedForever(s: State, steps: seq<Step>)
    requires Abandoned(s)
    ensures var t := Run(s, steps);
            Abandoned(t) && t.repliedBy == s.repliedBy && t.delivered == s.delivered && t.succeeded == s.succeeded
    decreases |steps|
  {
    if steps != [] {
      StandingClaimStep(s, steps[0]);
      AbandonedForever(Next(s, steps[0]), steps[1..]);
    }
  }

  /** A request that dies while it holds the claim, or loses the claim's acknowledgement, abandons it. */
  lemma DyingAbandons(s: State, r: RequestId, user: UserId)
    requires Inv(s)
    ensures Holds(PhaseOf(s, r)) ==> Abandoned(Next(s, Crash(r)))
    ensures PhaseOf(s, r).Loaded? && s.repliedBy.None? ==> Abandoned(Next(s, Claim(r, user, LostAfter)))
  {
  }

  /**
    A request gets as far as claiming exactly on a replyable comment without a claim, and then wins the
    claim exactly if there still is none.
   */
  lemma ClaimWinsIff(s: State, r: RequestId, user: UserId)
    ensures PhaseOf(s, r).Idle? ==>
              (PhaseOf(Next(s, Load(r)), r).Loaded? <==> s.replyable && s.repliedBy.None?)
    ensures var t := Next(s, Claim(r, user, Sound));
            if PhaseOf(s, r).Loaded?
            then (PhaseOf(t, r).Holding? <==> s.repliedBy.None?) && (PhaseOf(t, r).Idle? <==> s.repliedBy.Some?)
                 && t.repliedBy == if s.repliedBy.None? then Some(user) else s.repliedBy
            else t == s
  {
  }

  /** Only the request that has just sent a reply writes the text, its own, unless the write is lost. */
  lemma TextMovesIff(s: State, step: Step)
    ensures Next(s, step).replyText ==
              if step.Record? && PhaseOf(s, step.r).Recording? && step.fault != LostBefore then Some(step.text)
              else s.replyText
  {
  }

  /** A comment no platform takes replies to is never claimed, and nothing is ever sent for it. */
  lemma {:induction false} UnreplyableUntouched(s: State, steps: seq<Step>)
    requires !s.replyable && s.repliedBy.None? && forall r | r in s.requests :: s.requests[r].Idle?
    ensures var t := Run(s, steps);
            t.repliedBy.None? && t.replyText == s.replyText && t.delivered == s.delivered && t.succeeded == s.succeeded
    decreases |steps|
  {
    if steps != [] {
      UnreplyableUntouched(Next(s, steps[0]), steps[1..]);
    }
  }

  // ---------------------------------------------------------------- when another reply can go out

  ghost predicate CanDeliver(s: State) {
    exists steps :: Run(s, steps).delivered > s.delivered
  }

  lemma StepThenDeliver(s: State, step: Step)
    requires CanDeliver(Next(s, step)) && Next(s, step).delivered >= s.delivered
    ensures CanDeliver(s)
  {
    var t := Next(s, step);
    var steps :| Run(t, steps).delivered > t.delivered;
    assert ([step] + steps)[1..] == steps;
    assert Run(s, [step] + steps) == Run(t, steps);
  }

  lemma DispatchDelivers(s: State, r: RequestId)
    requires PhaseOf(s, r).Holding?
    ensures CanDeliver(s)
  {
    assert Run(Next(s, Dispatch(r, Sent)), []) == Next(s, Dispatch(r, Sent));
    assert Run(s, [Dispatch(r, Sent)]).delivered == s.delivered + 1;
  }

  /** A free, replyable comment: any request gets through. */
  lemma FreeDelivers(s: State)
    requires Inv(s) && s.replyable && s.repliedBy.None?
    ensures CanDeliver(s)
  {
    var a := Next(s, Crash(0));
    var b := Next(a, Load(0));
    var c := Next(b, Claim(0, 0, Sound));
    assert b.requests[0].Loaded?;
    DispatchDelivers(c, 0);
    StepThenDeliver(b, Claim(0, 0, Sound));
    StepThenDeliver(a, Load(0));
    StepThenDeliver(s, Crash(0));
  }

  lemma GivingBackDelivers(s: State, r: RequestId)
    requires Inv(s) && s.replyable && PhaseOf(s, r).GivingBack?
    ensures CanDeliver(s)
  {
    NextKeeps(s, GiveBack(r, Sound));
    FreeDelivers(Next(s, GiveBack(r, Sound)));
    StepThenDeliver(s, GiveBack(r, Sound));
  }

  lemma RecordingDelivers(s: State, r: RequestId)
    requires Inv(s) && s.replyable && PhaseOf(s, r).Recording?
    ensures CanDeliver(s)
  {
    NextKeeps(s, Record(r, "", LostBefore));
    GivingBackDelivers(Next(s, Record(r, "", LostBefore)), r);
    StepThenDeliver(s, Record(r, "", LostBefore));
  }

  /**
    Another reply can go out exactly while the row carries no claim or someone still works on the claim,
    whether or not a reply has gone out before: the claim alone does not rule out a double reply.
   */
  lemma CanDeliverIff(s: State)
    requires Inv(s) && s.replyable
    ensures CanDeliver(s) <==> !Abandoned(s)
  {
    if Abandoned(s) {
      forall steps ensures Run(s, steps).delivered == s.delivered {
        AbandonedForever(s, steps);
      }
    } else if s.repliedBy.None? {
      FreeDelivers(s);
    } else {
      var r :| r in s.requests && Holds(s.requests[r]);
      match s.requests[r]
      case Holding => DispatchDelivers(s, r);
      case Recording => RecordingDelivers(s, r);
      case GivingBack(_) => GivingBackDelivers(s, r);
    }
  }

  /** A first reply goes out, and its request is about to record it. */
  lemma FirstReply(s: State) returns (steps: seq<Step>)
    requires Init(s) && s.replyable
    ensures Run(s, steps).delivered == 1 && PhaseOf(Run(s, steps), 0).Recording? && Run(s, steps).replyable
  {
    var a := Next(s, Load(0));
    var b := Next(a, Claim(0, 0, Sound));
    var c := Next(b, Dispatch(0, Sent));
    steps := [Load(0), Claim(0, 0, Sound), Dispatch(0, Sent)];
    assert steps[1..] == [Claim(0, 0, Sound), Dispatch(0, Sent)] && steps[1..][1..] == [Dispatch(0, Sent)];
    assert Run(c, []) == c;
    assert Run(b, [Dispatch(0, Sent)]) == c;
    assert Run(a, steps[1..]) == c;
  }

  /** So from any fresh, replyable comment some run delivers two replies. */
  lemma DoubleReply(s: State)
    requires Init(s) && s.replyable
    ensures exists steps :: Run(s, steps).delivered >= 2
  {
    var first := FirstReply(s);
    var sent := Run(s, first);
    RunKeeps(s, first);
    assert !Abandoned(sent);
    CanDeliverIff(sent);
    var more :| Run(sent, more).delivered > sent.delivered;
    RunAppend(s, first, more);
    assert Run(s, first + more).delivered >= 2;
  }

  /** With every text recorded at the first try and no error after a delivery, one reply goes out at most. */
  lemma {:induction false} TruthfulSendsOnce(s: State, steps: seq<Step>)
    requires Inv(s) && s.undone == 0 && forall r | r in s.requests :: s.requests[r] != GivingBack(true)
    requires forall i | 0 <= i < |steps| ::
      (steps[i].Record? ==> steps[i].fault.Sound?) && (steps[i].Dispatch? ==> steps[i].sending != Erred(true))
    ensures Run(s, steps).delivered <= 1
    decreases |steps|
  {
    if steps != [] {
      NextKeeps(s, steps[0]);
      TruthfulSendsOnce(Next(s, steps[0]), steps[1..]);
    }
  }

  // ---------------------------------------------------------------- the service

  lemma {:induction false} RunAppend(s: State, a: seq<Step>, b: seq<Step>)
    ensures Run(s, a + b) == Run(Run(s, a), b)
    decreases |a|
  {
    if a == [] {
      assert a + b == b;
    } else {
      assert (a + b)[1..] == a[1..] + b;
      RunAppend(Next(s, a[0]), a[1..], b);
    }
  }

  /** While `r` holds the claim no other request touches the row. */
  lemma OtherLeavesClaim(s: State, step: Step, r: RequestId)
    requires Inv(s) && step.r != r
    ensures PhaseOf(Next(s, step), r) == PhaseOf(s, r)
    ensures Holds(PhaseOf(s, r)) ==>
      Next(s, step).repliedBy == s.repliedBy && Next(s, step).sentUnderClaim == s.sentUnderClaim
  {
  }

  lemma {:induction false} OthersLeaveClaim(s: State, steps: seq<Step>, r: RequestId)
    requires Inv(s) && forall i | 0 <= i < |steps| :: steps[i].r != r
    ensures PhaseOf(Run(s, steps), r) == PhaseOf(s, r)
    ensures Holds(PhaseOf(s, r)) ==>
      Run(s, steps).repliedBy == s.repliedBy && Run(s, steps).sentUnderClaim == s.sentUnderClaim
    decreases |steps|
  {
    if steps != [] {
      OtherLeavesClaim(s, steps[0], r);
      NextKeeps(s, steps[0]);
      OthersLeaveClaim(Next(s, steps[0]), steps[1..], r);
    }
  }

  /** What the world does to one request: the other requests' steps after each await, and every outcome. */
  datatype World = World(gaps: seq<seq<Step>>, claim: Fault, sending: Sending, record: Fault, giveBack: Fault)

  datatype Outcome = Replied | Refused | ClaimThrew | Failed

  class CommentReplyService {
    const me: RequestId
    var comment: State

    constructor (me: RequestId, comment: State)
      ensures this.me == me && this.comment == comment
    {
      this.me, this.comment := me, comment;
    }

    method Perform(steps: seq<Step>)
      modifies this
      ensures comment == Run(old(comment), steps)
    {
      var s := comment;
      for i := 0 to |steps|
        invariant Run(s, steps[i..]) == Run(old(comment), steps)
      {
        assert steps[i..][1..] == steps[i + 1..];
        s := Next(s, steps[i]);
      }
      comment := s;
    }

    /** One await of this request, then other requests for a while. */
    method Await(step: Step, gap: seq<Step>, ghost start: State, ghost done: seq<Step>) returns (ghost steps: seq<Step>)
      requires comment == Run(start, done) && Inv(start) && forall i | 0 <= i < |gap| :: gap[i].r != me
      modifies this
      ensures comment == Run(start, steps) && steps == done + ([step] + gap)
      ensures var next := Next(old(comment), step);
              && PhaseOf(comment, me) == PhaseOf(next, me)
              && (Holds(PhaseOf(next, me)) ==>
                    comment.repliedBy == next.repliedBy && comment.sentUnderClaim == next.sentUnderClaim)
              && (gap == [] ==> comment == next)
    {
      ghost var next := Next(comment, step);
      RunKeeps(start, done);
      NextKeeps(comment, step);
      OthersLeaveClaim(next, gap, me);
      steps := done + ([step] + gap);
      RunAppend(start, done, [step] + gap);
      Perform([step] + gap);
      assert ([step] + gap)[1..] == gap;
    }

    /** The catch block: the claim is given back. */
    method Fail(w: World, ghost start: State, ghost done: seq<Step>) returns (ghost steps: seq<Step>)
      requires comment == Run(start, done) && Inv(start) && PhaseOf(comment, me).GivingBack? && Crash(me) !in done
      modifies this
      ensures comment == Run(start, steps) && PhaseOf(comment, me).Idle? && Crash(me) !in steps
      ensures !w.giveBack.LostBefore? ==> comment.repliedBy.None?
      ensures w.giveBack.LostBefore? ==> comment.repliedBy == old(comment).repliedBy
    {
      steps := Await(GiveBack(me, w.giveBack), [], start, done);
    }

    /** From the claim on: dispatch, record, or give back. */
    method DispatchReply(user: UserId, message: string, w: World, ghost start: State, ghost done: seq<Step>)
        returns (outcome: Outcome, ghost steps: seq<Step>)
      requires comment == Run(start, done) && Inv(start) && |w.gaps| == 4 && Crash(me) !in done
      requires forall g, i | 0 <= g < 4 && 0 <= i < |w.gaps[g]| :: w.gaps[g][i].r != me
      requires PhaseOf(comment, me).Holding? && comment.repliedBy == Some(user)
      modifies this
      ensures comment == Run(start, steps) && PhaseOf(comment, me).Idle? && Crash(me) !in steps
      ensures outcome == if w.sending.Sent? && w.record.Sound? then Replied else Failed
      ensures outcome.Replied? ==>
        comment.repliedBy == Some(user) && comment.replyText == Some(message) && comment.succeeded >= 1
      ensures outcome.Failed? ==> comment.repliedBy == if w.giveBack.LostBefore? then Some(user) else None
    {
      steps := Await(Dispatch(me, w.sending), w.gaps[2], start, done);
      if w.sending.Sent? {
        var gap := if w.record.Sound? then [] else w.gaps[3];
        steps := Await(Record(me, message, w.record), gap, start, steps);
        if w.record.Sound? {
          return Replied, steps;
        }
      }
      steps := Fail(w, start, steps);
      outcome := Failed;
    }

    method Reply(user: UserId, message: string, w: World) returns (outcome: Outcome, ghost steps: seq<Step>)
      requires Inv(comment) && PhaseOf(comment, me).Idle? && |w.gaps| == 4
      requires forall g, i | 0 <= g < 4 && 0 <= i < |w.gaps[g]| :: w.gaps[g][i].r != me
      modifies this
      ensures comment == Run(old(comment), steps) && Inv(comment) && !Holds(PhaseOf(comment, me))
      ensures Crash(me) !in steps
      ensures outcome == if !old(comment).replyable || old(comment).repliedBy.Some? then Refused
                         else if !w.claim.Sound? then ClaimThrew
                         else if Run(old(comment), [Load(me)] + w.gaps[0]).repliedBy.Some? then Refused
                         else if w.sending.Sent? && w.record.Sound? then Replied else Failed
      ensures outcome.Replied? ==>
        comment.succeeded == 1 && comment.repliedBy == Some(user) && comment.replyText == Some(message)
      ensures outcome.Failed? ==> comment.repliedBy == if w.giveBack.LostBefore? then Some(user) else None
      ensures !old(comment).replyable || old(comment).repliedBy.Some? ==> outcome.Refused? && comment == old(comment)
    {
      ghost var start := comment;
      if !comment.replyable || comment.repliedBy.Some? {
        return Refused, [];
      }
      steps := Await(Load(me), w.gaps[0], start, []);
      assert steps == [Load(me)] + w.gaps[0];
      var claimed := comment.repliedBy.None?;
      steps := Await(Claim(me, user, w.claim), w.gaps[1], start, steps);
      RunKeeps(start, steps);
      if !w.claim.Sound? {
        return ClaimThrew, steps;
      }
      if !claimed {
        return Refused, steps;
      }
      outcome, steps := DispatchReply(user, message, w, start, steps);
      RunKeeps(start, steps);
    }
  }
}
