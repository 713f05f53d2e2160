// Sidecar admission (serve_pool.rs): the gate's critical sections, and every
// interleaving of requests, leases, cancellations and closings around them.

module ServePool {
  import opened Common

  datatype Counters = Counters(active: nat, foreground: nat, waiting: nat, closed: bool)

  datatype Lease = Lease(foreground: bool, active: bool)

  datatype Verdict = Refused | Granted | Blocked

  // ----- what one critical section does -----

  function Entered(c: Counters): Counters {
    c.(foreground := c.foreground + 1)
  }

  function Queued(c: Counters): Counters {
    c.(waiting := c.waiting + 1)
  }

  function Closed(c: Counters): Counters {
    c.(closed := true)
  }

  predicate Free(c: Counters, limit: nat, base: bool) {
    c.active < limit && (base ==> c.foreground == 0)
  }

  /** What a waiter finds when it looks at the gate. */
  function Look(c: Counters, limit: nat, base: bool, cancelled: bool): Verdict {
    if c.closed || (base && cancelled) then Refused
    else if Free(c, limit, base) then Granted
    else Blocked
  }

  function Settled(c: Counters, verdict: Verdict): Counters
    requires verdict != Blocked ==> c.waiting > 0
  {
    match verdict
    case Refused => c.(waiting := c.waiting - 1)
    case Granted => c.(active := c.active + 1, waiting := c.waiting - 1)
    case Blocked => c
  }

  predicate Held(c: Counters, lease: Lease) {
    (lease.active ==> c.active > 0) && (lease.foreground ==> c.foreground > 0)
  }

  function Dropped(c: Counters, lease: Lease): Counters
    requires Held(c, lease)
  {
    c.(active := if lease.active then c.active - 1 else c.active,
       foreground := if lease.foreground then c.foreground - 1 else c.foreground)
  }

  /** The state behind the gate's mutex; each method is one critical section. */
  class Gate {
    var active: nat
    var foreground: nat
    var waiting: nat
    var closed: bool
    const limit: nat

    constructor (limit: nat)
      ensures this.limit == limit && State() == Counters(0, 0, 0, false)
    {
      this.limit := limit;
      active, foreground, waiting, closed := 0, 0, 0, false;
    }

    function State(): Counters
      reads this
    {
      Counters(active, foreground, waiting, closed)
    }

    /** `foreground`, up to the release of the lock. */
    method Foreground() returns (lease: Lease)
      modifies this
      ensures State() == Entered(old(State())) && lease == Lease(true, false)
    {
      foreground := foreground + 1;
      lease := Lease(true, false);
    }

    /** `acquire`'s entry. */
    method Wait()
      modifies this
      ensures State() == Queued(old(State()))
    {
      waiting := waiting + 1;
    }

    /** One pass of `acquire`'s loop; `Blocked` means that it waits for a notification. */
    method Attempt(base: bool, cancelled: bool) returns (verdict: Verdict, lease: Lease)
      requires waiting > 0
      modifies this
      ensures verdict == Look(old(State()), limit, base, cancelled)
      ensures State() == Settled(old(State()), verdict)
      ensures verdict.Granted? ==> lease == Lease(false, true)
    {
      lease := Lease(false, false);
      if closed || (base && cancelled) {
        waiting := waiting - 1;
        verdict := Refused;
      } else if active < limit && (!base || foreground == 0) {
        active := active + 1;
        waiting := waiting - 1;
        verdict := Granted;
        lease := Lease(false, true);
      } else {
        verdict := Blocked;
      }
    }

    /** `close`, up to the release of the lock. */
    method Close()
      modifies this
      ensures State() == Closed(old(State()))
    {
      closed := true;
    }

    /** A lease's drop; the counters it leaves never go below zero. */
    method Drop(lease: Lease)
      requires Held(State(), lease)
      modifies this
      ensures State() == Dropped(old(State()), lease)
    {
      active := active - (if lease.active then 1 else 0);
      foreground := foreground - (if lease.foreground then 1 else 0);
    }
  }

  // ----- interleavings -----

  /** A current request, or a base request with the tokens that its cancellation combines. */
  datatype Who = Current | Base(tokens: set<nat>)

  /** Where one actor stands: a request, a page's lease, or a caller of close, cancel or pool. */
  datatype Actor =
    | Idle
    | Announcing           // counted as foreground; its notification is still to come
    | Holding              // has a foreground lease
    | Awake(who: Who)      // counted as waiting, about to look at the gate
    | Asleep(who: Who)     // counted as waiting, until a notification
    | Admitted(who: Who)   // has an admission lease, and a foreground lease when current
    | Closing              // has closed the gate; its notification is still to come
    | Interrupting         // has interrupted the command; closing the gate is still to come
    | Cancelling(token: nat)  // has set the token's flag, not yet read its listeners
    | Observing(token: nat)   // has added the gate to the listeners, not yet read the flag
    | Signalling           // is about to notify the gate

  /** `commanded`: the command itself is interrupted, which base requests read but which has no listeners. */
  datatype State = State(gate: Counters, actors: seq<Actor>, cancelled: set<nat>, observed: set<nat>, commanded: bool)

  datatype Step =
    | Enter | Announce | Request(who: Who) | Retry | Spurious | ReleaseAdmission | ReleaseForeground
    | Interrupt | Close | AnnounceClose | Cancel(token: nat) | ReadListeners | Observe(token: nat) | ReadFlag | Signal

  function Woken(actor: Actor): Actor {
    if actor.Asleep? then Awake(actor.who) else actor
  }

  /** `notify_all`: every sleeper wakes. */
  function NotifyAll(actors: seq<Actor>): (woken: seq<Actor>)
    ensures |woken| == |actors|
    ensures forall i :: 0 <= i < |actors| ==> woken[i] == Woken(actors[i])
  {
    seq(|actors|, i requires 0 <= i < |actors| => Woken(actors[i]))
  }

  predicate IsCancelled(s: State, who: Who) {
    who.Base? && (s.commanded || !(who.tokens !! s.cancelled))
  }

  function VerdictOf(s: State, limit: nat, who: Who): Verdict {
    Look(s.gate, limit, who.Base?, IsCancelled(s, who))
  }

  /** Where an actor goes once the gate has answered; only a current request still has a lease after a refusal. */
  function After(who: Who, verdict: Verdict): Actor {
    match verdict
    case Granted => Admitted(who)
    case Blocked => Asleep(who)
    case Refused => if who.Current? then Holding else Idle
  }

  predicate Enabled(s: State, i: nat, step: Step) {
    i < |s.actors| &&
    match step
    case Enter => s.actors[i].Idle?
    case Announce => s.actors[i].Announcing?
    // A current request holds its foreground lease; a base handle's gate already observes the tokens.
    case Request(who) => if who.Current? then s.actors[i].Holding? else s.actors[i].Idle? && who.tokens <= s.observed
    case Retry => s.actors[i].Awake? && s.gate.waiting > 0
    case Spurious => s.actors[i].Asleep?
    case ReleaseAdmission => s.actors[i].Admitted? && Held(s.gate, Lease(false, true))
    case ReleaseForeground => s.actors[i].Holding? && Held(s.gate, Lease(true, false))
    case Interrupt => s.actors[i].Idle?
    case Close => s.actors[i].Idle? || s.actors[i].Interrupting?
    case AnnounceClose => s.actors[i].Closing?
    case Cancel(_) => s.actors[i].Idle?
    case ReadListeners => s.actors[i].Cancelling?
    case Observe(_) => s.actors[i].Idle?
    case ReadFlag => s.actors[i].Observing?
    case Signal => s.actors[i].Signalling?
  }

  /** One pass of the waiting loop, under the lock; a refusal notifies everyone. */
  function Pass(s: State, limit: nat, i: nat, who: Who): State
    requires i < |s.actors| && s.gate.waiting > 0
  {
    var verdict := VerdictOf(s, limit, who);
    var actors := if verdict.Refused? then NotifyAll(s.actors) else s.actors;
    s.(gate := Settled(s.gate, verdict), actors := actors[i := After(who, verdict)])
  }

  function Next(s: State, limit: nat, i: nat, step: Step): State
    requires Enabled(s, i, step)
  {
    match step
    case Enter => s.(gate := Entered(s.gate), actors := s.actors[i := Announcing])
    case Announce => s.(actors := NotifyAll(s.actors)[i := Holding])
    case Request(who) => Pass(s.(gate := Queued(s.gate), actors := NotifyAll(s.actors)), limit, i, who)
    case Retry => Pass(s, limit, i, s.actors[i].who)
    case Spurious => s.(actors := s.actors[i := Awake(s.actors[i].who)])
    case ReleaseAdmission =>
      s.(gate := Dropped(s.gate, Lease(false, true)),
         actors := NotifyAll(s.actors)[i := if s.actors[i].who.Current? then Holding else Idle])
    case ReleaseForeground =>
      s.(gate := Dropped(s.gate, Lease(true, false)), actors := NotifyAll(s.actors)[i := Idle])
    case Interrupt => s.(commanded := true, actors := s.actors[i := Interrupting])
    case Close => s.(gate := Closed(s.gate), actors := s.actors[i := Closing])
    case AnnounceClose => s.(actors := NotifyAll(s.actors)[i := Idle])
    case Cancel(token) => s.(cancelled := s.cancelled + {token}, actors := s.actors[i := Cancelling(token)])
    case ReadListeners =>
      s.(actors := s.actors[i := if s.actors[i].token in s.observed then Signalling else Idle])
    case Observe(token) => s.(observed := s.observed + {token}, actors := s.actors[i := Observing(token)])
    case ReadFlag =>
      s.(actors := s.actors[i := if s.actors[i].token in s.cancelled then Signalling else Idle])
    case Signal => s.(actors := NotifyAll(s.actors)[i := Idle])
  }

  datatype Move = Move(actor: nat, step: Step)

  predicate Initial(s: State) {
    s.gate == Counters(0, 0, 0, false) && s.observed == {} && forall i :: 0 <= i < |s.actors| ==> s.actors[i].Idle?
  }

  ghost predicate IsRun(states: seq<State>, moves: seq<Move>, limit: nat) {
    && |states| == |moves| + 1 && Initial(states[0])
    && forall k :: 0 <= k < |moves| ==>
         Enabled(states[k], moves[k].actor, moves[k].step) &&
         states[k + 1] == Next(states[k], limit, moves[k].actor, moves[k].step)
  }

  // ----- the counters count leases and waiters -----

  function Sum(actors: seq<Actor>, weight: Actor -> nat): nat {
    if |actors| == 0 then 0 else Sum(actors[..|actors| - 1], weight) + weight(actors[|actors| - 1])
  }

  function ActiveWeight(actor: Actor): nat { if actor.Admitted? then 1 else 0 }

  function ForegroundWeight(actor: Actor): nat {
    match actor
    case Announcing | Holding => 1
    case Awake(who) => if who.Current? then 1 else 0
    case Asleep(who) => if who.Current? then 1 else 0
    case Admitted(who) => if who.Current? then 1 else 0
    case _ => 0
  }

  function WaitingWeight(actor: Actor): nat { if actor.Awake? || actor.Asleep? then 1 else 0 }

  ghost predicate Counted(s: State) {
    && s.gate.active == Sum(s.actors, ActiveWeight)
    && s.gate.foreground == Sum(s.actors, ForegroundWeight)
    && s.gate.waiting == Sum(s.actors, WaitingWeight)
  }

  lemma {:induction false} SumUpdate(actors: seq<Actor>, weight: Actor -> nat, i: nat, actor: Actor)
    requires i < |actors|
    ensures Sum(actors[i := actor], weight) == Sum(actors, weight) - weight(actors[i]) + weight(actor)
    ensures Sum(actors, weight) >= weight(actors[i])
  {
    var last := |actors| - 1;
    if i < last {
      SumUpdate(actors[..last], weight, i, actor);
      assert actors[i := actor][..last] == actors[..last][i := actor];
    } else {
      assert actors[i := actor][..last] == actors[..last];
    }
  }

  lemma {:induction false} SumSame(actors: seq<Actor>, others: seq<Actor>, weight: Actor -> nat)
    requires |actors| == |others|
    requires forall i :: 0 <= i < |actors| ==> weight(actors[i]) == weight(others[i])
    ensures Sum(actors, weight) == Sum(others, weight)
  {
    if |actors| > 0 { SumSame(actors[..|actors| - 1], others[..|actors| - 1], weight); }
  }

  lemma {:induction false} SumPositive(actors: seq<Actor>, weight: Actor -> nat)
    ensures Sum(actors, weight) > 0 <==> exists i :: 0 <= i < |actors| && weight(actors[i]) > 0
  {
    if |actors| > 0 {
      var init := actors[..|actors| - 1];
      SumPositive(init, weight);
      if i :| 0 <= i < |init| && weight(init[i]) > 0 { assert weight(actors[i]) > 0; }
      if i :| 0 <= i < |actors| && weight(actors[i]) > 0 && i < |init| { assert weight(init[i]) > 0; }
    }
  }

  /** How many leases and waiters there are does not change by a notification. */
  lemma NotifyCounts(actors: seq<Actor>)
    ensures Sum(NotifyAll(actors), ActiveWeight) == Sum(actors, ActiveWeight)
    ensures Sum(NotifyAll(actors), ForegroundWeight) == Sum(actors, ForegroundWeight)
    ensures Sum(NotifyAll(actors), WaitingWeight) == Sum(actors, WaitingWeight)
  {
    SumSame(NotifyAll(actors), actors, ActiveWeight);
    SumSame(NotifyAll(actors), actors, ForegroundWeight);
    SumSame(NotifyAll(actors), actors, WaitingWeight);
  }

  lemma UpdateCounts(actors: seq<Actor>, i: nat, actor: Actor)
    requires i < |actors|
    ensures Sum(actors[i := actor], ActiveWeight) ==
            Sum(actors, ActiveWeight) - ActiveWeight(actors[i]) + ActiveWeight(actor)
    ensures Sum(actors[i := actor], ForegroundWeight) ==
            Sum(actors, ForegroundWeight) - ForegroundWeight(actors[i]) + ForegroundWeight(actor)
    ensures Sum(actors[i := actor], WaitingWeight) ==
            Sum(actors, WaitingWeight) - WaitingWeight(actors[i]) + WaitingWeight(actor)
  {
    SumUpdate(actors, ActiveWeight, i, actor);
    SumUpdate(actors, ForegroundWeight, i, actor);
    SumUpdate(actors, WaitingWeight, i, actor);
  }

  lemma CountedNext(s: State, limit: nat, i: nat, step: Step)
    requires Counted(s) && Enabled(s, i, step)
    ensures Counted(Next(s, limit, i, step))
  {
    hide Sum;
    NotifyCounts(s.actors);
    var actor := Next(s, limit, i, step).actors[i];
    UpdateCounts(s.actors, i, actor);
    UpdateCounts(NotifyAll(s.actors), i, actor);
    if step.Request? {
      var queued := NotifyAll(s.actors);
      NotifyCounts(queued);
      UpdateCounts(NotifyAll(queued), i, actor);
    }
  }

  /** The two guards a lock-holder relies on, `active` and `foreground` above zero, always hold. */
  lemma NoUnderflow(s: State, i: nat)
    requires Counted(s) && i < |s.actors|
    ensures s.actors[i].Admitted? ==> Held(s.gate, Lease(false, true))
    ensures s.actors[i].Holding? ==> Held(s.gate, Lease(true, false))
    ensures s.actors[i].Awake? ==> s.gate.waiting > 0
  {
    UpdateCounts(s.actors, i, Idle);
    SumUpdate(s.actors, ActiveWeight, i, Idle);
    SumUpdate(s.actors, ForegroundWeight, i, Idle);
    SumUpdate(s.actors, WaitingWeight, i, Idle);
  }

  // ----- no wakeup is lost -----

  ghost predicate CloseAnnounced(actors: seq<Actor>) {
    exists j :: 0 <= j < |actors| && actors[j].Closing?
  }

  ghost predicate CloseComing(actors: seq<Actor>) {
    exists j :: 0 <= j < |actors| && (actors[j].Closing? || actors[j].Interrupting?)
  }

  ghost predicate SignalComing(actors: seq<Actor>, token: nat) {
    exists j :: 0 <= j < |actors| && (actors[j] == Cancelling(token) || actors[j].Signalling?)
  }

  /** Some actor still owes the gate the notification that a sleeper needs. */
  ghost predicate Owed(s: State, who: Who) {
    || (s.gate.closed && CloseAnnounced(s.actors))
    || (who.Base? && s.commanded && CloseComing(s.actors))
    || (who.Base? && exists token :: token in who.tokens && token in s.cancelled && SignalComing(s.actors, token))
  }

  ghost predicate Rests(s: State, limit: nat, who: Who) {
    && !Free(s.gate, limit, who.Base?)
    && (who.Base? ==> who.tokens <= s.observed)
    && (s.gate.closed ==> CloseAnnounced(s.actors))
    && (who.Base? && s.commanded ==> CloseComing(s.actors))
    && (who.Base? ==> forall token :: token in who.tokens && token in s.cancelled ==> SignalComing(s.actors, token))
  }

  ghost predicate Watched(s: State, limit: nat) {
    && s.gate.active <= limit
    && (forall i :: 0 <= i < |s.actors| && s.actors[i].Asleep? ==> Rests(s, limit, s.actors[i].who))
    && (forall i :: 0 <= i < |s.actors| && s.actors[i].Awake? && s.actors[i].who.Base? ==>
          s.actors[i].who.tokens <= s.observed)
  }

  /** After a notification nobody sleeps. */
  lemma WatchedNotified(s: State, limit: nat, i: nat, actor: Actor)
    requires i < |s.actors| && !actor.Asleep? && (actor.Awake? && actor.who.Base? ==> actor.who.tokens <= s.observed)
    requires Watched(s, limit)
    ensures Watched(s.(actors := NotifyAll(s.actors)[i := actor]), limit)
  {
  }

  /** What is coming still comes when an actor changes that owes nothing, or hands its debt on. */
  lemma StillComing(s: State, i: nat, actor: Actor)
    requires i < |s.actors| && !s.actors[i].Closing? && !s.actors[i].Signalling?
    requires s.actors[i].Interrupting? ==> actor.Closing?
    requires s.actors[i].Cancelling? && s.actors[i].token in s.observed ==> actor.Signalling?
    ensures CloseAnnounced(s.actors) ==> CloseAnnounced(s.actors[i := actor])
    ensures CloseComing(s.actors) ==> CloseComing(s.actors[i := actor])
    ensures forall token :: token in s.observed && SignalComing(s.actors, token) ==>
              SignalComing(s.actors[i := actor], token)
  {
    var actors := s.actors[i := actor];
    assert actors[i] == actor;
    if CloseAnnounced(s.actors) {
      var m :| 0 <= m < |actors| && s.actors[m].Closing?;
      assert actors[m].Closing?;
    }
    if CloseComing(s.actors) {
      var m :| 0 <= m < |actors| && (s.actors[m].Closing? || s.actors[m].Interrupting?);
      assert actors[m].Closing? || actors[m].Interrupting?;
    }
    forall token | token in s.observed && SignalComing(s.actors, token)
      ensures SignalComing(actors, token)
    {
      var m :| 0 <= m < |actors| && (s.actors[m] == Cancelling(token) || s.actors[m].Signalling?);
      assert actors[m] == Cancelling(token) || actors[m].Signalling?;
    }
  }

  /** A sleeper's debt is still owed when the actor that changes is not the debtor, or becomes one. */
  lemma WatchedUpdate(s: State, limit: nat, i: nat, actor: Actor)
    requires i < |s.actors| && Watched(s, limit)
    requires !s.actors[i].Closing? && !s.actors[i].Signalling?
    requires s.actors[i].Interrupting? ==> actor.Closing?
    requires s.actors[i].Cancelling? && s.actors[i].token in s.observed ==> actor.Signalling?
    requires actor.Awake? && actor.who.Base? ==> actor.who.tokens <= s.observed
    requires actor.Asleep? ==> !Free(s.gate, limit, actor.who.Base?) && !s.gate.closed && !IsCancelled(s, actor.who)
    requires actor.Asleep? && actor.who.Base? ==> actor.who.tokens <= s.observed
    ensures Watched(s.(actors := s.actors[i := actor]), limit)
  {
    hide CloseAnnounced, CloseComing, SignalComing;
    var t := s.(actors := s.actors[i := actor]);
    StillComing(s, i, actor);
    forall j | 0 <= j < |t.actors| && t.actors[j].Asleep?
      ensures Rests(t, limit, t.actors[j].who)
    {
      if j != i { assert Rests(s, limit, s.actors[j].who); }
    }
  }

  lemma WatchedPass(s: State, limit: nat, i: nat, who: Who)
    requires i < |s.actors| && Watched(s, limit) && s.gate.waiting > 0
    requires s.actors[i].Awake? || s.actors[i].Idle? || s.actors[i].Holding?
    requires who.Base? ==> who.tokens <= s.observed
    ensures Watched(Pass(s, limit, i, who), limit)
  {
    var verdict := VerdictOf(s, limit, who);
    if verdict.Refused? {
      WatchedNotified(s, limit, i, After(who, verdict));
    } else {
      WatchedUpdate(s, limit, i, After(who, verdict));
    }
  }

  lemma WatchedNext(s: State, limit: nat, i: nat, step: Step)
    requires Watched(s, limit) && Enabled(s, i, step)
    ensures Watched(Next(s, limit, i, step), limit)
  {
    match step
    case Request(who) => {
      var queued := s.(gate := Queued(s.gate), actors := NotifyAll(s.actors));
      assert Watched(queued, limit);
      WatchedPass(queued, limit, i, who);
    }
    case Retry => WatchedPass(s, limit, i, s.actors[i].who);
    case Spurious => WatchedUpdate(s, limit, i, Awake(s.actors[i].who));
    case Enter => WatchedUpdate(s.(gate := Entered(s.gate)), limit, i, Announcing);
    case ReadListeners => WatchedUpdate(s, limit, i, Next(s, limit, i, step).actors[i]);
    case ReadFlag => WatchedUpdate(s, limit, i, Next(s, limit, i, step).actors[i]);
    case Observe(token) =>
      var t := s.(observed := s.observed + {token});
      assert Watched(t, limit);
      WatchedUpdate(t, limit, i, Observing(token));
    case Close => WatchedClose(s, limit, i);
    case Interrupt => WatchedInterrupt(s, limit, i);
    case Cancel(token) => WatchedCancel(s, limit, i, token);
    case _ =>
  }

  lemma WatchedClose(s: State, limit: nat, i: nat)
    requires Watched(s, limit) && Enabled(s, i, Close)
    ensures Watched(Next(s, limit, i, Close), limit)
  {
    var t := s.(actors := s.actors[i := Closing]);
    WatchedUpdate(s, limit, i, Closing);
    assert t.actors[i].Closing?;
    assert CloseAnnounced(t.actors);
    assert forall j :: 0 <= j < |t.actors| && t.actors[j].Asleep? ==> Rests(t, limit, t.actors[j].who);
  }

  lemma WatchedInterrupt(s: State, limit: nat, i: nat)
    requires Watched(s, limit) && Enabled(s, i, Interrupt)
    ensures Watched(Next(s, limit, i, Interrupt), limit)
  {
    var t := s.(actors := s.actors[i := Interrupting]);
    WatchedUpdate(s, limit, i, Interrupting);
    assert t.actors[i].Interrupting?;
    assert CloseComing(t.actors);
    assert forall j :: 0 <= j < |t.actors| && t.actors[j].Asleep? ==> Rests(t, limit, t.actors[j].who);
  }

  lemma WatchedCancel(s: State, limit: nat, i: nat, token: nat)
    requires Watched(s, limit) && Enabled(s, i, Cancel(token))
    ensures Watched(Next(s, limit, i, Cancel(token)), limit)
  {
    var t := s.(actors := s.actors[i := Cancelling(token)]);
    WatchedUpdate(s, limit, i, Cancelling(token));
    assert t.actors[i] == Cancelling(token);
    assert SignalComing(t.actors, token);
    assert forall j :: 0 <= j < |t.actors| && t.actors[j].Asleep? ==> Rests(t, limit, t.actors[j].who);
  }

  // ----- whole runs -----

  lemma RunStep(states: seq<State>, moves: seq<Move>, limit: nat, k: nat)
    requires IsRun(states, moves, limit) && k < |moves|
    ensures Enabled(states[k], moves[k].actor, moves[k].step)
    ensures states[k + 1] == Next(states[k], limit, moves[k].actor, moves[k].step)
  {
  }

  lemma {:induction false} RunKeeps(states: seq<State>, moves: seq<Move>, limit: nat, k: nat)
    requires IsRun(states, moves, limit) && k < |states|
    ensures Counted(states[k]) && Watched(states[k], limit)
  {
    if k == 0 {
      SumIdle(states[0].actors);
    } else {
      RunKeeps(states, moves, limit, k - 1);
      RunStep(states, moves, limit, k - 1);
      CountedNext(states[k - 1], limit, moves[k - 1].actor, moves[k - 1].step);
      WatchedNext(states[k - 1], limit, moves[k - 1].actor, moves[k - 1].step);
    }
  }

  lemma {:induction false} SumIdle(actors: seq<Actor>)
    requires forall i :: 0 <= i < |actors| ==> actors[i].Idle?
    ensures Sum(actors, ActiveWeight) == Sum(actors, ForegroundWeight) == Sum(actors, WaitingWeight) == 0
  {
    SumPositive(actors, ActiveWeight);
    SumPositive(actors, ForegroundWeight);
    SumPositive(actors, WaitingWeight);
  }

  /** At most `limit` calls run at once, and every lease can be given back and every waiter can leave. */
  lemma AdmissionBound(states: seq<State>, moves: seq<Move>, limit: nat, k: nat)
    requires IsRun(states, moves, limit) && k < |states|
    ensures Sum(states[k].actors, ActiveWeight) <= limit
    ensures forall i :: 0 <= i < |states[k].actors| && states[k].actors[i].Admitted? ==>
              Enabled(states[k], i, ReleaseAdmission)
    ensures forall i :: 0 <= i < |states[k].actors| && states[k].actors[i].Holding? ==>
              Enabled(states[k], i, ReleaseForeground)
    ensures forall i :: 0 <= i < |states[k].actors| && states[k].actors[i].Awake? ==> Enabled(states[k], i, Retry)
  {
    RunKeeps(states, moves, limit, k);
    forall i | 0 <= i < |states[k].actors|
      ensures states[k].actors[i].Admitted? ==> Enabled(states[k], i, ReleaseAdmission)
      ensures states[k].actors[i].Holding? ==> Enabled(states[k], i, ReleaseForeground)
      ensures states[k].actors[i].Awake? ==> Enabled(states[k], i, Retry)
    {
      NoUnderflow(states[k], i);
    }
  }

  /** Who becomes admitted by a step found the gate open and a slot free. */
  lemma StartsNext(s: State, limit: nat, actor: nat, step: Step, i: nat)
    requires Enabled(s, actor, step) && i < |s.actors| && !s.actors[i].Admitted?
    requires |Next(s, limit, actor, step).actors| == |s.actors| && Next(s, limit, actor, step).actors[i].Admitted?
    ensures
      var who := Next(s, limit, actor, step).actors[i].who;
      !s.gate.closed && !IsCancelled(s, who) && (who.Base? ==> s.gate.foreground == 0)
  {
    hide Sum;
    match step
    case Request(_) =>
    case Retry =>
    case _ =>
  }

  /** A base call starts only while nobody holds a foreground lease, before close, before any of its
      cancellations and before the command's interruption. */
  lemma BaseAdmission(states: seq<State>, moves: seq<Move>, limit: nat, k: nat, i: nat)
    requires IsRun(states, moves, limit) && k < |moves| && i < |states[k].actors|
    requires !states[k].actors[i].Admitted? && i < |states[k + 1].actors| && states[k + 1].actors[i].Admitted?
    requires states[k + 1].actors[i].who.Base?
    ensures forall j :: 0 <= j < |states[k].actors| ==> ForegroundWeight(states[k].actors[j]) == 0
    ensures !states[k].gate.closed && !states[k].commanded && states[k + 1].actors[i].who.tokens !! states[k].cancelled
  {
    RunKeeps(states, moves, limit, k);
    SumPositive(states[k].actors, ForegroundWeight);
    hide Next, Enabled, Sum;
    RunStep(states, moves, limit, k);
    StartsNext(states[k], limit, moves[k].actor, moves[k].step, i);
  }

  // ----- who is answered how -----

  /** The caller that looks at the gate in a step. */
  function Asker(s: State, i: nat, step: Step): Option<Who> {
    match step
    case Request(who) => Some(who)
    case Retry => if i < |s.actors| && s.actors[i].Awake? then Some(s.actors[i].who) else None
    case _ => None
  }

  /** The gate is closed, or the base call's own work is called off. */
  ghost predicate Shut(s: State, who: Who) {
    || s.gate.closed
    || (who.Base? && s.commanded)
    || (who.Base? && exists token :: token in who.tokens && token in s.cancelled)
  }

  /** Every slot is taken, or a base call finds somebody in the foreground. */
  ghost predicate Busy(actors: seq<Actor>, limit: nat, who: Who) {
    || Sum(actors, ActiveWeight) == limit
    || (who.Base? && exists j :: 0 <= j < |actors| && ForegroundWeight(actors[j]) > 0)
  }

  lemma BusyIsNotFree(s: State, limit: nat, who: Who)
    requires Counted(s) && s.gate.active <= limit
    ensures Busy(s.actors, limit, who) <==> !Free(s.gate, limit, who.Base?)
  {
    SumPositive(s.actors, ForegroundWeight);
  }

  /** In every run a caller is refused when the gate is shut for it, sleeps when it is busy, and otherwise
      starts at once. */
  lemma Answered(states: seq<State>, moves: seq<Move>, limit: nat, k: nat)
    requires IsRun(states, moves, limit) && k < |moves| && Asker(states[k], moves[k].actor, moves[k].step).Some?
    ensures
      var (s, i) := (states[k], moves[k].actor);
      var who := Asker(s, i, moves[k].step).value;
      && i < |states[k + 1].actors|
      && states[k + 1].actors[i] ==
         if Shut(s, who) then (if who.Current? then Holding else Idle)
         else if Busy(s.actors, limit, who) then Asleep(who)
         else Admitted(who)
  {
    hide Busy, Sum;
    RunKeeps(states, moves, limit, k);
    RunStep(states, moves, limit, k);
    BusyIsNotFree(states[k], limit, Asker(states[k], moves[k].actor, moves[k].step).value);
  }

  /** A gate is shut only after a step that shuts it, or for what was called off before the run. */
  lemma {:induction false} ShutBySteps(states: seq<State>, moves: seq<Move>, limit: nat, k: nat)
    requires IsRun(states, moves, limit) && k < |states|
    ensures states[k].gate.closed ==> exists m :: 0 <= m < k && moves[m].step.Close?
    ensures states[k].commanded ==> states[0].commanded || exists m :: 0 <= m < k && moves[m].step.Interrupt?
    ensures forall token :: token in states[k].cancelled ==>
              token in states[0].cancelled || exists m :: 0 <= m < k && moves[m].step == Cancel(token)
  {
    hide Enabled;
    if k > 0 {
      ShutBySteps(states, moves, limit, k - 1);
      RunStep(states, moves, limit, k - 1);
      ShutByStep(states[k - 1], limit, moves[k - 1].actor, moves[k - 1].step);
    }
  }

  lemma ShutByStep(s: State, limit: nat, i: nat, step: Step)
    requires Enabled(s, i, step)
    ensures Next(s, limit, i, step).gate.closed ==> s.gate.closed || step.Close?
    ensures Next(s, limit, i, step).commanded ==> s.commanded || step.Interrupt?
    ensures forall token :: token in Next(s, limit, i, step).cancelled ==> token in s.cancelled || step == Cancel(token)
  {
  }

  /** Somebody sleeps only while every slot is taken or, for a base call, somebody is in the foreground. */
  lemma SleepersFindItBusy(states: seq<State>, moves: seq<Move>, limit: nat, k: nat, i: nat)
    requires IsRun(states, moves, limit) && k < |states| && i < |states[k].actors|
    requires states[k].actors[i].Asleep?
    ensures Busy(states[k].actors, limit, states[k].actors[i].who)
  {
    hide Busy;
    RunKeeps(states, moves, limit, k);
    assert Rests(states[k], limit, states[k].actors[i].who);
    BusyIsNotFree(states[k], limit, states[k].actors[i].who);
  }

  /** A current call waits only while every slot is taken: base work that waits never delays it. */
  lemma CurrentAdmission(states: seq<State>, moves: seq<Move>, limit: nat, k: nat, i: nat)
    requires IsRun(states, moves, limit) && k < |states| && i < |states[k].actors|
    requires states[k].actors[i] == Asleep(Current)
    ensures Sum(states[k].actors, ActiveWeight) == limit
  {
    SleepersFindItBusy(states, moves, limit, k, i);
  }

  /** The gate is closed, and whoever is admitted was admitted before. */
  ghost predicate AdmitsNobody(before: seq<Actor>, s: State) {
    && s.gate.closed && |s.actors| == |before|
    && forall i :: 0 <= i < |before| && s.actors[i].Admitted? ==> before[i] == s.actors[i]
  }

  lemma StaysClosed(before: seq<Actor>, s: State, limit: nat, actor: nat, step: Step)
    requires Enabled(s, actor, step) && AdmitsNobody(before, s)
    ensures AdmitsNobody(before, Next(s, limit, actor, step))
  {
  }

  /** Once closed, the gate stays closed and admits nobody. */
  lemma {:induction false} ClosedForGood(states: seq<State>, moves: seq<Move>, limit: nat, k: nat, m: nat)
    requires IsRun(states, moves, limit) && k <= m < |states| && states[k].gate.closed
    ensures AdmitsNobody(states[k].actors, states[m])
    decreases m
  {
    hide Next, Enabled, Initial;
    if k < m {
      ClosedForGood(states, moves, limit, k, m - 1);
      RunStep(states, moves, limit, m - 1);
      StaysClosed(states[k].actors, states[m - 1], limit, moves[m - 1].actor, moves[m - 1].step);
    }
  }

  /** No wakeup is lost: a sleeper that would get an answer has a notification coming. */
  lemma NoLostWakeup(states: seq<State>, moves: seq<Move>, limit: nat, k: nat, i: nat)
    requires IsRun(states, moves, limit) && k < |states| && i < |states[k].actors|
    requires states[k].actors[i].Asleep? && !VerdictOf(states[k], limit, states[k].actors[i].who).Blocked?
    ensures Owed(states[k], states[k].actors[i].who)
  {
    RunKeeps(states, moves, limit, k);
    assert Rests(states[k], limit, states[k].actors[i].who);
  }

  /** With a positive limit, a sleeper waits for a live lease. */
  lemma SleepersWaitForLeases(states: seq<State>, moves: seq<Move>, limit: nat, k: nat, i: nat)
    requires IsRun(states, moves, limit) && k < |states| && i < |states[k].actors| && limit > 0
    requires states[k].actors[i].Asleep?
    ensures
      var actors := states[k].actors;
      || (exists j :: 0 <= j < |actors| && actors[j].Admitted?)
      || (actors[i].who.Base? && exists j :: 0 <= j < |actors| && ForegroundWeight(actors[j]) > 0)
  {
    var s := states[k];
    SleepersFindItBusy(states, moves, limit, k, i);
    SumPositive(s.actors, ActiveWeight);
    if j :| 0 <= j < |s.actors| && ActiveWeight(s.actors[j]) > 0 { assert s.actors[j].Admitted?; }
  }

  /** The actor is in the middle of something, and its own next step is enabled. */
  ghost predicate CanGoOn(s: State, j: nat)
    requires j < |s.actors|
  {
    && !s.actors[j].Asleep? && !s.actors[j].Idle?
    && exists step :: Enabled(s, j, step)
  }

  lemma GoesOn(s: State, j: nat)
    requires Counted(s) && j < |s.actors| && !s.actors[j].Asleep? && !s.actors[j].Idle?
    ensures CanGoOn(s, j)
  {
    NoUnderflow(s, j);
    var step :=
      match s.actors[j]
      case Announcing => Announce
      case Holding => ReleaseForeground
      case Awake(_) => Retry
      case Admitted(_) => ReleaseAdmission
      case Closing => AnnounceClose
      case Interrupting => Close
      case Cancelling(_) => ReadListeners
      case Observing(_) => ReadFlag
      case _ => Signal;
    assert Enabled(s, j, step);
  }

  /** The waiters never all sleep on each other: someone awake has an enabled step of its own. */
  lemma NoDeadlock(states: seq<State>, moves: seq<Move>, limit: nat, k: nat, i: nat)
    requires IsRun(states, moves, limit) && k < |states| && i < |states[k].actors| && limit > 0
    requires states[k].actors[i].Asleep?
    ensures exists j :: 0 <= j < |states[k].actors| && CanGoOn(states[k], j)
  {
    hide IsRun, Enabled, Counted, Watched;
    var actors := states[k].actors;
    RunKeeps(states, moves, limit, k);
    SleepersWaitForLeases(states, moves, limit, k, i);
    var j :| 0 <= j < |actors| && (actors[j].Admitted? || ForegroundWeight(actors[j]) > 0);
    assert ForegroundWeight(Idle) == 0;
    if actors[j].Asleep? {
      SleepersWaitForLeases(states, moves, limit, k, j);
      var m :| 0 <= m < |actors| && actors[m].Admitted?;
      GoesOn(states[k], m);
    } else {
      GoesOn(states[k], j);
    }
  }
}
