// Command cancellation and forced exit (cancellation.rs, interrupts.rs): the critical
// sections, and every interleaving of signals, protected output and the exit.

module ForcedExit {
  import opened Common

  const COPIES_MS: nat := 1_000

  datatype Force = Force(first: Option<nat>, protected: nat, pending: bool)

  // ----- what one critical section does -----

  /** A later signal counts only when it is no copy of the first one. */
  function Interrupted(f: Force, now: nat): Force {
    match f.first
    case None => f.(first := Some(now))
    case Some(first) => if now < first + COPIES_MS then f else f.(pending := true)
  }

  predicate ExitsNow(f: Force, now: nat) {
    f.first.Some? && now >= f.first.value + COPIES_MS && f.protected == 0
  }

  function Protected(f: Force): Force {
    if f.pending then f else f.(protected := f.protected + 1)
  }

  /** `BuildCancellation`; each method is one critical section. */
  class BuildCancellation {
    var requested: bool
    var firstSignal: Option<nat>
    var protected: nat
    var pending: bool

    constructor ()
      ensures !requested && State() == Force(None, 0, false)
    {
      requested, firstSignal, protected, pending := false, None, 0, false;
    }

    function State(): Force
      reads this
    {
      Force(firstSignal, protected, pending)
    }

    /** One signal at clock time `now`; `exit` says whether nothing has to be waited for. */
    method Interrupt(now: nat) returns (exit: bool)
      modifies this
      ensures State() == Interrupted(old(State()), now)
      ensures exit == ExitsNow(old(State()), now)
      ensures requested == (old(requested) || old(firstSignal).None?)
    {
      if firstSignal.Some? {
        // The source subtracts and stops at zero when the clock reads earlier.
        if (if now < firstSignal.value then 0 else now - firstSignal.value) < COPIES_MS {
          return false;
        }
        pending := true;
        return protected == 0;
      }
      firstSignal := Some(now);
      requested := true;
      return false;
    }

    /** One more protected scope, or a refusal once a forced exit is pending. */
    method ProtectOutput() returns (granted: bool)
      modifies this
      ensures granted == !old(pending) && State() == Protected(old(State())) && requested == old(requested)
    {
      if pending { return false; }
      protected := protected + 1;
      granted := true;
    }

    /** The end of a protected scope. */
    method Settle()
      requires protected > 0
      modifies this
      ensures State() == old(State()).(protected := old(protected) - 1) && requested == old(requested)
    {
      protected := protected - 1;
    }
  }

  // ----- interleavings -----

  /** `publish` never forces an exit; `build` does. */
  datatype Command = Build | Publish

  datatype Actor =
    | Idle
    | Protecting          // writes output in a protected scope
    | Checking            // has recorded a signal, is about to look for a deferred exit
    | Asleep              // waits for protected output to settle
    | Awake               // waits too, about to look again
    | Exiting             // has decided to exit the process
    | Stopping            // has found no forced exit, is about to read the pool
    | Swapping            // has a pool, is about to claim its shutdown

  datatype State = State(force: Force, requested: bool, flag: bool, clock: nat, signals: seq<nat>,
                         pool: bool, stopping: bool, shutdowns: nat, exited: bool, actors: seq<Actor>)

  datatype Step =
    | Tick(ms: nat) | Deliver | Install
    | Signal | Check | Spurious | Recheck | Exit | ReadPool | Claim | Protect | Settle

  function Woken(actor: Actor): Actor {
    if actor.Asleep? then Awake else actor
  }

  function NotifyAll(actors: seq<Actor>): (woken: seq<Actor>)
    ensures |woken| == |actors|
    ensures forall i :: 0 <= i < |actors| ==> woken[i] == Woken(actors[i])
  {
    seq(|actors|, i requires 0 <= i < |actors| => Woken(actors[i]))
  }

  /** No step follows the exit. */
  predicate Enabled(s: State, i: nat, step: Step) {
    !s.exited && i < |s.actors| &&
    match step
    case Tick(_) => true
    case Deliver => true
    case Install => true
    case Signal => s.actors[i].Idle? && s.flag
    case Check => s.actors[i].Checking?
    case Spurious => s.actors[i].Asleep?
    case Recheck => s.actors[i].Awake?
    case Exit => s.actors[i].Exiting?
    case ReadPool => s.actors[i].Stopping?
    case Claim => s.actors[i].Swapping?
    case Protect => s.actors[i].Idle?
    case Settle => s.actors[i].Protecting? && s.force.protected > 0
  }

  function Put(s: State, i: nat, actor: Actor): State
    requires i < |s.actors|
  {
    s.(actors := s.actors[i := actor])
  }

  function Next(s: State, command: Command, i: nat, step: Step): State
    requires Enabled(s, i, step)
  {
    match step
    case Tick(ms) => s.(clock := s.clock + ms)
    // The operating system sets the flag before any listener runs.
    case Deliver => s.(flag := true)
    case Install => s.(pool := true)
    case Signal =>
      if command.Publish? then Put(s.(requested := true, signals := s.signals + [s.clock]), i, Checking)
      else Put(s.(force := Interrupted(s.force, s.clock), requested := s.requested || s.force.first.None?,
                  signals := s.signals + [s.clock]),
               i, if ExitsNow(s.force, s.clock) then Exiting else Checking)
    case Check => Put(s, i, if !s.force.pending then Stopping else if s.force.protected == 0 then Exiting else Asleep)
    case Spurious => Put(s, i, Awake)
    case Recheck => Put(s, i, if s.force.protected == 0 then Exiting else Asleep)
    case Exit => s.(exited := true)
    case ReadPool => Put(s, i, if s.pool then Swapping else Idle)
    case Claim => Put(s.(stopping := true, shutdowns := s.shutdowns + if s.stopping then 0 else 1), i, Idle)
    case Protect =>
      if command.Publish? || s.force.pending then s
      else Put(s.(force := Protected(s.force)), i, Protecting)
    case Settle =>
      s.(force := s.force.(protected := s.force.protected - 1), actors := NotifyAll(s.actors)[i := Idle])
  }

  datatype Move = Move(actor: nat, step: Step)

  predicate Initial(s: State) {
    && s.force == Force(None, 0, false) && !s.requested && !s.flag && s.signals == []
    && !s.stopping && s.shutdowns == 0 && !s.exited
    && forall i :: 0 <= i < |s.actors| ==> s.actors[i].Idle?
  }

  ghost predicate IsRun(states: seq<State>, moves: seq<Move>, command: Command) {
    && |states| == |moves| + 1 && Initial(states[0])
    && forall k :: 0 <= k < |moves| ==>
         Enabled(states[k], moves[k].actor, moves[k].step) &&
         states[k + 1] == Next(states[k], command, moves[k].actor, moves[k].step)
  }

  // ----- what every step keeps -----

  function Scopes(actors: seq<Actor>): nat {
    if |actors| == 0 then 0
    else Scopes(actors[..|actors| - 1]) + if actors[|actors| - 1].Protecting? then 1 else 0
  }

  lemma {:induction false} ScopesUpdate(actors: seq<Actor>, i: nat, actor: Actor)
    requires i < |actors|
    ensures Scopes(actors[i := actor])
         == Scopes(actors) - (if actors[i].Protecting? then 1 else 0) + if actor.Protecting? then 1 else 0
    ensures actors[i].Protecting? ==> Scopes(actors) > 0
  {
    var last := |actors| - 1;
    if i < last {
      ScopesUpdate(actors[..last], i, actor);
      assert actors[i := actor][..last] == actors[..last][i := actor];
    } else {
      assert actors[i := actor][..last] == actors[..last];
    }
  }

  lemma {:induction false} ScopesNotify(actors: seq<Actor>)
    ensures Scopes(NotifyAll(actors)) == Scopes(actors)
  {
    if |actors| > 0 {
      ScopesNotify(actors[..|actors| - 1]);
      assert NotifyAll(actors)[..|actors| - 1] == NotifyAll(actors[..|actors| - 1]);
    }
  }

  lemma {:induction false} ScopesNone(actors: seq<Actor>)
    ensures Scopes(actors) == 0 <==> forall i :: 0 <= i < |actors| ==> !actors[i].Protecting?
  {
    if |actors| > 0 {
      ScopesNone(actors[..|actors| - 1]);
      assert forall i :: 0 <= i < |actors| - 1 ==> actors[..|actors| - 1][i] == actors[i];
    }
  }

  /** Whether some signal came a second or more after the first one. */
  ghost predicate Late(signals: seq<nat>) {
    exists i :: 0 <= i < |signals| && signals[i] >= signals[0] + COPIES_MS
  }

  /** The protected count, the signal record and who sleeps. */
  ghost predicate Kept(s: State, command: Command) {
    && s.force.protected == Scopes(s.actors)
    && (command.Build? ==> s.force.first == if |s.signals| == 0 then None else Some(s.signals[0]))
    && (s.force.pending <==> command.Build? && Late(s.signals))
    && (s.requested <==> |s.signals| > 0)
    && (s.requested ==> s.flag)
    && s.shutdowns == (if s.stopping then 1 else 0)
    && (forall i :: 0 <= i < |s.actors| && s.actors[i].Asleep? ==> s.force.pending && s.force.protected > 0)
    && (forall i :: 0 <= i < |s.actors| && s.actors[i].Awake? ==> s.force.pending)
    && (forall i :: 0 <= i < |s.actors| && s.actors[i].Exiting? ==> s.force.pending && s.force.protected == 0)
    && (s.exited ==> s.force.pending && s.force.protected == 0)
  }

  lemma LateSignal(signals: seq<nat>, now: nat)
    ensures Late(signals + [now]) <==> Late(signals) || (|signals| > 0 && now >= signals[0] + COPIES_MS)
  {
    var all := signals + [now];
    if i :| 0 <= i < |all| && all[i] >= all[0] + COPIES_MS && i < |signals| { assert signals[i] == all[i]; }
    if i :| 0 <= i < |signals| && signals[i] >= signals[0] + COPIES_MS { assert all[i] == signals[i]; }
    if |signals| > 0 && now >= signals[0] + COPIES_MS { assert all[|signals|] == now; }
  }

  lemma KeptNext(s: State, command: Command, i: nat, step: Step)
    requires Kept(s, command) && Enabled(s, i, step)
    ensures Kept(Next(s, command, i, step), command)
  {
    hide Scopes, Late;
    var t := Next(s, command, i, step);
    LateSignal(s.signals, s.clock);
    ScopesUpdate(s.actors, i, t.actors[i]);
    if step.Settle? {
      ScopesNotify(s.actors);
      ScopesUpdate(NotifyAll(s.actors), i, Idle);
    }
  }

  lemma {:induction false} RunKeeps(states: seq<State>, moves: seq<Move>, command: Command, k: nat)
    requires IsRun(states, moves, command) && k < |states|
    ensures Kept(states[k], command)
  {
    if k == 0 {
      ScopesNone(states[0].actors);
    } else {
      RunKeeps(states, moves, command, k - 1);
      assert states[k - 1 + 1] == Next(states[k - 1], command, moves[k - 1].actor, moves[k - 1].step);
      KeptNext(states[k - 1], command, moves[k - 1].actor, moves[k - 1].step);
    }
  }

  // ----- whole runs -----

  /** From the decision on, no output is protected, so the exit never cuts off a write. */
  lemma ExitIsSafe(states: seq<State>, moves: seq<Move>, command: Command, k: nat)
    requires IsRun(states, moves, command) && k < |states|
    requires states[k].exited || exists i :: 0 <= i < |states[k].actors| && states[k].actors[i].Exiting?
    ensures forall i :: 0 <= i < |states[k].actors| ==> !states[k].actors[i].Protecting?
  {
    RunKeeps(states, moves, command, k);
    ScopesNone(states[k].actors);
  }

  /** A forced exit is pending exactly when some signal came a second or more after the first; `publish` never exits. */
  lemma PendingNeedsLateSignal(states: seq<State>, moves: seq<Move>, command: Command, k: nat)
    requires IsRun(states, moves, command) && k < |states|
    ensures states[k].force.pending <==> command.Build? && Late(states[k].signals)
    ensures states[k].exited ==> command.Build? && Late(states[k].signals)
    ensures (states[k].flag || states[k].requested) == states[k].flag &&
            (states[k].requested <==> |states[k].signals| > 0)
  {
    RunKeeps(states, moves, command, k);
  }

  /** Signals are recorded in clock order, so the first one is the earliest. */
  lemma {:induction false} SignalsInOrder(states: seq<State>, moves: seq<Move>, command: Command, k: nat)
    requires IsRun(states, moves, command) && k < |states|
    ensures forall a, b :: 0 <= a <= b < |states[k].signals| ==>
              states[k].signals[a] <= states[k].signals[b] <= states[k].clock
  {
    if k > 0 {
      SignalsInOrder(states, moves, command, k - 1);
      assert states[k - 1 + 1] == Next(states[k - 1], command, moves[k - 1].actor, moves[k - 1].step);
    }
  }

  lemma PendingNext(s: State, command: Command, i: nat, step: Step)
    requires Enabled(s, i, step) && s.force.pending
    ensures
      var t := Next(s, command, i, step);
      && t.force.pending && |t.actors| == |s.actors|
      && forall j :: 0 <= j < |t.actors| && t.actors[j].Protecting? ==> s.actors[j].Protecting?
  {
  }

  /** Once a forced exit is pending it stays so, and nobody starts to protect output. */
  lemma {:induction false} NothingStartsOncePending(states: seq<State>, moves: seq<Move>, command: Command, k: nat,
                                                    m: nat)
    requires IsRun(states, moves, command) && k <= m < |states| && states[k].force.pending
    ensures states[m].force.pending && |states[m].actors| == |states[k].actors|
    ensures forall i :: 0 <= i < |states[m].actors| && states[m].actors[i].Protecting? ==>
              states[k].actors[i].Protecting?
    decreases m
  {
    hide Next, Enabled;
    if k < m {
      NothingStartsOncePending(states, moves, command, k, m - 1);
      assert states[m - 1 + 1] == Next(states[m - 1], command, moves[m - 1].actor, moves[m - 1].step);
      PendingNext(states[m - 1], command, moves[m - 1].actor, moves[m - 1].step);
    }
  }

  /** No wakeup is lost: a listener sleeps only while some protected scope, whose end wakes it, is open;
      every open scope can end. */
  lemma SleepersHaveScopes(states: seq<State>, moves: seq<Move>, command: Command, k: nat, i: nat)
    requires IsRun(states, moves, command) && k < |states| && i < |states[k].actors|
    ensures states[k].actors[i].Asleep? ==> exists j :: 0 <= j < |states[k].actors| && states[k].actors[j].Protecting?
    ensures states[k].actors[i].Protecting? ==> Enabled(states[k], i, Settle)
  {
    RunKeeps(states, moves, command, k);
    ScopesNone(states[k].actors);
    ScopesUpdate(states[k].actors, i, Idle);
  }

  // ----- who is answered how -----

  ghost predicate SomebodyProtects(actors: seq<Actor>) {
    exists i :: 0 <= i < |actors| && actors[i].Protecting?
  }

  /** A second after the first signal or later, `now` is a late signal of a build. */
  predicate IsLate(command: Command, signals: seq<nat>, now: nat) {
    command.Build? && |signals| > 0 && now >= signals[0] + 1_000
  }

  ghost predicate SomeLate(command: Command, signals: seq<nat>) {
    exists i :: 0 <= i < |signals| && IsLate(command, signals, signals[i])
  }

  lemma KeptMeans(s: State, command: Command)
    requires Kept(s, command)
    ensures s.force.pending <==> SomeLate(command, s.signals)
    ensures ExitsNow(s.force, s.clock) && command.Build? <==>
            IsLate(command, s.signals, s.clock) && !SomebodyProtects(s.actors)
    ensures s.force.protected == 0 <==> !SomebodyProtects(s.actors)
  {
    ScopesNone(s.actors);
    if s.force.pending {
      var i :| 0 <= i < |s.signals| && s.signals[i] >= s.signals[0] + COPIES_MS;
      assert IsLate(command, s.signals, s.signals[i]);
    }
  }

  /** In every run a late signal exits at once when nothing is protected. A listener that checks goes on to stop the
      pool when no signal was late, and otherwise exits as soon as nothing is protected. Output is protected
      exactly in builds without a late signal. */
  lemma Decided(states: seq<State>, moves: seq<Move>, command: Command, k: nat)
    requires IsRun(states, moves, command) && k < |moves|
    ensures
      var (s, i) := (states[k], moves[k].actor);
      && i < |s.actors| == |states[k + 1].actors|
      && (moves[k].step.Signal? ==>
            states[k + 1].actors[i] ==
            if IsLate(command, s.signals, s.clock) && !SomebodyProtects(s.actors) then Exiting else Checking)
      && (moves[k].step.Check? ==>
            states[k + 1].actors[i] ==
            if !SomeLate(command, s.signals) then Stopping
            else if SomebodyProtects(s.actors) then Asleep
            else Exiting)
      && (moves[k].step.Recheck? ==>
            states[k + 1].actors[i] == if SomebodyProtects(s.actors) then Asleep else Exiting)
      && (moves[k].step.Protect? ==>
            states[k + 1].actors[i] == if command.Build? && !SomeLate(command, s.signals) then Protecting else Idle)
      && (moves[k].step.Exit? ==> states[k + 1].exited)
  {
    hide SomebodyProtects, SomeLate, IsLate, ExitsNow, Interrupted, Scopes;
    RunKeeps(states, moves, command, k);
    assert states[k + 1] == Next(states[k], command, moves[k].actor, moves[k].step);
    KeptMeans(states[k], command);
  }

  /** Once a signal was late and nothing is protected, each waiting listener's own next step leads to the exit. */
  lemma LateSignalExits(states: seq<State>, moves: seq<Move>, command: Command, k: nat, i: nat)
    requires IsRun(states, moves, command) && k < |states| && i < |states[k].actors| && !states[k].exited
    requires SomeLate(command, states[k].signals) && !SomebodyProtects(states[k].actors)
    ensures !states[k].actors[i].Asleep?
    ensures states[k].actors[i].Checking? ==>
              Enabled(states[k], i, Check) && Next(states[k], command, i, Check).actors[i] == Exiting
    ensures states[k].actors[i].Awake? ==>
              Enabled(states[k], i, Recheck) && Next(states[k], command, i, Recheck).actors[i] == Exiting
    ensures states[k].actors[i].Exiting? ==>
              Enabled(states[k], i, Exit) && Next(states[k], command, i, Exit).exited
  {
    RunKeeps(states, moves, command, k);
    KeptMeans(states[k], command);
  }

  /** The pool is asked to shut down once, by the first listener that claims it, however many signals arrive. */
  lemma {:induction false} OneShutdown(states: seq<State>, moves: seq<Move>, command: Command, k: nat)
    requires IsRun(states, moves, command) && k < |states|
    ensures states[k].stopping <==> exists m :: 0 <= m < k && moves[m].step.Claim?
    ensures states[k].shutdowns == if states[k].stopping then 1 else 0
  {
    RunKeeps(states, moves, command, k);
    if k > 0 {
      OneShutdown(states, moves, command, k - 1);
      assert states[k - 1 + 1] == Next(states[k - 1], command, moves[k - 1].actor, moves[k - 1].step);
    }
  }
}
