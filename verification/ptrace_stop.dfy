/** The ptrace stop protocol: freezing a tracee for the length of one request, against SIGKILL at any moment.

    Steps are atomic where the code holds the tracee's siglock or the tasklist lock. ptrace_unfreeze_traced looks at
    the tracee before it takes the lock and does not look again, so it is two steps. */
module PtraceStop {
  import opened Areas

  type Tid = nat

  /** The scheduler state of a tracee. Traced is TASK_TRACED, asleep but killable; Frozen is __TASK_TRACED, which
      no signal wakes. */
  datatype Run = Running | Traced | Frozen | Dead

  /** `inactive`: it has scheduled out; `kill`: SIGKILL is pending; `listening`: JOBCTL_LISTENING;
      `tracer`: its ptrace parent, None when ptrace is 0. */
  datatype Tracee = Tracee(run: Run, inactive: bool, kill: bool, listening: bool, tracer: Option<Tid>)

  /** Where a calling task is in its ptrace system call. */
  datatype Pc =
    | Idle
    | Settling(child: Tid)                  // has frozen the child, in wait_task_inactive
    | Acting(child: Tid, frozen: bool)      // in arch_ptrace; not frozen for PTRACE_KILL and PTRACE_INTERRUPT
    | Failing(child: Tid)                   // wait_task_inactive has failed
    | Closing(child: Tid)                   // on its way to ptrace_unfreeze_traced
    | Thawing(child: Tid, listened: bool)   // there, saw the child frozen, and whether it was listening then

  datatype State = State(task: map<Tid, Tracee>, pc: map<Tid, Pc>)

  function PcOf(s: State, c: Tid): Pc {
    if c in s.pc then s.pc[c] else Idle
  }

  /** The caller is in a request that froze this child. */
  predicate InRequest(s: State, c: Tid, p: Tid) {
    || PcOf(s, c) == Settling(p) || PcOf(s, c) == Acting(p, true) || PcOf(s, c) == Closing(p)
    || (PcOf(s, c).Thawing? && PcOf(s, c).child == p)
  }

  datatype Action =
    | Attach(c: Tid, p: Tid)            // ptrace_attach, ptrace_traceme or a traced fork
    | Stop(p: Tid)                      // the tracee enters TASK_TRACED in ptrace_stop
    | Sleep(p: Tid)                     // it schedules out, which a pending SIGKILL prevents unless it is frozen
    | Abort(p: Tid)                     // it does not schedule out and runs on: may_ptrace_stop fails, or SIGKILL
    | Notify(p: Tid)                    // an event re-traps a listening tracee
    | Kill(p: Tid)                      // SIGKILL arrives
    | Exit(p: Tid)                      // it dies
    | Reap(p: Tid)                      // it is released, which unlinks it
    | Quit(c: Tid, p: Tid)              // the tracer exits and unlinks the tracee
    | Check(c: Tid, p: Tid)             // ptrace_check_attach with a stopped child required
    | CheckAny(c: Tid, p: Tid)          // ptrace_check_attach with ignore_state
    | Settle(c: Tid)                    // wait_task_inactive returns
    | Abandon(c: Tid)                   // the request fails with ESRCH after that
    | Act(c: Tid)                       // a request that leaves the child asleep, or fails
    | Listen(c: Tid)                    // PTRACE_LISTEN that does not wake the child
    | Resume(c: Tid)                    // a request that wakes the child
    | Detach(c: Tid)                    // PTRACE_DETACH that succeeds
    | Look(c: Tid)                      // ptrace_unfreeze_traced tests the state, without the lock
    | Thaw(c: Tid)                      // and writes it, under the lock

  predicate Enabled(s: State, a: Action) {
    match a
    case Attach(c, p) => p in s.task && s.task[p].tracer == None && s.task[p].run != Dead
    case Stop(p) => p in s.task && s.task[p].run == Running && s.task[p].tracer.Some?
    case Sleep(p) => p in s.task && ((s.task[p].run == Traced && !s.task[p].kill) || s.task[p].run == Frozen)
      && !s.task[p].inactive
    case Abort(p) => p in s.task && (s.task[p].run == Traced || s.task[p].run == Frozen) && !s.task[p].inactive
    case Notify(p) => p in s.task && s.task[p].listening && (s.task[p].run == Traced || s.task[p].run == Frozen)
    case Kill(p) => p in s.task
    case Exit(p) => p in s.task && s.task[p].run == Running
    case Reap(p) => p in s.task && s.task[p].run == Dead
    case Quit(c, p) => p in s.task && s.task[p].tracer == Some(c) && PcOf(s, c) == Idle
    case Check(c, p) => PcOf(s, c) == Idle && p in s.task
    case CheckAny(c, p) => PcOf(s, c) == Idle && p in s.task
    case Settle(c) => PcOf(s, c).Settling? && PcOf(s, c).child in s.task
                      && (s.task[PcOf(s, c).child].run != Frozen || s.task[PcOf(s, c).child].inactive)
    case Abandon(c) => PcOf(s, c).Failing?
    case Act(c) => PcOf(s, c).Acting?
    case Listen(c) => PcOf(s, c).Acting? && PcOf(s, c).frozen && PcOf(s, c).child in s.task
    case Resume(c) => PcOf(s, c).Acting? && PcOf(s, c).child in s.task
    case Detach(c) => PcOf(s, c).Acting? && PcOf(s, c).frozen && PcOf(s, c).child in s.task
    case Look(c) => PcOf(s, c).Closing? && PcOf(s, c).child in s.task
    case Thaw(c) => PcOf(s, c).Thawing? && PcOf(s, c).child in s.task
  }

  function SetTask(s: State, p: Tid, t: Tracee): State {
    s.(task := s.task[p := t])
  }

  function SetPc(s: State, c: Tid, pc: Pc): State {
    s.(pc := s.pc[c := pc])
  }

  /** wake_up_state(task, __TASK_TRACED): it runs again if it was stopped in either traced state. */
  function Wake(t: Tracee): Tracee {
    if t.run == Traced || t.run == Frozen then t.(run := Running, inactive := false, listening := false) else t
  }

  /** SIGKILL becomes pending and wakes a killable sleeper. */
  function Killed(t: Tracee): Tracee {
    var k := t.(kill := true);
    if t.run == Traced then k.(run := Running, inactive := false, listening := false) else k
  }

  /** ptrace_freeze_traced succeeds on it. */
  predicate CanFreeze(t: Tracee) {
    !t.listening && t.run == Traced && !t.kill
  }

  function Do(s: State, a: Action): State
    requires Enabled(s, a)
  {
    match a
    case Attach(c, p) => SetTask(s, p, s.task[p].(tracer := Some(c)))
    case Stop(p) => SetTask(s, p, s.task[p].(run := Traced, inactive := false))
    case Sleep(p) => SetTask(s, p, s.task[p].(inactive := true))
    case Abort(p) => SetTask(s, p, Wake(s.task[p]))
    case Notify(p) => SetTask(s, p, Wake(s.task[p]))
    case Kill(p) => SetTask(s, p, Killed(s.task[p]))
    case Exit(p) => SetTask(s, p, s.task[p].(run := Dead))
    case Reap(p) => SetTask(s, p, s.task[p].(tracer := None))
    case Quit(c, p) => SetTask(s, p, Wake(s.task[p].(tracer := None)))
    case Check(c, p) =>
      if s.task[p].tracer == Some(c) && CanFreeze(s.task[p]) then SetPc(SetTask(s, p, s.task[p].(run := Frozen)), c,
                                                                        Settling(p)) else s
    case CheckAny(c, p) => if s.task[p].tracer == Some(c) then SetPc(s, c, Acting(p, false)) else s
    case Settle(c) => SetPc(s, c, if s.task[PcOf(s, c).child].run == Frozen then Acting(PcOf(s, c).child, true)
                                  else Failing(PcOf(s, c).child))
    case Abandon(c) => SetPc(s, c, Idle)
    case Act(c) => SetPc(s, c, Closing(PcOf(s, c).child))
    case Listen(c) => SetPc(SetTask(s, PcOf(s, c).child, s.task[PcOf(s, c).child].(listening := true)), c,
                            Closing(PcOf(s, c).child))
    case Resume(c) => SetPc(SetTask(s, PcOf(s, c).child, Wake(s.task[PcOf(s, c).child])), c, Closing(PcOf(s, c).child))
    case Detach(c) => SetPc(SetTask(s, PcOf(s, c).child, Wake(s.task[PcOf(s, c).child].(tracer := None))), c, Idle)
    case Look(c) =>
      var p := PcOf(s, c).child;
      SetPc(s, c, if s.task[p].run == Frozen then Thawing(p, s.task[p].listening) else Idle)
    case Thaw(c) =>
      var p := PcOf(s, c).child;
      SetPc(SetTask(s, p, Written(s.task[p])), c, Idle)
  }

  /** The locked part of ptrace_unfreeze_traced, whatever the state has become. */
  function Written(t: Tracee): Tracee {
    if t.kill then Wake(t) else t.(run := Traced)
  }

  // ---------- what every step keeps ----------

  /** A frozen tracee is in a request of its own tracer, no tracee with SIGKILL pending is asleep killably, and
      only a stopped tracee is asleep or listening. */
  ghost predicate TaskOk(s: State, p: Tid) {
    p in s.task ==>
      && (s.task[p].run == Frozen ==> s.task[p].tracer.Some? && InRequest(s, s.task[p].tracer.value, p))
      && (s.task[p].run == Traced && s.task[p].inactive ==> !s.task[p].kill)
      && (s.task[p].inactive || s.task[p].listening ==> s.task[p].run == Traced || s.task[p].run == Frozen)
  }

  /** The child is the caller's tracee, or dead and released. */
  predicate Own(t: Tracee, c: Tid) {
    t.tracer == Some(c) || (t.run == Dead && t.tracer == None)
  }

  /** A caller in a request has that child as its own. A child it froze and waited for is frozen and has scheduled
      out until the request acts on it, and after that if it is frozen; it does not listen before the request makes
      it; and one that was not listening at the look is still frozen. */
  ghost predicate CallerOk(s: State, c: Tid) {
    var pc := PcOf(s, c);
    pc != Idle ==>
      && pc.child in s.task && Own(s.task[pc.child], c)
      && (pc.Settling? && s.task[pc.child].run == Frozen ==> !s.task[pc.child].listening)
      && (pc.Acting? && pc.frozen ==> Asleep(s.task[pc.child]))
      && ((pc.Closing? || pc.Thawing?) && s.task[pc.child].run == Frozen ==> s.task[pc.child].inactive)
      && (pc.Thawing? && !pc.listened ==> Asleep(s.task[pc.child]))
  }

  /** Frozen, scheduled out and not listening: nothing but its tracer wakes it. */
  predicate Asleep(t: Tracee) {
    t.run == Frozen && t.inactive && !t.listening
  }

  /** No two callers are in a request on one child. */
  ghost predicate PairOk(s: State, c: Tid, d: Tid) {
    PcOf(s, c) != Idle && PcOf(s, d) != Idle && PcOf(s, c).child == PcOf(s, d).child ==> c == d
  }

  ghost predicate Inv(s: State) {
    && (forall p {:trigger TaskOk(s, p)} :: TaskOk(s, p))
    && (forall c {:trigger CallerOk(s, c)} :: CallerOk(s, c))
    && (forall c, d {:trigger PairOk(s, c, d)} :: PairOk(s, c, d))
  }

  ghost predicate Init(s: State) {
    s.pc == map[] && forall p :: p in s.task ==> s.task[p] == Tracee(Running, false, false, false, None)
  }

  lemma {:induction false} InitInv(s: State)
    requires Init(s)
    ensures Inv(s)
  {
    forall p ensures TaskOk(s, p) { }
    forall c ensures CallerOk(s, c) { }
    forall c, d ensures PairOk(s, c, d) { }
  }

  /** The step is the tracee's own or comes from outside, not a tracer's in its request. */
  predicate OfTracee(a: Action) {
    a.Attach? || a.Stop? || a.Sleep? || a.Abort? || a.Notify? || a.Kill? || a.Exit? || a.Reap? || a.Quit?
  }

  lemma {:induction false} KeepTracee(s: State, a: Action)
    requires Inv(s) && Enabled(s, a) && OfTracee(a)
    ensures Inv(Do(s, a))
  {
    var s' := Do(s, a);
    forall p ensures TaskOk(s', p) { assert TaskOk(s, p); }
    forall c ensures CallerOk(s', c) { assert CallerOk(s, c); }
    forall c, d ensures PairOk(s', c, d) { assert PairOk(s, c, d); }
  }

  lemma {:induction false} KeepCaller(s: State, a: Action)
    requires Inv(s) && Enabled(s, a) && !OfTracee(a)
    ensures Inv(Do(s, a))
  {
    var s' := Do(s, a);
    assert CallerOk(s, a.c);
    if PcOf(s, a.c) != Idle { assert TaskOk(s, PcOf(s, a.c).child); }
    forall p ensures TaskOk(s', p) { assert TaskOk(s, p); }
    forall c ensures CallerOk(s', c) { assert CallerOk(s, c) && PairOk(s, c, a.c); }
    forall c, d ensures PairOk(s', c, d) { assert PairOk(s, c, d) && CallerOk(s, c) && CallerOk(s, d); }
  }

  /** Every step of every task keeps the invariant, also one that writes over a tracee that is no longer frozen. */
  lemma {:induction false} Keep(s: State, a: Action)
    requires Inv(s) && Enabled(s, a)
    ensures Inv(Do(s, a))
  {
    hide Inv, Enabled, Do, OfTracee;
    if OfTracee(a) { KeepTracee(s, a); } else { KeepCaller(s, a); }
  }

  // ---------- runs ----------

  /** Any interleaving of tracers, tracees and signals from an initial state. */
  ghost predicate IsRun(run: seq<State>, acts: seq<Action>) {
    && |run| == |acts| + 1 && Init(run[0])
    && forall i :: 0 <= i < |acts| ==> Enabled(run[i], acts[i]) && run[i + 1] == Do(run[i], acts[i])
  }

  lemma {:induction false} RunInv(run: seq<State>, acts: seq<Action>, i: nat)
    requires IsRun(run, acts) && i < |run|
    ensures Inv(run[i])
  {
    hide Inv, Enabled, Do, Init;
    if i == 0 {
      InitInv(run[0]);
    } else {
      RunInv(run, acts, i - 1);
      Keep(run[i - 1], acts[i - 1]);
    }
  }

  /** In every run: a tracee is frozen only inside a request of its own tracer, no other task is in a request on
      it then, and a tracee with SIGKILL pending is never asleep killably. */
  lemma {:induction false} FrozenOnlyInRequest(run: seq<State>, acts: seq<Action>, i: nat, p: Tid)
    requires IsRun(run, acts) && i < |run| && p in run[i].task
    ensures var s, t := run[i], run[i].task[p];
            && (t.run == Frozen ==>
                  && t.tracer.Some? && InRequest(s, t.tracer.value, p)
                  && forall c: Tid | PcOf(s, c) != Idle && PcOf(s, c).child == p :: t.tracer == Some(c))
            && (t.run == Traced && t.inactive ==> !t.kill)
  {
    RunInv(run, acts, i);
    var s := run[i];
    assert TaskOk(s, p);
    forall c: Tid | PcOf(s, c) != Idle && PcOf(s, c).child == p
      ensures s.task[p].run == Frozen ==> s.task[p].tracer == Some(c) {
      assert CallerOk(s, c);
    }
  }

  /** In every run: while a tracer acts on a child it froze, the child is its tracee and is not executing,
      whatever signals and events arrive. */
  lemma {:induction false} NotExecuting(run: seq<State>, acts: seq<Action>, i: nat, c: Tid, p: Tid)
    requires IsRun(run, acts) && i < |run| && PcOf(run[i], c) == Acting(p, true)
    ensures p in run[i].task && Asleep(run[i].task[p]) && run[i].task[p].tracer == Some(c)
  {
    RunInv(run, acts, i);
    assert CallerOk(run[i], c);
  }

  // ---------- a whole request ----------

  /** One step of anybody: a caller inside a request stays with its child; a request ends in one of four ways. */
  lemma {:induction false} CallerStep(s: State, a: Action, c: Tid)
    requires Enabled(s, a) && PcOf(s, c) != Idle
    ensures PcOf(Do(s, a), c) != Idle ==> PcOf(Do(s, a), c).child == PcOf(s, c).child
    ensures PcOf(Do(s, a), c) == Idle ==> a == Abandon(c) || a == Detach(c) || a == Look(c) || a == Thaw(c)
  {
  }

  lemma {:induction false} SameChild(run: seq<State>, acts: seq<Action>, i: nat, j: nat, c: Tid)
    requires IsRun(run, acts) && i <= j < |run| && forall k :: i <= k <= j ==> PcOf(run[k], c) != Idle
    ensures PcOf(run[j], c).child == PcOf(run[i], c).child
    decreases j - i
  {
    hide Enabled, Do, Init;
    if i < j {
      CallerStep(run[i], acts[i], c);
      SameChild(run, acts, i + 1, j, c);
    }
  }

  /** The child has not been made to listen in this request. */
  ghost predicate Unheard(s: State, c: Tid) {
    var pc := PcOf(s, c);
    pc != Idle ==>
      && pc.child in s.task && (s.task[pc.child].run == Frozen ==> !s.task[pc.child].listening)
      && (pc.Thawing? ==> !pc.listened)
  }

  lemma {:induction false} UnheardStep(s: State, a: Action, c: Tid)
    requires Inv(s) && Enabled(s, a) && PcOf(s, c) != Idle && Unheard(s, c) && a != Listen(c)
    ensures Unheard(Do(s, a), c)
  {
    assert CallerOk(s, c);
    if !OfTracee(a) {
      assert PairOk(s, c, a.c) && CallerOk(s, a.c);
      if a.c != c && a.Check? { assert TaskOk(s, a.p); }
    }
  }

  lemma {:induction false} UnheardRun(run: seq<State>, acts: seq<Action>, i: nat, j: nat, c: Tid)
    requires IsRun(run, acts) && i <= j < |run| && forall k :: i <= k <= j ==> PcOf(run[k], c) != Idle
    requires Unheard(run[i], c) && forall k :: i <= k < j ==> acts[k] != Listen(c)
    ensures Unheard(run[j], c)
    decreases j - i
  {
    hide Inv, Enabled, Do, Init, Unheard;
    if i < j {
      RunInv(run, acts, i);
      UnheardStep(run[i], acts[i], c);
      UnheardRun(run, acts, i + 1, j, c);
    }
  }

  /** How the last step of a request leaves its child, which was in state `was` before it. */
  ghost predicate Thawed(a: Action, c: Tid, was: Tracee, t: Tracee) {
    && t.run != Frozen && (t.run == Traced && t.inactive ==> !t.kill)
    && match a
       case Abandon(d) => d == c && t == was
       case Detach(d) => d == c && t.tracer == None && t.run == Running
       case Look(d) => d == c && t == was
       case Thaw(d) =>
         && d == c && (was.run == Frozen ==>
              t.tracer == Some(c) && if was.kill then t.run == Running else t.run == Traced && t.inactive)
       case _ => false
  }

  lemma {:induction false} EndThaws(s: State, a: Action, c: Tid)
    requires Inv(s) && Enabled(s, a) && PcOf(s, c) != Idle && PcOf(Do(s, a), c) == Idle
    ensures var p := PcOf(s, c).child; p in s.task && p in Do(s, a).task && Thawed(a, c, s.task[p], Do(s, a).task[p])
  {
    CallerStep(s, a, c);
    Keep(s, a);
    var p := PcOf(s, c).child;
    assert CallerOk(s, c) && TaskOk(s, p) && TaskOk(Do(s, a), p);
  }

  /** In every run: from the step that freezes a tracee on, for as long as the request lasts, it is the same child,
      and the tracer's own unless it is dead and released. The request ends by giving up, detaching, finding the
      child awake or unfreezing it, and then it is not frozen; detached, it runs untraced; unfrozen, it is awake if
      SIGKILL is pending and asleep killably if not. Unless the request was PTRACE_LISTEN, unfreezing finds it
      frozen and asleep. */
  lemma {:induction false} EveryPathThaws(run: seq<State>, acts: seq<Action>, i: nat, j: nat, c: Tid, p: Tid)
    requires IsRun(run, acts) && i + 1 < j < |run| && acts[i] == Check(c, p) && PcOf(run[i + 1], c) == Settling(p)
    requires PcOf(run[i], c) == Idle && (forall k :: i < k < j ==> PcOf(run[k], c) != Idle) && PcOf(run[j], c) == Idle
    ensures forall k :: i < k < j ==> PcOf(run[k], c).child == p && p in run[k].task && Own(run[k].task[p], c)
    ensures p in run[j].task && Thawed(acts[j - 1], c, run[j - 1].task[p], run[j].task[p])
    ensures acts[j - 1] == Thaw(c) && (forall k :: i < k < j ==> acts[k] != Listen(c)) ==> Asleep(run[j - 1].task[p])
  {
    hide Enabled, Do, Init, Inv, Thawed, Asleep;
    forall k | i < k < j ensures PcOf(run[k], c).child == p && p in run[k].task && Own(run[k].task[p], c) {
      SameChild(run, acts, i + 1, k, c);
      RunInv(run, acts, k);
      OwnChild(run[k], c);
    }
    RunInv(run, acts, j - 1);
    EndThaws(run[j - 1], acts[j - 1], c);
    if acts[j - 1] == Thaw(c) && forall k :: i < k < j ==> acts[k] != Listen(c) {
      RunInv(run, acts, i + 1);
      FreshUnheard(run[i + 1], c);
      UnheardRun(run, acts, i + 1, j - 1, c);
      ThawsAsleep(run[j - 1], c);
    }
  }

  lemma {:induction false} OwnChild(s: State, c: Tid)
    requires Inv(s) && PcOf(s, c) != Idle
    ensures PcOf(s, c).child in s.task && Own(s.task[PcOf(s, c).child], c)
  {
    assert CallerOk(s, c);
  }

  lemma {:induction false} FreshUnheard(s: State, c: Tid)
    requires Inv(s) && PcOf(s, c).Settling?
    ensures Unheard(s, c)
  {
    assert CallerOk(s, c);
  }

  lemma {:induction false} ThawsAsleep(s: State, c: Tid)
    requires Inv(s) && Enabled(s, Thaw(c)) && Unheard(s, c)
    ensures Asleep(s.task[PcOf(s, c).child])
  {
    assert CallerOk(s, c);
  }

  /** The warnings in ptrace_check_attach are never given, nor that in ptrace_unfreeze_traced if the child was not
      listening when it was looked at. */
  lemma {:induction false} NoWarning(run: seq<State>, acts: seq<Action>, i: nat, c: Tid, p: Tid)
    requires IsRun(run, acts) && i < |run| && p in run[i].task
    ensures PcOf(run[i], c) == Idle && run[i].task[p].tracer == Some(c) ==> run[i].task[p].run != Frozen
    ensures PcOf(run[i], c) == Failing(p) ==> run[i].task[p].run != Frozen
    ensures PcOf(run[i], c) == Thawing(p, false) ==> run[i].task[p].tracer == Some(c)
  {
    RunInv(run, acts, i);
    assert TaskOk(run[i], p) && CallerOk(run[i], c);
  }

  // ---------- nobody is stuck ----------

  /** In every run: a caller in a request can always take its next step, unless the child that it has frozen has yet
      to schedule out; then the child can, and after that the caller. */
  lemma {:induction false} NeverStuck(run: seq<State>, acts: seq<Action>, i: nat, c: Tid)
    requires IsRun(run, acts) && i < |run|
    ensures var s := run[i];
            match PcOf(s, c)
            case Idle => true
            case Settling(p) =>
              Enabled(s, Settle(c)) || (Enabled(s, Sleep(p)) && Enabled(Do(s, Sleep(p)), Settle(c)))
            case Acting(_, frozen) =>
              && Enabled(s, Act(c)) && Enabled(s, Resume(c))
                 && (frozen ==> Enabled(s, Listen(c)) && Enabled(s, Detach(c)))
            case Failing(_) => Enabled(s, Abandon(c))
            case Closing(_) => Enabled(s, Look(c))
            case Thawing(_, _) => Enabled(s, Thaw(c))
  {
    RunInv(run, acts, i);
    assert CallerOk(run[i], c);
  }

  /** SIGKILL can come at any moment, and nothing but the stop itself keeps a tracee from running on, dying and being
      released. */
  lemma {:induction false} AtAnyMoment(s: State, p: Tid)
    requires p in s.task
    ensures Enabled(s, Kill(p)) && Do(s, Kill(p)).task[p].kill
    ensures match s.task[p].run
            case Running => Enabled(s, Exit(p)) && (s.task[p].tracer.Some? <==> Enabled(s, Stop(p)))
            case Traced => Enabled(s, Sleep(p)) <==> !s.task[p].inactive && !s.task[p].kill
            case Frozen => Enabled(s, Sleep(p)) <==> !s.task[p].inactive
            case Dead => Enabled(s, Reap(p))
    ensures s.task[p].run == Traced || s.task[p].run == Frozen ==>
              && (Enabled(s, Abort(p)) <==> !s.task[p].inactive) && (Enabled(s, Notify(p)) <==> s.task[p].listening)
    ensures Do(s, Kill(p)).task[p].run == if s.task[p].run == Traced then Running else s.task[p].run
  {
  }

  /** The child is frozen exactly if it is the caller's tracee, stopped, not listening and not being killed;
      otherwise nothing happens. */
  lemma {:induction false} FreezesExactly(s: State, c: Tid, p: Tid)
    requires PcOf(s, c) == Idle && p in s.task
    ensures Enabled(s, Check(c, p))
    ensures var t := s.task[p];
            Do(s, Check(c, p)) == if t.tracer == Some(c) && t.run == Traced && !t.listening && !t.kill
                                  then SetPc(SetTask(s, p, t.(run := Frozen)), c, Settling(p)) else s
  {
  }

  /** Actions one after the other from any state. */
  ghost predicate Steps(run: seq<State>, acts: seq<Action>) {
    && |run| == |acts| + 1
    && forall i :: 0 <= i < |acts| ==> Enabled(run[i], acts[i]) && run[i + 1] == Do(run[i], acts[i])
  }

  /** A child that is stopped and asleep, and the caller's own. */
  ghost predicate Ready(s: State, c: Tid, p: Tid) {
    && PcOf(s, c) == Idle && p in s.task && s.task[p].tracer == Some(c) && s.task[p].run == Traced
    && s.task[p].inactive && !s.task[p].listening && !s.task[p].kill
  }

  /** The state with this child and this caller. */
  function At(s: State, p: Tid, t: Tracee, c: Tid, pc: Pc): State {
    State(s.task[p := t], s.pc[c := pc])
  }

  /** What the steps of a request do to a child that is frozen and asleep. */
  lemma {:induction false} RequestStep(s: State, p: Tid, t: Tracee, c: Tid)
    requires Asleep(t)
    ensures var x := At(s, p, t, c, Settling(p)); Enabled(x, Settle(c)) && Do(x, Settle(c)) ==
                                                                           At(s, p, t, c, Acting(p, true))
    ensures var x := At(s, p, t, c, Acting(p, true)); Enabled(x, Act(c)) && Do(x, Act(c)) == At(s, p, t, c, Closing(p))
    ensures var x := At(s, p, t, c, Acting(p, true));
            Enabled(x, Resume(c))
            && Do(x, Resume(c)) == At(s, p, t.(run := Running, inactive := false), c, Closing(p))
  {
    assert s.pc[c := Settling(p)][c := Acting(p, true)] == s.pc[c := Acting(p, true)];
    assert s.pc[c := Acting(p, true)][c := Closing(p)] == s.pc[c := Closing(p)];
  }

  /** And its end. */
  lemma {:induction false} EndStep(s: State, p: Tid, t: Tracee, c: Tid)
    ensures var x := At(s, p, t, c, Closing(p));
            Enabled(x, Look(c)) && Do(x, Look(c)) ==
                                   At(s, p, t, c, if t.run == Frozen then Thawing(p, t.listening) else Idle)
    ensures t.run == Frozen ==>
              var x := At(s, p, t, c, Thawing(p, t.listening));
              var woken := t.(run := Running, inactive := false, listening := false);
              Enabled(x, Thaw(c)) && Do(x, Thaw(c)) == At(s, p, if t.kill then woken else t.(run := Traced), c, Idle)
  {
    assert s.pc[c := Closing(p)][c := Idle] == s.pc[c := Idle];
    assert s.pc[c := Thawing(p, t.listening)][c := Idle] == s.pc[c := Idle];
    assert s.pc[c := Closing(p)][c := Thawing(p, t.listening)] == s.pc[c := Thawing(p, t.listening)];
  }

  lemma {:induction false} FreezeStep(s: State, c: Tid, p: Tid)
    requires Ready(s, c, p)
    ensures Enabled(s, Check(c, p)) && Do(s, Check(c, p)) == At(s, p, s.task[p].(run := Frozen), c, Settling(p))
  {
  }

  lemma {:induction false} KillStep(s: State, c: Tid, p: Tid, t: Tracee, pc: Pc)
    requires t.run == Frozen
    ensures var x := At(s, p, t, c, pc); Enabled(x, Kill(p)) && Do(x, Kill(p)) == At(s, p, t.(kill := true), c, pc)
  {
  }

  /** A request with nothing in between that leaves the child asleep: in the end the child is as it was. */
  lemma {:induction false} RequestAlone(s: State, c: Tid, p: Tid) returns (run: seq<State>)
    requires Ready(s, c, p)
    ensures Steps(run, [Check(c, p), Settle(c), Act(c), Look(c), Thaw(c)]) && run[0] == s
    ensures run[5] == SetPc(s, c, Idle)
  {
    var t := s.task[p].(run := Frozen);
    FreezeStep(s, c, p);
    hide Enabled, Do, At;
    RequestStep(s, p, t, c);
    EndStep(s, p, t, c);
    run := [s, At(s, p, t, c, Settling(p)), At(s, p, t, c, Acting(p, true)), At(s, p, t, c, Closing(p)),
            At(s, p, t, c, Thawing(p, false)), At(s, p, s.task[p], c, Idle)];
    AsBefore(s, c, p);
  }

  lemma {:induction false} AsBefore(s: State, c: Tid, p: Tid)
    requires p in s.task
    ensures At(s, p, s.task[p], c, Idle) == SetPc(s, c, Idle)
  {
    assert s.task[p := s.task[p]] == s.task;
  }

  /** One with SIGKILL while the child is frozen: the child stays asleep for the request and runs after it. */
  lemma {:induction false} KilledMeanwhile(s: State, c: Tid, p: Tid) returns (run: seq<State>)
    requires Ready(s, c, p)
    ensures Steps(run, [Check(c, p), Kill(p), Settle(c), Act(c), Look(c), Thaw(c)]) && run[0] == s
    ensures run[5] == At(s, p, s.task[p].(run := Frozen, kill := true), c, Thawing(p, false))
    ensures run[6] == At(s, p, s.task[p].(run := Running, inactive := false, kill := true), c, Idle)
  {
    var t := s.task[p].(run := Frozen);
    var k := t.(kill := true);
    FreezeStep(s, c, p);
    hide Enabled, Do, At;
    KillStep(s, c, p, t, Settling(p));
    RequestStep(s, p, k, c);
    EndStep(s, p, k, c);
    run := [s, At(s, p, t, c, Settling(p)), At(s, p, k, c, Settling(p)), At(s, p, k, c, Acting(p, true)),
            At(s, p, k, c, Closing(p)), At(s, p, k, c, Thawing(p, false)),
            At(s, p, k.(run := Running, inactive := false), c, Idle)];
  }

  /** And one that wakes the child: the child runs, and unfreezing leaves it alone. */
  lemma {:induction false} ResumeAlone(s: State, c: Tid, p: Tid) returns (run: seq<State>)
    requires Ready(s, c, p)
    ensures Steps(run, [Check(c, p), Settle(c), Resume(c), Look(c)]) && run[0] == s
    ensures run[4] == At(s, p, s.task[p].(run := Running, inactive := false), c, Idle)
  {
    var t := s.task[p].(run := Frozen);
    var u := t.(run := Running, inactive := false);
    FreezeStep(s, c, p);
    hide Enabled, Do, At;
    RequestStep(s, p, t, c);
    EndStep(s, p, u, c);
    run := [s, At(s, p, t, c, Settling(p)), At(s, p, t, c, Acting(p, true)), At(s, p, u, c, Closing(p)),
            At(s, p, u, c, Idle)];
  }

  // ---------- where unfreezing goes wrong ----------

  /** A caller that comes to write finds its child frozen and asleep. */
  ghost predicate FindsFrozen(s: State, c: Tid) {
    var pc := PcOf(s, c);
    pc.Thawing? ==> pc.child in s.task && s.task[pc.child].run == Frozen && s.task[pc.child].inactive
  }

  /** The warning between the look and the write is not given. */
  ghost predicate Unwarned(s: State, c: Tid) {
    var pc := PcOf(s, c);
    pc.Thawing? ==> pc.child in s.task && s.task[pc.child].tracer == Some(c)
  }

  lemma {:induction false} Extend(run: seq<State>, acts: seq<Action>, a: Action, r: State)
    returns (run': seq<State>, acts': seq<Action>)
    requires IsRun(run, acts) && Enabled(run[|acts|], a) && Do(run[|acts|], a) == r
    ensures IsRun(run', acts') && run' == run + [r] && acts' == acts + [a]
  {
    hide Init, Enabled, Do;
    run', acts' := run + [r], acts + [a];
    assert forall i :: 0 <= i < |run| ==> run'[i] == run[i];
    assert forall i :: 0 <= i < |acts| ==> acts'[i] == acts[i];
  }

  /** Task 1 has frozen its tracee 0, which is stopped and asleep. */
  lemma {:induction false} FrozenOnce() returns (run: seq<State>, acts: seq<Action>)
    ensures IsRun(run, acts) && |acts| == 4
    ensures run[4] == State(map[0 := Tracee(Frozen, true, false, false, Some(1))], map[1 := Settling(0)])
  {
    var s0 := State(map[0 := Tracee(Running, false, false, false, None)], map[]);
    var s1 := State(map[0 := Tracee(Running, false, false, false, Some(1))], map[]);
    var s2 := State(map[0 := Tracee(Traced, false, false, false, Some(1))], map[]);
    var s3 := State(map[0 := Tracee(Traced, true, false, false, Some(1))], map[]);
    var s4 := State(map[0 := Tracee(Frozen, true, false, false, Some(1))], map[1 := Settling(0)]);
    assert Do(s0, Attach(1, 0)) == s1 && Do(s1, Stop(0)) == s2 && Do(s2, Sleep(0)) == s3 && Do(s3, Check(1, 0)) == s4;
    run, acts := [s0], [];
    run, acts := Extend(run, acts, Attach(1, 0), s1);
    run, acts := Extend(run, acts, Stop(0), s2);
    run, acts := Extend(run, acts, Sleep(0), s3);
    run, acts := Extend(run, acts, Check(1, 0), s4);
  }

  /** It has made the tracee listen and seen that it is frozen. */
  lemma {:induction false} LookedAtListener() returns (run: seq<State>, acts: seq<Action>)
    ensures IsRun(run, acts) && |acts| == 7
    ensures run[7] == State(map[0 := Tracee(Frozen, true, false, true, Some(1))], map[1 := Thawing(0, true)])
  {
    var s4 := State(map[0 := Tracee(Frozen, true, false, false, Some(1))], map[1 := Settling(0)]);
    var s5 := State(map[0 := Tracee(Frozen, true, false, false, Some(1))], map[1 := Acting(0, true)]);
    var s6 := State(map[0 := Tracee(Frozen, true, false, true, Some(1))], map[1 := Closing(0)]);
    var s7 := State(map[0 := Tracee(Frozen, true, false, true, Some(1))], map[1 := Thawing(0, true)]);
    assert Do(s4, Settle(1)) == s5 && Do(s5, Listen(1)) == s6 && Do(s6, Look(1)) == s7;
    run, acts := FrozenOnce();
    run, acts := Extend(run, acts, Settle(1), s5);
    run, acts := Extend(run, acts, Listen(1), s6);
    run, acts := Extend(run, acts, Look(1), s7);
  }

  /** A tracee under PTRACE_LISTEN is woken by an event between the look and the write, which then puts a running
      task into TASK_TRACED. */
  lemma {:induction false} WokenMeanwhile() returns (run: seq<State>, acts: seq<Action>)
    ensures IsRun(run, acts) && |acts| == 9 && acts[8] == Thaw(1)
    ensures PcOf(run[8], 1) == Thawing(0, true) && run[8].task ==
            map[0 := Tracee(Running, false, false, false, Some(1))]
    ensures run[9].task == map[0 := Tracee(Traced, false, false, false, Some(1))]
  {
    var s7 := State(map[0 := Tracee(Frozen, true, false, true, Some(1))], map[1 := Thawing(0, true)]);
    var s8 := State(map[0 := Tracee(Running, false, false, false, Some(1))], map[1 := Thawing(0, true)]);
    var s9 := State(map[0 := Tracee(Traced, false, false, false, Some(1))], map[1 := Idle]);
    assert Do(s7, Notify(0)) == s8 && Do(s8, Thaw(1)) == s9;
    run, acts := LookedAtListener();
    run, acts := Extend(run, acts, Notify(0), s8);
    run, acts := Extend(run, acts, Thaw(1), s9);
  }

  /** The woken tracee dies and is released before the warning is evaluated. */
  lemma {:induction false} GoneMeanwhile() returns (run: seq<State>, acts: seq<Action>)
    ensures IsRun(run, acts) && |acts| == 10
    ensures run[10] == State(map[0 := Tracee(Dead, false, false, false, None)], map[1 := Thawing(0, true)])
  {
    var s7 := State(map[0 := Tracee(Frozen, true, false, true, Some(1))], map[1 := Thawing(0, true)]);
    var s8 := State(map[0 := Tracee(Running, false, false, false, Some(1))], map[1 := Thawing(0, true)]);
    var s9 := State(map[0 := Tracee(Dead, false, false, false, Some(1))], map[1 := Thawing(0, true)]);
    var s10 := State(map[0 := Tracee(Dead, false, false, false, None)], map[1 := Thawing(0, true)]);
    assert Do(s7, Notify(0)) == s8 && Do(s8, Exit(0)) == s9 && Do(s9, Reap(0)) == s10;
    run, acts := LookedAtListener();
    run, acts := Extend(run, acts, Notify(0), s8);
    run, acts := Extend(run, acts, Exit(0), s9);
    run, acts := Extend(run, acts, Reap(0), s10);
  }

  /** A caller is about to write, and its child was listening at the look, or was not. */
  ghost predicate AboutToThaw(run: seq<State>, acts: seq<Action>, i: nat, c: Tid, listened: bool) {
    IsRun(run, acts) && i < |run| && PcOf(run[i], c).Thawing? && PcOf(run[i], c).listened == listened
  }

  /** In every run the write finds the child frozen and asleep, if and only if the child was not listening at the
      look. The same holds of the warning staying away. */
  lemma {:induction false} ThawExactly(listened: bool)
    ensures !listened <==> forall run, acts, i: nat, c :: AboutToThaw(run, acts, i, c, listened) ==>
              FindsFrozen(run[i], c)
    ensures !listened <==> forall run, acts, i: nat, c :: AboutToThaw(run, acts, i, c, listened) ==> Unwarned(run[i], c)
  {
    if !listened {
      forall run, acts, i: nat, c | AboutToThaw(run, acts, i, c, listened)
        ensures FindsFrozen(run[i], c) && Unwarned(run[i], c) {
        RunInv(run, acts, i);
        assert CallerOk(run[i], c);
      }
    } else {
      var run, acts := WokenMeanwhile();
      assert AboutToThaw(run, acts, 8, 1, true) && !FindsFrozen(run[8], 1);
      run, acts := GoneMeanwhile();
      assert AboutToThaw(run, acts, 10, 1, true) && !Unwarned(run[10], 1);
    }
  }
}
