/** Who traces whom: linking and unlinking tracees, under the tasklist lock. */
module PtraceLink {
  import opened Errors
  import opened Areas

  type Tid = nat

  datatype ExitState = Alive | Zombie | Released

  /** PF_EXITING, past exit_ptrace, PF_KTHREAD, leader of its thread group, without other threads in its group,
      SIGKILL pending. */
  datatype Mark = Exiting | Past | KernelThread | Leader | Alone | Killed

  /** What linking looks at in a task. `flags` is task->ptrace, 0 when it is not traced; `cred` the credential
      of its tracer; `group` its thread group. */
  datatype Task = Task(flags: nat, parent: Tid, realParent: Tid, ptraced: seq<Tid>, cred: Option<Tid>, exit: ExitState,
                       group: nat, marks: set<Mark>)

  const SIGNALS: nat := 64
  const PT_PTRACED: nat := 1
  const PT_SEIZED: nat := 0x10000
  const PT_EXITKILL: nat := 0x10_0000 * 8
  const PTRACE_O_EXITKILL: nat := 0x10_0000

  /** Parents are known tasks; a traced task is on its parent's list, once, and holds the tracer's credential;
      a task that is not traced is with its real parent and on no list. */
  ghost predicate TaskOk(task: map<Tid, Task>, p: Tid)
    requires p in task
  {
    var t := task[p];
    && t.parent in task && t.realParent in task && (t.realParent == p ==> KernelThread in t.marks)
    && (t.flags != 0 <==> p in task[t.parent].ptraced)
    && (t.flags != 0 ==> t.cred == Some(t.parent))
    && (t.flags == 0 ==> t.parent == t.realParent && t.cred == None)
  }

  /** Every entry of a tracer's list is another task, whose parent it is; no entry comes twice. */
  ghost predicate ListOk(task: map<Tid, Task>, c: Tid)
    requires c in task
  {
    var l := task[c].ptraced;
    && (forall i :: 0 <= i < |l| ==> l[i] in task && task[l[i]].parent == c && task[l[i]].flags != 0 && l[i] != c)
    && (forall i, j :: 0 <= i < j < |l| ==> l[i] != l[j])
  }

  /** The tasks that hold a credential of c. */
  ghost function Holders(task: map<Tid, Task>, c: Tid): set<Tid> {
    set p | p in task && task[p].cred == Some(c)
  }

  ghost predicate CredOk(task: map<Tid, Task>, credRefs: map<Tid, nat>, c: Tid) {
    (if c in credRefs then credRefs[c] else 0) == |Holders(task, c)|
  }

  ghost predicate Linked(task: map<Tid, Task>, credRefs: map<Tid, nat>) {
    && (forall p {:trigger TaskOk(task, p)} :: p in task ==> TaskOk(task, p))
    && (forall c {:trigger ListOk(task, c)} :: c in task ==> ListOk(task, c))
    && (forall c {:trigger CredOk(task, credRefs, c)} :: CredOk(task, credRefs, c))
  }

  /** Where p stands in a list. */
  function Position(l: seq<Tid>, p: Tid): (i: nat)
    requires p in l
    ensures i < |l| && l[i] == p
  {
    if l[0] == p then 0 else 1 + Position(l[1..], p)
  }

  /** list_del */
  function Remove(l: seq<Tid>, p: Tid): seq<Tid>
    requires p in l
  {
    var i := Position(l, p);
    l[..i] + l[i + 1..]
  }

  lemma {:induction false} RemoveHas(l: seq<Tid>, p: Tid)
    requires p in l && forall i, j :: 0 <= i < j < |l| ==> l[i] != l[j]
    ensures forall q :: q in Remove(l, p) <==> q in l && q != p
    ensures forall i, j :: 0 <= i < j < |Remove(l, p)| ==> Remove(l, p)[i] != Remove(l, p)[j]
  {
    var i, r := Position(l, p), Remove(l, p);
    forall q | q in l && q != p ensures q in r {
      var j :| 0 <= j < |l| && l[j] == q;
      assert r[if j < i then j else j - 1] == q;
    }
  }

  function Bump(refs: map<Tid, nat>, c: Tid, d: int): map<Tid, nat>
    requires d >= 0 || (c in refs && refs[c] + d >= 0)
  {
    refs[c := (if c in refs then refs[c] else 0) + d]
  }

  // ---------- __ptrace_link and __ptrace_unlink on the tasks ----------

  /** The tasks after p was linked to tracer c with these flags. */
  function LinkedTo(task: map<Tid, Task>, p: Tid, c: Tid, flags: nat): map<Tid, Task>
    requires p in task && c in task
  {
    var t := task[c := task[c].(ptraced := [p] + task[c].ptraced)];
    t[p := t[p].(flags := flags, parent := c, cred := Some(c))]
  }

  /** The tasks after p was unlinked. */
  function Unlinked(task: map<Tid, Task>, p: Tid): map<Tid, Task>
    requires p in task && task[p].parent in task && p in task[task[p].parent].ptraced
  {
    var c := task[p].parent;
    var t := task[c := task[c].(ptraced := Remove(task[c].ptraced, p))];
    t[p := t[p].(flags := 0, parent := t[p].realParent, cred := None)]
  }

  lemma {:induction false} LinkTask(task: map<Tid, Task>, p: Tid, c: Tid, flags: nat, q: Tid)
    requires p in task && c in task && q in task && flags != 0 && TaskOk(task, q)
    requires task[q].parent == c && q != p && q in task[c].ptraced ==> task[q].flags != 0
    ensures TaskOk(LinkedTo(task, p, c, flags), q)
  {
  }

  lemma {:induction false} LinkList(task: map<Tid, Task>, p: Tid, c: Tid, flags: nat, d: Tid)
    requires p in task && c in task && d in task && flags != 0 && ListOk(task, d) && task[p].flags == 0 && p != c
    ensures ListOk(LinkedTo(task, p, c, flags), d)
  {
    var l := task[d].ptraced;
    assert forall i :: 0 <= i < |l| ==> l[i] != p;
    if d == c { assert forall i :: 0 < i < |[p] + l| ==> ([p] + l)[i] == l[i - 1]; }
  }

  lemma {:induction false} HoldersLinked(task: map<Tid, Task>, p: Tid, c: Tid, flags: nat, d: Tid)
    requires p in task && c in task && task[p].cred == None
    ensures p !in Holders(task, d)
    ensures Holders(LinkedTo(task, p, c, flags), d) == if d == c then Holders(task, c) + {p} else Holders(task, d)
  {
    var t := LinkedTo(task, p, c, flags);
    forall q ensures q in Holders(t, d) <==> q in Holders(task, d) || (q == p && d == c) {
    }
  }

  lemma {:induction false} LinkCred(task: map<Tid, Task>, refs: map<Tid, nat>, p: Tid, c: Tid, flags: nat, d: Tid)
    requires p in task && c in task && task[p].cred == None && CredOk(task, refs, d)
    ensures CredOk(LinkedTo(task, p, c, flags), Bump(refs, c, 1), d)
  {
    hide Holders, LinkedTo;
    HoldersLinked(task, p, c, flags, d);
  }

  lemma {:induction false} LinkKeeps(task: map<Tid, Task>, refs: map<Tid, nat>, p: Tid, c: Tid, flags: nat)
    requires Linked(task, refs) && p in task && c in task && task[p].flags == 0 && flags != 0 && p != c
    ensures Linked(LinkedTo(task, p, c, flags), Bump(refs, c, 1))
  {
    hide ListOk, CredOk, Bump;
    var t := LinkedTo(task, p, c, flags);
    assert TaskOk(task, p);
    forall q | q in t ensures TaskOk(t, q) {
      assert TaskOk(task, q);
      LinkTask(task, p, c, flags, q);
    }
    forall d | d in t ensures ListOk(t, d) {
      assert ListOk(task, d);
      LinkList(task, p, c, flags, d);
    }
    forall d ensures CredOk(t, Bump(refs, c, 1), d) {
      assert CredOk(task, refs, d);
      LinkCred(task, refs, p, c, flags, d);
    }
  }

  lemma {:induction false} UnlinkTask(task: map<Tid, Task>, p: Tid, q: Tid)
    requires p in task && q in task && TaskOk(task, p) && TaskOk(task, q) && task[p].flags != 0
             && ListOk(task, task[p].parent)
    requires ListOk(task, task[p].realParent)
    ensures TaskOk(Unlinked(task, p), q)
  {
    RemoveHas(task[task[p].parent].ptraced, p);
  }

  lemma {:induction false} UnlinkList(task: map<Tid, Task>, p: Tid, d: Tid)
    requires p in task && d in task && TaskOk(task, p) && task[p].flags != 0 && ListOk(task, task[p].parent)
             && ListOk(task, d)
    ensures ListOk(Unlinked(task, p), d)
  {
    var c := task[p].parent;
    RemoveHas(task[c].ptraced, p);
    var l := Unlinked(task, p)[d].ptraced;
    forall i | 0 <= i < |l| ensures l[i] != p && l[i] in task[d].ptraced { assert l[i] in l; }
  }

  lemma {:induction false} UnlinkCred(task: map<Tid, Task>, refs: map<Tid, nat>, p: Tid, d: Tid)
    requires p in task && TaskOk(task, p) && task[p].flags != 0 && CredOk(task, refs, d)
             && CredOk(task, refs, task[p].parent)
    ensures task[p].parent in refs && refs[task[p].parent] > 0
    ensures CredOk(Unlinked(task, p), Bump(refs, task[p].parent, -1), d)
  {
    var c, t := task[p].parent, Unlinked(task, p);
    assert p in Holders(task, c);
    assert Holders(t, d) == if d == c then Holders(task, c) - {p} else Holders(task, d);
  }

  lemma {:induction false} UnlinkKeeps(task: map<Tid, Task>, refs: map<Tid, nat>, p: Tid)
    requires Linked(task, refs) && p in task && task[p].flags != 0
    ensures TaskOk(task, p) && task[p].parent in refs && refs[task[p].parent] > 0
    ensures Linked(Unlinked(task, p), Bump(refs, task[p].parent, -1))
  {
    hide ListOk, CredOk, Bump, Remove;
    assert TaskOk(task, p);
    var c := task[p].parent;
    assert ListOk(task, c) && ListOk(task, task[p].realParent) && CredOk(task, refs, c);
    var t := Unlinked(task, p);
    forall q | q in t ensures TaskOk(t, q) {
      assert TaskOk(task, q);
      UnlinkTask(task, p, q);
    }
    forall d | d in t ensures ListOk(t, d) {
      assert ListOk(task, d);
      UnlinkList(task, p, d);
    }
    UnlinkCred(task, refs, p, c);
    forall d ensures CredOk(t, Bump(refs, c, -1), d) {
      assert CredOk(task, refs, d);
      UnlinkCred(task, refs, p, d);
    }
  }

  /** A task is traced exactly when it is on a list, and that list is its parent's. */
  lemma {:induction false} OnOneList(task: map<Tid, Task>, refs: map<Tid, nat>, p: Tid, c: Tid)
    requires Linked(task, refs) && p in task && c in task
    ensures p in task[c].ptraced <==> task[p].flags != 0 && task[p].parent == c
    ensures task[p].flags != 0 <==> task[p].cred.Some?
  {
    assert TaskOk(task, p) && ListOk(task, c);
  }

  // ---------- the tasklist ----------

  predicate HasBit(flags: nat, bit: nat)
    requires bit > 0
  {
    flags / bit % 2 == 1
  }

  /** A bit is set when what stands below it and above it leaves exactly it over. */
  lemma {:induction false} BitMeans(above: nat, bit: nat, below: nat)
    requires below < bit
    ensures HasBit(above * (2 * bit) + bit + below, bit) && !HasBit(above * (2 * bit) + below, bit)
  {
    Quotient(above * 2 + 1, bit, below);
    Quotient(above * 2, bit, below);
    assert above * (2 * bit) + bit + below == (above * 2 + 1) * bit + below;
    assert above * (2 * bit) + below == above * 2 * bit + below;
  }

  lemma {:induction false} Quotient(q: nat, d: nat, r: nat)
    requires r < d
    ensures (q * d + r) / d == q
  {
    var n := q * d + r;
    assert n == n / d * d + n % d;
    Within(n / d - q, d);
  }

  lemma {:induction false} Within(k: int, d: int)
    requires -d < k * d < d
    ensures k == 0
  {
    assert k >= 1 ==> k * d >= d;
    assert k <= -1 ==> k * d <= -d;
  }

  /** Within PTRACE_O_MASK: eight options for events, EXITKILL and SUSPEND_SECCOMP. */
  predicate OptionsOk(options: nat) {
    options < 0x40_0000 && options % 0x10_0000 < 0x100
  }

  /** The ptrace flags that ptrace_attach gives. The parts have no bit in common when the options are in the mask. */
  function AttachFlags(seize: bool, options: nat): (flags: nat)
    ensures flags > 0
  {
    PT_PTRACED + if seize then PT_SEIZED + options * 8 else 0
  }

  /** An attached task is traced; seized exactly if that was asked for; and killed when its tracer exits exactly if
      it was seized with that option. */
  lemma {:induction false} AttachedBits(seize: bool, options: nat)
    requires seize ==> OptionsOk(options)
    ensures var flags := AttachFlags(seize, options);
            && HasBit(flags, PT_PTRACED) && (HasBit(flags, PT_SEIZED) <==> seize)
            && (HasBit(flags, PT_EXITKILL) <==> seize && HasBit(options, PTRACE_O_EXITKILL))
            && (seize ==> forall i :: 0 <= i < 8 ==> (HasBit(flags, EVENTS[i] * 8) <==> HasBit(options, EVENTS[i])))
  {
    if seize {
      var high, low := options / 0x10_0000, options % 0x10_0000;
      assert AttachFlags(seize, options) == high * PT_EXITKILL + PT_SEIZED + 8 * low + 1;
      Quotient(high, PT_EXITKILL, PT_SEIZED + 8 * low + 1);
      Quotient(high * 128 + 1, PT_SEIZED, 8 * low + 1);
      forall i | 0 <= i < 8 ensures HasBit(AttachFlags(true, options), EVENTS[i] * 8) <==> HasBit(options, EVENTS[i]) {
        EventBit(options, EVENTS[i], 4096 / EVENTS[i]);
      }
    }
  }

  lemma {:induction false} EventBit(options: nat, b: nat, k: nat)
    requires b > 0 && 2 * k * b == PT_SEIZED / 8
    ensures HasBit(AttachFlags(true, options), b * 8) <==> HasBit(options, b)
  {
    var q, r := options / b, options % b;
    assert options == q * b + r;
    Spread(q, k, b, r);
    assert AttachFlags(true, options) == (q + 2 * k) * (b * 8) + (8 * r + 1);
    hide AttachFlags;
    Quotient(q + 2 * k, b * 8, 8 * r + 1);
  }

  lemma {:induction false} Spread(q: nat, k: nat, b: nat, r: nat)
    ensures (q + 2 * k) * (b * 8) + (8 * r + 1) == 8 * (q * b + r) + 8 * (2 * k * b) + 1
  {
    assert (q + 2 * k) * (b * 8) == 8 * ((q + 2 * k) * b);
    assert (q + 2 * k) * b == q * b + 2 * k * b;
  }

  /** The options for events, one bit each. */
  const EVENTS: seq<nat> := [1, 2, 4, 8, 16, 32, 64, 128]

  /** A zombie that nobody will wait for: a dead thread, or the last of a group whose parent does not care. */
  predicate MustReap(task: map<Tid, Task>, tracer: Tid, p: Tid, notify: set<Tid>, ignoring: bool)
    requires p in task && tracer in task && task[p].realParent in task
  {
    var t := task[p];
    t.exit == Zombie
    && (Leader !in t.marks || (Alone in t.marks && if task[t.realParent].group != task[tracer].group then p in notify
                                                   else ignoring))
  }

  /** Who is reaped on the spot: no task that lives; of the zombies every thread but the leader; no leader of a group
      with other threads left; any other exactly if its parent, told of it or the tracer itself, does not care. */
  lemma {:induction false} WhoIsReaped(task: map<Tid, Task>, tracer: Tid, p: Tid, notify: set<Tid>, ignoring: bool)
    requires p in task && tracer in task && task[p].realParent in task
    ensures var t, reap := task[p], MustReap(task, tracer, p, notify, ignoring);
            && (t.exit != Zombie ==> !reap) && (t.exit == Zombie && Leader !in t.marks ==> reap)
            && (Leader in t.marks && Alone !in t.marks ==> !reap)
            && (t.exit == Zombie && Leader in t.marks && Alone in t.marks ==>
                  if task[t.realParent].group == task[tracer].group then reap == ignoring else reap == (p in notify))
  {
  }

  /** What ptrace_attach and ptrace_traceme come to when no policy denies them and no signal interrupts them. */
  ghost function AttachErr(task: map<Tid, Task>, cur: Tid, p: Tid, seize: bool, addr: nat, options: nat): Errno
    requires cur in task && p in task
  {
    if seize && (addr != 0 || !OptionsOk(options)) then EIO
    else if KernelThread in task[p].marks || task[p].group == task[cur].group then EPERM
    else if task[p].exit != Alive || task[p].flags != 0 then EPERM
    else OK
  }

  /** What ptrace_detach comes to: the child has to be alive and the caller's own tracee, the signal a valid one. */
  ghost function DetachErr(task: map<Tid, Task>, cur: Tid, p: Tid, data: nat): Errno {
    if p !in task || task[p].flags == 0 || task[p].parent != cur || task[p].exit != Alive then ESRCH
    else if data > SIGNALS then EIO else OK
  }

  class TaskList {
    var task: map<Tid, Task>
    /** References on the credentials of each task that tracees hold. */
    var credRefs: map<Tid, nat>

    /** The first task, a kernel thread that is its own parent. */
    constructor ()
      ensures Valid() && Quiet(task) && task.Keys == {0}
    {
      task := map[0 := Task(0, 0, 0, [], None, Alive, 0, {KernelThread, Leader, Alone})];
      credRefs := map[];
      new;
      assert TaskOk(task, 0) && ListOk(task, 0);
      assert forall c :: Holders(task, c) == {};
    }

    ghost predicate Valid()
      reads this
    {
      Linked(task, credRefs)
    }

    /** __ptrace_link of a task whose ptrace flags are about to be set. */
    method Link(p: Tid, c: Tid, flags: nat)
      requires Valid() && p in task && c in task && p != c && task[p].flags == 0 && flags != 0
      modifies this
      ensures Valid() && task == LinkedTo(old(task), p, c, flags)
    {
      // The BUG_ON(!list_empty(&child->ptrace_entry)).
      assert forall d :: d in task ==> p !in task[d].ptraced by {
        forall d | d in task ensures p !in task[d].ptraced { OnOneList(task, credRefs, p, d); }
      }
      hide Linked;
      LinkKeeps(task, credRefs, p, c, flags);
      task := LinkedTo(task, p, c, flags);
      credRefs := Bump(credRefs, c, 1);
    }

    /** __ptrace_unlink; the BUG_ON(!child->ptrace) is its precondition. */
    method Unlink(p: Tid)
      requires Valid() && p in task && task[p].flags != 0
      modifies this
      ensures old(TaskOk(task, p)) && Valid() && task == Unlinked(old(task), p)
    {
      hide Linked;
      UnlinkKeeps(task, credRefs, p);
      var c := task[p].parent;
      task := Unlinked(task, p);
      credRefs := Bump(credRefs, c, -1);
    }

    /** ptrace_attach */
    method Attach(cur: Tid, p: Tid, seize: bool, addr: nat, options: nat, willing: bool) returns (err: Errno)
      requires Valid() && cur in task && p in task
      modifies this
      ensures Valid()
      ensures err == OK || willing ==> err == AttachErr(old(task), cur, p, seize, addr, options)
      ensures err != OK ==> task == old(task)
      ensures err == OK ==>
                && p != cur && task.Keys == old(task).Keys
                && task == LinkedTo(old(task), p, cur, AttachFlags(seize, options))
                && task[p] == old(task)[p].(flags := AttachFlags(seize, options), parent := cur, cred := Some(cur))
                && task[cur] == old(task)[cur].(ptraced := [p] + old(task)[cur].ptraced)
                && forall q :: q in task && q != p && q != cur ==> task[q] == old(task)[q]
    {
      if seize && addr != 0 { return EIO; }
      if seize && !OptionsOk(options) { return EIO; }
      if KernelThread in task[p].marks || task[p].group == task[cur].group { return EPERM; }
      var interrupted: bool, denial: Errno := *, *;
      if interrupted && !willing { return ERESTARTNOINTR; }
      if denial != OK && !willing { return denial; }
      if task[p].exit != Alive || task[p].flags != 0 { return EPERM; }
      Link(p, cur, AttachFlags(seize, options));
      err := OK;
    }

    /** ptrace_traceme. When the real parent is exiting, the call succeeds without tracing. */
    method Traceme(cur: Tid, willing: bool) returns (err: Errno)
      requires Valid() && cur in task && KernelThread !in task[cur].marks
      modifies this
      ensures Valid() && old(task)[cur].realParent in old(task)
      ensures err == OK || willing ==> err == if old(task)[cur].flags != 0 then EPERM else OK
      ensures task == if err == OK && Exiting !in old(task)[old(task)[cur].realParent].marks
                      then LinkedTo(old(task), cur, old(task)[cur].realParent, PT_PTRACED) else old(task)
    {
      assert TaskOk(task, cur);
      if task[cur].flags != 0 { return EPERM; }
      var denial: Errno := *;
      if denial != OK && !willing { return denial; }
      err := OK;
      if Exiting !in task[task[cur].realParent].marks { Link(cur, task[cur].realParent, PT_PTRACED); }
    }

    /** ptrace_init_task for a new child of cur: traced by cur's tracer when that is wanted and cur is traced. */
    method ForkInit(cur: Tid, child: Tid, fork: Task, trace: bool)
      requires Valid() && cur in task && child !in task && fork.realParent in task && fork.ptraced == []
               && fork.exit == Alive
      modifies this
      ensures Valid() && old(TaskOk(task, cur))
      ensures var born := old(task)[child := fork.(flags := 0, parent := fork.realParent, cred := None)];
              task == if trace && old(task)[cur].flags != 0 then LinkedTo(born, child, old(task)[cur].parent,
                                                                          old(task)[cur].flags) else born
    {
      assert TaskOk(task, cur);
      BirthKeeps(task, credRefs, child, fork.(flags := 0, parent := fork.realParent, cred := None));
      task := task[child := fork.(flags := 0, parent := fork.realParent, cred := None)];
      if trace && task[cur].flags != 0 { Link(child, task[cur].parent, task[cur].flags); }
    }

    /** __ptrace_detach: true when the task is left for the caller to reap. */
    method DetachOne(tracer: Tid, p: Tid, notify: set<Tid>, ignoring: bool) returns (dead: bool)
      requires Valid() && tracer in task && p in task && task[p].flags != 0
      modifies this
      ensures old(TaskOk(task, p)) && Valid() && dead == old(MustReap(task, tracer, p, notify, ignoring))
      ensures var t := Unlinked(old(task), p);
              task == if dead then t[p := t[p].(exit := Released)] else t
    {
      assert TaskOk(task, p);
      Unlink(p);
      dead := false;
      if task[p].exit != Zombie { return; }
      dead := Leader !in task[p].marks;
      if !dead && Alone in task[p].marks {
        if task[task[p].realParent].group != task[tracer].group {
          dead := p in notify;
        } else if ignoring {
          dead := true;
        }
      }
      if dead {
        RemarkKeeps(task, credRefs, p, task[p].(exit := Released));
        task := task[p := task[p].(exit := Released)];
      }
    }

    /** One round of exit_ptrace. */
    method ExitOne(tracer: Tid, p: Tid, notify: set<Tid>, ignoring: bool, ghost was: map<Tid, Task>, ghost l: seq<Tid>,
                   ghost k: nat) returns (dead: bool)
      requires Valid() && tracer in was && k < |l| && p == l[k] && Fates(was, l, tracer)
               && Detached(was, task, l, tracer, k, notify, ignoring)
      modifies this
      ensures Valid() && Detached(was, task, l, tracer, k + 1, notify, ignoring)
              && dead == MustReap(was, tracer, p, notify, ignoring)
    {
      hide Linked, TaskOk;
      DetachedNext(was, task, l, tracer, k, notify, ignoring);
      if HasBit(task[p].flags, PT_EXITKILL) {
        RemarkKeeps(task, credRefs, p, task[p].(marks := task[p].marks + {Killed}));
        task := task[p := task[p].(marks := task[p].marks + {Killed})];
      }
      ghost var mid := task;
      dead := DetachOne(tracer, p, notify, ignoring);
      DetachedStep(was, mid, task, l, tracer, k, notify, ignoring, dead);
    }

    /** exit_ptrace: every tracee is given back to its real parent; those that must be reaped are collected. */
    method ExitPtrace(tracer: Tid, notify: set<Tid>, ignoring: bool) returns (dead: seq<Tid>)
      requires Valid() && tracer in task
      modifies this
      ensures Valid() && task.Keys == old(task).Keys && task[tracer].ptraced == []
      ensures Fates(old(task), old(task)[tracer].ptraced, tracer)
      ensures forall p :: p in task ==> task[p] ==
                                        Fate(old(task), tracer, p, old(task)[tracer].ptraced,
                                             |old(task)[tracer].ptraced|, notify, ignoring)
      ensures forall p :: p in dead <==> p in old(task)[tracer].ptraced
                                         && MustReap(old(task), tracer, p, notify, ignoring)
    {
      hide Linked, TaskOk;
      ghost var was := task;
      var l, k := task[tracer].ptraced, 0;
      dead := [];
      FatesOf(was, credRefs, l, tracer, notify, ignoring);
      while k < |l|
        invariant Valid() && 0 <= k <= |l| && Detached(was, task, l, tracer, k, notify, ignoring)
        invariant forall p :: p in dead <==> p in l[..k] && MustReap(was, tracer, p, notify, ignoring)
      {
        var gone := ExitOne(tracer, l[k], notify, ignoring, was, l, k);
        if gone { dead := [l[k]] + dead; }
        assert l[..k + 1] == l[..k] + [l[k]];
        k := k + 1;
      }
      assert l[..k] == l && l[k..] == [];
    }
  
    /** ptrace_detach behind the test of ptrace_check_attach: the child is alive and the caller's own tracee, so the
        BUG_ON in __ptrace_unlink and the WARN_ON in ptrace_detach do not fire. */
    method DetachFrom(cur: Tid, p: Tid, data: nat, notify: set<Tid>, ignoring: bool) returns (err: Errno)
      requires Valid() && Quiet(task) && cur in task
      modifies this
      ensures Valid() && Quiet(task)
      ensures err == DetachErr(old(task), cur, p, data)
      ensures if err == OK then old(TaskOk(task, p)) && task == Unlinked(old(task), p) else task == old(task)
    {
      hide Linked, Quiet;
      if p !in task || task[p].flags == 0 || task[p].parent != cur || task[p].exit != Alive { return ESRCH; }
      if data > SIGNALS { return EIO; }
      QuietUnlink(task, credRefs, p);
      var dead := DetachOne(cur, p, notify, ignoring);
      err := OK;
    }

    /** ptrace_release_task of a task that has exited. Neither of its BUG_ONs fires. */
    method ReleaseTask(p: Tid)
      requires Valid() && Quiet(task) && p in task && task[p].exit != Alive
      modifies this
      ensures Valid() && Quiet(task) && p in task && task[p].flags == 0 && task[p].exit == Released
      ensures old(task)[p].flags != 0 ==> old(TaskOk(task, p))
      ensures var t := if old(task)[p].flags != 0 then Unlinked(old(task), p) else old(task);
              task == t[p := t[p].(exit := Released)]
    {
      hide Linked, TaskOk;
      // The BUG_ON(!list_empty(&task->ptraced)).
      assert task[p].ptraced == [] by { assert QuietTask(task[p]); }
      if task[p].flags != 0 {
        QuietUnlink(task, credRefs, p);
        Unlink(p);
      }
      // The BUG_ON(!list_empty(&task->ptrace_entry)).
      forall d | d in task ensures p !in task[d].ptraced { OnOneList(task, credRefs, p, d); }
      assert QuietTask(task[p]);
      RemarkKeeps(task, credRefs, p, task[p].(exit := Released));
      QuietRemark(task, p, task[p].(exit := Released));
      task := task[p := task[p].(exit := Released)];
    }

    /** exit_ptrace of an exiting task, after which it is past that. */
    method LeaveTracees(p: Tid, notify: set<Tid>, ignoring: bool) returns (dead: seq<Tid>)
      requires Valid() && Quiet(task) && p in task && Exiting in task[p].marks
      modifies this
      ensures Valid() && Quiet(task) && task.Keys == old(task).Keys
      ensures task[p] == old(task)[p].(ptraced := [], marks := old(task)[p].marks + {Past})
      ensures Fates(old(task), old(task)[p].ptraced, p)
      ensures forall q :: q in task && q != p ==>
                task[q] == Fate(old(task), p, q, old(task)[p].ptraced, |old(task)[p].ptraced|, notify, ignoring)
      ensures forall q :: q in dead <==> q in old(task)[p].ptraced && MustReap(old(task), p, q, notify, ignoring)
    {
      hide Linked, Quiet, Fates, Fate;
      ghost var was, l := task, task[p].ptraced;
      dead := ExitPtrace(p, notify, ignoring);
      QuietFates(was, task, l, p, notify, ignoring);
      MarksKept(was, task, l, p, notify, ignoring);
      var t := task[p].(marks := task[p].marks + {Past});
      RemarkKeeps(task, credRefs, p, t);
      QuietRemark(task, p, t);
      task := task[p := t];
    }

    /** Serve one call. Calls that the state does not allow fail. */
    method Serve(c: Call, willing: bool) returns (err: Errno)
      requires Valid() && Quiet(task)
      modifies this
      ensures Valid() && Quiet(task) && Served(old(task), task, c, err, willing)
    {
      hide Linked, Quiet, TaskOk, Fates, Fate;
      match c
      case Seize(cur, p, seize, addr, options) => err := ServeAttach(cur, p, seize, addr, options, willing);
      case Volunteer(cur) => err := ServeTraceme(cur, willing);
      case New(cur, child, fork, trace) => err := ServeFork(cur, child, fork, trace, willing);
      case Detach(cur, p, data, notify, ignoring) =>
        if !Running(task, cur) { return ESRCH; }
        err := DetachFrom(cur, p, data, notify, ignoring);
      case BeginExit(p) => err := ServeExit(p, Alive, willing);
      case Die(p) => err := ServeExit(p, Zombie, willing);
      case LeaveTracees(p, notify, ignoring) =>
        if p !in task || Exiting !in task[p].marks { return ESRCH; }
        var dead := LeaveTracees(p, notify, ignoring);
        err := OK;
      case Reap(p) =>
        if p !in task || task[p].exit == Alive { return ESRCH; }
        ReleaseTask(p);
        err := OK;
    }

    method ServeAttach(cur: Tid, p: Tid, seize: bool, addr: nat, options: nat, willing: bool) returns (err: Errno)
      requires Valid() && Quiet(task)
      modifies this
      ensures Valid() && Quiet(task) && Served(old(task), task, Seize(cur, p, seize, addr, options), err, willing)
    {
      hide Linked, Quiet;
      if !Running(task, cur) || p !in task { return ESRCH; }
      ghost var was := task;
      QuietRunning(task, cur);
      err := Attach(cur, p, seize, addr, options, willing);
      if err == OK {
        QuietLink(was, p, cur, AttachFlags(seize, options));
      }
    }

    method ServeTraceme(cur: Tid, willing: bool) returns (err: Errno)
      requires Valid() && Quiet(task)
      modifies this
      ensures Valid() && Quiet(task) && Served(old(task), task, Volunteer(cur), err, willing)
    {
      if !Running(task, cur) { return ESRCH; }
      assert TaskOk(task, cur) && QuietTask(task[task[cur].realParent]);
      hide Linked, Quiet;
      ghost var was := task;
      err := Traceme(cur, willing);
      if err == OK && Exiting !in was[was[cur].realParent].marks {
        QuietLink(was, cur, was[cur].realParent, PT_PTRACED);
      }
    }

    method ServeFork(cur: Tid, child: Tid, fork: Task, trace: bool, willing: bool) returns (err: Errno)
      requires Valid() && Quiet(task)
      modifies this
      ensures Valid() && Quiet(task) && Served(old(task), task, New(cur, child, fork, trace), err, willing)
    {
      hide Linked, Quiet;
      if !Running(task, cur) || child in task || fork.realParent !in task || fork.ptraced != [] || fork.exit != Alive
        || Past in fork.marks {
        return EAGAIN;
      }
      ghost var was := task;
      ghost var young := fork.(flags := 0, parent := fork.realParent, cred := None);
      QuietRemark(task, child, young);
      if task[cur].flags != 0 {
        TracerLives(task, credRefs, cur);
        QuietLink(task[child := young], child, task[cur].parent, task[cur].flags);
      }
      ForkInit(cur, child, fork, trace);
      err := OK;
    }

    /** PF_EXITING is set, or the task becomes a zombie once it is past exit_ptrace. */
    method ServeExit(p: Tid, state: ExitState, willing: bool) returns (err: Errno)
      requires Valid() && Quiet(task) && state != Released
      modifies this
      ensures Valid() && Quiet(task) && Served(old(task), task, if state == Alive then BeginExit(p)
                                                                else Die(p), err, willing)
    {
      hide Linked;
      if p !in task || task[p].exit != Alive || (state == Zombie && Past !in task[p].marks) { return ESRCH; }
      var t := task[p].(marks := task[p].marks + {Exiting}, exit := state);
      assert QuietTask(task[p]);
      assert state == Zombie ==> t.marks == task[p].marks;
      RemarkKeeps(task, credRefs, p, t);
      QuietRemark(task, p, t);
      task := task[p := t];
      err := OK;
    }
  }

  // ---------- runs ----------

  /** A task past exit_ptrace is exiting and traces nobody; one that has exited is past it. */
  ghost predicate QuietTask(t: Task) {
    && (Past in t.marks ==> Exiting in t.marks && t.ptraced == [])
    && (t.exit != Alive ==> Past in t.marks)
  }

  ghost predicate Quiet(task: map<Tid, Task>) {
    forall p :: p in task ==> QuietTask(task[p])
  }

  /** A task that can make a system call. */
  predicate Running(task: map<Tid, Task>, p: Tid) {
    p in task && task[p].exit == Alive && Exiting !in task[p].marks && KernelThread !in task[p].marks
  }

  lemma {:induction false} QuietLink(task: map<Tid, Task>, p: Tid, c: Tid, flags: nat)
    requires Quiet(task) && p in task && c in task && p != c && Past !in task[c].marks
    ensures Quiet(LinkedTo(task, p, c, flags))
  {
    var r := LinkedTo(task, p, c, flags);
    forall q | q in r ensures QuietTask(r[q]) { assert QuietTask(task[q]); }
  }

  lemma {:induction false} QuietUnlink(task: map<Tid, Task>, refs: map<Tid, nat>, p: Tid)
    requires Quiet(task) && Linked(task, refs) && p in task && task[p].flags != 0
    ensures TaskOk(task, p) && Quiet(Unlinked(task, p))
  {
    hide Remove;
    assert TaskOk(task, p) && ListOk(task, task[p].parent);
    var r := Unlinked(task, p);
    forall q | q in r ensures QuietTask(r[q]) { assert QuietTask(task[q]); }
  }

  /** The tracer of a traced task has not come to exit_ptrace. */
  lemma {:induction false} TracerLives(task: map<Tid, Task>, refs: map<Tid, nat>, p: Tid)
    requires Quiet(task) && Linked(task, refs) && p in task && task[p].flags != 0
    ensures task[p].parent in task && Past !in task[task[p].parent].marks
  {
    assert TaskOk(task, p) && QuietTask(task[task[p].parent]);
  }

  /** New marks and a new exit state concern no link. */
  lemma {:induction false} RemarkKeeps(task: map<Tid, Task>, refs: map<Tid, nat>, p: Tid, t: Task)
    requires Linked(task, refs) && p in task && task[p].marks <= t.marks
    requires t == task[p].(marks := t.marks, exit := t.exit)
    ensures Linked(task[p := t], refs)
  {
    var r := task[p := t];
    forall q | q in r ensures TaskOk(r, q) { assert TaskOk(task, q); }
    forall d | d in r ensures ListOk(r, d) { assert ListOk(task, d); }
    forall d ensures CredOk(r, refs, d) {
      assert CredOk(task, refs, d);
      assert Holders(r, d) == Holders(task, d);
    }
  }

  lemma {:induction false} QuietRemark(task: map<Tid, Task>, p: Tid, t: Task)
    requires Quiet(task) && QuietTask(t)
    ensures Quiet(task[p := t])
  {
  }

  lemma {:induction false} QuietRunning(task: map<Tid, Task>, p: Tid)
    requires Quiet(task) && Running(task, p)
    ensures Past !in task[p].marks
  {
    assert QuietTask(task[p]);
  }

  /** The exiting task itself keeps its marks. */
  lemma {:induction false} MarksKept(was: map<Tid, Task>, task: map<Tid, Task>, l: seq<Tid>, tracer: Tid,
                                     notify: set<Tid>, ignoring: bool)
    requires Detached(was, task, l, tracer, |l|, notify, ignoring) && Exiting in was[tracer].marks
    ensures task[tracer] == was[tracer].(ptraced := [])
  {
    assert tracer !in l[..|l|] && l[|l|..] == [];
  }

  lemma {:induction false} QuietFates(was: map<Tid, Task>, task: map<Tid, Task>, l: seq<Tid>, tracer: Tid,
                                      notify: set<Tid>, ignoring: bool)
    requires Quiet(was) && Detached(was, task, l, tracer, |l|, notify, ignoring)
    ensures Quiet(task)
  {
    hide HasBit;
    forall p | p in task ensures QuietTask(task[p]) { assert QuietTask(was[p]); }
  }

  /** What a task does, or what happens to it. `New` is a fork. */
  datatype Call =
    | Seize(cur: Tid, p: Tid, seize: bool, addr: nat, options: nat)
    | Volunteer(cur: Tid)
    | New(cur: Tid, child: Tid, fork: Task, trace: bool)
    | Detach(cur: Tid, p: Tid, data: nat, notify: set<Tid>, ignoring: bool)
    | BeginExit(p: Tid)
    | LeaveTracees(p: Tid, notify: set<Tid>, ignoring: bool)
    | Die(p: Tid)
    | Reap(p: Tid)

  /** What the call comes to when no policy denies it and no signal interrupts it. */
  ghost function CallErr(task: map<Tid, Task>, c: Call): Errno {
    match c
    case Seize(cur, p, seize, addr, options) =>
      if !Running(task, cur) || p !in task then ESRCH else AttachErr(task, cur, p, seize, addr, options)
    case Volunteer(cur) => if !Running(task, cur) then ESRCH else if task[cur].flags != 0 then EPERM else OK
    case New(cur, child, fork, _) =>
      if Running(task, cur) && child !in task && fork.realParent in task && fork.ptraced == [] && fork.exit == Alive
         && Past !in fork.marks then OK else EAGAIN
    case Detach(cur, p, data, _, _) => if !Running(task, cur) then ESRCH else DetachErr(task, cur, p, data)
    case BeginExit(p) => if p in task && task[p].exit == Alive then OK else ESRCH
    case LeaveTracees(p, _, _) => if p in task && Exiting in task[p].marks then OK else ESRCH
    case Die(p) => if p in task && task[p].exit == Alive && Past in task[p].marks then OK else ESRCH
    case Reap(p) => if p in task && task[p].exit != Alive then OK else ESRCH
  }

  /** The tasks after a call that succeeded. */
  ghost predicate Done(was: map<Tid, Task>, now: map<Tid, Task>, c: Call)
    requires CallErr(was, c) == OK
  {
    match c
    case Seize(cur, p, seize, _, options) => now == LinkedTo(was, p, cur, AttachFlags(seize, options))
    case Volunteer(cur) =>
      var parent := was[cur].realParent;
      parent in was && now == if Exiting in was[parent].marks then was else LinkedTo(was, cur, parent, PT_PTRACED)
    case New(cur, child, fork, trace) =>
      var born := was[child := fork.(flags := 0, parent := fork.realParent, cred := None)];
      was[cur].parent in was && now == if trace && was[cur].flags != 0 then
                                         LinkedTo(born, child, was[cur].parent, was[cur].flags) else born
    case Detach(_, p, _, _, _) => TaskOk(was, p) && now == Unlinked(was, p)
    case BeginExit(p) => now == was[p := was[p].(marks := was[p].marks + {Exiting})]
    case Die(p) => now == was[p := was[p].(exit := Zombie)]
    case LeaveTracees(p, notify, ignoring) =>
      && Fates(was, was[p].ptraced, p) && now.Keys == was.Keys
      && now[p] == was[p].(ptraced := [], marks := was[p].marks + {Past})
      && forall q :: q in now && q != p ==>
           now[q] == Fate(was, p, q, was[p].ptraced, |was[p].ptraced|, notify, ignoring)
    case Reap(p) =>
      && (was[p].flags != 0 ==> TaskOk(was, p))
      && var t := if was[p].flags != 0 then Unlinked(was, p) else was;
         now == t[p := t[p].(exit := Released)]
  }

  /** A call fails without effect, or succeeds with exactly its own; when nobody denies it, it fails only if it must. */
  ghost predicate Served(was: map<Tid, Task>, now: map<Tid, Task>, c: Call, err: Errno, willing: bool) {
    && (err == OK || willing ==> err == CallErr(was, c))
    && if err == OK then Done(was, now, c) else now == was
  }

  /** Any sequence of system calls and exits. In between, a task has ptrace flags if and only if it is on exactly
      its parent's list and holds that one's credential, and a task past exit_ptrace traces nobody. On the way no
      BUG_ON of linking, unlinking and releasing fires. */
  method ServeAll(l: TaskList, calls: seq<Call>) returns (errs: seq<Errno>)
    requires l.Valid() && Quiet(l.task)
    modifies l
    ensures l.Valid() && Quiet(l.task) && |errs| == |calls|
    ensures forall p, c :: p in l.task && c in l.task ==>
              (p in l.task[c].ptraced <==> l.task[p].flags != 0 && l.task[p].parent == c)
    ensures forall p :: p in l.task ==> l.task[p].cred == if l.task[p].flags != 0 then Some(l.task[p].parent) else None
  {
    hide Linked, Quiet;
    errs := [];
    while |errs| < |calls|
      invariant l.Valid() && Quiet(l.task) && |errs| <= |calls|
    {
      var err := l.Serve(calls[|errs|], false);
      errs := errs + [err];
    }
    forall p, c | p in l.task && c in l.task
      ensures p in l.task[c].ptraced <==> l.task[p].flags != 0 && l.task[p].parent == c {
      OnOneList(l.task, l.credRefs, p, c);
    }
    forall p | p in l.task ensures l.task[p].cred == if l.task[p].flags != 0 then Some(l.task[p].parent) else None {
      OwnCred(l.task, l.credRefs, p);
    }
  }

  lemma {:induction false} OwnCred(task: map<Tid, Task>, refs: map<Tid, nat>, p: Tid)
    requires Linked(task, refs) && p in task
    ensures task[p].cred == if task[p].flags != 0 then Some(task[p].parent) else None
  {
    assert TaskOk(task, p);
  }

  // ---------- what exit_ptrace does to each task ----------

  /** The list of the exiting tracer: known tasks other than itself, none twice, all traced by it. */
  ghost predicate Fates(was: map<Tid, Task>, l: seq<Tid>, tracer: Tid) {
    && tracer in was && l == was[tracer].ptraced
    && (forall i :: 0 <= i < |l| ==> l[i] in was && l[i] != tracer && was[l[i]].parent == tracer
                                     && was[l[i]].flags != 0 && was[l[i]].realParent in was)
    && (forall i, j :: 0 <= i < j < |l| ==> l[i] != l[j])
  }

  /** Task p after the first k tasks of the list were handled. */
  ghost function Fate(was: map<Tid, Task>, tracer: Tid, p: Tid, l: seq<Tid>, k: nat, notify: set<Tid>,
                      ignoring: bool): Task
    requires Fates(was, l, tracer) && p in was && k <= |l|
  {
    var t := was[p];
    if p in l[..k] then
      t.(flags := 0, parent := t.realParent, cred := None,
         marks := if HasBit(t.flags, PT_EXITKILL) then t.marks + {Killed} else t.marks,
         exit := if MustReap(was, tracer, p, notify, ignoring) then Released else t.exit)
    else if p == tracer then t.(ptraced := l[k..])
    else t
  }

  /** What becomes of a tracee of the one that exits: it is with its real parent again, untraced, and killed if it was
      seized with that option. */
  lemma {:induction false} TraceeFate(was: map<Tid, Task>, tracer: Tid, p: Tid, seize: bool, options: nat,
                                      notify: set<Tid>, ignoring: bool)
    requires tracer in was && Fates(was, was[tracer].ptraced, tracer) && p in was[tracer].ptraced
    requires was[p].flags == AttachFlags(seize, options) && (seize ==> OptionsOk(options))
    ensures var l := was[tracer].ptraced;
            var t := Fate(was, tracer, p, l, |l|, notify, ignoring);
            && t.flags == 0 && t.parent == was[p].realParent && t.cred == None && t.ptraced == was[p].ptraced
            && (Killed in t.marks <==> Killed in was[p].marks || (seize && HasBit(options, PTRACE_O_EXITKILL)))
            && t.exit == if MustReap(was, tracer, p, notify, ignoring) then Released else was[p].exit
  {
    hide HasBit, AttachFlags, OptionsOk;
    assert was[tracer].ptraced[..|was[tracer].ptraced|] == was[tracer].ptraced;
    AttachedBits(seize, options);
  }

  ghost predicate Detached(was: map<Tid, Task>, task: map<Tid, Task>, l: seq<Tid>, tracer: Tid, k: nat,
                           notify: set<Tid>, ignoring: bool) {
    && Fates(was, l, tracer) && k <= |l| && task.Keys == was.Keys
    && forall p :: p in was ==> task[p] == Fate(was, tracer, p, l, k, notify, ignoring)
  }

  lemma {:induction false} FatesOf(was: map<Tid, Task>, refs: map<Tid, nat>, l: seq<Tid>, tracer: Tid, notify: set<Tid>,
                                   ignoring: bool)
    requires Linked(was, refs) && tracer in was && l == was[tracer].ptraced
    ensures Fates(was, l, tracer) && Detached(was, was, l, tracer, 0, notify, ignoring)
  {
    assert ListOk(was, tracer);
    forall i | 0 <= i < |l| ensures was[l[i]].realParent in was { assert TaskOk(was, l[i]); }
    assert l[0..] == l;
  }

  lemma {:induction false} DetachedNext(was: map<Tid, Task>, task: map<Tid, Task>, l: seq<Tid>, tracer: Tid, k: nat,
                                        notify: set<Tid>, ignoring: bool)
    requires Detached(was, task, l, tracer, k, notify, ignoring) && k < |l|
    ensures l[k] in task && tracer in task && task[l[k]] == was[l[k]] && task[tracer].ptraced == l[k..]
    ensures task[l[k]].realParent in task && MustReap(task, tracer, l[k], notify, ignoring) ==
            MustReap(was, tracer, l[k], notify, ignoring)
  {
    assert l[k] !in l[..k];
    assert tracer !in l[..k];
    assert forall q :: q in was ==> task[q].group == was[q].group;
  }

  lemma {:induction false} DetachedStep(was: map<Tid, Task>, mid: map<Tid, Task>, task: map<Tid, Task>, l: seq<Tid>,
                                        tracer: Tid, k: nat, notify: set<Tid>, ignoring: bool, dead: bool)
    requires Fates(was, l, tracer) && k < |l| && mid.Keys == was.Keys && l[k] in was
    requires forall p :: p in was && p != l[k] ==> mid[p] == Fate(was, tracer, p, l, k, notify, ignoring)
    requires mid[l[k]] == was[l[k]].(marks := if HasBit(was[l[k]].flags, PT_EXITKILL) then was[l[k]].marks + {Killed}
                                              else was[l[k]].marks)
    requires dead == MustReap(was, tracer, l[k], notify, ignoring) && mid[tracer].ptraced == l[k..]
    requires var t := Unlinked(mid, l[k]); task == if dead then t[l[k] := t[l[k]].(exit := Released)] else t
    ensures Detached(was, task, l, tracer, k + 1, notify, ignoring)
  {
    hide MustReap, HasBit, Remove, Position, Unlinked;
    var p := l[k];
    RemoveFirst(l, k);
    assert l[..k + 1] == l[..k] + [p] && p !in l[..k] && tracer !in l[..k + 1];
    UnlinkedElse(mid, p);
    forall q | q in was && q != p ensures task[q] == Fate(was, tracer, q, l, k + 1, notify, ignoring) {
      assert q in l[..k + 1] <==> q in l[..k];
    }
  }

  /** Unlinking p touches p and the list of its parent. */
  lemma {:induction false} UnlinkedElse(task: map<Tid, Task>, p: Tid)
    requires p in task && task[p].parent in task && p in task[task[p].parent].ptraced && task[p].parent != p
    ensures var t, c := Unlinked(task, p), task[p].parent;
            && t.Keys == task.Keys && t[c] == task[c].(ptraced := Remove(task[c].ptraced, p))
            && t[p] == task[p].(flags := 0, parent := task[p].realParent, cred := None)
            && forall q :: q in task && q != p && q != c ==> t[q] == task[q]
  {
  }

  lemma {:induction false} RemoveFirst(l: seq<Tid>, k: nat)
    requires k < |l|
    ensures Remove(l[k..], l[k]) == l[k + 1..]
  {
    assert Position(l[k..], l[k]) == 0;
  }

  /** A new task on no list and with its real parent. */
  lemma {:induction false} BirthKeeps(task: map<Tid, Task>, refs: map<Tid, nat>, p: Tid, t: Task)
    requires Linked(task, refs) && p !in task && t.realParent in task && t.flags == 0 && t.parent == t.realParent
             && t.cred == None && t.ptraced == []
    ensures Linked(task[p := t], refs)
  {
    var r := task[p := t];
    forall q | q in r ensures TaskOk(r, q) {
      if q in task { assert TaskOk(task, q); }
      assert ListOk(task, t.realParent);
    }
    forall d | d in r ensures ListOk(r, d) { if d in task { assert ListOk(task, d); } }
    forall d ensures CredOk(r, refs, d) {
      assert CredOk(task, refs, d);
      assert Holders(r, d) == Holders(task, d);
    }
  }
}
