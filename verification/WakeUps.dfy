/**
 Exactly one wake-up: every unfinished scheduled task whose coroutine is not executing can be
 stepped in exactly one way, and a finished one in none. `Inv` is the invariant behind it.
 */
module WakeUps {
  import opened Wrappers
  import opened FutureMachine

  // ---------- The invariant ----------

  /** The state of future `i` agrees with its coroutine, its handle and what it waits on. */
  ghost predicate StateOk(s: Sys, i: Id)
    requires i < |s.futs|
  {
    var f := s.futs[i];
    match f.st
    case Pending(_) => f.coro == NoCoro
    case Created(_) => f.coro == Fresh
    case Scheduled(_, h) => KickOk(s, i, h) && (f.coro == Fresh || f.coro == Executing)
    case Cancelling(_, h, e) => KickOk(s, i, h) && e.Cancelled? && f.coro != NoCoro && f.coro != Closed
    case Running(_, w) => WaitOk(s, i, w) && (f.coro == Suspended || f.coro == Executing)
    case _ => (f.coro == NoCoro || f.coro == Closed) && SchedOk(s, i)
  }

  /** Handle `h` steps task `i`; it is live until the loop enters it. */
  ghost predicate KickOk(s: Sys, i: Id, h: HandleId)
    requires i < |s.futs|
  {
    && h < |s.handles|
    && s.handles[h].target == Kick(i)
    && (if s.futs[i].coro == Executing then s.cur == Some(h) else Live(s, h))
  }

  /** Task `i` waits on `w`: registered with it, or about to be woken by its handle. */
  ghost predicate WaitOk(s: Sys, i: Id, w: Id)
    requires i < |s.futs|
  {
    && w < |s.futs| && w != i
    && (if !s.futs[w].st.Done() then s.futs[i].coro == Suspended && StepOf(i) in s.futs[w].st.cbs
        else
          && StepOf(i) in s.futs[w].st.sched
          && var h := s.futs[w].st.sched[StepOf(i)];
             if s.futs[i].coro == Executing then s.cur == Some(h) else Live(s, h))
  }

  ghost predicate SchedOk(s: Sys, i: Id)
    requires i < |s.futs| && s.futs[i].st.Done()
  {
    forall cb <- s.futs[i].st.sched ::
      && s.futs[i].st.sched[cb] < |s.handles|
      && s.handles[s.futs[i].st.sched[cb]].target == Callback(cb, i)
  }

  ghost predicate HandleOk(s: Sys, h: HandleId)
    requires h < |s.handles|
  {
    match s.handles[h].target
    case Kick(t) =>
      && t < |s.futs| && s.futs[t].coro != NoCoro
      && (Live(s, h) ==>
            && (s.futs[t].st.Scheduled? || s.futs[t].st.Cancelling?)
            && s.futs[t].st.handle == h && s.futs[t].coro != Executing)
      && (s.cur == Some(h) ==> s.futs[t].coro == Executing)
    case Callback(cb, f) =>
      && f < |s.futs| && s.futs[f].st.Done()
      && (Live(s, h) ==> cb in s.futs[f].st.sched && s.futs[f].st.sched[cb] == h)
      && (cb.StepOf? ==>
            && cb.task < |s.futs| && s.futs[cb.task].coro != NoCoro
            && (Live(s, h) ==> IsWaiting(s, cb.task, f) && s.futs[cb.task].coro == Suspended)
            && (s.cur == Some(h) ==> s.futs[cb.task].coro == Executing))
    case Plain(_) => true
  }

  ghost predicate IsWaiting(s: Sys, t: Id, f: Id)
    requires t < |s.futs|
  {
    s.futs[t].st.Running? && s.futs[t].st.waitingOn == f
  }

  /** A task is registered only with the future it waits on. */
  ghost predicate RegisteredOk(s: Sys, f: Id, t: Id)
    requires f < |s.futs|
  {
    !s.futs[f].st.Done() && StepOf(t) in s.futs[f].st.cbs ==>
      t < |s.futs| && IsWaiting(s, t, f) && s.futs[t].coro == Suspended
  }

  ghost predicate StatesOk(s: Sys) {
    forall i: Id | i < |s.futs| :: StateOk(s, i)
  }

  ghost predicate HandlesOk(s: Sys) {
    forall h: HandleId | h < |s.handles| :: HandleOk(s, h)
  }

  ghost predicate RegistrationsOk(s: Sys) {
    forall f: Id, t: Id | f < |s.futs| :: RegisteredOk(s, f, t)
  }

  ghost predicate CurOk(s: Sys) {
    s.cur.Some? ==> s.cur.value < |s.handles| && !s.handles[s.cur.value].executed
  }

  /** No two handles call the same callback with the same future. */
  ghost predicate CallbackHandlesUnique(s: Sys) {
    forall g, h | 0 <= g < h < |s.handles| && s.handles[g].target.Callback? ::
      s.handles[g].target != s.handles[h].target
  }

  /** The loop has entered each handle at most once: those executed, and the current one. */
  ghost predicate RanOk(s: Sys) {
    && NoDup(s.ran)
    && (forall h: HandleId | h < |s.handles| :: h in s.ran <==> s.handles[h].executed || s.cur == Some(h))
    && (forall i | 0 <= i < |s.ran| :: s.ran[i] < |s.handles|)
  }

  ghost predicate Inv(s: Sys) {
    && StatesOk(s)
    && HandlesOk(s)
    && RegistrationsOk(s)
    && CurOk(s)
    && CallbackHandlesUnique(s)
    && RanOk(s)
  }

  // ---------- Finishing a future ----------

  lemma {:induction false} SchedOfIndex(order: seq<Cb>, base: HandleId)
    requires NoDup(order)
    ensures forall cb :: cb in SchedOf(order, base) <==> cb in order
    ensures forall i | 0 <= i < |order| :: SchedOf(order, base)[order[i]] == base + i
  {
    if order != [] {
      var n := |order| - 1;
      SchedOfIndex(order[..n], base);
      assert order == order[..n] + [order[n]];
      forall i | 0 <= i < |order| ensures SchedOf(order, base)[order[i]] == base + i {
        if i < n { assert order[..n][i] == order[i]; }
      }
    }
  }

  /** The parts of the invariant about future `i` and the future it waits on. */
  lemma WaitedStateOk(s: Sys, i: Id)
    requires StatesOk(s) && i < |s.futs|
    ensures StateOk(s, i)
    ensures s.futs[i].st.Running? ==> s.futs[i].st.waitingOn < |s.futs| && StateOk(s, s.futs[i].st.waitingOn)
  {
    assert StateOk(s, i);
    if s.futs[i].st.Running? { assert StateOk(s, s.futs[i].st.waitingOn); }
  }

  lemma InvNew(s: Sys, f: Fut)
    requires Inv(s)
    requires f == Fut(Pending({}), NoCoro) || f == Fut(Created({}), Fresh)
    ensures Inv(s.(futs := s.futs + [f]))
  {
    var s' := s.(futs := s.futs + [f]);
    forall i: Id | i < |s'.futs| ensures StateOk(s', i) {
      if i < |s.futs| { WaitedStateOk(s, i); }
    }
    forall h: HandleId | h < |s'.handles| ensures HandleOk(s', h) { assert HandleOk(s, h); }
    forall i: Id, t: Id | i < |s'.futs| ensures RegisteredOk(s', i, t) {
      if i < |s.futs| { assert RegisteredOk(s, i, t); }
    }
  }

  lemma InvEnqueuePlain(s: Sys, k: nat)
    requires Inv(s)
    ensures Inv(Enqueue(s, Plain(k)))
  {
    var s' := Enqueue(s, Plain(k));
    forall i: Id | i < |s'.futs| ensures StateOk(s', i) { WaitedStateOk(s, i); }
    forall h: HandleId | h < |s'.handles| ensures HandleOk(s', h) {
      if h < |s.handles| { assert HandleOk(s, h); }
    }
    forall i: Id, t: Id | i < |s'.futs| ensures RegisteredOk(s', i, t) { assert RegisteredOk(s, i, t); }
  }

  lemma InvLeave(s: Sys)
    requires Inv(s) && s.cur.Some? && CurTask(s) == None
    ensures Inv(Leave(s))
  {
    var s' := Leave(s);
    assert HandleOk(s, s.cur.value);
    forall i: Id | i < |s'.futs| ensures StateOk(s', i) { WaitedStateOk(s, i); }
    forall h: HandleId | h < |s'.handles| ensures HandleOk(s', h) { assert HandleOk(s, h); }
    forall i: Id, t: Id | i < |s'.futs| ensures RegisteredOk(s', i, t) { assert RegisteredOk(s, i, t); }
  }

  // ---------- Changes to user callbacks and user handles ----------

  /** Only user callbacks of `f`, and the flag of one handle that steps no task, have changed. */
  ghost predicate EditsUser(s: Sys, s': Sys, f: Id, changed: Option<HandleId>) {
    && |s'.futs| == |s.futs| && |s'.handles| == |s.handles|
    && (forall i: Id | i < |s.futs| && i != f :: s'.futs[i] == s.futs[i])
    && (f < |s.futs| ==>
          && s'.futs[f].coro == s.futs[f].coro
          && (if s.futs[f].st.Done() then
                && s'.futs[f].st.Done()
                && s'.futs[f].st.sched.Keys <= s.futs[f].st.sched.Keys
                && (forall cb <- s'.futs[f].st.sched :: s'.futs[f].st.sched[cb] == s.futs[f].st.sched[cb])
                && (forall cb <- s.futs[f].st.sched | cb !in s'.futs[f].st.sched ::
                      cb.User? && changed == Some(s.futs[f].st.sched[cb]))
              else
                && !s'.futs[f].st.Done()
                && s'.futs[f].st == s.futs[f].st.(cbs := s'.futs[f].st.cbs)
                && (forall t: Id :: StepOf(t) in s'.futs[f].st.cbs <==> StepOf(t) in s.futs[f].st.cbs)))
    && (forall h: HandleId | h < |s.handles| ::
          s'.handles[h] == if changed == Some(h) then s.handles[h].(cancelled := true) else s.handles[h])
    && (changed.Some? && changed.value < |s.handles| ==> StepTarget(s.handles[changed.value].target) == None)
    && s'.cur == s.cur && s'.ran == s.ran
  }

  lemma EditState(s: Sys, s': Sys, f: Id, changed: Option<HandleId>, i: Id)
    requires Inv(s) && EditsUser(s, s', f, changed) && i < |s.futs|
    ensures StateOk(s', i)
  {
    WaitedStateOk(s, i);
  }

  lemma InvEdit(s: Sys, s': Sys, f: Id, changed: Option<HandleId>)
    requires Inv(s) && EditsUser(s, s', f, changed)
    ensures Inv(s')
  {
    forall i: Id | i < |s'.futs| ensures StateOk(s', i) { EditState(s, s', f, changed, i); }
    forall h: HandleId | h < |s'.handles| ensures HandleOk(s', h) { assert HandleOk(s, h); }
    forall i: Id, t: Id | i < |s'.futs| ensures RegisteredOk(s', i, t) { assert RegisteredOk(s, i, t); }
  }

  lemma InvAddUser(s: Sys, f: Id, k: nat)
    requires Inv(s) && f < |s.futs|
    ensures Inv(AddCallback(s, f, User(k)).0)
  {
    InvEdit(s, AddCallback(s, f, User(k)).0, f, None);
  }

  lemma InvRemoveUser(s: Sys, f: Id, k: nat)
    requires Inv(s) && f < |s.futs|
    ensures Inv(RemoveCallback(s, f, User(k)))
  {
    assert StateOk(s, f);
    var st := s.futs[f].st;
    InvEdit(s, RemoveCallback(s, f, User(k)), f,
            if st.Done() && User(k) in st.sched then Some(st.sched[User(k)]) else None);
  }

  lemma InvCancelPlain(s: Sys, h: HandleId)
    requires Inv(s) && h < |s.handles| && s.handles[h].target.Plain?
    ensures Inv(CancelledHandle(s, h))
  {
    InvEdit(s, CancelledHandle(s, h), |s.futs|, Some(h));
  }

  // ---------- A task gets a new handle for its next step ----------

  /** The live handle that would step `t`. */
  ghost predicate WakesUp(s: Sys, t: Id, h: HandleId)
    requires t < |s.futs|
  {
    var st := s.futs[t].st;
    || (st.Scheduled? && st.handle == h)
    || (st.Running? && st.waitingOn < |s.futs| && s.futs[st.waitingOn].st.Done()
        && StepOf(t) in s.futs[st.waitingOn].st.sched && s.futs[st.waitingOn].st.sched[StepOf(t)] == h)
  }

  /** Task `t` gives up its wake-up, if it has one, for a new handle. */
  ghost predicate Kicks(s: Sys, s': Sys, t: Id) {
    && t < |s.futs| == |s'.futs|
    && !s.futs[t].st.Done() && s.futs[t].coro != Executing
    && (s.futs[t].st.Running? ==> s.futs[t].st.waitingOn < |s.futs| && s.futs[s.futs[t].st.waitingOn].st.Done())
    && !s.futs[t].st.Pending? && !s.futs[t].st.Cancelling?
    && (forall i: Id | i < |s.futs| && i != t ::
          && s'.futs[i].coro == s.futs[i].coro
          && s'.futs[i].st == if s.futs[t].st.Running? && s.futs[t].st.waitingOn == i && s.futs[i].st.Done()
                              then s.futs[i].st.(sched := s.futs[i].st.sched - {StepOf(t)}) else s.futs[i].st)
    && s'.futs[t].coro == s.futs[t].coro
    && (|| (s'.futs[t].st == Scheduled(s.futs[t].st.cbs, |s.handles|) && s.futs[t].coro == Fresh)
        || (s'.futs[t].st.Cancelling? && s'.futs[t].st.inner.Cancelled?
            && s'.futs[t].st == Cancelling(s.futs[t].st.cbs, |s.handles|, s'.futs[t].st.inner)))
    && |s'.handles| == |s.handles| + 1
    && s'.handles[|s.handles|] == Handle(Kick(t), false, false)
    && (forall h: HandleId | h < |s.handles| ::
          s'.handles[h] == if WakesUp(s, t, h) then s.handles[h].(cancelled := true) else s.handles[h])
    && s'.cur == s.cur && s'.ran == s.ran
  }

  lemma KickWaiter(s: Sys, s': Sys, t: Id, i: Id)
    requires Inv(s) && Kicks(s, s', t) && i < |s.futs| && i != t && s.futs[i].st.Running?
    ensures StateOk(s', i)
  {
    WaitedStateOk(s, i);
    WaitedStateOk(s, t);
  }

  lemma KickOther(s: Sys, s': Sys, t: Id, i: Id)
    requires Inv(s) && Kicks(s, s', t) && i < |s.futs| && i != t && !s.futs[i].st.Running?
    ensures StateOk(s', i)
  {
    assert StateOk(s, i);
    WaitedStateOk(s, t);
  }

  lemma KickState(s: Sys, s': Sys, t: Id, i: Id)
    requires Inv(s) && Kicks(s, s', t) && i < |s.futs|
    ensures StateOk(s', i)
  {
    if i == t {
      assert StateOk(s, t);
    } else if s.futs[i].st.Running? {
      KickWaiter(s, s', t, i);
    } else {
      KickOther(s, s', t, i);
    }
  }

  lemma KickHandle(s: Sys, s': Sys, t: Id, h: HandleId)
    requires Inv(s) && Kicks(s, s', t) && h < |s'.handles|
    ensures HandleOk(s', h)
  {
    assert StateOk(s, t);
    if h < |s.handles| { assert HandleOk(s, h); }
  }

  lemma InvKick(s: Sys, s': Sys, t: Id)
    requires Inv(s) && Kicks(s, s', t)
    ensures Inv(s')
  {
    forall i: Id | i < |s'.futs| ensures StateOk(s', i) { KickState(s, s', t, i); }
    forall h: HandleId | h < |s'.handles| ensures HandleOk(s', h) { KickHandle(s, s', t, h); }
    assert StateOk(s, t);
    forall i: Id, u: Id | i < |s'.futs| ensures RegisteredOk(s', i, u) { assert RegisteredOk(s, i, u); }
  }

  lemma InvSchedule(s: Sys, t: Id)
    requires Inv(s) && t < |s.futs| && s.futs[t].st.Created?
    ensures Inv(WithState(Enqueue(s, Kick(t)), t, Scheduled(s.futs[t].st.cbs, |s.handles|)))
  {
    assert StateOk(s, t);
    InvKick(s, WithState(Enqueue(s, Kick(t)), t, Scheduled(s.futs[t].st.cbs, |s.handles|)), t);
  }

  /** Cancelling a task at the end of a chain of waits leaves one wake-up: that of the throw. */
  lemma CancelTaskShape(s: Sys, t: Id, c: Exc)
    requires Inv(s) && t < |s.futs| && c.Cancelled?
    requires s.futs[t].coro != NoCoro && s.futs[t].coro != Executing
    requires !s.futs[t].st.Done() && !s.futs[t].st.Cancelling? && Follow(s, t) == None
    ensures var r := CancelLeaf(s, t, c, []); r.1 == Ok && Kicks(s, r.0, t)
  {
    WaitedStateOk(s, t);
  }

  // ---------- A future finishes ----------

  /** Future `f` finishes with one new handle per callback; the loop may leave its handle too. */
  ghost predicate Settles(s: Sys, s': Sys, f: Id, order: seq<Cb>, left: bool) {
    && f < |s.futs| == |s'.futs|
    && (forall i: Id | i < |s.futs| && i != f :: s'.futs[i] == s.futs[i])
    && s'.futs[f].st.Done()
    && |s'.handles| == |s.handles| + |order|
    && (forall h: HandleId | h < |s.handles| ::
          s'.handles[h] == if left && s.cur == Some(h) then s.handles[h].(executed := true) else s.handles[h])
    && (forall h: HandleId | |s.handles| <= h < |s'.handles| ::
          s'.handles[h] == Handle(Callback(order[h - |s.handles|], f), false, false))
    && s'.futs[f].st.sched == SchedOf(order, |s.handles|)
    && s'.cur == (if left then None else s.cur)
    && s'.ran == s.ran
    && s'.futs[f].coro == (if left then Closed else NoCoro)
  }

  /** A promise's future may settle at any time, a task only at the end of its last step. */
  ghost predicate MaySettle(s: Sys, f: Id, order: seq<Cb>, left: bool) {
    && f < |s.futs| && !s.futs[f].st.Done()
    && Enumerates(order, s.futs[f].st.cbs)
    && if left then CurTask(s) == Some(f) else s.futs[f].st.Pending?
  }

  lemma SettleWaiter(s: Sys, s': Sys, f: Id, order: seq<Cb>, left: bool, i: Id)
    requires Inv(s) && MaySettle(s, f, order, left) && Settles(s, s', f, order, left)
    requires i < |s.futs| && i != f && IsWaiting(s, i, f)
    ensures StateOk(s', i)
  {
    assert StateOk(s, i);
    SchedOfIndex(order, |s.handles|);
    var k :| 0 <= k < |order| && order[k] == StepOf(i);
    assert s'.handles[|s.handles| + k] == Handle(Callback(order[k], f), false, false);
  }

  lemma SettledState(s: Sys, s': Sys, f: Id, order: seq<Cb>, left: bool)
    requires Inv(s) && MaySettle(s, f, order, left) && Settles(s, s', f, order, left)
    ensures StateOk(s', f)
  {
    SchedOfIndex(order, |s.handles|);
    forall cb <- s'.futs[f].st.sched
      ensures s'.futs[f].st.sched[cb] < |s'.handles|
      ensures s'.handles[s'.futs[f].st.sched[cb]].target == Callback(cb, f)
    {
      var k :| 0 <= k < |order| && order[k] == cb;
    }
  }

  lemma SettleState(s: Sys, s': Sys, f: Id, order: seq<Cb>, left: bool, i: Id)
    requires Inv(s) && MaySettle(s, f, order, left) && Settles(s, s', f, order, left)
    requires i < |s.futs| && i != f && !IsWaiting(s, i, f)
    ensures StateOk(s', i)
  {
    WaitedStateOk(s, i);
    if left { assert HandleOk(s, s.cur.value); }
  }

  lemma SettleHandle(s: Sys, s': Sys, f: Id, order: seq<Cb>, left: bool, h: HandleId)
    requires Inv(s) && MaySettle(s, f, order, left) && Settles(s, s', f, order, left)
    requires h < |s'.handles|
    ensures HandleOk(s', h)
  {
    assert StateOk(s, f);
    if left { assert HandleOk(s, s.cur.value); }
    if h < |s.handles| {
      assert HandleOk(s, h);
    } else {
      var cb := order[h - |s.handles|];
      SchedOfIndex(order, |s.handles|);
      if cb.StepOf? {
        assert RegisteredOk(s, f, cb.task);
        assert StateOk(s, cb.task);
      }
    }
  }

  lemma InvSettle(s: Sys, s': Sys, f: Id, order: seq<Cb>, left: bool)
    requires Inv(s) && MaySettle(s, f, order, left) && Settles(s, s', f, order, left)
    ensures Inv(s')
  {
    forall i: Id | i < |s'.futs| ensures StateOk(s', i) {
      if i == f { SettledState(s, s', f, order, left); }
      else if IsWaiting(s, i, f) { SettleWaiter(s, s', f, order, left, i); }
      else { SettleState(s, s', f, order, left, i); }
    }
    forall h: HandleId | h < |s'.handles| ensures HandleOk(s', h) { SettleHandle(s, s', f, order, left, h); }
    forall i: Id, t: Id | i < |s'.futs| ensures RegisteredOk(s', i, t) {
      assert RegisteredOk(s, i, t);
      if left { assert HandleOk(s, s.cur.value); } else { assert StateOk(s, f); }
    }
    forall g, h | 0 <= g < h < |s'.handles| && s'.handles[g].target.Callback?
      ensures s'.handles[g].target != s'.handles[h].target
    {
      if g < |s.handles| { assert HandleOk(s, g); }
    }
  }

  lemma InvFinish(s: Sys, f: Id, out: Outcome, order: seq<Cb>)
    requires Inv(s) && f < |s.futs| && s.futs[f].st.Pending? && Enumerates(order, s.futs[f].st.cbs)
    ensures Inv(Finish(s, f, out, order))
  {
    assert StateOk(s, f);
    InvSettle(s, Finish(s, f, out, order), f, order, false);
  }

  lemma InvFinishStep(s: Sys, t: Id, out: Outcome, order: seq<Cb>)
    requires Inv(s) && t < |s.futs| && MaySettle(s, t, order, true)
    ensures Inv(FinishStep(s, t, out, order).0)
  {
    StepEnds(s, t, t, out, order);
    InvSettle(s, FinishStep(s, t, out, order).0, t, order, true);
  }

  // ---------- A coroutine is resumed, and yields ----------

  lemma BeginState(s: Sys, h: HandleId, i: Id)
    requires Inv(s) && s.cur == None && Live(s, h) && i < |s.futs|
    ensures StateOk(BeginHandle(s, h).0, i)
  {
    assert HandleOk(s, h);
    WaitedStateOk(s, i);
  }

  lemma BeginHandleOk(s: Sys, h: HandleId, g: HandleId)
    requires Inv(s) && s.cur == None && Live(s, h) && g < |s.handles|
    ensures HandleOk(BeginHandle(s, h).0, g)
  {
    assert HandleOk(s, h);
    assert HandleOk(s, g);
  }

  lemma InvBegin(s: Sys, h: HandleId)
    requires Inv(s) && s.cur == None && Live(s, h)
    ensures Inv(BeginHandle(s, h).0)
  {
    var s' := BeginHandle(s, h).0;
    assert HandleOk(s, h);
    forall i: Id | i < |s'.futs| ensures StateOk(s', i) { BeginState(s, h, i); }
    forall g: HandleId | g < |s'.handles| ensures HandleOk(s', g) { BeginHandleOk(s, h, g); }
    forall i: Id, t: Id | i < |s'.futs| ensures RegisteredOk(s', i, t) { assert RegisteredOk(s, i, t); }
  }

  /** Task `t` leaves its step suspended on `f`, and is no longer known to what it waited on. */
  ghost predicate Yields(s: Sys, s': Sys, t: Id, f: Id) {
    && t < |s.futs| && f < |s.futs| == |s'.futs| && t != f
    && !s.futs[t].st.Done() && !s.futs[f].st.Done()
    && (forall i: Id | i < |s.futs| && i != t && i != f ::
          && s'.futs[i].coro == s.futs[i].coro
          && s'.futs[i].st == if s.futs[t].st.Running? && s.futs[t].st.waitingOn == i && s.futs[i].st.Done()
                              then s.futs[i].st.(sched := s.futs[i].st.sched - {StepOf(t)}) else s.futs[i].st)
    && s'.futs[t] == Fut(Running(s.futs[t].st.cbs, f), Suspended)
    && s'.futs[f] == s.futs[f].(st := s.futs[f].st.(cbs := s.futs[f].st.cbs + {StepOf(t)}))
    && |s'.handles| == |s.handles|
    && (forall h: HandleId | h < |s.handles| ::
          && s'.handles[h].target == s.handles[h].target
          && if s.cur == Some(h) then s'.handles[h].executed else s'.handles[h] == s.handles[h])
    && s'.cur == None
    && s'.ran == s.ran
  }

  /** The clean-up of `_step` finds the callback whose handle is the one being executed. */
  lemma CleanUpShape(s: Sys, t: Id)
    requires Inv(s) && CurTask(s) == Some(t) && t < |s.futs| && s.futs[t].st.Running?
    ensures s.futs[t].st.waitingOn < |s.futs| && s.futs[s.futs[t].st.waitingOn].st.Done()
    ensures var w := s.futs[t].st.waitingOn; var st := s.futs[w].st; var h := s.cur.value;
            CleanUp(s, t) == s.(
              futs := s.futs[w := s.futs[w].(st := st.(sched := st.sched - {StepOf(t)}))],
              handles := s.handles[h := s.handles[h].(cancelled := true)])
  {
    assert HandleOk(s, s.cur.value);
    WaitedStateOk(s, t);
  }

  /** The clean-up keeps the number of futures and handles, and the handle being executed. */
  lemma CurTaskExecutes(s: Sys, t: Id)
    requires Inv(s) && CurTask(s) == Some(t) && t < |s.futs|
    ensures s.cur.Some? && s.cur.value < |s.handles| && !s.futs[t].st.Done()
    ensures |CleanUp(s, t).futs| == |s.futs| && CleanUp(s, t).cur == s.cur && |CleanUp(s, t).handles| == |s.handles|
  {
    assert HandleOk(s, s.cur.value);
    WaitedStateOk(s, t);
  }

  lemma FirstYieldShape(s: Sys, t: Id, f: Id)
    requires Inv(s) && CurTask(s) == Some(t) && t < |s.futs| && f < |s.futs| && t != f
    requires !s.futs[t].st.Done() && !s.futs[f].st.Done() && !s.futs[t].st.Running?
    ensures Yields(s, Leave(SuspendOn(CleanUp(s, t), t, f)), t, f)
  {
    assert CleanUp(s, t) == s;
  }

  lemma LaterYieldShape(s: Sys, t: Id, f: Id)
    requires Inv(s) && CurTask(s) == Some(t) && t < |s.futs| && f < |s.futs| && t != f
    requires !s.futs[t].st.Done() && !s.futs[f].st.Done() && s.futs[t].st.Running?
    ensures !CleanUp(s, t).futs[t].st.Done() && !CleanUp(s, t).futs[f].st.Done()
    ensures Yields(s, Leave(SuspendOn(CleanUp(s, t), t, f)), t, f)
  {
    CleanUpShape(s, t);
    WaitedStateOk(s, t);
  }

  lemma YieldShape(s: Sys, t: Id, f: Id)
    requires Inv(s) && CurTask(s) == Some(t) && t < |s.futs| && f < |s.futs| && t != f
    requires !s.futs[t].st.Done() && !s.futs[f].st.Done()
    ensures Yields(s, YieldOn(s, t, f).0, t, f) && YieldOn(s, t, f).1 == Ok
  {
    StepEnds(s, t, f, Value(NoneValue), []);
    if s.futs[t].st.Running? { LaterYieldShape(s, t, f); } else { FirstYieldShape(s, t, f); }
  }

  lemma YieldState(s: Sys, s': Sys, t: Id, f: Id, i: Id)
    requires Inv(s) && CurTask(s) == Some(t) && Yields(s, s', t, f) && i < |s.futs| && !s.futs[i].st.Running?
    ensures StateOk(s', i)
  {
    assert HandleOk(s, s.cur.value);
    assert StateOk(s, i);
  }

  lemma YieldWaiter(s: Sys, s': Sys, t: Id, f: Id, i: Id)
    requires Inv(s) && CurTask(s) == Some(t) && Yields(s, s', t, f) && i < |s.futs| && s.futs[i].st.Running?
    ensures StateOk(s', i)
  {
    assert HandleOk(s, s.cur.value);
    WaitedStateOk(s, i);
  }

  lemma YieldHandle(s: Sys, s': Sys, t: Id, f: Id, h: HandleId)
    requires Inv(s) && CurTask(s) == Some(t) && Yields(s, s', t, f) && h < |s.handles|
    ensures HandleOk(s', h)
  {
    assert HandleOk(s, s.cur.value);
    assert HandleOk(s, h);
  }

  lemma InvYield(s: Sys, s': Sys, t: Id, f: Id)
    requires Inv(s) && CurTask(s) == Some(t) && Yields(s, s', t, f)
    ensures Inv(s')
  {
    assert HandleOk(s, s.cur.value);
    forall i: Id | i < |s'.futs| ensures StateOk(s', i) {
      if s.futs[i].st.Running? { YieldWaiter(s, s', t, f, i); } else { YieldState(s, s', t, f, i); }
    }
    forall h: HandleId | h < |s'.handles| ensures HandleOk(s', h) { YieldHandle(s, s', t, f, h); }
    forall i: Id, u: Id | i < |s'.futs| ensures RegisteredOk(s', i, u) { assert RegisteredOk(s, i, u); }
  }
}
