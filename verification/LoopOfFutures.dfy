/**
 Futures and tasks on the event loop: the handles of FutureMachine are the callbacks of LoopMachine.

 All that a label does to the loop is to create handles by `call_soon` (`call_later` for user code) and
 to cancel handles. So every run of the loop with futures on it is a run of both machines, and what is
 proved of either holds of it.
 */
module LoopOfFutures {
  import opened Wrappers
  import opened FutureMachine
  import opened WakeUps
  import opened Reachability
  import opened Callbacks
  import opened HandleTable
  import M = LoopMachine
  import P = LoopProperties
  import R = LoopRuns

  // ---------- Actions ----------

  function Creations(actions: seq<M.Action>): nat {
    if actions == [] then 0 else (if actions[0].Soon? || actions[0].After? then 1 else 0) + Creations(actions[1..])
  }

  /** The actions create the handles that are new in `b`, and cancel those whose flags are. */
  predicate Mirrors(a: seq<Handle>, b: seq<Handle>, e: Label, actions: seq<M.Action>) {
    && Creations(actions) + |a| == |b|
    && (forall x <- actions :: x.Soon? || (x.After? && e.CallSoon?) || (x.CancelHandle? && x.h < |a|))
    && (forall x <- actions | x.CancelHandle? :: x.h < |b| && b[x.h].cancelled)
    && (forall h: HandleId | h < |a| && h < |b| && b[h].cancelled && !a[h].cancelled :: M.CancelHandle(h) in actions)
  }

  /** What the actions of a label do to the loop. */
  ghost predicate ActionsDo(l: M.Loop, actions: seq<M.Action>, r: M.Loop) {
    && |r.whens| == |l.whens| + Creations(actions) && l.whens <= r.whens
    && (forall h: nat :: h in r.cancelled <==> h in l.cancelled || M.CancelHandle(h) in actions)
    && ((forall x <- actions :: !x.After?) ==> forall h: nat | |l.whens| <= h < |r.whens| :: r.whens[h] == None)
    && r.ran == l.ran
  }

  lemma {:induction false} ActsDo(l: M.Loop, actions: seq<M.Action>)
    requires forall x <- actions :: !x.Fail? && (x.CancelHandle? ==> x.h < |l.whens|)
    ensures ActionsDo(l, actions, M.Acts(l, actions))
    decreases |actions|
  {
    if actions != [] {
      var x, rest := actions[0], actions[1..];
      assert actions == [x] + rest;
      var l1 := M.Act(l, x);
      assert |l.whens| <= |l1.whens|;
      ActsDo(l1, rest);
    }
  }

  lemma {:induction false} ActsConcat(l: M.Loop, a: seq<M.Action>, b: seq<M.Action>)
    requires forall x <- a :: !x.Fail?
    ensures M.Acts(l, a + b) == M.Acts(M.Acts(l, a), b)
    decreases |a|
  {
    if a == [] {
      assert a + b == b;
    } else {
      assert (a + b)[1..] == a[1..] + b;
      ActsConcat(M.Act(l, a[0]), a[1..], b);
    }
  }

  function Soons(n: nat): seq<M.Action> {
    if n == 0 then [] else [M.Soon] + Soons(n - 1)
  }

  /** `Handle.cancel` on each of the first `n` handles whose flag is new. */
  function NewlyCancelled(a: seq<Handle>, b: seq<Handle>, n: nat): seq<M.Action>
    requires n <= |a| <= |b|
  {
    if n == 0 then []
    else NewlyCancelled(a, b, n - 1) + if b[n - 1].cancelled && !a[n - 1].cancelled then [M.CancelHandle(n - 1)] else []
  }

  lemma {:induction false} SoonsCreate(n: nat)
    ensures Creations(Soons(n)) == n && forall x <- Soons(n) :: x == M.Soon
  {
    if n > 0 { SoonsCreate(n - 1); }
  }

  lemma {:induction false} CancelsCancel(a: seq<Handle>, b: seq<Handle>, n: nat)
    requires n <= |a| <= |b|
    ensures forall x <- NewlyCancelled(a, b, n) :: x.CancelHandle? && x.h < n && b[x.h].cancelled
    ensures forall h: nat | h < n && b[h].cancelled && !a[h].cancelled :: M.CancelHandle(h) in NewlyCancelled(a, b, n)
  {
    if n > 0 {
      CancelsCancel(a, b, n - 1);
      var before := NewlyCancelled(a, b, n - 1);
      assert forall x <- NewlyCancelled(a, b, n) :: x in before || x == M.CancelHandle(n - 1);
    }
  }

  lemma {:induction false} CancelsCreateNothing(cancels: seq<M.Action>, rest: seq<M.Action>)
    requires forall x <- cancels :: x.CancelHandle?
    ensures Creations(cancels + rest) == Creations(rest)
  {
    if cancels == [] {
      assert cancels + rest == rest;
    } else {
      assert (cancels + rest)[1..] == cancels[1..] + rest && cancels[0] in cancels;
      CancelsCreateNothing(cancels[1..], rest);
    }
  }

  /** Whatever a label does to the handles, some actions do it to the loop. */
  lemma ActionsExist(s: Sys, e: Label) returns (actions: seq<M.Action>)
    requires Inv(s) && Acyclic(s) && Enabled(s, e)
    ensures Mirrors(s.handles, Next(s, e).handles, e, actions)
  {
    var a, b := s.handles, Next(s, e).handles;
    LabelGrows(s, e);
    SoonsCreate(|b| - |a|);
    CancelsCancel(a, b, |a|);
    CancelsCreateNothing(NewlyCancelled(a, b, |a|), Soons(|b| - |a|));
    actions := NewlyCancelled(a, b, |a|) + Soons(|b| - |a|);
  }

  // ---------- The loop and the futures at the same time ----------

  /** The same handles with the same flags; only user code has timers. */
  ghost predicate SameTable(whens: seq<Option<real>>, cancelled: set<nat>, handles: seq<Handle>) {
    && |whens| == |handles|
    && (forall h: HandleId :: h in cancelled <==> h < |handles| && handles[h].cancelled)
    && (forall h: HandleId | h < |handles| && whens[h].Some? :: handles[h].target.Plain?)
  }

  /** The futures are in a state that any run may lead to, and the loop holds their handles. */
  ghost predicate Coupled(l: M.Loop, s: Sys) {
    && Inv(s) && Acyclic(s)
    && SameTable(l.whens, l.cancelled, s.handles)
    && P.RanIds(l.ran) == s.ran
  }

  /** A label with the actions in which it reaches the loop. Free of labels, time passes or `stop_loop` is called. */
  datatype Piece = Does(e: Label, actions: seq<M.Action>) | Free(actions: seq<M.Action>)

  ghost predicate Occurs(s: Sys, p: Piece) {
    p.Does? ==> Enabled(s, p.e)
  }

  ghost function AfterPiece(s: Sys, p: Piece): Sys
    requires Occurs(s, p)
  {
    if p.Does? then Next(s, p.e) else s
  }

  /** The environment's part in a piece: all but the choice of the handles that the loop enters. */
  ghost predicate PieceOk(s: Sys, p: Piece) {
    match p
    case Free(actions) => forall x <- actions :: x.Tick? || x.Stop?
    case Does(e, actions) =>
      if e.Begin? then actions == [] else Enabled(s, e) && Mirrors(s.handles, Next(s, e).handles, e, actions)
  }

  /** The environment keeps its contract as long as the loop enters only handles that it may enter. */
  ghost predicate Keeps(s: Sys, ps: seq<Piece>)
    decreases |ps|
  {
    ps == [] || (PieceOk(s, ps[0]) && (Occurs(s, ps[0]) ==> Keeps(AfterPiece(s, ps[0]), ps[1..])))
  }

  function ActionsOf(ps: seq<Piece>): seq<M.Action> {
    if ps == [] then [] else ps[0].actions + ActionsOf(ps[1..])
  }

  function Labels(ps: seq<Piece>): seq<Label> {
    if ps == [] then [] else (if ps[0].Does? then [ps[0].e] else []) + Labels(ps[1..])
  }

  lemma {:induction false} FreeCreatesNothing(actions: seq<M.Action>)
    requires forall x <- actions :: x.Tick? || x.Stop?
    ensures Creations(actions) == 0
  {
    if actions != [] {
      assert actions[0] in actions;
      FreeCreatesNothing(actions[1..]);
    }
  }

  lemma TableFollows(l: M.Loop, r: M.Loop, e: Label, a: seq<Handle>, b: seq<Handle>, actions: seq<M.Action>)
    requires SameTable(l.whens, l.cancelled, a) && ActionsDo(l, actions, r)
    requires TableGrows(a, b) && Mirrors(a, b, e, actions)
    requires e.CallSoon? ==> |b| == |a| + 1 && b[|a|].target.Plain?
    ensures SameTable(r.whens, r.cancelled, b)
  {
    forall h: HandleId | h < |b| && r.whens[h].Some? ensures b[h].target.Plain? {
      if h < |a| { assert r.whens[h] == l.whens[h]; }
    }
  }

  lemma PieceCouples(l: M.Loop, s: Sys, p: Piece)
    requires Coupled(l, s) && PieceOk(s, p) && !(p.Does? && p.e.Begin?)
    ensures Occurs(s, p) && Coupled(M.Acts(l, p.actions), AfterPiece(s, p))
    ensures forall x <- p.actions :: !x.Fail?
  {
    ActsDo(l, p.actions);
    var r := M.Acts(l, p.actions);
    match p {
      case Free(actions) =>
        FreeCreatesNothing(actions);
        assert r.whens == l.whens;
      case Does(e, actions) =>
        EveryStepGood(s, e);
        StepAcyclic(s, e);
        LabelGrows(s, e);
        StepRanExtends(s, e);
        TableFollows(l, r, e, s.handles, Next(s, e).handles, actions);
    }
  }

  // ---------- Pieces in a row ----------

  lemma {:induction false} RunConcat(s: Sys, es: seq<Label>, fs: seq<Label>)
    requires IsRun(s, es) && IsRun(After(s, es), fs)
    ensures IsRun(s, es + fs) && After(s, es + fs) == After(After(s, es), fs)
    decreases |es|
  {
    if es == [] {
      assert es + fs == fs;
    } else {
      assert (es + fs)[1..] == es[1..] + fs;
      RunConcat(Next(s, es[0]), es[1..], fs);
    }
  }

  lemma {:induction false} LabelsConcat(ps: seq<Piece>, qs: seq<Piece>)
    ensures Labels(ps + qs) == Labels(ps) + Labels(qs)
    decreases |ps|
  {
    if ps == [] {
      assert ps + qs == qs;
    } else {
      assert (ps + qs)[0] == ps[0] && (ps + qs)[1..] == ps[1..] + qs;
      LabelsConcat(ps[1..], qs);
    }
  }

  lemma {:induction false} ActionsConcat(ps: seq<Piece>, qs: seq<Piece>)
    ensures ActionsOf(ps + qs) == ActionsOf(ps) + ActionsOf(qs)
    decreases |ps|
  {
    if ps == [] {
      assert ps + qs == qs;
    } else {
      assert (ps + qs)[0] == ps[0] && (ps + qs)[1..] == ps[1..] + qs;
      ActionsConcat(ps[1..], qs);
    }
  }

  /** From `s` the pieces are a run of the futures, which goes together with the loop's way to `r`. */
  ghost predicate Leads(s: Sys, ps: seq<Piece>, r: M.Loop) {
    IsRun(s, Labels(ps)) && Coupled(r, After(s, Labels(ps)))
  }

  lemma LabelsCons(ps: seq<Piece>)
    requires ps != []
    ensures if ps[0].Does? then Labels(ps) != [] && Labels(ps)[0] == ps[0].e && Labels(ps)[1..] == Labels(ps[1..])
            else Labels(ps) == Labels(ps[1..])
  {
    assert Labels(ps) == (if ps[0].Does? then [ps[0].e] else []) + Labels(ps[1..]);
  }

  lemma {:induction false} KeepsConcat(s: Sys, ps: seq<Piece>, qs: seq<Piece>)
    requires Keeps(s, ps + qs)
    ensures Keeps(s, ps) && (IsRun(s, Labels(ps)) ==> Keeps(After(s, Labels(ps)), qs))
    decreases |ps|
  {
    if ps == [] {
      assert ps + qs == qs;
    } else {
      assert (ps + qs)[1..] == ps[1..] + qs;
      LabelsCons(ps);
      if Occurs(s, ps[0]) { KeepsConcat(AfterPiece(s, ps[0]), ps[1..], qs); }
    }
  }

  lemma LeadsConcat(s: Sys, ps: seq<Piece>, qs: seq<Piece>, r: M.Loop)
    requires IsRun(s, Labels(ps)) && Leads(After(s, Labels(ps)), qs, r)
    ensures Leads(s, ps + qs, r) && After(s, Labels(ps + qs)) == After(After(s, Labels(ps)), Labels(qs))
  {
    LabelsConcat(ps, qs);
    RunConcat(s, Labels(ps), Labels(qs));
  }

  /** Pieces that neither enter a handle nor leave one. */
  predicate AllInside(ps: seq<Piece>) {
    forall p <- ps | p.Does? :: !p.e.Begin? && !IsEnd(p.e)
  }

  /** What a callback does: pieces inside of it, and the label that ends it. */
  predicate IsBody(ps: seq<Piece>) {
    ps != [] && AllInside(ps[..|ps| - 1]) && ps[|ps| - 1].Does? && IsEnd(ps[|ps| - 1].e)
  }

  lemma OnePiece(l: M.Loop, s: Sys, p: Piece)
    requires Coupled(l, s) && Keeps(s, [p]) && !(p.Does? && p.e.Begin?)
    ensures Leads(s, [p], M.Acts(l, p.actions)) && Labels([p]) == (if p.Does? then [p.e] else [])
    ensures After(s, Labels([p])).cur == if p.Does? && IsEnd(p.e) then None else s.cur
    ensures forall x <- p.actions :: !x.Fail?
  {
    PieceCouples(l, s, p);
    assert [p][1..] == [] && Labels([p]) == (if p.Does? then [p.e] else []);
    if p.Does? {
      LabelGrows(s, p.e);
      assert [p.e][1..] == [] && IsRun(Next(s, p.e), []);
    }
  }

  lemma {:induction false} InsidePieces(l: M.Loop, s: Sys, ps: seq<Piece>)
    requires Coupled(l, s) && Keeps(s, ps) && AllInside(ps)
    ensures Leads(s, ps, M.Acts(l, ActionsOf(ps))) && After(s, Labels(ps)).cur == s.cur
    ensures forall x <- ActionsOf(ps) :: !x.Fail?
    decreases |ps|
  {
    if ps != [] {
      var p, rest := ps[0], ps[1..];
      assert ps == [p] + rest && p in ps;
      KeepsConcat(s, [p], rest);
      OnePiece(l, s, p);
      var l1 := M.Acts(l, p.actions);
      InsidePieces(l1, After(s, Labels([p])), rest);
      LeadsConcat(s, [p], rest, M.Acts(l1, ActionsOf(rest)));
      ActsConcat(l, p.actions, ActionsOf(rest));
    }
  }

  lemma BodyPieces(l: M.Loop, s: Sys, inner: seq<Piece>, end: Piece)
    requires Coupled(l, s) && Keeps(s, inner + [end]) && AllInside(inner) && end.Does? && IsEnd(end.e)
    ensures Leads(s, inner + [end], M.Acts(l, ActionsOf(inner + [end])))
    ensures After(s, Labels(inner + [end])).cur == None
  {
    KeepsConcat(s, inner, [end]);
    InsidePieces(l, s, inner);
    var l1 := M.Acts(l, ActionsOf(inner));
    OnePiece(l1, After(s, Labels(inner)), end);
    LeadsConcat(s, inner, [end], M.Acts(l1, end.actions));
    BodyActs(l, inner, end);
  }

  lemma BodyActs(l: M.Loop, inner: seq<Piece>, end: Piece)
    requires forall x <- ActionsOf(inner) :: !x.Fail?
    ensures M.Acts(l, ActionsOf(inner + [end])) == M.Acts(M.Acts(l, ActionsOf(inner)), end.actions)
  {
    ActionsConcat(inner, [end]);
    assert [end][1..] == [] && ActionsOf([end]) == end.actions + [] == end.actions;
    ActsConcat(l, ActionsOf(inner), end.actions);
  }

  // ---------- Callbacks ----------

  /** The body of the n-th callback; those beyond the list return at once. */
  function BodyAt(bodies: seq<seq<Piece>>, n: nat): seq<Piece> {
    if n < |bodies| then bodies[n] else [Does(EndCallback, [])]
  }

  function Scripts(bodies: seq<seq<Piece>>): (scripts: seq<seq<M.Action>>)
    ensures |scripts| == |bodies|
  {
    seq(|bodies|, i requires 0 <= i < |bodies| => ActionsOf(bodies[i]))
  }

  lemma ScriptAt(bodies: seq<seq<Piece>>, n: nat)
    ensures M.Script(Scripts(bodies), n) == ActionsOf(BodyAt(bodies, n))
  {
    assert [Does(EndCallback, [])][1..] == [];
  }

  /** The pieces of the next callback of the batch; a cancelled handle is skipped. */
  function CallPieces(l: M.Loop, body: seq<Piece>): seq<Piece>
    requires l.batch != []
  {
    if l.batch[0] in l.cancelled then [] else [Does(Begin(l.batch[0]), [])] + body
  }

  function BatchPieces(l: M.Loop, bodies: seq<seq<Piece>>): seq<Piece>
    decreases |l.batch|
  {
    if l.batch == [] then []
    else
      var body := BodyAt(bodies, |l.ran|);
      CallPieces(l, body) + BatchPieces(M.Invoke(l, ActionsOf(body)), bodies)
  }

  /** The loop is between two callbacks. */
  ghost predicate Between(l: M.Loop, s: Sys) {
    Coupled(l, s) && s.cur == None
  }

  /** The handles that the loop invokes are those that the futures allow it to enter. */
  lemma NextHandleIsLive(l: M.Loop, s: Sys)
    requires Between(l, s) && P.Conserved(l) && l.batch != [] && l.batch[0] !in l.cancelled
    ensures Enabled(s, Begin(l.batch[0]))
  {
    var h := l.batch[0];
    assert h in l.batch;
    P.HandleCreated(l, h);
    assert P.Places(l, h) <= 1;
    P.CountIn(l.batch, h);
    P.CountIn(P.RanIds(l.ran), h);
  }

  lemma EnterCouples(l: M.Loop, s: Sys, h: HandleId, r: M.Loop)
    requires Between(l, s) && Enabled(s, Begin(h))
    requires r.whens == l.whens && r.cancelled == l.cancelled && r.ran == l.ran + [M.Call(h, l.now)]
    ensures Leads(s, [Does(Begin(h), [])], r)
    ensures Labels([Does(Begin(h), [])]) == [Begin(h)]
  {
    var e := Begin(h);
    EveryStepGood(s, e);
    StepAcyclic(s, e);
    LabelGrows(s, e);
    StepRanExtends(s, e);
    BeginCancelsNothing(s, h);
    assert P.RanIds(l.ran + [M.Call(h, l.now)]) == P.RanIds(l.ran) + [h];
    assert [Does(e, [])][1..] == [] && [e][1..] == [] && IsRun(Next(s, e), []);
  }

  lemma BeginCancelsNothing(s: Sys, h: HandleId)
    requires Inv(s) && Enabled(s, Begin(h))
    ensures Next(s, Begin(h)).handles == s.handles
  {
    assert HandleOk(s, h);
    var t := StepTarget(s.handles[h].target);
    if t.Some? { WaitedStateOk(s, t.value); }
  }

  lemma CallCouples(l: M.Loop, s: Sys, body: seq<Piece>)
    requires Between(l, s) && P.Conserved(l) && l.batch != [] && IsBody(body)
    requires Keeps(s, CallPieces(l, body))
    ensures Leads(s, CallPieces(l, body), M.Invoke(l, ActionsOf(body)))
    ensures After(s, Labels(CallPieces(l, body))).cur == None
  {
    var h := l.batch[0];
    if h !in l.cancelled {
      NextHandleIsLive(l, s);
      var begin, l1 := [Does(Begin(h), [])], l.(batch := l.batch[1..], ran := l.ran + [M.Call(h, l.now)]);
      KeepsConcat(s, begin, body);
      EnterCouples(l, s, h, l1);
      var inner, end := body[..|body| - 1], body[|body| - 1];
      assert body == inner + [end];
      BodyPieces(l1, After(s, Labels(begin)), inner, end);
      LeadsConcat(s, begin, body, M.Invoke(l, ActionsOf(body)));
    }
  }

  predicate AreBodies(bodies: seq<seq<Piece>>) {
    forall body <- bodies :: IsBody(body)
  }

  lemma {:induction false} BatchCouples(l: M.Loop, s: Sys, bodies: seq<seq<Piece>>)
    requires Between(l, s) && P.Inv(l) && AreBodies(bodies) && Keeps(s, BatchPieces(l, bodies))
    ensures Leads(s, BatchPieces(l, bodies), M.RunBatch(l, Scripts(bodies)))
    ensures After(s, Labels(BatchPieces(l, bodies))).cur == None
    decreases |l.batch|
  {
    if l.batch != [] {
      var body := BodyAt(bodies, |l.ran|);
      var call, l1 := CallPieces(l, body), M.Invoke(l, ActionsOf(body));
      assert IsBody(body);
      ScriptAt(bodies, |l.ran|);
      KeepsConcat(s, call, BatchPieces(l1, bodies));
      CallCouples(l, s, body);
      P.InvokeKeepsInv(l, ActionsOf(body));
      BatchCouples(l1, After(s, Labels(call)), bodies);
      LeadsConcat(s, call, BatchPieces(l1, bodies), M.RunBatch(l1, Scripts(bodies)));
    }
  }

  // ---------- Steps of the loop ----------

  function Concat(io: seq<seq<Piece>>): seq<Piece> {
    if io == [] then [] else io[0] + Concat(io[1..])
  }

  lemma {:induction false} IOCouples(l: M.Loop, s: Sys, io: seq<seq<Piece>>)
    requires Between(l, s) && (forall ps <- io :: AllInside(ps)) && Keeps(s, Concat(io))
    ensures Leads(s, Concat(io), M.RunIO(l, Scripts(io))) && After(s, Labels(Concat(io))).cur == None
    decreases |io|
  {
    if io != [] {
      var ps, rest := io[0], Concat(io[1..]);
      KeepsConcat(s, ps, rest);
      InsidePieces(l, s, ps);
      assert Scripts(io)[1..] == Scripts(io[1..]);
      IOCouples(M.Acts(l, ActionsOf(ps)), After(s, Labels(ps)), io[1..]);
      LeadsConcat(s, ps, rest, M.RunIO(M.Acts(l, ActionsOf(ps)), Scripts(io[1..])));
    }
  }

  /** What happens around one step of the loop, with the labels behind the actions. */
  datatype Surroundings = Surroundings(idle: real, pause: real, select: seq<Piece>, io: seq<seq<Piece>>,
                                       bodies: seq<seq<Piece>>)

  function EnvOf(a: Surroundings): M.StepEnv {
    M.StepEnv(a.idle, a.pause, ActionsOf(a.select), Scripts(a.io), Scripts(a.bodies))
  }

  predicate Shaped(a: Surroundings) {
    AllInside(a.select) && (forall ps <- a.io :: AllInside(ps)) && AreBodies(a.bodies)
  }

  /** The loop when it has popped its late callbacks. */
  function Late(l: M.Loop, e: M.StepEnv, next: Option<real>): M.Loop {
    M.PopPending(M.BeforeLate(l, e, next), M.DueTime(M.AfterSelect(l, e, next)))
  }

  function EarlyPieces(l: M.Loop, a: Surroundings, next: Option<real>): seq<Piece> {
    a.select + (BatchPieces(M.AfterSelect(l, EnvOf(a), next), a.bodies) + Concat(a.io))
  }

  /** The pieces of one step, in the order in which the loop comes to them. */
  function StepPieces(l: M.Loop, a: Surroundings, next: Option<real>): seq<Piece> {
    EarlyPieces(l, a, next) + BatchPieces(Late(l, EnvOf(a), next), a.bodies)
  }

  lemma EarlyCouples(l: M.Loop, s: Sys, a: Surroundings, next: Option<real>)
    requires P.AtBoundary(l) && Between(l, s) && Shaped(a) && Keeps(s, EarlyPieces(l, a, next))
    ensures Leads(s, EarlyPieces(l, a, next), M.BeforeLate(l, EnvOf(a), next))
    ensures After(s, Labels(EarlyPieces(l, a, next))).cur == None
  {
    var e := EnvOf(a);
    var l1, l2 := M.BeforeSelect(l, e), M.AfterSelect(l, e, next);
    var batch, io := BatchPieces(l2, a.bodies), Concat(a.io);
    KeepsConcat(s, a.select, batch + io);
    InsidePieces(l1.(waits := l1.waits + [M.Wait(l1, next)]), s, a.select);
    var s2 := After(s, Labels(a.select));
    KeepsConcat(s2, batch, io);
    R.AfterSelectKeepsInv(l, e, next);
    BatchCouples(l2, s2, a.bodies);
    IOCouples(M.RunBatch(l2, e.scripts), After(s2, Labels(batch)), a.io);
    LeadsConcat(s2, batch, io, M.BeforeLate(l, e, next));
    LeadsConcat(s, a.select, batch + io, M.BeforeLate(l, e, next));
  }

  /** One step of the loop is a run of the futures on it. */
  lemma StepCouples(l: M.Loop, s: Sys, a: Surroundings, next: Option<real>)
    requires P.AtBoundary(l) && Between(l, s) && Shaped(a) && Keeps(s, StepPieces(l, a, next))
    ensures Leads(s, StepPieces(l, a, next), M.RunStep(l, EnvOf(a), next))
    ensures After(s, Labels(StepPieces(l, a, next))).cur == None
  {
    var e, early := EnvOf(a), EarlyPieces(l, a, next);
    var l3, l4 := M.BeforeLate(l, e, next), Late(l, e, next);
    KeepsConcat(s, early, BatchPieces(l4, a.bodies));
    EarlyCouples(l, s, a, next);
    var s3 := After(s, Labels(early));
    R.BeforeLateKeepsInv(l, e, next);
    R.BeforeLateExtends(l, e, next);
    P.PopPendingKeepsInv(l3, M.DueTime(M.AfterSelect(l, e, next)));
    BatchCouples(l4, s3, a.bodies);
    LeadsConcat(s, early, BatchPieces(l4, a.bodies), M.RunStep(l, e, next));
  }

  // ---------- The life of a loop with futures ----------

  /** The stages of LoopMachine, with the labels behind the actions. */
  datatype Stage = Outside(pieces: seq<Piece>) | Enter | Turn(around: Surroundings, next: Option<real>)

  function LoopStage(st: Stage): M.Stage {
    match st
    case Outside(pieces) => M.Outside(ActionsOf(pieces))
    case Enter => M.Enter
    case Turn(around, next) => M.Turn(M.Round(EnvOf(around), next))
  }

  function LoopStages(stages: seq<Stage>): (r: seq<M.Stage>)
    ensures |r| == |stages|
  {
    seq(|stages|, i requires 0 <= i < |stages| => LoopStage(stages[i]))
  }

  function StagePieces(l: M.Loop, st: Stage): seq<Piece> {
    match st
    case Outside(pieces) => pieces
    case Enter => []
    case Turn(around, next) => StepPieces(l, around, next)
  }

  /** All pieces of the stages, in order. */
  function LifePieces(l: M.Loop, stages: seq<Stage>): seq<Piece>
    decreases |stages|
  {
    if stages == [] then []
    else StagePieces(l, stages[0]) + LifePieces(M.AfterStage(l, LoopStage(stages[0])), stages[1..])
  }

  predicate StageShaped(st: Stage) {
    match st
    case Outside(pieces) => AllInside(pieces)
    case Enter => true
    case Turn(around, _) => Shaped(around)
  }

  lemma EnterCouplesLoop(l: M.Loop, s: Sys)
    requires Between(l, s)
    ensures Leads(s, [], l.(run := true))
  {
  }

  lemma StageCouples(l: M.Loop, s: Sys, st: Stage, ps: seq<Piece>, r: M.Loop)
    requires P.AtBoundary(l) && Between(l, s) && StageShaped(st) && Keeps(s, ps)
    requires ps == StagePieces(l, st) && r == M.AfterStage(l, LoopStage(st))
    ensures Leads(s, ps, r) && After(s, Labels(ps)).cur == None
  {
    match st
    case Outside(pieces) =>
      InsidePieces(l, s, pieces);
    case Enter =>
      EnterCouplesLoop(l, s);
    case Turn(around, next) =>
      StepCouples(l, s, around, next);
  }

  lemma StagesNext(l: M.Loop, stages: seq<Stage>)
    requires stages != []
    ensures M.AfterStages(l, LoopStages(stages)) ==
            M.AfterStages(M.AfterStage(l, LoopStage(stages[0])), LoopStages(stages[1..]))
  {
    assert LoopStages(stages)[1..] == LoopStages(stages[1..]);
  }

  /**
   Any run of the loop whose callbacks are the handles of futures, tasks and user code is a run of the
   futures too: each handle that the loop invokes is one that the futures allow it to enter, and between
   two steps both hold the same handles, with the same flags, entered in the same order.
   */
  lemma {:induction false} LoopRunsAreRuns(l: M.Loop, s: Sys, stages: seq<Stage>)
    requires P.AtBoundary(l) && Between(l, s) && (forall st <- stages :: StageShaped(st))
    requires Keeps(s, LifePieces(l, stages))
    ensures IsRun(s, Labels(LifePieces(l, stages)))
    ensures Between(M.AfterStages(l, LoopStages(stages)), After(s, Labels(LifePieces(l, stages))))
    decreases |stages|
  {
    if stages != [] {
      var st, rest := stages[0], stages[1..];
      var ps, l1 := StagePieces(l, st), M.AfterStage(l, LoopStage(st));
      KeepsConcat(s, ps, LifePieces(l1, rest));
      StageCouples(l, s, st, ps, l1);
      R.StageKeepsInv(l, LoopStage(st));
      LoopRunsAreRuns(l1, After(s, Labels(ps)), rest);
      StagesNext(l, stages);
      LeadsConcat(s, ps, LifePieces(l1, rest), M.AfterStages(l, LoopStages(stages)));
    }
  }

  lemma FreshCouples(now: real, resolution: real)
    requires resolution >= 0.0
    ensures var l := M.Fresh(now, resolution);
            R.Reachable(l) && P.AtBoundary(l) && Between(l, INIT)
  {
    R.FreshIsReachable(now, resolution);
    R.ReachableInv(M.Fresh(now, resolution));
  }

  /** From a fresh loop without futures everything that happens is reachable, for the loop and for the futures. */
  lemma LifeIsReachable(now: real, resolution: real, stages: seq<Stage>)
    requires resolution >= 0.0 && (forall st <- stages :: StageShaped(st))
    requires Keeps(INIT, LifePieces(M.Fresh(now, resolution), stages))
    ensures var l := M.AfterStages(M.Fresh(now, resolution), LoopStages(stages));
            var es := Labels(LifePieces(M.Fresh(now, resolution), stages));
            && IsRun(INIT, es) && Reachable(After(INIT, es))
            && R.Reachable(l) && P.AtBoundary(l) && Between(l, After(INIT, es))
  {
    var l := M.Fresh(now, resolution);
    FreshCouples(now, resolution);
    LoopRunsAreRuns(l, INIT, stages);
    R.ReachableStages(l, LoopStages(stages));
    R.ReachableInv(M.AfterStages(l, LoopStages(stages)));
  }

  /** What a loop and the futures on it can have come to between two steps. */
  ghost predicate Together(l: M.Loop, s: Sys) {
    exists now: real, resolution: real, stages: seq<Stage> ::
      var l0 := M.Fresh(now, resolution);
      && resolution >= 0.0 && (forall st <- stages :: StageShaped(st)) && Keeps(INIT, LifePieces(l0, stages))
      && l == M.AfterStages(l0, LoopStages(stages))
      && IsRun(INIT, Labels(LifePieces(l0, stages))) && s == After(INIT, Labels(LifePieces(l0, stages)))
  }

  lemma TogetherReachable(l: M.Loop, s: Sys)
    requires Together(l, s)
    ensures R.Reachable(l) && Reachable(s) && P.AtBoundary(l) && Between(l, s)
  {
    var now: real, resolution: real, stages: seq<Stage> :|
      var l0 := M.Fresh(now, resolution);
      && resolution >= 0.0 && (forall st <- stages :: StageShaped(st)) && Keeps(INIT, LifePieces(l0, stages))
      && l == M.AfterStages(l0, LoopStages(stages))
      && IsRun(INIT, Labels(LifePieces(l0, stages))) && s == After(INIT, Labels(LifePieces(l0, stages)));
    LifeIsReachable(now, resolution, stages);
  }
}
