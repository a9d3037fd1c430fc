/**
 The event loop refines the sequential specification: in every interleaving the files hold
 exactly what the recorded history says, every recorded outcome was legal when it was
 reported, and both locks are free whenever no task runs.
 */
module JoinLoopProof {
  import opened Common
  import opened JoinModel
  import opened JoinHistory
  import opened JoinLoop

  // ---------------------------------------------------------------- one file

  predicate Critical(io: Io) {
    io.LoadBody? || io.LoadUnlock? || io.SaveTmp? || io.SaveRename? || io.SaveUnlock?
  }

  predicate Idle(d: Disk) { d.lock == FREE }

  predicate HasData(io: Io) { io.SaveLock? || io.SaveTmp? || io.SaveRename? }

  /** The running task is at `io` and nobody else is inside or queued. */
  ghost predicate Inside<V>(d: Disk<V>, io: Io<V>) {
    && d.lock == Lock(Critical(io), [])
    && (io.LoadUnlock? ==> io.data == View(d))
    && (io.SaveRename? ==> d.tmp == Some(io.data))
  }

  /** A file step by the only active task: it never parks, reads the current file, and changes it only at the rename. */
  lemma IoStepInside<V>(d: Disk<V>, id: TaskId, io: Io<V>)
    requires Inside(d, io)
    ensures !IoStep(d, id, io).next.Parked?
    ensures View(IoStep(d, id, io).disk) == if io.SaveRename? then io.data else View(d)
    ensures match IoStep(d, id, io).next
            case Goto(io') =>
              && Inside(IoStep(d, id, io).disk, io')
              && (HasData(io') ==> HasData(io) && io'.data == io.data && !io.SaveRename?)
              && (io.SaveRename? <==> io'.SaveUnlock?)
              && (HasData(io) ==> HasData(io') || io'.SaveUnlock?)
            case Loaded(data) => data == View(d) && Idle(IoStep(d, id, io).disk) && (io.Probe? || io.LoadUnlock?)
            case Saved => io.SaveUnlock? && Idle(IoStep(d, id, io).disk)
            case Parked => false
  {
  }

  // ---------------------------------------------------------------- tasks

  predicate AtRest(pc: Pc) { pc.Begin? || pc.Await? || pc.Done? }

  /** A task that may still commit an approval: nothing was committed in its name yet. */
  predicate MayCommit(pc: Pc) {
    !pc.Done? && !(pc.OnReqs? && pc.rio.SaveUnlock?)
  }

  /** What holds of a task wherever it stands; other tasks cannot break it. */
  ghost predicate TaskSound(h: History, id: TaskId, t: Task) {
    && (t.pc.Begin? ==> t.locals == Nothing)
    && (t.pc.Await? ==> t.locals.Grant? || t.locals.Seen?)
    && (t.locals.Seen? ==> t.op.Approve? && CheckedBefore(h, id, t.op.tenant))
    && (t.locals.Grant? ==> t.op.Handshake?)
    && (MayCommit(t.pc) ==> !CommittedBefore(h, id))
  }

  ghost predicate CommitReady(h: History, id: TaskId, commit: Option<Event>) {
    commit.Some? && Legal(h, commit.value) && commit.value.task == id
  }

  ghost predicate KeysCommitReady(h: History, id: TaskId, t: Task)
    requires t.pc.OnKeys? && HasData(t.pc.kio)
  {
    && CommitReady(h, id, t.pc.kcommit)
    && Apply(Replay(h), t.pc.kcommit.value) == Replay(h).(keys := t.pc.kio.data)
    && (t.op.Prepare? ==> t.pc.kcommit.value.KeyCreated?)
    && (t.op.Handshake? ==>
          if t.locals.Grant? then
            t.pc.kcommit.value.KeyConsumed? && t.pc.kcommit.value.key == t.locals.key
            && t.pc.kcommit.value.tenant == t.locals.tenant
          else t.pc.kcommit.value.KeyLapsed?)
  }

  ghost predicate KeysRunSound(h: History, id: TaskId, t: Task)
    requires t.pc.OnKeys?
  {
    && (t.op.Prepare? || t.op.Handshake?)
    && (t.op.Prepare? ==> t.locals.Ticket? && (!t.pc.kio.SaveUnlock? ==> t.locals.key !in Replay(h).keys))
    && (t.op.Handshake? ==> t.locals.Grant? || t.locals == Nothing)
    && (HasData(t.pc.kio) ==> KeysCommitReady(h, id, t))
    && (!HasData(t.pc.kio) && !t.pc.kio.SaveUnlock? && t.op.Handshake? ==> t.locals == Nothing)
    && (t.pc.kio.SaveUnlock? && t.locals.Grant? ==> Legal(h, ProvisionStarted(id, t.locals.key, t.locals.tenant)))
  }

  ghost predicate ReqsRunSound(h: History, id: TaskId, t: Task)
    requires t.pc.OnReqs?
  {
    && (t.op.Submit? || t.op.Reject? || t.op.Approve?)
    && (t.op.Submit? ==> TenantIdPossible(t.op.tenant))
    && (t.op.Reject? && t.pc.leg == Second && !t.pc.rio.SaveUnlock? ==>
          t.op.tenant in Replay(h).reqs && !AlreadyApproved(Replay(h).reqs, t.op.tenant))
    && (t.op.Approve? ==>
          if t.pc.leg == First then t.locals == Nothing && !HasData(t.pc.rio) && !t.pc.rio.SaveUnlock?
          else t.locals.Seen?)
    && (HasData(t.pc.rio) ==>
          && CommitReady(h, id, t.pc.rcommit)
          && Apply(Replay(h), t.pc.rcommit.value) == Replay(h).(reqs := t.pc.rio.data)
          && (t.pc.rcommit.value.ApproveCommitted? ==> t.op.Approve?))
  }

  ghost predicate RunSound(w: World, id: TaskId, t: Task) {
    match t.pc
    case OnKeys(io, _) => Inside(w.keys, io) && Idle(w.reqs) && KeysRunSound(w.history, id, t)
    case OnReqs(io, _, _) => Inside(w.reqs, io) && Idle(w.keys) && ReqsRunSound(w.history, id, t)
    case _ => Idle(w.keys) && Idle(w.reqs)
  }

  // ---------------------------------------------------------------- the invariant

  ghost predicate Explained(w: World) {
    && LegalHistory(w.history)
    && Replay(w.history) == Db(View(w.keys), View(w.reqs))
    && (forall i :: 0 <= i < |w.history| ==> w.history[i].task in w.tasks)
  }

  /** All tasks but `id` are suspended or ended. */
  ghost predicate OthersRest(w: World, id: TaskId) {
    forall k :: k in w.tasks && k != id ==> AtRest(w.tasks[k].pc) && TaskSound(w.history, k, w.tasks[k])
  }

  ghost predicate Inv(w: World) {
    && Explained(w)
    && match w.running
       case None =>
         && Idle(w.keys) && Idle(w.reqs)
         && forall k :: k in w.tasks ==> AtRest(w.tasks[k].pc) && TaskSound(w.history, k, w.tasks[k])
       case Some(id) =>
         && id in w.tasks && !AtRest(w.tasks[id].pc)
         && TaskSound(w.history, id, w.tasks[id])
         && RunSound(w, id, w.tasks[id])
         && OthersRest(w, id)
  }

  lemma SettleKeepsInv(w: World, id: TaskId, t: Task)
    requires id in w.tasks && Explained(w) && OthersRest(w, id)
    requires TaskSound(w.history, id, t) && RunSound(w, id, t)
    ensures Inv(Settle(w, id, t))
  {
  }

  /** Recording an event of one task leaves the facts about the others standing. */
  lemma OthersUnaware(w: World, w': World, id: TaskId, ev: Event)
    requires id in w.tasks && OthersRest(w, id) && ev.task == id
    requires w'.tasks == w.tasks && w'.history == w.history + [ev]
    ensures OthersRest(w', id)
  {
    var h, h' := w.history, w'.history;
    forall k | k in w.tasks && k != id ensures TaskSound(h', k, w.tasks[k]) {
      var t := w.tasks[k];
      if t.locals.Seen? {
        var i :| 0 <= i < |h| && h[i].ApproveChecked? && h[i].task == k && h[i].tenant == t.op.tenant;
        assert h'[i] == h[i];
      }
      assert forall i :: 0 <= i < |h'| ==> (i < |h| && h'[i] == h[i]) || h'[i] == ev;
    }
  }

  lemma OwnFactsKept(h: History, id: TaskId, t: Task, ev: Event)
    requires TaskSound(h, id, t) && !ev.ApproveCommitted?
    ensures TaskSound(h + [ev], id, t)
  {
    if t.locals.Seen? {
      var i :| 0 <= i < |h| && h[i].ApproveChecked? && h[i].task == id && h[i].tenant == t.op.tenant;
      assert (h + [ev])[i] == h[i];
    }
    assert forall i :: 0 <= i < |h + [ev]| ==> (i < |h| && (h + [ev])[i] == h[i]) || (h + [ev])[i] == ev;
  }

  /** A report that changes neither file may be recorded at once. */
  lemma ReportExplained(w: World, w': World, id: TaskId, ev: Event)
    requires Explained(w) && id in w.tasks && ev.task == id && Legal(w.history, ev)
    requires Apply(Replay(w.history), ev) == Db(View(w'.keys), View(w'.reqs))
    requires w'.tasks == w.tasks && w'.history == w.history + [ev]
    ensures Explained(w')
  {
    AppendLegal(w.history, ev);
  }

  // ---------------------------------------------------------------- steps on the key file

  /** After its consumption is on disk a handshake may start provisioning: no earlier run used this key. */
  lemma GrantReady(h: History, ev: Event)
    requires LegalHistory(h) && Legal(h, ev) && ev.KeyConsumed?
    ensures Legal(h + [ev], ProvisionStarted(ev.task, ev.key, ev.tenant))
  {
    ConsumeEffect(h, ev);
    AppendLegal(h, ev);
    var h' := h + [ev];
    assert h'[|h|] == ev;
    OpenKeyNotProvisioned(h, ev.key);
    assert forall i :: 0 <= i < |h'| && h'[i].ProvisionStarted? ==> h'[i] == h[i];
  }

  /** The rename is the one step that changes the file, and it changes it as the recorded event says. */
  lemma KeysRenameInv(w: World, id: TaskId, env: Env)
    requires Inv(w) && w.running == Some(id) && w.tasks[id].pc.OnKeys? && w.tasks[id].pc.kio.SaveRename?
    ensures Inv(MicroKeys(w, id, w.tasks[id], env))
  {
    var t := w.tasks[id];
    var ev := t.pc.kcommit.value;
    var w1 := w.(keys := IoStep(w.keys, id, t.pc.kio).disk, history := w.history + [ev]);
    ReportExplained(w, w1, id, ev);
    OthersUnaware(w, w1, id, ev);
    OwnFactsKept(w.history, id, t, ev);
    if t.locals.Grant? {
      GrantReady(w.history, ev);
    }
    SettleKeepsInv(w1, id, t.(pc := t.pc.(kio := SaveUnlock)));
  }

  /** What the code behind a load of the key file owes the invariant. */
  ghost predicate KeysTurnSound(h: History, id: TaskId, t: Task, turn: Turn) {
    var t1 := Task(t.op, turn.pc, turn.locals);
    && (turn.pc.OnKeys? || turn.pc.Done?)
    && (turn.pc.OnKeys? ==> turn.pc.kio.SaveLock? && turn.log == [] && KeysRunSound(h, id, t1))
    && (turn.log != [] ==>
          && |turn.log| == 1 && turn.log[0].task == id && Legal(h, turn.log[0])
          && Apply(Replay(h), turn.log[0]) == Replay(h))
    && TaskSound(h + turn.log, id, t1)
  }

  lemma KeysTurn(h: History, id: TaskId, t: Task, env: Env)
    requires TaskSound(h, id, t) && t.pc.OnKeys? && KeysRunSound(h, id, t)
    requires !HasData(t.pc.kio) && !t.pc.kio.SaveUnlock?
    ensures KeysTurnSound(h, id, t, KeysLoaded(id, t, Replay(h).keys, env))
  {
    var turn := KeysLoaded(id, t, Replay(h).keys, env);
    if turn.log == [] {
      assert h + turn.log == h;
    } else {
      assert turn.log == [turn.log[0]];
      OwnFactsKept(h, id, t, turn.log[0]);
    }
  }

  lemma KeysLoadedInv(w: World, id: TaskId, env: Env)
    requires Inv(w) && w.running == Some(id) && w.tasks[id].pc.OnKeys?
    requires IoStep(w.keys, id, w.tasks[id].pc.kio).next.Loaded?
    ensures Inv(MicroKeys(w, id, w.tasks[id], env))
  {
    var t := w.tasks[id];
    IoStepInside(w.keys, id, t.pc.kio);
    var r := IoStep(w.keys, id, t.pc.kio);
    KeysTurn(w.history, id, t, env);
    FinishKeysTurn(w, id, r.disk, KeysLoaded(id, t, r.next.data, env));
  }

  lemma FinishKeysTurn(w: World, id: TaskId, disk: Disk<KeyEntry>, turn: Turn)
    requires Explained(w) && id in w.tasks && OthersRest(w, id) && Idle(w.reqs)
    requires View(disk) == View(w.keys) && Idle(disk)
    requires KeysTurnSound(w.history, id, w.tasks[id], turn)
    ensures Inv(Settle(w.(keys := disk, history := w.history + turn.log), id,
                       Task(w.tasks[id].op, turn.pc, turn.locals)))
  {
    var w1 := w.(keys := disk, history := w.history + turn.log);
    if turn.log == [] {
      assert w1.history == w.history;
    } else {
      assert turn.log == [turn.log[0]];
      ReportExplained(w, w1, id, turn.log[0]);
      OthersUnaware(w, w1, id, turn.log[0]);
    }
    SettleKeepsInv(w1, id, Task(w.tasks[id].op, turn.pc, turn.locals));
  }

  lemma KeysSavedInv(w: World, id: TaskId, env: Env)
    requires Inv(w) && w.running == Some(id) && w.tasks[id].pc.OnKeys? && w.tasks[id].pc.kio.SaveUnlock?
    ensures Inv(MicroKeys(w, id, w.tasks[id], env))
  {
    var t := w.tasks[id];
    IoStepInside(w.keys, id, t.pc.kio);
    var turn := KeysSaved(id, t);
    var w1 := w.(keys := DropLock(w.keys), history := w.history + turn.log);
    if turn.log == [] {
      assert w1.history == w.history;
    } else {
      var ev := turn.log[0];
      assert w1.history == w.history + [ev];
      ReportExplained(w, w1, id, ev);
      OthersUnaware(w, w1, id, ev);
      OwnFactsKept(w.history, id, t, ev);
    }
    SettleKeepsInv(w1, id, Task(t.op, turn.pc, turn.locals));
  }

  lemma MicroKeysInv(w: World, id: TaskId, env: Env)
    requires Inv(w) && w.running == Some(id) && w.tasks[id].pc.OnKeys?
    ensures Inv(MicroKeys(w, id, w.tasks[id], env))
  {
    var t := w.tasks[id];
    IoStepInside(w.keys, id, t.pc.kio);
    match IoStep(w.keys, id, t.pc.kio).next
    case Goto(io) =>
      if t.pc.kio.SaveRename? {
        KeysRenameInv(w, id, env);
      } else {
        var w1 := w.(keys := IoStep(w.keys, id, t.pc.kio).disk);
        SettleKeepsInv(w1, id, t.(pc := t.pc.(kio := io)));
      }
    case Loaded(_) => KeysLoadedInv(w, id, env);
    case Saved => KeysSavedInv(w, id, env);
  }

  // ---------------------------------------------------------------- steps on the request file

  lemma ReqsRenameInv(w: World, id: TaskId, env: Env)
    requires Inv(w) && w.running == Some(id) && w.tasks[id].pc.OnReqs? && w.tasks[id].pc.rio.SaveRename?
    ensures Inv(MicroReqs(w, id, w.tasks[id], env))
  {
    var t := w.tasks[id];
    var ev := t.pc.rcommit.value;
    var w1 := w.(reqs := IoStep(w.reqs, id, t.pc.rio).disk, history := w.history + [ev]);
    var t1 := t.(pc := t.pc.(rio := SaveUnlock));
    ReportExplained(w, w1, id, ev);
    OthersUnaware(w, w1, id, ev);
    assert TaskSound(w.history, id, t1);
    if t1.locals.Seen? {
      var i :| 0 <= i < |w.history| && w.history[i].ApproveChecked?
               && w.history[i].task == id && w.history[i].tenant == t.op.tenant;
      assert w1.history[i] == w.history[i];
    }
    assert TaskSound(w1.history, id, t1);
    SettleKeepsInv(w1, id, t1);
  }

  /** What the handlers' code between two file operations owes the invariant. */
  ghost predicate TurnSound(h: History, id: TaskId, t: Task, turn: Turn) {
    var t1 := Task(t.op, turn.pc, turn.locals);
    && (turn.pc.OnReqs? || AtRest(turn.pc))
    && (turn.pc.OnReqs? ==> (turn.pc.rio == Probe || turn.pc.rio.SaveLock?) && ReqsRunSound(h, id, t1))
    && (turn.log != [] ==>
          && |turn.log| == 1 && turn.log[0].task == id && Legal(h, turn.log[0])
          && Apply(Replay(h), turn.log[0]) == Replay(h) && AtRest(turn.pc))
    && TaskSound(h + turn.log, id, t1)
  }

  lemma QuietTurn(h: History, id: TaskId, t: Task, turn: Turn)
    requires TaskSound(h, id, t) && turn.log == [] && turn.locals == t.locals
    requires (turn.pc.OnReqs? && !turn.pc.rio.SaveUnlock? && MayCommit(t.pc)) || turn.pc.Done?
    ensures TaskSound(h + turn.log, id, Task(t.op, turn.pc, turn.locals))
  {
    assert h + turn.log == h;
  }

  lemma ReportTurn(h: History, id: TaskId, t: Task, turn: Turn)
    requires TaskSound(h, id, t) && |turn.log| == 1 && !turn.log[0].ApproveCommitted?
    requires turn.locals == t.locals && turn.pc.Done?
    ensures TaskSound(h + turn.log, id, Task(t.op, turn.pc, turn.locals))
  {
    assert turn.log == [turn.log[0]];
    OwnFactsKept(h, id, t, turn.log[0]);
  }

  lemma SubmitTurn(h: History, id: TaskId, cfg: Settings, t: Task, env: Env)
    requires TaskSound(h, id, t) && t.pc.OnReqs? && MayCommit(t.pc) && ReqsRunSound(h, id, t) && t.op.Submit?
    ensures TurnSound(h, id, t, ReqsLoaded(id, cfg, t, t.pc.leg, Replay(h).reqs, env))
  {
    var turn := ReqsLoaded(id, cfg, t, t.pc.leg, Replay(h).reqs, env);
    if turn.log == [] {
      QuietTurn(h, id, t, turn);
    } else {
      ReportTurn(h, id, t, turn);
    }
  }

  lemma RejectTurn(h: History, id: TaskId, cfg: Settings, t: Task, env: Env)
    requires TaskSound(h, id, t) && t.pc.OnReqs? && MayCommit(t.pc) && ReqsRunSound(h, id, t) && t.op.Reject?
    ensures TurnSound(h, id, t, ReqsLoaded(id, cfg, t, t.pc.leg, Replay(h).reqs, env))
  {
    var turn := ReqsLoaded(id, cfg, t, t.pc.leg, Replay(h).reqs, env);
    if t.pc.leg == Second {
      RejectWrites(h, id, cfg, t, env);
    } else if turn.log == [] {
      QuietTurn(h, id, t, turn);
    } else {
      ReportTurn(h, id, t, turn);
    }
  }

  lemma RejectWrites(h: History, id: TaskId, cfg: Settings, t: Task, env: Env)
    requires TaskSound(h, id, t) && t.pc.OnReqs? && MayCommit(t.pc) && ReqsRunSound(h, id, t)
    requires t.op.Reject? && t.pc.leg == Second
    ensures TurnSound(h, id, t, ReqsLoaded(id, cfg, t, Second, Replay(h).reqs, env))
  {
    QuietTurn(h, id, t, ReqsLoaded(id, cfg, t, Second, Replay(h).reqs, env));
  }

  lemma ApproveCheckTurn(h: History, id: TaskId, cfg: Settings, t: Task, env: Env)
    requires TaskSound(h, id, t) && t.pc.OnReqs? && MayCommit(t.pc) && ReqsRunSound(h, id, t)
    requires t.op.Approve? && t.pc.leg == First
    ensures TurnSound(h, id, t, ReqsLoaded(id, cfg, t, First, Replay(h).reqs, env))
  {
    var turn := ReqsLoaded(id, cfg, t, First, Replay(h).reqs, env);
    var tenant, reqs := t.op.tenant, Replay(h).reqs;
    if tenant !in reqs {
      assert turn == Turn(t.locals, Done(Http404), [ApproveUnknown(id, tenant)]);
      ReportTurn(h, id, t, turn);
    } else if reqs[tenant].status != Pending {
      assert turn == Turn(t.locals, Done(Http409), [ApproveRefused(id, tenant, reqs[tenant].status)]);
      ReportTurn(h, id, t, turn);
    } else {
      ApprovePasses(h, id, tenant);
    }
  }

  /** A passed check is what the rest of an approve relies on. */
  lemma ApprovePasses(h: History, id: TaskId, tenant: string)
    requires tenant in Replay(h).reqs && !CommittedBefore(h, id)
    ensures var seen := Replay(h).reqs[tenant];
            TaskSound(h + [ApproveChecked(id, tenant, seen)], id,
                      Task(Approve(tenant), Await(SignCsr), Seen(seen, EMPTY_DRAFT)))
  {
    var ev := ApproveChecked(id, tenant, Replay(h).reqs[tenant]);
    var h' := h + [ev];
    assert h'[|h|] == ev;
    assert forall i :: 0 <= i < |h'| ==> (i < |h| && h'[i] == h[i]) || h'[i] == ev;
  }

  lemma ApproveCommitTurn(h: History, id: TaskId, cfg: Settings, t: Task, env: Env)
    requires LegalHistory(h)
    requires TaskSound(h, id, t) && t.pc.OnReqs? && MayCommit(t.pc) && ReqsRunSound(h, id, t)
    requires t.op.Approve? && t.pc.leg == Second
    ensures TurnSound(h, id, t, ReqsLoaded(id, cfg, t, Second, Replay(h).reqs, env))
    ensures !ReqsLoaded(id, cfg, t, Second, Replay(h).reqs, env).pc.Done?
  {
    var turn := ReqsLoaded(id, cfg, t, Second, Replay(h).reqs, env);
    CheckedStaysListed(h, id, t.op.tenant);
    QuietTurn(h, id, t, turn);
  }

  /** A tenant whose approve passed its check is in the file ever after, so `store[tenant_id]` cannot fail. */
  lemma {:induction false} CheckedStaysListed(h: History, id: TaskId, tenant: string)
    requires LegalHistory(h) && CheckedBefore(h, id, tenant)
    ensures tenant in Replay(h).reqs
  {
    var i :| 0 <= i < |h| && h[i].ApproveChecked? && h[i].task == id && h[i].tenant == tenant;
    LegalAt(h, i);
    CheckEffect(h[..i], h[i]);
    HistoryEvolves(h, i);
  }

  lemma ReqsLoadedInv(w: World, id: TaskId, env: Env)
    requires Inv(w) && w.running == Some(id) && w.tasks[id].pc.OnReqs?
    requires IoStep(w.reqs, id, w.tasks[id].pc.rio).next.Loaded?
    ensures Inv(MicroReqs(w, id, w.tasks[id], env))
  {
    var t := w.tasks[id];
    IoStepInside(w.reqs, id, t.pc.rio);
    var r := IoStep(w.reqs, id, t.pc.rio);
    var turn := ReqsLoaded(id, w.cfg, t, t.pc.leg, r.next.data, env);
    assert TurnSound(w.history, id, t, turn) by {
      match t.op
      case Submit(_, _) => SubmitTurn(w.history, id, w.cfg, t, env);
      case Reject(_, _) => RejectTurn(w.history, id, w.cfg, t, env);
      case Approve(_) =>
        if t.pc.leg == First {
          ApproveCheckTurn(w.history, id, w.cfg, t, env);
        } else {
          ApproveCommitTurn(w.history, id, w.cfg, t, env);
        }
    }
    FinishTurn(w, id, r.disk, turn);
  }

  lemma FinishTurn(w: World, id: TaskId, disk: Disk<JoinEntry>, turn: Turn)
    requires Explained(w) && id in w.tasks && OthersRest(w, id) && Idle(w.keys)
    requires View(disk) == View(w.reqs) && Idle(disk)
    requires TurnSound(w.history, id, w.tasks[id], turn)
    ensures Inv(Settle(w.(reqs := disk, history := w.history + turn.log), id,
                       Task(w.tasks[id].op, turn.pc, turn.locals)))
  {
    hide Legal, Apply, Replay, ReqsRunSound;
    var w1 := w.(reqs := disk, history := w.history + turn.log);
    if turn.log == [] {
      assert w1.history == w.history;
    } else {
      assert turn.log == [turn.log[0]];
      ReportExplained(w, w1, id, turn.log[0]);
      OthersUnaware(w, w1, id, turn.log[0]);
    }
    SettleKeepsInv(w1, id, Task(w.tasks[id].op, turn.pc, turn.locals));
  }

  lemma MicroReqsInv(w: World, id: TaskId, env: Env)
    requires Inv(w) && w.running == Some(id) && w.tasks[id].pc.OnReqs?
    ensures Inv(MicroReqs(w, id, w.tasks[id], env))
  {
    var t := w.tasks[id];
    IoStepInside(w.reqs, id, t.pc.rio);
    match IoStep(w.reqs, id, t.pc.rio).next
    case Goto(io) =>
      if t.pc.rio.SaveRename? {
        ReqsRenameInv(w, id, env);
      } else {
        var w1 := w.(reqs := IoStep(w.reqs, id, t.pc.rio).disk);
        SettleKeepsInv(w1, id, t.(pc := t.pc.(rio := io)));
      }
    case Loaded(_) => ReqsLoadedInv(w, id, env);
    case Saved =>
      var w1 := w.(reqs := DropLock(w.reqs));
      SettleKeepsInv(w1, id, t.(pc := Done(ReqsSaved(w.cfg, t))));
  }

  // ---------------------------------------------------------------- the other labels

  lemma BeginSound(w: World, id: TaskId, t: Task, env: Env)
    requires Idle(w.keys) && Idle(w.reqs) && Replay(w.history).keys == View(w.keys)
    requires TaskSound(w.history, id, t) && t.pc.Begin? && !(t.op.Prepare? && env.newKey in View(w.keys))
    ensures TaskSound(w.history, id, BeginTask(t, env)) && RunSound(w, id, BeginTask(t, env))
  {
  }

  lemma AnswerSound(w: World, id: TaskId, t: Task, stage: Stage, o: Outcome)
    requires Idle(w.keys) && Idle(w.reqs) && TaskSound(w.history, id, t) && t.pc == Await(stage)
    ensures TaskSound(w.history, id, StageReturned(w.cfg, t, stage, o))
    ensures RunSound(w, id, StageReturned(w.cfg, t, stage, o))
  {
  }

  lemma ScheduleInv(w: World, id: TaskId, env: Env)
    requires Inv(w)
    ensures Inv(ScheduleTask(w, id, env))
  {
    if w.running.None? && id in w.tasks {
      var t := w.tasks[id];
      match t.pc
      case Begin =>
        if !(t.op.Prepare? && env.newKey in View(w.keys)) {
          BeginSound(w, id, t, env);
          SettleKeepsInv(w, id, BeginTask(t, env));
        }
      case Await(stage) =>
        AnswerSound(w, id, t, stage, env.outcome);
        SettleKeepsInv(w, id, StageReturned(w.cfg, t, stage, env.outcome));
      case Done(_) =>
    }
  }

  lemma SpawnInv(w: World, id: TaskId, op: Op)
    requires Inv(w)
    ensures Inv(Exec(w, Spawn(id, op)))
  {
    if id !in w.tasks {
      var t := Task(op, Begin, Nothing);
      assert !CommittedBefore(w.history, id);
      assert TaskSound(w.history, id, t);
    }
  }

  lemma CrashInv(w: World)
    requires Inv(w)
    ensures Inv(CrashAll(w))
  {
    var w' := CrashAll(w);
    forall k | k in w'.tasks ensures TaskSound(w'.history, k, w'.tasks[k]) {
      assert TaskSound(w.history, k, w.tasks[k]);
    }
  }

  lemma ExecInv(w: World, l: Label)
    requires Inv(w)
    ensures Inv(Exec(w, l))
  {
    match l
    case Spawn(id, op) => SpawnInv(w, id, op);
    case Schedule(id, env) => ScheduleInv(w, id, env);
    case Crash => CrashInv(w);
    case Micro(env) =>
      if w.running.Some? {
        var id := w.running.value;
        match w.tasks[id].pc
        case OnKeys(_, _) => MicroKeysInv(w, id, env);
        case OnReqs(_, _, _) => MicroReqsInv(w, id, env);
      }
  }

  lemma {:induction false} ReachableInv(cfg: Settings, ls: seq<Label>)
    ensures Inv(Run(Init(cfg), ls))
  {
    if ls != [] {
      ReachableInv(cfg, ls[..|ls| - 1]);
      ExecInv(Run(Init(cfg), ls[..|ls| - 1]), ls[|ls| - 1]);
    }
  }
}
