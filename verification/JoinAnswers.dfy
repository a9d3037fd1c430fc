/**
 Whatever a JOIN handler answers was so: in every interleaving each answer has its event, recorded
 under the answering task and about the very key, tenant and values the request named.
 */
module JoinAnswers {
  import opened Common
  import opened JoinModel
  import opened JoinHistory
  import opened JoinLoop
  import opened JoinLoopProof
  import opened JoinTheorems

  /** Answers about the stores; 422, 500 and the 401 of a missing header are given without looking at them. */
  predicate Owes(op: Op, reply: Reply) {
    !reply.Http422? && !reply.Http500? && !reply.Lost? && !(reply.Http401? && op.Handshake? && op.key == "")
  }

  /** This event is what the answer says. */
  predicate Accounts(ev: Event, id: TaskId, op: Op, reply: Reply) {
    ev.task == id &&
    match reply
    case Prepared(key) =>
      op.Prepare? && ev.KeyCreated? && ev.key == key && ev.tenant == op.tenant && ev.name == op.name
    case Joined(handed) => op.Handshake? && ev.KeyConsumed? && ev.key == op.key && ev.tenant == handed.tenantId
    case Http401 => op.Handshake? && (ev.KeyUnknown? || ev.KeySpent? || ev.KeyLapsed?) && ev.key == op.key
    case Accepted202 => op.Submit? && ev.Submitted? && ev.tenant == op.tenant && ev.payload == op.payload
    case RejectedOk => op.Reject? && ev.RejectedBy? && ev.tenant == op.tenant && ev.reason == op.reason
    case ApprovedOk(bundle, _, _) =>
      op.Approve? && ev.ApproveCommitted? && ev.tenant == op.tenant && ev.bundle == bundle
    case Http404 =>
      (op.Reject? && ev.RejectUnknown? && ev.tenant == op.tenant)
      || (op.Approve? && ev.ApproveUnknown? && ev.tenant == op.tenant)
    case Http409 =>
      (op.Submit? && ev.SubmitRefused? && ev.tenant == op.tenant)
      || (op.Reject? && ev.RejectRefused? && ev.tenant == op.tenant)
      || (op.Approve? && ev.ApproveRefused? && ev.tenant == op.tenant)
    case _ => false
  }

  ghost predicate Accounted(h: History, id: TaskId, op: Op, reply: Reply) {
    exists i :: 0 <= i < |h| && Accounts(h[i], id, op, reply)
  }

  predicate Consumed(ev: Event, id: TaskId, key: string, tenant: string) {
    ev.KeyConsumed? && ev.task == id && ev.key == key && ev.tenant == tenant
  }

  ghost predicate HasConsumed(h: History, id: TaskId, op: Op, tenant: string) {
    op.Handshake? && exists i :: 0 <= i < |h| && Consumed(h[i], id, op.key, tenant)
  }

  /** The event a task is about to record on the key file is the one behind what it does next. */
  predicate FitsKeys(ev: Event, id: TaskId, t: Task) {
    match t.locals
    case Ticket(key, _) => Accounts(ev, id, t.op, Prepared(key))
    case Grant(_, tenant, _, _) => t.op.Handshake? && Consumed(ev, id, t.op.key, tenant)
    case _ => Accounts(ev, id, t.op, Http401)
  }

  ghost predicate TaskTrue(h: History, cfg: Settings, id: TaskId, t: Task) {
    match t.pc
    case Begin => t.locals == Nothing
    case OnKeys(io, commit) =>
      if HasData(io) then commit.Some? && FitsKeys(commit.value, id, t)
      else if io.SaveUnlock? then exists i :: 0 <= i < |h| && FitsKeys(h[i], id, t)
      else (t.op.Handshake? ==> t.locals == Nothing) && (t.locals == Nothing || t.locals.Ticket?)
    case OnReqs(io, _, commit) =>
      if HasData(io) then commit.Some? && Accounts(commit.value, id, t.op, ReqsSaved(cfg, t))
      else io.SaveUnlock? ==> Accounted(h, id, t.op, ReqsSaved(cfg, t))
    case Await(_) => t.locals.Grant? ==> HasConsumed(h, id, t.op, t.locals.tenant)
    case Done(reply) => Owes(t.op, reply) ==> Accounted(h, id, t.op, reply)
  }

  ghost predicate AllTrue(w: World) {
    forall id :: id in w.tasks ==> TaskTrue(w.history, w.cfg, id, w.tasks[id])
  }

  lemma TrueKept(h: History, more: History, cfg: Settings, id: TaskId, t: Task)
    requires TaskTrue(h, cfg, id, t)
    ensures TaskTrue(h + more, cfg, id, t)
  {
    var h' := h + more;
    assert forall i :: 0 <= i < |h| ==> h'[i] == h[i];
    match t.pc
    case Done(reply) =>
      if Owes(t.op, reply) {
        AccountedKept(h, more, id, t.op, reply);
      }
    case OnReqs(io, _, _) =>
      if io.SaveUnlock? {
        AccountedKept(h, more, id, t.op, ReqsSaved(cfg, t));
      }
    case OnKeys(io, _) =>
      if io.SaveUnlock? {
        var i :| 0 <= i < |h| && FitsKeys(h[i], id, t);
        assert FitsKeys(h'[i], id, t);
      }
    case Await(_) =>
      if t.locals.Grant? {
        var i :| 0 <= i < |h| && Consumed(h[i], id, t.op.key, t.locals.tenant);
        assert Consumed(h'[i], id, t.op.key, t.locals.tenant);
      }
    case Begin =>
  }

  lemma AccountedKept(h: History, more: History, id: TaskId, op: Op, reply: Reply)
    requires Accounted(h, id, op, reply)
    ensures Accounted(h + more, id, op, reply)
  {
    var i :| 0 <= i < |h| && Accounts(h[i], id, op, reply);
    assert Accounts((h + more)[i], id, op, reply);
  }

  lemma AccountedBy(h: History, ev: Event, id: TaskId, op: Op, reply: Reply)
    requires Accounts(ev, id, op, reply)
    ensures Accounted(h + [ev], id, op, reply)
  {
    assert (h + [ev])[|h|] == ev;
  }

  // ---------------------------------------------------------------- the steps of the running task

  lemma KeysLoadedTrue(h: History, cfg: Settings, id: TaskId, t: Task, data: KeyDict, env: Env)
    requires t.pc.OnKeys? && !HasData(t.pc.kio) && !t.pc.kio.SaveUnlock? && TaskTrue(h, cfg, id, t)
    ensures var turn := KeysLoaded(id, t, data, env);
            TaskTrue(h + turn.log, cfg, id, Task(t.op, turn.pc, turn.locals))
  {
    var turn := KeysLoaded(id, t, data, env);
    if turn.pc.Done? && turn.log != [] {
      AccountedBy(h, turn.log[0], id, t.op, turn.pc.reply);
    }
  }

  lemma KeysSavedTrue(h: History, cfg: Settings, id: TaskId, t: Task)
    requires t.pc.OnKeys? && t.pc.kio.SaveUnlock? && TaskTrue(h, cfg, id, t)
    ensures var turn := KeysSaved(id, t);
            TaskTrue(h + turn.log, cfg, id, Task(t.op, turn.pc, turn.locals))
  {
    var turn := KeysSaved(id, t);
    var h' := h + turn.log;
    var i :| 0 <= i < |h| && FitsKeys(h[i], id, t);
    assert h'[i] == h[i];
    if turn.pc.Done? {
      assert Accounts(h'[i], id, t.op, turn.pc.reply);
    } else {
      assert Consumed(h'[i], id, t.op.key, t.locals.tenant);
    }
  }

  lemma ReqsLoadedTrue(h: History, cfg: Settings, id: TaskId, t: Task, data: JoinDict, env: Env)
    requires t.pc.OnReqs?
    ensures var turn := ReqsLoaded(id, cfg, t, t.pc.leg, data, env);
            TaskTrue(h + turn.log, cfg, id, Task(t.op, turn.pc, turn.locals))
  {
    var turn := ReqsLoaded(id, cfg, t, t.pc.leg, data, env);
    if turn.pc.Done? && turn.log != [] {
      AccountedBy(h, turn.log[0], id, t.op, turn.pc.reply);
    }
  }

  lemma KeysStepTrue(w: World, id: TaskId, t: Task, env: Env)
    requires t.pc.OnKeys? && id in w.tasks && w.tasks[id] == t && TaskTrue(w.history, w.cfg, id, t)
    ensures var w' := MicroKeys(w, id, t, env); id in w'.tasks && TaskTrue(w'.history, w.cfg, id, w'.tasks[id])
  {
    var io, r := t.pc.kio, IoStep(w.keys, id, t.pc.kio);
    var h := AppendCommit(w.history, io, t.pc.kcommit);
    match r.next
    case Goto(_) =>
      if io.SaveRename? {
        assert h[|w.history|] == t.pc.kcommit.value;
      }
    case Parked =>
    case Loaded(data) => KeysLoadedTrue(h, w.cfg, id, t, data, env);
    case Saved => KeysSavedTrue(h, w.cfg, id, t);
  }

  lemma ReqsStepTrue(w: World, id: TaskId, t: Task, env: Env)
    requires t.pc.OnReqs? && id in w.tasks && w.tasks[id] == t && TaskTrue(w.history, w.cfg, id, t)
    ensures var w' := MicroReqs(w, id, t, env); id in w'.tasks && TaskTrue(w'.history, w.cfg, id, w'.tasks[id])
  {
    var io, r := t.pc.rio, IoStep(w.reqs, id, t.pc.rio);
    var h := AppendCommit(w.history, io, t.pc.rcommit);
    match r.next
    case Goto(_) =>
      if io.SaveRename? {
        AccountedBy(w.history, t.pc.rcommit.value, id, t.op, ReqsSaved(w.cfg, t));
      }
    case Parked =>
    case Loaded(data) => ReqsLoadedTrue(h, w.cfg, id, t, data, env);
    case Saved =>
  }

  // ---------------------------------------------------------------- all labels

  lemma BeginTrue(h: History, cfg: Settings, id: TaskId, t: Task, env: Env)
    requires t.pc.Begin? && TaskTrue(h, cfg, id, t)
    ensures TaskTrue(h, cfg, id, BeginTask(t, env))
  {
  }

  lemma StageTrue(h: History, cfg: Settings, id: TaskId, t: Task, stage: Stage, o: Outcome)
    requires t.pc.Await? && TaskTrue(h, cfg, id, t)
    ensures TaskTrue(h, cfg, id, StageReturned(cfg, t, stage, o))
  {
    var t' := StageReturned(cfg, t, stage, o);
    if t.locals.Grant? && t'.pc.Done? && t'.pc.reply.Joined? {
      var i :| 0 <= i < |h| && Consumed(h[i], id, t.op.key, t.locals.tenant);
      assert Accounts(h[i], id, t.op, t'.pc.reply);
    }
  }

  lemma ScheduleTrue(w: World, id: TaskId, env: Env)
    requires AllTrue(w)
    ensures AllTrue(ScheduleTask(w, id, env))
  {
    if w.running.None? && id in w.tasks {
      var t := w.tasks[id];
      match t.pc
      case Begin => BeginTrue(w.history, w.cfg, id, t, env);
      case Await(stage) => StageTrue(w.history, w.cfg, id, t, stage, env.outcome);
      case _ =>
    }
  }

  lemma MicroTrue(w: World, env: Env)
    requires AllTrue(w)
    ensures AllTrue(MicroStep(w, env))
  {
    hide TaskTrue;
    if w.running.Some? && w.running.value in w.tasks {
      var id := w.running.value;
      var t := w.tasks[id];
      match t.pc {
        case OnKeys(_, _) => KeysStepTrue(w, id, t, env);
        case OnReqs(_, _, _) => ReqsStepTrue(w, id, t, env);
        case _ =>
      }
      HistoryOnlyGrows(w, Micro(env));
      OthersTrue(w, MicroStep(w, env), id);
    }
  }

  lemma OthersTrue(w: World, w': World, id: TaskId)
    requires AllTrue(w) && w'.cfg == w.cfg && w'.tasks.Keys == w.tasks.Keys && id in w.tasks
    requires w.history <= w'.history && TaskTrue(w'.history, w'.cfg, id, w'.tasks[id])
    requires forall k :: k in w.tasks && k != id ==> w'.tasks[k] == w.tasks[k]
    ensures AllTrue(w')
  {
    var more := w'.history[|w.history|..];
    assert w'.history == w.history + more;
    forall k | k in w'.tasks && k != id ensures TaskTrue(w'.history, w'.cfg, k, w'.tasks[k]) {
      TrueKept(w.history, more, w.cfg, k, w.tasks[k]);
    }
  }

  lemma {:induction false} RunTrue(cfg: Settings, ls: seq<Label>)
    ensures AllTrue(Run(Init(cfg), ls))
  {
    if ls != [] {
      RunTrue(cfg, ls[..|ls| - 1]);
      var w := Run(Init(cfg), ls[..|ls| - 1]);
      match ls[|ls| - 1]
      case Spawn(_, _) =>
      case Schedule(id, env) => ScheduleTrue(w, id, env);
      case Micro(env) => MicroTrue(w, env);
      case Crash =>
    }
  }

  /**
   No answer is wrong: a task that has answered anything about the stores has its own event in the
   history, after every run; a crash in between takes no recorded event back.
   */
  lemma AnswersAreTrue(cfg: Settings, ls: seq<Label>, id: TaskId)
    requires id in Run(Init(cfg), ls).tasks && Run(Init(cfg), ls).tasks[id].pc.Done?
    ensures var w := Run(Init(cfg), ls);
            var t := w.tasks[id];
            Owes(t.op, t.pc.reply) ==> exists i :: 0 <= i < |w.history| && Accounts(w.history[i], id, t.op, t.pc.reply)
  {
    RunTrue(cfg, ls);
  }
}
