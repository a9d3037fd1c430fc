/**
 The two forms of the JOIN handlers agree: the coroutines of JoinLoop, stage by stage and load by
 load, do what the methods of JoinService do in one piece.
 */
module JoinAgreement {
  import opened Common
  import opened JoinModel
  import opened JoinHistory
  import opened JoinLoop
  import opened JoinService

  /** A waiting coroutine gets the answer of the stage it waits for; others are not concerned. */
  function Answered(cfg: Settings, t: Task, stage: Stage, o: Outcome): Task {
    if t.pc == Await(stage) then StageReturned(cfg, t, stage, o) else t
  }

  function AllAnswered(cfg: Settings, t: Task, s: StageCalls, r: StageCalls, b: StageCalls, f: StageCalls): Task {
    var t1 := Answered(cfg, t, SignCsr, s.answer);
    var t2 := Answered(cfg, t1, Rabbit, r.answer);
    var t3 := Answered(cfg, t2, BridgeCert, b.answer);
    Answered(cfg, t3, Federation, f.answer)
  }

  /** An approve that passed its check comes to its second load with the method's draft, or ends with 500 as it does. */
  lemma ApproveStagesAgree(
      cfg: Settings, tenant: string, seen: JoinEntry, s: StageCalls, r: StageCalls, b: StageCalls, f: StageCalls)
    ensures var t := Task(Approve(tenant), Await(SignCsr), Seen(seen, EMPTY_DRAFT));
            var draft := PipelineDraft(tenant, seen.payload.mqttBridgeCsr, s, r, b, f);
            var t' := AllAnswered(cfg, t, s, r, b, f);
            if draft.None? then t'.pc == Done(Http500)
            else
              && t' == Task(Approve(tenant), OnReqs(Probe, Second, None), Seen(seen, draft.value))
              && Brings(FinishBundle(tenant, cfg, draft.value), tenant, seen.payload.mqttBridgeCsr, cfg,
                        s.answer, b.answer, f.answer)
  {
    PipelineMeans(tenant, seen.payload.mqttBridgeCsr, cfg, s, r, b, f);
    var t := Task(Approve(tenant), Await(SignCsr), Seen(seen, EMPTY_DRAFT));
    FirstTwoAgree(cfg, t, tenant, s, r);
  }

  /** A handshake whose key was consumed ends with the answer of the method. */
  lemma HandshakeStagesAgree(
      cfg: Settings, key: string, tenant: string, csr: string,
      s: StageCalls, r: StageCalls, b: StageCalls, f: StageCalls)
    ensures var t := Task(Handshake(key, csr), Await(SignCsr), Grant(key, tenant, csr, EMPTY_DRAFT));
            var t' := AllAnswered(cfg, t, s, r, b, f);
            if Abandoned(csr, s.answer, b.answer) then t'.pc == Done(Http500)
            else
              && t'.pc.Done? && t'.pc.reply.Joined?
              && Hands(t'.pc.reply.handed, tenant, csr, cfg, s.answer, b.answer, f.answer)
  {
    PipelineMeans(tenant, csr, cfg, s, r, b, f);
    var t := Task(Handshake(key, csr), Await(SignCsr), Grant(key, tenant, csr, EMPTY_DRAFT));
    FirstTwoAgree(cfg, t, tenant, s, r);
  }

  lemma FirstTwoAgree(cfg: Settings, t: Task, tenant: string, s: StageCalls, r: StageCalls)
    requires (t.locals.Seen? && t.op == Approve(tenant)) || (t.locals.Grant? && t.locals.tenant == tenant)
    requires t.pc == Await(SignCsr) && t.locals.draft == EMPTY_DRAFT
    ensures var d1 := RunStage(EMPTY_DRAFT, SignCsr, tenant, s.answer);
            var t2 := Answered(cfg, Answered(cfg, t, SignCsr, s.answer), Rabbit, r.answer);
            if d1.None? then t2 == t.(pc := Done(Http500))
            else
              var d := RunStage(d1.value, Rabbit, tenant, r.answer).value;
              var (d2, next) := NextStage(d, Rabbit, BridgeCsr(t.locals));
              t2 == Task(t.op, Await(next.value), t.locals.(draft := d2))
  {
  }

  /** The loads of an approve lead where the method goes: 404, 409, on to the calls, or to the same commit. */
  lemma ApproveLoadsAgree(id: TaskId, cfg: Settings, tenant: string, locals: Locals, data: JoinDict, env: Env)
    ensures var t := Task(Approve(tenant), OnReqs(LoadBody, First, None), Nothing);
            var pc := ReqsLoaded(id, cfg, t, First, data, env).pc;
            if tenant !in data then pc == Done(Http404)
            else if data[tenant].status != Pending then pc == Done(Http409)
            else pc == Await(SignCsr)
    ensures locals.Seen? && tenant in data ==>
      var t := Task(Approve(tenant), OnReqs(LoadBody, Second, None), locals);
      var bundle := FinishBundle(tenant, cfg, locals.draft);
      var turn := ReqsLoaded(id, cfg, t, Second, data, env);
      && turn.pc.OnReqs? && turn.pc.rio == SaveLock(Visited(data, CommitVisit(tenant, bundle, env.now)))
      && ReqsSaved(cfg, t) == ApprovedOk(bundle, locals.draft.results, locals.draft.errors)
  {
  }

  /** What a submit or a reject saves is what the method leaves behind; where neither saves, the dict is left alone. */
  lemma WritersAgree(
      id: TaskId, cfg: Settings, tenant: string, payload: Payload, reason: string, data: JoinDict, env: Env)
    ensures var t := Task(Submit(tenant, payload), OnReqs(LoadBody, First, None), Nothing);
            var turn := ReqsLoaded(id, cfg, t, First, data, env);
            var after := Visited(data, SubmitVisit(tenant, payload, env.now, env.otherScript));
            TenantIdAccepted(tenant, env.otherScript) ==>
              if tenant in data && data[tenant].status == Approved then turn.pc == Done(Http409) && after == data
              else turn.pc.OnReqs? && turn.pc.rio == SaveLock(after) && ReqsSaved(cfg, t) == Accepted202
    ensures var t := Task(Reject(tenant, reason), OnReqs(LoadBody, First, None), Nothing);
            var first := ReqsLoaded(id, cfg, t, First, data, env);
            var second := ReqsLoaded(id, cfg, t, Second, data, env);
            var after := Visited(data, RejectVisit(tenant, reason, env.now));
            if tenant !in data then first.pc == Done(Http404) && after == data
            else if data[tenant].status == Approved then first.pc == Done(Http409) && after == data
            else
              && first.pc == OnReqs(Probe, Second, None) && second.pc.OnReqs? && second.pc.rio == SaveLock(after)
              && ReqsSaved(cfg, t) == RejectedOk
  {
  }

  /** A handshake's load of the key file: 401, or what ValidateAndConsume saves; then 401 again or the first call. */
  lemma HandshakeLoadAgrees(id: TaskId, key: string, csr: string, data: KeyDict, env: Env)
    ensures var t := Task(Handshake(key, csr), OnKeys(LoadBody, None), Nothing);
            var turn := KeysLoaded(id, t, data, env);
            if key !in data || data[key].status != Open then turn.pc == Done(Http401)
            else if env.now > data[key].expiresAt then
              && turn.pc.OnKeys? && turn.pc.kio == SaveLock(data[key := data[key].(status := Expired)])
              && KeysSaved(id, t.(locals := turn.locals)).pc == Done(Http401)
            else
              && turn.pc.OnKeys?
              && turn.pc.kio == SaveLock(data[key := data[key].(status := Used, usedAt := Some(env.later))])
              && KeysSaved(id, t.(locals := turn.locals)).pc == Await(SignCsr)
              && turn.locals == Grant(key, data[key].tenantId, csr, EMPTY_DRAFT)
  {
  }

  /** A prepare's: the key drawn at its beginning is saved as CreateKey saves it, and answered. */
  lemma PrepareLoadAgrees(id: TaskId, tenant: string, name: string, data: KeyDict, begun: Env, env: Env)
    requires TenantIdAccepted(tenant, begun.otherScript)
    ensures var t := BeginTask(Task(Prepare(tenant, name), Begin, Nothing), begun);
            var turn := KeysLoaded(id, t, data, env);
            && t.pc == OnKeys(Probe, None) && turn.pc.OnKeys? && turn.pc.kio == SaveLock(
                 data[begun.newKey := KeyEntry(begun.newKey, tenant, name, Open, begun.now,
                                               begun.now + 604_800_000_000, None)])
            && KeysSaved(id, t.(locals := turn.locals)).pc == Done(Prepared(begun.newKey))
  {
  }

  /** What is refused before anything is read: a tenant name that does not pass, and a missing key. */
  lemma BeginningsAgree(op: Op, env: Env)
    ensures var pc := BeginTask(Task(op, Begin, Nothing), env).pc;
            match op
            case Prepare(tenant, _) => pc == Done(Http422) <==> !TenantIdAccepted(tenant, env.otherScript)
            case Submit(tenant, _) =>
              pc == if TenantIdAccepted(tenant, env.otherScript) then OnReqs(Probe, First, None) else Done(Http422)
            case Handshake(key, _) => pc == if key == "" then Done(Http401) else OnKeys(Probe, None)
            case Reject(_, _) => pc == OnReqs(Probe, First, None)
            case Approve(_) => pc == OnReqs(Probe, First, None)
  {
  }
}
