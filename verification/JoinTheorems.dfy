/**
 What every interleaving of the JOIN handlers keeps: any number of tasks, any clock readings,
 any answers of the outside systems, crashes and restarts at any step.
 */
module JoinTheorems {
  import opened Common
  import opened JoinModel
  import opened JoinHistory
  import opened JoinLoop
  import opened JoinLoopProof

  lemma {:induction false} RunAppend(w: World, a: seq<Label>, b: seq<Label>)
    ensures Run(w, a + b) == Run(Run(w, a), b)
    decreases |b|
  {
    if b == [] {
      assert a + b == a;
    } else {
      assert (a + b)[..|a + b| - 1] == a + b[..|b| - 1];
      RunAppend(w, a, b[..|b| - 1]);
    }
  }

  // ---------------------------------------------------------------- locks

  /** At every scheduling point both locks are free, and no task is ever queued on one. */
  lemma LocksFreeWhenIdle(cfg: Settings, ls: seq<Label>)
    ensures var w := Run(Init(cfg), ls);
            && (w.running == None ==> w.keys.lock == FREE && w.reqs.lock == FREE)
            && w.keys.lock.waiters == [] && w.reqs.lock.waiters == []
  {
    ReachableInv(cfg, ls);
  }

  function IoRank(io: Io): nat {
    match io
    case Probe => 8
    case LoadLock => 7
    case LoadBody => 6
    case LoadUnlock(_) => 5
    case SaveLock(_) => 4
    case SaveTmp(_) => 3
    case SaveRename(_) => 2
    case SaveUnlock => 1
  }

  /** Steps left before a task gives the loop back. */
  function Rank(t: Task): nat {
    match t.pc
    case OnKeys(io, _) => IoRank(io)
    case OnReqs(io, leg, _) => IoRank(io) + if leg == First then 8 else 0
    case _ => 0
  }

  const LONGEST_TURN: nat := 16

  lemma KeysProgress(w: World, id: TaskId, env: Env)
    requires w.running == Some(id) && id in w.tasks && w.tasks[id].pc.OnKeys? && Inside(w.keys, w.tasks[id].pc.kio)
    ensures var w' := MicroKeys(w, id, w.tasks[id], env);
            w'.running == None || (w'.running == Some(id) && id in w'.tasks && Rank(w'.tasks[id]) < Rank(w.tasks[id]))
  {
    IoStepInside(w.keys, id, w.tasks[id].pc.kio);
  }

  lemma ReqsProgress(w: World, id: TaskId, env: Env)
    requires w.running == Some(id) && id in w.tasks && w.tasks[id].pc.OnReqs? && Inside(w.reqs, w.tasks[id].pc.rio)
    ensures var w' := MicroReqs(w, id, w.tasks[id], env);
            w'.running == None || (w'.running == Some(id) && id in w'.tasks && Rank(w'.tasks[id]) < Rank(w.tasks[id]))
  {
    IoStepInside(w.reqs, id, w.tasks[id].pc.rio);
  }

  lemma MicroProgress(w: World, env: Env)
    requires Inv(w) && w.running.Some?
    ensures var w' := MicroStep(w, env);
            w'.running == None
            || (w'.running == w.running && Rank(w'.tasks[w.running.value]) < Rank(w.tasks[w.running.value]))
  {
    var id := w.running.value;
    match w.tasks[id].pc
    case OnKeys(_, _) => KeysProgress(w, id, env);
    case OnReqs(_, _, _) => ReqsProgress(w, id, env);
  }

  /** No task holds the loop for ever: after at most 16 of its own steps the loop is idle again. */
  lemma {:induction false} TurnsEnd(w: World, turn: seq<Label>)
    requires Inv(w) && forall i :: 0 <= i < |turn| ==> turn[i].Micro?
    requires w.running.Some? ==> |turn| >= Rank(w.tasks[w.running.value])
    ensures Run(w, turn).running == None
    decreases |turn|
  {
    if turn != [] {
      var first, rest := turn[..1], turn[1..];
      assert turn == first + rest;
      RunAppend(w, first, rest);
      assert Run(w, first) == Exec(w, turn[0]) by {
        assert first[..0] == [];
        assert Run(w, first[..0]) == w;
      }
      ExecInv(w, turn[0]);
      if w.running.Some? {
        MicroProgress(w, turn[0].env);
      }
      TurnsEnd(Exec(w, turn[0]), rest);
    }
  }

  lemma LoopIsNeverHeld(cfg: Settings, ls: seq<Label>, turn: seq<Label>)
    requires |turn| >= LONGEST_TURN && forall i :: 0 <= i < |turn| ==> turn[i].Micro?
    ensures Run(Init(cfg), ls + turn).running == None
  {
    ReachableInv(cfg, ls);
    RunAppend(Init(cfg), ls, turn);
    TurnsEnd(Run(Init(cfg), ls), turn);
  }

  // ---------------------------------------------------------------- refinement

  /** Both files always hold what the atomic operations recorded so far produce, one after the other. */
  lemma FilesAreSerial(cfg: Settings, ls: seq<Label>)
    ensures var w := Run(Init(cfg), ls);
            LegalHistory(w.history) && Replay(w.history) == Db(View(w.keys), View(w.reqs))
  {
    ReachableInv(cfg, ls);
  }

  lemma HistoryOnlyGrows(w: World, l: Label)
    ensures |w.history| <= |Exec(w, l).history| && Exec(w, l).history[..|w.history|] == w.history
  {
  }

  lemma {:induction false} HistoryGrows(w: World, ls: seq<Label>)
    ensures |w.history| <= |Run(w, ls).history| && Run(w, ls).history[..|w.history|] == w.history
  {
    if ls != [] {
      var mid := Run(w, ls[..|ls| - 1]);
      HistoryGrows(w, ls[..|ls| - 1]);
      HistoryOnlyGrows(mid, ls[|ls| - 1]);
      assert Run(w, ls).history[..|w.history|] == Run(w, ls).history[..|mid.history|][..|w.history|];
    }
  }

  // ---------------------------------------------------------------- keys

  /** A JOIN key is accepted at most once, whatever runs beside it. */
  lemma AtMostOneHandshakePerKey(cfg: Settings, ls: seq<Label>, i: nat, j: nat)
    requires i < j < |Run(Init(cfg), ls).history|
    requires Run(Init(cfg), ls).history[i].KeyConsumed? && Run(Init(cfg), ls).history[j].KeyConsumed?
    ensures Run(Init(cfg), ls).history[i].key != Run(Init(cfg), ls).history[j].key
  {
    ReachableInv(cfg, ls);
    KeysAreSingleUse(Run(Init(cfg), ls).history, i, j);
  }

  /** Between any two moments of a run a key only moves open -> used or open -> expired, and never disappears. */
  lemma KeysOnlyMoveForward(cfg: Settings, before: seq<Label>, after: seq<Label>)
    ensures KeysEvolve(View(Run(Init(cfg), before).keys), View(Run(Init(cfg), before + after).keys))
  {
    var w := Run(Init(cfg), before);
    ReachableInv(cfg, before);
    ReachableInv(cfg, before + after);
    RunAppend(Init(cfg), before, after);
    HistoryGrows(w, after);
    HistoryEvolves(Run(w, after).history, |w.history|);
  }

  /** Provisioning starts for a tenant are never more than the keys prepared for it. */
  lemma NoFreeProvisioning(cfg: Settings, ls: seq<Label>, tenant: string)
    ensures var h := Run(Init(cfg), ls).history;
            CountProvisioned(h, tenant) <= CountConsumed(h, tenant) <= CountCreated(h, tenant)
  {
    ReachableInv(cfg, ls);
    ProvisionsBounded(Run(Init(cfg), ls).history, tenant);
  }

  /** Each provisioning start has its key, prepared for that very tenant and checked within 168 hours. */
  lemma ProvisioningHasKey(cfg: Settings, ls: seq<Label>, k: nat) returns (i: nat, j: nat)
    requires k < |Run(Init(cfg), ls).history| && Run(Init(cfg), ls).history[k].ProvisionStarted?
    ensures var h := Run(Init(cfg), ls).history;
            && i < j < k && h[i].KeyCreated? && h[j].KeyConsumed?
            && h[i].key == h[j].key == h[k].key && h[i].tenant == h[j].tenant == h[k].tenant
            && h[j].task == h[k].task && h[j].checkedAt <= h[i].at + 168 * 3_600_000_000
  {
    ReachableInv(cfg, ls);
    var h := Run(Init(cfg), ls).history;
    LegalAt(h, k);
    j :| 0 <= j < |h[..k]| && h[..k][j].KeyConsumed? && h[..k][j].task == h[k].task && h[..k][j].key == h[k].key;
    assert h[..k][j] == h[j];
    SpentAfterConsume(h[..k], j);
    i := AcceptedWithinTtl(h, j);
  }

  /** No key of any run lapses before its 168 hours are over. */
  lemma NoKeyLapsesEarly(cfg: Settings, ls: seq<Label>, j: nat) returns (i: nat)
    requires j < |Run(Init(cfg), ls).history| && Run(Init(cfg), ls).history[j].KeyLapsed?
    ensures var h := Run(Init(cfg), ls).history;
            && i < j && h[i].KeyCreated? && h[i].key == h[j].key && h[i].tenant == h[j].tenant
            && h[j].at > h[i].at + 168 * 3_600_000_000
  {
    ReachableInv(cfg, ls);
    i := LapsedAfterTtl(Run(Init(cfg), ls).history, j);
  }

  /**
   What a handshake decides when it has loaded the key file, after any run: a key that was created
   is accepted iff no handshake found it open before and its 168 hours are not over; then it is saved
   as used for the tenant it was created for, before any provisioning.
   */
  lemma HandshakeAcceptedIff(cfg: Settings, ls: seq<Label>, id: TaskId, t: Task, env: Env) returns (i: nat)
    requires t.op.Handshake? && t.op.key in View(Run(Init(cfg), ls).keys)
    ensures var w := Run(Init(cfg), ls);
            var h, turn := w.history, KeysLoaded(id, t, View(w.keys), env);
            && i < |h| && h[i].KeyCreated? && h[i].key == t.op.key
            && (if Presented(h, t.op.key) then turn.pc == Done(Http401)
                else
                  turn.pc.OnKeys? && turn.pc.kio.SaveLock? && turn.pc.kcommit ==
                    Some(if env.now <= h[i].at + 168 * 3_600_000_000
                         then KeyConsumed(id, t.op.key, h[i].tenant, env.now, env.later)
                         else KeyLapsed(id, t.op.key, h[i].tenant, env.now)))
  {
    ReachableInv(cfg, ls);
    i := KeyVerdict(Run(Init(cfg), ls).history, t.op.key, env.now, env.later);
  }

  // ---------------------------------------------------------------- requests

  /** "approved" is absorbing and tenants never disappear, in every interleaving. */
  lemma ApprovedForever(cfg: Settings, before: seq<Label>, after: seq<Label>, tenant: string)
    requires tenant in View(Run(Init(cfg), before).reqs)
    ensures tenant in View(Run(Init(cfg), before + after).reqs)
    ensures View(Run(Init(cfg), before).reqs)[tenant].status == Approved
        ==> View(Run(Init(cfg), before + after).reqs)[tenant].status == Approved
  {
    var w := Run(Init(cfg), before);
    ReachableInv(cfg, before);
    ReachableInv(cfg, before + after);
    RunAppend(Init(cfg), before, after);
    HistoryGrows(w, after);
    HistoryEvolves(Run(w, after).history, |w.history|);
  }

  /** Every stored entry has the shape of its status, at every moment of every run. */
  lemma EntriesAlwaysWellShaped(cfg: Settings, ls: seq<Label>, tenant: string)
    requires tenant in View(Run(Init(cfg), ls).reqs)
    ensures WellShaped(tenant, View(Run(Init(cfg), ls).reqs)[tenant])
  {
    ReachableInv(cfg, ls);
    EntriesWellShaped(Run(Init(cfg), ls).history, tenant);
  }

  /**
   At every moment of every run a poll tells the last write of its tenant, whoever made it: pending
   for a submission, rejected for a reject, and for an approve exactly the bundle it committed. Once
   a tenant is approved that last write is an approve. A reason is shown iff a reject stands since
   the last submission, and it is that reject's, whether or not an approve was committed on top.
   */
  lemma PollIsCurrent(cfg: Settings, ls: seq<Label>, tenant: string)
    ensures var w := Run(Init(cfg), ls);
            var last := LastWrite(w.history, tenant, 0, |w.history|);
            && (tenant in View(w.reqs) <==> last.Some?)
            && (last.Some? ==> Tells(StatusOf(tenant, View(w.reqs)[tenant]), last.value))
            && (last.Some? && View(w.reqs)[tenant].status == Approved ==> last.value.ApproveCommitted?)
            && (last.Some? ==> ShowsReject(View(w.reqs)[tenant], StandingReject(w.history, tenant, |w.history|)))
  {
    ReachableInv(cfg, ls);
    var h := Run(Init(cfg), ls).history;
    PollTellsLastWrite(h, tenant, |h|);
    assert h[..|h|] == h;
  }

  /**
   No lost update: a step of the loop, a crash included, changes the request file only by the one
   event it records, so every other tenant's entry is exactly what it was just before.
   */
  lemma OneEntryPerStep(cfg: Settings, ls: seq<Label>, l: Label)
    ensures var w, w' := Run(Init(cfg), ls), Exec(Run(Init(cfg), ls), l);
            && (w'.history == w.history ==> View(w'.reqs) == View(w.reqs) && View(w'.keys) == View(w.keys))
            && (w'.history != w.history ==>
                  && |w'.history| == |w.history| + 1
                  && forall t :: Some(t) != WrittenTenant(Last(w'.history)) ==>
                       (t in View(w'.reqs) <==> t in View(w.reqs))
                       && (t in View(w.reqs) ==> View(w'.reqs)[t] == View(w.reqs)[t]))
  {
    var w := Run(Init(cfg), ls);
    ReachableInv(cfg, ls);
    ExecInv(w, l);
    HistoryOnlyGrows(w, l);
    if Exec(w, l).history != w.history {
      OneEventPerStep(w, l);
      assert Front(Exec(w, l).history) == w.history;
      EventEvolves(w.history, Last(Exec(w, l).history));
    }
  }

  lemma OneEventPerStep(w: World, l: Label)
    ensures |Exec(w, l).history| <= |w.history| + 1
  {
  }

  /**
   An approve's commit, however many writes by other tasks fell between its check and it: the
   entry is still there, it is pending iff the last of those writes was a resubmission (or there
   was none), with no write it is the entry that was checked, and the CSR beside the signed
   certificate is the signed one unless the tenant resubmitted.
   */
  lemma ApproveAcrossItsGap(cfg: Settings, ls: seq<Label>, i: nat, j: nat)
    requires i < j < |Run(Init(cfg), ls).history|
    requires var h := Run(Init(cfg), ls).history;
             h[i].ApproveChecked? && h[j].ApproveCommitted? && h[i].task == h[j].task && h[i].tenant == h[j].tenant
    ensures var h := Run(Init(cfg), ls).history;
            && h[j].tenant in Replay(h[..j]).reqs
            && (LastWrite(h, h[i].tenant, i + 1, j).None? ==> Replay(h[..j]).reqs[h[j].tenant] == h[i].seen)
            && (Replay(h[..j]).reqs[h[j].tenant].status == Pending <==>
                  LastWrite(h, h[i].tenant, i + 1, j).None? || LastWrite(h, h[i].tenant, i + 1, j).value.Submitted?)
    ensures var h := Run(Init(cfg), ls).history;
            && h[j].tenant in Replay(h[..j + 1]).reqs
            && (LastSubmit(h, h[i].tenant, i + 1, j) == None
                ==> Replay(h[..j + 1]).reqs[h[j].tenant].payload.subCaCsr == h[i].seen.payload.subCaCsr)
  {
    ReachableInv(cfg, ls);
    ApproveCommitsOnto(Run(Init(cfg), ls).history, i, j);
  }

  /** The second loads of reject and approve always find the tenant: `store[tenant_id]` never raises. */
  lemma IndexingNeverFails(cfg: Settings, ls: seq<Label>)
    ensures var w := Run(Init(cfg), ls);
            forall id :: id in w.tasks && w.tasks[id].pc.OnReqs? && w.tasks[id].pc.leg == Second
              && !w.tasks[id].pc.rio.SaveUnlock? && (w.tasks[id].op.Reject? || w.tasks[id].op.Approve?)
              ==> w.tasks[id].op.tenant in View(w.reqs)
  {
    ReachableInv(cfg, ls);
    var w := Run(Init(cfg), ls);
    forall id | id in w.tasks && w.tasks[id].pc.OnReqs? && w.tasks[id].pc.leg == Second
      && !w.tasks[id].pc.rio.SaveUnlock? && w.tasks[id].op.Approve?
      ensures w.tasks[id].op.tenant in View(w.reqs) {
      CheckedStaysListed(w.history, id, w.tasks[id].op.tenant);
    }
  }

  // ---------------------------------------------------------------- the pipeline

  function StagesBefore(s: Stage): set<string> {
    match s
    case SignCsr => {}
    case Rabbit => {"step_ca"}
    case BridgeCert => {"step_ca", "rabbitmq"}
    case Federation => {"step_ca", "rabbitmq", "mqtt_bridge_cert"}
  }

  const ALL_STAGES: set<string> := {"step_ca", "rabbitmq", "mqtt_bridge_cert", "keycloak_federation"}

  /** Each finished stage is in exactly one of the two dicts, the others in neither. */
  predicate Reported(results: map<string, string>, errors: map<string, string>, done: set<string>) {
    results.Keys !! errors.Keys && results.Keys + errors.Keys == done
  }

  predicate DraftSound(t: Task) {
    && (t.locals.Grant? || t.locals.Seen? ==>
          match t.pc
          case Await(s) => Reported(t.locals.draft.results, t.locals.draft.errors, StagesBefore(s))
          case OnKeys(_, _) => t.locals.draft == EMPTY_DRAFT
          case OnReqs(_, _, _) => Reported(t.locals.draft.results, t.locals.draft.errors, ALL_STAGES)
          case Begin => false
          case Done(_) => true)
    && (t.pc.Done? && t.pc.reply.ApprovedOk? ==>
          t.op.Approve? && Reported(t.pc.reply.results, t.pc.reply.errors, ALL_STAGES)
          && t.pc.reply.bundle.rabbitmqVhost == t.op.tenant && t.pc.reply.bundle.rabbitmqUser == MqttUser(t.op.tenant))
  }

  /** One stage reports under its own name, in one dict; so does the skipped one. */
  lemma StageReports(d: Draft, s: Stage, tenant: string, o: Outcome, csr: string)
    requires Reported(d.results, d.errors, StagesBefore(s)) && RunStage(d, s, tenant, o).Some?
    ensures var (d', next) := NextStage(RunStage(d, s, tenant, o).value, s, csr);
            Reported(d'.results, d'.errors, if next.Some? then StagesBefore(next.value) else ALL_STAGES)
  {
    var d1 := RunStage(d, s, tenant, o).value;
    assert Reported(d1.results, d1.errors, StagesBefore(s) + {StageName(s)});
  }

  lemma StageSound(cfg: Settings, t: Task, stage: Stage, o: Outcome)
    requires DraftSound(t) && t.pc == Await(stage)
    ensures DraftSound(StageReturned(cfg, t, stage, o))
  {
    if t.locals.Grant? || t.locals.Seen? {
      if RunStage(t.locals.draft, stage, ProvisionedTenant(t), o).Some? {
        StageReports(t.locals.draft, stage, ProvisionedTenant(t), o, BridgeCsr(t.locals));
      }
    }
  }

  ghost predicate DraftsSound(w: World) {
    forall id :: id in w.tasks ==> DraftSound(w.tasks[id])
  }

  lemma KeysStepDraft(w: World, id: TaskId, env: Env)
    requires Inv(w) && w.running == Some(id) && w.tasks[id].pc.OnKeys? && DraftSound(w.tasks[id])
    ensures id in MicroKeys(w, id, w.tasks[id], env).tasks
    ensures MicroKeys(w, id, w.tasks[id], env).tasks == w.tasks[id := MicroKeys(w, id, w.tasks[id], env).tasks[id]]
    ensures DraftSound(MicroKeys(w, id, w.tasks[id], env).tasks[id])
  {
    IoStepInside(w.keys, id, w.tasks[id].pc.kio);
  }

  lemma ReqsStepDraft(w: World, id: TaskId, env: Env)
    requires Inv(w) && w.running == Some(id) && w.tasks[id].pc.OnReqs? && DraftSound(w.tasks[id])
    ensures id in MicroReqs(w, id, w.tasks[id], env).tasks
    ensures MicroReqs(w, id, w.tasks[id], env).tasks == w.tasks[id := MicroReqs(w, id, w.tasks[id], env).tasks[id]]
    ensures DraftSound(MicroReqs(w, id, w.tasks[id], env).tasks[id])
  {
    IoStepInside(w.reqs, id, w.tasks[id].pc.rio);
  }

  lemma ScheduleDraft(w: World, id: TaskId, env: Env)
    requires Inv(w) && DraftsSound(w)
    ensures DraftsSound(ScheduleTask(w, id, env))
  {
    if w.running.None? && id in w.tasks {
      var t := w.tasks[id];
      match t.pc
      case Begin => assert DraftSound(BeginTask(t, env));
      case Await(stage) => StageSound(w.cfg, t, stage, env.outcome);
      case Done(_) =>
    }
  }

  lemma ExecDrafts(w: World, l: Label)
    requires Inv(w) && DraftsSound(w)
    ensures DraftsSound(Exec(w, l))
  {
    match l
    case Micro(env) =>
      if w.running.Some? {
        var id := w.running.value;
        match w.tasks[id].pc
        case OnKeys(_, _) => KeysStepDraft(w, id, env);
        case OnReqs(_, _, _) => ReqsStepDraft(w, id, env);
      }
    case Schedule(id, env) => ScheduleDraft(w, id, env);
    case Spawn(_, _) =>
    case Crash =>
      forall id | id in w.tasks ensures DraftSound(CrashAll(w).tasks[id]) {
        assert DraftSound(w.tasks[id]);
      }
  }

  /** A successful approve reports each of the four stages in exactly one of `results` and `errors`. */
  lemma {:induction false} ApproveReportsEveryStage(cfg: Settings, ls: seq<Label>)
    ensures DraftsSound(Run(Init(cfg), ls))
  {
    if ls != [] {
      ReachableInv(cfg, ls[..|ls| - 1]);
      ApproveReportsEveryStage(cfg, ls[..|ls| - 1]);
      ExecDrafts(Run(Init(cfg), ls[..|ls| - 1]), ls[|ls| - 1]);
    }
  }
}
