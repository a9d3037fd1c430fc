/**
 A concrete interleaving: one request, two approves that both pass their check, a reject in
 their gap. The reject's answer is overruled and both approves answer "approved": the 409
 answers protect only against decisions already stored when a handler starts.
 */
module JoinWitness {
  import opened Common
  import opened JoinModel
  import opened JoinHistory
  import opened JoinLoop
  import opened JoinTheorems

  const ENV := Env(0, 0, "", Replied("cert", "root", ""), false)
  const TENANT := "acme"

  function Micros(n: nat): seq<Label> { seq(n, i => Micro(ENV)) }

  function Advance(w: World, n: nat): World
    decreases n
  {
    if n == 0 then w else Advance(MicroStep(w, ENV), n - 1)
  }

  lemma {:induction false} AdvanceIsRun(w: World, n: nat)
    ensures Run(w, Micros(n)) == Advance(w, n)
    decreases n
  {
    if n > 0 {
      var one := Micros(1);
      assert Micros(n) == one + Micros(n - 1);
      RunAppend(w, one, Micros(n - 1));
      assert one[..0] == [] && Run(w, one[..0]) == w;
      assert Run(w, one) == MicroStep(w, ENV);
      AdvanceIsRun(MicroStep(w, ENV), n - 1);
    }
  }

  /** One turn of a task: resumed, then left alone for n of its own steps. */
  function Turn(id: TaskId, n: nat): seq<Label> { [Schedule(id, ENV)] + Micros(n) }

  lemma TurnIsRun(w: World, id: TaskId, n: nat)
    ensures Run(w, Turn(id, n)) == Advance(ScheduleTask(w, id, ENV), n)
  {
    var one := [Schedule(id, ENV)];
    RunAppend(w, one, Micros(n));
    assert one[..0] == [] && Run(w, one[..0]) == w;
    assert Run(w, one) == ScheduleTask(w, id, ENV);
    AdvanceIsRun(ScheduleTask(w, id, ENV), n);
  }

  /** A quiet world whose only interesting parts are the request file and the tasks. */
  ghost predicate Quiet(w: World, f: JoinDict) {
    w.running == None && w.reqs == Disk(Some(f), None, FREE)
  }

  function At(w: World, id: TaskId, disk: Disk<JoinEntry>, t: Task): World {
    w.(reqs := disk, tasks := w.tasks[id := t])
  }

  /** A file step of the running task that goes on to another one. */
  lemma GotoStep(w: World, id: TaskId, t: Task, io: Io<JoinEntry>)
    requires w.running == Some(id) && id in w.tasks && w.tasks[id] == t && t.pc.OnReqs?
    requires IoStep(w.reqs, id, t.pc.rio).next == Goto(io)
    ensures MicroStep(w, ENV)
         == At(w, id, IoStep(w.reqs, id, t.pc.rio).disk, t.(pc := t.pc.(rio := io)))
              .(history := AppendCommit(w.history, t.pc.rio, t.pc.rcommit))
  {
  }

  /** The release of the lock after a load, and the handler code behind it. */
  lemma LoadedStep(w: World, id: TaskId, t: Task, data: JoinDict, turn: JoinLoop.Turn)
    requires w.running == Some(id) && id in w.tasks && w.tasks[id] == t && t.pc.OnReqs? && t.pc.rio == LoadUnlock(data)
    requires turn == ReqsLoaded(id, w.cfg, t, t.pc.leg, data, ENV)
    ensures MicroStep(w, ENV)
         == Settle(w.(reqs := DropLock(w.reqs), history := w.history + turn.log), id, Task(t.op, turn.pc, turn.locals))
  {
  }

  const HELD := Lock(true, [])

  lemma AdvanceOne(w: World, n: nat)
    requires n > 0
    ensures Advance(w, n) == Advance(MicroStep(w, ENV), n - 1)
  {
  }

  /** Three steps read the file under its lock. */
  lemma LoadTurn(w: World, id: TaskId, t: Task, f: JoinDict, leg: Leg)
    requires w.reqs == Disk(Some(f), None, FREE) && w.running == Some(id)
    requires id in w.tasks && w.tasks[id] == t && t.pc == OnReqs(Probe, leg, None)
    ensures Advance(w, 3) == At(w, id, Disk(Some(f), None, HELD), t.(pc := OnReqs(LoadUnlock(f), leg, None)))
  {
    var w1 := At(w, id, w.reqs, t.(pc := OnReqs(LoadLock, leg, None)));
    GotoStep(w, id, t, LoadLock);
    AdvanceOne(w, 3);
    var w2 := At(w, id, Disk(Some(f), None, HELD), t.(pc := OnReqs(LoadBody, leg, None)));
    GotoStep(w1, id, w1.tasks[id], LoadBody);
    AdvanceOne(w1, 2);
    GotoStep(w2, id, w2.tasks[id], LoadUnlock(f));
    AdvanceOne(w2, 1);
  }

  /** Three steps, up to the rename, put new contents in place under the lock. */
  lemma WriteTurn(w: World, id: TaskId, t: Task, d: JoinDict, leg: Leg, c: Event)
    requires w.reqs.lock == FREE && w.running == Some(id)
    requires id in w.tasks && w.tasks[id] == t && t.pc == OnReqs(SaveLock(d), leg, Some(c))
    ensures Advance(w, 3)
         == At(w, id, Disk(Some(d), None, HELD), t.(pc := OnReqs(SaveUnlock, leg, Some(c))))
              .(history := w.history + [c])
  {
    var w1 := At(w, id, w.reqs.(lock := HELD), t.(pc := OnReqs(SaveTmp(d), leg, Some(c))));
    GotoStep(w, id, t, SaveTmp(d));
    AdvanceOne(w, 3);
    var w2 := At(w, id, Disk(w.reqs.file, Some(d), HELD), t.(pc := OnReqs(SaveRename(d), leg, Some(c))));
    GotoStep(w1, id, w1.tasks[id], SaveRename(d));
    AdvanceOne(w1, 2);
    GotoStep(w2, id, w2.tasks[id], SaveUnlock);
    AdvanceOne(w2, 1);
  }

  lemma SavedStep(w: World, id: TaskId, t: Task)
    requires w.running == Some(id) && id in w.tasks && w.tasks[id] == t && t.pc.OnReqs? && t.pc.rio == SaveUnlock
    ensures MicroStep(w, ENV)
         == At(w, id, DropLock(w.reqs), t.(pc := Done(ReqsSaved(w.cfg, t)))).(running := None)
  {
  }

  /** One more releases the lock and answers. */
  lemma SaveTurn(w: World, id: TaskId, t: Task, d: JoinDict, leg: Leg, c: Event)
    requires w.reqs.lock == FREE && w.running == Some(id)
    requires id in w.tasks && w.tasks[id] == t && t.pc == OnReqs(SaveLock(d), leg, Some(c))
    ensures Advance(w, 4)
         == At(w, id, Disk(Some(d), None, FREE), t.(pc := Done(ReqsSaved(w.cfg, t))))
              .(running := None, history := w.history + [c])
  {
    WriteTurn(w, id, t, d, leg, c);
    var w3 := Advance(w, 3);
    SavedStep(w3, id, w3.tasks[id]);
    AdvanceAdd(w, 3, 1);
    AdvanceOne(w3, 1);
  }

  /** A whole load: four steps, and the handler code behind it. */
  lemma WholeLoad(w: World, id: TaskId, t: Task, f: JoinDict, leg: Leg, turn: JoinLoop.Turn)
    requires w.reqs == Disk(Some(f), None, FREE) && w.running == Some(id)
    requires id in w.tasks && w.tasks[id] == t && t.pc == OnReqs(Probe, leg, None)
    requires turn == ReqsLoaded(id, w.cfg, t, leg, f, ENV)
    ensures Advance(w, 4) == Settle(w.(history := w.history + turn.log), id, Task(t.op, turn.pc, turn.locals))
  {
    LoadTurn(w, id, t, f, leg);
    var w3 := Advance(w, 3);
    LoadedStep(w3, id, w3.tasks[id], f, turn);
    AdvanceAdd(w, 3, 1);
    AdvanceOne(w3, 1);
  }

  /** A request that is not a prepare starts by probing the request file. */
  lemma Started(w: World, id: TaskId, t: Task)
    requires w.running == None && id in w.tasks && w.tasks[id] == t && t.pc == Begin
    requires t.op.Approve? || t.op.Reject?
    ensures ScheduleTask(w, id, ENV)
         == w.(running := Some(id), tasks := w.tasks[id := t.(pc := OnReqs(Probe, First, None))])
  {
  }

  lemma AdvanceAdd(w: World, m: nat, n: nat)
    ensures Advance(w, m + n) == Advance(Advance(w, m), n)
    decreases m
  {
  }

  /** The turn in which an approve passes its check and goes to wait for step-ca. */
  lemma CheckTurn(w: World, id: TaskId, f: JoinDict)
    requires Quiet(w, f) && id in w.tasks && w.tasks[id] == Task(Approve(TENANT), Begin, Nothing)
    requires TENANT in f && f[TENANT].status == Pending
    ensures Run(w, Turn(id, 4))
         == w.(history := w.history + [ApproveChecked(id, TENANT, f[TENANT])],
               tasks := w.tasks[id := Task(Approve(TENANT), Await(SignCsr), Seen(f[TENANT], EMPTY_DRAFT))])
  {
    var t := w.tasks[id];
    TurnIsRun(w, id, 4);
    Started(w, id, t);
    var t1 := t.(pc := OnReqs(Probe, First, None));
    var w1 := w.(running := Some(id), tasks := w.tasks[id := t1]);
    WholeLoad(w1, id, t1, f, First,
              JoinLoop.Turn(Seen(f[TENANT], EMPTY_DRAFT), Await(SignCsr), [ApproveChecked(id, TENANT, f[TENANT])]));
  }

  function Pipeline(id: TaskId): seq<Label> { [Schedule(id, ENV), Schedule(id, ENV)] + Turn(id, 8) }

  function Waiting(seen: JoinEntry): Task { Task(Approve(TENANT), Await(SignCsr), Seen(seen, EMPTY_DRAFT)) }

  /** The draft after all four stages answered as ENV says. */
  function FullDraft(): Draft {
    var d1 := RunStage(EMPTY_DRAFT, SignCsr, TENANT, ENV.outcome).value;
    var d2 := SkipBridgeCert(RunStage(d1, Rabbit, TENANT, ENV.outcome).value);
    RunStage(d2, Federation, TENANT, ENV.outcome).value
  }

  /** Three answers bring a waiting approve to its second load. */
  lemma AnswersTurn(w: World, id: TaskId, seen: JoinEntry)
    requires w.running == None && id in w.tasks && w.tasks[id] == Waiting(seen) && seen.payload.mqttBridgeCsr == ""
    ensures ScheduleTask(Run(w, [Schedule(id, ENV), Schedule(id, ENV)]), id, ENV)
         == w.(running := Some(id),
               tasks := w.tasks[id := Task(Approve(TENANT), OnReqs(Probe, Second, None), Seen(seen, FullDraft()))])
  {
    var two := [Schedule(id, ENV), Schedule(id, ENV)];
    assert two[..1][..0] == [] && Run(w, two[..1][..0]) == w;
    var d1 := RunStage(EMPTY_DRAFT, SignCsr, TENANT, ENV.outcome).value;
    var w1 := w.(tasks := w.tasks[id := Task(Approve(TENANT), Await(Rabbit), Seen(seen, d1))]);
    assert Run(w, two[..1]) == w1;
    var d2 := SkipBridgeCert(RunStage(d1, Rabbit, TENANT, ENV.outcome).value);
    var w2 := w.(tasks := w.tasks[id := Task(Approve(TENANT), Await(Federation), Seen(seen, d2))]);
    assert Run(w, two) == w2;
  }

  function Committed(cfg: Settings, e: JoinEntry): JoinEntry {
    ApproveEntry(e, FinishBundle(TENANT, cfg, FullDraft()), 0)
  }

  /** The rest of an approve: three answers arrive, the store is reloaded and the bundle committed. */
  lemma CommitTurn(w: World, id: TaskId, f: JoinDict, seen: JoinEntry) returns (t': Task)
    requires Quiet(w, f) && id in w.tasks && TENANT in f && seen.payload.mqttBridgeCsr == ""
    requires w.tasks[id] == Waiting(seen)
    ensures Quiet(Run(w, Pipeline(id)), f[TENANT := Committed(w.cfg, f[TENANT])])
    ensures Run(w, Pipeline(id)).tasks == w.tasks[id := t'] && Run(w, Pipeline(id)).cfg == w.cfg
    ensures t'.pc.Done? && t'.pc.reply.ApprovedOk?
  {
    var two := [Schedule(id, ENV), Schedule(id, ENV)];
    var w2 := Run(w, two);
    RunAppend(w, two, Turn(id, 8));
    TurnIsRun(w2, id, 8);
    AnswersTurn(w, id, seen);
    var w3 := ScheduleTask(w2, id, ENV);
    assert Run(w, Pipeline(id)) == Advance(w3, 8);
    t' := CommitTail(w3, id, f, seen);
  }

  lemma CommitTail(w: World, id: TaskId, f: JoinDict, seen: JoinEntry) returns (t': Task)
    requires w.running == Some(id) && w.reqs == Disk(Some(f), None, FREE) && id in w.tasks && TENANT in f
    requires w.tasks[id] == Task(Approve(TENANT), OnReqs(Probe, Second, None), Seen(seen, FullDraft()))
    ensures Quiet(Advance(w, 8), f[TENANT := Committed(w.cfg, f[TENANT])])
    ensures Advance(w, 8).tasks == w.tasks[id := t'] && Advance(w, 8).cfg == w.cfg
    ensures t'.pc.Done? && t'.pc.reply.ApprovedOk?
  {
    var t := w.tasks[id];
    var b := FinishBundle(TENANT, w.cfg, FullDraft());
    var d := f[TENANT := Committed(w.cfg, f[TENANT])];
    var ev := ApproveCommitted(id, TENANT, b, 0);
    var t5 := t.(pc := OnReqs(SaveLock(d), Second, Some(ev)));
    WholeLoad(w, id, t, f, Second, JoinLoop.Turn(t.locals, t5.pc, []));
    AdvanceAdd(w, 4, 4);
    var w5 := w.(tasks := w.tasks[id := t5]);
    assert Advance(w, 4) == w5;
    SaveTurn(w5, id, t5, d, Second, ev);
    t' := t5.(pc := Done(ReqsSaved(w.cfg, t5)));
  }

  /** A reject in one turn: two loads and a save. */
  lemma RejectTurn(w: World, id: TaskId, f: JoinDict)
    requires Quiet(w, f) && id in w.tasks && w.tasks[id] == Task(Reject(TENANT, ""), Begin, Nothing)
    requires TENANT in f && f[TENANT].status == Pending
    ensures var w' := Run(w, Turn(id, 12));
            && Quiet(w', f[TENANT := RejectEntry(f[TENANT], "", 0)])
            && w'.tasks == w.tasks[id := Task(Reject(TENANT, ""), Done(RejectedOk), Nothing)]
  {
    var t := w.tasks[id];
    TurnIsRun(w, id, 12);
    Started(w, id, t);
    var t1 := t.(pc := OnReqs(Probe, First, None));
    var w1 := w.(running := Some(id), tasks := w.tasks[id := t1]);
    RejectFirstLoad(w1, id, t1, f);
    AdvanceAdd(w1, 4, 8);
    var t2 := t.(pc := OnReqs(Probe, Second, None));
    RejectSecondLoad(w1.(tasks := w1.tasks[id := t2]), id, t2, f);
  }

  lemma RejectFirstLoad(w: World, id: TaskId, t: Task, f: JoinDict)
    requires w.reqs == Disk(Some(f), None, FREE) && w.running == Some(id) && id in w.tasks && w.tasks[id] == t
    requires t == Task(Reject(TENANT, ""), OnReqs(Probe, First, None), Nothing)
    requires TENANT in f && f[TENANT].status == Pending
    ensures Advance(w, 4) == w.(tasks := w.tasks[id := t.(pc := OnReqs(Probe, Second, None))])
  {
    WholeLoad(w, id, t, f, First, JoinLoop.Turn(Nothing, OnReqs(Probe, Second, None), []));
    assert w.history + [] == w.history;
  }

  lemma RejectSecondLoad(w: World, id: TaskId, t: Task, f: JoinDict)
    requires w.reqs == Disk(Some(f), None, FREE) && w.running == Some(id) && id in w.tasks && w.tasks[id] == t
    requires t == Task(Reject(TENANT, ""), OnReqs(Probe, Second, None), Nothing) && TENANT in f
    ensures Quiet(Advance(w, 8), f[TENANT := RejectEntry(f[TENANT], "", 0)])
    ensures Advance(w, 8).tasks == w.tasks[id := t.(pc := Done(RejectedOk))]
  {
    var d := f[TENANT := RejectEntry(f[TENANT], "", 0)];
    var ev := RejectedBy(id, TENANT, "", 0);
    var t1 := t.(pc := OnReqs(SaveLock(d), Second, Some(ev)));
    WholeLoad(w, id, t, f, Second, JoinLoop.Turn(Nothing, t1.pc, []));
    AdvanceAdd(w, 4, 4);
    var w1 := w.(tasks := w.tasks[id := t1]);
    assert Advance(w, 4) == w1;
    SaveTurn(w1, id, t1, d, Second, ev);
  }

  const REQUEST := Payload("Acme", "csr", "", "wg", "")

  function Arrivals(): seq<Label> {
    [Spawn(0, Submit(TENANT, REQUEST)), Spawn(1, Approve(TENANT)),
     Spawn(2, Approve(TENANT)), Spawn(3, Reject(TENANT, ""))]
  }

  function Arrived(): map<TaskId, Task> {
    map[0 := Task(Submit(TENANT, REQUEST), Begin, Nothing),
        1 := Task(Approve(TENANT), Begin, Nothing),
        2 := Task(Approve(TENANT), Begin, Nothing),
        3 := Task(Reject(TENANT, ""), Begin, Nothing)]
  }

  lemma ArrivalsRun(cfg: Settings)
    ensures Run(Init(cfg), Arrivals()) == Init(cfg).(tasks := Arrived())
  {
    var a, i := Arrivals(), Init(cfg);
    assert a[..3][..2] == a[..2] && a[..2][..1] == a[..1] && a[..1][..0] == [];
    assert Run(i, a[..1]) == Exec(i, a[0]);
    assert Run(i, a[..2]) == Exec(Run(i, a[..1]), a[1]);
    assert Run(i, a[..3]) == Exec(Run(i, a[..2]), a[2]);
  }

  /** The four requests have arrived and the submission is stored. */
  lemma SubmitTurn(cfg: Settings) returns (t0: Task)
    ensures var w := Run(Init(cfg), Arrivals() + Turn(0, 5));
            Quiet(w, map[TENANT := PendingEntry(TENANT, REQUEST, 0)]) && w.tasks == Arrived()[0 := t0]
  {
    RunAppend(Init(cfg), Arrivals(), Turn(0, 5));
    ArrivalsRun(cfg);
    var w1 := Init(cfg).(tasks := Arrived());
    TurnIsRun(w1, 0, 5);
    var t1 := Task(Submit(TENANT, REQUEST), OnReqs(Probe, First, None), Nothing);
    var w2 := w1.(running := Some(0), tasks := w1.tasks[0 := t1]);
    AcmeAccepted();
    assert ScheduleTask(w1, 0, ENV) == w2;
    t0 := SubmitSaves(w2, t1);
  }

  lemma SubmitSaves(w: World, t: Task) returns (t0: Task)
    requires w.reqs == Disk(None, None, FREE) && w.running == Some(0) && 0 in w.tasks && w.tasks[0] == t
    requires t == Task(Submit(TENANT, REQUEST), OnReqs(Probe, First, None), Nothing)
    ensures Quiet(Advance(w, 5), map[TENANT := PendingEntry(TENANT, REQUEST, 0)])
    ensures Advance(w, 5).tasks == w.tasks[0 := t0]
  {
    var d := map[TENANT := PendingEntry(TENANT, REQUEST, 0)];
    var ev := Submitted(0, TENANT, REQUEST, 0);
    var t1 := t.(pc := OnReqs(SaveLock(d), First, Some(ev)));
    var w1 := w.(tasks := w.tasks[0 := t1]);
    assert MicroStep(w, ENV) == w1;
    AdvanceOne(w, 5);
    SaveTurn(w1, 0, t1, d, First, ev);
    t0 := t1.(pc := Done(ReqsSaved(w.cfg, t1)));
  }

  lemma AcmeAccepted()
    ensures TenantIdAccepted(TENANT, false)
  {
    assert TENANT[1..] == "cme" && TENANT[1..][1..] == "me";
    assert TENANT[1..][1..][1..] == "e" && TENANT[1..][1..][1..][1..] == "";
    assert WithoutHyphens(TENANT) == TENANT;
    assert IsLower(TENANT[0]);
  }

  function BothChecked(): seq<Label> { Arrivals() + Turn(0, 5) + Turn(1, 4) + Turn(2, 4) }

  lemma BothCheckedRun(cfg: Settings) returns (t0: Task)
    ensures var e := PendingEntry(TENANT, REQUEST, 0);
            var w := Run(Init(cfg), BothChecked());
            Quiet(w, map[TENANT := e]) && w.tasks == Arrived()[0 := t0][1 := Waiting(e)][2 := Waiting(e)]
  {
    var l1 := Arrivals() + Turn(0, 5);
    t0 := SubmitTurn(cfg);
    var f := map[TENANT := PendingEntry(TENANT, REQUEST, 0)];
    CheckTurn(Run(Init(cfg), l1), 1, f);
    RunAppend(Init(cfg), l1, Turn(1, 4));
    CheckTurn(Run(Init(cfg), l1 + Turn(1, 4)), 2, f);
    RunAppend(Init(cfg), l1 + Turn(1, 4), Turn(2, 4));
  }

  /** Two approves that both wait after their check both commit, one after the other. */
  lemma TwoCommits(w: World, f: JoinDict, seen: JoinEntry)
    requires Quiet(w, f) && TENANT in f && seen.payload.mqttBridgeCsr == ""
    requires 1 in w.tasks && w.tasks[1] == Waiting(seen) && 2 in w.tasks && w.tasks[2] == Waiting(seen)
    ensures var w' := Run(Run(w, Pipeline(1)), Pipeline(2));
            && w'.tasks.Keys == w.tasks.Keys
            && (forall id :: id in w.tasks && id != 1 && id != 2 ==> w'.tasks[id] == w.tasks[id])
            && w'.tasks[1].pc.Done? && w'.tasks[1].pc.reply.ApprovedOk?
            && w'.tasks[2].pc.Done? && w'.tasks[2].pc.reply.ApprovedOk?
            && TENANT in View(w'.reqs) && View(w'.reqs)[TENANT].status == Approved
            && View(w'.reqs)[TENANT].rejectedReason == f[TENANT].rejectedReason
  {
    var t1 := CommitTurn(w, 1, f, seen);
    var f1 := f[TENANT := Committed(w.cfg, f[TENANT])];
    var t2 := CommitTurn(Run(w, Pipeline(1)), 2, f1, seen);
  }

  /**
   The reject answered "rejected", yet the request ends approved, by two approves that both
   succeeded; a poll still shows the reason of the reject beside the bundle.
   */
  lemma RejectOverruledByTwoApproves(cfg: Settings)
    ensures var w := Run(Init(cfg), BothChecked() + Turn(3, 12) + Pipeline(1) + Pipeline(2));
            && w.tasks.Keys == {0, 1, 2, 3}
            && w.tasks[3].pc == Done(RejectedOk)
            && w.tasks[1].pc.Done? && w.tasks[1].pc.reply.ApprovedOk?
            && w.tasks[2].pc.Done? && w.tasks[2].pc.reply.ApprovedOk?
            && TENANT in View(w.reqs) && View(w.reqs)[TENANT].status == Approved
            && View(w.reqs)[TENANT].rejectedReason == Some(DEFAULT_REASON)
  {
    var e := PendingEntry(TENANT, REQUEST, 0);
    var t0 := BothCheckedRun(cfg);
    var l3 := BothChecked();
    var l4 := l3 + Turn(3, 12);
    RejectTurn(Run(Init(cfg), l3), 3, map[TENANT := e]);
    RunAppend(Init(cfg), l3, Turn(3, 12));
    TwoCommits(Run(Init(cfg), l4), map[TENANT := e][TENANT := RejectEntry(e, "", 0)], e);
    RunAppend(Init(cfg), l4, Pipeline(1));
    RunAppend(Init(cfg), l4 + Pipeline(1), Pipeline(2));
  }
}
