/**
 The JOIN handlers as coroutines on one asyncio event loop. A task runs until it
 suspends; it suspends only at an outbound HTTP call or at a lock it cannot take at
 once. Each lock operation, file read, temp-file write and rename is a step of its
 own, so nothing here assumes that a load-check-save is atomic.
 */
module JoinLoop {
  import opened Common
  import opened JoinModel
  import opened JoinHistory

  // ---------------------------------------------------------------- locks and files

  /** asyncio.Lock: held or not, and the queue of tasks parked on it. */
  datatype Lock = Lock(locked: bool, waiters: seq<TaskId>)

  const FREE := Lock(false, [])

  /** The fast path of acquire: it needs the lock free and nobody queued. */
  predicate Uncontended(l: Lock) { !l.locked && l.waiters == [] }

  /** A JSON file, the temp file beside it, and the module-level lock that guards both. */
  datatype Disk<V> = Disk(file: Option<map<string, V>>, tmp: Option<map<string, V>>, lock: Lock)

  function View<V>(d: Disk<V>): map<string, V> {
    if d.file.Some? then d.file.value else map[]
  }

  /** Where a task stands inside `load` or `save`. */
  datatype Io<V> =
    | Probe                             // path.exists(), outside the lock
    | LoadLock
    | LoadBody
    | LoadUnlock(data: map<string, V>)
    | SaveLock(data: map<string, V>)
    | SaveTmp(data: map<string, V>)
    | SaveRename(data: map<string, V>)
    | SaveUnlock

  datatype IoNext<V> = Goto(io: Io<V>) | Parked | Loaded(data: map<string, V>) | Saved

  datatype IoResult<V> = IoResult(disk: Disk<V>, next: IoNext<V>)

  function TakeLock<V>(d: Disk<V>, id: TaskId, next: Io<V>): IoResult<V> {
    if Uncontended(d.lock) then IoResult(d.(lock := Lock(true, [])), Goto(next))
    else IoResult(d.(lock := d.lock.(waiters := d.lock.waiters + [id])), Parked)
  }

  function DropLock<V>(d: Disk<V>): Disk<V> { d.(lock := d.lock.(locked := false)) }

  function IoStep<V>(d: Disk<V>, id: TaskId, io: Io<V>): IoResult<V> {
    match io
    case Probe => IoResult(d, if d.file.None? then Loaded(map[]) else Goto(LoadLock))
    case LoadLock => TakeLock(d, id, LoadBody)
    case LoadBody => IoResult(d, Goto(LoadUnlock(View(d))))
    case LoadUnlock(data) => IoResult(DropLock(d), Loaded(data))
    case SaveLock(data) => TakeLock(d, id, SaveTmp(data))
    case SaveTmp(data) => IoResult(d.(tmp := Some(data)), Goto(SaveRename(data)))
    case SaveRename(data) => IoResult(d.(file := d.tmp, tmp := None), Goto(SaveUnlock))
    case SaveUnlock => IoResult(DropLock(d), Saved)
  }

  /** A parked task that is first in the queue of a released lock takes it and goes on. */
  function WakeIo<V>(d: Disk<V>, id: TaskId, io: Io<V>): Option<IoResult<V>> {
    if !d.lock.locked && d.lock.waiters != [] && d.lock.waiters[0] == id then
      var d' := d.(lock := Lock(true, d.lock.waiters[1..]));
      match io
      case LoadLock => Some(IoResult(d', Goto(LoadBody)))
      case SaveLock(data) => Some(IoResult(d', Goto(SaveTmp(data))))
      case _ => None
    else None
  }

  // ---------------------------------------------------------------- tasks

  datatype Op =
    | Prepare(tenant: string, name: string)
    | Handshake(key: string, bridgeCsr: string)
    | Submit(tenant: string, payload: Payload)
    | Reject(tenant: string, reason: string)
    | Approve(tenant: string)

  datatype Reply =
    | Prepared(key: string)
    | Joined(handed: Handed)
    | Accepted202
    | RejectedOk
    | ApprovedOk(bundle: Bundle, results: map<string, string>, errors: map<string, string>)
    | Http401 | Http404 | Http409 | Http422
    | Http500                           // an exception no handler catches
    | Lost                              // the process died first

  /** reject and approve load the store twice; approve's second load is after its HTTP calls. */
  datatype Leg = First | Second

  datatype Locals =
    | Nothing
    | Ticket(key: string, at: Time)     // prepare: generated before the load
    | Grant(key: string, tenant: string, bridgeCsr: string, draft: Draft)
    | Seen(entry: JoinEntry, draft: Draft)

  datatype Pc =
    | Begin
    | OnKeys(kio: Io<KeyEntry>, kcommit: Option<Event>)
    | OnReqs(rio: Io<JoinEntry>, leg: Leg, rcommit: Option<Event>)
    | Await(stage: Stage)
    | Done(reply: Reply)

  datatype Task = Task(op: Op, pc: Pc, locals: Locals)

  /** Everything the environment decides in one step. */
  datatype Env = Env(now: Time, later: Time, newKey: string, outcome: Outcome, otherScript: bool)

  datatype World = World(
    cfg: Settings,
    keys: Disk<KeyEntry>,
    reqs: Disk<JoinEntry>,
    tasks: map<TaskId, Task>,
    running: Option<TaskId>,
    history: History)

  datatype Label =
    | Spawn(id: TaskId, op: Op)         // a request arrives
    | Schedule(id: TaskId, env: Env)    // the idle loop resumes a task
    | Micro(env: Env)                   // the running task takes one step
    | Crash                             // the process is killed and restarted

  function Init(cfg: Settings): World {
    World(cfg, Disk(None, None, FREE), Disk(None, None, FREE), map[], None, [])
  }

  // ---------------------------------------------------------------- handler code between I/O

  /** What a handler does when a load or save returns: new locals, next pc, events to record. */
  datatype Turn = Turn(locals: Locals, pc: Pc, log: History)

  function KeysLoaded(id: TaskId, t: Task, data: KeyDict, env: Env): Turn {
    match t.op
    case Prepare(tenant, name) => (
      match t.locals
      case Ticket(key, at) =>
        Turn(t.locals, OnKeys(SaveLock(data[key := NewKey(key, tenant, name, at)]),
                              Some(KeyCreated(id, key, tenant, name, at))), [])
      case _ => Turn(t.locals, Done(Http500), []))
    case Handshake(key, csr) => (
      match Consume(data, key, env.now, env.later)
      case UnknownKey => Turn(t.locals, Done(Http401), [KeyUnknown(id, key)])
      case SpentKey(status) => Turn(t.locals, Done(Http401), [KeySpent(id, key, status)])
      case LapsedKey(e) =>
        Turn(t.locals, OnKeys(SaveLock(data[key := e]), Some(KeyLapsed(id, key, e.tenantId, env.now))), [])
      case AcceptedKey(e) =>
        Turn(Grant(key, e.tenantId, csr, EMPTY_DRAFT),
             OnKeys(SaveLock(data[key := e]), Some(KeyConsumed(id, key, e.tenantId, env.now, env.later))), []))
    case _ => Turn(t.locals, Done(Http500), [])
  }

  function KeysSaved(id: TaskId, t: Task): Turn {
    match t.locals
    case Ticket(key, _) => Turn(t.locals, Done(Prepared(key)), [])
    case Grant(key, tenant, _, _) => Turn(t.locals, Await(SignCsr), [ProvisionStarted(id, key, tenant)])
    case _ => Turn(t.locals, Done(Http401), [])
  }

  function ReqsLoaded(id: TaskId, cfg: Settings, t: Task, leg: Leg, data: JoinDict, env: Env): Turn {
    match t.op
    case Submit(tenant, payload) =>
      if AlreadyApproved(data, tenant) then Turn(t.locals, Done(Http409), [SubmitRefused(id, tenant)])
      else Turn(t.locals, OnReqs(SaveLock(data[tenant := PendingEntry(tenant, payload, env.now)]), leg,
                                 Some(Submitted(id, tenant, payload, env.now))), [])
    case Reject(tenant, reason) => (
      match leg
      case First =>
        if tenant !in data then Turn(t.locals, Done(Http404), [RejectUnknown(id, tenant)])
        else if data[tenant].status == Approved then Turn(t.locals, Done(Http409), [RejectRefused(id, tenant)])
        else Turn(t.locals, OnReqs(Probe, Second, None), [])
      case Second =>
        if tenant !in data then Turn(t.locals, Done(Http500), [])
        else Turn(t.locals, OnReqs(SaveLock(data[tenant := RejectEntry(data[tenant], reason, env.now)]), leg,
                                   Some(RejectedBy(id, tenant, reason, env.now))), []))
    case Approve(tenant) => (
      match leg
      case First =>
        if tenant !in data then Turn(t.locals, Done(Http404), [ApproveUnknown(id, tenant)])
        else if data[tenant].status != Pending then
          Turn(t.locals, Done(Http409), [ApproveRefused(id, tenant, data[tenant].status)])
        else Turn(Seen(data[tenant], EMPTY_DRAFT), Await(SignCsr), [ApproveChecked(id, tenant, data[tenant])])
      case Second =>
        if t.locals.Seen? && tenant in data then
          var b := FinishBundle(tenant, cfg, t.locals.draft);
          Turn(t.locals, OnReqs(SaveLock(data[tenant := ApproveEntry(data[tenant], b, env.now)]), leg,
                                Some(ApproveCommitted(id, tenant, b, env.now))), [])
        else Turn(t.locals, Done(Http500), []))
    case _ => Turn(t.locals, Done(Http500), [])
  }

  function ReqsSaved(cfg: Settings, t: Task): Reply {
    match t.op
    case Submit(_, _) => Accepted202
    case Reject(_, _) => RejectedOk
    case Approve(tenant) =>
      if t.locals.Seen? then
        ApprovedOk(FinishBundle(tenant, cfg, t.locals.draft), t.locals.draft.results, t.locals.draft.errors)
      else Http500
    case _ => Http500
  }

  /** The tenant a task provisions: the key's tenant, or the one in the path of approve. */
  function ProvisionedTenant(t: Task): string {
    if t.locals.Grant? then t.locals.tenant else if t.op.Approve? then t.op.tenant else ""
  }

  function BridgeCsr(locals: Locals): string {
    match locals
    case Grant(_, _, csr, _) => csr
    case Seen(entry, _) => entry.payload.mqttBridgeCsr
    case _ => ""
  }

  /** The answer of one stage's calls: on to the next stage that makes a call, or past the pipeline. */
  function StageReturned(cfg: Settings, t: Task, stage: Stage, o: Outcome): Task {
    if !t.locals.Grant? && !t.locals.Seen? then t.(pc := Done(Http500))
    else
      var tenant := ProvisionedTenant(t);
      match RunStage(t.locals.draft, stage, tenant, o)
      case None => t.(pc := Done(Http500))
      case Some(d) =>
        var (d', next) := NextStage(d, stage, BridgeCsr(t.locals));
        var t' := t.(locals := t.locals.(draft := d'));
        if next.Some? then t'.(pc := Await(next.value))
        else if t.locals.Seen? then t'.(pc := OnReqs(Probe, Second, None))
        else t'.(pc := Done(Joined(HandOver(tenant, FinishBundle(tenant, cfg, d')))))
  }

  function NextStage(d: Draft, stage: Stage, csr: string): (Draft, Option<Stage>) {
    match stage
    case SignCsr => (d, Some(Rabbit))
    case Rabbit => if csr != "" then (d, Some(BridgeCert)) else (SkipBridgeCert(d), Some(Federation))
    case BridgeCert => (d, Some(Federation))
    case Federation => (d, None)
  }

  // ---------------------------------------------------------------- steps

  function AppendCommit(h: History, io: Io, commit: Option<Event>): History {
    if io.SaveRename? && commit.Some? then h + [commit.value] else h
  }

  /** A task that waits or has ended gives the loop back. */
  function Settle(w: World, id: TaskId, t: Task): World {
    w.(tasks := w.tasks[id := t],
       running := if t.pc.Await? || t.pc.Done? || t.pc.Begin? then None else Some(id))
  }

  function MicroKeys(w: World, id: TaskId, t: Task, env: Env): World
    requires t.pc.OnKeys?
  {
    var r := IoStep(w.keys, id, t.pc.kio);
    var w1 := w.(keys := r.disk, history := AppendCommit(w.history, t.pc.kio, t.pc.kcommit));
    match r.next
    case Goto(io) => Settle(w1, id, t.(pc := t.pc.(kio := io)))
    case Parked => w1.(running := None)
    case Loaded(data) =>
      var turn := KeysLoaded(id, t, data, env);
      Settle(w1.(history := w1.history + turn.log), id, Task(t.op, turn.pc, turn.locals))
    case Saved =>
      var turn := KeysSaved(id, t);
      Settle(w1.(history := w1.history + turn.log), id, Task(t.op, turn.pc, turn.locals))
  }

  function MicroReqs(w: World, id: TaskId, t: Task, env: Env): World
    requires t.pc.OnReqs?
  {
    var r := IoStep(w.reqs, id, t.pc.rio);
    var w1 := w.(reqs := r.disk, history := AppendCommit(w.history, t.pc.rio, t.pc.rcommit));
    match r.next
    case Goto(io) => Settle(w1, id, t.(pc := t.pc.(rio := io)))
    case Parked => w1.(running := None)
    case Loaded(data) =>
      var turn := ReqsLoaded(id, w.cfg, t, t.pc.leg, data, env);
      Settle(w1.(history := w1.history + turn.log), id, Task(t.op, turn.pc, turn.locals))
    case Saved => Settle(w1, id, t.(pc := Done(ReqsSaved(w.cfg, t))))
  }

  function MicroStep(w: World, env: Env): World {
    if w.running.None? || w.running.value !in w.tasks then w
    else
      var id := w.running.value;
      var t := w.tasks[id];
      match t.pc
      case OnKeys(_, _) => MicroKeys(w, id, t, env)
      case OnReqs(_, _, _) => MicroReqs(w, id, t, env)
      case _ => w.(running := None)
  }

  /** The first steps of a handler, up to its first load. */
  function BeginTask(t: Task, env: Env): Task {
    match t.op
    case Prepare(tenant, _) =>
      if TenantIdAccepted(tenant, env.otherScript) then
        t.(pc := OnKeys(Probe, None), locals := Ticket(env.newKey, env.now))
      else t.(pc := Done(Http422))
    case Handshake(key, _) => if key == "" then t.(pc := Done(Http401)) else t.(pc := OnKeys(Probe, None))
    case Submit(tenant, _) =>
      if TenantIdAccepted(tenant, env.otherScript) then t.(pc := OnReqs(Probe, First, None))
      else t.(pc := Done(Http422))
    case Reject(_, _) => t.(pc := OnReqs(Probe, First, None))
    case Approve(_) => t.(pc := OnReqs(Probe, First, None))
  }

  /**
   The idle loop resumes one ready task. The only assumption about the generator of keys is made
   here: a step that would draw a key already in the file does not happen.
   */
  function ScheduleTask(w: World, id: TaskId, env: Env): World {
    if w.running.Some? || id !in w.tasks then w
    else
      var t := w.tasks[id];
      match t.pc
      case Begin => if t.op.Prepare? && env.newKey in View(w.keys) then w else Settle(w, id, BeginTask(t, env))
      case Await(stage) => Settle(w, id, StageReturned(w.cfg, t, stage, env.outcome))
      case OnKeys(io, commit) => (
        match WakeIo(w.keys, id, io)
        case Some(r) => if r.next.Goto? then Settle(w.(keys := r.disk), id, t.(pc := OnKeys(r.next.io, commit))) else w
        case None => w)
      case OnReqs(io, leg, commit) => (
        match WakeIo(w.reqs, id, io)
        case Some(r) =>
          if r.next.Goto? then Settle(w.(reqs := r.disk), id, t.(pc := OnReqs(r.next.io, leg, commit))) else w
        case None => w)
      case Done(_) => w
  }

  /** Files survive a crash, temp files included; coroutines and locks do not. */
  function CrashAll(w: World): World {
    w.(keys := w.keys.(lock := FREE),
       reqs := w.reqs.(lock := FREE),
       tasks := map id | id in w.tasks ::
                  w.tasks[id].(pc := if w.tasks[id].pc.Done? then w.tasks[id].pc else Done(Lost)),
       running := None)
  }

  /** Every label is possible in every world; one that makes no sense there changes nothing. */
  function Exec(w: World, l: Label): World {
    match l
    case Spawn(id, op) => if id in w.tasks then w else w.(tasks := w.tasks[id := Task(op, Begin, Nothing)])
    case Schedule(id, env) => ScheduleTask(w, id, env)
    case Micro(env) => MicroStep(w, env)
    case Crash => CrashAll(w)
  }

  function Run(w: World, ls: seq<Label>): World {
    if ls == [] then w else Exec(Run(w, ls[..|ls| - 1]), ls[|ls| - 1])
  }
}
