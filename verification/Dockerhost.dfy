/** pkg/dockerhost: the guest's lifecycle as a state machine over state.json,
    the client directory and the VM. The lock holder takes one step at a time
    and can be killed between any two; the guest can power itself off, and the
    clock can be set, at any time. */
module Dockerhost {
  import opened Wrappers
  import opened Guest

  // The CA of each provision is new; guests and client files are identified by
  // it. A client directory being replaced can be incomplete.
  datatype Client = NoDir | Partial | Holds(ca: nat)

  datatype Vm = Vm(ca: nat, notAfter: int, running: bool)

  // What teardown goes on to: create (provision), give up (a failed create), or
  // nothing (the teardown command).
  datatype Next = ThenCreate | ThenFail | ThenDone

  datatype Outcome = Failed | Reused | Restarted | Created | TornDown

  // Where the lock holder is, between two effects.
  datatype Pc =
    | Load
    | Boot(rec: Record)
    | AwaitHealthy(rec: Record)
    | CheckHealth(rec: Record)
    | Renew(rec: Record, restarted: bool)
    | StopVm(next: Next)
    | RemoveVm(next: Next)
    | WipeClient(next: Next)
    | RemoveClient(next: Next)
    | RemoveRecord(next: Next)
    | Issue
    | SaveNew(rec: Record, ca: nat)
    | WipeOldClient(rec: Record, ca: nat)
    | RemoveOldClient(rec: Record, ca: nat)
    | InstallClient(rec: Record, ca: nat)
    | Launch(rec: Record, ca: nat)
    | LaunchEnd(rec: Record, ca: nat)
    | CloudInit(rec: Record, ca: nat)
    | FirstHealth(rec: Record, ca: nat)
    | SaveReady(rec: Record, ca: nat)
    | Finished(outcome: Outcome)

  datatype Proc = Proc(cfg: Config, pc: Pc)

  // `leftover`: the VM on disk is one whose disk a teardown could not delete; it
  // went on, as the qemu provider does with a warning.
  datatype World = World(
    record: Option<Record>,
    client: Client,
    vm: Option<Vm>,
    holder: Option<Proc>,
    now: int,
    pins: Pins,
    nextCa: nat,
    leftover: bool)

  predicate Running(w: World) {
    w.vm.Some? && w.vm.value.running
  }

  // What the health check needs, besides daemons that answer: the client files
  // are of this guest's CA and its certificates have not expired.
  predicate Answers(w: World) {
    Running(w) && w.client == Holds(w.vm.value.ca) && w.now < w.vm.value.notAfter
  }

  function To(w: World, pc: Pc): World
    requires w.holder.Some?
  {
    w.(holder := Some(w.holder.value.(pc := pc)))
  }

  function SetRunning(w: World, running: bool): World {
    if w.vm.Some? then w.(vm := Some(w.vm.value.(running := running))) else w
  }

  // RemoveAll is interruptible: the directory can be seen half deleted.
  function Wiped(c: Client): Client {
    if c.NoDir? then NoDir else Partial
  }

  predicate Acting(w: World) {
    w.holder.Some? && !w.holder.value.pc.Finished?
  }

  // The lock holder's next effect. `ok` is whether the external part succeeds,
  // `aux` a second circumstance: busy for the decision, the VM up after a
  // failed boot, the disk left behind by a removal, a directory half deleted.
  function Advance(w: World, ok: bool, aux: bool): World
    requires Acting(w)
  {
    var cfg := w.holder.value.cfg;
    match w.holder.value.pc
    case Load =>
      if !ok then To(w, Finished(Failed))
      else (match w.record
        case None => To(w, Issue)
        case Some(rec) =>
          match Decide(rec, cfg, w.pins, Running(w), w.now, aux)
          case Replace => To(w, StopVm(ThenCreate))
          case Restart => To(w, Boot(rec))
          case Reuse => To(w, CheckHealth(rec)))
    case Boot(rec) =>
      if ok && w.vm.Some? then To(SetRunning(w, true), AwaitHealthy(rec))
      else To(SetRunning(w, aux), StopVm(ThenCreate))
    case AwaitHealthy(rec) =>
      if ok && Answers(w) then To(w, Renew(rec.(bootedAt := Some(w.now)), true))
      else To(w, StopVm(ThenCreate))
    case CheckHealth(rec) =>
      if ok && Answers(w) then To(w, Renew(rec, false)) else To(w, StopVm(ThenCreate))
    case Renew(rec, restarted) =>
      // a state file that cannot be written is only a warning here
      To(if ok then w.(record := Some(Renewed(rec, cfg))) else w, Finished(if restarted then Restarted else Reused))
    case StopVm(next) =>
      if ok then To(SetRunning(w, false), RemoveVm(next)) else To(w, Finished(Failed))
    case RemoveVm(next) =>
      if aux && w.vm.Some? then To(w.(leftover := true), WipeClient(next))
      else To(w.(vm := None, leftover := false), WipeClient(next))
    case WipeClient(next) =>
      if ok then To(w.(client := Wiped(w.client)), RemoveClient(next))
      else To(w.(client := if aux then Wiped(w.client) else w.client), Finished(Failed))
    case RemoveClient(next) =>
      if ok then To(w.(client := NoDir), RemoveRecord(next)) else To(w, Finished(Failed))
    case RemoveRecord(next) =>
      if !ok then To(w, Finished(Failed))
      else (match next
        case ThenCreate => To(w.(record := None), Issue)
        case ThenFail => To(w.(record := None), Finished(Failed))
        case ThenDone => To(w.(record := None), Finished(TornDown)))
    case Issue =>
      if ok then To(w.(nextCa := w.nextCa + 1), SaveNew(NewRecord(cfg, w.pins, w.now), w.nextCa))
      else To(w, Finished(Failed))
    case SaveNew(rec, ca) =>
      if ok then To(w.(record := Some(rec)), WipeOldClient(rec, ca)) else To(w, Finished(Failed))
    case WipeOldClient(rec, ca) =>
      if ok then To(w.(client := Wiped(w.client)), RemoveOldClient(rec, ca))
      else To(w.(client := if aux then Wiped(w.client) else w.client), StopVm(ThenFail))
    case RemoveOldClient(rec, ca) =>
      if ok then To(w.(client := NoDir), InstallClient(rec, ca)) else To(w, StopVm(ThenFail))
    case InstallClient(rec, ca) =>
      if ok then To(w.(client := Holds(ca)), Launch(rec, ca)) else To(w, StopVm(ThenFail))
    case Launch(rec, ca) =>
      // an existing disk is refused
      if ok && w.vm.None? then To(w.(vm := Some(Vm(ca, rec.certNotAfter, false))), LaunchEnd(rec, ca))
      else To(w, StopVm(ThenFail))
    case LaunchEnd(rec, ca) =>
      if ok then To(SetRunning(w, true), CloudInit(rec, ca)) else To(SetRunning(w, aux), StopVm(ThenFail))
    case CloudInit(rec, ca) =>
      if ok && Running(w) then To(w, FirstHealth(rec, ca)) else To(w, StopVm(ThenFail))
    case FirstHealth(rec, ca) =>
      if ok && Answers(w) then To(w, SaveReady(rec, ca)) else To(w, StopVm(ThenFail))
    case SaveReady(rec, ca) =>
      if ok then
        To(w.(record := Some(rec.(readyAt := Some(w.now), bootedAt := Some(w.now)))), Finished(Created))
      else To(w, StopVm(ThenFail))
  }

  datatype Event =
    | StartProvision(cfg: Config)
    | StartTeardown(cfg: Config)
    | Effect(ok: bool, aux: bool)
    | Release            // the command ended
    | Kill               // the command died; flock is released
    | PowerOff           // the guest's idle reaper, or a crash of the guest
    | SetClock(now: int)

  predicate Enabled(w: World, e: Event) {
    match e
    case StartProvision(cfg) => w.holder.None? && Valid(cfg)
    case StartTeardown(_) => w.holder.None?
    case Effect(_, _) => Acting(w)
    case Release => w.holder.Some? && w.holder.value.pc.Finished?
    case Kill => w.holder.Some?
    case PowerOff => true
    case SetClock(_) => true
  }

  function Step(w: World, e: Event): World
    requires Enabled(w, e)
  {
    match e
    case StartProvision(cfg) => w.(holder := Some(Proc(cfg, Load)))
    case StartTeardown(cfg) => w.(holder := Some(Proc(cfg, StopVm(ThenDone))))
    case Effect(ok, aux) => Advance(w, ok, aux)
    case Release => w.(holder := None)
    case Kill => w.(holder := None)
    case PowerOff => SetRunning(w, false)
    case SetClock(now) => w.(now := now)
  }

  // ---------- The invariant ----------

  ghost predicate Ready(w: World) {
    w.record.Some? && w.record.value.readyAt.Some?
  }

  // A running guest has a state file, and so has any VM that is not itself left
  // behind by a teardown.
  ghost predicate VmHasRecord(w: World) {
    && (w.leftover ==> w.vm.Some?)
    && (Running(w) ==> w.record.Some?)
    && (w.vm.Some? && !w.leftover ==> w.record.Some?)
  }

  // A ready record with an existing VM: the client directory is never another
  // guest's, and is complete unless a teardown that left this VM took it; the
  // recorded expiry is the VM's certificates'.
  ghost predicate ReadyMatches(w: World) {
    Ready(w) && w.vm.Some? ==>
      && (w.client.Holds? ==> w.client.ca == w.vm.value.ca)
      && (!w.leftover ==> w.client.Holds?)
      && w.record.value.certNotAfter == w.vm.value.notAfter
  }

  ghost predicate RecordDates(w: World) {
    w.record.Some? ==> w.record.value.certNotAfter == w.record.value.createdAt + CERT_VALIDITY
  }

  ghost predicate Gone(w: World) {
    !Running(w) && (w.vm.None? || w.leftover)
  }

  ghost predicate Fresh(rec: Record) {
    rec.readyAt.None? && rec.certNotAfter == rec.createdAt + CERT_VALIDITY
  }

  ghost predicate NewGuest(w: World, rec: Record, ca: nat) {
    && w.record == Some(rec) && Fresh(rec) && w.client == Holds(ca)
    && w.vm.Some? && w.vm.value.ca == ca && w.vm.value.notAfter == rec.certNotAfter
  }

  ghost predicate SameGuest(w: World, rec: Record) {
    && Ready(w) && rec.readyAt.Some?
    && rec.createdAt == w.record.value.createdAt && rec.certNotAfter == w.record.value.certNotAfter
  }

  ghost predicate AtPc(w: World, pc: Pc) {
    match pc
    case Load => true
    case Boot(rec) => w.record == Some(rec) && Ready(w)
    case AwaitHealthy(rec) => w.record == Some(rec) && Ready(w)
    case CheckHealth(rec) => w.record == Some(rec) && Ready(w)
    case Renew(rec, _) => SameGuest(w, rec)
    case StopVm(_) => true
    case RemoveVm(_) => !Running(w)
    case WipeClient(_) => Gone(w)
    case RemoveClient(_) => Gone(w)
    case RemoveRecord(_) => Gone(w)
    case Issue => w.record.None? && Gone(w)
    case SaveNew(rec, ca) => w.record.None? && Gone(w) && Fresh(rec)
    case WipeOldClient(rec, ca) => w.record == Some(rec) && Gone(w) && Fresh(rec)
    case RemoveOldClient(rec, ca) => w.record == Some(rec) && Gone(w) && Fresh(rec)
    case InstallClient(rec, ca) => w.record == Some(rec) && Gone(w) && Fresh(rec)
    case Launch(rec, ca) => w.record == Some(rec) && Gone(w) && Fresh(rec) && w.client == Holds(ca)
    case LaunchEnd(rec, ca) => NewGuest(w, rec, ca)
    case CloudInit(rec, ca) => NewGuest(w, rec, ca)
    case FirstHealth(rec, ca) => NewGuest(w, rec, ca)
    case SaveReady(rec, ca) => NewGuest(w, rec, ca)
    case Finished(_) => true
  }

  ghost predicate Inv(w: World) {
    && VmHasRecord(w) && ReadyMatches(w) && RecordDates(w)
    && (w.holder.Some? ==> AtPc(w, w.holder.value.pc))
  }

  // A machine without a dockerhost.
  ghost predicate Initial(w: World) {
    w.record.None? && w.vm.None? && !w.leftover && w.holder.None?
  }

  predicate UsesExisting(pc: Pc) {
    pc.Load? || pc.Boot? || pc.AwaitHealthy? || pc.CheckHealth? || pc.Renew?
  }

  predicate TearsDown(pc: Pc) {
    pc.StopVm? || pc.RemoveVm? || pc.WipeClient? || pc.RemoveClient? || pc.RemoveRecord?
  }

  predicate MakesClient(pc: Pc) {
    pc.Issue? || pc.SaveNew? || pc.WipeOldClient? || pc.RemoveOldClient? || pc.InstallClient?
  }

  lemma ExistingKeepsInv(w: World, ok: bool, aux: bool)
    requires Inv(w) && Acting(w) && UsesExisting(w.holder.value.pc)
    ensures Inv(Advance(w, ok, aux))
  {
  }

  lemma TeardownKeepsInv(w: World, ok: bool, aux: bool)
    requires Inv(w) && Acting(w) && TearsDown(w.holder.value.pc)
    ensures Inv(Advance(w, ok, aux))
  {
  }

  lemma ClientKeepsInv(w: World, ok: bool, aux: bool)
    requires Inv(w) && Acting(w) && MakesClient(w.holder.value.pc)
    ensures Inv(Advance(w, ok, aux))
  {
  }

  lemma LaunchKeepsInv(w: World, ok: bool, aux: bool)
    requires Inv(w) && Acting(w)
    requires var pc := w.holder.value.pc; !UsesExisting(pc) && !TearsDown(pc) && !MakesClient(pc)
    ensures Inv(Advance(w, ok, aux))
  {
  }

  // What one effect of the lock holder keeps, whatever its outcome.
  lemma AdvanceKeepsInv(w: World, ok: bool, aux: bool)
    requires Inv(w) && Acting(w)
    ensures Inv(Advance(w, ok, aux))
  {
    var pc := w.holder.value.pc;
    if UsesExisting(pc) {
      ExistingKeepsInv(w, ok, aux);
    } else if TearsDown(pc) {
      TeardownKeepsInv(w, ok, aux);
    } else if MakesClient(pc) {
      ClientKeepsInv(w, ok, aux);
    } else {
      LaunchKeepsInv(w, ok, aux);
    }
  }

  lemma StepKeepsInv(w: World, e: Event)
    requires Inv(w) && Enabled(w, e)
    ensures Inv(Step(w, e))
  {
    if e.Effect? {
      AdvanceKeepsInv(w, e.ok, e.aux);
    }
  }

  // ---------- Runs ----------

  ghost predicate IsRun(worlds: seq<World>, events: seq<Event>) {
    && |worlds| == |events| + 1 && Initial(worlds[0])
    && forall i :: 0 <= i < |events| ==> IsStep(worlds, events, i)
  }

  ghost predicate IsStep(worlds: seq<World>, events: seq<Event>, i: nat)
    requires i < |events| && |worlds| == |events| + 1
  {
    Enabled(worlds[i], events[i]) && worlds[i + 1] == Step(worlds[i], events[i])
  }

  lemma {:induction false} RunKeepsInv(worlds: seq<World>, events: seq<Event>, n: nat)
    requires IsRun(worlds, events) && n < |worlds|
    ensures Inv(worlds[n])
    decreases n
  {
    if n > 0 {
      RunKeepsInv(worlds, events, n - 1);
      assert IsStep(worlds, events, n - 1);
      StepKeepsInv(worlds[n - 1], events[n - 1]);
    }
  }

  // One more event.
  lemma Then(worlds: seq<World>, events: seq<Event>, e: Event) returns (worlds': seq<World>, events': seq<Event>)
    requires IsRun(worlds, events) && Enabled(worlds[|events|], e)
    ensures IsRun(worlds', events') && |events'| == |events| + 1
    ensures worlds'[|events'|] == Step(worlds[|events|], e)
  {
    worlds', events' := worlds + [Step(worlds[|events|], e)], events + [e];
    forall i | 0 <= i < |events'| ensures IsStep(worlds', events', i) {
      if i < |events| {
        assert IsStep(worlds, events, i);
      }
    }
  }

  // Effects that go well, one after the other.
  lemma {:induction false} ThenAll(worlds: seq<World>, events: seq<Event>, n: nat)
    returns (worlds': seq<World>, events': seq<Event>)
    requires IsRun(worlds, events) && Goes(worlds[|events|], n)
    ensures IsRun(worlds', events') && worlds'[|events'|] == After(worlds[|events|], n)
    decreases n
  {
    worlds', events' := worlds, events;
    if n > 0 {
      worlds', events' := Then(worlds, events, Effect(true, false));
      worlds', events' := ThenAll(worlds', events', n - 1);
    }
  }

  predicate Goes(w: World, n: nat)
    decreases n
  {
    n == 0 || (Acting(w) && Goes(Advance(w, true, false), n - 1))
  }

  function After(w: World, n: nat): World
    requires Goes(w, n)
    decreases n
  {
    if n == 0 then w else After(Advance(w, true, false), n - 1)
  }
}
