/** pkg/dockerhost: what readers see at any moment, and what one provision makes
    of whatever state a killed one left. */
module Recovery {
  import opened Wrappers
  import opened Guest
  import opened Dockerhost

  // ---------- Env and BuildkitClient, which take no lock ----------

  // Env's answer from one snapshot: the export lines of the record and the
  // client directory, an unset line for a shell that carries this dockerhost's
  // variables, or nothing.
  datatype EnvAnswer = Export(record: Record) | Unset | Nothing

  function Env(w: World, carriesOurs: bool): EnvAnswer {
    if w.record.Some? && w.record.value.readyAt.Some? && Running(w) then Export(w.record.value)
    else if carriesOurs then Unset
    else Nothing
  }

  datatype BuildkitAnswer = NotProvisioned | GuestDown | At(record: Record)

  function BuildkitClient(w: World): BuildkitAnswer {
    if w.record.None? then NotProvisioned
    else if !Running(w) || w.record.value.readyAt.None? then GuestDown
    else At(w.record.value)
  }

  // In every state of every run: what Env exports belongs to the running
  // guest, and the client directory holds that guest's CA. Only where that very
  // guest was brought back from a disk a teardown could not delete can the
  // directory be gone or incomplete; it never holds another guest's. And
  // BuildkitClient gives an address exactly when Env exports one.
  lemma ExportsOnlyTheRunningGuest(worlds: seq<World>, events: seq<Event>, n: nat, carriesOurs: bool)
    requires IsRun(worlds, events) && n < |worlds|
    ensures var w := worlds[n];
            Env(w, carriesOurs).Export? ==>
              && w.vm.Some?
              && Env(w, carriesOurs).record.certNotAfter == w.vm.value.notAfter
              && (w.client.Holds? ==> w.client.ca == w.vm.value.ca)
              && (!w.leftover ==> w.client == Holds(w.vm.value.ca))
    ensures Running(worlds[n]) ==> worlds[n].record.Some?
    ensures worlds[n].vm.Some? && !worlds[n].leftover ==> worlds[n].record.Some?
    ensures Env(worlds[n], carriesOurs).Export? <==> BuildkitClient(worlds[n]).At?
  {
    RunKeepsInv(worlds, events, n);
  }

  // ---------- One provision that nothing outside disturbs ----------

  // Circumstances of one effect: whether the guest is in use, boots again,
  // answers, and is up after a boot that failed. Every other external step
  // succeeds.
  datatype Luck = Luck(busy: bool, boots: bool, halfUp: bool, answers: bool)

  function Benign(w: World, luck: Luck): World
    requires Acting(w)
  {
    var pc := w.holder.value.pc;
    var ok := if pc.Boot? then luck.boots else if pc.AwaitHealthy? || pc.CheckHealth? then luck.answers else true;
    var aux := if pc.Load? then luck.busy else pc.Boot? && luck.halfUp;
    Advance(w, ok, aux)
  }

  // n effects, or fewer if the command ends, each under its own circumstances.
  function Iterate(w: World, luck: nat -> Luck, n: nat): World
    decreases n
  {
    if n == 0 || !Acting(w) then w else Iterate(Benign(w, luck(n)), luck, n - 1)
  }

  // An upper bound on the effects left.
  function Rank(pc: Pc): nat {
    match pc
    case Load => 20
    case Boot(_) => 19
    case AwaitHealthy(_) => 18
    case CheckHealth(_) => 18
    case StopVm(next) => if next.ThenCreate? then 17 else 6
    case RemoveVm(next) => if next.ThenCreate? then 16 else 5
    case WipeClient(next) => if next.ThenCreate? then 15 else 4
    case RemoveClient(next) => if next.ThenCreate? then 14 else 3
    case RemoveRecord(next) => if next.ThenCreate? then 13 else 2
    case Issue => 12
    case SaveNew(_, _) => 11
    case WipeOldClient(_, _) => 10
    case RemoveOldClient(_, _) => 9
    case InstallClient(_, _) => 8
    case Launch(_, _) => 7
    case LaunchEnd(_, _) => 6
    case CloudInit(_, _) => 5
    case FirstHealth(_, _) => 4
    case SaveReady(_, _) => 3
    case Renew(_, _) => 1
    case Finished(_) => 0
  }

  // A guest a client can use, made with this configuration.
  ghost predicate Usable(w: World, cfg: Config) {
    && w.record.Some? && w.record.value.readyAt.Some?
    && Running(w) && w.client == Holds(w.vm.value.ca)
    && w.record.value.certNotAfter == w.vm.value.notAfter
    && Drift(w.record.value, cfg) == []
    && w.record.value.certNotAfter - w.now > 29 * DAY
  }

  ghost predicate Suits(w: World, rec: Record, cfg: Config) {
    Drift(rec, cfg) == [] && rec.certNotAfter - w.now > 29 * DAY
  }

  ghost predicate OnTrack(w: World, cfg: Config) {
    && Inv(w) && Valid(cfg) && w.holder.Some? && w.holder.value.cfg == cfg
    && match w.holder.value.pc
       case Load => w.vm.None? || w.record.Some?
       case Boot(rec) => Suits(w, rec, cfg)
       case AwaitHealthy(rec) => Suits(w, rec, cfg)
       case CheckHealth(rec) => Suits(w, rec, cfg)
       case Renew(rec, _) => Suits(w, rec, cfg) && Answers(w)
       case StopVm(next) => next.ThenCreate?
       case RemoveVm(next) => next.ThenCreate?
       case WipeClient(next) => next.ThenCreate? && w.vm.None?
       case RemoveClient(next) => next.ThenCreate? && w.vm.None?
       case RemoveRecord(next) => next.ThenCreate? && w.vm.None?
       case Issue => w.vm.None?
       case SaveNew(rec, _) => w.vm.None? && rec == NewRecord(cfg, w.pins, w.now)
       case WipeOldClient(rec, _) => w.vm.None? && rec == NewRecord(cfg, w.pins, w.now)
       case RemoveOldClient(rec, _) => w.vm.None? && rec == NewRecord(cfg, w.pins, w.now)
       case InstallClient(rec, _) => w.vm.None? && rec == NewRecord(cfg, w.pins, w.now)
       case Launch(rec, _) => w.vm.None? && rec == NewRecord(cfg, w.pins, w.now)
       case LaunchEnd(rec, _) => rec == NewRecord(cfg, w.pins, w.now)
       case CloudInit(rec, _) => rec == NewRecord(cfg, w.pins, w.now) && Running(w)
       case FirstHealth(rec, _) => rec == NewRecord(cfg, w.pins, w.now) && Running(w)
       case SaveReady(rec, _) => rec == NewRecord(cfg, w.pins, w.now) && Running(w)
       case Finished(outcome) => (outcome.Reused? || outcome.Restarted? || outcome.Created?) && Usable(w, cfg)
  }

  lemma DecisionOnTrack(w: World, cfg: Config, luck: Luck)
    requires OnTrack(w, cfg) && Acting(w) && w.holder.value.pc.Load?
    ensures OnTrack(Benign(w, luck), cfg) && Rank(Benign(w, luck).holder.value.pc) < Rank(w.holder.value.pc)
  {
    AdvanceKeepsInv(w, true, luck.busy);
    if w.record.Some? {
      var verdict := Decide(w.record.value, cfg, w.pins, Running(w), w.now, luck.busy);
      if !verdict.Replace? {
        KeptGuestHasValidCertificates(w.record.value, cfg, w.pins, Running(w), w.now, luck.busy);
      }
    }
  }

  lemma KeptOnTrack(w: World, cfg: Config, luck: Luck)
    requires OnTrack(w, cfg) && Acting(w)
    requires UsesExisting(w.holder.value.pc) && !w.holder.value.pc.Load?
    ensures OnTrack(Benign(w, luck), cfg) && Rank(Benign(w, luck).holder.value.pc) < Rank(w.holder.value.pc)
  {
    var pc := w.holder.value.pc;
    if pc.Boot? {
      AdvanceKeepsInv(w, luck.boots, luck.halfUp);
    } else if pc.Renew? {
      AdvanceKeepsInv(w, true, false);
    } else {
      AdvanceKeepsInv(w, luck.answers, false);
    }
  }

  lemma CreateOnTrack(w: World, cfg: Config, luck: Luck)
    requires OnTrack(w, cfg) && Acting(w) && !UsesExisting(w.holder.value.pc)
    ensures OnTrack(Benign(w, luck), cfg) && Rank(Benign(w, luck).holder.value.pc) < Rank(w.holder.value.pc)
  {
    AdvanceKeepsInv(w, true, false);
  }

  lemma {:induction false} StaysOnTrack(w: World, cfg: Config, luck: nat -> Luck, n: nat)
    requires OnTrack(w, cfg) && Rank(w.holder.value.pc) <= n
    ensures OnTrack(Iterate(w, luck, n), cfg) && Iterate(w, luck, n).holder.value.pc.Finished?
    decreases n
  {
    if Acting(w) {
      if w.holder.value.pc.Load? {
        DecisionOnTrack(w, cfg, luck(n));
      } else if UsesExisting(w.holder.value.pc) {
        KeptOnTrack(w, cfg, luck(n));
      } else {
        CreateOnTrack(w, cfg, luck(n));
      }
      StaysOnTrack(Benign(w, luck(n)), cfg, luck, n - 1);
    }
  }

  // A leftover disk without a record dooms the first provision: creating is
  // refused, and the failed create removes the disk.
  ghost predicate Doomed(w: World) {
    && Inv(w) && w.holder.Some?
    && match w.holder.value.pc
       case Load => w.record.None? && w.vm.Some?
       case Issue => w.vm.Some?
       case SaveNew(_, _) => w.vm.Some?
       case WipeOldClient(_, _) => w.vm.Some?
       case RemoveOldClient(_, _) => w.vm.Some?
       case InstallClient(_, _) => w.vm.Some?
       case Launch(_, _) => w.vm.Some?
       case StopVm(next) => next.ThenFail?
       case RemoveVm(next) => next.ThenFail?
       case WipeClient(next) => next.ThenFail? && w.vm.None?
       case RemoveClient(next) => next.ThenFail? && w.vm.None?
       case RemoveRecord(next) => next.ThenFail? && w.vm.None?
       case Finished(outcome) => outcome.Failed? && w.vm.None? && w.record.None?
       case _ => false
  }

  lemma DoomedStep(w: World, luck: Luck)
    requires Doomed(w) && Acting(w)
    ensures Doomed(Benign(w, luck)) && Rank(Benign(w, luck).holder.value.pc) < Rank(w.holder.value.pc)
  {
    AdvanceKeepsInv(w, true, false);
    AdvanceKeepsInv(w, true, true);
  }

  lemma {:induction false} StaysDoomed(w: World, luck: nat -> Luck, n: nat)
    requires Doomed(w) && Rank(w.holder.value.pc) <= n
    ensures Doomed(Iterate(w, luck, n)) && Iterate(w, luck, n).holder.value.pc.Finished?
    decreases n
  {
    if Acting(w) {
      DoomedStep(w, luck(n));
      StaysDoomed(Benign(w, luck(n)), luck, n - 1);
    }
  }

  // From every state a run can leave behind, with nobody holding the lock: one
  // undisturbed provision ends with a usable guest exactly when there is no VM
  // without a record; otherwise it fails and leaves neither, so the next one
  // succeeds.
  lemma ProvisionRecovers(worlds: seq<World>, events: seq<Event>, n: nat, cfg: Config, luck: nat -> Luck)
    requires IsRun(worlds, events) && n < |worlds| && worlds[n].holder.None? && Valid(cfg)
    ensures var w := worlds[n];
            var end := Iterate(Step(w, StartProvision(cfg)), luck, 20);
            && end.holder.Some? && end.holder.value.pc.Finished?
            && (w.vm.None? || w.record.Some? ==> !end.holder.value.pc.outcome.Failed? && Usable(end, cfg))
            && (w.vm.Some? && w.record.None? ==>
                 end.holder.value.pc.outcome.Failed? && end.vm.None? && end.record.None?)
  {
    RunKeepsInv(worlds, events, n);
    var w := worlds[n];
    var start := Step(w, StartProvision(cfg));
    StepKeepsInv(w, StartProvision(cfg));
    if w.vm.None? || w.record.Some? {
      StaysOnTrack(start, cfg, luck, 20);
    } else {
      StaysDoomed(start, luck, 20);
    }
  }

  // Such a state is reached: a provision is killed right after its VM was made,
  // and a teardown cannot delete the disk.
  lemma VmWithoutRecordWitness(cfg: Config, pins: Pins) returns (worlds: seq<World>, events: seq<Event>)
    requires Valid(cfg)
    ensures IsRun(worlds, events)
    ensures var w := worlds[|events|]; w.vm.Some? && w.record.None? && w.holder.None?
  {
    worlds, events := KilledAfterLaunch(cfg, pins);
    worlds, events := TornOff(worlds, events, cfg);
  }

  lemma KilledAfterLaunch(cfg: Config, pins: Pins) returns (worlds: seq<World>, events: seq<Event>)
    requires Valid(cfg)
    ensures IsRun(worlds, events) && worlds[|events|].vm.Some? && worlds[|events|].holder.None?
  {
    worlds, events := [World(None, NoDir, None, None, 0, pins, 0, false)], [];
    worlds, events := Then(worlds, events, StartProvision(cfg));
    ToSave(worlds[|events|], cfg);
    worlds, events := ThenAll(worlds, events, 2);
    ToInstall(worlds[|events|]);
    worlds, events := ThenAll(worlds, events, 3);
    LaunchTwo(worlds[|events|]);
    worlds, events := ThenAll(worlds, events, 2);
    worlds, events := Then(worlds, events, Kill);
  }

  lemma Going(w: World, next: World, n: nat)
    requires Acting(w) && Advance(w, true, false) == next && Goes(next, n)
    ensures Goes(w, n + 1) && After(w, n + 1) == After(next, n)
  {
  }

  lemma ToSave(w: World, cfg: Config)
    requires w.record.None? && w.vm.None? && w.client.NoDir? && w.holder == Some(Proc(cfg, Load))
    ensures Goes(w, 2)
    ensures var w' := After(w, 2);
            w'.vm.None? && w'.client.NoDir? && w'.holder.Some? && w'.holder.value.pc.SaveNew?
  {
    var w1 := To(w, Issue);
    var w2 := To(w1.(nextCa := w.nextCa + 1), SaveNew(NewRecord(cfg, w.pins, w.now), w.nextCa));
    Going(w1, w2, 0);
    Going(w, w1, 1);
  }

  lemma ToInstall(w: World)
    requires w.vm.None? && w.client.NoDir? && w.holder.Some? && w.holder.value.pc.SaveNew?
    ensures Goes(w, 3)
    ensures After(w, 3).vm.None? && After(w, 3).holder.Some? && After(w, 3).holder.value.pc.InstallClient?
  {
    var rec, ca := w.holder.value.pc.rec, w.holder.value.pc.ca;
    var w1 := To(w.(record := Some(rec)), WipeOldClient(rec, ca));
    var w2 := To(w1, RemoveOldClient(rec, ca));
    var w3 := To(w2, InstallClient(rec, ca));
    Going(w2, w3, 0);
    Going(w1, w2, 1);
    Going(w, w1, 2);
  }

  lemma LaunchTwo(w: World)
    requires w.vm.None? && w.holder.Some? && w.holder.value.pc.InstallClient?
    ensures Goes(w, 2) && After(w, 2).vm.Some? && After(w, 2).holder.Some?
  {
    var rec, ca := w.holder.value.pc.rec, w.holder.value.pc.ca;
    var w1 := To(w.(client := Holds(ca)), Launch(rec, ca));
    var w2 := To(w1.(vm := Some(Vm(ca, rec.certNotAfter, false))), LaunchEnd(rec, ca));
    Going(w1, w2, 0);
    Going(w, w1, 1);
  }

  lemma TornOff(worlds: seq<World>, events: seq<Event>, cfg: Config) returns (worlds': seq<World>, events': seq<Event>)
    requires IsRun(worlds, events) && worlds[|events|].vm.Some? && worlds[|events|].holder.None?
    ensures IsRun(worlds', events')
    ensures var w := worlds'[|events'|]; w.vm.Some? && w.record.None? && w.holder.None?
  {
    worlds', events' := Then(worlds, events, StartTeardown(cfg));
    worlds', events' := Then(worlds', events', Effect(true, false));
    worlds', events' := Then(worlds', events', Effect(true, true));
    var w := worlds'[|events'|];
    RecordGoes(w, cfg);
    worlds', events' := ThenAll(worlds', events', 3);
    worlds', events' := Then(worlds', events', Release);
  }

  lemma RecordGoes(w: World, cfg: Config)
    requires w.vm.Some? && w.holder == Some(Proc(cfg, WipeClient(ThenDone)))
    ensures Goes(w, 3) && After(w, 3).vm.Some? && After(w, 3).record.None?
    ensures After(w, 3).holder == Some(Proc(cfg, Finished(TornDown)))
  {
    var w1 := To(w.(client := Wiped(w.client)), RemoveClient(ThenDone));
    var w2 := To(w1.(client := NoDir), RemoveRecord(ThenDone));
    var w3 := To(w2.(record := None), Finished(TornDown));
    Going(w2, w3, 0);
    Going(w1, w2, 1);
    Going(w, w1, 2);
  }
}
