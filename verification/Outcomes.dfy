/** pkg/dockerhost: what exactly an undisturbed provision or teardown ends with
    (provisionLocked, useExisting, create and teardownLocked). */
module Outcomes {
  import opened Wrappers
  import opened Guest
  import opened Dockerhost
  import opened Recovery

  // The record lets the guest stay: ready, what the configuration asks for, and
  // young with the current pins, or in use and at most a day too old.
  predicate Stays(w: World, cfg: Config, busy: bool) {
    && w.record.Some? && w.record.value.readyAt.Some? && Drift(w.record.value, cfg) == []
    && if Running(w) && busy then w.now < w.record.value.createdAt + cfg.maxAge + HARD_AGE_GRACE
       else w.now < w.record.value.createdAt + cfg.maxAge && w.record.value.pins == w.pins
  }

  // The guest is there with its client files and answers, after booting if it
  // was off.
  predicate Works(w: World, luck: nat -> Luck) {
    && w.vm.Some? && w.client == Holds(w.vm.value.ca)
    && if Running(w) then luck(19).answers else luck(19).boots && luck(18).answers
  }

  // ---------- Making a new guest ----------

  // The record of a guest made, booted and ready at this moment.
  function FirstReady(cfg: Config, pins: Pins, now: int): Record {
    Record(cfg.testForwards, if cfg.testForwards.Some? then None else Some(cfg.network),
           cfg.memoryMB, cfg.cpus, cfg.diskSize, cfg.idleTimeout, cfg.maxAge,
           now, Some(now), Some(now), now + 90 * 24 * 3600, pins)
  }

  // On the way to a guest of CA `ca`.
  ghost predicate Making(w: World, cfg: Config, ca: nat, pins: Pins, now: int) {
    && OnTrack(w, cfg) && w.pins == pins && w.now == now
    && match w.holder.value.pc
       case StopVm(_) => w.nextCa == ca
       case RemoveVm(_) => w.nextCa == ca
       case WipeClient(_) => w.nextCa == ca
       case RemoveClient(_) => w.nextCa == ca
       case RemoveRecord(_) => w.nextCa == ca
       case Issue => w.nextCa == ca
       case SaveNew(_, c) => c == ca
       case WipeOldClient(_, c) => c == ca
       case RemoveOldClient(_, c) => c == ca
       case InstallClient(_, c) => c == ca
       case Launch(_, c) => c == ca
       case LaunchEnd(_, c) => c == ca
       case CloudInit(_, c) => c == ca
       case FirstHealth(_, c) => c == ca
       case SaveReady(_, c) => c == ca
       case Finished(outcome) =>
         outcome.Created? && w.vm.Some? && w.vm.value.ca == ca && w.record == Some(FirstReady(cfg, pins, now))
       case _ => false
  }

  lemma MakingStep(w: World, cfg: Config, ca: nat, pins: Pins, now: int, luck: Luck)
    requires Making(w, cfg, ca, pins, now) && Acting(w)
    ensures Making(Benign(w, luck), cfg, ca, pins, now)
    ensures Rank(Benign(w, luck).holder.value.pc) < Rank(w.holder.value.pc)
  {
    CreateOnTrack(w, cfg, luck);
  }

  lemma {:induction false} StaysMaking(w: World, cfg: Config, ca: nat, pins: Pins, now: int,
                                       luck: nat -> Luck, n: nat)
    requires Making(w, cfg, ca, pins, now) && Rank(w.holder.value.pc) <= n
    ensures Making(Iterate(w, luck, n), cfg, ca, pins, now) && Iterate(w, luck, n).holder.value.pc.Finished?
    decreases n
  {
    if Acting(w) {
      MakingStep(w, cfg, ca, pins, now, luck(n));
      StaysMaking(Benign(w, luck(n)), cfg, ca, pins, now, luck, n - 1);
    }
  }

  // ---------- Using the one there is ----------

  lemma Decided(w: World, cfg: Config, luck: Luck)
    requires OnTrack(w, cfg) && w.holder.value.pc.Load?
    ensures var w' := Benign(w, luck);
            w' == To(w, if Stays(w, cfg, luck.busy) then
                          (if Running(w) then CheckHealth(w.record.value) else Boot(w.record.value))
                        else if w.record.Some? then StopVm(ThenCreate)
                        else Issue)
  {
  }

  // What is left as it was, and what the lease sets.
  ghost predicate SameGuest(w: World, end: World, cfg: Config, booted: Option<int>) {
    && w.vm.Some? && w.record.Some? && end.vm == Some(w.vm.value.(running := true)) && end.client == w.client
    && end.record == Some(w.record.value.(idleTimeout := cfg.idleTimeout, maxAge := cfg.maxAge, bootedAt := booted))
  }

  lemma Checked(w: World, cfg: Config, luck: nat -> Luck)
    requires OnTrack(w, cfg) && w.record.Some? && w.holder.value.pc == CheckHealth(w.record.value) && Running(w)
    ensures var end := Iterate(w, luck, 19);
            && end.holder.Some?
            && (luck(19).answers && w.client == Holds(w.vm.value.ca) ==>
                 end.holder.value.pc == Finished(Reused) && SameGuest(w, end, cfg, w.record.value.bootedAt))
            && (!(luck(19).answers && w.client == Holds(w.vm.value.ca)) ==>
                 Making(end, cfg, w.nextCa, w.pins, w.now) && end.holder.value.pc.Finished?)
  {
    var w1 := Benign(w, luck(19));
    KeptOnTrack(w, cfg, luck(19));
    if luck(19).answers && w.client == Holds(w.vm.value.ca) {
      assert w1.holder.value.pc == Renew(w.record.value, false);
      var w2 := Benign(w1, luck(18));
      assert Iterate(w1, luck, 18) == Iterate(w2, luck, 17) == w2;
    } else {
      assert w1.holder.value.pc == StopVm(ThenCreate);
      StaysMaking(w1, cfg, w.nextCa, w.pins, w.now, luck, 18);
    }
  }

  lemma Awaited(w: World, cfg: Config, luck: nat -> Luck)
    requires OnTrack(w, cfg) && w.record.Some? && w.holder.value.pc == AwaitHealthy(w.record.value) && Running(w)
    ensures var end := Iterate(w, luck, 18);
            && end.holder.Some?
            && (luck(18).answers && w.client == Holds(w.vm.value.ca) ==>
                 end.holder.value.pc == Finished(Restarted) && SameGuest(w, end, cfg, Some(w.now)))
            && (!(luck(18).answers && w.client == Holds(w.vm.value.ca)) ==>
                 Making(end, cfg, w.nextCa, w.pins, w.now) && end.holder.value.pc.Finished?)
  {
    var w1 := Benign(w, luck(18));
    KeptOnTrack(w, cfg, luck(18));
    if luck(18).answers && w.client == Holds(w.vm.value.ca) {
      assert w1.holder.value.pc == Renew(w.record.value.(bootedAt := Some(w.now)), true);
      var w2 := Benign(w1, luck(17));
      assert Iterate(w1, luck, 17) == Iterate(w2, luck, 16) == w2;
    } else {
      assert w1.holder.value.pc == StopVm(ThenCreate);
      StaysMaking(w1, cfg, w.nextCa, w.pins, w.now, luck, 17);
    }
  }

  lemma Booted(w: World, cfg: Config, luck: nat -> Luck)
    requires OnTrack(w, cfg) && w.record.Some? && w.holder.value.pc == Boot(w.record.value)
    ensures var end := Iterate(w, luck, 19);
            var works := w.vm.Some? && luck(19).boots && luck(18).answers && w.client == Holds(w.vm.value.ca);
            && end.holder.Some?
            && (works ==> end.holder.value.pc == Finished(Restarted) && SameGuest(w, end, cfg, Some(w.now)))
            && (!works ==> Making(end, cfg, w.nextCa, w.pins, w.now) && end.holder.value.pc.Finished?)
  {
    var w1 := Benign(w, luck(19));
    KeptOnTrack(w, cfg, luck(19));
    if luck(19).boots && w.vm.Some? {
      assert w1.holder.value.pc == AwaitHealthy(w.record.value);
      Awaited(w1, cfg, luck);
    } else {
      assert w1.holder.value.pc == StopVm(ThenCreate);
      StaysMaking(w1, cfg, w.nextCa, w.pins, w.now, luck, 18);
    }
  }

  // ---------- The outcome ----------

  lemma FromLoad(w: World, cfg: Config, luck: nat -> Luck)
    requires OnTrack(w, cfg) && w.holder.value.pc.Load?
    ensures var end, stays := Iterate(w, luck, 20), Stays(w, cfg, luck(20).busy) && Works(w, luck);
            && end.holder.Some?
            && (stays && Running(w) ==>
                 end.holder.value.pc == Finished(Reused) && SameGuest(w, end, cfg, w.record.value.bootedAt))
            && (stays && !Running(w) ==>
                 end.holder.value.pc == Finished(Restarted) && SameGuest(w, end, cfg, Some(w.now)))
            && (!stays ==> Making(end, cfg, w.nextCa, w.pins, w.now) && end.holder.value.pc.Finished?)
  {
    var w1 := Benign(w, luck(20));
    Decided(w, cfg, luck(20));
    DecisionOnTrack(w, cfg, luck(20));
    if Stays(w, cfg, luck(20).busy) {
      if Running(w) {
        Checked(w1, cfg, luck);
      } else {
        Booted(w1, cfg, luck);
      }
    } else {
      StaysMaking(w1, cfg, w.nextCa, w.pins, w.now, luck, 19);
    }
  }

  // From every state a run can leave with nobody holding the lock and no VM
  // without a record: an undisturbed provision keeps the guest if and only if the
  // record lets it stay and it works, booting it from its disk when it is off,
  // and then only its lease and boot time change. Otherwise it makes a new one,
  // of a CA no guest had before. Env exports what it ends with.
  lemma ProvisionOutcome(worlds: seq<World>, events: seq<Event>, n: nat, cfg: Config, luck: nat -> Luck, carries: bool)
    requires IsRun(worlds, events) && n < |worlds| && worlds[n].holder.None? && Valid(cfg)
    requires worlds[n].vm.None? || worlds[n].record.Some?
    ensures var w, end := worlds[n], Iterate(Step(worlds[n], StartProvision(cfg)), luck, 20);
            var stays := Stays(w, cfg, luck(20).busy) && Works(w, luck);
            && end.holder.Some? && end.holder.value.pc.Finished? && end.vm.Some? && end.record.Some?
            && end.holder.value.pc.outcome == (if !stays then Created else if Running(w) then Reused else Restarted)
            && (stays ==> SameGuest(w, end, cfg, if Running(w) then w.record.value.bootedAt else Some(w.now)))
            && (!stays ==>
                 && end.record == Some(FirstReady(cfg, w.pins, w.now))
                 && end.vm.value.ca == w.nextCa && (w.vm.Some? ==> w.nextCa > w.vm.value.ca))
            && Env(end, carries) == Export(end.record.value)
  {
    RunKeepsInv(worlds, events, n);
    CasAreUsedUp(worlds, events, n);
    var w := worlds[n];
    var start := Step(w, StartProvision(cfg));
    StepKeepsInv(w, StartProvision(cfg));
    assert Stays(start, cfg, luck(20).busy) <==> Stays(w, cfg, luck(20).busy);
    FromLoad(start, cfg, luck);
    ProvisionRecovers(worlds, events, n, cfg, luck);
  }

  // ---------- Every CA is new ----------

  ghost predicate UsedUp(w: World) {
    && (w.vm.Some? ==> w.vm.value.ca < w.nextCa)
    && (w.holder.Some? ==>
         match w.holder.value.pc
         case SaveNew(_, c) => c < w.nextCa
         case WipeOldClient(_, c) => c < w.nextCa
         case RemoveOldClient(_, c) => c < w.nextCa
         case InstallClient(_, c) => c < w.nextCa
         case Launch(_, c) => c < w.nextCa
         case LaunchEnd(_, c) => c < w.nextCa
         case CloudInit(_, c) => c < w.nextCa
         case FirstHealth(_, c) => c < w.nextCa
         case SaveReady(_, c) => c < w.nextCa
         case _ => true)
  }

  lemma StepUsesUp(w: World, e: Event)
    requires UsedUp(w) && Enabled(w, e)
    ensures UsedUp(Step(w, e))
  {
  }

  lemma {:induction false} CasAreUsedUp(worlds: seq<World>, events: seq<Event>, n: nat)
    requires IsRun(worlds, events) && n < |worlds|
    ensures UsedUp(worlds[n])
    decreases n
  {
    if n > 0 {
      CasAreUsedUp(worlds, events, n - 1);
      assert IsStep(worlds, events, n - 1);
      StepUsesUp(worlds[n - 1], events[n - 1]);
    }
  }

  // ---------- Teardown ----------

  ghost predicate Clearing(w: World) {
    && w.holder.Some?
    && match w.holder.value.pc
       case StopVm(next) => next.ThenDone?
       case RemoveVm(next) => next.ThenDone?
       case WipeClient(next) => next.ThenDone? && w.vm.None?
       case RemoveClient(next) => next.ThenDone? && w.vm.None?
       case RemoveRecord(next) => next.ThenDone? && w.vm.None? && w.client.NoDir?
       case Finished(outcome) => outcome.TornDown? && w.vm.None? && w.client.NoDir? && w.record.None?
       case _ => false
  }

  lemma {:induction false} StaysClearing(w: World, luck: nat -> Luck, n: nat)
    requires Clearing(w) && (Acting(w) ==> Rank(w.holder.value.pc) <= n)
    ensures Clearing(Iterate(w, luck, n)) && Iterate(w, luck, n).holder.value.pc.Finished?
    decreases n
  {
    if Acting(w) {
      StaysClearing(Benign(w, luck(n)), luck, n - 1);
    }
  }

  // Whatever is there, an undisturbed teardown leaves no VM, no client directory
  // and no record.
  lemma TeardownOutcome(w: World, cfg: Config, luck: nat -> Luck)
    requires w.holder.None?
    ensures var end := Iterate(Step(w, StartTeardown(cfg)), luck, 20);
            && end.holder.Some? && end.holder.value.pc == Finished(TornDown)
            && end.vm.None? && end.client.NoDir? && end.record.None?
  {
    StaysClearing(Step(w, StartTeardown(cfg)), luck, 20);
  }

  // ---------- Where something fails ----------

  // From a new guest's record on.
  predicate Creates(pc: Pc) {
    || pc.WipeOldClient? || pc.RemoveOldClient? || pc.InstallClient? || pc.Launch?
    || pc.LaunchEnd? || pc.CloudInit? || pc.FirstHealth? || pc.SaveReady?
  }

  ghost predicate GivingUp(w: World) {
    && w.holder.Some?
    && match w.holder.value.pc
       case StopVm(next) => next.ThenFail?
       case RemoveVm(next) => next.ThenFail?
       case WipeClient(next) => next.ThenFail? && w.vm.None?
       case RemoveClient(next) => next.ThenFail? && w.vm.None?
       case RemoveRecord(next) => next.ThenFail? && w.vm.None? && w.client.NoDir?
       case Finished(outcome) => outcome.Failed? && w.vm.None? && w.client.NoDir? && w.record.None?
       case _ => false
  }

  lemma {:induction false} StaysGivingUp(w: World, luck: nat -> Luck, n: nat)
    requires GivingUp(w) && (Acting(w) ==> Rank(w.holder.value.pc) <= n)
    ensures GivingUp(Iterate(w, luck, n)) && Iterate(w, luck, n).holder.value.pc.Finished?
    decreases n
  {
    if Acting(w) {
      StaysGivingUp(Benign(w, luck(n)), luck, n - 1);
    }
  }

  // Whatever fails while a guest is made, the provision fails and, if the removal
  // works, leaves no VM, no client directory and no record of it.
  lemma FailedCreateLeavesNothing(w: World, aux: bool, luck: nat -> Luck)
    requires Acting(w) && Creates(w.holder.value.pc)
    ensures var end := Iterate(Advance(w, false, aux), luck, 20);
            && end.holder.Some? && end.holder.value.pc == Finished(Failed)
            && end.vm.None? && end.client.NoDir? && end.record.None?
  {
    StaysGivingUp(Advance(w, false, aux), luck, 20);
  }

  // A removal that fails at a step ends the command and leaves the record, so that
  // the next command finds the guest again.
  lemma FailedRemovalKeepsRecord(w: World, aux: bool)
    requires Acting(w) && TearsDown(w.holder.value.pc) && !w.holder.value.pc.RemoveVm?
    ensures var w' := Advance(w, false, aux);
            w'.holder.value.pc == Finished(Failed) && w'.record == w.record && w'.vm == w.vm
  {
  }

  // ---------- A success was healthy ----------

  predicate ChecksHealth(pc: Pc) {
    pc.AwaitHealthy? || pc.CheckHealth? || pc.FirstHealth?
  }

  // Past the health check, or done with a guest.
  predicate PastHealth(pc: Pc) {
    || pc.Renew? || pc.SaveReady?
    || (pc.Finished? && (pc.outcome.Reused? || pc.outcome.Restarted? || pc.outcome.Created?))
  }

  // At k the same command checked a guest that answered.
  ghost predicate WasHealthy(worlds: seq<World>, events: seq<Event>, k: nat, n: nat)
    requires k < n <= |events| && |worlds| == |events| + 1
  {
    && Answers(worlds[k]) && worlds[k].holder.Some? && ChecksHealth(worlds[k].holder.value.pc)
    && events[k].Effect? && events[k].ok
    && forall j :: k < j <= n ==> worlds[j].holder.Some? && PastHealth(worlds[j].holder.value.pc)
  }

  // No provision reports a guest that did not answer, over TLS with its own client
  // files and valid certificates, to that very command.
  lemma {:induction false} SuccessWasHealthy(worlds: seq<World>, events: seq<Event>, n: nat) returns (k: nat)
    requires IsRun(worlds, events) && n < |worlds|
    requires worlds[n].holder.Some? && PastHealth(worlds[n].holder.value.pc)
    ensures k < n && WasHealthy(worlds, events, k, n)
    decreases n
  {
    assert n > 0;
    assert IsStep(worlds, events, n - 1);
    var w := worlds[n - 1];
    if w.holder.Some? && PastHealth(w.holder.value.pc) {
      k := SuccessWasHealthy(worlds, events, n - 1);
    } else {
      k := n - 1;
    }
  }

  // A shell that carries this dockerhost's variables is told to unset them exactly
  // when nothing is exported to it.
  lemma UnsetIff(w: World)
    ensures Env(w, true).Unset? <==> Env(w, false).Nothing?
    ensures Env(w, true).Export? <==> Env(w, false).Export?
  {
  }
}
