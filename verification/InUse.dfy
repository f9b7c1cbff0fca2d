/** pkg/dockerhost: how long a running guest lives through the provisions that
    find it (decideExisting and the health check of useExisting). */
module InUse {
  import opened Wrappers
  import opened Guest
  import opened Dockerhost

  // What a renewed lease changes of a record, blanked out.
  function Lasting(r: Record): Record {
    r.(idleTimeout := 0, maxAge := 0)
  }

  // The guest is as it was, and its holder, if any, means to use it.
  ghost predicate Kept(w: World, vm: Vm, r: Record) {
    && w.vm == Some(vm) && w.record.Some? && Lasting(w.record.value) == Lasting(r)
    && (w.holder.Some? ==> Keeps(w, w.holder.value.pc))
  }

  ghost predicate Keeps(w: World, pc: Pc) {
    match pc
    case Load => true
    case CheckHealth(rec) => w.record == Some(rec)
    case Renew(rec, _) => w.record == Some(rec)
    case Finished(_) => true
    case _ => false
  }

  // The provision may keep a guest made like r: it matches the configuration, is
  // not a day past its maximum age, and is in use or has no reason to go.
  predicate MayStay(r: Record, cfg: Config, pins: Pins, now: int, busy: bool) {
    && Drift(r, cfg) == []
    && now < r.createdAt + cfg.maxAge + HARD_AGE_GRACE
    && (busy || (now < r.createdAt + cfg.maxAge && r.pins == pins))
  }

  // The effect does not turn a provision against the guest: a decision about it
  // lets it stay, and a health check of it is answered.
  predicate Passes(r: Record, w: World, e: Event) {
    e.Effect? && Acting(w) ==>
      && (w.holder.value.pc.Load? && e.ok ==> MayStay(r, w.holder.value.cfg, w.pins, w.now, e.aux))
      && (w.holder.value.pc.CheckHealth? ==> e.ok && Answers(w))
  }

  // Somebody is about to remove the guest.
  predicate Removing(w: World) {
    w.holder.Some? && TearsDown(w.holder.value.pc)
  }

  lemma VerdictIff(r: Record, now: Record, cfg: Config, pins: Pins, at: int, busy: bool)
    requires Lasting(now) == Lasting(r) && r.readyAt.Some?
    ensures Decide(now, cfg, pins, true, at, busy) == if MayStay(r, cfg, pins, at, busy) then Reuse else Replace
  {
    LeaseIsNoDrift(r, cfg, cfg);
    SameDrift(r, now, cfg);
  }

  lemma SameDrift(r: Record, now: Record, cfg: Config)
    requires Lasting(now) == Lasting(r)
    ensures Drift(now, cfg) == Drift(r, cfg)
  {
    var lease := cfg.(idleTimeout := 0, maxAge := 0);
    LeaseIsNoDrift(r, lease, cfg);
    LeaseIsNoDrift(now, lease, cfg);
  }

  lemma EffectKeepsIff(w: World, e: Event, vm: Vm, r: Record)
    requires Kept(w, vm, r) && vm.running && r.readyAt.Some? && Enabled(w, e) && e.Effect?
    ensures Passes(r, w, e) ==> Kept(Step(w, e), vm, r)
    ensures !Passes(r, w, e) ==> Removing(Step(w, e))
  {
    if w.holder.value.pc.Load? {
      VerdictIff(r, w.record.value, w.holder.value.cfg, w.pins, w.now, e.aux);
    }
  }

  lemma StepKeepsIff(w: World, e: Event, vm: Vm, r: Record)
    requires Kept(w, vm, r) && vm.running && r.readyAt.Some? && Enabled(w, e)
    requires !e.StartTeardown? && !e.PowerOff?
    ensures Passes(r, w, e) ==> Kept(Step(w, e), vm, r)
    ensures !Passes(r, w, e) ==> Removing(Step(w, e))
  {
    if e.Effect? {
      EffectKeepsIff(w, e, vm, r);
    }
  }

  lemma {:induction false} KeptUpToIff(worlds: seq<World>, events: seq<Event>, n: nat, m: nat)
    requires IsRun(worlds, events) && n <= m < |worlds|
    requires worlds[n].holder.None? && Running(worlds[n]) && Ready(worlds[n])
    requires forall k :: n <= k < m ==> !events[k].StartTeardown? && !events[k].PowerOff?
    ensures var vm, r := worlds[n].vm.value, worlds[n].record.value;
            && (Unharmed(worlds, n, m) <==> AllPass(worlds, events, n, m, r))
            && (Unharmed(worlds, n, m) ==> Kept(worlds[m], vm, r))
    decreases m
  {
    if n < m {
      KeptUpToIff(worlds, events, n, m - 1);
      assert IsStep(worlds, events, m - 1);
      var vm, r := worlds[n].vm.value, worlds[n].record.value;
      if Unharmed(worlds, n, m - 1) {
        StepKeepsIff(worlds[m - 1], events[m - 1], vm, r);
      }
      OneMore(worlds, events, n, m, r);
    }
  }

  // Nobody has begun to remove the guest.
  ghost predicate Unharmed(worlds: seq<World>, n: nat, m: nat)
    requires n <= m < |worlds|
  {
    forall k :: n <= k <= m ==> !Removing(worlds[k])
  }

  ghost predicate AllPass(worlds: seq<World>, events: seq<Event>, n: nat, m: nat, r: Record)
    requires n <= m <= |events| && |worlds| == |events| + 1
  {
    forall k :: n <= k < m ==> Passes(r, worlds[k], events[k])
  }

  lemma OneMore(worlds: seq<World>, events: seq<Event>, n: nat, m: nat, r: Record)
    requires n < m <= |events| && |worlds| == |events| + 1
    ensures Unharmed(worlds, n, m) <==> Unharmed(worlds, n, m - 1) && !Removing(worlds[m])
    ensures AllPass(worlds, events, n, m, r) <==>
              AllPass(worlds, events, n, m - 1, r) && Passes(r, worlds[m - 1], events[m - 1])
  {
  }

  // From any moment at which nobody holds the lock and a ready guest is running,
  // until somebody tears it down by command or it powers off: nobody begins to
  // replace it if and only if every decision about it lets it stay, judged by the
  // record it had at the start, and every health check is answered. As long as
  // that is so it is the same guest, up, and its record differs only in the
  // limits of the lease.
  lemma KeptWhileInUseIff(worlds: seq<World>, events: seq<Event>, n: nat, m: nat)
    requires IsRun(worlds, events) && n <= m < |worlds|
    requires worlds[n].holder.None? && Running(worlds[n]) && Ready(worlds[n])
    requires forall k :: n <= k < m ==> !events[k].StartTeardown? && !events[k].PowerOff?
    ensures var r := worlds[n].record.value;
            (forall k :: n <= k <= m ==> !Removing(worlds[k])) <==>
              forall k :: n <= k < m ==> Passes(r, worlds[k], events[k])
    ensures (forall k :: n <= k <= m ==> !Removing(worlds[k])) ==>
              && worlds[m].vm == worlds[n].vm && worlds[m].record.Some?
              && Lasting(worlds[m].record.value) == Lasting(worlds[n].record.value)
  {
    KeptUpToIff(worlds, events, n, m);
    assert Unharmed(worlds, n, m) <==> forall k :: n <= k <= m ==> !Removing(worlds[k]);
  }
}
