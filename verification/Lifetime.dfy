/** The auto-expiry of a local cluster: cmd/y-cluster/lifetime.go over the
    persisted deadline (pkg/provision/qemu/state.go) and the host's timers
    (pkg/lifetime/timer.go). Times and durations are in nanoseconds. */
module Lifetime {
  import opened Wrappers

  const SECOND := 1_000_000_000
  const MINUTE := 60 * SECOND

  // Go's integer division
  function Quotient(a: int, b: int): int
    requires b > 0
  {
    if a >= 0 then a / b else -((-a) / b)
  }

  // remainingSeconds
  function RemainingSeconds(remaining: int): int {
    var s := Quotient(remaining, SECOND);
    if s < 1 then 1 else s
  }

  // The minutes of atTimeSpec
  function AtMinutes(remaining: int): int {
    var m := Quotient(remaining + MINUTE - 1, MINUTE);
    if m < 1 then 1 else m
  }

  datatype Scheduler = Systemd | At

  function Grain(s: Scheduler): int {
    if s.Systemd? then SECOND else MINUTE
  }

  // How long after arming an exact timer fires.
  function Delay(s: Scheduler, remaining: int): int {
    if s.Systemd? then RemainingSeconds(remaining) * SECOND else AtMinutes(remaining) * MINUTE
  }

  // A timer waits at least one unit and ends less than one unit past the
  // deadline; at(1) never fires before it, and systemd by less than a second.
  lemma DelayBounds(s: Scheduler, remaining: int)
    ensures Delay(s, remaining) >= Grain(s)
    ensures remaining > 0 ==> Delay(s, remaining) < remaining + Grain(s)
    ensures remaining <= 0 ==> Delay(s, remaining) == Grain(s)
    ensures Delay(At, remaining) >= remaining
    ensures Delay(Systemd, remaining) > remaining - SECOND
    ensures Delay(Systemd, remaining) % 1_000_000_000 == 0 && Delay(At, remaining) % 60_000_000_000 == 0
    ensures Grain(Systemd) == 1_000_000_000 && Grain(At) == 60_000_000_000
  {
  }

  // Armed before the deadline and undisturbed, systemd wakes reap at most once
  // too early, and the second time less than a second past the deadline.
  lemma SystemdWakesTwice(now: int, deadline: int)
    requires now < deadline
    ensures var first := now + Delay(Systemd, deadline - now);
            var second := first + Delay(Systemd, deadline - first);
            if first >= deadline then first < deadline + SECOND
            else deadline <= second < deadline + SECOND
  {
    DelayBounds(Systemd, deadline - now);
    var first := now + Delay(Systemd, deadline - now);
    DelayBounds(Systemd, deadline - first);
  }

  // ---------- The protocol ----------

  datatype OnExpiry = Stop | Pause | Teardown | Unset

  // The lifetime part of the sidecar. `maxRun` is None without a budget.
  datatype Sidecar = Sidecar(maxRun: Option<int>, onExpiry: OnExpiry, expiresAt: Option<int>)

  // An expiry action that was run: when, and on which persisted state.
  datatype Action = Action(what: OnExpiry, at: int, policy: Sidecar)

  // `timers` are the wake times pending on the host, stale ones included.
  datatype World = World(now: int, sidecar: Option<Sidecar>, timers: set<int>, acted: seq<Action>)

  // time.RFC3339 keeps whole seconds.
  function ToSecond(t: int): int {
    t - t % SECOND
  }

  // What Arm and Disarm did to the host: which timers disarming really removed,
  // and which scheduler took the new one, if any.
  datatype Host = Host(removed: set<int>, scheduler: Option<Scheduler>)

  function Arm(w: World, remaining: int, host: Host): World {
    var left := w.timers - host.removed;
    w.(timers := match host.scheduler
                 case None => left
                 case Some(s) => left + {w.now + Delay(s, remaining)})
  }

  datatype Decision = Nothing | Rearm | Act(what: OnExpiry)

  // decideReap, with Expired of state.go
  function DecideReap(policy: Sidecar, now: int): Decision {
    if policy.maxRun.None? || policy.expiresAt.None? then Nothing
    else if now < policy.expiresAt.value then Rearm
    else if policy.onExpiry.Pause? then Act(Pause)
    else if policy.onExpiry.Teardown? then Act(Teardown)
    else Act(Stop)
  }

  // `ok` is whether the action succeeds.
  function Reap(w: World, host: Host, ok: bool): World {
    if w.sidecar.None? then w
    else
      var policy := w.sidecar.value;
      match DecideReap(policy, w.now)
      case Nothing => w
      case Rearm => Arm(w, policy.expiresAt.value - w.now, host)
      case Act(what) =>
        var done := w.(acted := w.acted + [Action(what, w.now, policy)]);
        if !ok then done
        else done.(timers := w.timers - host.removed, sidecar := if what.Teardown? then None else w.sidecar)
  }

  datatype Event =
    | Configure(policy: Sidecar)              // provision writes the sidecar
    | Anchor(host: Host)                      // provision, start and resume set the deadline
    | Extend(more: int, host: Host)
    | ArmCommand(host: Host)
    | DisarmCommand(removed: set<int>)
    | Remove(removed: set<int>)               // teardown
    | ReapByHand(host: Host, ok: bool)        // or cron
    | Fire(timer: int, host: Host, ok: bool)  // the host's timer runs reap
    | Clock(now: int)

  predicate Enabled(w: World, e: Event) {
    match e
    case Configure(policy) => policy.expiresAt.None?
    case Extend(more, _) => more > 0
    case Fire(timer, _, _) => timer in w.timers
    case _ => true
  }

  function Step(w: World, e: Event): World
    requires Enabled(w, e)
  {
    match e
    case Configure(policy) => w.(sidecar := Some(policy))
    case Anchor(host) =>
      // armLifetime, then armHostTimerIfLifetime on what was saved
      if w.sidecar.None? || w.sidecar.value.maxRun.None? then w
      else
        var deadline := ToSecond(w.now + w.sidecar.value.maxRun.value);
        Arm(w.(sidecar := Some(w.sidecar.value.(expiresAt := Some(deadline)))), deadline - w.now, host)
    case Extend(more, host) =>
      if w.sidecar.None? || w.sidecar.value.expiresAt.None? then w
      else
        var deadline := w.sidecar.value.expiresAt.value + more;
        Arm(w.(sidecar := Some(w.sidecar.value.(expiresAt := Some(ToSecond(deadline))))), deadline - w.now, host)
    case ArmCommand(host) =>
      if w.sidecar.None? || w.sidecar.value.maxRun.None? || w.sidecar.value.expiresAt.None? then w
      else Arm(w, w.sidecar.value.expiresAt.value - w.now, host)
    case DisarmCommand(removed) => w.(timers := w.timers - removed)
    case Remove(removed) => w.(timers := w.timers - removed, sidecar := None)
    case ReapByHand(host, ok) => Reap(w, host, ok)
    case Fire(timer, host, ok) => Reap(w.(timers := w.timers - {timer}), host, ok)
    case Clock(now) => w.(now := now)
  }

  ghost predicate IsStep(worlds: seq<World>, events: seq<Event>, i: nat)
    requires i < |events| && |worlds| == |events| + 1
  {
    Enabled(worlds[i], events[i]) && worlds[i + 1] == Step(worlds[i], events[i])
  }

  function Deadline(w: World): Option<int> {
    if w.sidecar.None? then None else w.sidecar.value.expiresAt
  }

  // A persisted deadline is in whole seconds.
  predicate Whole(w: World) {
    Deadline(w).Some? ==> Deadline(w).value % SECOND == 0
  }

  ghost predicate IsRun(worlds: seq<World>, events: seq<Event>) {
    && |worlds| == |events| + 1 && worlds[0].acted == [] && Whole(worlds[0])
    && forall i :: 0 <= i < |events| ==> IsStep(worlds, events, i)
  }

  // ---------- Never before the deadline ----------

  predicate Due(a: Action) {
    && a.policy.maxRun.Some? && a.policy.expiresAt.Some? && a.policy.expiresAt.value <= a.at
    && a.what == (if a.policy.onExpiry.Unset? then Stop else a.policy.onExpiry)
  }

  // A step adds at most one action, on the state persisted before it.
  lemma StepActs(w: World, e: Event)
    requires Enabled(w, e)
    ensures var w' := Step(w, e);
            || w'.acted == w.acted
            || (exists a :: w'.acted == w.acted + [a] && Due(a) && a.at == w.now && Some(a.policy) == w.sidecar)
  {
    if e.ReapByHand? || e.Fire? {
      var w' := Step(w, e);
      if w'.acted != w.acted {
        var a := w'.acted[|w.acted|];
        assert w'.acted == w.acted + [a] && Due(a);
      }
    }
  }

  // The state an action was run in.
  ghost predicate RanAt(worlds: seq<World>, n: nat, a: Action) {
    exists m :: 0 <= m < n && m < |worlds| && worlds[m].now == a.at && worlds[m].sidecar == Some(a.policy)
  }

  // Whatever timers are pending, however often reap is run and wherever the
  // clock is set: every action ran at some moment of the run, on the sidecar of
  // that moment, by then past the deadline persisted in it, and was the one
  // configured there.
  lemma {:induction false} NeverEarly(worlds: seq<World>, events: seq<Event>, n: nat)
    requires IsRun(worlds, events) && n < |worlds|
    ensures forall k :: 0 <= k < |worlds[n].acted| ==>
              Due(worlds[n].acted[k]) && RanAt(worlds, n, worlds[n].acted[k])
    decreases n
  {
    if n > 0 {
      NeverEarly(worlds, events, n - 1);
      assert IsStep(worlds, events, n - 1);
      var w, w' := worlds[n - 1], worlds[n];
      StepActs(w, events[n - 1]);
      forall k | 0 <= k < |w'.acted| ensures Due(w'.acted[k]) && RanAt(worlds, n, w'.acted[k]) {
        if k < |w.acted| {
          var m :| 0 <= m < n - 1 && worlds[m].now == w.acted[k].at && worlds[m].sidecar == Some(w.acted[k].policy);
          assert worlds[m].now == w'.acted[k].at;
        } else {
          assert worlds[n - 1].now == w'.acted[k].at;
        }
      }
    }
  }

  // Only these set a new deadline or drop the old one.
  predicate Resets(e: Event) {
    e.Configure? || e.Anchor? || e.Remove?
  }

  lemma StepKeepsDeadline(w: World, e: Event)
    requires Enabled(w, e) && Whole(w)
    ensures Whole(Step(w, e))
    ensures !Resets(e) && Deadline(Step(w, e)).Some? ==>
              Deadline(w).Some? && Deadline(w).value <= Deadline(Step(w, e)).value
  {
  }

  lemma {:induction false} AlwaysWhole(worlds: seq<World>, events: seq<Event>, n: nat)
    requires IsRun(worlds, events) && n < |worlds|
    ensures Whole(worlds[n])
    decreases n
  {
    if n > 0 {
      AlwaysWhole(worlds, events, n - 1);
      assert IsStep(worlds, events, n - 1);
      StepKeepsDeadline(worlds[n - 1], events[n - 1]);
    }
  }

  // Until the cluster is provisioned, started or torn down again, nothing
  // moves the deadline back: an action at step j is not before any deadline
  // persisted at an earlier step i, so no extension is undone by a timer set
  // before it.
  lemma {:induction false} ExtensionsHold(worlds: seq<World>, events: seq<Event>, i: nat, j: nat)
    requires IsRun(worlds, events) && i <= j < |worlds|
    requires forall k :: i <= k < j ==> !Resets(events[k])
    requires Deadline(worlds[i]).Some?
    ensures Deadline(worlds[j]).Some? ==> Deadline(worlds[j]).value >= Deadline(worlds[i]).value
    ensures forall k :: |worlds[i].acted| <= k < |worlds[j].acted| ==>
              worlds[j].acted[k].at >= Deadline(worlds[i]).value
    ensures worlds[i].acted <= worlds[j].acted
    decreases j
  {
    if i < j {
      ExtensionsHold(worlds, events, i, j - 1);
      assert IsStep(worlds, events, j - 1);
      StepActs(worlds[j - 1], events[j - 1]);
      AlwaysWhole(worlds, events, j - 1);
      StepKeepsDeadline(worlds[j - 1], events[j - 1]);
    }
  }

  // ---------- How far away the deadline is ----------

  // Anchoring gives the cluster its budget from this moment, down to the second;
  // without a budget nothing happens.
  lemma AnchorSets(w: World, host: Host)
    requires w.sidecar.Some?
    ensures var w', max := Step(w, Anchor(host)), w.sidecar.value.maxRun;
            && (max.None? ==> w' == w)
            && (max.Some? ==>
                 && Deadline(w').Some?
                 && w.now + max.value - SECOND < Deadline(w').value <= w.now + max.value
                 && w'.sidecar == Some(w.sidecar.value.(expiresAt := Deadline(w'))))
  {
  }

  // How much the extensions between two states asked for, and how many they were.
  function Added(events: seq<Event>, i: nat, j: nat): int
    requires i <= j <= |events|
    decreases j
  {
    if i == j then 0 else Added(events, i, j - 1) + if events[j - 1].Extend? then events[j - 1].more else 0
  }

  function Extensions(events: seq<Event>, i: nat, j: nat): nat
    requires i <= j <= |events|
    decreases j
  {
    if i == j then 0 else Extensions(events, i, j - 1) + if events[j - 1].Extend? then 1 else 0
  }

  // Between resets the deadline moves by what was asked for, each extension down
  // to the second, and by nothing else.
  lemma {:induction false} DeadlineMoves(worlds: seq<World>, events: seq<Event>, i: nat, j: nat)
    requires IsRun(worlds, events) && i <= j < |worlds|
    requires forall k :: i <= k < j ==> !Resets(events[k])
    requires Deadline(worlds[j]).Some?
    ensures Deadline(worlds[i]).Some?
    ensures var from, to := Deadline(worlds[i]).value, Deadline(worlds[j]).value;
            from + Added(events, i, j) - Extensions(events, i, j) * SECOND <= to <= from + Added(events, i, j)
    decreases j
  {
    if i < j {
      assert IsStep(worlds, events, j - 1);
      AlwaysWhole(worlds, events, j - 1);
      StepMoves(worlds[j - 1], events[j - 1]);
      DeadlineMoves(worlds, events, i, j - 1);
    }
  }

  lemma StepMoves(w: World, e: Event)
    requires Enabled(w, e) && Whole(w) && !Resets(e) && Deadline(Step(w, e)).Some?
    ensures Deadline(w).Some?
    ensures var more := if e.Extend? then e.more else 0;
            var from, to := Deadline(w).value, Deadline(Step(w, e)).value;
            from + more - (if e.Extend? then SECOND else 0) <= to <= from + more
  {
  }

  // From an anchoring on, no action runs before the budget is over, to the second.
  lemma BudgetHolds(worlds: seq<World>, events: seq<Event>, i: nat, j: nat)
    requires IsRun(worlds, events) && i < j < |worlds|
    requires events[i].Anchor? && worlds[i].sidecar.Some? && worlds[i].sidecar.value.maxRun.Some?
    requires forall k :: i < k < j ==> !Resets(events[k])
    ensures forall k :: |worlds[i].acted| <= k < |worlds[j].acted| ==>
              worlds[j].acted[k].at > worlds[i].now + worlds[i].sidecar.value.maxRun.value - SECOND
  {
    assert IsStep(worlds, events, i);
    AnchorSets(worlds[i], events[i].host);
    ExtensionsHold(worlds, events, i + 1, j);
  }

  // Reap acts exactly on a budget whose deadline the clock has reached.
  lemma ReapActsIff(w: World, host: Host, ok: bool)
    ensures |Reap(w, host, ok).acted| > |w.acted| <==>
              && w.sidecar.Some? && w.sidecar.value.maxRun.Some?
              && Deadline(w).Some? && Deadline(w).value <= w.now
  {
  }

  // ---------- What an action leaves ----------

  // A reap that acts takes the sidecar away only when it tore the cluster down and
  // that worked; a failed action leaves sidecar and timers for the next reap.
  lemma ReapLeaves(w: World, host: Host, ok: bool)
    requires |Reap(w, host, ok).acted| > |w.acted|
    ensures var w' := Reap(w, host, ok);
            var what := w'.acted[|w.acted|].what;
            && w'.sidecar == (if ok && what.Teardown? then None else w.sidecar)
            && w'.timers == (if ok then w.timers - host.removed else w.timers)
            && w'.now == w.now
  {
  }

  // ---------- And in time ----------

  // A step that leaves the deadline and the schedule to reap, on a host whose
  // timers fire exactly and where arming works.
  ghost predicate Quiet(w: World, e: Event, grain: int) {
    match e
    case Clock(now) => now >= w.now && forall t :: t in w.timers ==> now <= t
    case Fire(timer, host, _) => timer == w.now && host.scheduler.Some? && Grain(host.scheduler.value) <= grain
    case ReapByHand(host, _) => host.scheduler.Some? && Grain(host.scheduler.value) <= grain
    case _ => false
  }

  ghost predicate Armed(w: World, deadline: int, bound: int) {
    && w.sidecar.Some? && w.sidecar.value.maxRun.Some? && w.sidecar.value.expiresAt == Some(deadline)
    && exists t :: t in w.timers && w.now <= t <= bound
  }

  lemma RearmIsInTime(w: World, host: Host, deadline: int, bound: int, grain: int)
    requires w.now < deadline && deadline + grain <= bound
    requires host.scheduler.Some? && Grain(host.scheduler.value) <= grain
    ensures var w' := Arm(w, deadline - w.now, host);
            exists t :: t in w'.timers && w'.now <= t <= bound
  {
    var s := host.scheduler.value;
    DelayBounds(s, deadline - w.now);
    assert w.now + Delay(s, deadline - w.now) in Arm(w, deadline - w.now, host).timers;
  }

  lemma QuietStep(w: World, e: Event, deadline: int, bound: int, grain: int)
    requires Enabled(w, e) && Quiet(w, e, grain) && Armed(w, deadline, bound) && deadline + grain <= bound
    ensures |Step(w, e).acted| > |w.acted| || (Step(w, e).acted == w.acted && Armed(Step(w, e), deadline, bound))
  {
    if w.now < deadline && !e.Clock? {
      var base := if e.Fire? then w.(timers := w.timers - {e.timer}) else w;
      RearmIsInTime(base, e.host, deadline, bound, grain);
    }
  }

  // Armed with this deadline, and then left to the timers: while no action has
  // run, a wake-up is due no later than one grain past the deadline (or past
  // the arming, when that was later), and the clock has not passed it.
  lemma {:induction false} ActsInTime(worlds: seq<World>, events: seq<Event>, i: nat, j: nat, deadline: int, grain: int)
    requires IsRun(worlds, events) && i <= j < |worlds|
    requires forall k :: i <= k < j ==> Quiet(worlds[k], events[k], grain)
    requires var bound := (if worlds[i].now < deadline then deadline else worlds[i].now) + grain;
             Armed(worlds[i], deadline, bound)
    ensures var bound := (if worlds[i].now < deadline then deadline else worlds[i].now) + grain;
            || |worlds[j].acted| > |worlds[i].acted|
            || (worlds[j].now <= bound && worlds[j].acted == worlds[i].acted && Armed(worlds[j], deadline, bound))
    decreases j
  {
    if i < j {
      ActsInTime(worlds, events, i, j - 1, deadline, grain);
      assert IsStep(worlds, events, j - 1);
      var w, e := worlds[j - 1], events[j - 1];
      assert Quiet(w, e, grain);
      var bound := (if worlds[i].now < deadline then deadline else worlds[i].now) + grain;
      if |w.acted| > |worlds[i].acted| {
        StepActs(w, e);
      } else {
        QuietStep(w, e, deadline, bound, grain);
      }
    }
  }

  // Arming is what makes the wake-up due in time.
  lemma ArmingArms(w: World, host: Host)
    requires w.sidecar.Some? && w.sidecar.value.maxRun.Some? && w.sidecar.value.expiresAt.Some?
    requires host.scheduler.Some?
    ensures var deadline := w.sidecar.value.expiresAt.value;
            var bound := (if w.now < deadline then deadline else w.now) + Grain(host.scheduler.value);
            Armed(Arm(w, deadline - w.now, host), deadline, bound)
  {
    var deadline := w.sidecar.value.expiresAt.value;
    var s := host.scheduler.value;
    DelayBounds(s, deadline - w.now);
    assert w.now + Delay(s, deadline - w.now) in Arm(w, deadline - w.now, host).timers;
  }

  // Where arming works, anchoring, extending and the arm command all leave a
  // wake-up due within a unit and a second of the deadline they leave.
  lemma CommandsArm(w: World, e: Event)
    requires Enabled(w, e) && w.sidecar.Some? && w.sidecar.value.maxRun.Some?
    requires e.Anchor? || (w.sidecar.value.expiresAt.Some? && (e.Extend? || e.ArmCommand?))
    requires e.host.scheduler.Some?
    ensures var w' := Step(w, e);
            && Deadline(w').Some?
            && var late := (if w.now < Deadline(w').value then Deadline(w').value else w.now) + SECOND;
               Armed(w', Deadline(w').value, late + Grain(e.host.scheduler.value))
  {
    var s := e.host.scheduler.value;
    var asked := if e.Anchor? then ToSecond(w.now + w.sidecar.value.maxRun.value)
                 else w.sidecar.value.expiresAt.value + if e.Extend? then e.more else 0;
    DelayBounds(s, asked - w.now);
    assert w.now + Delay(s, asked - w.now) in Step(w, e).timers;
  }

  // A teardown by command takes the sidecar, a disarm only timers; without a
  // deadline there is nothing to arm or extend.
  lemma CommandsForget(w: World, removed: set<int>, more: int, host: Host)
    requires more > 0
    ensures Step(w, Remove(removed)) == w.(sidecar := None, timers := w.timers - removed)
    ensures Step(w, DisarmCommand(removed)) == w.(timers := w.timers - removed)
    ensures Deadline(w).None? ==> Step(w, Extend(more, host)) == w && Step(w, ArmCommand(host)) == w
  {
  }

  // ---------- systemd wakes early at most once ----------

  // The only thing that happens is time passing and the one systemd timer firing.
  ghost predicate SystemdOnly(w: World, e: Event) {
    Quiet(w, e, SECOND) && (e.Clock? || (e.Fire? && e.host.scheduler == Some(Systemd)))
  }

  // How often the timer woke reap before the deadline, from state i to state j.
  function EarlyWakes(worlds: seq<World>, events: seq<Event>, i: nat, j: nat, deadline: int): nat
    requires i <= j <= |events| && |worlds| == |events| + 1
    decreases j
  {
    if i == j then 0
    else
      EarlyWakes(worlds, events, i, j - 1, deadline)
      + (if events[j - 1].Fire? && worlds[j - 1].now < deadline then 1 else 0)
  }

  // One timer left, if any: due at the deadline or after it once reap was woken
  // early, and otherwise less than a second before.
  ghost predicate OneTimer(w: World, deadline: int, early: nat) {
    && early <= 1
    && (Deadline(w).None? || Deadline(w) == Some(deadline))
    && (forall t, u :: t in w.timers && u in w.timers ==> t == u)
    && (forall t :: t in w.timers ==> t > deadline - SECOND && (early == 1 ==> t >= deadline))
  }

  lemma OneTimerStays(w: World, e: Event, deadline: int, early: nat)
    requires Enabled(w, e) && SystemdOnly(w, e) && OneTimer(w, deadline, early)
    requires w.sidecar.Some? ==> w.sidecar.value.maxRun.Some?
    ensures OneTimer(Step(w, e), deadline, early + if e.Fire? && w.now < deadline then 1 else 0)
    ensures Step(w, e).sidecar.Some? ==> Step(w, e).sidecar.value.maxRun.Some?
  {
    if e.Fire? {
      DelayBounds(Systemd, deadline - w.now);
      assert forall t :: t in w.timers ==> t == e.timer;
      assert w.timers - {e.timer} == {};
    }
  }

  // Armed by systemd before the deadline and left alone: reap is woken before
  // the deadline at most once, whatever the actions' outcomes.
  lemma {:induction false} EarlyAtMostOnce(worlds: seq<World>, events: seq<Event>, i: nat, j: nat, deadline: int)
    requires IsRun(worlds, events) && i <= j < |worlds|
    requires forall k :: i <= k < j ==> SystemdOnly(worlds[k], events[k])
    requires worlds[i].sidecar.Some? && worlds[i].sidecar.value.maxRun.Some? && Deadline(worlds[i]) == Some(deadline)
    requires worlds[i].now < deadline
    requires worlds[i].timers == {worlds[i].now + Delay(Systemd, deadline - worlds[i].now)}
    ensures EarlyWakes(worlds, events, i, j, deadline) <= 1
    ensures OneTimer(worlds[j], deadline, EarlyWakes(worlds, events, i, j, deadline))
    ensures worlds[j].sidecar.Some? ==> worlds[j].sidecar.value.maxRun.Some?
    decreases j
  {
    if i < j {
      EarlyAtMostOnce(worlds, events, i, j - 1, deadline);
      assert IsStep(worlds, events, j - 1);
      assert SystemdOnly(worlds[j - 1], events[j - 1]);
      OneTimerStays(worlds[j - 1], events[j - 1], deadline, EarlyWakes(worlds, events, i, j - 1, deadline));
    } else {
      DelayBounds(Systemd, deadline - worlds[i].now);
    }
  }

  predicate Early(worlds: seq<World>, events: seq<Event>, k: nat, deadline: int)
    requires k < |events| && |worlds| == |events| + 1
  {
    events[k].Fire? && worlds[k].now < deadline
  }

  lemma {:induction false} EarlyWakesCount(worlds: seq<World>, events: seq<Event>, i: nat, j: nat, deadline: int,
                                           a: nat, b: nat)
    requires i <= a < b < j <= |events| && |worlds| == |events| + 1
    requires Early(worlds, events, b, deadline)
    ensures EarlyWakes(worlds, events, i, j, deadline) >= 1 + if Early(worlds, events, a, deadline) then 1 else 0
    decreases j
  {
    if b < j - 1 {
      EarlyWakesCount(worlds, events, i, j - 1, deadline, a, b);
    } else if Early(worlds, events, a, deadline) {
      OneEarlyWake(worlds, events, i, j - 1, deadline, a);
    }
  }

  lemma {:induction false} OneEarlyWake(worlds: seq<World>, events: seq<Event>, i: nat, j: nat, deadline: int, a: nat)
    requires i <= a < j <= |events| && |worlds| == |events| + 1 && Early(worlds, events, a, deadline)
    ensures EarlyWakes(worlds, events, i, j, deadline) >= 1
    decreases j
  {
    if a < j - 1 {
      OneEarlyWake(worlds, events, i, j - 1, deadline, a);
    }
  }

  // No two of its wake-ups are before the deadline.
  lemma NoSecondEarlyWake(worlds: seq<World>, events: seq<Event>, i: nat, j: nat, deadline: int, a: nat, b: nat)
    requires IsRun(worlds, events) && i <= a < b < j < |worlds|
    requires forall k :: i <= k < j ==> SystemdOnly(worlds[k], events[k])
    requires worlds[i].sidecar.Some? && worlds[i].sidecar.value.maxRun.Some? && Deadline(worlds[i]) == Some(deadline)
    requires worlds[i].now < deadline
    requires worlds[i].timers == {worlds[i].now + Delay(Systemd, deadline - worlds[i].now)}
    ensures !(Early(worlds, events, a, deadline) && Early(worlds, events, b, deadline))
  {
    EarlyAtMostOnce(worlds, events, i, j, deadline);
    if Early(worlds, events, b, deadline) {
      EarlyWakesCount(worlds, events, i, j, deadline, a, b);
    }
  }
}
