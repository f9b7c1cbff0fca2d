/** pkg/dockerhost: which events lead to a VM without a record, or to a guest
    without its client directory. */
module Leftovers {
  import opened Wrappers
  import opened Guest
  import opened Dockerhost
  import opened Recovery

  predicate Does(w: World, e: Event) {
    e.Effect? && Acting(w)
  }

  // A teardown goes on although the VM's disk could not be deleted.
  predicate LeavesDisk(w: World, e: Event) {
    Does(w, e) && w.holder.value.pc.RemoveVm? && e.aux && w.vm.Some?
  }

  predicate RemovesDisk(w: World, e: Event) {
    Does(w, e) && w.holder.value.pc.RemoveVm? && !(e.aux && w.vm.Some?)
  }

  predicate RemovesRecord(w: World, e: Event) {
    Does(w, e) && w.holder.value.pc.RemoveRecord? && e.ok
  }

  predicate SavesRecord(w: World, e: Event) {
    Does(w, e) && e.ok && (w.holder.value.pc.SaveNew? || w.holder.value.pc.SaveReady? || w.holder.value.pc.Renew?)
  }

  // Event i left the disk, and it has not been deleted before n.
  ghost predicate DiskLeft(worlds: seq<World>, events: seq<Event>, i: nat, n: nat)
    requires i < n <= |events| && |worlds| == |events| + 1
  {
    LeavesDisk(worlds[i], events[i]) && forall j :: i < j < n ==> !RemovesDisk(worlds[j], events[j])
  }

  // Event k removed the record, and none has been saved before n.
  ghost predicate RecordLost(worlds: seq<World>, events: seq<Event>, k: nat, n: nat)
    requires k < n <= |events| && |worlds| == |events| + 1
  {
    RemovesRecord(worlds[k], events[k]) && forall j :: k < j < n ==> !SavesRecord(worlds[j], events[j])
  }

  ghost predicate AnyLeft(worlds: seq<World>, events: seq<Event>, n: nat)
    requires n <= |events| && |worlds| == |events| + 1
  {
    exists i :: 0 <= i < n && DiskLeft(worlds, events, i, n)
  }

  lemma DiskStep(worlds: seq<World>, events: seq<Event>, n: nat, next: nat)
    requires next == n + 1 <= |events| && |worlds| == |events| + 1
    ensures AnyLeft(worlds, events, next) <==>
              || LeavesDisk(worlds[n], events[n])
              || (AnyLeft(worlds, events, n) && !RemovesDisk(worlds[n], events[n]))
  {
    if AnyLeft(worlds, events, n) && !RemovesDisk(worlds[n], events[n]) {
      var i :| 0 <= i < n && DiskLeft(worlds, events, i, n);
      assert DiskLeft(worlds, events, i, next);
    }
    if LeavesDisk(worlds[n], events[n]) {
      assert DiskLeft(worlds, events, n, next);
    }
    if AnyLeft(worlds, events, next) {
      var i :| 0 <= i < next && DiskLeft(worlds, events, i, next);
      assert i < n ==> DiskLeft(worlds, events, i, n) && !RemovesDisk(worlds[n], events[n]);
    }
  }

  lemma EffectDisk(w: World, e: Event)
    requires Enabled(w, e)
    ensures Step(w, e).leftover <==> LeavesDisk(w, e) || (w.leftover && !RemovesDisk(w, e))
  {
  }

  // The VM on disk is left over exactly when a teardown left it and no teardown
  // has deleted it since.
  lemma {:induction false} LeftoverIff(worlds: seq<World>, events: seq<Event>, n: nat)
    requires IsRun(worlds, events) && n < |worlds|
    ensures worlds[n].leftover <==> AnyLeft(worlds, events, n)
    decreases n
  {
    if n > 0 {
      LeftoverIff(worlds, events, n - 1);
      assert IsStep(worlds, events, n - 1);
      EffectDisk(worlds[n - 1], events[n - 1]);
      DiskStep(worlds, events, n - 1, n);
    }
  }

  // ---------- A VM without a record ----------

  predicate Unrecorded(w: World) {
    w.vm.Some? && w.record.None?
  }

  // A teardown left the disk, then a record was removed, and neither was undone.
  ghost predicate Forgot(worlds: seq<World>, events: seq<Event>, n: nat)
    requires n <= |events| && |worlds| == |events| + 1
  {
    exists i, k :: 0 <= i < k < n && DiskLeft(worlds, events, i, n) && RecordLost(worlds, events, k, n)
  }

  lemma ForgotStep(worlds: seq<World>, events: seq<Event>, n: nat, next: nat)
    requires next == n + 1 <= |events| && |worlds| == |events| + 1
    ensures Forgot(worlds, events, next) <==>
              && !RemovesDisk(worlds[n], events[n])
              && ((Forgot(worlds, events, n) && !SavesRecord(worlds[n], events[n]))
                  || (AnyLeft(worlds, events, n) && RemovesRecord(worlds[n], events[n])))
  {
    if Forgot(worlds, events, next) {
      var i, k :| 0 <= i < k < next && DiskLeft(worlds, events, i, next) && RecordLost(worlds, events, k, next);
      assert DiskLeft(worlds, events, i, n) && !RemovesDisk(worlds[n], events[n]);
      assert k < n ==> RecordLost(worlds, events, k, n);
    }
    if !RemovesDisk(worlds[n], events[n]) {
      if Forgot(worlds, events, n) && !SavesRecord(worlds[n], events[n]) {
        var i, k :| 0 <= i < k < n && DiskLeft(worlds, events, i, n) && RecordLost(worlds, events, k, n);
        assert DiskLeft(worlds, events, i, next) && RecordLost(worlds, events, k, next);
      }
      if AnyLeft(worlds, events, n) && RemovesRecord(worlds[n], events[n]) {
        var i :| 0 <= i < n && DiskLeft(worlds, events, i, n);
        assert DiskLeft(worlds, events, i, next) && RecordLost(worlds, events, n, next);
      }
    }
  }

  lemma EffectRecord(w: World, e: Event)
    requires Inv(w) && Enabled(w, e)
    ensures Unrecorded(Step(w, e)) <==>
              !RemovesDisk(w, e) && ((Unrecorded(w) && !SavesRecord(w, e)) || (w.leftover && RemovesRecord(w, e)))
  {
  }

  // In every run a VM has no record exactly when a teardown left its disk, and
  // then a record was removed, with no deletion of the disk and no save since.
  lemma {:induction false} UnrecordedIff(worlds: seq<World>, events: seq<Event>, n: nat)
    requires IsRun(worlds, events) && n < |worlds|
    ensures Unrecorded(worlds[n]) <==> Forgot(worlds, events, n)
    decreases n
  {
    if n > 0 {
      UnrecordedIff(worlds, events, n - 1);
      LeftoverIff(worlds, events, n - 1);
      RunKeepsInv(worlds, events, n - 1);
      assert IsStep(worlds, events, n - 1);
      EffectRecord(worlds[n - 1], events[n - 1]);
      ForgotStep(worlds, events, n - 1, n);
    }
  }

  // ---------- Where every disk removal works ----------

  // Then a VM always has a record, and what Env exports is the running guest's
  // own, complete client directory.
  lemma WorkingRemovals(worlds: seq<World>, events: seq<Event>, n: nat, carriesOurs: bool)
    requires IsRun(worlds, events) && n < |worlds|
    requires forall i :: 0 <= i < n ==> !LeavesDisk(worlds[i], events[i])
    ensures worlds[n].vm.Some? ==> worlds[n].record.Some?
    ensures Env(worlds[n], carriesOurs).Export? ==>
              worlds[n].vm.Some? && worlds[n].client == Holds(worlds[n].vm.value.ca)
  {
    LeftoverIff(worlds, events, n);
    ExportsOnlyTheRunningGuest(worlds, events, n, carriesOurs);
  }
}
