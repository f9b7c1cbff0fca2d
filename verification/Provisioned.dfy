/** pkg/provision/glesys: what an undisturbed provision of a GleSYS cluster ends
    with (Provision, reserveIPv4s and createServer). */
module Provisioned {
  import opened Wrappers
  import opened Sequences
  import opened Glesys

  // The next effects, each of them a success, until the command ends.
  function Go(s: Setting, w: World, n: nat): World
    decreases n
  {
    if n == 0 || !Acting(s, w, 0, Addr(0)) then w else Go(s, Advance(s, w, true, 0, Addr(0)), n - 1)
  }

  lemma {:induction false} GoOn(s: Setting, w: World, a: nat, b: nat)
    ensures Go(s, Go(s, w, a), b) == Go(s, w, a + b)
    decreases a
  {
    if a > 0 {
      if Acting(s, w, 0, Addr(0)) {
        GoOn(s, Advance(s, w, true, 0, Addr(0)), a - 1, b);
      } else if b > 0 {
        assert Go(s, w, a) == w;
      }
    }
  }

  // The addresses a reservation can take, in order: of those offered, the ones
  // nobody holds, once each.
  function Takes(free: seq<Addr>, held: set<Addr>): seq<Addr> {
    if free == [] then []
    else if free[0] in held then Takes(free[1..], held)
    else [free[0]] + Takes(free[1..], held + {free[0]})
  }

  lemma {:induction false} TakesAre(free: seq<Addr>, held: set<Addr>)
    ensures Distinct(Takes(free, held))
    ensures forall a :: a in Takes(free, held) <==> a in free && a !in held
    decreases |free|
  {
    if free != [] {
      assert free == [free[0]] + free[1..];
      TakesAre(free[1..], if free[0] in held then held else held + {free[0]});
    }
  }

  // ---------- Reserving ----------

  lemma {:induction false} Reserves(s: Setting, w: World) returns (n: nat)
    requires w.pc.Reserve? && |w.pc.got| <= s.workers + 1
    ensures var all, end := w.pc.got + Takes(w.pc.free, w.held), Go(s, w, n);
            && end.servers == w.servers && end.nextId == w.nextId && end.sidecar == w.sidecar
            && end.pc == (if |all| > s.workers then SaveFirst(all[..s.workers + 1]) else GiveBack(all))
    decreases |w.pc.free|
  {
    var got, free := w.pc.got, w.pc.free;
    var next := Advance(s, w, true, 0, Addr(0));
    if |got| == s.workers + 1 {
      n := 1;
      assert Go(s, next, 0) == next;
      assert (got + Takes(free, w.held))[..s.workers + 1] == got;
    } else if free == [] {
      n := 1;
      assert Go(s, next, 0) == next;
      assert got + Takes(free, w.held) == got;
    } else {
      n := Reserves(s, next);
      if free[0] !in w.held {
        Associative(got, [free[0]], Takes(free[1..], w.held + {free[0]}));
      }
      n := n + 1;
    }
  }

  lemma {:induction false} GivesBack(s: Setting, w: World) returns (n: nat)
    requires Apart(s) && Inv(s, w) && w.pc.GiveBack?
    ensures var end := Go(s, w, n);
            && Inv(s, end) && end.pc.Stopped? && Clean(s, end)
    decreases |w.pc.got|
  {
    var next := Advance(s, w, true, 0, Addr(0));
    AdvanceKeepsInv(s, w, true, 0, Addr(0));
    if w.pc.got == [] {
      n := 1;
      assert Go(s, next, 0) == next;
      NothingTaken(s, w);
    } else {
      n := GivesBack(s, next);
      n := n + 1;
    }
  }

  lemma NothingTaken(s: Setting, w: World)
    requires Inv(s, w) && w.pc == GiveBack([])
    ensures Clean(s, w)
  {
    assert Elements([]) == {};
    assert forall id :: id in w.servers && id !in s.servers ==> id in Own(s, w);
    assert w.servers == s.servers;
    assert forall x :: x in w.held && x !in s.held ==> x in OwnHeld(s, w);
    assert w.held == s.held;
  }

  // ---------- Creating ----------

  ghost predicate HasServer(w: World, id: Option<nat>, host: string, ip: Addr) {
    id.Some? && id.value in w.servers && w.servers[id.value] == Server(host, ip)
  }

  // The control plane and the first n workers are there under the ids in st, each
  // with its name and address.
  ghost predicate Built(s: Setting, w: World, st: State, addrs: seq<Addr>, n: nat) {
    && |addrs| == s.workers + 1 && |st.workers| == s.workers && n <= s.workers
    && st.ip == addrs[0] && (forall k :: 0 <= k < s.workers ==> st.workers[k].ip == addrs[k + 1])
    && HasServer(w, st.id, s.context, addrs[0])
    && forall k :: 0 <= k < n ==> HasServer(w, st.workers[k].id, WorkerName(s.context, k), addrs[k + 1])
  }

  lemma OneWorker(s: Setting, w: World, addrs: seq<Addr>)
    requires Apart(s) && Inv(s, w) && w.pc.CreateWorker? && Built(s, w, w.pc.st, addrs, w.pc.i)
    ensures var end := Go(s, w, 2);
            && Inv(s, end) && end.sidecar.Some? && Built(s, end, end.sidecar.value, addrs, w.pc.i + 1)
            && end.pc == (if w.pc.i + 1 == s.workers then Stopped(NoGap)
                          else CreateWorker(end.sidecar.value, w.pc.i + 1))
  {
    StaysInv(s, w, 2);
    TwoSteps(s, w, addrs);
  }

  lemma TwoSteps(s: Setting, w: World, addrs: seq<Addr>)
    requires w.pc.CreateWorker? && Built(s, w, w.pc.st, addrs, w.pc.i) && w.pc.i < |w.pc.st.workers|
    requires forall id :: id in w.servers ==> id < w.nextId
    ensures var end := Go(s, w, 2);
            && end.sidecar.Some? && Built(s, end, end.sidecar.value, addrs, w.pc.i + 1)
            && end.pc == (if w.pc.i + 1 == s.workers then Stopped(NoGap)
                          else CreateWorker(end.sidecar.value, w.pc.i + 1))
  {
    var w1 := Advance(s, w, true, 0, Addr(0));
    var w2 := Advance(s, w1, true, 0, Addr(0));
    assert Go(s, w2, 0) == w2 && Go(s, w1, 1) == w2 && Go(s, w, 2) == w2;
  }

  lemma {:induction false} Workers(s: Setting, w: World, addrs: seq<Addr>) returns (n: nat)
    requires Apart(s) && Inv(s, w) && w.pc.CreateWorker? && Built(s, w, w.pc.st, addrs, w.pc.i)
    ensures var end := Go(s, w, n);
            && Inv(s, end) && end.pc == Stopped(NoGap) && end.sidecar.Some?
            && Built(s, end, end.sidecar.value, addrs, s.workers)
    decreases s.workers - w.pc.i
  {
    OneWorker(s, w, addrs);
    var w2 := Go(s, w, 2);
    if w2.pc.Stopped? {
      n := 2;
    } else {
      n := Workers(s, w2, addrs);
      GoOn(s, w, 2, n);
      n := 2 + n;
    }
  }

  lemma Control(s: Setting, w: World) returns (n: nat)
    requires Apart(s) && Inv(s, w) && w.pc.SaveFirst? && |w.pc.got| == s.workers + 1
    ensures var end := Go(s, w, n);
            && Inv(s, end) && end.pc == Stopped(NoGap) && end.sidecar.Some?
            && Built(s, end, end.sidecar.value, w.pc.got, s.workers)
  {
    StaysInv(s, w, 3);
    ThreeSteps(s, w);
    var w3 := Go(s, w, 3);
    if w3.pc.Stopped? {
      n := 3;
    } else {
      n := Workers(s, w3, w.pc.got);
      GoOn(s, w, 3, n);
      n := 3 + n;
    }
  }

  // The first save, the control plane and its save.
  lemma ThreeSteps(s: Setting, w: World)
    requires w.pc.SaveFirst? && |w.pc.got| == s.workers + 1
    ensures var end := Go(s, w, 3);
            && end.sidecar.Some? && Built(s, end, end.sidecar.value, w.pc.got, 0)
            && end.pc == (if s.workers == 0 then Stopped(NoGap) else CreateWorker(end.sidecar.value, 0))
  {
    var w1 := Advance(s, w, true, 0, Addr(0));
    var w2 := Advance(s, w1, true, 0, Addr(0));
    var w3 := Advance(s, w2, true, 0, Addr(0));
    assert Go(s, w3, 0) == w3 && Go(s, w2, 1) == w3 && Go(s, w1, 2) == w3 && Go(s, w, 3) == w3;
  }

  // ---------- The outcome ----------

  // A provision that meets no failure: if enough of the offered addresses can be
  // taken, it ends with the control plane and every worker, each under its name,
  // with its address and its id in the sidecar; otherwise it leaves nothing.
  lemma ProvisionOutcome(s: Setting, w: World, free: seq<Addr>) returns (n: nat)
    requires Apart(s) && Inv(s, w) && Idle(w) && Clean(s, w)
    ensures var end, all := Go(s, Step(s, w, Provision(free)), n), Takes(free, w.held);
            && end.pc == Stopped(NoGap)
            && (|all| > s.workers ==>
                 end.sidecar.Some? && Built(s, end, end.sidecar.value, all[..s.workers + 1], s.workers))
            && (|all| <= s.workers ==> Clean(s, end))
  {
    var start := Step(s, w, Provision(free));
    ProvisionKeepsInv(s, w, free);
    var all := Takes(free, w.held);
    assert [] + all == all;
    n := Reserves(s, start);
    StaysInv(s, start, n);
    var reserved := Go(s, start, n);
    var more: nat;
    if |all| > s.workers {
      more := Control(s, reserved);
    } else {
      more := GivesBack(s, reserved);
    }
    GoOn(s, start, n, more);
    n := n + more;
  }

  lemma {:induction false} StaysInv(s: Setting, w: World, n: nat)
    requires Apart(s) && Inv(s, w)
    ensures Inv(s, Go(s, w, n))
    decreases n
  {
    if n > 0 && Acting(s, w, 0, Addr(0)) {
      AdvanceKeepsInv(s, w, true, 0, Addr(0));
      StaysInv(s, Advance(s, w, true, 0, Addr(0)), n - 1);
    }
  }

  // ---------- Worker names ----------

  function DigitOf(c: char): int {
    c as int - 48
  }

  // Reading a decimal number back.
  function Number(digits: string): int {
    if digits == "" then 0 else Number(digits[..|digits| - 1]) * 10 + DigitOf(digits[|digits| - 1])
  }

  lemma {:induction false} DecimalReads(i: nat)
    ensures Decimal(i) != "" && Number(Decimal(i)) == i
  {
    var d := Decimal(i);
    if i < 10 {
      assert d[..0] == "" && DigitOf(d[0]) == i;
    } else {
      DecimalReads(i / 10);
      assert d[..|d| - 1] == Decimal(i / 10) && DigitOf(d[|d| - 1]) == i % 10;
    }
  }

  // The names a teardown without ids goes by.
  lemma NamedIff(context: string, host: string)
    ensures Named(context, host) <==> host == context || context + "-worker-" <= host
  {
  }

  // Different workers have different names, none of them the control plane's, and
  // a teardown by name finds them.
  lemma WorkerNames(context: string, i: nat, j: nat)
    ensures WorkerName(context, i) == context + "-worker-" + Decimal(i)
    ensures WorkerName(context, i) == WorkerName(context, j) ==> i == j
    ensures WorkerName(context, i) != context
    ensures Named(context, WorkerName(context, i)) && Named(context, context)
  {
    DecimalReads(i);
    DecimalReads(j);
    var n := |WorkerPrefix(context)|;
    assert WorkerName(context, i)[n..] == Decimal(i) && WorkerName(context, j)[n..] == Decimal(j);
  }
}
