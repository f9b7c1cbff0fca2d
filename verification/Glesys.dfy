/** pkg/provision/glesys: which servers and addresses Provision leaves behind and
    Teardown finds, when commands fail or are killed between any two effects.
    Releasing an address succeeds unless a server still uses it, and a failed
    create or take has created or taken nothing. */
module Glesys {
  import opened Wrappers
  import opened Sequences

  datatype Addr = Addr(n: nat)

  datatype Server = Server(host: string, ip: Addr)

  datatype Node = Node(id: Option<nat>, ip: Addr)

  // The sidecar
  datatype State = State(id: Option<nat>, ip: Addr, workers: seq<Node>)

  // state.servers and state.addresses
  function ServerIds(st: State): set<nat> {
    (if st.id.Some? then {st.id.value} else {})
    + set n | n in st.workers && n.id.Some? :: n.id.value
  }

  function Addresses(st: State): set<Addr> {
    {st.ip} + set n | n in st.workers :: n.ip
  }

  // What a killed or failed command may leave that the sidecar does not tell:
  // addresses taken but never saved, or a worker created but never saved.
  datatype Gap = NoGap | TakenUnsaved | WorkerUnsaved(id: nat)

  // Where a command is, between two effects.
  datatype Pc =
    | Stopped(gap: Gap)                          // nothing running
    | Reserve(free: seq<Addr>, got: seq<Addr>)   // reserveIPv4s
    | GiveBack(got: seq<Addr>)
    | SaveFirst(got: seq<Addr>)
    | CreateControl(st: State)
    | SaveControl(st: State)
    | CreateWorker(st: State, i: nat)
    | SaveWorker(st: State, i: nat)
    | Destroy(ids: set<nat>, gap: Gap)           // Teardown
    | Free(addrs: set<Addr>, gap: Gap)
    | DeleteState(gap: Gap)                      // deleteState: the sidecar,
    | DeleteFiles(gap: Gap)                      // then the files it points at
    | TornDown(gap: Gap)

  datatype World = World(servers: map<nat, Server>, held: set<Addr>, nextId: nat, sidecar: Option<State>, pc: Pc)

  // A cluster's context name and number of workers, and what else the project
  // holds.
  datatype Setting = Setting(context: string, workers: nat, servers: map<nat, Server>, held: set<Addr>)

  function Decimal(i: nat): string {
    if i < 10 then [['0', '1', '2', '3', '4', '5', '6', '7', '8', '9'][i]]
    else Decimal(i / 10) + [['0', '1', '2', '3', '4', '5', '6', '7', '8', '9'][i % 10]]
  }

  function WorkerPrefix(context: string): string {
    context + "-worker-"
  }

  function WorkerName(context: string, i: nat): string {
    WorkerPrefix(context) + Decimal(i)
  }

  // The name fallback of Teardown.
  predicate Named(context: string, host: string) {
    host == context || WorkerPrefix(context) <= host
  }

  function ByName(s: Setting, w: World): set<nat> {
    set id | id in w.servers && Named(s.context, w.servers[id].host)
  }

  function AsNodes(addrs: seq<Addr>): seq<Node> {
    seq(|addrs|, i requires 0 <= i < |addrs| => Node(None, addrs[i]))
  }

  function Fail(w: World): World {
    w.(pc := Stopped(GapOf(w.pc)))
  }

  // What stopping here leaves untold.
  function GapOf(pc: Pc): Gap {
    match pc
    case Stopped(gap) => gap
    case Reserve(_, got) => if got == [] then NoGap else TakenUnsaved
    case GiveBack(got) => if got == [] then NoGap else TakenUnsaved
    case SaveFirst(got) => if got == [] then NoGap else TakenUnsaved
    case CreateControl(_) => NoGap
    case SaveControl(_) => NoGap
    case CreateWorker(_, _) => NoGap
    case SaveWorker(st, i) =>
      if i < |st.workers| && st.workers[i].id.Some? then WorkerUnsaved(st.workers[i].id.value) else NoGap
    case Destroy(_, gap) => gap
    case Free(_, gap) => gap
    case DeleteState(gap) => gap
    case DeleteFiles(gap) => gap
    case TornDown(gap) => gap
  }

  // A teardown has removed the sidecar.
  predicate Forgotten(pc: Pc) {
    pc.DeleteFiles? || pc.TornDown?
  }

  // A worker left behind by a teardown that removed the sidecar is no secret to
  // the next, which goes by name.
  function GapFor(pc: Pc): Gap {
    if Forgotten(pc) && pc.gap.WorkerUnsaved? then NoGap else GapOf(pc)
  }

  function Create(w: World, host: string, ip: Addr, pc: Pc): World {
    w.(servers := w.servers[w.nextId := Server(host, ip)], nextId := w.nextId + 1, pc := pc)
  }

  predicate Using(w: World, a: Addr) {
    exists id :: id in w.servers && w.servers[id].ip == a
  }

  predicate Acting(s: Setting, w: World, pick: nat, a: Addr) {
    match w.pc
    case Stopped(_) => false
    case TornDown(_) => false
    case CreateWorker(st, i) => i < |st.workers|
    case SaveWorker(st, i) => i < |st.workers|
    case Destroy(ids, _) => ids == {} || pick in ids
    case Free(addrs, _) => addrs == {} || a in addrs
    case _ => true
  }

  // The next effect; `ok` is whether it works. `pick` and `a` say which server
  // is destroyed, or address released, next.
  function Advance(s: Setting, w: World, ok: bool, pick: nat, a: Addr): World
    requires Acting(s, w, pick, a)
  {
    match w.pc
    case Stopped(_) => w
    case TornDown(_) => w
    case Reserve(free, got) =>
      if |got| == s.workers + 1 then w.(pc := SaveFirst(got))
      else if free == [] then w.(pc := GiveBack(got))
      else if ok && free[0] !in w.held then
        w.(held := w.held + {free[0]}, pc := Reserve(free[1..], got + [free[0]]))
      else w.(pc := Reserve(free[1..], got))
    case GiveBack(got) =>
      if got == [] then Fail(w) else w.(held := w.held - {got[0]}, pc := GiveBack(got[1..]))
    case SaveFirst(got) =>
      if !ok || got == [] then w.(pc := GiveBack(got))
      else
        var st := State(None, got[0], AsNodes(got[1..]));
        w.(sidecar := Some(st), pc := CreateControl(st))
    case CreateControl(st) =>
      // also where the machine configs are generated and written
      if !ok then Fail(w) else Create(w, s.context, st.ip, SaveControl(st.(id := Some(w.nextId))))
    case SaveControl(st) =>
      if !ok then Fail(w)
      else w.(sidecar := Some(st), pc := if st.workers == [] then Stopped(NoGap) else CreateWorker(st, 0))
    case CreateWorker(st, i) =>
      if !ok then Fail(w)
      else
        var next := st.(workers := st.workers[i := st.workers[i].(id := Some(w.nextId))]);
        Create(w, WorkerName(s.context, i), st.workers[i].ip, SaveWorker(next, i))
    case SaveWorker(st, i) =>
      if !ok then Fail(w)
      else w.(sidecar := Some(st), pc := if i + 1 == |st.workers| then Stopped(NoGap) else CreateWorker(st, i + 1))
    case Destroy(ids, gap) =>
      if ids == {} then
        w.(pc := Free(if w.sidecar.Some? then Addresses(w.sidecar.value) else {}, gap))
      else if !ok then Fail(w)
      else if pick !in w.servers then w.(pc := Destroy(ids - {pick}, gap))   // already gone
      else
        // keepip=false releases the server's address too
        w.(servers := w.servers - {pick}, held := w.held - {w.servers[pick].ip}, pc := Destroy(ids - {pick}, gap))
    case Free(addrs, gap) =>
      if addrs == {} then w.(pc := DeleteState(gap))
      else w.(held := if Using(w, a) then w.held else w.held - {a}, pc := Free(addrs - {a}, gap))
    case DeleteState(gap) =>
      if ok then w.(sidecar := None, pc := DeleteFiles(gap)) else Fail(w)
    case DeleteFiles(gap) =>
      if ok then w.(pc := TornDown(gap)) else w.(pc := Stopped(GapFor(w.pc)))
  }

  datatype Event = Provision(free: seq<Addr>) | Teardown(listed: bool) | Effect(ok: bool, pick: nat, a: Addr) | Kill

  // Nothing of this cluster: what Provision is asked to start from.
  predicate Clean(s: Setting, w: World) {
    w.servers == s.servers && w.held == s.held && w.sidecar.None?
  }

  predicate Idle(w: World) {
    w.pc.Stopped? || w.pc.TornDown?
  }

  predicate Enabled(s: Setting, w: World, e: Event) {
    match e
    case Provision(_) => Idle(w) && Clean(s, w)
    case Teardown(_) => Idle(w)
    case Effect(_, pick, a) => Acting(s, w, pick, a)
    case Kill => true
  }

  function Step(s: Setting, w: World, e: Event): World
    requires Enabled(s, w, e)
  {
    match e
    case Provision(free) => w.(pc := Reserve(free, []))
    case Teardown(listed) =>
      var known := if w.sidecar.Some? then ServerIds(w.sidecar.value) else {};
      if known != {} then w.(pc := Destroy(known, GapFor(w.pc)))
      else if !listed then w.(pc := Stopped(GapFor(w.pc)))
      else w.(pc := Destroy(ByName(s, w), GapFor(w.pc)))
    case Effect(ok, pick, a) => Advance(s, w, ok, pick, a)
    case Kill => w.(pc := Stopped(GapFor(w.pc)))
  }

  // ---------- The invariant ----------

  function Own(s: Setting, w: World): set<nat> {
    w.servers.Keys - s.servers.Keys
  }

  function OwnHeld(s: Setting, w: World): set<Addr> {
    w.held - s.held
  }

  function OwnIps(s: Setting, w: World): set<Addr> {
    set id | id in w.servers && id !in s.servers :: w.servers[id].ip
  }

  function Elements(addrs: seq<Addr>): set<Addr> {
    set a | a in addrs
  }

  // The other servers of the project are apart: their names are not this
  // cluster's, and their addresses are held.
  ghost predicate Apart(s: Setting) {
    forall id :: id in s.servers ==> !Named(s.context, s.servers[id].host) && s.servers[id].ip in s.held
  }

  ghost predicate Base(s: Setting, w: World) {
    && (forall id :: id in s.servers ==> id in w.servers && w.servers[id] == s.servers[id])
    && s.held <= w.held
    && (forall id :: id in w.servers ==> id < w.nextId)
    && (forall id :: id in w.servers && id !in s.servers ==>
          Named(s.context, w.servers[id].host) && w.servers[id].ip !in s.held)
  }

  // A sidecar names nothing of anybody else.
  ghost predicate Ours(s: Setting, w: World, st: State) {
    && Addresses(st) !! s.held && ServerIds(st) !! s.servers.Keys
    && forall id :: id in ServerIds(st) ==> id < w.nextId
  }

  // The sidecar, or without ids the names, lead to everything but `stray`.
  ghost predicate Known(s: Setting, w: World, stray: set<nat>) {
    match w.sidecar
    case None => OwnHeld(s, w) <= OwnIps(s, w)
    case Some(st) =>
      && Ours(s, w, st) && OwnHeld(s, w) <= Addresses(st)
      && (ServerIds(st) != {} ==> Own(s, w) <= ServerIds(st) + stray)
  }

  ghost predicate Left(s: Setting, w: World, gap: Gap) {
    match gap
    case NoGap => Known(s, w, {})
    case TakenUnsaved => w.sidecar.None? && Own(s, w) == {} && OwnHeld(s, w) != {}
    case WorkerUnsaved(x) =>
      && w.sidecar.Some? && Known(s, w, {x}) && ServerIds(w.sidecar.value) != {}
      && x in Own(s, w) && x !in ServerIds(w.sidecar.value)
  }

  function Stray(gap: Gap): set<nat> {
    if gap.WorkerUnsaved? then {gap.id} else {}
  }

  ghost predicate Taking(s: Setting, w: World, got: seq<Addr>) {
    w.sidecar.None? && Own(s, w) == {} && OwnHeld(s, w) == Elements(got) && Distinct(got)
  }

  // The workers from i on have not been created.
  ghost predicate Pending(st: State, i: nat) {
    forall k :: i <= k < |st.workers| ==> st.workers[k].id.None?
  }

  ghost predicate Building(s: Setting, w: World, st: State) {
    w.sidecar == Some(st) && Known(s, w, {})
  }

  ghost predicate AtPc(s: Setting, w: World) {
    match w.pc
    case Stopped(gap) => Left(s, w, gap)
    case Reserve(_, got) => Taking(s, w, got)
    case GiveBack(got) => Taking(s, w, got)
    case SaveFirst(got) => Taking(s, w, got) && got != []
    case CreateControl(st) => Building(s, w, st) && ServerIds(st) == {} && Own(s, w) == {}
    case SaveControl(st) =>
      && st.id.Some? && Building(s, w, st.(id := None)) && ServerIds(st.(id := None)) == {}
      && Own(s, w) == {st.id.value} && Ours(s, w, st)
    case CreateWorker(st, i) => Building(s, w, st) && i < |st.workers| && Pending(st, i) && st.id.Some?
    case SaveWorker(st, i) =>
      && i < |st.workers| && st.workers[i].id.Some? && st.id.Some? && Pending(st, i + 1) && Ours(s, w, st)
      && Unsaved(s, w, st, i)
    case Destroy(ids, gap) =>
      Left(s, w, gap) && Own(s, w) <= ids + Stray(gap) && ids !! s.servers.Keys && ids !! Stray(gap)
    case Free(addrs, gap) =>
      && Left(s, w, gap) && Own(s, w) <= Stray(gap) && addrs !! s.held
      && (!gap.TakenUnsaved? ==> OwnHeld(s, w) <= addrs + OwnIps(s, w))
      && (gap.TakenUnsaved? ==> addrs == {})
    case DeleteState(gap) =>
      && Left(s, w, gap) && Own(s, w) <= Stray(gap)
      && (!gap.TakenUnsaved? ==> OwnHeld(s, w) <= OwnIps(s, w))
    case DeleteFiles(gap) => Forgetting(s, w, gap)
    case TornDown(gap) => Forgetting(s, w, gap)
  }

  ghost predicate Forgetting(s: Setting, w: World, gap: Gap) {
    && w.sidecar.None? && Own(s, w) == Stray(gap)
    && (gap.TakenUnsaved? <==> !(OwnHeld(s, w) <= OwnIps(s, w)))
  }

  // The worker just created is in memory, and not yet in the sidecar.
  ghost predicate Unsaved(s: Setting, w: World, st: State, i: nat)
    requires i < |st.workers| && st.workers[i].id.Some?
  {
    && Left(s, w, WorkerUnsaved(st.workers[i].id.value))
    && w.sidecar == Some(st.(workers := st.workers[i := st.workers[i].(id := None)]))
  }

  ghost predicate Inv(s: Setting, w: World) {
    Base(s, w) && AtPc(s, w)
  }

  // ---------- Each effect keeps it ----------

  predicate Taken(pc: Pc) {
    pc.Reserve? || pc.GiveBack? || pc.SaveFirst?
  }

  lemma ReserveKeepsInv(s: Setting, w: World, ok: bool, pick: nat, a: Addr)
    requires Inv(s, w) && w.pc.Reserve?
    ensures Inv(s, Advance(s, w, ok, pick, a))
  {
    var got := w.pc.got;
    if w.pc.free != [] && w.pc.free[0] !in w.held {
      var more := got + [w.pc.free[0]];
      assert Elements(more) == Elements(got) + {w.pc.free[0]};
      forall i | 0 <= i < |got| ensures got[i] in w.held {
        assert got[i] in Elements(got);
      }
    }
  }

  lemma GiveBackKeepsInv(s: Setting, w: World, ok: bool, pick: nat, a: Addr)
    requires Inv(s, w) && w.pc.GiveBack?
    ensures Inv(s, Advance(s, w, ok, pick, a))
  {
    var got := w.pc.got;
    if got == [] {
      assert OwnHeld(s, w) == {};
    } else {
      var rest := got[1..];
      assert forall i :: 0 <= i < |rest| ==> rest[i] == got[i + 1];
      assert Elements(got) == {got[0]} + Elements(rest);
      assert got[0] !in Elements(rest);
      assert got[0] in OwnHeld(s, w);
    }
  }

  lemma FirstAddresses(got: seq<Addr>)
    requires got != []
    ensures var st := State(None, got[0], AsNodes(got[1..]));
            Addresses(st) == Elements(got) && ServerIds(st) == {}
  {
    var st := State(None, got[0], AsNodes(got[1..]));
    forall x | x in got ensures x in Addresses(st) {
      var i :| 0 <= i < |got| && got[i] == x;
      if i > 0 {
        assert st.workers[i - 1] == Node(None, x);
      }
    }
  }

  lemma SaveFirstKeepsInv(s: Setting, w: World, ok: bool, pick: nat, a: Addr)
    requires Inv(s, w) && w.pc.SaveFirst?
    ensures Inv(s, Advance(s, w, ok, pick, a))
  {
    FirstAddresses(w.pc.got);
  }

  lemma SetWorker(st: State, i: nat, id: nat)
    requires i < |st.workers| && st.workers[i].id.None?
    ensures var next := st.(workers := st.workers[i := st.workers[i].(id := Some(id))]);
            && ServerIds(next) == ServerIds(st) + {id} && Addresses(next) == Addresses(st)
            && next.(workers := next.workers[i := next.workers[i].(id := None)]) == st
  {
    var next := st.(workers := st.workers[i := st.workers[i].(id := Some(id))]);
    forall n | n in st.workers && n.id.Some? ensures n in next.workers {
      var k :| 0 <= k < |st.workers| && st.workers[k] == n;
      assert next.workers[k] == n;
    }
    assert next.workers[i].id == Some(id);
    assert id in ServerIds(next);
    forall n | n in st.workers ensures n.ip in Addresses(next) {
      var k :| 0 <= k < |st.workers| && st.workers[k] == n;
      assert next.workers[k] in next.workers && next.workers[k].ip == n.ip;
    }
    forall n | n in next.workers ensures n.ip in Addresses(st) {
      var k :| 0 <= k < |next.workers| && next.workers[k] == n;
      assert st.workers[k] in st.workers && st.workers[k].ip == n.ip;
    }
    assert next.workers[i := next.workers[i].(id := None)] == st.workers;
  }

  lemma CreateKeepsBase(s: Setting, w: World, host: string, ip: Addr, pc: Pc)
    requires Base(s, w) && Named(s.context, host) && ip !in s.held
    ensures var w' := Create(w, host, ip, pc);
            && Base(s, w') && Own(s, w') == Own(s, w) + {w.nextId} && OwnHeld(s, w') == OwnHeld(s, w)
            && w.nextId !in w.servers
  {
    assert w.nextId !in w.servers && w.nextId !in s.servers;
  }

  lemma IdListed(st: State, k: nat)
    requires k < |st.workers|
    ensures st.workers[k].id.Some? ==> st.workers[k].id.value in ServerIds(st)
  {
    assert st.workers[k] in st.workers;
  }

  lemma NoIds(st: State)
    ensures ServerIds(st) == {} ==> st.id.None? && Pending(st, 0)
  {
    forall k | 0 <= k < |st.workers|
      ensures st.workers[k].id.Some? ==> st.workers[k].id.value in ServerIds(st)
    {
      IdListed(st, k);
    }
    assert st.id.Some? ==> st.id.value in ServerIds(st);
  }

  lemma CreateControlKeepsInv(s: Setting, w: World, ok: bool, pick: nat, a: Addr)
    requires Inv(s, w) && w.pc.CreateControl?
    ensures Inv(s, Advance(s, w, ok, pick, a))
  {
    var st := w.pc.st;
    if ok {
      assert st.ip in Addresses(st);
      NoIds(st);
      assert st.(id := None) == st;
      var next := st.(id := Some(w.nextId));
      assert ServerIds(next) == ServerIds(st) + {w.nextId} && Addresses(next) == Addresses(st);
      CreateKeepsBase(s, w, s.context, st.ip, SaveControl(next));
    }
  }

  lemma SaveControlKeepsInv(s: Setting, w: World, ok: bool, pick: nat, a: Addr)
    requires Inv(s, w) && w.pc.SaveControl?
    ensures Inv(s, Advance(s, w, ok, pick, a))
  {
    var st := w.pc.st;
    var before := st.(id := None);
    assert st.id.value in ServerIds(st);
    assert Addresses(before) == Addresses(st);
    NoIds(before);
  }

  lemma CreateWorkerKeepsInv(s: Setting, w: World, ok: bool, pick: nat, a: Addr)
    requires Inv(s, w) && w.pc.CreateWorker?
    ensures Inv(s, Advance(s, w, ok, pick, a))
  {
    var st, i := w.pc.st, w.pc.i;
    if ok {
      SetWorker(st, i, w.nextId);
      assert st.workers[i] in st.workers && st.workers[i].ip in Addresses(st);
      assert st.id.value in ServerIds(st);
      var next := st.(workers := st.workers[i := st.workers[i].(id := Some(w.nextId))]);
      CreateKeepsBase(s, w, WorkerName(s.context, i), st.workers[i].ip, SaveWorker(next, i));
    }
  }

  lemma SaveWorkerKeepsInv(s: Setting, w: World, ok: bool, pick: nat, a: Addr)
    requires Inv(s, w) && w.pc.SaveWorker?
    ensures Inv(s, Advance(s, w, ok, pick, a))
  {
    var st, i := w.pc.st, w.pc.i;
    var before := st.(workers := st.workers[i := st.workers[i].(id := None)]);
    SetWorker(before, i, st.workers[i].id.value);
    assert before.workers[i := st.workers[i]] == st.workers;
    assert before.(workers := before.workers[i := before.workers[i].(id := st.workers[i].id)]) == st;
  }

  // ---------- Teardown ----------

  lemma DestroyKeepsInv(s: Setting, w: World, ok: bool, pick: nat, a: Addr)
    requires Inv(s, w) && w.pc.Destroy? && w.pc.ids != {} && Acting(s, w, pick, a)
    ensures Inv(s, Advance(s, w, ok, pick, a))
  {
    var w' := Advance(s, w, ok, pick, a);
    if ok && pick in w.servers {
      assert pick !in s.servers;
      assert Own(s, w') == Own(s, w) - {pick};
      assert OwnHeld(s, w') == OwnHeld(s, w) - {w.servers[pick].ip};
      forall x | x in OwnIps(s, w) && x != w.servers[pick].ip ensures x in OwnIps(s, w') {
        var id :| id in w.servers && id !in s.servers && w.servers[id].ip == x;
        assert id in w'.servers && w'.servers[id].ip == x;
      }
    }
  }

  lemma DestroyedKeepsInv(s: Setting, w: World, ok: bool, pick: nat, a: Addr)
    requires Inv(s, w) && w.pc.Destroy? && w.pc.ids == {}
    ensures Inv(s, Advance(s, w, ok, pick, a))
  {
  }

  lemma FreeKeepsInv(s: Setting, w: World, ok: bool, pick: nat, a: Addr)
    requires Apart(s) && Inv(s, w) && w.pc.Free? && Acting(s, w, pick, a)
    ensures Inv(s, Advance(s, w, ok, pick, a))
  {
    var w' := Advance(s, w, ok, pick, a);
    assert OwnIps(s, w') == OwnIps(s, w);
    if w.pc.addrs == {} {
      assert {} + OwnIps(s, w) == OwnIps(s, w);
    } else if Using(w, a) {
      UsedIsOwn(s, w, a);
    } else {
      assert OwnHeld(s, w') == OwnHeld(s, w) - {a};
    }
  }

  lemma UsedIsOwn(s: Setting, w: World, a: Addr)
    requires Apart(s) && Base(s, w) && Using(w, a) && a !in s.held
    ensures a in OwnIps(s, w)
  {
    var id :| id in w.servers && w.servers[id].ip == a;
    forall other | other in s.servers ensures w.servers[other].ip in s.held {
      assert w.servers[other] == s.servers[other];
    }
  }

  lemma DeleteKeepsInv(s: Setting, w: World, ok: bool, pick: nat, a: Addr)
    requires Inv(s, w) && w.pc.DeleteState?
    ensures Inv(s, Advance(s, w, ok, pick, a))
  {
    assert OwnIps(s, Advance(s, w, ok, pick, a)) == OwnIps(s, w);
    if w.pc.gap.TakenUnsaved? {
      assert forall id :: id in w.servers && id !in s.servers ==> id in Own(s, w);
      assert OwnIps(s, w) == {};
    }
  }

  lemma StopKeepsInv(s: Setting, w: World)
    requires Inv(s, w)
    ensures Inv(s, w.(pc := Stopped(GapFor(w.pc))))
  {
    var w' := w.(pc := Stopped(GapFor(w.pc)));
    assert Own(s, w') == Own(s, w) && OwnHeld(s, w') == OwnHeld(s, w) && OwnIps(s, w') == OwnIps(s, w);
    if Taken(w.pc) {
      assert w.pc.got != [] ==> w.pc.got[0] in Elements(w.pc.got);
    } else if w.pc.SaveControl? {
      assert w.sidecar == Some(w.pc.st.(id := None));
    }
  }

  lemma FilesKeepInv(s: Setting, w: World, ok: bool, pick: nat, a: Addr)
    requires Inv(s, w) && w.pc.DeleteFiles?
    ensures Inv(s, Advance(s, w, ok, pick, a))
  {
    if ok {
      var w' := w.(pc := TornDown(w.pc.gap));
      assert Own(s, w') == Own(s, w) && OwnHeld(s, w') == OwnHeld(s, w) && OwnIps(s, w') == OwnIps(s, w);
    } else {
      StopKeepsInv(s, w);
    }
  }

  lemma AdvanceKeepsInv(s: Setting, w: World, ok: bool, pick: nat, a: Addr)
    requires Apart(s) && Inv(s, w) && Acting(s, w, pick, a)
    ensures Inv(s, Advance(s, w, ok, pick, a))
  {
    match w.pc
    case Stopped(_) =>
    case TornDown(_) =>
    case Reserve(_, _) => ReserveKeepsInv(s, w, ok, pick, a);
    case GiveBack(_) => GiveBackKeepsInv(s, w, ok, pick, a);
    case SaveFirst(_) => SaveFirstKeepsInv(s, w, ok, pick, a);
    case CreateControl(_) => CreateControlKeepsInv(s, w, ok, pick, a);
    case SaveControl(_) => SaveControlKeepsInv(s, w, ok, pick, a);
    case CreateWorker(_, _) => CreateWorkerKeepsInv(s, w, ok, pick, a);
    case SaveWorker(_, _) => SaveWorkerKeepsInv(s, w, ok, pick, a);
    case Destroy(ids, _) =>
      if ids == {} {
        DestroyedKeepsInv(s, w, ok, pick, a);
      } else {
        DestroyKeepsInv(s, w, ok, pick, a);
      }
    case Free(_, _) => FreeKeepsInv(s, w, ok, pick, a);
    case DeleteState(_) => DeleteKeepsInv(s, w, ok, pick, a);
    case DeleteFiles(_) => FilesKeepInv(s, w, ok, pick, a);
  }

  lemma TeardownKeepsInv(s: Setting, w: World, listed: bool)
    requires Apart(s) && Inv(s, w) && Idle(w)
    ensures Inv(s, Step(s, w, Teardown(listed)))
  {
    StopKeepsInv(s, w);
    var stopped := w.(pc := Stopped(GapFor(w.pc)));
    var w' := Step(s, w, Teardown(listed));
    assert Own(s, w') == Own(s, w) && OwnHeld(s, w') == OwnHeld(s, w) && OwnIps(s, w') == OwnIps(s, w);
    assert Left(s, stopped, GapFor(w.pc));
    if w'.pc.Destroy? {
      assert forall id :: id in Own(s, w) ==> id in ByName(s, w);
      assert ByName(s, w) !! s.servers.Keys by {
        forall id | id in s.servers ensures id !in ByName(s, w) {
          assert w.servers[id] == s.servers[id];
        }
      }
    }
  }

  lemma ProvisionKeepsInv(s: Setting, w: World, free: seq<Addr>)
    requires Inv(s, w) && Idle(w) && Clean(s, w)
    ensures Inv(s, Step(s, w, Provision(free)))
  {
    var w' := Step(s, w, Provision(free));
    assert Own(s, w') == {} && OwnHeld(s, w') == {} && Elements([]) == {};
  }

  lemma StepKeepsInv(s: Setting, w: World, e: Event)
    requires Apart(s) && Inv(s, w) && Enabled(s, w, e)
    ensures Inv(s, Step(s, w, e))
  {
    match e
    case Provision(free) => ProvisionKeepsInv(s, w, free);
    case Teardown(listed) => TeardownKeepsInv(s, w, listed);
    case Effect(ok, pick, a) => AdvanceKeepsInv(s, w, ok, pick, a);
    case Kill => StopKeepsInv(s, w);
  }

  ghost predicate IsStep(s: Setting, worlds: seq<World>, events: seq<Event>, i: nat)
    requires i < |events| && |worlds| == |events| + 1
  {
    Enabled(s, worlds[i], events[i]) && worlds[i + 1] == Step(s, worlds[i], events[i])
  }

  // From a project with nothing of this cluster.
  ghost predicate IsRun(s: Setting, worlds: seq<World>, events: seq<Event>) {
    && Apart(s) && |worlds| == |events| + 1
    && Clean(s, worlds[0]) && worlds[0].pc == Stopped(NoGap)
    && (forall id :: id in s.servers ==> id < worlds[0].nextId)
    && forall i :: 0 <= i < |events| ==> IsStep(s, worlds, events, i)
  }

  lemma {:induction false} RunKeepsInv(s: Setting, worlds: seq<World>, events: seq<Event>, n: nat)
    requires IsRun(s, worlds, events) && n < |worlds|
    ensures Inv(s, worlds[n])
    decreases n
  {
    if n > 0 {
      RunKeepsInv(s, worlds, events, n - 1);
      assert IsStep(s, worlds, events, n - 1);
      StepKeepsInv(s, worlds[n - 1], events[n - 1]);
    } else {
      assert Own(s, worlds[0]) == {} && OwnHeld(s, worlds[0]) == {};
    }
  }

  // ---------- The gaps, as events ----------

  // The gap this event leaves behind: a kill between taking addresses and the
  // first save, or a kill or a failed save right after a worker was created.
  function Opens(w: World, e: Event): Gap {
    if (w.pc.Reserve? || w.pc.GiveBack? || w.pc.SaveFirst?) && e.Kill? then GapOf(w.pc)
    else if w.pc.SaveWorker? && (e.Kill? || (e.Effect? && !e.ok)) then GapOf(w.pc)
    else NoGap
  }

  // Event i left a gap; if it was a worker, no teardown that had removed the
  // sidecar has ended since, in success or failure. Taken addresses nobody wrote
  // down are never found again.
  ghost predicate StillOpen(worlds: seq<World>, events: seq<Event>, i: nat, n: nat)
    requires i < |events| && i < n <= |events| && |worlds| == |events| + 1
  {
    && Opens(worlds[i], events[i]) != NoGap
    && (Opens(worlds[i], events[i]).WorkerUnsaved? ==> forall j :: i < j < n ==> !Ends(worlds, j))
  }

  // Event j ends a teardown that has removed the sidecar: it fails or is killed,
  // or something follows its success.
  predicate Ends(worlds: seq<World>, j: nat)
    requires j + 1 < |worlds|
  {
    Forgotten(worlds[j].pc) && !Forgotten(worlds[j + 1].pc)
  }

  // What a stopped command or a teardown carries of an earlier gap.
  function Recorded(pc: Pc): Gap {
    match pc
    case Stopped(gap) => gap
    case Destroy(_, gap) => gap
    case Free(_, gap) => gap
    case DeleteState(gap) => gap
    case DeleteFiles(gap) => gap
    case TornDown(gap) => gap
    case _ => NoGap
  }

  lemma CleanHasNoGap(s: Setting, w: World)
    requires Inv(s, w) && Idle(w) && Clean(s, w)
    ensures Recorded(w.pc) == NoGap
  {
    assert Own(s, w) == {} && OwnHeld(s, w) == {};
    assert OwnHeld(s, w) <= OwnIps(s, w);
  }

  lemma StepRecords(s: Setting, w: World, e: Event)
    requires Inv(s, w) && Enabled(s, w, e)
    ensures Recorded(Step(s, w, e).pc)
         == if Opens(w, e) != NoGap then Opens(w, e)
            else if Forgotten(w.pc) && !Forgotten(Step(s, w, e).pc) && w.pc.gap.WorkerUnsaved? then NoGap
            else Recorded(w.pc)
    ensures Opens(w, e) != NoGap ==> Recorded(w.pc) == NoGap
  {
    if e.Provision? {
      CleanHasNoGap(s, w);
    }
  }

  ghost predicate Accounted(worlds: seq<World>, events: seq<Event>, n: nat)
    requires n <= |events| && |worlds| == |events| + 1
  {
    && (Recorded(worlds[n].pc) != NoGap ==> exists i :: 0 <= i < n && StillOpen(worlds, events, i, n))
    && (forall i :: 0 <= i < n && StillOpen(worlds, events, i, n) ==>
          Opens(worlds[i], events[i]) == Recorded(worlds[n].pc))
  }

  lemma {:induction false} GapsAreEvents(s: Setting, worlds: seq<World>, events: seq<Event>, n: nat)
    requires IsRun(s, worlds, events) && n < |worlds|
    ensures Accounted(worlds, events, n)
    decreases n
  {
    if n > 0 {
      GapsAreEvents(s, worlds, events, n - 1);
      RunKeepsInv(s, worlds, events, n - 1);
      assert IsStep(s, worlds, events, n - 1);
      StepRecords(s, worlds[n - 1], events[n - 1]);
      OneMoreEvent(worlds, events, n - 1);
    }
  }

  lemma OneMoreEvent(worlds: seq<World>, events: seq<Event>, n: nat)
    requires n < |events| && |worlds| == |events| + 1 && Accounted(worlds, events, n)
    requires var w, e := worlds[n], events[n];
             && (Opens(w, e) != NoGap ==> Recorded(w.pc) == NoGap)
             && Recorded(worlds[n + 1].pc)
             == if Opens(w, e) != NoGap then Opens(w, e)
                else if Ends(worlds, n) && w.pc.gap.WorkerUnsaved? then NoGap
                else Recorded(w.pc)
    ensures Accounted(worlds, events, n + 1)
  {
    forall i | 0 <= i < n + 1 && StillOpen(worlds, events, i, n + 1)
      ensures Opens(worlds[i], events[i]) == Recorded(worlds[n + 1].pc)
    {
      if i < n {
        assert StillOpen(worlds, events, i, n);
      }
    }
    if Recorded(worlds[n + 1].pc) != NoGap {
      if Opens(worlds[n], events[n]) != NoGap {
        assert StillOpen(worlds, events, n, n + 1);
      } else {
        var i :| 0 <= i < n && StillOpen(worlds, events, i, n);
        assert StillOpen(worlds, events, i, n + 1);
      }
    }
  }

  // Nothing of this cluster is left, and all the rest is as it was.
  ghost predicate Gone(s: Setting, w: World) {
    w.servers == s.servers && w.held == s.held
  }

  // Whatever failed or was killed on the way, a teardown that succeeds has left
  // no server and no address of the cluster if and only if no event left a gap
  // that is still open: a kill between taking addresses and the first save, or,
  // since an earlier teardown removed the sidecar, a kill or failed save between
  // the creation of a worker and its save. The other servers and addresses of the
  // project are untouched either way.
  lemma TeardownLeavesNothingIff(s: Setting, worlds: seq<World>, events: seq<Event>, n: nat)
    requires IsRun(s, worlds, events) && n < |worlds| && worlds[n].pc.TornDown?
    ensures Gone(s, worlds[n]) <==> forall i :: 0 <= i < n ==> !StillOpen(worlds, events, i, n)
    ensures forall id :: id in s.servers ==> id in worlds[n].servers && worlds[n].servers[id] == s.servers[id]
    ensures s.held <= worlds[n].held
  {
    RunKeepsInv(s, worlds, events, n);
    GapsAreEvents(s, worlds, events, n);
    GoneIff(s, worlds[n]);
  }

  lemma GoneIff(s: Setting, w: World)
    requires Inv(s, w) && w.pc.TornDown?
    ensures Gone(s, w) <==> w.pc.gap == NoGap
  {
    if w.pc.gap == NoGap {
      assert forall id :: id in w.servers && id !in s.servers ==> id in Own(s, w);
      assert OwnIps(s, w) == {};
      assert w.servers == s.servers;
      assert forall x :: x in w.held && x !in s.held ==> x in OwnHeld(s, w);
      assert w.held == s.held;
    } else if w.pc.gap.TakenUnsaved? {
      assert !(OwnHeld(s, w) <= OwnIps(s, w));
      assert Gone(s, w) ==> OwnHeld(s, w) == {};
    } else {
      assert w.pc.gap.id in Own(s, w);
    }
  }

  predicate Saves(pc: Pc) {
    pc.SaveFirst? || pc.SaveControl? || pc.SaveWorker?
  }

  // With no kill and every save going well, any other call may fail: a teardown
  // that succeeds leaves nothing.
  lemma FailedCallsLeaveNothing(s: Setting, worlds: seq<World>, events: seq<Event>, n: nat)
    requires IsRun(s, worlds, events) && n < |worlds| && worlds[n].pc.TornDown?
    requires forall i :: 0 <= i < n ==> !events[i].Kill?
    requires forall i :: 0 <= i < n && events[i].Effect? && Saves(worlds[i].pc) ==> events[i].ok
    ensures Gone(s, worlds[n])
  {
    TeardownLeavesNothingIff(s, worlds, events, n);
  }

  // A worker that one teardown left is found by the next: once the first has
  // removed the sidecar, whether it succeeded or failed after that, the second
  // goes by name. Only addresses killed before their first save stay.
  lemma SecondTeardownFindsTheWorker(s: Setting, worlds: seq<World>, events: seq<Event>, n: nat, m: nat)
    requires IsRun(s, worlds, events) && n < m < |worlds|
    requires Ends(worlds, n) && worlds[m].pc.TornDown?
    requires forall i :: 0 <= i < n ==> Opens(worlds[i], events[i]) != TakenUnsaved
    requires forall k :: n <= k < m ==> !events[k].Provision?
    ensures Gone(s, worlds[m])
  {
    GapsAreEvents(s, worlds, events, n);
    NoGapStays(s, worlds, events, n, m);
    RunKeepsInv(s, worlds, events, m);
    GoneIff(s, worlds[m]);
  }

  predicate TearingDown(pc: Pc) {
    pc.Stopped? || pc.Destroy? || pc.Free? || pc.DeleteState? || Forgotten(pc)
  }

  lemma {:induction false} NoGapStays(s: Setting, worlds: seq<World>, events: seq<Event>, n: nat, m: nat)
    requires IsRun(s, worlds, events) && n < m < |worlds|
    requires Ends(worlds, n) && !GapOf(worlds[n].pc).TakenUnsaved?
    requires forall k :: n <= k < m ==> !events[k].Provision?
    ensures TearingDown(worlds[m].pc) && GapOf(worlds[m].pc) == NoGap
    decreases m
  {
    assert IsStep(s, worlds, events, m - 1);
    if n < m - 1 {
      NoGapStays(s, worlds, events, n, m - 1);
    }
  }

  // A reservation that fails holds no address when it reports so.
  lemma FailedReservationHoldsNothing(s: Setting, worlds: seq<World>, events: seq<Event>, n: nat)
    requires IsRun(s, worlds, events) && n < |worlds| && worlds[n].pc == GiveBack([])
    ensures Gone(s, worlds[n])
  {
    RunKeepsInv(s, worlds, events, n);
    var w := worlds[n];
    assert Elements([]) == {};
    assert forall id :: id in w.servers && id !in s.servers ==> id in Own(s, w);
    assert w.servers == s.servers;
    assert forall x :: x in w.held && x !in s.held ==> x in OwnHeld(s, w);
    assert w.held == s.held;
  }

  // ---------- A run through each gap ----------

  // One more event.
  lemma Then(s: Setting, worlds: seq<World>, events: seq<Event>, e: Event)
    returns (worlds': seq<World>, events': seq<Event>)
    requires IsRun(s, worlds, events) && Enabled(s, worlds[|events|], e)
    ensures IsRun(s, worlds', events') && |events'| == |events| + 1
    ensures worlds'[|events'|] == Step(s, worlds[|events|], e)
  {
    worlds', events' := worlds + [Step(s, worlds[|events|], e)], events + [e];
    forall i | 0 <= i < |events'| ensures IsStep(s, worlds', events', i) {
      if i < |events| {
        assert IsStep(s, worlds, events, i);
      }
    }
  }

  const EMPTY := World(map[], {}, 0, None, Stopped(NoGap))

  // A provision killed after taking its address: the teardown that follows
  // succeeds, and the address is held for good.
  lemma TakenUnsavedWitness() returns (s: Setting, worlds: seq<World>, events: seq<Event>)
    ensures IsRun(s, worlds, events) && worlds[|events|].pc.TornDown?
    ensures !Gone(s, worlds[|events|]) && Addr(0) in worlds[|events|].held
  {
    s := Setting("a", 0, map[], {});
    worlds, events := [EMPTY], [];
    worlds, events := Then(s, worlds, events, Provision([Addr(0)]));
    worlds, events := Then(s, worlds, events, Effect(true, 0, Addr(0)));
    worlds, events := Then(s, worlds, events, Kill);
    worlds, events := Then(s, worlds, events, Teardown(true));
    assert worlds[|events|].pc == Destroy({}, TakenUnsaved);
    worlds, events := Then(s, worlds, events, Effect(true, 0, Addr(0)));
    worlds, events := Then(s, worlds, events, Effect(true, 0, Addr(0)));
    assert worlds[|events|].pc == DeleteState(TakenUnsaved);
    worlds, events := Then(s, worlds, events, Effect(true, 0, Addr(0)));
    worlds, events := Then(s, worlds, events, Effect(true, 0, Addr(0)));
  }

  const FIRST := Addr(0)
  const SECOND := Addr(1)
  const ONE_WORKER := Setting("a", 1, map[], {})

  // The sidecar with the control plane in it and the worker still to come.
  function WithControl(): State {
    State(Some(0), FIRST, [Node(None, SECOND)])
  }

  lemma ToFirstSave() returns (worlds: seq<World>, events: seq<Event>)
    ensures IsRun(ONE_WORKER, worlds, events)
    ensures worlds[|events|] == World(map[], {FIRST, SECOND}, 0, None, SaveFirst([FIRST, SECOND]))
  {
    worlds, events := [EMPTY], [];
    worlds, events := Then(ONE_WORKER, worlds, events, Provision([FIRST, SECOND]));
    worlds, events := Then(ONE_WORKER, worlds, events, Effect(true, 0, FIRST));
    assert [FIRST, SECOND][1..] == [SECOND] && [] + [FIRST] == [FIRST] && {} + {FIRST} == {FIRST};
    assert worlds[|events|] == World(map[], {FIRST}, 0, None, Reserve([SECOND], [FIRST]));
    worlds, events := Then(ONE_WORKER, worlds, events, Effect(true, 0, FIRST));
    assert [SECOND][1..] == [] && [FIRST] + [SECOND] == [FIRST, SECOND] && {FIRST} + {SECOND} == {FIRST, SECOND};
    worlds, events := Then(ONE_WORKER, worlds, events, Effect(true, 0, FIRST));
  }

  lemma ToControl() returns (worlds: seq<World>, events: seq<Event>)
    ensures IsRun(ONE_WORKER, worlds, events)
    ensures worlds[|events|]
         == World(map[0 := Server("a", FIRST)], {FIRST, SECOND}, 1, Some(WithControl()), CreateWorker(WithControl(), 0))
  {
    worlds, events := ToFirstSave();
    worlds, events := Then(ONE_WORKER, worlds, events, Effect(true, 0, FIRST));
    var st := State(None, FIRST, [Node(None, SECOND)]);
    assert [FIRST, SECOND][1..] == [SECOND] && AsNodes([SECOND]) == [Node(None, SECOND)];
    assert worlds[|events|] == World(map[], {FIRST, SECOND}, 0, Some(st), CreateControl(st));
    worlds, events := Then(ONE_WORKER, worlds, events, Effect(true, 0, FIRST));
    worlds, events := Then(ONE_WORKER, worlds, events, Effect(true, 0, FIRST));
  }

  lemma ToKilledWorker() returns (worlds: seq<World>, events: seq<Event>)
    ensures IsRun(ONE_WORKER, worlds, events)
    ensures var w := worlds[|events|];
            && w.servers.Keys == {0, 1} && w.servers[0].ip == FIRST && w.servers[1].ip == SECOND
            && w.sidecar == Some(WithControl()) && w.pc == Stopped(WorkerUnsaved(1))
  {
    worlds, events := ToControl();
    worlds, events := Then(ONE_WORKER, worlds, events, Effect(true, 0, FIRST));
    worlds, events := Then(ONE_WORKER, worlds, events, Kill);
  }

  lemma ControlIs()
    ensures ServerIds(WithControl()) == {0} && Addresses(WithControl()) == {FIRST, SECOND}
  {
    assert WithControl().workers[0] == Node(None, SECOND);
  }

  // A worker created and not saved when the provision is killed: the teardown
  // that follows succeeds and leaves it.
  lemma WorkerUnsavedWitness() returns (worlds: seq<World>, events: seq<Event>)
    ensures IsRun(ONE_WORKER, worlds, events) && worlds[|events|].pc.TornDown?
    ensures !Gone(ONE_WORKER, worlds[|events|]) && 1 in worlds[|events|].servers
  {
    worlds, events := ToKilledWorker();
    ControlIs();
    worlds, events := Then(ONE_WORKER, worlds, events, Teardown(true));
    assert worlds[|events|].pc == Destroy({0}, WorkerUnsaved(1));
    worlds, events := Then(ONE_WORKER, worlds, events, Effect(true, 0, FIRST));
    assert {0} - {0} == {};
    worlds, events := FreeAndDelete(worlds, events);
  }

  lemma FreeAndDelete(worlds: seq<World>, events: seq<Event>) returns (worlds': seq<World>, events': seq<Event>)
    requires IsRun(ONE_WORKER, worlds, events)
    requires var w := worlds[|events|];
             w.pc == Destroy({}, WorkerUnsaved(1)) && 1 in w.servers && w.sidecar == Some(WithControl())
    ensures IsRun(ONE_WORKER, worlds', events') && worlds'[|events'|].pc.TornDown? && 1 in worlds'[|events'|].servers
  {
    ControlIs();
    worlds', events' := Then(ONE_WORKER, worlds, events, Effect(true, 0, FIRST));
    assert worlds'[|events'|].pc == Free({FIRST, SECOND}, WorkerUnsaved(1));
    worlds', events' := Then(ONE_WORKER, worlds', events', Effect(true, 0, FIRST));
    assert {FIRST, SECOND} - {FIRST} == {SECOND};
    worlds', events' := Then(ONE_WORKER, worlds', events', Effect(true, 0, SECOND));
    assert {SECOND} - {SECOND} == {};
    assert worlds'[|events'|].pc == Free({}, WorkerUnsaved(1));
    worlds', events' := DeleteAll(worlds', events');
  }

  lemma DeleteAll(worlds: seq<World>, events: seq<Event>) returns (worlds': seq<World>, events': seq<Event>)
    requires IsRun(ONE_WORKER, worlds, events)
    requires worlds[|events|].pc == Free({}, WorkerUnsaved(1)) && 1 in worlds[|events|].servers
    ensures IsRun(ONE_WORKER, worlds', events') && worlds'[|events'|].pc.TornDown? && 1 in worlds'[|events'|].servers
  {
    worlds', events' := Then(ONE_WORKER, worlds, events, Effect(true, 0, FIRST));
    worlds', events' := Then(ONE_WORKER, worlds', events', Effect(true, 0, FIRST));
    worlds', events' := Then(ONE_WORKER, worlds', events', Effect(true, 0, FIRST));
  }
}
