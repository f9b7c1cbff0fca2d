/** pkg/dockerhost: configuration, state record, and the judgement on an
    existing guest. Times and durations are in seconds. */
module Guest {
  import opened Wrappers
  import Strings

  const HOUR := 3600
  const DAY := 24 * HOUR
  const MAX_MAX_AGE := 60 * DAY      // maxMaxAge
  const HARD_AGE_GRACE := 24 * HOUR  // hardAgeGrace
  const CERT_VALIDITY := 90 * DAY    // certValidity

  datatype Name = Name(text: string)

  datatype Network = Network(ifname: Name, guestAddress: Name, gateway: Name, dns: seq<Name>)

  datatype Forwards = Forwards(ssh: Name, docker: Name, buildkit: Name)

  datatype Pins = Pins(docker: Name, containerd: Name, buildkit: Name)

  // A defaulted configuration, its two durations parsed.
  datatype Config = Config(
    testForwards: Option<Forwards>,
    network: Network,
    memoryMB: int,
    cpus: int,
    diskSize: Name,
    idleTimeout: int,
    maxAge: int)

  // Of what Validate asks, the bound on the age.
  predicate Valid(c: Config) {
    c.maxAge <= MAX_MAX_AGE
  }

  // state.json
  datatype Record = Record(
    testForwards: Option<Forwards>,
    network: Option<Network>,
    memoryMB: int,
    cpus: int,
    diskSize: Name,
    idleTimeout: int,
    maxAge: int,
    createdAt: int,
    readyAt: Option<int>,
    bootedAt: Option<int>,
    certNotAfter: int,
    pins: Pins)

  function NewRecord(c: Config, pins: Pins, now: int): Record {
    Record(c.testForwards, if c.testForwards.None? then Some(c.network) else None,
           c.memoryMB, c.cpus, c.diskSize, c.idleTimeout, c.maxAge,
           now, None, None, now + CERT_VALIDITY, pins)
  }

  // ---------- drift ----------

  datatype Difference = NetworkMode | NetworkSettings | Size

  // strings.Join(dns, ",")
  function JoinComma(names: seq<Name>): string {
    if names == [] then ""
    else if |names| == 1 then names[0].text
    else names[0].text + [','] + JoinComma(names[1..])
  }

  function RecordedNetwork(r: Record): Network {
    r.network.GetOr(Network(Name(""), Name(""), Name(""), []))
  }

  predicate NetworkDiffers(a: Network, b: Network) {
    || a.ifname != b.ifname || a.guestAddress != b.guestAddress || a.gateway != b.gateway
    || JoinComma(a.dns) != JoinComma(b.dns)
  }

  function Drift(r: Record, c: Config): seq<Difference> {
    (if r.testForwards != c.testForwards then [NetworkMode] else [])
    + (if c.testForwards.None? && NetworkDiffers(RecordedNetwork(r), c.network) then [NetworkSettings] else [])
    + (if r.memoryMB != c.memoryMB || r.cpus != c.cpus || r.diskSize != c.diskSize then [Size] else [])
  }

  predicate PlainNames(names: seq<Name>) {
    forall i :: 0 <= i < |names| ==> names[i].text != "" && ',' !in names[i].text
  }

  // Resolver lists are compared joined; for addresses that is comparing them.
  lemma {:induction false} JoinCommaInjective(a: seq<Name>, b: seq<Name>)
    requires PlainNames(a) && PlainNames(b) && JoinComma(a) == JoinComma(b)
    ensures a == b
    decreases |a|
  {
    JoinedHasComma(a);
    JoinedHasComma(b);
    if |a| > 1 {
      Strings.FirstSegment(',', a[0].text, b[0].text, JoinComma(a[1..]), JoinComma(b[1..]));
      JoinCommaInjective(a[1..], b[1..]);
      assert a == [a[0]] + a[1..] && b == [b[0]] + b[1..];
    }
  }

  lemma JoinedHasComma(a: seq<Name>)
    requires PlainNames(a)
    ensures ',' in JoinComma(a) <==> |a| > 1
    ensures JoinComma(a) == "" <==> a == []
  {
    if |a| > 1 {
      assert JoinComma(a)[|a[0].text|] == ',';
    }
  }

  // With plain resolver lists, no drift means the guest was made with this
  // network mode, network and size.
  lemma NoDriftIff(r: Record, c: Config)
    requires PlainNames(RecordedNetwork(r).dns) && PlainNames(c.network.dns)
    ensures Drift(r, c) == [] <==>
              && r.testForwards == c.testForwards
              && (c.testForwards.None? ==> RecordedNetwork(r) == c.network)
              && r.memoryMB == c.memoryMB && r.cpus == c.cpus && r.diskSize == c.diskSize
  {
    if JoinComma(RecordedNetwork(r).dns) == JoinComma(c.network.dns) {
      JoinCommaInjective(RecordedNetwork(r).dns, c.network.dns);
    }
  }

  // ---------- decideExisting ----------

  datatype Verdict = Reuse | Restart | Replace

  function Decide(r: Record, c: Config, current: Pins, running: bool, now: int, busy: bool): Verdict {
    if r.readyAt.None? then Replace
    else if Drift(r, c) != [] then Replace
    else
      var age := now - r.createdAt;
      if age >= c.maxAge + HARD_AGE_GRACE then Replace
      else
        var soft := age >= c.maxAge || r.pins != current;
        if !running then (if soft then Replace else Restart)
        else if soft && !busy then Replace
        else Reuse
  }

  // A guest that is kept has certificates for more than 29 days from the
  // decision, whatever the clock did since it was made.
  lemma KeptGuestHasValidCertificates(r: Record, c: Config, current: Pins, running: bool, now: int, busy: bool)
    requires c.maxAge <= 60 * DAY && r.certNotAfter == r.createdAt + 90 * DAY
    requires Decide(r, c, current, running, now, busy) != Replace
    ensures r.certNotAfter - now > 29 * DAY
  {
  }

  // What a provision that keeps the guest writes back: the lease's limits.
  function Renewed(r: Record, c: Config): Record {
    r.(idleTimeout := c.idleTimeout, maxAge := c.maxAge)
  }

  lemma LeaseIsNoDrift(r: Record, lease: Config, c: Config)
    ensures Drift(Renewed(r, lease), c) == Drift(r, c)
  {
  }
}
