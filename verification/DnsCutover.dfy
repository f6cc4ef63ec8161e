/** The exact-host DNS cutover of scripts/beta/cloudflare.py: a write-ahead journal
    beside a DNS and tunnel provider.

    A run loads the journal from disk, edits its own copy and makes durable writes (journal
    saves, provider calls, the connector token file). A run is given a budget of durable
    writes and crashes when it is spent, so quantifying over budgets quantifies over crash
    points; a provider call whose answer is lost is a crash just after that call.
    No one else writes to the provider. */
module DnsCutover {
  import opened Common

  datatype Host = Beta | Demo | Portfolio

  const HOSTS: seq<Host> := [Beta, Demo, Portfolio]

  /** One value per exact host. */
  datatype PerHost<T> = PerHost(beta: T, demo: T, portfolio: T) {
    function At(h: Host): T {
      match h
      case Beta => beta
      case Demo => demo
      case Portfolio => portfolio
    }

    function With(h: Host, v: T): PerHost<T> {
      match h
      case Beta => this.(beta := v)
      case Demo => this.(demo := v)
      case Portfolio => this.(portfolio := v)
    }
  }

  /** Where a CNAME points: the tunnel with an id, or any other name. */
  datatype Target = Tunnel(id: nat) | Elsewhere(name: string)

  datatype Record = Record(id: nat, kind: string, target: Target, ttl: nat, proxied: bool,
                           comment: Option<string>, tags: Option<seq<string>>, settings: Option<string>)

  /** The fields that `cname` writes and `same_route` compares. */
  datatype Route = Route(kind: string, target: Target, ttl: nat, proxied: bool, comment: string)

  /** Ingress rules of the preview tunnel: none, the lone 404 default, the expected rules or any others. */
  datatype Ingress = Unset | Only404 | Expected | Foreign

  datatype TunnelState = TunnelState(id: nat, config: Ingress)

  /** `newConfig` is the configuration the provider reports for a tunnel it has just created;
      `posts` and `tunnelPosts` count creation calls since the inventory. `guarded` says that the apex, the
      wildcard and the legacy tunnel are still as recorded. */
  datatype Provider = Provider(guarded: bool, dns: PerHost<seq<Record>>, tunnels: seq<TunnelState>, nextId: nat,
                               posts: PerHost<nat>, tunnelPosts: nat, newConfig: Ingress)

  datatype Phase = Inventoried | Prepared | CutOver | Reversed

  datatype Pending = Idle | CreateTunnel | ConfigureTunnel | CutoverOf(host: Host) | ReverseOf(host: Host)

  datatype Action =
    | CreatedTunnel(tunnel: nat) | ConfiguredTunnel
    | DidCutover(host: Host, record: nat) | CreatedRecord(host: Host, record: nat)
    | RemovedRecord(host: Host, record: nat) | ReversedBeta(record: nat)

  /** `base` is the one beta record captured by inventory, which refuses unless there is
      exactly one and both siblings have none. */
  datatype Journal = Journal(base: Record, tunnelName: string, tunnelId: Option<nat>, phase: Phase, pending: Pending,
                             created: PerHost<Option<nat>>, actions: seq<Action>)

  /** Everything that survives a crash. */
  datatype World = World(disk: Journal, net: Provider, token: Option<nat>)

  datatype Status = Live | Done | Refused | Crashed

  datatype Run = Run(world: World, mem: Journal, budget: nat, status: Status)

  datatype Command = Prepare | Cutover(ready: bool) | Reverse

  // ----- durable writes -----

  function Start(w: World, budget: nat): Run {
    Run(w, w.disk, budget, Live)
  }

  function Refuse(r: Run): Run {
    if r.status.Live? then r.(status := Refused) else r
  }

  function Durable(r: Run, w: World): Run {
    if !r.status.Live? then r
    else if r.budget == 0 then r.(status := Crashed)
    else r.(world := w, budget := r.budget - 1)
  }

  /** save_journal after editing the in-memory journal. */
  function Save(r: Run, j: Journal): Run {
    Durable(r.(mem := j), r.world.(disk := j))
  }

  function WriteNet(r: Run, net: Provider): Run {
    Durable(r, r.world.(net := net))
  }

  function LogAction(r: Run, j: Journal, a: Action): Run {
    Save(r, j.(actions := j.actions + [a], pending := Idle))
  }

  // ----- pure comparisons -----

  function Cname(j: Journal, tunnel: nat): Route {
    Route("CNAME", Tunnel(tunnel), 1, true, "hostlet-m35-preview:" + j.tunnelName)
  }

  predicate SameRoute(r: Record, want: Route) {
    && r.kind == want.kind && r.target == want.target && r.ttl == want.ttl
    && r.proxied == want.proxied && r.comment == Some(want.comment)
  }

  predicate MatchesBaseline(actual: Record, baseline: Record) {
    (if baseline.comment.None? && actual.comment == Some("") then actual.(comment := None) else actual) == baseline
  }

  function PatchRoute(r: Record, want: Route): Record {
    r.(kind := want.kind, target := want.target, ttl := want.ttl, proxied := want.proxied, comment := Some(want.comment))
  }

  /** The PATCH body of reverse drops null fields, and clears a null comment with "". */
  function PatchRestore(r: Record, base: Record): Record {
    Record(r.id, base.kind, base.target, base.ttl, base.proxied,
           if base.comment.None? then Some("") else base.comment,
           if base.tags.None? then r.tags else base.tags,
           if base.settings.None? then r.settings else base.settings)
  }

  function RouteRecord(id: nat, want: Route): Record {
    Record(id, want.kind, want.target, want.ttl, want.proxied, Some(want.comment), None, None)
  }

  function PatchById(rs: seq<Record>, id: nat, patch: Record -> Record): (out: seq<Record>)
    ensures |out| == |rs|
    ensures forall i :: 0 <= i < |rs| ==> out[i] == if rs[i].id == id then patch(rs[i]) else rs[i]
  {
    seq(|rs|, i requires 0 <= i < |rs| => if rs[i].id == id then patch(rs[i]) else rs[i])
  }

  function DeleteById(rs: seq<Record>, id: nat): (out: seq<Record>)
    ensures |rs| == 1 && rs[0].id == id ==> out == []
    ensures forall r :: r in out <==> r in rs && r.id != id
  {
    if rs == [] then []
    else if rs[0].id == id then DeleteById(rs[1..], id)
    else [rs[0]] + DeleteById(rs[1..], id)
  }

  predicate HasCutover(j: Journal) {
    exists i :: 0 <= i < |j.actions| && j.actions[i].DidCutover? && j.actions[i].host == Beta
  }

  // ----- cutover -----

  predicate TunnelOwned(w: World) {
    w.disk.tunnelId.Some? && exists i :: 0 <= i < |w.net.tunnels| && w.net.tunnels[i].id == w.disk.tunnelId.value
  }

  /** The configuration of a tunnel by id, as the provider reports it. */
  function ConfigOf(ts: seq<TunnelState>, id: nat): Ingress {
    if ts == [] then Unset else if ts[0].id == id then ts[0].config else ConfigOf(ts[1..], id)
  }

  function CutoverBeta(r: Run, want: Route): Run {
    var j, rs := r.mem, r.world.net.dns.beta;
    if |rs| != 1 || rs[0].id != j.base.id then Refuse(r)
    else if SameRoute(rs[0], want) then
      if j.pending == CutoverOf(Beta) then LogAction(r, j, DidCutover(Beta, j.base.id))
      else if j.phase == Reversed || !HasCutover(j) then Refuse(r)
      else r
    else if !MatchesBaseline(rs[0], j.base) then Refuse(r)
    else
      var r1 := Save(r, j.(pending := CutoverOf(Beta)));
      var r2 := WriteNet(r1, r1.world.net.(dns := r1.world.net.dns.(beta := PatchById(rs, j.base.id, x => PatchRoute(x, want)))));
      var after := r2.world.net.dns.beta;
      if |after| != 1 || after[0].id != j.base.id || !SameRoute(after[0], want) then Refuse(r2)
      else LogAction(r2, r2.mem, DidCutover(Beta, j.base.id))
  }

  /** Announce, create, record, read back and log the record of a sibling that has none. */
  function CreateSibling(r: Run, h: Host, want: Route): Run {
    var r1 := Save(r, r.mem.(pending := CutoverOf(h)));
    var net := r1.world.net;
    var id := net.nextId;
    var r2 := WriteNet(r1, net.(dns := net.dns.With(h, r.world.net.dns.At(h) + [RouteRecord(id, want)]), nextId := id + 1,
                                posts := net.posts.With(h, net.posts.At(h) + 1)));
    var r3 := Save(r2, r2.mem.(created := r2.mem.created.With(h, Some(id))));
    var after := r3.world.net.dns.At(h);
    if |after| != 1 || after[0].id != id || !SameRoute(after[0], want) then Refuse(r3)
    else LogAction(r3, r3.mem, CreatedRecord(h, id))
  }

  function CutoverSibling(r: Run, h: Host, want: Route): Run {
    var j, rs := r.mem, r.world.net.dns.At(h);
    var recorded := j.created.At(h);
    if rs != [] then
      if |rs| != 1 || !SameRoute(rs[0], want) || (recorded.Some? && rs[0].id != recorded.value)
         || (recorded.None? && j.pending != CutoverOf(h)) then Refuse(r)
      else if recorded.None? then
        LogAction(r, j.(created := j.created.With(h, Some(rs[0].id))), CreatedRecord(h, rs[0].id))
      else r
    else if recorded.Some? then Refuse(r)
    else CreateSibling(r, h, want)
  }

  function CutoverHost(r: Run, h: Host): Run {
    if !r.status.Live? || r.mem.tunnelId.None? then r
    else if !r.world.net.guarded then Refuse(r)
    else if h.Beta? then CutoverBeta(r, Cname(r.mem, r.mem.tunnelId.value))
    else CutoverSibling(r, h, Cname(r.mem, r.mem.tunnelId.value))
  }

  function CutoverHosts(r: Run, hosts: seq<Host>): Run
    decreases |hosts|
  {
    if hosts == [] then r else CutoverHosts(CutoverHost(r, hosts[0]), hosts[1..])
  }

  /** Save the new phase and report success. */
  function Finish(r: Run, phase: Phase): Run {
    var out := Save(r, r.mem.(phase := phase));
    if out.status.Live? then out.(status := Done) else out
  }

  predicate CutoverAllowed(w: World, ready: bool) {
    && w.disk.phase in {Prepared, CutOver, Reversed} && ready && TunnelOwned(w)
    && ConfigOf(w.net.tunnels, w.disk.tunnelId.value) == Expected
  }

  function RunCutover(w: World, ready: bool, budget: nat): Run {
    if !CutoverAllowed(w, ready) then Refuse(Start(w, budget))
    else Finish(CutoverHosts(Start(w, budget), HOSTS), CutOver)
  }

  // ----- reverse -----

  function ReverseSibling(r: Run, h: Host, want: Route): Run {
    var rs := r.world.net.dns.At(h);
    var adopt := |rs| == 1 && r.mem.created.At(h).None? && r.mem.pending == CutoverOf(h) && SameRoute(rs[0], want);
    var r0 := if adopt then LogAction(r, r.mem.(created := r.mem.created.With(h, Some(rs[0].id))), CreatedRecord(h, rs[0].id)) else r;
    var j := r0.mem;
    var rid := j.created.At(h);
    if rs == [] then
      if rid.None? then r0
      else if j.pending != ReverseOf(h) then Refuse(r0)
      else LogAction(r0, j.(created := j.created.With(h, None)), RemovedRecord(h, rid.value))
    else if |rs| != 1 || rid.None? || rs[0].id != rid.value || !SameRoute(rs[0], want) then Refuse(r0)
    else
      var r1 := Save(r0, j.(pending := ReverseOf(h)));
      var net := r1.world.net;
      var r2 := WriteNet(r1, net.(dns := net.dns.With(h, DeleteById(rs, rid.value))));
      if r2.world.net.dns.At(h) != [] then Refuse(r2)
      else LogAction(r2, r2.mem.(created := r2.mem.created.With(h, None)), RemovedRecord(h, rid.value))
  }

  function ReverseBeta(r: Run, want: Route): Run {
    var j, rs := r.mem, r.world.net.dns.beta;
    if |rs| != 1 || rs[0].id != j.base.id then Refuse(r)
    else if MatchesBaseline(rs[0], j.base) then
      if j.pending == ReverseOf(Beta) then LogAction(r, j, ReversedBeta(j.base.id))
      else if j.phase == CutOver then Refuse(r)
      else r
    else if !SameRoute(rs[0], want) then Refuse(r)
    else
      var r1 := Save(r, j.(pending := ReverseOf(Beta)));
      var net := r1.world.net;
      var r2 := WriteNet(r1, net.(dns := net.dns.(beta := PatchById(rs, j.base.id, x => PatchRestore(x, j.base)))));
      var after := r2.world.net.dns.beta;
      if |after| != 1 || !MatchesBaseline(after[0], j.base) then Refuse(r2)
      else LogAction(r2, r2.mem, ReversedBeta(j.base.id))
  }

  function ReverseHost(r: Run, h: Host): Run {
    if !r.status.Live? || r.mem.tunnelId.None? then r
    else if !r.world.net.guarded then Refuse(r)
    else if h.Beta? then ReverseBeta(r, Cname(r.mem, r.mem.tunnelId.value))
    else ReverseSibling(r, h, Cname(r.mem, r.mem.tunnelId.value))
  }

  /** Hosts in reverse order: the last element of `hosts` first. */
  function ReverseHosts(r: Run, hosts: seq<Host>): Run
    decreases |hosts|
  {
    if hosts == [] then r else ReverseHosts(ReverseHost(r, hosts[|hosts| - 1]), hosts[..|hosts| - 1])
  }

  predicate ReverseAllowed(w: World) {
    w.disk.phase in {Prepared, CutOver, Reversed} && TunnelOwned(w)
  }

  function RunReverse(w: World, budget: nat): Run {
    if !ReverseAllowed(w) then Refuse(Start(w, budget))
    else Finish(ReverseHosts(Start(w, budget), HOSTS), Reversed)
  }

  // ----- prepare -----

  /** Record the tunnel, creating it when the provider has none of that name. */
  function EnsureTunnel(r: Run): Run {
    var j, net := r.mem, r.world.net;
    if |net.tunnels| > 1 then Refuse(r)
    else if j.tunnelId.Some? then r
    else if net.tunnels != [] then
      if j.pending != CreateTunnel then Refuse(r)
      else
        var r1 := Save(r, j.(tunnelId := Some(net.tunnels[0].id)));
        LogAction(r1, r1.mem, CreatedTunnel(net.tunnels[0].id))
    else
      var r1 := Save(r, j.(pending := CreateTunnel));
      var id := net.nextId;
      var r2 := WriteNet(r1, net.(tunnels := net.tunnels + [TunnelState(id, net.newConfig)], nextId := id + 1,
                                  tunnelPosts := net.tunnelPosts + 1));
      var r3 := Save(r2, r2.mem.(tunnelId := Some(id)));
      LogAction(r3, r3.mem, CreatedTunnel(id))
  }

  function Configure(ts: seq<TunnelState>, id: nat): (out: seq<TunnelState>)
    ensures |out| == |ts|
    ensures forall i :: 0 <= i < |ts| ==> out[i] == if ts[i].id == id then TunnelState(id, Expected) else ts[i]
  {
    seq(|ts|, i requires 0 <= i < |ts| => if ts[i].id == id then TunnelState(id, Expected) else ts[i])
  }

  function EnsureIngress(r: Run): Run {
    if !r.status.Live? then r
    else if r.mem.tunnelId.None? || !TunnelOwned(r.world) then Refuse(r)
    else
      var j, net, id := r.mem, r.world.net, r.mem.tunnelId.value;
      var current := ConfigOf(net.tunnels, id);
      if current != Expected then
        if (j.pending == ConfigureTunnel && current != Unset) || current == Foreign then Refuse(r)
        else
          var r1 := Save(r, j.(pending := ConfigureTunnel));
          var r2 := WriteNet(r1, net.(tunnels := Configure(net.tunnels, id)));
          if ConfigOf(r2.world.net.tunnels, id) != Expected then Refuse(r2)
          else LogAction(r2, r2.mem, ConfiguredTunnel)
      else if j.pending == ConfigureTunnel then LogAction(r, j, ConfiguredTunnel)
      else if ConfiguredTunnel !in j.actions then Refuse(r)
      else r
  }

  /** The connector token of a tunnel stands for the tunnel id. */
  function EnsureToken(r: Run): Run {
    if !r.status.Live? || r.mem.tunnelId.None? then r
    else if r.world.token.None? then Durable(r, r.world.(token := r.mem.tunnelId))
    else if r.world.token != r.mem.tunnelId then Refuse(r)
    else r
  }

  predicate AtBaseline(w: World) {
    && |w.net.dns.beta| == 1 && MatchesBaseline(w.net.dns.beta[0], w.disk.base)
    && w.net.dns.demo == [] && w.net.dns.portfolio == []
  }

  function RunPrepare(w: World, budget: nat): Run {
    if w.disk.phase !in {Inventoried, Prepared} || !w.net.guarded || !AtBaseline(w) then Refuse(Start(w, budget))
    else Finish(EnsureToken(EnsureIngress(EnsureTunnel(Start(w, budget)))), Prepared)
  }

  function RunCommand(w: World, c: Command, budget: nat): Run {
    match c
    case Prepare => RunPrepare(w, budget)
    case Cutover(ready) => RunCutover(w, ready, budget)
    case Reverse => RunReverse(w, budget)
  }

  /** What a sequence of runs leaves behind, each with its own crash point. */
  function RunAll(w: World, script: seq<(Command, nat)>): World
    decreases |script|
  {
    if script == [] then w
    else RunAll(RunCommand(w, script[0].0, script[0].1).world, script[1..])
  }
}
