/** What every crashed or finished run of the DNS cutover keeps, and what an uninterrupted
    run achieves. */
module DnsSafety {
  import opened Common
  import opened DnsCutover

  ghost predicate OnTunnel(j: Journal, n: Provider) {
    j.tunnelId.Some? && |n.dns.beta| == 1 && SameRoute(n.dns.beta[0], Cname(j, j.tunnelId.value))
  }

  ghost predicate OffTunnel(j: Journal, n: Provider) {
    |n.dns.beta| == 1 && MatchesBaseline(n.dns.beta[0], j.base)
  }

  ghost predicate Present(n: Provider, h: Host) {
    n.dns.At(h) != []
  }

  ghost predicate Recorded(j: Journal, h: Host) {
    j.created.At(h).Some?
  }

  ghost predicate SiblingsGone(j: Journal, n: Provider) {
    !Present(n, Demo) && !Recorded(j, Demo) && !Present(n, Portfolio) && !Recorded(j, Portfolio)
  }

  ghost predicate BetaOk(j: Journal, n: Provider) {
    && |n.dns.beta| == 1 && n.dns.beta[0].id == j.base.id
    && (OnTunnel(j, n) || OffTunnel(j, n))
    && n.dns.beta[0].tags == j.base.tags && n.dns.beta[0].settings == j.base.settings
  }

  ghost predicate SiblingOk(j: Journal, n: Provider, h: Host) {
    && |n.dns.At(h)| <= 1
    && (Present(n, h) ==> j.tunnelId.Some? && SameRoute(n.dns.At(h)[0], Cname(j, j.tunnelId.value)))
    && (Present(n, h) || Recorded(j, h) ==> OnTunnel(j, n))
    && (Present(n, h) && !Recorded(j, h) ==> j.pending == CutoverOf(h))
    && (!Present(n, h) && Recorded(j, h) ==> j.pending == ReverseOf(h))
    && (Present(n, h) && Recorded(j, h) ==> n.dns.At(h)[0].id == j.created.At(h).value)
  }

  /** The portfolio record exists only between creation and removal of the demo record. */
  ghost predicate ChainOk(j: Journal, n: Provider) {
    Present(n, Portfolio) || Recorded(j, Portfolio) ==> Present(n, Demo) && Recorded(j, Demo)
  }

  /** Ids are never reused: everything the journal or the baseline names was allocated before. */
  ghost predicate IdsOk(j: Journal, n: Provider) {
    && (j.base.target.Tunnel? ==> j.base.target.id < n.nextId)
    && (forall t :: t in n.tunnels ==> t.id < n.nextId && j.base.target != Tunnel(t.id))
  }

  ghost predicate TunnelOk(j: Journal, n: Provider) {
    && n.guarded && |n.tunnels| <= 1 && n.tunnelPosts == |n.tunnels|
    && n.newConfig in {Unset, Only404}
    && (j.tunnelId.Some? ==> |n.tunnels| == 1 && n.tunnels[0].id == j.tunnelId.value)
    && (j.tunnelId.None? ==> j.phase == Inventoried && (n.tunnels != [] ==> j.pending == CreateTunnel))
    && (n.tunnels != [] && n.tunnels[0].config == Expected ==> j.pending == ConfigureTunnel || ConfiguredTunnel in j.actions)
    && (n.tunnels != [] && n.tunnels[0].config != Expected ==> n.tunnels[0].config == n.newConfig && j.phase == Inventoried)
    && (j.pending == ConfigureTunnel ==> j.tunnelId.Some?)
    && (j.pending == CreateTunnel && n.tunnels != [] ==> n.tunnels[0].config != Expected)
  }

  ghost predicate PhaseOk(j: Journal, n: Provider) {
    if j.phase == Inventoried then
      && OffTunnel(j, n) && j.pending in {Idle, CreateTunnel, ConfigureTunnel}
    else j.pending != CreateTunnel && j.pending != ConfigureTunnel && ConfiguredTunnel in j.actions
  }

  ghost predicate Inv(j: Journal, n: Provider) {
    && BetaOk(j, n) && SiblingOk(j, n, Demo) && SiblingOk(j, n, Portfolio)
    && ChainOk(j, n) && IdsOk(j, n) && TunnelOk(j, n) && PhaseOk(j, n)
  }

  ghost predicate WorldInv(w: World) {
    && Inv(w.disk, w.net)
    && (w.token.Some? ==> w.token == w.disk.tunnelId)
  }

  /** Holds between two hosts of a loop. */
  ghost predicate Settled(r: Run) {
    && WorldInv(r.world) && r.world.disk.phase != Inventoried
    && (r.status.Live? ==> r.mem == r.world.disk)
  }

  /** A fresh inventory: nothing created, the beta record and the guards as captured. A tunnel the
      provider has just created reports no rules, or the 404 default. */
  ghost predicate FreshInventory(w: World) {
    && w.disk.phase == Inventoried && w.disk.tunnelId.None? && w.disk.pending == Idle
    && w.disk.created == PerHost(None, None, None) && w.disk.actions == []
    && |w.net.dns.beta| == 1 && MatchesBaseline(w.net.dns.beta[0], w.disk.base)
    && w.net.dns.demo == [] && w.net.dns.portfolio == []
    && w.net.tunnels == [] && w.net.tunnelPosts == 0 && w.net.posts == PerHost(0, 0, 0)
    && w.net.guarded && w.net.newConfig in {Unset, Only404}
    && (w.disk.base.target.Tunnel? ==> w.disk.base.target.id < w.net.nextId)
    && w.token.None?
  }

  lemma FreshInventoryHolds(w: World)
    requires FreshInventory(w)
    ensures WorldInv(w)
  {
  }

  // ----- one host at a time -----

  lemma OffExcludesOn(j: Journal, n: Provider)
    requires Inv(j, n) && j.tunnelId.Some?
    ensures OffTunnel(j, n) <==> !OnTunnel(j, n)
    ensures OffTunnel(j, n) ==> SiblingsGone(j, n)
  {
    assert n.tunnels[0] in n.tunnels;
  }

  /** Announcing a change of beta, in either direction. */
  lemma MarkBeta(j: Journal, n: Provider, p: Pending)
    requires Inv(j, n) && j.phase != Inventoried && SiblingsGone(j, n) && p in {CutoverOf(Beta), ReverseOf(Beta)}
    ensures Inv(j.(pending := p), n)
  {
  }

  lemma LogBeta(j: Journal, n: Provider, a: Action)
    requires Inv(j, n) && j.phase != Inventoried && (SiblingsGone(j, n) || j.pending in {CutoverOf(Beta), ReverseOf(Beta)})
    ensures Inv(j.(actions := j.actions + [a], pending := Idle), n)
  {
  }

  function BetaPatched(n: Provider, id: nat, patch: Record -> Record): Provider {
    n.(dns := n.dns.(beta := PatchById(n.dns.beta, id, patch)))
  }

  lemma RouteBeta(j: Journal, n: Provider)
    requires Inv(j, n) && j.phase != Inventoried && j.tunnelId.Some? && SiblingsGone(j, n)
    ensures var n' := BetaPatched(n, j.base.id, x => PatchRoute(x, Cname(j, j.tunnelId.value)));
            Inv(j, n') && OnTunnel(j, n') && SiblingsGone(j, n')
  {
  }

  lemma RestoreBeta(j: Journal, n: Provider)
    requires Inv(j, n) && j.phase != Inventoried && SiblingsGone(j, n)
    ensures var n' := BetaPatched(n, j.base.id, x => PatchRestore(x, j.base));
            Inv(j, n') && OffTunnel(j, n') && SiblingsGone(j, n')
  {
  }

  lemma CutoverBetaKeeps(r: Run)
    requires Settled(r) && r.status.Live?
    ensures var out := CutoverHost(r, Beta);
            Settled(out) && (out.status.Live? ==> OnTunnel(out.mem, out.world.net))
  {
    var j, n := r.mem, r.world.net;
    assert j.tunnelId.Some? && BetaOk(j, n);
    OffExcludesOn(j, n);
    hide Inv, SiblingsGone, IdsOk, TunnelOk, PhaseOk, ChainOk, SiblingOk, HasCutover;
    var want := Cname(j, j.tunnelId.value);
    if OnTunnel(j, n) {
      if j.pending == CutoverOf(Beta) {
        LogBeta(j, n, DidCutover(Beta, j.base.id));
      }
    } else {
      hide SameRoute, MatchesBaseline;
      MarkBeta(j, n, CutoverOf(Beta));
      var j1 := j.(pending := CutoverOf(Beta));
      assert SiblingsGone(j1, n) by {
        GoneIgnoresPending(j, n, CutoverOf(Beta));
      }
      RouteBeta(j1, n);
      var n1 := BetaPatched(n, j.base.id, x => PatchRoute(x, want));
      LogBeta(j1, n1, DidCutover(Beta, j.base.id));
    }
  }

  lemma GoneIgnoresPending(j: Journal, n: Provider, p: Pending)
    ensures SiblingsGone(j.(pending := p), n) == SiblingsGone(j, n)
  {
  }

  /** The four durable writes of one sibling, each taken alone. */
  ghost predicate Turn(j: Journal, n: Provider, h: Host) {
    && Inv(j, n) && j.phase != Inventoried && h != Beta && OnTunnel(j, n)
    && (h == Portfolio ==> Present(n, Demo) && Recorded(j, Demo))
  }

  lemma MarkCreation(j: Journal, n: Provider, h: Host)
    requires Turn(j, n, h) && !Present(n, h) && !Recorded(j, h)
    ensures Turn(j.(pending := CutoverOf(h)), n, h)
  {
  }

  function Posted(n: Provider, h: Host, want: Route): Provider {
    n.(dns := n.dns.With(h, n.dns.At(h) + [RouteRecord(n.nextId, want)]), nextId := n.nextId + 1,
       posts := n.posts.With(h, n.posts.At(h) + 1))
  }

  lemma CreateSibling(j: Journal, n: Provider, h: Host)
    requires Turn(j, n, h) && !Present(n, h) && !Recorded(j, h) && j.pending == CutoverOf(h)
    ensures var n' := Posted(n, h, Cname(j, j.tunnelId.value));
            Turn(j, n', h) && Present(n', h) && n'.dns.At(h)[0].id == n.nextId
  {
    assert n.dns.At(h) + [RouteRecord(n.nextId, Cname(j, j.tunnelId.value))] == [RouteRecord(n.nextId, Cname(j, j.tunnelId.value))];
  }

  lemma RecordSibling(j: Journal, n: Provider, h: Host)
    requires Turn(j, n, h) && Present(n, h) && !Recorded(j, h)
    ensures var j' := j.(created := j.created.With(h, Some(n.dns.At(h)[0].id)));
            Turn(j', n, h) && Recorded(j', h)
  {
  }

  /** Logging clears `pending`, which is sound once the host at hand is in step with the provider. */
  lemma LogSibling(j: Journal, n: Provider, h: Host, a: Action)
    requires Turn(j, n, h) && Present(n, h) == Recorded(j, h)
    requires j.pending == CutoverOf(h) || j.pending == ReverseOf(h)
    ensures var j' := j.(actions := j.actions + [a], pending := Idle); Turn(j', n, h)
  {
  }

  lemma CreateKeeps(r: Run, h: Host)
    requires Settled(r) && r.status.Live? && Turn(r.mem, r.world.net, h)
    requires !Present(r.world.net, h) && !Recorded(r.mem, h)
    ensures var out := CutoverHost(r, h);
            Settled(out) && (out.status.Live? ==>
              Turn(out.mem, out.world.net, h) && Present(out.world.net, h) && Recorded(out.mem, h))
  {
    var j, net := r.mem, r.world.net;
    var want, id := Cname(j, j.tunnelId.value), net.nextId;
    var j1, n1 := j.(pending := CutoverOf(h)), Posted(net, h, want);
    var j2 := j1.(created := j1.created.With(h, Some(id)));
    MarkCreation(j, net, h);
    CreateSibling(j1, net, h);
    RecordSibling(j1, n1, h);
    LogSibling(j2, n1, h, CreatedRecord(h, id));
    assert n1.dns.At(h) == [RouteRecord(id, want)] && SameRoute(n1.dns.At(h)[0], want);
    hide Inv, BetaOk, SiblingOk, ChainOk, IdsOk, TunnelOk, PhaseOk, SameRoute, OnTunnel;
    var r1 := Save(r, j1);
    assert net.dns.At(h) == [];
    if r1.status.Live? {
      var r2 := WriteNet(r1, n1);
      if r2.status.Live? {
        var r3 := Save(r2, j2);
        assert CutoverHost(r, h) == LogAction(r3, r3.mem, CreatedRecord(h, id));
      }
    }
  }

  lemma CutoverSiblingKeeps(r: Run, h: Host)
    requires Settled(r) && r.status.Live? && Turn(r.mem, r.world.net, h)
    ensures var out := CutoverHost(r, h);
            Settled(out) && (out.status.Live? ==>
              Turn(out.mem, out.world.net, h) && Present(out.world.net, h) && Recorded(out.mem, h))
  {
    var j, net := r.mem, r.world.net;
    if Present(net, h) {
      if !Recorded(j, h) {
        RecordSibling(j, net, h);
        var id := net.dns.At(h)[0].id;
        LogSibling(j.(created := j.created.With(h, Some(id))), net, h, CreatedRecord(h, id));
      }
    } else if !Recorded(j, h) {
      CreateKeeps(r, h);
    }
  }

  lemma MarkRemoval(j: Journal, n: Provider, h: Host)
    requires Inv(j, n) && j.phase != Inventoried && h != Beta && Present(n, h) && Recorded(j, h)
    requires h == Demo ==> !Present(n, Portfolio) && !Recorded(j, Portfolio)
    ensures Inv(j.(pending := ReverseOf(h)), n)
  {
  }

  function Deleted(n: Provider, h: Host, id: nat): Provider {
    n.(dns := n.dns.With(h, DeleteById(n.dns.At(h), id)))
  }

  lemma DeleteSibling(j: Journal, n: Provider, h: Host)
    requires Inv(j, n) && j.phase != Inventoried && h != Beta && Present(n, h) && Recorded(j, h)
    requires h == Demo ==> !Present(n, Portfolio) && !Recorded(j, Portfolio)
    requires j.pending == ReverseOf(h)
    ensures var n' := Deleted(n, h, j.created.At(h).value); Inv(j, n') && !Present(n', h)
  {
  }

  lemma ForgetSibling(j: Journal, n: Provider, h: Host, a: Action)
    requires Inv(j, n) && j.phase != Inventoried && h != Beta && !Present(n, h) && Recorded(j, h)
    requires h == Demo ==> !Present(n, Portfolio) && !Recorded(j, Portfolio)
    ensures Inv(j.(created := j.created.With(h, None), actions := j.actions + [a], pending := Idle), n)
  {
  }

  lemma RemoveKeeps(r: Run, h: Host)
    requires Settled(r) && r.status.Live? && h != Beta
    requires h == Demo ==> !Present(r.world.net, Portfolio) && !Recorded(r.mem, Portfolio)
    requires Present(r.world.net, h) && Recorded(r.mem, h)
    ensures var out := ReverseHost(r, h);
            Settled(out) && (out.status.Live? ==>
              && !Present(out.world.net, h) && !Recorded(out.mem, h)
              && (h == Demo ==> !Present(out.world.net, Portfolio) && !Recorded(out.mem, Portfolio)))
  {
    var j, net := r.mem, r.world.net;
    var rid := j.created.At(h).value;
    var j1, n1 := j.(pending := ReverseOf(h)), Deleted(net, h, rid);
    MarkRemoval(j, net, h);
    DeleteSibling(j1, net, h);
    ForgetSibling(j1, n1, h, RemovedRecord(h, rid));
    assert j.tunnelId.Some? && SiblingOk(j, net, h);
    assert |net.dns.At(h)| == 1 && net.dns.At(h)[0].id == rid && SameRoute(net.dns.At(h)[0], Cname(j, j.tunnelId.value));
    hide Inv, BetaOk, SiblingOk, ChainOk, IdsOk, TunnelOk, PhaseOk, SameRoute, OnTunnel;
  }

  lemma ReverseSiblingKeeps(r: Run, h: Host)
    requires Settled(r) && r.status.Live? && h != Beta
    requires h == Demo ==> !Present(r.world.net, Portfolio) && !Recorded(r.mem, Portfolio)
    ensures var out := ReverseHost(r, h);
            Settled(out) && (out.status.Live? ==>
              && !Present(out.world.net, h) && !Recorded(out.mem, h)
              && (h == Demo ==> !Present(out.world.net, Portfolio) && !Recorded(out.mem, Portfolio)))
  {
    var j, net := r.mem, r.world.net;
    if Present(net, h) && Recorded(j, h) {
      RemoveKeeps(r, h);
    } else if Present(net, h) {
      var id := net.dns.At(h)[0].id;
      assert j.tunnelId.Some? && SiblingOk(j, net, h);
      RecordSibling(j, net, h);
      LogSibling(j.(created := j.created.With(h, Some(id))), net, h, CreatedRecord(h, id));
      hide Inv, BetaOk, SiblingOk, ChainOk, IdsOk, TunnelOk, PhaseOk;
      var r0 := LogAction(r, j.(created := j.created.With(h, Some(id))), CreatedRecord(h, id));
      if r0.status.Live? {
        RemoveKeeps(r0, h);
        assert ReverseHost(r, h) == ReverseHost(r0, h);
      }
    } else if Recorded(j, h) {
      ForgetSibling(j, net, h, RemovedRecord(h, j.created.At(h).value));
    }
  }

  lemma ReverseBetaKeeps(r: Run)
    requires Settled(r) && r.status.Live?
    requires SiblingsGone(r.mem, r.world.net)
    ensures var out := ReverseHost(r, Beta);
            Settled(out) && (out.status.Live? ==>
              OffTunnel(out.mem, out.world.net) && SiblingsGone(out.mem, out.world.net))
  {
    var j, n := r.mem, r.world.net;
    assert j.tunnelId.Some? && BetaOk(j, n);
    OffExcludesOn(j, n);
    hide Inv, IdsOk, TunnelOk, PhaseOk, ChainOk, SiblingOk;
    if OffTunnel(j, n) {
      if j.pending == ReverseOf(Beta) {
        LogBeta(j, n, ReversedBeta(j.base.id));
      }
    } else {
      hide SameRoute, MatchesBaseline;
      MarkBeta(j, n, ReverseOf(Beta));
      var j1 := j.(pending := ReverseOf(Beta));
      RestoreBeta(j1, n);
      var n1 := BetaPatched(n, j.base.id, x => PatchRestore(x, j.base));
      LogBeta(j1, n1, ReversedBeta(j.base.id));
    }
  }

  // ----- whole runs -----

  lemma CutoverUnrolled(r: Run)
    ensures CutoverHosts(r, HOSTS) == CutoverHost(CutoverHost(CutoverHost(r, Beta), Demo), Portfolio)
  {
    assert HOSTS[1..] == [Demo, Portfolio] && HOSTS[1..][1..] == [Portfolio] && HOSTS[1..][1..][1..] == [];
  }

  lemma ReverseUnrolled(r: Run)
    ensures ReverseHosts(r, HOSTS) == ReverseHost(ReverseHost(ReverseHost(r, Portfolio), Demo), Beta)
  {
    assert HOSTS[..2] == [Beta, Demo];
    assert [Beta, Demo][..1] == [Beta];
    var r1, r2 := ReverseHost(r, Portfolio), ReverseHost(ReverseHost(r, Portfolio), Demo);
    assert ReverseHosts(r, HOSTS) == ReverseHosts(r1, [Beta, Demo]);
    assert ReverseHosts(r1, [Beta, Demo]) == ReverseHosts(r2, [Beta]);
    assert ReverseHosts(r2, [Beta]) == ReverseHosts(ReverseHost(r2, Beta), []);
  }

  lemma FinishKeeps(r: Run, phase: Phase)
    requires Settled(r) && phase != Inventoried
    ensures WorldInv(Finish(r, phase).world)
  {
  }

  lemma CutoverKeeps(w: World, ready: bool, budget: nat)
    requires WorldInv(w)
    ensures WorldInv(RunCutover(w, ready, budget).world)
  {
    if CutoverAllowed(w, ready) {
      var r := Start(w, budget);
      CutoverUnrolled(r);
      CutoverBetaKeeps(r);
      var r1 := CutoverHost(r, Beta);
      if r1.status.Live? {
        assert !Recorded(r1.mem, Demo) ==> !Present(r1.world.net, Portfolio);
        CutoverSiblingKeeps(r1, Demo);
      }
      var r2 := CutoverHost(r1, Demo);
      if r2.status.Live? {
        CutoverSiblingKeeps(r2, Portfolio);
      }
      FinishKeeps(CutoverHost(r2, Portfolio), CutOver);
    }
  }

  lemma ReverseKeeps(w: World, budget: nat)
    requires WorldInv(w)
    ensures WorldInv(RunReverse(w, budget).world)
  {
    if ReverseAllowed(w) {
      var r := Start(w, budget);
      ReverseUnrolled(r);
      ReverseSiblingKeeps(r, Portfolio);
      var r1 := ReverseHost(r, Portfolio);
      if r1.status.Live? {
        ReverseSiblingKeeps(r1, Demo);
      }
      var r2 := ReverseHost(r1, Demo);
      if r2.status.Live? {
        ReverseBetaKeeps(r2);
      }
      FinishKeeps(ReverseHost(r2, Beta), Reversed);
    }
  }

  /** Between the parts of prepare the routes are untouched and nothing is cut over. */
  ghost predicate Preparing(r: Run) {
    && WorldInv(r.world) && r.world.disk.phase in {Inventoried, Prepared} && AtBaseline(r.world)
    && (r.status.Live? ==> r.mem == r.world.disk)
  }

  /** A preparing state that is about to have its first tunnel. */
  ghost predicate Untunneled(j: Journal, n: Provider) {
    Inv(j, n) && j.phase == Inventoried && OffTunnel(j, n) && j.tunnelId.None? && n.tunnels == []
  }

  function TunnelPosted(n: Provider): Provider {
    n.(tunnels := n.tunnels + [TunnelState(n.nextId, n.newConfig)], nextId := n.nextId + 1, tunnelPosts := n.tunnelPosts + 1)
  }

  lemma CreateTunnelKeeps(j: Journal, n: Provider)
    requires Untunneled(j, n)
    ensures var j1, n1 := j.(pending := CreateTunnel), TunnelPosted(n);
            Inv(j1, n) && Inv(j1, n1) && OffTunnel(j1, n1)
  {
    assert n.tunnels + [TunnelState(n.nextId, n.newConfig)] == [TunnelState(n.nextId, n.newConfig)];
  }

  lemma AdoptTunnelKeeps(j: Journal, n: Provider)
    requires Inv(j, n) && j.phase == Inventoried && OffTunnel(j, n)
    requires j.tunnelId.None? && |n.tunnels| == 1 && j.pending == CreateTunnel
    ensures var j1 := j.(tunnelId := Some(n.tunnels[0].id));
            var j2 := j1.(actions := j1.actions + [CreatedTunnel(n.tunnels[0].id)], pending := Idle);
            Inv(j1, n) && OffTunnel(j1, n) && Inv(j2, n) && OffTunnel(j2, n)
  {
    var t := n.tunnels[0];
    assert t in n.tunnels;
  }

  lemma NewTunnelKeeps(r: Run)
    requires Preparing(r) && r.status.Live? && r.mem.tunnelId.None? && r.world.net.tunnels == []
    ensures var out := EnsureTunnel(r); Preparing(out) && (out.status.Live? ==> out.mem.tunnelId.Some?)
  {
    var j, net := r.mem, r.world.net;
    var j1, n1 := j.(pending := CreateTunnel), TunnelPosted(net);
    CreateTunnelKeeps(j, net);
    AdoptTunnelKeeps(j1, n1);
    var r1 := Save(r, j1);
    if r1.status.Live? {
      var r2 := WriteNet(r1, n1);
      if r2.status.Live? {
        var r3 := Save(r2, j1.(tunnelId := Some(net.nextId)));
        assert EnsureTunnel(r) == LogAction(r3, r3.mem, CreatedTunnel(net.nextId));
      }
    }
  }

  lemma EnsureTunnelKeeps(r: Run)
    requires Preparing(r) && r.status.Live?
    ensures var out := EnsureTunnel(r); Preparing(out) && (out.status.Live? ==> out.mem.tunnelId.Some?)
  {
    if r.mem.tunnelId.None? {
      if r.world.net.tunnels == [] {
        NewTunnelKeeps(r);
      } else if r.mem.pending == CreateTunnel {
        AdoptTunnelKeeps(r.mem, r.world.net);
      }
    }
  }

  /** What holds once the ingress is expected and logged. */
  ghost predicate Configured(r: Run) {
    && Preparing(r) && (r.status.Live? ==>
      && r.mem.tunnelId.Some? && ConfiguredTunnel in r.mem.actions
      && r.mem.pending != CreateTunnel && r.mem.pending != ConfigureTunnel
      && |r.world.net.tunnels| == 1 && r.world.net.tunnels[0].config == Expected)
  }

  lemma ConfigureKeeps(j: Journal, n: Provider)
    requires Inv(j, n) && j.phase == Inventoried && j.tunnelId.Some? && n.tunnels[0].config != Expected
    ensures var j1, n1 := j.(pending := ConfigureTunnel), n.(tunnels := Configure(n.tunnels, j.tunnelId.value));
            Inv(j1, n) && Inv(j1, n1) && n1.tunnels == [TunnelState(j.tunnelId.value, Expected)]
  {
  }

  lemma LogConfiguredKeeps(j: Journal, n: Provider)
    requires Inv(j, n) && j.phase == Inventoried && j.tunnelId.Some? && n.tunnels[0].config == Expected
    ensures Inv(j.(actions := j.actions + [ConfiguredTunnel], pending := Idle), n)
  {
  }

  lemma PutIngressKeeps(r: Run)
    requires Preparing(r) && r.status.Live? && r.mem.tunnelId.Some?
    requires r.world.net.tunnels[0].config != Expected
    ensures Configured(EnsureIngress(r))
  {
    var j, net := r.mem, r.world.net;
    var j1, n1 := j.(pending := ConfigureTunnel), net.(tunnels := Configure(net.tunnels, j.tunnelId.value));
    ConfigureKeeps(j, net);
    LogConfiguredKeeps(j1, n1);
    assert TunnelOwned(r.world);
    if !(j.pending == ConfigureTunnel && net.tunnels[0].config != Unset) {
      var r1 := Save(r, j1);
      if r1.status.Live? {
        var r2 := WriteNet(r1, n1);
        if r2.status.Live? {
          assert EnsureIngress(r) == LogAction(r2, r2.mem, ConfiguredTunnel);
        }
      }
    }
  }

  lemma EnsureIngressKeeps(r: Run)
    requires Preparing(r) && (r.status.Live? ==> r.mem.tunnelId.Some?)
    ensures Configured(EnsureIngress(r))
  {
    if r.status.Live? {
      var j, net := r.mem, r.world.net;
      assert TunnelOwned(r.world);
      if net.tunnels[0].config != Expected {
        PutIngressKeeps(r);
      } else if j.pending == ConfigureTunnel {
        LogConfiguredKeeps(j, net);
      }
    }
  }

  lemma EnsureTokenKeeps(r: Run)
    requires Preparing(r) && (r.status.Live? ==> r.mem.tunnelId.Some?)
    ensures var out := EnsureToken(r); Preparing(out) && (out.status.Live? ==> r.status.Live? && out.mem == r.mem && out.world.net == r.world.net)
  {
  }

  lemma FinishPrepareKeeps(r: Run)
    requires Configured(r)
    ensures WorldInv(Finish(r, Prepared).world) && AtBaseline(Finish(r, Prepared).world)
  {
  }

  lemma PrepareKeeps(w: World, budget: nat)
    requires WorldInv(w)
    ensures WorldInv(RunPrepare(w, budget).world)
  {
    if w.disk.phase in {Inventoried, Prepared} && AtBaseline(w) {
      var r := Start(w, budget);
      var r1, r2 := EnsureTunnel(r), EnsureIngress(EnsureTunnel(r));
      EnsureTunnelKeeps(r);
      EnsureIngressKeeps(r1);
      EnsureTokenKeeps(r2);
      FinishPrepareKeeps(EnsureToken(r2));
    }
  }

  lemma CommandKeeps(w: World, c: Command, budget: nat)
    requires WorldInv(w)
    ensures WorldInv(RunCommand(w, c, budget).world)
  {
    match c
    case Prepare => PrepareKeeps(w, budget);
    case Cutover(ready) => CutoverKeeps(w, ready, budget);
    case Reverse => ReverseKeeps(w, budget);
  }

  /** Every run of every command, crashed wherever it likes, keeps the invariant. */
  lemma {:induction false} AllRunsKeep(w: World, script: seq<(Command, nat)>)
    requires WorldInv(w)
    ensures WorldInv(RunAll(w, script))
    decreases |script|
  {
    if script != [] {
      CommandKeeps(w, script[0].0, script[0].1);
      AllRunsKeep(RunCommand(w, script[0].0, script[0].1).world, script[1..]);
    }
  }
}
