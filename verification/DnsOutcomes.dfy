/** Results of whole scripts of DNS runs: safety in every reachable state, recovery through
    reverse, resumption of a crashed cutover, and when prepare can go on. */
module DnsOutcomes {
  import opened Common
  import opened DnsCutover
  import opened DnsSafety

  // ----- records, field by field -----

  /** The record that sends a host to the preview tunnel. */
  predicate RoutedTo(r: Record, tunnel: nat, name: string) {
    && r.kind == "CNAME" && r.target == Tunnel(tunnel) && r.ttl == 1 && r.proxied
    && r.comment == Some("hostlet-m35-preview:" + name)
  }

  /** The captured record, except that the provider may give back an empty comment for none. */
  predicate AsCaptured(r: Record, base: Record) {
    && r.id == base.id && r.kind == base.kind && r.target == base.target && r.ttl == base.ttl && r.proxied == base.proxied
    && r.tags == base.tags && r.settings == base.settings
    && (r.comment == base.comment || (base.comment.None? && r.comment == Some("")))
  }

  lemma FieldsOfRecord(r: Record, j: Journal, tunnel: nat)
    ensures SameRoute(r, Cname(j, tunnel)) <==> RoutedTo(r, tunnel, j.tunnelName)
    ensures MatchesBaseline(r, j.base) <==> AsCaptured(r, j.base)
  {
  }

  // ----- what no run changes -----

  /** The captured beta record and the tunnel's name, in memory and on disk. */
  predicate Named(r: Run, base: Record, name: string) {
    r.mem.base == base && r.mem.tunnelName == name && r.world.disk.base == base && r.world.disk.tunnelName == name
  }

  lemma CutoverHostNamed(r: Run, h: Host, base: Record, name: string)
    requires Named(r, base, name)
    ensures Named(CutoverHost(r, h), base, name)
  {
    hide SameRoute, MatchesBaseline, HasCutover, Cname;
  }

  lemma ReverseBetaNamed(r: Run, want: Route, base: Record, name: string)
    requires Named(r, base, name)
    ensures Named(ReverseBeta(r, want), base, name)
  {
    hide SameRoute, MatchesBaseline;
  }

  lemma ReverseSiblingNamed(r: Run, h: Host, want: Route, base: Record, name: string)
    requires Named(r, base, name) && h != Beta
    ensures Named(ReverseSibling(r, h, want), base, name)
  {
    hide SameRoute, MatchesBaseline;
  }

  lemma ReverseHostNamed(r: Run, h: Host, base: Record, name: string)
    requires Named(r, base, name)
    ensures Named(ReverseHost(r, h), base, name)
  {
    hide ReverseBeta, ReverseSibling, Cname;
    if r.mem.tunnelId.Some? {
      var want := Cname(r.mem, r.mem.tunnelId.value);
      ReverseBetaNamed(r, want, base, name);
      if h != Beta {
        ReverseSiblingNamed(r, h, want, base, name);
      }
    }
  }

  lemma PrepareNamed(r: Run, base: Record, name: string)
    requires Named(r, base, name)
    ensures Named(EnsureTunnel(r), base, name) && Named(EnsureIngress(r), base, name) && Named(EnsureToken(r), base, name)
  {
  }

  lemma CommandNamed(w: World, c: Command, budget: nat)
    ensures var out := RunCommand(w, c, budget).world; out.disk.base == w.disk.base && out.disk.tunnelName == w.disk.tunnelName
  {
    var base, name, r := w.disk.base, w.disk.tunnelName, Start(w, budget);
    CutoverUnrolled(r);
    ReverseUnrolled(r);
    CutoverHostNamed(r, Beta, base, name);
    CutoverHostNamed(CutoverHost(r, Beta), Demo, base, name);
    CutoverHostNamed(CutoverHost(CutoverHost(r, Beta), Demo), Portfolio, base, name);
    ReverseHostNamed(r, Portfolio, base, name);
    ReverseHostNamed(ReverseHost(r, Portfolio), Demo, base, name);
    ReverseHostNamed(ReverseHost(ReverseHost(r, Portfolio), Demo), Beta, base, name);
    PrepareNamed(r, base, name);
    PrepareNamed(EnsureTunnel(r), base, name);
    PrepareNamed(EnsureIngress(EnsureTunnel(r)), base, name);
    hide CutoverHost, ReverseHost, EnsureTunnel, EnsureIngress, EnsureToken, CutoverAllowed, ReverseAllowed, AtBaseline, CutoverHosts, ReverseHosts;
  }

  lemma {:induction false} ScriptNamed(w: World, script: seq<(Command, nat)>)
    ensures RunAll(w, script).disk.base == w.disk.base && RunAll(w, script).disk.tunnelName == w.disk.tunnelName
    decreases |script|
  {
    hide RunCommand;
    if script != [] {
      CommandNamed(w, script[0].0, script[0].1);
      ScriptNamed(RunCommand(w, script[0].0, script[0].1).world, script[1..]);
    }
  }

  /** After any script of runs from a fresh inventory, each crashed anywhere: beta is one record, the
      captured one or the one routed to the tunnel; a sibling record exists only while beta is routed, and
      is routed itself; a record and its journal entry disagree only when `pending` says why, and at most
      one tunnel was ever created. */
  lemma EveryScriptIsSafe(w: World, script: seq<(Command, nat)>)
    requires FreshInventory(w)
    ensures var out := RunAll(w, script); var j, n := out.disk, out.net;
            && |n.dns.beta| == 1 && n.dns.beta[0].id == w.disk.base.id
            && (AsCaptured(n.dns.beta[0], w.disk.base)
                || (j.tunnelId.Some? && RoutedTo(n.dns.beta[0], j.tunnelId.value, w.disk.tunnelName)))
            && (forall h: Host :: h != Beta && n.dns.At(h) != [] ==>
                  |n.dns.At(h)| == 1 && !AsCaptured(n.dns.beta[0], w.disk.base)
                  && j.tunnelId.Some? && RoutedTo(n.dns.At(h)[0], j.tunnelId.value, w.disk.tunnelName)
                  && (j.created.At(h) == Some(n.dns.At(h)[0].id) || (j.created.At(h).None? && j.pending == CutoverOf(h))))
            && (forall h: Host :: h != Beta && n.dns.At(h) == [] && j.created.At(h).Some? ==> j.pending == ReverseOf(h))
            && n.tunnelPosts <= 1
  {
    FreshInventoryHolds(w);
    AllRunsKeep(w, script);
    ScriptNamed(w, script);
    var out := RunAll(w, script);
    var j, n := out.disk, out.net;
    hide SameRoute, MatchesBaseline, Cname, RunAll, RoutedTo, AsCaptured, FreshInventory;
    FieldsOfRecord(n.dns.beta[0], j, if j.tunnelId.Some? then j.tunnelId.value else 0);
    if OnTunnel(j, n) {
      OffExcludesOn(j, n);
    }
    forall h: Host | h != Beta && n.dns.At(h) != []
      ensures |n.dns.At(h)| == 1 && OnTunnel(j, n) && RoutedTo(n.dns.At(h)[0], j.tunnelId.value, w.disk.tunnelName)
      ensures j.created.At(h) == Some(n.dns.At(h)[0].id) || (j.created.At(h).None? && j.pending == CutoverOf(h))
    {
      assert SiblingOk(j, n, h);
      FieldsOfRecord(n.dns.At(h)[0], j, j.tunnelId.value);
    }
    forall h: Host | h != Beta
      ensures SiblingOk(j, n, h)
    {
      assert h == Demo || h == Portfolio;
    }
  }

  // ----- recovery through reverse -----

  /** The one journal state in which reverse stops: beta was put back and logged, and the run
      crashed before the phase was saved. */
  predicate RestoredOutside(w: World) {
    && w.disk.phase == CutOver && w.disk.pending != ReverseOf(Beta)
    && |w.net.dns.beta| == 1 && MatchesBaseline(w.net.dns.beta[0], w.disk.base)
  }

  /** Removing a recorded sibling takes three writes and cannot be refused. */
  lemma RemoveProgress(r: Run, h: Host)
    requires r.status.Live? && h != Beta && r.mem.tunnelId.Some? && Recorded(r.mem, h) && r.world.net.guarded
    requires var rs := r.world.net.dns.At(h);
             |rs| == 1 && rs[0].id == r.mem.created.At(h).value && SameRoute(rs[0], Cname(r.mem, r.mem.tunnelId.value))
    ensures var out := ReverseHost(r, h);
            && !out.status.Refused? && !out.status.Done?
            && (out.status.Crashed? ==> r.budget < 3) && out.budget + 3 >= r.budget
            && (r.budget >= 3 ==> out.budget + 3 == r.budget)
            && out.mem.phase == r.mem.phase && out.mem.base == r.mem.base
            && out.world.net.dns.beta == r.world.net.dns.beta
  {
    hide SameRoute, Cname;
  }

  lemma ReverseSiblingProgress(r: Run, h: Host)
    requires Settled(r) && r.status.Live? && h != Beta
    requires h == Demo ==> !Present(r.world.net, Portfolio) && !Recorded(r.mem, Portfolio)
    ensures var out := ReverseHost(r, h);
            && !out.status.Refused? && !out.status.Done?
            && (out.status.Crashed? ==> r.budget < 4) && out.budget + 4 >= r.budget
            && out.mem.phase == r.mem.phase && out.mem.base == r.mem.base
            && out.world.net.dns.beta == r.world.net.dns.beta
            && (OffTunnel(r.mem, r.world.net) ==> out == r)
  {
    var j, n := r.mem, r.world.net;
    OffExcludesOn(j, n);
    assert j.tunnelId.Some? && n.guarded && SiblingOk(j, n, h);
    hide Inv, BetaOk, ChainOk, IdsOk, TunnelOk, PhaseOk, OffTunnel;
    if Present(n, h) && Recorded(j, h) {
      RemoveProgress(r, h);
    } else if Present(n, h) {
      var id := n.dns.At(h)[0].id;
      var r0 := LogAction(r, j.(created := j.created.With(h, Some(id))), CreatedRecord(h, id));
      if r0.status.Live? {
        RemoveProgress(r0, h);
        assert ReverseHost(r, h) == ReverseHost(r0, h);
      }
    }
  }

  lemma ReverseBetaProgress(r: Run)
    requires Settled(r) && r.status.Live? && SiblingsGone(r.mem, r.world.net)
    ensures var out := ReverseHost(r, Beta);
            && !out.status.Done?
            && (out.status.Refused? <==> OffTunnel(r.mem, r.world.net) && r.mem.pending != ReverseOf(Beta) && r.mem.phase == CutOver)
            && (out.status.Crashed? ==> r.budget < 3) && out.budget + 3 >= r.budget
            && (out.status.Refused? ==> out.world == r.world)
            && (OnTunnel(r.mem, r.world.net) ==> !out.status.Refused?)
  {
    if OnTunnel(r.mem, r.world.net) {
      OffExcludesOn(r.mem, r.world.net);
    }
  }

  lemma FinishReverse(r: Run)
    requires Settled(r) && !r.status.Done?
    requires r.status.Live? ==> OffTunnel(r.mem, r.world.net) && SiblingsGone(r.mem, r.world.net)
    ensures var out := Finish(r, Reversed);
            && (out.status.Refused? <==> r.status.Refused?)
            && (out.status.Refused? ==> out.world == r.world)
            && (out.status.Crashed? ==> r.status.Crashed? || r.budget < 1)
            && (out.status.Done? ==> AtBaseline(out.world) && SiblingsGone(out.world.disk, out.world.net)
                                     && out.world.disk.phase == Reversed)
  {
  }

  /** What the two sibling hosts of a reverse do together. */
  lemma ReverseSiblingsRecover(r: Run)
    requires Settled(r) && r.status.Live?
    ensures var out := ReverseHost(ReverseHost(r, Portfolio), Demo);
            && Settled(out) && !out.status.Done? && !out.status.Refused?
            && (out.status.Crashed? ==> r.budget < 8) && (out.status.Live? ==> out.budget + 8 >= r.budget)
            && (out.status.Live? ==> SiblingsGone(out.mem, out.world.net))
            && out.mem.phase == r.mem.phase && out.mem.base == r.mem.base
            && out.world.net.dns.beta == r.world.net.dns.beta
            && (OffTunnel(r.mem, r.world.net) ==> out == r)
  {
    ReverseSiblingKeeps(r, Portfolio);
    ReverseSiblingProgress(r, Portfolio);
    var r1 := ReverseHost(r, Portfolio);
    if r1.status.Live? {
      ReverseSiblingKeeps(r1, Demo);
      ReverseSiblingProgress(r1, Demo);
    }
  }

  /** The beta host of a reverse that started in `r` and has both siblings behind it. */
  lemma ReverseBetaRecovers(r: Run, r2: Run)
    requires Settled(r) && r.status.Live? && Settled(r2) && r2.status.Live?
    requires SiblingsGone(r2.mem, r2.world.net) && r2.mem.phase == r.mem.phase
    requires r2.world.net.dns.beta == r.world.net.dns.beta && (OffTunnel(r.mem, r.world.net) ==> r2 == r)
    requires r2.budget + 8 >= r.budget && r2.mem.base == r.mem.base
    ensures var out := ReverseHost(r2, Beta);
            && Settled(out) && !out.status.Done?
            && (out.status.Refused? <==> RestoredOutside(r.world))
            && (out.status.Refused? ==> out.world == r.world)
            && (out.status.Crashed? ==> r.budget < 11) && (out.status.Live? ==> out.budget + 11 >= r.budget)
            && (out.status.Live? ==> OffTunnel(out.mem, out.world.net) && SiblingsGone(out.mem, out.world.net))
  {
    ReverseBetaKeeps(r2);
    ReverseBetaProgress(r2);
  }

  /** The three hosts of a reverse, up to the phase save. */
  lemma ReverseHostsRecover(r: Run)
    requires Settled(r) && r.status.Live?
    ensures var out := ReverseHosts(r, HOSTS);
            && Settled(out) && !out.status.Done?
            && (out.status.Refused? <==> RestoredOutside(r.world))
            && (out.status.Refused? ==> out.world == r.world)
            && (out.status.Crashed? ==> r.budget < 11) && (out.status.Live? ==> out.budget + 11 >= r.budget)
            && (out.status.Live? ==> OffTunnel(out.mem, out.world.net) && SiblingsGone(out.mem, out.world.net))
  {
    ReverseUnrolled(r);
    ReverseSiblingsRecover(r);
    var r2 := ReverseHost(ReverseHost(r, Portfolio), Demo);
    if r2.status.Live? {
      ReverseBetaRecovers(r, r2);
    }
  }

  /** The provider holds the captured beta record and neither sibling. */
  predicate Restored(w: World, base: Record) {
    |w.net.dns.beta| == 1 && AsCaptured(w.net.dns.beta[0], base) && w.net.dns.demo == [] && w.net.dns.portfolio == []
  }

  lemma RestoredFields(w: World)
    ensures AtBaseline(w) <==> Restored(w, w.disk.base)
  {
    if |w.net.dns.beta| == 1 {
      FieldsOfRecord(w.net.dns.beta[0], w.disk, 0);
    }
  }

  /** From every state the invariant allows once the tunnel is prepared, a reverse that is not
      crashed leaves DNS at the baseline with no recorded record. It stops with a refusal exactly
      in `RestoredOutside`, where DNS is at the baseline already, and twelve durable writes are
      always enough. */
  lemma ReverseRecovers(w: World, budget: nat)
    requires WorldInv(w) && w.disk.phase != Inventoried
    ensures var out := RunReverse(w, budget);
            && (out.status.Refused? <==> RestoredOutside(w))
            && (out.status.Refused? ==> out.world == w)
            && (!out.status.Crashed? ==> AtBaseline(out.world) && SiblingsGone(out.world.disk, out.world.net) && Restored(out.world, w.disk.base))
            && (out.status.Done? ==> out.world.disk.phase == Reversed)
            && (budget >= 12 ==> !out.status.Crashed?)
  {
    CommandNamed(w, Reverse, budget);
    RestoredFields(RunReverse(w, budget).world);
    var r := Start(w, budget);
    assert TunnelOwned(w);
    ReverseHostsRecover(r);
    FinishReverse(ReverseHosts(r, HOSTS));
  }

  /** The same from the state any script leaves, once some prepare of it has finished. */
  lemma EveryScriptRecovers(w: World, script: seq<(Command, nat)>, budget: nat)
    requires FreshInventory(w)
    ensures var before := RunAll(w, script); var out := RunReverse(before, budget);
            before.disk.phase != Inventoried && !out.status.Crashed? ==>
              && Restored(out.world, w.disk.base) && out.world.disk.created.demo.None? && out.world.disk.created.portfolio.None?
              && (out.status.Refused? ==> RestoredOutside(before) && out.world == before)
  {
    FreshInventoryHolds(w);
    AllRunsKeep(w, script);
    var before := RunAll(w, script);
    ScriptNamed(w, script);
    if before.disk.phase != Inventoried {
      ReverseRecovers(before, budget);
    }
  }

  // ----- resuming a cutover -----

  /** Beta's change is either logged or announced by `pending`, and every record that was posted is there. */
  ghost predicate Resume(j: Journal, n: Provider) {
    && j.phase in {Prepared, CutOver}
    && (OnTunnel(j, n) ==> j.pending == CutoverOf(Beta) || HasCutover(j))
    && PostedOnce(j, n, Demo) && PostedOnce(j, n, Portfolio)
  }

  ghost predicate Resumable(w: World) {
    WorldInv(w) && Resume(w.disk, w.net)
  }

  ghost predicate PostedOnce(j: Journal, n: Provider, h: Host) {
    && n.posts.At(h) == (if Present(n, h) then 1 else 0)
    && (Recorded(j, h) ==> Present(n, h))
  }

  ghost predicate Resuming(r: Run) {
    && Settled(r) && Resumable(r.world) && !r.status.Refused? && !r.status.Done?
    && (r.status.Live? ==> r.mem == r.world.disk)
  }

  lemma LoggedCutover(j: Journal, a: Action)
    ensures a == DidCutover(Beta, j.base.id) || HasCutover(j) ==> HasCutover(j.(actions := j.actions + [a], pending := Idle))
  {
    var j' := j.(actions := j.actions + [a], pending := Idle);
    assert j'.actions[|j.actions|] == a;
    if HasCutover(j) {
      var i :| 0 <= i < |j.actions| && j.actions[i].DidCutover? && j.actions[i].host == Beta;
      assert j'.actions[i] == j.actions[i];
    }
  }

  lemma CutoverBetaResumes(r: Run)
    requires Resuming(r) && r.status.Live?
    ensures var out := CutoverHost(r, Beta);
            Resuming(out) && (out.status.Crashed? ==> r.budget < 3) && out.budget + 3 >= r.budget
            && (out.status.Live? ==> HasCutover(out.mem) && OnTunnel(out.mem, out.world.net))
  {
    CutoverBetaKeeps(r);
    LoggedCutover(r.mem, DidCutover(Beta, r.mem.base.id));
    LoggedCutover(r.mem.(pending := CutoverOf(Beta)), DidCutover(Beta, r.mem.base.id));
    if OnTunnel(r.mem, r.world.net) {
      OffExcludesOn(r.mem, r.world.net);
    }
  }

  /** The four writes that create a sibling each leave a resumable state. */
  lemma CreationStatesResume(j: Journal, n: Provider, h: Host)
    requires Turn(j, n, h) && !Present(n, h) && Resume(j, n) && HasCutover(j)
    ensures var j1, n1 := j.(pending := CutoverOf(h)), Posted(n, h, Cname(j, j.tunnelId.value));
            var j2 := j1.(created := j1.created.With(h, Some(n.nextId)));
            var j3 := j2.(actions := j2.actions + [CreatedRecord(h, n.nextId)], pending := Idle);
            Resume(j1, n) && Resume(j1, n1) && Resume(j2, n1) && Resume(j3, n1) && HasCutover(j3)
  {
    var j1 := j.(pending := CutoverOf(h));
    var j2 := j1.(created := j1.created.With(h, Some(n.nextId)));
    assert HasCutover(j1) && HasCutover(j2);
    LoggedCutover(j2, CreatedRecord(h, n.nextId));
  }

  lemma CreateResumes(r: Run, h: Host)
    requires Resuming(r) && r.status.Live? && Turn(r.mem, r.world.net, h) && HasCutover(r.mem)
    requires !Present(r.world.net, h)
    ensures var out := CutoverHost(r, h);
            && Resume(out.world.disk, out.world.net) && !out.status.Refused? && !out.status.Done?
            && (out.status.Crashed? ==> r.budget < 4) && out.budget + 4 >= r.budget
            && (out.status.Live? ==> HasCutover(out.mem))
  {
    var j, net := r.mem, r.world.net;
    var j1, n1 := j.(pending := CutoverOf(h)), Posted(net, h, Cname(j, j.tunnelId.value));
    var j2 := j1.(created := j1.created.With(h, Some(net.nextId)));
    CreationStatesResume(j, net, h);
    assert net.dns.At(h) == [] && j.created.At(h).None? && j.tunnelId.Some?;
    hide WorldInv, Resume, PostedOnce, HasCutover, Turn, OnTunnel;
    var r1 := Save(r, j1);
    if r1.status.Live? {
      var r2 := WriteNet(r1, n1);
      if r2.status.Live? {
        var r3 := Save(r2, j2);
        assert CutoverHost(r, h) == LogAction(r3, r3.mem, CreatedRecord(h, net.nextId));
      }
    }
  }

  lemma CutoverSiblingResumes(r: Run, h: Host)
    requires Resuming(r) && r.status.Live? && Turn(r.mem, r.world.net, h) && HasCutover(r.mem)
    ensures var out := CutoverHost(r, h);
            Resuming(out) && (out.status.Crashed? ==> r.budget < 4) && out.budget + 4 >= r.budget
            && (out.status.Live? ==> HasCutover(out.mem))
  {
    CutoverSiblingKeeps(r, h);
    var j, net := r.mem, r.world.net;
    if Present(net, h) {
      var id := net.dns.At(h)[0].id;
      var j1 := j.(created := j.created.With(h, Some(id)));
      assert HasCutover(j1);
      LoggedCutover(j1, CreatedRecord(h, id));
    } else {
      CreateResumes(r, h);
    }
  }

  /** All three preview routes, each record known to the journal and posted once. */
  ghost predicate AtPreview(w: World) {
    && w.disk.tunnelId.Some? && |w.net.dns.beta| == 1 && |w.net.dns.demo| == 1 && |w.net.dns.portfolio| == 1
    && w.net.dns.beta[0].id == w.disk.base.id
    && RoutedTo(w.net.dns.beta[0], w.disk.tunnelId.value, w.disk.tunnelName)
    && (forall h: Host {:trigger w.net.posts.At(h)} :: h != Beta ==>
      && RoutedTo(w.net.dns.At(h)[0], w.disk.tunnelId.value, w.disk.tunnelName)
      && w.disk.created.At(h) == Some(w.net.dns.At(h)[0].id)
      && w.net.posts.At(h) == 1)
  }

  lemma CutoverResumes(w: World, budget: nat)
    requires Resumable(w)
    ensures var out := RunCutover(w, true, budget);
            && Resumable(out.world) && (out.status.Done? || out.status.Crashed?)
            && (out.status.Done? ==> AtPreview(out.world) && out.world.disk.phase == CutOver)
            && (budget >= 12 ==> out.status.Done?)
  {
    var r := Start(w, budget);
    assert TunnelOwned(w);
    CutoverUnrolled(r);
    CutoverBetaResumes(r);
    var r1 := CutoverHost(r, Beta);
    if r1.status.Live? {
      CutoverSiblingResumes(r1, Demo);
      CutoverSiblingKeeps(r1, Demo);
      var r2 := CutoverHost(r1, Demo);
      if r2.status.Live? {
        CutoverSiblingResumes(r2, Portfolio);
        CutoverSiblingKeeps(r2, Portfolio);
        var r3 := CutoverHost(r2, Portfolio);
        FinishResumes(r3);
      }
    }
  }

  lemma FinishResumes(r: Run)
    requires Resuming(r)
    requires r.status.Live? ==> HasCutover(r.mem) && Present(r.world.net, Demo) && Recorded(r.mem, Demo)
                                && Present(r.world.net, Portfolio) && Recorded(r.mem, Portfolio)
    ensures var out := Finish(r, CutOver);
            && Resumable(out.world) && (out.status.Done? || out.status.Crashed?)
            && (out.status.Done? ==> AtPreview(out.world) && out.world.disk.phase == CutOver)
            && (out.status.Crashed? ==> r.status.Crashed? || r.budget < 1) && (r.status.Live? && r.budget >= 1 ==> out.status.Done?)
  {
    var out := Finish(r, CutOver);
    assert HasCutover(r.mem) ==> HasCutover(r.mem.(phase := CutOver));
    if out.status.Done? {
      forall h: Host | h != Beta
        ensures SiblingOk(out.world.disk, out.world.net, h) && PostedOnce(out.world.disk, out.world.net, h) && Present(out.world.net, h)
      {
        assert h == Demo || h == Portfolio;
      }
    }
  }

  /** Any number of crashed cutovers and then one that is not crashed reach the preview, each
      sibling having been created exactly once over all of them. */
  lemma {:induction false} CrashedCutoversResume(w: World, crashes: seq<nat>, budget: nat)
    requires Resumable(w)
    ensures var before := RunAll(w, seq(|crashes|, i requires 0 <= i < |crashes| => (Cutover(true), crashes[i])));
            var out := RunCutover(before, true, budget);
            !out.status.Crashed? ==> out.status.Done? && AtPreview(out.world)
    decreases |crashes|
  {
    hide RunCutover, WorldInv, Resume, AtPreview;
    var script := seq(|crashes|, i requires 0 <= i < |crashes| => (Cutover(true), crashes[i]));
    if crashes == [] {
      CutoverResumes(w, budget);
    } else {
      CutoverResumes(w, crashes[0]);
      var rest := seq(|crashes[1..]|, i requires 0 <= i < |crashes[1..]| => (Cutover(true), crashes[1..][i]));
      assert script[1..] == rest;
      CrashedCutoversResume(RunCutover(w, true, crashes[0]).world, crashes[1..], budget);
    }
  }

  // ----- prepare -----

  ghost predicate Preparable(w: World) {
    && WorldInv(w) && w.disk.phase in {Inventoried, Prepared} && AtBaseline(w)
    && w.net.posts.demo == 0 && w.net.posts.portfolio == 0
  }

  /** The guard behind "unexpected tunnel configuration after interrupted write". */
  predicate Stuck(w: World) {
    && w.disk.pending == ConfigureTunnel && w.disk.tunnelId.Some?
    && ConfigOf(w.net.tunnels, w.disk.tunnelId.value) == Only404
  }

  lemma EnsureTunnelProgress(r: Run)
    requires Preparing(r) && r.status.Live?
    ensures var out := EnsureTunnel(r);
            && !out.status.Refused? && !out.status.Done?
            && (out.status.Crashed? ==> r.budget < 4) && out.budget + 4 >= r.budget
            && out.world.net.posts == r.world.net.posts
            && (out == r || !Stuck(out.world)) && (Stuck(r.world) ==> out == r)
  {
  }

  lemma EnsureIngressProgress(r: Run)
    requires Preparing(r) && r.status.Live? && r.mem.tunnelId.Some?
    ensures var out := EnsureIngress(r);
            && !out.status.Done? && (out.status.Refused? <==> Stuck(r.world))
            && (out.status.Refused? ==> out.world == r.world)
            && (out.status.Crashed? ==> r.budget < 3) && out.budget + 3 >= r.budget
            && out.world.net.posts == r.world.net.posts
  {
    assert r.world.net.tunnels[0].id == r.mem.tunnelId.value;
    assert TunnelOwned(r.world);
  }

  lemma FinishPrepareProgress(r: Run)
    requires Configured(r) && r.status.Live?
    ensures var out := Finish(EnsureToken(r), Prepared);
            && !out.status.Refused? && (out.status.Crashed? ==> r.budget < 2)
            && out.world.net == r.world.net
            && (out.status.Done? ==> out.world.disk.phase == Prepared && out.world.token == out.world.disk.tunnelId)
  {
  }

  lemma FinishCarries(r: Run)
    requires Configured(r) && !r.status.Live?
    ensures Finish(EnsureToken(r), Prepared) == r.(mem := r.mem.(phase := Prepared))
  {
  }

  /** Prepare from the point where the tunnel is recorded. */
  lemma PrepareTail(r: Run)
    requires Preparing(r) && r.status.Live? && r.mem.tunnelId.Some?
    ensures var out := Finish(EnsureToken(EnsureIngress(r)), Prepared);
            && WorldInv(out.world) && out.world.disk.phase in {Inventoried, Prepared} && AtBaseline(out.world)
            && (out.status.Refused? <==> Stuck(r.world)) && (out.status.Refused? ==> out.world == r.world)
            && out.world.net.posts == r.world.net.posts
            && (out.status.Done? ==> out.world.disk.phase == Prepared && out.world.token == out.world.disk.tunnelId)
            && (out.status.Crashed? ==> r.budget < 5)
  {
    EnsureIngressKeeps(r);
    EnsureIngressProgress(r);
    var r2 := EnsureIngress(r);
    if r2.status.Live? {
      FinishPrepareProgress(r2);
      EnsureTokenKeeps(r2);
      FinishPrepareKeeps(EnsureToken(r2));
    } else {
      FinishCarries(r2);
    }
  }

  /** While nothing is cut over, prepare refuses exactly when it is stuck behind its own
      interrupted configuration write; otherwise nine durable writes finish it, and a finished
      prepare leaves a journal from which cutover resumes. */
  lemma PrepareOutcome(w: World, budget: nat)
    requires Preparable(w)
    ensures var out := RunPrepare(w, budget);
            && Preparable(out.world) && out.world.net.tunnelPosts <= 1
            && (out.status.Refused? <==> Stuck(w))
            && (out.status.Refused? ==> out.world == w)
            && (out.status.Done? ==>
                  && out.world.disk.phase == Prepared && Resumable(out.world) && Restored(out.world, w.disk.base)
                  && out.world.disk.tunnelId.Some? && out.world.token == out.world.disk.tunnelId
                  && out.world.net.tunnels == [TunnelState(out.world.disk.tunnelId.value, Expected)])
            && (budget >= 9 && !Stuck(w) ==> out.status.Done?)
  {
    hide RunPrepare, WorldInv, Resume, Stuck, AtBaseline, Restored;
    PrepareProgress(w, budget);
    CommandNamed(w, Prepare, budget);
    var out := RunPrepare(w, budget);
    RestoredFields(out.world);
    if out.status.Done? {
      PreparedMeans(out.world);
    }
  }

  lemma PrepareProgress(w: World, budget: nat)
    requires Preparable(w)
    ensures var out := RunPrepare(w, budget);
            && Preparable(out.world) && out.world.net.tunnelPosts <= 1
            && (out.status.Refused? <==> Stuck(w))
            && (out.status.Refused? ==> out.world == w)
            && (out.status.Done? ==> out.world.disk.phase == Prepared && out.world.token == out.world.disk.tunnelId)
            && (budget >= 9 && !Stuck(w) ==> out.status.Done?)
  {
    var r := Start(w, budget);
    EnsureTunnelKeeps(r);
    EnsureTunnelProgress(r);
    var r1 := EnsureTunnel(r);
    if r1.status.Live? {
      PrepareTail(r1);
    }
  }

  lemma PreparedMeans(w: World)
    requires Preparable(w) && w.disk.phase == Prepared
    ensures Resumable(w) && w.disk.tunnelId.Some? && w.net.tunnels == [TunnelState(w.disk.tunnelId.value, Expected)]
  {
  }

  lemma StuckRefuses(w: World, budget: nat)
    requires Stuck(w) && |w.net.tunnels| == 1
    ensures RunPrepare(w, budget).status.Refused?
  {
  }

  /** Being stuck is reachable: when the provider reports the 404 default for a new tunnel, a
      first prepare that crashes just before its configuration call leaves a journal that every
      later prepare refuses. */
  lemma PrepareCanStick(w: World, budget: nat)
    requires FreshInventory(w) && w.net.newConfig == Only404
    ensures var out := RunPrepare(w, 5).world; Stuck(out) && RunPrepare(out, budget).status.Refused?
  {
    var r := EnsureTunnel(Start(w, 5));
    assert r.status.Live? && r.budget == 1 && r.world.net.tunnels == [TunnelState(w.net.nextId, Only404)];
    assert r.mem == r.world.disk && r.world.net.tunnels[0].id == r.mem.tunnelId.value;
    assert TunnelOwned(r.world) && AtBaseline(r.world);
    var out := EnsureIngress(r);
    assert out.status.Crashed? && out.world.net == r.world.net && out.world.disk == r.mem.(pending := ConfigureTunnel);
    hide EnsureTunnel, EnsureIngress;
    assert RunPrepare(w, 5).world == out.world;
    StuckRefuses(out.world, budget);
  }

  /** From inventory to preview: crashed prepares, a finished one, crashed cutovers and one that
      is not crashed. One tunnel and one record per sibling are created over all of them. */
  lemma {:induction false} PreparableToPreview(w: World, prepares: seq<nat>, last: nat, crashes: seq<nat>, budget: nat)
    requires Preparable(w)
    ensures var w1 := RunAll(w, seq(|prepares|, i requires 0 <= i < |prepares| => (Prepare, prepares[i])));
            var prepared := RunPrepare(w1, last);
            var w2 := RunAll(prepared.world, seq(|crashes|, i requires 0 <= i < |crashes| => (Cutover(true), crashes[i])));
            var out := RunCutover(w2, true, budget);
            prepared.status.Done? && !out.status.Crashed? ==>
              out.status.Done? && AtPreview(out.world) && out.world.net.tunnelPosts == 1
    decreases |prepares|
  {
    var script := seq(|prepares|, i requires 0 <= i < |prepares| => (Prepare, prepares[i]));
    if prepares == [] {
      PrepareOutcome(w, last);
      var prepared := RunPrepare(w, last);
      if prepared.status.Done? {
        CrashedCutoversResume(prepared.world, crashes, budget);
        var cuts := seq(|crashes|, i requires 0 <= i < |crashes| => (Cutover(true), crashes[i]));
        AllRunsKeep(prepared.world, cuts);
        CutoverKeeps(RunAll(prepared.world, cuts), true, budget);
      }
    } else {
      PrepareOutcome(w, prepares[0]);
      var rest := seq(|prepares[1..]|, i requires 0 <= i < |prepares[1..]| => (Prepare, prepares[1..][i]));
      assert script[1..] == rest;
      assert script[0] == (Prepare, prepares[0]);
      PreparableToPreview(RunPrepare(w, prepares[0]).world, prepares[1..], last, crashes, budget);
    }
  }

  lemma FreshIsPreparable(w: World)
    requires FreshInventory(w)
    ensures Preparable(w) && !Stuck(w)
  {
    FreshInventoryHolds(w);
  }

  /** The whole way from a fresh inventory: prepares that died, one that finished, cutovers that died and
      one that did not end with all three preview routes and one tunnel. */
  lemma InventoryToPreview(w: World, prepares: seq<nat>, last: nat, crashes: seq<nat>, budget: nat)
    requires FreshInventory(w)
    ensures var w1 := RunAll(w, seq(|prepares|, i requires 0 <= i < |prepares| => (Prepare, prepares[i])));
            var prepared := RunPrepare(w1, last);
            var w2 := RunAll(prepared.world, seq(|crashes|, i requires 0 <= i < |crashes| => (Cutover(true), crashes[i])));
            var out := RunCutover(w2, true, budget);
            prepared.status.Done? && !out.status.Crashed? ==>
              out.status.Done? && AtPreview(out.world) && out.world.net.tunnelPosts == 1
  {
    FreshIsPreparable(w);
    PreparableToPreview(w, prepares, last, crashes, budget);
  }

  // ----- what is refused outright -----

  /** A cutover without readiness, without this tunnel's rules in place, before prepare or with a moved
      guard changes nothing. */
  lemma CutoverRefusals(w: World, ready: bool, budget: nat)
    requires !ready || w.disk.phase == Inventoried || w.disk.tunnelId.None? || !w.net.guarded
             || forall t :: t in w.net.tunnels && t.id == w.disk.tunnelId.value ==> t.config != Expected
    ensures var out := RunCutover(w, ready, budget); out.status.Refused? && out.world == w
  {
    var r := Start(w, budget);
    if CutoverAllowed(w, ready) {
      ConfigIsListed(w.net.tunnels, w.disk.tunnelId.value);
      assert CutoverHost(r, Beta) == Refuse(r);
      CutoverUnrolled(r);
    }
  }

  lemma {:induction false} ConfigIsListed(ts: seq<TunnelState>, id: nat)
    ensures ConfigOf(ts, id) != Unset ==> TunnelState(id, ConfigOf(ts, id)) in ts
    decreases |ts|
  {
    if ts != [] && ts[0].id != id {
      ConfigIsListed(ts[1..], id);
    }
  }

  // ----- the refusing reverse is reachable -----

  lemma RemovesInThree(r: Run, h: Host)
    requires r.status.Live? && h != Beta && r.mem.tunnelId.Some? && Recorded(r.mem, h) && r.world.net.guarded && r.budget >= 3
    requires var rs := r.world.net.dns.At(h);
             |rs| == 1 && rs[0].id == r.mem.created.At(h).value && SameRoute(rs[0], Cname(r.mem, r.mem.tunnelId.value))
    ensures var out := ReverseHost(r, h);
            && out.status.Live? && out.budget == r.budget - 3 && out.world.disk == out.mem
            && out.mem == r.mem.(created := r.mem.created.With(h, None), actions := out.mem.actions, pending := Idle)
            && out.world.net == r.world.net.(dns := r.world.net.dns.With(h, []))
  {
    hide SameRoute, Cname;
    assert DeleteById(r.world.net.dns.At(h), r.mem.created.At(h).value) == [];
  }

  lemma RestoresInThree(r: Run)
    requires Settled(r) && r.status.Live? && OnTunnel(r.mem, r.world.net) && r.world.net.guarded && r.budget == 3
    ensures var out := ReverseHost(r, Beta);
            && out.status.Live? && out.budget == 0 && out.world.disk == out.mem
            && out.mem.phase == r.mem.phase && out.mem.base == r.mem.base && out.mem.pending == Idle
            && |out.world.net.dns.beta| == 1 && MatchesBaseline(out.world.net.dns.beta[0], r.mem.base)
  {
    OffExcludesOn(r.mem, r.world.net);
  }

  /** From the preview the tenth write of a reverse is its phase save. */
  lemma NineWrites(w: World)
    requires WorldInv(w) && AtPreview(w) && w.disk.phase == CutOver
    ensures var out := RunReverse(w, 9); out.status.Crashed? && RestoredOutside(out.world)
  {
    var r := Start(w, 9);
    assert TunnelOwned(w) && w.net.guarded;
    assert w.net.posts.At(Demo) == 1 && w.net.posts.At(Portfolio) == 1;
    var r1 := ReverseHost(r, Portfolio);
    RemovesInThree(r, Portfolio);
    ReverseSiblingKeeps(r, Portfolio);
    var r2 := ReverseHost(r1, Demo);
    RemovesInThree(r1, Demo);
    ReverseSiblingKeeps(r1, Demo);
    RestoresInThree(r2);
    ReverseUnrolled(r);
    hide ReverseHost, WorldInv, AtPreview, ReverseHosts;
  }

  /** After a finished prepare and a finished cutover, a reverse that dies just before its phase save has
      put DNS back, and every later reverse refuses. */
  lemma ReverseCanRefuse(w: World, prepare: nat, cutover: nat, again: nat)
    requires FreshInventory(w) && prepare >= 9 && cutover >= 12
    ensures var out := RunAll(w, [(Prepare, prepare), (Cutover(true), cutover), (Reverse, 9)]);
            RestoredOutside(out) && AtBaseline(out) && RunReverse(out, again).status.Refused?
  {
    hide RunPrepare, RunCutover, RunReverse, WorldInv, Resume, Inv, AtPreview, RestoredOutside, AtBaseline, Stuck;
    FreshIsPreparable(w);
    PrepareOutcome(w, prepare);
    var w1 := RunPrepare(w, prepare).world;
    CutoverResumes(w1, cutover);
    var w2 := RunCutover(w1, true, cutover).world;
    NineWrites(w2);
    var w3 := RunReverse(w2, 9).world;
    ReverseKeeps(w2, 9);
    RestoredIsPrepared(w3);
    ReverseRecovers(w3, again);
    ThreeRuns(w, (Prepare, prepare), (Cutover(true), cutover), (Reverse, 9));
  }

  lemma RestoredIsPrepared(w: World)
    requires RestoredOutside(w)
    ensures w.disk.phase != Inventoried
  {
  }

  lemma ThreeRuns(w: World, a: (Command, nat), b: (Command, nat), c: (Command, nat))
    ensures RunAll(w, [a, b, c]) == RunCommand(RunCommand(RunCommand(w, a.0, a.1).world, b.0, b.1).world, c.0, c.1).world
  {
    hide RunCommand;
    assert [a, b, c][1..] == [b, c] && [b, c][1..] == [c] && [c][1..] == [];
    var w1 := RunCommand(w, a.0, a.1).world;
    var w2 := RunCommand(w1, b.0, b.1).world;
    assert RunAll(w, [a, b, c]) == RunAll(w1, [b, c]) == RunAll(w2, [c]);
  }
}
