/** prepare, cutover and reverse as the script runs them: one process that edits its journal in
    memory and makes durable writes until its budget is spent. After that its remaining statements
    no longer reach the disk or the provider. Each method is proved to do what DnsCutover specifies. */
module DnsSession {
  import opened Common
  import opened DnsCutover
  import opened DnsSafety
  import opened DnsOutcomes

  class Session {
    var disk: Journal
    var net: Provider
    var token: Option<nat>
    var j: Journal
    var budget: nat
    var status: Status

    function View(): Run
      reads this
    {
      Run(World(disk, net, token), j, budget, status)
    }

    /** Load the journal and start. */
    constructor (w: World, writes: nat)
      ensures View() == Start(w, writes)
    {
      disk, net, token, j, budget, status := w.disk, w.net, w.token, w.disk, writes, Live;
    }

    // ----- durable writes -----

    method SaveJournal()
      modifies this
      ensures View() == Save(old(View()), old(j))
    {
      if status.Live? {
        if budget == 0 {
          status := Crashed;
        } else {
          disk, budget := j, budget - 1;
        }
      }
    }

    /** Edit the journal and save it. */
    method SetJournal(next: Journal)
      modifies this
      ensures View() == Save(old(View()), next)
    {
      j := next;
      SaveJournal();
    }

    method Call(next: Provider)
      modifies this
      ensures View() == WriteNet(old(View()), next)
    {
      if status.Live? {
        if budget == 0 {
          status := Crashed;
        } else {
          net, budget := next, budget - 1;
        }
      }
    }

    method LogAction(a: Action)
      modifies this
      ensures View() == DnsCutover.LogAction(old(View()), old(j), a)
    {
      SetJournal(j.(actions := j.actions + [a], pending := Idle));
    }

    method Fail()
      modifies this
      ensures View() == Refuse(old(View()))
    {
      if status.Live? {
        status := Refused;
      }
    }

    // ----- cutover -----

    method CutoverBeta(want: Route)
      modifies this
      ensures View() == DnsCutover.CutoverBeta(old(View()), want)
    {
      hide SameRoute, MatchesBaseline, HasCutover;
      var rs := net.dns.beta;
      if |rs| != 1 || rs[0].id != j.base.id {
        Fail();
        return;
      }
      if SameRoute(rs[0], want) {
        if j.pending == CutoverOf(Beta) {
          LogAction(DidCutover(Beta, j.base.id));
        } else if j.phase == Reversed || !HasCutover(j) {
          Fail();
        }
        return;
      }
      if !MatchesBaseline(rs[0], j.base) {
        Fail();
        return;
      }
      SetJournal(j.(pending := CutoverOf(Beta)));
      Call(net.(dns := net.dns.(beta := PatchById(rs, j.base.id, x => PatchRoute(x, want)))));
      var after := net.dns.beta;
      if |after| != 1 || after[0].id != j.base.id || !SameRoute(after[0], want) {
        Fail();
        return;
      }
      LogAction(DidCutover(Beta, j.base.id));
    }

    method CutoverSibling(h: Host, want: Route)
      modifies this
      ensures View() == DnsCutover.CutoverSibling(old(View()), h, want)
    {
      hide SameRoute, DnsCutover.CreateSibling;
      var rs, recorded := net.dns.At(h), j.created.At(h);
      if rs != [] {
        if |rs| != 1 || !SameRoute(rs[0], want) || (recorded.Some? && rs[0].id != recorded.value)
           || (recorded.None? && j.pending != CutoverOf(h)) {
          Fail();
        } else if recorded.None? {
          j := j.(created := j.created.With(h, Some(rs[0].id)));
          LogAction(CreatedRecord(h, rs[0].id));
        }
      } else if recorded.Some? {
        Fail();
      } else {
        CreateSibling(h, want);
      }
    }

    method CreateSibling(h: Host, want: Route)
      modifies this
      ensures View() == DnsCutover.CreateSibling(old(View()), h, want)
    {
      hide SameRoute, RouteRecord, Save, WriteNet, DnsCutover.LogAction, Refuse;
      var rs := net.dns.At(h);
      SetJournal(j.(pending := CutoverOf(h)));
      var id := net.nextId;
      Call(net.(dns := net.dns.With(h, rs + [RouteRecord(id, want)]), nextId := id + 1,
                posts := net.posts.With(h, net.posts.At(h) + 1)));
      SetJournal(j.(created := j.created.With(h, Some(id))));
      var after := net.dns.At(h);
      if |after| != 1 || after[0].id != id || !SameRoute(after[0], want) {
        Fail();
        return;
      }
      LogAction(CreatedRecord(h, id));
    }

    method Cutover(ready: bool)
      requires View() == Start(View().world, budget)
      modifies this
      ensures View() == RunCutover(old(View()).world, ready, old(budget))
      ensures old(WorldInv(View().world)) ==> WorldInv(View().world)
      ensures old(Resumable(View().world)) && ready && old(budget) >= 12 ==> status.Done? && AtPreview(View().world)
    {
      ghost var start := View().world;
      if WorldInv(start) {
        CutoverKeeps(start, ready, budget);
      }
      if Resumable(start) {
        CutoverResumes(start, budget);
      }
      hide WorldInv, Resumable, AtPreview;
      hide DnsCutover.CutoverBeta, DnsCutover.CutoverSibling, Cname;
      if !CutoverAllowed(View().world, ready) {
        Fail();
        return;
      }
      var i := 0;
      while i < |HOSTS|
        invariant 0 <= i <= |HOSTS|
        invariant CutoverHosts(View(), HOSTS[i..]) == CutoverHosts(old(View()), HOSTS)
      {
        if status.Live? && j.tunnelId.Some? {
          var want := Cname(j, j.tunnelId.value);
          if !net.guarded {
            Fail();
          } else if HOSTS[i] == Beta {
            CutoverBeta(want);
          } else {
            CutoverSibling(HOSTS[i], want);
          }
        }
        i := i + 1;
      }
      Conclude(CutOver);
    }

    method Conclude(phase: Phase)
      modifies this
      ensures View() == Finish(old(View()), phase)
    {
      SetJournal(j.(phase := phase));
      if status.Live? {
        status := Done;
      }
    }

    // ----- reverse -----

    method ReverseSibling(h: Host, want: Route)
      modifies this
      ensures View() == DnsCutover.ReverseSibling(old(View()), h, want)
    {
      hide SameRoute;
      var rs := net.dns.At(h);
      if |rs| == 1 && j.created.At(h).None? && j.pending == CutoverOf(h) && SameRoute(rs[0], want) {
        j := j.(created := j.created.With(h, Some(rs[0].id)));
        LogAction(CreatedRecord(h, rs[0].id));
      }
      var rid := j.created.At(h);
      if rs == [] {
        if rid.Some? {
          if j.pending != ReverseOf(h) {
            Fail();
          } else {
            j := j.(created := j.created.With(h, None));
            LogAction(RemovedRecord(h, rid.value));
          }
        }
        return;
      }
      if |rs| != 1 || rid.None? || rs[0].id != rid.value || !SameRoute(rs[0], want) {
        Fail();
        return;
      }
      SetJournal(j.(pending := ReverseOf(h)));
      Call(net.(dns := net.dns.With(h, DeleteById(rs, rid.value))));
      if net.dns.At(h) != [] {
        Fail();
        return;
      }
      j := j.(created := j.created.With(h, None));
      LogAction(RemovedRecord(h, rid.value));
    }

    method ReverseBeta(want: Route)
      modifies this
      ensures View() == DnsCutover.ReverseBeta(old(View()), want)
    {
      hide SameRoute, MatchesBaseline;
      var rs := net.dns.beta;
      if |rs| != 1 || rs[0].id != j.base.id {
        Fail();
        return;
      }
      if MatchesBaseline(rs[0], j.base) {
        if j.pending == ReverseOf(Beta) {
          LogAction(ReversedBeta(j.base.id));
        } else if j.phase == CutOver {
          Fail();
        }
        return;
      }
      if !SameRoute(rs[0], want) {
        Fail();
        return;
      }
      var base := j.base;
      SetJournal(j.(pending := ReverseOf(Beta)));
      Call(net.(dns := net.dns.(beta := PatchById(rs, base.id, x => PatchRestore(x, base)))));
      var after := net.dns.beta;
      if |after| != 1 || !MatchesBaseline(after[0], base) {
        Fail();
        return;
      }
      LogAction(ReversedBeta(base.id));
    }

    method Reverse()
      requires View() == Start(View().world, budget)
      modifies this
      ensures View() == RunReverse(old(View()).world, old(budget))
      ensures old(WorldInv(View().world)) ==> WorldInv(View().world)
      ensures old(WorldInv(View().world)) && old(disk.phase) != Inventoried && !status.Crashed? ==> Restored(View().world, old(disk.base))
    {
      ghost var start := View().world;
      if WorldInv(start) {
        ReverseKeeps(start, budget);
        if disk.phase != Inventoried {
          ReverseRecovers(start, budget);
        }
      }
      hide WorldInv, AtBaseline, SiblingsGone, RestoredOutside, Restored;
      hide DnsCutover.ReverseBeta, DnsCutover.ReverseSibling, Cname;
      if !ReverseAllowed(View().world) {
        Fail();
        return;
      }
      var i := |HOSTS|;
      assert HOSTS[..i] == HOSTS;
      while i > 0
        invariant 0 <= i <= |HOSTS|
        invariant ReverseHosts(View(), HOSTS[..i]) == ReverseHosts(old(View()), HOSTS)
      {
        assert HOSTS[..i][..i - 1] == HOSTS[..i - 1];
        i := i - 1;
        if status.Live? && j.tunnelId.Some? {
          var want := Cname(j, j.tunnelId.value);
          if !net.guarded {
            Fail();
          } else if HOSTS[i] == Beta {
            ReverseBeta(want);
          } else {
            ReverseSibling(HOSTS[i], want);
          }
        }
      }
      Conclude(Reversed);
    }

    // ----- prepare -----

    method EnsureTunnel()
      modifies this
      ensures View() == DnsCutover.EnsureTunnel(old(View()))
    {
      if |net.tunnels| > 1 {
        Fail();
        return;
      }
      if j.tunnelId.Some? {
        return;
      }
      var id;
      if net.tunnels != [] {
        if j.pending != CreateTunnel {
          Fail();
          return;
        }
        id := net.tunnels[0].id;
      } else {
        SetJournal(j.(pending := CreateTunnel));
        id := net.nextId;
        Call(net.(tunnels := net.tunnels + [TunnelState(id, net.newConfig)], nextId := id + 1, tunnelPosts := net.tunnelPosts + 1));
      }
      SetJournal(j.(tunnelId := Some(id)));
      LogAction(CreatedTunnel(id));
    }

    method EnsureIngress()
      modifies this
      ensures View() == DnsCutover.EnsureIngress(old(View()))
    {
      hide ConfigOf, TunnelOwned;
      if !status.Live? {
        return;
      }
      if j.tunnelId.None? || !TunnelOwned(View().world) {
        Fail();
        return;
      }
      var id := j.tunnelId.value;
      var current := ConfigOf(net.tunnels, id);
      if current == Expected {
        if j.pending == ConfigureTunnel {
          LogAction(ConfiguredTunnel);
        } else if ConfiguredTunnel !in j.actions {
          Fail();
        }
        return;
      }
      if (j.pending == ConfigureTunnel && current != Unset) || current == Foreign {
        Fail();
        return;
      }
      SetJournal(j.(pending := ConfigureTunnel));
      Call(net.(tunnels := Configure(net.tunnels, id)));
      if ConfigOf(net.tunnels, id) != Expected {
        Fail();
        return;
      }
      LogAction(ConfiguredTunnel);
    }

    method EnsureToken()
      modifies this
      ensures View() == DnsCutover.EnsureToken(old(View()))
    {
      if !status.Live? || j.tunnelId.None? {
        return;
      }
      if token.None? {
        if budget == 0 {
          status := Crashed;
        } else {
          token, budget := j.tunnelId, budget - 1;
        }
      } else if token != j.tunnelId {
        Fail();
      }
    }

    method Prepare()
      requires View() == Start(View().world, budget)
      modifies this
      ensures View() == RunPrepare(old(View()).world, old(budget))
      ensures old(WorldInv(View().world)) ==> WorldInv(View().world)
      ensures status.Refused? && old(Preparable(View().world)) ==> View().world == old(View().world)
    {
      ghost var start := View().world;
      if WorldInv(start) {
        PrepareKeeps(start, budget);
      }
      if Preparable(start) {
        PrepareOutcome(start, budget);
      }
      hide WorldInv, Preparable, Stuck, Resumable;
      hide DnsCutover.EnsureTunnel, DnsCutover.EnsureIngress, DnsCutover.EnsureToken, Finish;
      if disk.phase !in {Inventoried, Prepared} || !net.guarded || !AtBaseline(View().world) {
        Fail();
        return;
      }
      EnsureTunnel();
      EnsureIngress();
      EnsureToken();
      Conclude(Prepared);
    }
  }
}
