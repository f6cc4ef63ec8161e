/** The coordinator as the script runs it: its state root is updated write by write, and the process
    dies when its budget of durable writes is spent. */
module ReleaseStore {
  import opened Common
  import opened Archive
  import opened Unpackers
  import opened ReleaseRoute

  class Coordinator {
    var statics: map<Raw, seq<Entry>>
    var routes: map<Id, Route>

    ghost function View(): State
      reads this
    {
      State(statics, routes)
    }

    constructor ()
      ensures View() == EMPTY
    {
      statics, routes := map[], map[];
    }

    /** extract_static: verify the build manifest, reuse an installed tree, else unpack and rename. */
    method Extract(a: Asset, cas: set<Raw>, d: Decoders, budget: nat) returns (p: Progress)
      modifies this`statics
      ensures (statics, p) == Install(old(statics), a, cas, d, budget)
    {
      var described := d.build(a.manifest);
      if a.manifest !in cas || described.None? || described.value.1 != a.archive || a.archive !in cas {
        return Refused;
      }
      if a.archive in statics {
        return Going(budget);
      }
      var files := UnpackStatic(a.archive, described.value.0, d.uuid);
      if files.None? {
        return Refused;
      }
      if budget == 0 {
        return Crashed;
      }
      statics := statics[a.archive := files.value];
      p := Going(budget - 1);
    }

    /** The trees of the frontend and of every retained asset, in that order. */
    method ExtractAll(m: Manifest, cas: set<Raw>, d: Decoders, budget: nat) returns (p: Progress)
      modifies this`statics
      ensures (statics, p) == InstallAll(old(statics), Assets(m), cas, d, budget)
    {
      ghost var assets := Assets(m);
      ghost var first := if m.frontend.Some? then 1 else 0;
      p := Going(budget);
      assert assets[0..] == assets;
      if m.frontend.Some? {
        assert assets[0] == m.frontend.value;
        p := Extract(m.frontend.value, cas, d, budget);
        if !p.Going? {
          return;
        }
        assert assets[0..][1..] == assets[1..];
      }
      var i := 0;
      while i < |m.retained|
        invariant 0 <= i <= |m.retained| && p.Going?
        invariant InstallAll(old(statics), assets, cas, d, budget) == InstallAll(statics, assets[first + i..], cas, d, p.budget)
      {
        assert assets[first + i..][0] == m.retained[i].asset && assets[first + i..][1..] == assets[first + i + 1..];
        p := Extract(m.retained[i].asset, cas, d, p.budget);
        if !p.Going? {
          return;
        }
        i := i + 1;
      }
    }

    /** The immutable manifest, then the pointer. */
    method Publish(raw: Raw, m: Manifest, d: Decoders, budget: nat) returns (o: Outcome)
      modifies this`routes
      ensures (View(), o) == ReleaseRoute.Publish(old(View()), raw, m, d, budget)
    {
      hide MayFollow;
      var route := if m.project in routes then routes[m.project] else NO_ROUTE;
      var left := budget;
      if raw !in route.manifests {
        if left == 0 {
          return Died;
        }
        left := left - 1;
      }
      ghost var before := routes;
      routes := routes[m.project := route.(manifests := route.manifests + {raw})];
      if !MayFollow(route.current, m, d) {
        return NotSwitched;
      }
      if left == 0 {
        return Died;
      }
      var moved := Route(route.manifests + {raw}, Some(raw));
      routes := routes[m.project := moved];
      assert routes == before[m.project := moved];
      o := Switched;
    }

    method Switch(q: Request, cas: set<Raw>, d: Decoders, budget: nat) returns (o: Outcome)
      modifies this
      ensures (View(), o) == ReleaseRoute.Switch(old(View()), q, cas, d, budget)
      ensures old(Inv(View(), d)) ==> Inv(View(), d) && Advances(old(View()), View(), d)
      ensures !Admissible(q, d) ==> View() == old(View())
    {
      ghost var before := View();
      if Inv(before, d) {
        SwitchKeeps(before, q, cas, d, budget);
      }
      hide Inv, Advances;
      if !Admissible(q, d) {
        return NotSwitched;
      }
      var raw, m := q.exact.value, q.manifest;
      hide InstallAll, Assets, Admissible, ReleaseRoute.Publish;
      var p := ExtractAll(m, cas, d, budget);
      if p.Refused? {
        return NotSwitched;
      }
      if p.Crashed? {
        return Died;
      }
      o := Publish(raw, m, d, p.budget);
    }
  }
}
