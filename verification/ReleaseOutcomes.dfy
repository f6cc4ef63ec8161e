/** When a switch goes through, and what has then been switched to. */
module ReleaseOutcomes {
  import opened Common
  import opened Archive
  import opened Unpackers
  import opened ReleaseRoute
  import opened Paths
  import opened WireFormat

  /** The store holds the archive and a build manifest that describes it. */
  predicate Described(a: Asset, cas: set<Raw>, d: Decoders) {
    && a.manifest in cas && a.archive in cas && d.build(a.manifest).Some? && d.build(a.manifest).value.1 == a.archive
  }

  /** The archive unpacks under the build manifest that describes it. */
  predicate Extracts(a: Asset, d: Decoders) {
    d.build(a.manifest).Some? && ExtractStatic(a.archive, d.build(a.manifest).value.0, d.uuid).Some?
  }

  /** One of the first `n` assets unpacks this archive. */
  predicate Supplied(assets: seq<Asset>, n: nat, archive: Raw, d: Decoders)
    requires n <= |assets|
  {
    exists k :: 0 <= k < n && assets[k].archive == archive && Extracts(assets[k], d)
  }

  predicate Ready(statics: map<Raw, seq<Entry>>, assets: seq<Asset>, i: nat, cas: set<Raw>, d: Decoders)
    requires i < |assets|
  {
    Described(assets[i], cas, d) && (assets[i].archive in statics || Supplied(assets, i + 1, assets[i].archive, d))
  }

  /** Every asset is described, and its tree is there already or one of the assets up to it unpacks it. */
  predicate Installable(statics: map<Raw, seq<Entry>>, assets: seq<Asset>, cas: set<Raw>, d: Decoders) {
    forall i :: 0 <= i < |assets| ==> Ready(statics, assets, i, cas, d)
  }

  lemma SuppliedTail(assets: seq<Asset>, n: nat, archive: Raw, d: Decoders)
    requires 0 < n <= |assets|
    ensures Supplied(assets, n, archive, d) <==> (assets[0].archive == archive && Extracts(assets[0], d)) || Supplied(assets[1..], n - 1, archive, d)
  {
    hide Extracts;
    if Supplied(assets[1..], n - 1, archive, d) {
      var k :| 0 <= k < n - 1 && assets[1..][k].archive == archive && Extracts(assets[1..][k], d);
      assert assets[k + 1] == assets[1..][k];
    }
    if Supplied(assets, n, archive, d) {
      var k :| 0 <= k < n && assets[k].archive == archive && Extracts(assets[k], d);
      assert k > 0 ==> assets[1..][k - 1] == assets[k];
    }
  }

  lemma InstallableTail(statics: map<Raw, seq<Entry>>, next: map<Raw, seq<Entry>>, assets: seq<Asset>, cas: set<Raw>, d: Decoders)
    requires assets != [] && Described(assets[0], cas, d) && (assets[0].archive in statics || Extracts(assets[0], d))
    requires next.Keys == statics.Keys + {assets[0].archive}
    ensures Installable(statics, assets, cas, d) <==> Installable(next, assets[1..], cas, d)
  {
    hide Described, Extracts, Supplied;
    var rest := assets[1..];
    SuppliedTail(assets, 1, assets[0].archive, d);
    assert Ready(statics, assets, 0, cas, d);
    forall i | 0 <= i < |rest|
      ensures Ready(statics, assets, i + 1, cas, d) <==> Ready(next, rest, i, cas, d)
    {
      SuppliedTail(assets, i + 2, rest[i].archive, d);
    }
    hide Ready;
    if Installable(next, rest, cas, d) {
      forall i | 0 <= i < |assets|
        ensures Ready(statics, assets, i, cas, d)
      {
        assert i > 0 ==> Ready(next, rest, i - 1, cas, d);
      }
    }
  }

  lemma FirstNotReady(statics: map<Raw, seq<Entry>>, assets: seq<Asset>, cas: set<Raw>, d: Decoders)
    requires assets != [] && !(Described(assets[0], cas, d) && (assets[0].archive in statics || Extracts(assets[0], d)))
    ensures !Installable(statics, assets, cas, d)
  {
    hide Described, Extracts;
    assert !Ready(statics, assets, 0, cas, d);
  }

  /** With a write to spare for each tree, the installations go through iff the assets are installable; a
      tree that was not there is then what its archive unpacks to. */
  lemma {:induction false} InstallsIff(statics: map<Raw, seq<Entry>>, assets: seq<Asset>, cas: set<Raw>, d: Decoders, budget: nat)
    requires budget >= |assets|
    ensures InstallAll(statics, assets, cas, d, budget).1.Going? <==> Installable(statics, assets, cas, d)
    decreases |assets|
  {
    if assets != [] {
      var (next, p) := Install(statics, assets[0], cas, d, budget);
      if p.Going? {
        InstallableTail(statics, next, assets, cas, d);
        hide Install, Installable;
        InstallsIff(next, assets[1..], cas, d, p.budget);
      } else {
        FirstNotReady(statics, assets, cas, d);
        hide Installable, ExtractStatic;
      }
    }
  }

  /** Nothing is current, or an earlier generation is, or this very manifest. */
  predicate Supersedes(current: Option<Raw>, m: Manifest, d: Decoders) {
    current.None? || (d.route(current.value).Some? && (d.route(current.value).value.generation < m.generation || d.route(current.value).value == m))
  }

  /** With enough writes to spend, an admissible request is switched to iff its trees can be installed and
      it supersedes what is current; otherwise the pointer stays. */
  lemma SwitchIff(s: State, q: Request, cas: set<Raw>, d: Decoders, budget: nat)
    requires budget >= |Assets(q.manifest)| + 2
    ensures var (t, o) := Switch(s, q, cas, d, budget); var m := q.manifest;
            && o != Died
            && (o == Switched <==>
                  Admissible(q, d) && Installable(s.statics, Assets(m), cas, d) && Supersedes(RouteOf(s, m.project).current, m, d))
            && (o != Switched ==> RouteOf(t, m.project).current == RouteOf(s, m.project).current)
  {
    hide InstallAll, Assets, Admissible, Installable;
    InstallsIff(s.statics, Assets(q.manifest), cas, d, budget);
    AmpleInstalls(s.statics, Assets(q.manifest), cas, d, budget, budget, 2);
  }

  /** What is switched to: the text whose digest was committed, stored under that digest, the text of the
      manifest sent, of the generation requested. Every tree it names is installed and described in
      the store, and the earlier pointer was of no later generation. */
  lemma SwitchedTo(s: State, q: Request, cas: set<Raw>, d: Decoders, budget: nat)
    requires Inv(s, d) && Switch(s, q, cas, d, budget).1 == Switched
    ensures var t := Switch(s, q, cas, d, budget).0; var m := q.manifest; var r := RouteOf(t, m.project);
            && r.current == Some(q.digest) && q.digest in r.manifests && q.exact == Some(q.digest)
            && d.route(q.digest) == Some(m) && d.route(q.sent) == Some(m)
            && m.generation == q.generation > 0 && |m.retained| <= 3 && q.prepared
            && InputSize(q) <= 1_048_576 && Characters(q.digest) <= 524_288
            && (m.frontend.Some? ==> Described(m.frontend.value, cas, d) && m.frontend.value.archive in t.statics)
            && (forall i :: 0 <= i < |m.retained| ==> Described(m.retained[i].asset, cas, d) && m.retained[i].asset.archive in t.statics)
            && Supersedes(RouteOf(s, m.project).current, m, d)
  {
    hide InstallAll, Publish, Assets, TreesOk, RouteOk, Described, Characters, InputSize, Supersedes, ValidRoute;
    var m := q.manifest;
    var (statics, p) := InstallAll(s.statics, Assets(m), cas, d, budget);
    AssetsInstalled(s, m, cas, d, budget);
    PublishedPointer(s.(statics := statics), q.digest, m, d, p.budget);
    AdmissibleMeans(q, d);
  }

  lemma AdmissibleMeans(q: Request, d: Decoders)
    requires Admissible(q, d)
    ensures InputSize(q) <= 1_048_576 && Characters(q.digest) <= 524_288 && |q.manifest.retained| <= 3 && q.generation > 0
  {
  }

  lemma AssetsInstalled(s: State, m: Manifest, cas: set<Raw>, d: Decoders, budget: nat)
    requires TreesOk(s.statics, d) && InstallAll(s.statics, Assets(m), cas, d, budget).1.Going?
    ensures var statics := InstallAll(s.statics, Assets(m), cas, d, budget).0;
            && (m.frontend.Some? ==> Described(m.frontend.value, cas, d) && m.frontend.value.archive in statics)
            && (forall i :: 0 <= i < |m.retained| ==> Described(m.retained[i].asset, cas, d) && m.retained[i].asset.archive in statics)
  {
    hide InstallAll, TreesOk, Assets, Described;
    forall i | 0 <= i < |m.retained|
      ensures Described(m.retained[i].asset, cas, d) && m.retained[i].asset.archive in InstallAll(s.statics, Assets(m), cas, d, budget).0
    {
      NamedAssets(m, i);
      AssetInstalled(s.statics, Assets(m), cas, d, budget, m.retained[i].asset);
    }
    if m.frontend.Some? {
      NamedAssets(m, 0);
      AssetInstalled(s.statics, Assets(m), cas, d, budget, m.frontend.value);
    }
  }

  lemma NamedAssets(m: Manifest, i: nat)
    ensures m.frontend.Some? ==> m.frontend.value in Assets(m)
    ensures i < |m.retained| ==> m.retained[i].asset in Assets(m)
  {
    if m.frontend.Some? {
      assert Assets(m)[0] == m.frontend.value;
    }
    if i < |m.retained| {
      assert Assets(m)[if m.frontend.Some? then i + 1 else i] == m.retained[i].asset;
    }
  }

  lemma AssetInstalled(statics: map<Raw, seq<Entry>>, assets: seq<Asset>, cas: set<Raw>, d: Decoders, budget: nat, a: Asset)
    requires TreesOk(statics, d) && InstallAll(statics, assets, cas, d, budget).1.Going? && a in assets
    ensures Described(a, cas, d) && a.archive in InstallAll(statics, assets, cas, d, budget).0
  {
    InstallAllKeeps(statics, assets, cas, d, budget);
    InstalledAreDescribed(statics, assets, cas, d, budget);
    hide InstallAll, TreesOk, Described;
  }

  lemma PublishedPointer(s: State, raw: Raw, m: Manifest, d: Decoders, budget: nat)
    requires Publish(s, raw, m, d, budget).1 == Switched
    ensures var t := Publish(s, raw, m, d, budget).0; var r := RouteOf(t, m.project);
            t.statics == s.statics && r.current == Some(raw) && raw in r.manifests && Supersedes(RouteOf(s, m.project).current, m, d)
  {
  }

  lemma {:induction false} InstalledAreDescribed(statics: map<Raw, seq<Entry>>, assets: seq<Asset>, cas: set<Raw>, d: Decoders, budget: nat)
    requires InstallAll(statics, assets, cas, d, budget).1.Going?
    ensures forall i :: 0 <= i < |assets| ==> Described(assets[i], cas, d)
    decreases |assets|
  {
    hide ExtractStatic;
    if assets != [] {
      var (next, p) := Install(statics, assets[0], cas, d, budget);
      InstalledAreDescribed(next, assets[1..], cas, d, p.budget);
      forall i | 0 <= i < |assets|
        ensures Described(assets[i], cas, d)
      {
        assert i > 0 ==> assets[i] == assets[1..][i - 1];
      }
    }
  }

  /** A tree that a run adds is what its archive, which the store holds, unpacks to under a build manifest that
      describes it. */
  lemma {:induction false} NewTreesAreUnpacked(statics: map<Raw, seq<Entry>>, assets: seq<Asset>, cas: set<Raw>, d: Decoders, budget: nat, archive: Raw)
    requires archive !in statics && archive in InstallAll(statics, assets, cas, d, budget).0
    ensures exists i :: 0 <= i < |assets| && assets[i].archive == archive && Described(assets[i], cas, d)
                        && ExtractStatic(archive, d.build(assets[i].manifest).value.0, d.uuid)
                           == Some(InstallAll(statics, assets, cas, d, budget).0[archive])
    decreases |assets|
  {
    hide ExtractStatic;
    var (next, p) := Install(statics, assets[0], cas, d, budget);
    if archive in next {
      assert assets[0].archive == archive && Described(assets[0], cas, d);
      if p.Going? {
        InstallAllGrows(next, assets[1..], cas, d, p.budget);
      }
    } else {
      NewTreesAreUnpacked(next, assets[1..], cas, d, p.budget, archive);
      var out := InstallAll(statics, assets, cas, d, budget).0;
      var i :| 0 <= i < |assets[1..]| && assets[1..][i].archive == archive && Described(assets[1..][i], cas, d)
               && ExtractStatic(archive, d.build(assets[1..][i].manifest).value.0, d.uuid) == Some(out[archive]);
      assert assets[i + 1] == assets[1..][i];
    }
  }

  lemma {:induction false} OneCharacter(c: int, rest: Raw)
    requires Scalar(c)
    ensures Characters(Octets(c) + rest) == 1 + Characters(rest)
  {
    var bs := Octets(c) + rest;
    CharactersAppend(Octets(c), rest);
    var tail := Octets(c)[1..];
    assert forall i :: 0 <= i < |tail| ==> Continuation(tail[i]);
    ContinuationsCountNone(tail);
  }

  lemma {:induction false} ContinuationsCountNone(bs: Raw)
    requires forall i :: 0 <= i < |bs| ==> Continuation(bs[i])
    ensures Characters(bs) == 0
    decreases |bs|
  {
    if bs != [] {
      ContinuationsCountNone(bs[1..]);
    }
  }

  /** The length the coordinator limits is the number of Unicode scalar values of the text. */
  lemma {:induction false} CharactersAreScalars(cs: seq<int>)
    requires Scalars(cs)
    ensures Characters(AllOctets(cs)) == |cs|
    decreases |cs|
  {
    if cs != [] {
      CharactersAreScalars(cs[1..]);
      OneCharacter(cs[0], AllOctets(cs[1..]));
    }
  }
}
