/** Releasing a build: switch in the coordinator writes static trees, immutable manifests and the
    current pointer, and may die after any of these writes; the gateway reads them. Stored content is
    its own address. */
module ReleaseRoute {
  import opened Common
  import opened Bytes
  import opened Paths
  import opened Archive
  import opened GuestOutput
  import opened Unpackers
  import opened OutputRoundTrip

  type Raw = seq<byte>
  type Id = seq<byte>

  const MAX_INPUT: nat := 1024 * 1024
  const MAX_MANIFEST: nat := 512 * 1024
  const MAX_RETAINED: nat := 3

  /** Two addresses: of an HCA1 archive and of its build manifest. */
  datatype Asset = Asset(archive: Raw, manifest: Raw)

  datatype Retained = Retained(release: Id, asset: Asset)

  /** A parsed route manifest; `rest` holds the fields that only equality looks at. */
  datatype Manifest = Manifest(project: Id, release: Id, generation: int, frontend: Option<Asset>, retained: seq<Retained>,
                               drainDeadline: Option<int>, rest: Raw)

  /** JSON decoding of route manifests and build manifests, and uuid.UUID. A build manifest names the
      archive it describes. */
  datatype Decoders = Decoders(route: Raw -> Option<Manifest>, build: Raw -> Option<(BuildManifest, Raw)>, uuid: Raw -> bool)

  datatype Route = Route(manifests: set<Raw>, current: Option<Raw>)

  const NO_ROUTE := Route({}, None)

  datatype State = State(statics: map<Raw, seq<Entry>>, routes: map<Id, Route>)

  const EMPTY := State(map[], map[])

  function RouteOf(s: State, project: Id): Route {
    if project in s.routes then s.routes[project] else NO_ROUTE
  }

  /** Code points of a UTF-8 text: the length Python sees before encoding. */
  function Characters(raw: Raw): nat {
    if raw == [] then 0 else (if Continuation(raw[0]) then 0 else 1) + Characters(raw[1..])
  }

  // ----- the coordinator -----

  /** The bytes serde_json writes for one byte of a string. */
  function EscapedByte(b: byte): nat {
    if b in {34, 92, 8, 9, 10, 12, 13} then 2 else if b < 32 then 6 else 1
  }

  function EscapedSize(text: Raw): nat {
    if text == [] then 0 else EscapedByte(text[0]) + EscapedSize(text[1..])
  }

  /** A switch request: the manifest as an object in the text `sent`, and once more as the exact string
      whose digest was committed. `other` counts the rest of the request file. */
  datatype Request = Request(prepared: bool, manifest: Manifest, sent: Raw, exact: Option<Raw>, digest: Raw, generation: int, other: nat)

  function InputSize(q: Request): nat {
    |q.sent| + (if q.exact.Some? then 2 + EscapedSize(q.exact.value) else 0) + q.other
  }

  predicate ValidRoute(m: Manifest) {
    m.generation > 0 && |m.retained| <= MAX_RETAINED
  }

  /** Every check that precedes the first write: those of load, validate_route and switch. */
  predicate Admissible(q: Request, d: Decoders) {
    && InputSize(q) <= MAX_INPUT && d.route(q.sent) == Some(q.manifest)
    && q.prepared && ValidRoute(q.manifest) && q.exact.Some? && Characters(q.exact.value) <= MAX_MANIFEST
    && d.route(q.exact.value) == Some(q.manifest) && q.digest == q.exact.value && q.manifest.generation == q.generation
  }

  function Assets(m: Manifest): seq<Asset> {
    (if m.frontend.Some? then [m.frontend.value] else []) + seq(|m.retained|, i requires 0 <= i < |m.retained| => m.retained[i].asset)
  }

  /** Where a run stands: it still has a budget of durable writes, or it has stopped. */
  datatype Progress = Going(budget: nat) | Refused | Crashed

  /** extract_static: a tree appears under its archive's address in one rename, or not at all. */
  function Install(statics: map<Raw, seq<Entry>>, a: Asset, cas: set<Raw>, d: Decoders, budget: nat): (map<Raw, seq<Entry>>, Progress) {
    var described := d.build(a.manifest);
    if a.manifest !in cas || described.None? || described.value.1 != a.archive || a.archive !in cas then (statics, Refused)
    else if a.archive in statics then (statics, Going(budget))
    else
      var files := ExtractStatic(a.archive, described.value.0, d.uuid);
      if files.None? then (statics, Refused)
      else if budget == 0 then (statics, Crashed)
      else (statics[a.archive := files.value], Going(budget - 1))
  }

  function InstallAll(statics: map<Raw, seq<Entry>>, assets: seq<Asset>, cas: set<Raw>, d: Decoders, budget: nat): (map<Raw, seq<Entry>>, Progress)
    decreases |assets|
  {
    if assets == [] then (statics, Going(budget))
    else
      var (next, p) := Install(statics, assets[0], cas, d, budget);
      if p.Going? then InstallAll(next, assets[1..], cas, d, p.budget) else (next, p)
  }

  datatype Outcome = Switched | NotSwitched | Died

  /** The pointer may move to this manifest: no later generation is current, and no other content
      under the same generation. */
  predicate MayFollow(current: Option<Raw>, m: Manifest, d: Decoders) {
    current.Some? ==>
      var prior := d.route(current.value);
      prior.Some? && prior.value.generation <= m.generation && (prior.value.generation == m.generation ==> prior.value == m)
  }

  function SetRoute(s: State, project: Id, r: Route): State {
    s.(routes := s.routes[project := r])
  }

  /** The two pointer writes, once every tree is installed. */
  function Publish(s: State, raw: Raw, m: Manifest, d: Decoders, budget: nat): (State, Outcome) {
    var r := RouteOf(s, m.project);
    var stored := raw in r.manifests;
    if !stored && budget == 0 then (s, Died)
    else
      var s1 := SetRoute(s, m.project, r.(manifests := r.manifests + {raw}));
      var left := if stored then budget else budget - 1;
      if !MayFollow(r.current, m, d) then (s1, NotSwitched)
      else if left == 0 then (s1, Died)
      else (SetRoute(s, m.project, Route(r.manifests + {raw}, Some(raw))), Switched)
  }

  /** One run of switch that dies when its budget of durable writes is spent. */
  function Switch(s: State, q: Request, cas: set<Raw>, d: Decoders, budget: nat): (State, Outcome) {
    if !Admissible(q, d) then (s, NotSwitched)
    else
      var (statics, p) := InstallAll(s.statics, Assets(q.manifest), cas, d, budget);
      var s1 := s.(statics := statics);
      match p
      case Refused => (s1, NotSwitched)
      case Crashed => (s1, Died)
      case Going(left) => Publish(s1, q.exact.value, q.manifest, d, left)
  }

  datatype Run = Run(request: Request, cas: set<Raw>, budget: nat)

  function RunAll(s: State, runs: seq<Run>, d: Decoders): State
    decreases |runs|
  {
    if runs == [] then s else RunAll(Switch(s, runs[0].request, runs[0].cas, d, runs[0].budget).0, runs[1..], d)
  }

  // ----- the gateway -----

  /** load_regular refuses a file above 512 KiB. */
  predicate Loadable(raw: Raw) {
    |raw| <= MAX_MANIFEST
  }

  function Active(s: State, project: Id, d: Decoders): Option<Manifest> {
    var r := RouteOf(s, project);
    if r.current.None? || !Loadable(r.current.value) || r.current.value !in r.manifests then None
    else
      var m := d.route(r.current.value);
      if m.None? || m.value.generation <= 0 || m.value.project != project then None else m
  }

  function RetainedFor(retained: seq<Retained>, release: Id): (asset: Option<Asset>)
    ensures asset.Some? ==> Retained(release, asset.value) in retained
    ensures asset.None? ==> forall i :: 0 <= i < |retained| ==> retained[i].release != release
  {
    if retained == [] then None
    else if retained[0].release == release then Some(retained[0].asset) else RetainedFor(retained[1..], release)
  }

  predicate Matches(raw: Raw, project: Id, release: Id, asset: Asset, d: Decoders) {
    Loadable(raw) &&
    var m := d.route(raw);
    m.Some? && m.value.generation > 0 && m.value.project == project && m.value.release == release && m.value.frontend == Some(asset)
  }

  /** The first match in the order the directory lists its manifests. */
  function FirstMatch(listing: seq<Raw>, project: Id, release: Id, asset: Asset, d: Decoders): Option<Raw> {
    if listing == [] then None
    else if Matches(listing[0], project, release, asset, d) then Some(listing[0])
    else FirstMatch(listing[1..], project, release, asset, d)
  }

  function RequestedRelease(listing: seq<Raw>, active: Manifest, project: Id, cookie: Option<Id>, now: int, d: Decoders): Manifest {
    if cookie.None? || cookie.value == active.release || active.drainDeadline.None? || now > active.drainDeadline.value then active
    else
      var asset := RetainedFor(active.retained, cookie.value);
      if asset.None? then active
      else
        var found := FirstMatch(listing, project, cookie.value, asset.value, d);
        if found.Some? && d.route(found.value).Some? then d.route(found.value).value else active
  }

  // ----- what every reachable state satisfies -----

  /** The tree is what extraction of its archive yields. */
  ghost predicate Unpacked(archive: Raw, files: seq<Entry>, d: Decoders) {
    exists m: BuildManifest :: ExtractStatic(archive, m, d.uuid) == Some(files)
  }

  ghost predicate TreesOk(statics: map<Raw, seq<Entry>>, d: Decoders) {
    forall a :: a in statics ==> Unpacked(a, statics[a], d)
  }

  predicate AllInstalled(statics: map<Raw, seq<Entry>>, assets: seq<Asset>) {
    forall i :: 0 <= i < |assets| ==> assets[i].archive in statics
  }

  /** A stored manifest decodes, belongs here and names only installed trees. */
  predicate StoredOk(statics: map<Raw, seq<Entry>>, project: Id, raw: Raw, d: Decoders) {
    var m := d.route(raw);
    m.Some? && ValidRoute(m.value) && m.value.project == project && AllInstalled(statics, Assets(m.value))
  }

  predicate RouteOk(statics: map<Raw, seq<Entry>>, project: Id, r: Route, d: Decoders) {
    && (forall raw :: raw in r.manifests ==> StoredOk(statics, project, raw, d))
    && (r.current.Some? ==> r.current.value in r.manifests)
  }

  ghost predicate Inv(s: State, d: Decoders) {
    TreesOk(s.statics, d) && forall p :: p in s.routes ==> RouteOk(s.statics, p, s.routes[p], d)
  }

  /** Nothing installed or stored goes away or changes. */
  predicate Grows(a: map<Raw, seq<Entry>>, b: map<Raw, seq<Entry>>) {
    forall k :: k in a ==> k in b && b[k] == a[k]
  }

  /** The pointer moves forward: the generation never drops, and does not change content while it stays. */
  predicate PointerAdvances(a: Option<Raw>, b: Option<Raw>, d: Decoders) {
    a.Some? ==>
      && b.Some?
      && var from := d.route(a.value);
         var to := d.route(b.value);
      from.Some? ==> to.Some? && from.value.generation <= to.value.generation
                     && (from.value.generation == to.value.generation ==> from.value == to.value)
  }

  predicate RouteAdvances(a: Route, b: Route, d: Decoders) {
    a.manifests <= b.manifests && PointerAdvances(a.current, b.current, d)
  }

  ghost predicate Advances(s: State, t: State, d: Decoders) {
    Grows(s.statics, t.statics) && forall p :: RouteAdvances(RouteOf(s, p), RouteOf(t, p), d)
  }

  lemma InstallKeeps(statics: map<Raw, seq<Entry>>, a: Asset, cas: set<Raw>, d: Decoders, budget: nat)
    requires TreesOk(statics, d)
    ensures var (next, p) := Install(statics, a, cas, d, budget);
            TreesOk(next, d) && Grows(statics, next) && (p.Going? ==> a.archive in next)
  {
    hide ExtractStatic;
    var next := Install(statics, a, cas, d, budget).0;
    forall k | k in next
      ensures Unpacked(k, next[k], d)
    {
      if k in statics {
        assert Unpacked(k, statics[k], d);
      }
    }
  }

  lemma {:induction false} InstallAllKeeps(statics: map<Raw, seq<Entry>>, assets: seq<Asset>, cas: set<Raw>, d: Decoders, budget: nat)
    requires TreesOk(statics, d)
    ensures var (next, p) := InstallAll(statics, assets, cas, d, budget);
            TreesOk(next, d) && Grows(statics, next) && (p.Going? ==> AllInstalled(next, assets))
    decreases |assets|
  {
    hide Install, TreesOk;
    if assets != [] {
      InstallKeeps(statics, assets[0], cas, d, budget);
      var (first, p) := Install(statics, assets[0], cas, d, budget);
      if p.Going? {
        InstallAllKeeps(first, assets[1..], cas, d, p.budget);
        var (next, q) := InstallAll(first, assets[1..], cas, d, p.budget);
        if q.Going? {
          forall i | 0 <= i < |assets|
            ensures assets[i].archive in next
          {
            if i > 0 {
              assert assets[i] == assets[1..][i - 1];
            }
          }
        }
      }
    }
  }

  lemma RouteKeptByGrowth(a: map<Raw, seq<Entry>>, b: map<Raw, seq<Entry>>, project: Id, r: Route, d: Decoders)
    requires RouteOk(a, project, r, d) && Grows(a, b)
    ensures RouteOk(b, project, r, d)
  {
    hide Assets, ValidRoute;
    forall raw | raw in r.manifests
      ensures StoredOk(b, project, raw, d)
    {
      assert StoredOk(a, project, raw, d);
    }
  }

  lemma PublishKeeps(s: State, raw: Raw, m: Manifest, d: Decoders, budget: nat)
    requires Inv(s, d) && d.route(raw) == Some(m) && ValidRoute(m) && AllInstalled(s.statics, Assets(m))
    ensures var (t, o) := Publish(s, raw, m, d, budget);
            && Inv(t, d) && Advances(s, t, d) && t.statics == s.statics
            && (o == Switched ==> RouteOf(t, m.project).current == Some(raw))
  {
    hide TreesOk, Assets, ValidRoute, AllInstalled;
    var r := RouteOf(s, m.project);
    var t := Publish(s, raw, m, d, budget).0;
    assert RouteOk(s.statics, m.project, r, d);
    forall p | p in t.routes
      ensures RouteOk(t.statics, p, t.routes[p], d)
    {
      if p == m.project {
        forall x | x in t.routes[p].manifests
          ensures StoredOk(t.statics, p, x, d)
        {
          assert x in r.manifests ==> StoredOk(s.statics, p, x, d);
        }
      }
    }
    forall p
      ensures RouteAdvances(RouteOf(s, p), RouteOf(t, p), d)
    {
    }
  }

  /** Whatever the request and wherever it dies, a run keeps the invariant and only moves forward. */
  lemma SwitchKeeps(s: State, q: Request, cas: set<Raw>, d: Decoders, budget: nat)
    requires Inv(s, d)
    ensures var (t, o) := Switch(s, q, cas, d, budget);
            && Inv(t, d) && Advances(s, t, d)
            && (o == Switched ==> RouteOf(t, q.manifest.project).current == q.exact && q.exact.Some?)
  {
    hide InstallAll, Publish, Assets, TreesOk, RouteOk, AllInstalled;
    if Admissible(q, d) {
      var (statics, p) := InstallAll(s.statics, Assets(q.manifest), cas, d, budget);
      InstallAllKeeps(s.statics, Assets(q.manifest), cas, d, budget);
      var s1 := s.(statics := statics);
      forall x | x in s1.routes
        ensures RouteOk(s1.statics, x, s1.routes[x], d)
      {
        RouteKeptByGrowth(s.statics, statics, x, s.routes[x], d);
      }
      if p.Going? {
        PublishKeeps(s1, q.exact.value, q.manifest, d, p.budget);
        var t := Publish(s1, q.exact.value, q.manifest, d, p.budget).0;
        forall x
          ensures RouteAdvances(RouteOf(s, x), RouteOf(t, x), d)
        {
          assert RouteOf(s, x) == RouteOf(s1, x);
          assert RouteAdvances(RouteOf(s1, x), RouteOf(t, x), d);
        }
      }
    }
  }

  lemma AdvancesTransitive(a: State, b: State, c: State, d: Decoders)
    requires Advances(a, b, d) && Advances(b, c, d)
    ensures Advances(a, c, d)
  {
    forall p
      ensures RouteAdvances(RouteOf(a, p), RouteOf(c, p), d)
    {
      assert RouteAdvances(RouteOf(a, p), RouteOf(b, p), d) && RouteAdvances(RouteOf(b, p), RouteOf(c, p), d);
    }
  }

  lemma {:induction false} RunsAdvance(s: State, runs: seq<Run>, d: Decoders)
    requires Inv(s, d)
    ensures Inv(RunAll(s, runs, d), d) && Advances(s, RunAll(s, runs, d), d)
    decreases |runs|
  {
    hide Switch, Inv;
    if runs != [] {
      var t := Switch(s, runs[0].request, runs[0].cas, d, runs[0].budget).0;
      SwitchKeeps(s, runs[0].request, runs[0].cas, d, runs[0].budget);
      RunsAdvance(t, runs[1..], d);
      AdvancesTransitive(s, t, RunAll(t, runs[1..], d), d);
    }
  }

  lemma {:induction false} RunAllSplits(s: State, runs: seq<Run>, more: seq<Run>, d: Decoders)
    ensures RunAll(s, runs + more, d) == RunAll(RunAll(s, runs, d), more, d)
    decreases |runs|
  {
    hide Switch;
    if runs == [] {
      assert [] + more == more;
    } else {
      assert (runs + more)[1..] == runs[1..] + more;
      RunAllSplits(Switch(s, runs[0].request, runs[0].cas, d, runs[0].budget).0, runs[1..], more, d);
    }
  }

  // ----- main results -----

  /** Over any sequence of runs from an empty state root, each dying anywhere: the current pointer is a
      stored manifest, and between any two moments it only moves forward. */
  lemma PointerIsSafe(runs: seq<Run>, more: seq<Run>, project: Id, d: Decoders)
    ensures var earlier := RouteOf(RunAll(EMPTY, runs, d), project);
            var later := RouteOf(RunAll(EMPTY, runs + more, d), project);
            && (earlier.current.Some? ==> earlier.current.value in earlier.manifests)
            && earlier.manifests <= later.manifests && PointerAdvances(earlier.current, later.current, d)
  {
    hide Advances, StoredOk;
    RunsAdvance(EMPTY, runs, d);
    var s := RunAll(EMPTY, runs, d);
    RunsAdvance(s, more, d);
    RunAllSplits(EMPTY, runs, more, d);
    assert RouteAdvances(RouteOf(s, project), RouteOf(RunAll(s, more, d), project), d) by {
      AdvancesAt(s, RunAll(s, more, d), project, d);
    }
  }

  lemma AdvancesAt(s: State, t: State, project: Id, d: Decoders)
    requires Advances(s, t, d)
    ensures RouteAdvances(RouteOf(s, project), RouteOf(t, project), d) && Grows(s.statics, t.statics)
  {
  }

  lemma {:induction false} FirstMatchIsListed(listing: seq<Raw>, project: Id, release: Id, asset: Asset, d: Decoders)
    ensures var f := FirstMatch(listing, project, release, asset, d);
            && (f.Some? ==> f.value in listing && Matches(f.value, project, release, asset, d))
            && (f.None? ==> forall i :: 0 <= i < |listing| ==> !Matches(listing[i], project, release, asset, d))
    decreases |listing|
  {
    hide Matches;
    if listing != [] {
      FirstMatchIsListed(listing[1..], project, release, asset, d);
    }
  }

  /** The visitor holds another release, the active route still drains and retains it, and its manifest
      is stored. */
  predicate Draining(listing: seq<Raw>, active: Manifest, project: Id, cookie: Option<Id>, now: int, d: Decoders) {
    && cookie.Some? && cookie.value != active.release && active.drainDeadline.Some? && now <= active.drainDeadline.value
    && RetainedFor(active.retained, cookie.value).Some?
    && exists i :: 0 <= i < |listing| && Matches(listing[i], project, cookie.value, RetainedFor(active.retained, cookie.value).value, d)
  }

  /** A visitor stays on the release of the cookie, with the frontend the active route retains for it,
      exactly while that release drains; everyone else gets the active route. */
  lemma DrainSelection(listing: seq<Raw>, active: Manifest, project: Id, cookie: Option<Id>, now: int, d: Decoders)
    ensures var selected := RequestedRelease(listing, active, project, cookie, now, d);
            if Draining(listing, active, project, cookie, now, d) then
              selected.project == project && selected.release == cookie.value
              && selected.frontend == RetainedFor(active.retained, cookie.value)
            else selected == active
  {
    if cookie.Some? && RetainedFor(active.retained, cookie.value).Some? {
      FirstMatchIsListed(listing, project, cookie.value, RetainedFor(active.retained, cookie.value).value, d);
    }
  }

  /** What the gateway selects is always a stored manifest of this project. */
  lemma SelectionIsStored(s: State, project: Id, listing: seq<Raw>, cookie: Option<Id>, now: int, d: Decoders) returns (raw: Raw)
    requires Inv(s, d) && Active(s, project, d).Some?
    requires forall i :: 0 <= i < |listing| ==> listing[i] in RouteOf(s, project).manifests
    ensures raw in RouteOf(s, project).manifests
    ensures d.route(raw) == Some(RequestedRelease(listing, Active(s, project, d).value, project, cookie, now, d))
  {
    hide TreesOk, StoredOk;
    var active := Active(s, project, d).value;
    raw := RouteOf(s, project).current.value;
    if cookie.Some? && cookie.value != active.release && active.drainDeadline.Some? && now <= active.drainDeadline.value {
      var asset := RetainedFor(active.retained, cookie.value);
      if asset.Some? {
        FirstMatchIsListed(listing, project, cookie.value, asset.value, d);
        var found := FirstMatch(listing, project, cookie.value, asset.value, d);
        if found.Some? {
          raw := found.value;
        }
      }
    }
  }

  /** The tree behind a frontend the gateway selects is installed and is what its archive unpacks to. */
  lemma SelectionIsInstalled(s: State, project: Id, listing: seq<Raw>, cookie: Option<Id>, now: int, d: Decoders)
    requires Inv(s, d) && Active(s, project, d).Some?
    requires forall i :: 0 <= i < |listing| ==> listing[i] in RouteOf(s, project).manifests
    ensures var selected := RequestedRelease(listing, Active(s, project, d).value, project, cookie, now, d);
            selected.frontend.Some? ==>
              selected.frontend.value.archive in s.statics
              && Unpacked(selected.frontend.value.archive, s.statics[selected.frontend.value.archive], d)
  {
    var raw := SelectionIsStored(s, project, listing, cookie, now, d);
    hide Active, RequestedRelease;
    assert StoredOk(s.statics, project, raw, d);
    var m := d.route(raw).value;
    if m.frontend.Some? {
      assert Assets(m)[0] == m.frontend.value;
    }
  }

  /** After any runs, and for any cookie, time and listing order: if the gateway selects a release with a
      frontend, that frontend's tree is installed and is what its archive unpacks to. */
  lemma SelectedFrontendIsInstalled(runs: seq<Run>, project: Id, listing: seq<Raw>, cookie: Option<Id>, now: int, d: Decoders)
    requires var s := RunAll(EMPTY, runs, d);
             && Active(s, project, d).Some? && forall i :: 0 <= i < |listing| ==> listing[i] in RouteOf(s, project).manifests
    ensures var s := RunAll(EMPTY, runs, d);
            var selected := RequestedRelease(listing, Active(s, project, d).value, project, cookie, now, d);
            selected.frontend.Some? ==>
              selected.frontend.value.archive in s.statics
              && Unpacked(selected.frontend.value.archive, s.statics[selected.frontend.value.archive], d)
  {
    RunsAdvance(EMPTY, runs, d);
    SelectionIsInstalled(RunAll(EMPTY, runs, d), project, listing, cookie, now, d);
  }

  /** End to end: a selected frontend whose archive is what the builder stored for a guest's artifact is
      served as exactly that artifact's files. */
  lemma ServedFiles(a: Archive, l: Limits, forbidden: seq<seq<byte>>, files: seq<Entry>, d: Decoders)
    requires Machine(l) && Accepted(a, l, forbidden) && Unpacked(HcaBytes(a), files, d)
    ensures a.kind == STATIC && files == a.entries
  {
    hide EntriesBytes, ReadHead, ReadEntries, EntriesOk, HcaBytes, ReceiveRules, PathsOf, PackageJson, Utf8, ValidUuid;
    var m: BuildManifest :| ExtractStatic(HcaBytes(a), m, d.uuid) == Some(files);
    assert |a.service| <= 128 by {
      UuidFits(a.service);
    }
    HcaParts(a, l, forbidden, 128);
    StaticExtracts(a, l, forbidden, d.uuid);
  }

  /** After a switch the gateway serves the new manifest iff it fits the gateway's size limit in bytes;
      the coordinator counted characters. */
  lemma ActiveAfterSwitch(s: State, q: Request, cas: set<Raw>, d: Decoders, budget: nat)
    requires Inv(s, d) && Switch(s, q, cas, d, budget).1 == Switched
    ensures q.exact.Some?
    ensures Active(Switch(s, q, cas, d, budget).0, q.manifest.project, d) == if |q.exact.value| <= 524_288 then Some(q.manifest) else None
  {
    SwitchKeeps(s, q, cas, d, budget);
    hide InstallAll, Publish, Assets, TreesOk, AllInstalled;
    var t := Switch(s, q, cas, d, budget).0;
    assert q.manifest.project in t.routes;
    assert RouteOk(t.statics, q.manifest.project, RouteOf(t, q.manifest.project), d);
  }

  lemma {:induction false} EscapedSizeBounds(text: Raw)
    ensures |text| <= EscapedSize(text) <= 6 * |text|
    decreases |text|
  {
    if text != [] {
      EscapedSizeBounds(text[1..]);
    }
  }

  lemma {:induction false} CharactersBound(raw: Raw)
    ensures Characters(raw) <= |raw| && (Ascii(raw) ==> Characters(raw) == |raw|)
    decreases |raw|
  {
    if raw != [] {
      CharactersBound(raw[1..]);
    }
  }

  /** With the manifest as the control plane sends it, its text no longer than the object, every switched
      route fits the gateway: both copies share one mebibyte of input. A route that does not fit has a
      text longer than the object, with a character that takes more than one byte. */
  lemma OutgrowingNeedsPadding(q: Request, d: Decoders)
    requires Admissible(q, d)
    ensures |q.exact.value| <= |q.sent| ==> |q.exact.value| <= 524_288
    ensures |q.exact.value| > 524_288 ==> |q.sent| < |q.exact.value| && !Ascii(q.exact.value)
  {
    EscapedSizeBounds(q.exact.value);
    CharactersBound(q.exact.value);
  }

  lemma CompactManifestsLoad(s: State, q: Request, cas: set<Raw>, d: Decoders, budget: nat)
    requires Inv(s, d) && Switch(s, q, cas, d, budget).1 == Switched && q.exact.Some? && |q.exact.value| <= |q.sent|
    ensures Active(Switch(s, q, cas, d, budget).0, q.manifest.project, d) == Some(q.manifest)
  {
    ActiveAfterSwitch(s, q, cas, d, budget);
    OutgrowingNeedsPadding(q, d);
  }

  function Spaces(n: nat): (raw: Raw)
    ensures |raw| == n
  {
    seq(n, _ => 32)
  }

  lemma {:induction false} CharactersAppend(a: Raw, b: Raw)
    ensures Characters(a + b) == Characters(a) + Characters(b)
    ensures EscapedSize(a + b) == EscapedSize(a) + EscapedSize(b)
    decreases |a|
  {
    if a == [] {
      assert a + b == b;
    } else {
      assert (a + b)[1..] == a[1..] + b;
      CharactersAppend(a[1..], b);
    }
  }

  lemma {:induction false} SpacesSize(n: nat)
    ensures EscapedSize(Spaces(n)) == n && Characters(Spaces(n)) == n
  {
    if n > 0 {
      assert Spaces(n)[1..] == Spaces(n - 1);
      SpacesSize(n - 1);
    }
  }

  /** The manifest's text behind as many blanks as the coordinator's limit leaves room for. */
  function Stretched(compact: Raw): Raw {
    Spaces(if Characters(compact) <= MAX_MANIFEST then MAX_MANIFEST - Characters(compact) else 0) + compact
  }

  function StretchedRequest(m: Manifest, compact: Raw, other: nat): Request {
    Request(true, m, compact, Some(Stretched(compact)), Stretched(compact), m.generation, other)
  }

  /** Any manifest with one character of two or more bytes, sent with its text stretched by blanks, is
      switched to whenever it may follow and its trees install, and the gateway then has no route. */
  lemma StretchedManifestIsLost(s: State, m: Manifest, compact: Raw, other: nat, cas: set<Raw>, d: Decoders, budget: nat)
    requires Inv(s, d) && ValidRoute(m) && d.route(compact) == Some(m) && d.route(Stretched(compact)) == Some(m)
    requires Characters(compact) < |compact| && 8 * |compact| + other + 2 <= MAX_INPUT - MAX_MANIFEST
    requires var p := InstallAll(s.statics, Assets(m), cas, d, budget).1; p.Going? && p.budget >= 2
    requires MayFollow(RouteOf(s, m.project).current, m, d)
    ensures var (t, o) := Switch(s, StretchedRequest(m, compact, other), cas, d, budget);
            o == Switched && RouteOf(t, m.project).current == Some(Stretched(compact)) && Active(t, m.project, d).None?
  {
    hide InstallAll, Assets, TreesOk, AllInstalled, Characters, EscapedSize;
    var q := StretchedRequest(m, compact, other);
    var n := MAX_MANIFEST - Characters(compact);
    SpacesSize(n);
    CharactersAppend(Spaces(n), compact);
    EscapedSizeBounds(compact);
    assert Admissible(q, d);
    ActiveAfterSwitch(s, q, cas, d, budget);
    SwitchKeeps(s, q, cas, d, budget);
  }

  /** UTF-8 of a string below U+0800. */
  function Encoded(text: string): Raw {
    if text == "" then []
    else
      var c := text[0] as int;
      (if c < 128 then [c] else if c < 0x800 then [0xC0 + c / 64, 0x80 + c % 64] else [63]) + Encoded(text[1..])
  }

  lemma {:induction false} EncodedSize(text: string, i: nat)
    requires i < |text| && 128 <= text[i] as int < 0x800
    ensures |text| <= |Encoded(text)| <= 2 * |text| && Characters(Encoded(text)) < |Encoded(text)|
    decreases |text|
  {
    var head := Encoded(text)[..|Encoded(text)| - |Encoded(text[1..])|];
    var rest := Encoded(text[1..]);
    assert Encoded(text) == head + rest;
    CharactersAppend(head, rest);
    CharactersBound(head);
    CharactersBound(rest);
    EncodedLength(text[1..]);
    if i == 0 {
      assert head[1..] == [head[1]] && head[1..][1..] == [];
    } else {
      EncodedSize(text[1..], i - 1);
    }
  }

  lemma {:induction false} EncodedLength(text: string)
    ensures |text| <= |Encoded(text)| <= 2 * |text|
    decreases |text|
  {
    if text != "" {
      EncodedLength(text[1..]);
    }
  }

  const NOTE := "{\"note\":\"\U{E9}\","
  const FIELDS := "\"schema\":\"hostlet.route-manifest/v1\",\"generation\":1,\"frontend\":null,\"backend\":null,\"retained_assets\":[],"
  const IDS1 := "\"project_id\":\"00000000-0000-0000-0000-000000000001\",\"release_id\":\"00000000-0000-0000-0000-000000000002\","
  const IDS2 := "\"deployment_id\":\"00000000-0000-0000-0000-000000000003\",\"configuration_revision_id\":\"00000000-0000-0000-0000-000000000004\"}"

  const EXAMPLE_MANIFEST := NOTE + FIELDS + IDS1 + IDS2

  /** The difference of the two limits is real for this JSON text, under every decoder that reads a text
      the same behind blanks. */
  lemma ExampleIsLost(m: Manifest, d: Decoders)
    requires var raw := Encoded(EXAMPLE_MANIFEST); d.route(raw) == Some(m) && d.route(Stretched(raw)) == Some(m)
    requires m.generation == 1 && m.frontend.None? && m.retained == []
    ensures var (t, o) := Switch(EMPTY, StretchedRequest(m, Encoded(EXAMPLE_MANIFEST), 1024), {}, d, 2);
            o == Switched && Active(t, m.project, d).None?
  {
    var text := EXAMPLE_MANIFEST;
    assert NOTE[9] == '\U{E9}' && |text| < 1000;
    assert text[9] == NOTE[9];
    hide Encoded, Stretched;
    EncodedSize(text, 9);
    assert Assets(m) == [];
    StretchedManifestIsLost(EMPTY, m, Encoded(text), 1024, {}, d, 2);
  }

  // ----- a switch that died can be repeated -----

  predicate SameEnd(p: Progress, q: Progress) {
    p.Refused? == q.Refused? && p.Going? == q.Going?
  }

  lemma {:induction false} InstallAllGrows(statics: map<Raw, seq<Entry>>, assets: seq<Asset>, cas: set<Raw>, d: Decoders, budget: nat)
    ensures Grows(statics, InstallAll(statics, assets, cas, d, budget).0)
    decreases |assets|
  {
    hide ExtractStatic;
    if assets != [] {
      var (first, p) := Install(statics, assets[0], cas, d, budget);
      if p.Going? {
        InstallAllGrows(first, assets[1..], cas, d, p.budget);
      }
    }
  }

  /** One write for each tree is enough, and more changes nothing. */
  lemma {:induction false} AmpleInstalls(statics: map<Raw, seq<Entry>>, assets: seq<Asset>, cas: set<Raw>, d: Decoders, b: nat, c: nat, spare: nat)
    requires b >= |assets| + spare && c >= |assets|
    ensures var (t, p) := InstallAll(statics, assets, cas, d, b);
            var (u, q) := InstallAll(statics, assets, cas, d, c);
            t == u && SameEnd(p, q) && !p.Crashed? && (p.Going? ==> p.budget >= spare)
    decreases |assets|
  {
    hide ExtractStatic;
    if assets != [] {
      var (t, p) := Install(statics, assets[0], cas, d, b);
      var (u, q) := Install(statics, assets[0], cas, d, c);
      if p.Going? {
        AmpleInstalls(t, assets[1..], cas, d, p.budget, q.budget, spare);
      }
    }
  }

  lemma {:induction false} InstallsResume(statics: map<Raw, seq<Entry>>, assets: seq<Asset>, cas: set<Raw>, d: Decoders, b: nat, ample: nat)
    requires ample >= |assets|
    ensures var (t, p) := InstallAll(InstallAll(statics, assets, cas, d, b).0, assets, cas, d, ample);
            var (u, q) := InstallAll(statics, assets, cas, d, ample);
            t == u && SameEnd(p, q)
    decreases |assets|
  {
    hide ExtractStatic;
    if assets != [] {
      var a, rest := assets[0], assets[1..];
      var (first, p) := Install(statics, a, cas, d, b);
      if p.Going? {
        var next := InstallAll(first, rest, cas, d, p.budget).0;
        InstallAllGrows(first, rest, cas, d, p.budget);
        assert a.archive in next;
        assert Install(next, a, cas, d, ample) == (next, Going(ample));
        InstallsResume(first, rest, cas, d, p.budget, ample);
        var (f, q) := Install(statics, a, cas, d, ample);
        assert f == first;
        AmpleInstalls(first, rest, cas, d, ample, q.budget, 0);
      }
    }
  }

  lemma PublishResumes(s: State, raw: Raw, m: Manifest, d: Decoders, b: nat, ample: nat, ample': nat)
    requires d.route(raw) == Some(m) && ample >= 2 && ample' >= 2
    ensures Publish(Publish(s, raw, m, d, b).0, raw, m, d, ample') == Publish(s, raw, m, d, ample)
    ensures Publish(s, raw, m, d, b).0.statics == s.statics
  {
    var t := Publish(s, raw, m, d, b).0;
    var r, after := RouteOf(s, m.project), RouteOf(t, m.project);
    var stored := Route(r.manifests + {raw}, r.current);
    var moved := Route(r.manifests + {raw}, Some(raw));
    assert after.manifests + {raw} == r.manifests + {raw};
    assert after.current == r.current || after.current == Some(raw);
    assert t.routes[m.project := stored] == s.routes[m.project := stored];
    assert t.routes[m.project := moved] == s.routes[m.project := moved];
    assert MayFollow(after.current, m, d) == MayFollow(r.current, m, d);
  }

  /** Repeating a request after a run that died anywhere ends as if the first run had not died. */
  lemma SwitchResumes(s: State, q: Request, cas: set<Raw>, d: Decoders, b: nat, ample: nat)
    requires ample >= |Assets(q.manifest)| + 2
    ensures Switch(Switch(s, q, cas, d, b).0, q, cas, d, ample) == Switch(s, q, cas, d, ample)
  {
    if Admissible(q, d) {
      var assets, raw, m := Assets(q.manifest), q.exact.value, q.manifest;
      assert d.route(raw) == Some(m);
      hide InstallAll, Publish, Admissible, Assets;
      InstallsResume(s.statics, assets, cas, d, b, ample);
      AmpleInstalls(s.statics, assets, cas, d, ample, ample, 2);
      var (part, p) := InstallAll(s.statics, assets, cas, d, b);
      AmpleInstalls(part, assets, cas, d, ample, ample, 2);
      if p.Going? {
        PublishResumes(s.(statics := part), raw, m, d, p.budget, 2, 2);
        InstalledOnce(s.statics, assets, cas, d, b, ample);
        var (full, r) := InstallAll(s.statics, assets, cas, d, ample);
        var (again, r') := InstallAll(part, assets, cas, d, ample);
        PublishResumes(s.(statics := part), raw, m, d, p.budget, r.budget, r'.budget);
      } else {
        var (full, r) := InstallAll(s.statics, assets, cas, d, ample);
        var (again, r') := InstallAll(part, assets, cas, d, ample);
        if r.Going? {
          PublishAmple(s.(statics := full), raw, m, d, r.budget, r'.budget);
        }
      }
    }
  }

  lemma PublishAmple(s: State, raw: Raw, m: Manifest, d: Decoders, b: nat, c: nat)
    requires b >= 2 && c >= 2
    ensures Publish(s, raw, m, d, b) == Publish(s, raw, m, d, c)
  {
  }

  /** A run that installed everything has installed what an ample one would. */
  lemma {:induction false} InstalledOnce(statics: map<Raw, seq<Entry>>, assets: seq<Asset>, cas: set<Raw>, d: Decoders, b: nat, ample: nat)
    requires ample >= |assets| && InstallAll(statics, assets, cas, d, b).1.Going?
    ensures InstallAll(statics, assets, cas, d, ample).0 == InstallAll(statics, assets, cas, d, b).0
    ensures InstallAll(statics, assets, cas, d, ample).1.Going?
    decreases |assets|
  {
    hide ExtractStatic;
    if assets != [] {
      var (first, p) := Install(statics, assets[0], cas, d, b);
      var (f, q) := Install(statics, assets[0], cas, d, ample);
      assert f == first;
      InstalledOnce(first, assets[1..], cas, d, p.budget, q.budget);
    }
  }

  function Retry(s: State, q: Request, cas: set<Raw>, d: Decoders, budgets: seq<nat>): State
    decreases |budgets|
  {
    if budgets == [] then s else Retry(Switch(s, q, cas, d, budgets[0]).0, q, cas, d, budgets[1..])
  }

  /** Any number of runs that died anywhere, then one that does not: the same end as one run. */
  lemma {:induction false} CrashedSwitchesResume(s: State, q: Request, cas: set<Raw>, d: Decoders, budgets: seq<nat>, ample: nat)
    requires ample >= |Assets(q.manifest)| + 2
    ensures Switch(Retry(s, q, cas, d, budgets), q, cas, d, ample) == Switch(s, q, cas, d, ample)
    decreases |budgets|
  {
    hide Switch;
    if budgets != [] {
      SwitchResumes(s, q, cas, d, budgets[0], ample);
      CrashedSwitchesResume(Switch(s, q, cas, d, budgets[0]).0, q, cas, d, budgets[1..], ample);
    }
  }
}
