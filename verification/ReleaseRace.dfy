/** Several switches at once. The coordinator takes no lock, so each of its durable writes, and its look
    at the current pointer, is a step of its own, with steps of other switches in between. */
module ReleaseRace {
  import opened Common
  import opened Unpackers
  import opened ReleaseRoute

  /** What a switch does next. `Pointing` remembers how many pointer writes its project had seen when it
      looked at the pointer. */
  datatype Phase = Installing(k: nat) | Storing | Checking | Pointing(at: nat)

  datatype Process = Process(request: Request, cas: set<Raw>, phase: Phase)

  /** A pointer write, and how many came before the look it relies on. */
  datatype Move = Move(raw: Raw, m: Manifest, at: nat)

  datatype Race = Race(state: State, processes: map<nat, Process>, moves: map<Id, seq<Move>>)

  const START := Race(EMPTY, map[], map[])

  function MovesOf(r: Race, project: Id): seq<Move> {
    if project in r.moves then r.moves[project] else []
  }

  /** The pointer after the first `n` writes. */
  function PointerAt(h: seq<Move>, n: nat): Option<Raw>
    requires n <= |h|
  {
    if n == 0 then None else Some(h[n - 1].raw)
  }

  function SetPhase(r: Race, t: nat, p: Phase): Race
    requires t in r.processes
  {
    r.(processes := r.processes[t := r.processes[t].(phase := p)])
  }

  function End(r: Race, t: nat): Race {
    r.(processes := r.processes - {t})
  }

  function Begin(r: Race, t: nat, q: Request, cas: set<Raw>, d: Decoders): Race {
    if t in r.processes || !Admissible(q, d) then r else r.(processes := r.processes[t := Process(q, cas, Installing(0))])
  }

  function GoInstall(r: Race, t: nat, k: nat, d: Decoders): Race
    requires t in r.processes
  {
    var x := r.processes[t];
    var assets := Assets(x.request.manifest);
    if k >= |assets| then SetPhase(r, t, Storing)
    else
      var (statics, p) := Install(r.state.statics, assets[k], x.cas, d, 1);
      if p.Going? then SetPhase(r.(state := r.state.(statics := statics)), t, Installing(k + 1)) else End(r, t)
  }

  function GoStore(r: Race, t: nat): Race
    requires t in r.processes && r.processes[t].request.exact.Some?
  {
    var q := r.processes[t].request;
    var route := RouteOf(r.state, q.manifest.project);
    SetPhase(r.(state := SetRoute(r.state, q.manifest.project, route.(manifests := route.manifests + {q.exact.value}))), t, Checking)
  }

  function GoCheck(r: Race, t: nat, d: Decoders): Race
    requires t in r.processes
  {
    var m := r.processes[t].request.manifest;
    if MayFollow(RouteOf(r.state, m.project).current, m, d) then SetPhase(r, t, Pointing(|MovesOf(r, m.project)|)) else End(r, t)
  }

  function GoPoint(r: Race, t: nat, at: nat): Race
    requires t in r.processes && r.processes[t].request.exact.Some?
  {
    var q := r.processes[t].request;
    var m, raw := q.manifest, q.exact.value;
    End(r.(state := SetRoute(r.state, m.project, RouteOf(r.state, m.project).(current := Some(raw))),
           moves := r.moves[m.project := MovesOf(r, m.project) + [Move(raw, m, at)]]), t)
  }

  function Go(r: Race, t: nat, d: Decoders): Race {
    if t !in r.processes || r.processes[t].request.exact.None? then r
    else
      match r.processes[t].phase
      case Installing(k) => GoInstall(r, t, k, d)
      case Storing => GoStore(r, t)
      case Checking => GoCheck(r, t, d)
      case Pointing(at) => GoPoint(r, t, at)
  }

  datatype Step = DoBegin(t: nat, q: Request, cas: set<Raw>) | DoGo(t: nat) | DoDie(t: nat)

  function Apply(r: Race, s: Step, d: Decoders): Race {
    match s
    case DoBegin(t, q, cas) => Begin(r, t, q, cas, d)
    case DoGo(t) => Go(r, t, d)
    case DoDie(t) => End(r, t)
  }

  function ApplyAll(r: Race, steps: seq<Step>, d: Decoders): Race
    decreases |steps|
  {
    if steps == [] then r else ApplyAll(Apply(r, steps[0], d), steps[1..], d)
  }

  // ----- what every interleaving keeps -----

  ghost predicate ProcessOk(s: State, h: seq<Move>, x: Process, d: Decoders) {
    && Admissible(x.request, d)
    && var assets, raw, m := Assets(x.request.manifest), x.request.exact.value, x.request.manifest;
    match x.phase
    case Installing(k) => k <= |assets| && AllInstalled(s.statics, assets[..k])
    case Storing => AllInstalled(s.statics, assets)
    case Checking => raw in RouteOf(s, m.project).manifests
    case Pointing(at) => raw in RouteOf(s, m.project).manifests && at <= |h| && MayFollow(PointerAt(h, at), m, d)
  }

  predicate MoveOk(h: seq<Move>, i: nat, d: Decoders)
    requires i < |h|
  {
    d.route(h[i].raw) == Some(h[i].m) && h[i].at <= i && MayFollow(PointerAt(h, h[i].at), h[i].m, d)
  }

  predicate MovesOk(h: seq<Move>, d: Decoders) {
    forall i :: 0 <= i < |h| ==> MoveOk(h, i, d)
  }

  ghost predicate ProcessesOk(r: Race, d: Decoders) {
    forall t :: t in r.processes ==> ProcessOk(r.state, MovesOf(r, r.processes[t].request.manifest.project), r.processes[t], d)
  }

  ghost predicate HistoriesOk(r: Race, d: Decoders) {
    forall p :: MovesOk(MovesOf(r, p), d) && RouteOf(r.state, p).current == PointerAt(MovesOf(r, p), |MovesOf(r, p)|)
  }

  ghost predicate RaceInv(r: Race, d: Decoders) {
    Inv(r.state, d) && ProcessesOk(r, d) && HistoriesOk(r, d)
  }

  /** Trees, manifests and pointer writes only accumulate. */
  ghost predicate Later(r: Race, u: Race) {
    && Grows(r.state.statics, u.state.statics)
    && forall p :: RouteOf(r.state, p).manifests <= RouteOf(u.state, p).manifests && MovesOf(r, p) <= MovesOf(u, p)
  }

  lemma PointerAtPrefix(h: seq<Move>, more: seq<Move>, n: nat)
    requires n <= |h| && h <= more
    ensures PointerAt(more, n) == PointerAt(h, n)
  {
  }

  /** A process that has not moved stays in order while others do. */
  lemma ProcessStays(r: Race, u: Race, x: Process, d: Decoders)
    requires Later(r, u) && ProcessOk(r.state, MovesOf(r, x.request.manifest.project), x, d)
    ensures ProcessOk(u.state, MovesOf(u, x.request.manifest.project), x, d)
  {
    hide Admissible, Assets, MayFollow, PointerAt;
    var p := x.request.manifest.project;
    assert RouteOf(r.state, p).manifests <= RouteOf(u.state, p).manifests && MovesOf(r, p) <= MovesOf(u, p);
    if x.phase.Pointing? {
      PointerAtPrefix(MovesOf(r, p), MovesOf(u, p), x.phase.at);
    }
  }

  lemma OthersStay(r: Race, u: Race, t: nat, d: Decoders)
    requires ProcessesOk(r, d) && Later(r, u)
    requires u.processes.Keys <= r.processes.Keys + {t} && forall v :: v in u.processes && v != t ==> u.processes[v] == r.processes[v]
    requires t in u.processes ==> ProcessOk(u.state, MovesOf(u, u.processes[t].request.manifest.project), u.processes[t], d)
    ensures ProcessesOk(u, d)
  {
    hide ProcessOk, Later;
    forall v | v in u.processes
      ensures ProcessOk(u.state, MovesOf(u, u.processes[v].request.manifest.project), u.processes[v], d)
    {
      if v != t {
        ProcessStays(r, u, r.processes[v], d);
      }
    }
  }

  lemma SameStateLater(r: Race, u: Race)
    requires u.state == r.state && u.moves == r.moves
    ensures Later(r, u)
  {
  }

  lemma SameHistories(r: Race, u: Race, d: Decoders)
    requires HistoriesOk(r, d) && forall p :: RouteOf(u.state, p).current == RouteOf(r.state, p).current && MovesOf(u, p) == MovesOf(r, p)
    ensures HistoriesOk(u, d)
  {
    hide MovesOk;
  }

  lemma InstallStepKeeps(r: Race, t: nat, k: nat, d: Decoders)
    requires RaceInv(r, d) && t in r.processes && r.processes[t].phase == Installing(k)
    ensures RaceInv(GoInstall(r, t, k, d), d) && Later(r, GoInstall(r, t, k, d))
  {
    hide Admissible, Assets, Install, TreesOk, RouteOk, HistoriesOk, MayFollow;
    var x := r.processes[t];
    assert ProcessOk(r.state, MovesOf(r, x.request.manifest.project), x, d);
    var assets := Assets(x.request.manifest);
    var u := GoInstall(r, t, k, d);
    if k < |assets| {
      var (statics, p) := Install(r.state.statics, assets[k], x.cas, d, 1);
      InstallKeeps(r.state.statics, assets[k], x.cas, d, 1);
      if p.Going? {
        forall y | y in u.state.routes
          ensures RouteOk(u.state.statics, y, u.state.routes[y], d)
        {
          RouteKeptByGrowth(r.state.statics, statics, y, r.state.routes[y], d);
        }
        assert assets[..k + 1] == assets[..k] + [assets[k]];
      }
    } else {
      assert assets[..k] == assets;
    }
    assert forall y :: RouteOf(u.state, y) == RouteOf(r.state, y) && MovesOf(u, y) == MovesOf(r, y);
    SameHistories(r, u, d);
    OthersStay(r, u, t, d);
  }

  lemma StoreStepKeeps(r: Race, t: nat, d: Decoders)
    requires RaceInv(r, d) && t in r.processes && r.processes[t].phase == Storing && r.processes[t].request.exact.Some?
    ensures RaceInv(GoStore(r, t), d) && Later(r, GoStore(r, t))
  {
    hide Assets, TreesOk, AllInstalled, HistoriesOk, ValidRoute, MayFollow;
    var x := r.processes[t];
    var q := x.request;
    assert ProcessOk(r.state, MovesOf(r, q.manifest.project), x, d);
    assert d.route(q.exact.value) == Some(q.manifest) && ValidRoute(q.manifest);
    var u := GoStore(r, t);
    forall p | p in u.state.routes
      ensures RouteOk(u.state.statics, p, u.state.routes[p], d)
    {
      var before := RouteOf(r.state, p);
      assert RouteOk(r.state.statics, p, before, d);
      forall raw | raw in u.state.routes[p].manifests
        ensures StoredOk(u.state.statics, p, raw, d)
      {
        assert raw in before.manifests ==> StoredOk(r.state.statics, p, raw, d);
      }
    }
    forall p
      ensures RouteOf(u.state, p).current == RouteOf(r.state, p).current && MovesOf(u, p) == MovesOf(r, p)
    {
    }
    SameHistories(r, u, d);
    OthersStay(r, u, t, d);
  }

  lemma CheckStepKeeps(r: Race, t: nat, d: Decoders)
    requires RaceInv(r, d) && t in r.processes && r.processes[t].phase == Checking
    ensures RaceInv(GoCheck(r, t, d), d) && Later(r, GoCheck(r, t, d))
  {
    hide Inv, Assets, AllInstalled, MovesOk, Admissible;
    var x := r.processes[t];
    assert ProcessOk(r.state, MovesOf(r, x.request.manifest.project), x, d);
    var u := GoCheck(r, t, d);
    assert forall p :: MovesOf(u, p) == MovesOf(r, p);
    OthersStay(r, u, t, d);
  }

  lemma AppendMove(h: seq<Move>, x: Move, d: Decoders)
    requires MovesOk(h, d) && d.route(x.raw) == Some(x.m) && x.at <= |h| && MayFollow(PointerAt(h, x.at), x.m, d)
    ensures MovesOk(h + [x], d) && PointerAt(h + [x], |h| + 1) == Some(x.raw)
  {
    hide MayFollow;
    var out := h + [x];
    forall i | 0 <= i < |out|
      ensures MoveOk(out, i, d)
    {
      if i < |h| {
        assert MoveOk(h, i, d);
        PointerAtPrefix(h, out, h[i].at);
      } else {
        PointerAtPrefix(h, out, x.at);
      }
    }
  }

  lemma PointStepKeeps(r: Race, t: nat, at: nat, d: Decoders)
    requires RaceInv(r, d) && t in r.processes && r.processes[t].phase == Pointing(at) && r.processes[t].request.exact.Some?
    ensures RaceInv(GoPoint(r, t, at), d) && Later(r, GoPoint(r, t, at))
  {
    hide Assets, TreesOk, AllInstalled, MovesOk, StoredOk, MayFollow;
    var x := r.processes[t];
    var q := x.request;
    var m, raw := q.manifest, q.exact.value;
    assert ProcessOk(r.state, MovesOf(r, m.project), x, d);
    assert d.route(raw) == Some(m);
    var u := GoPoint(r, t, at);
    AppendMove(MovesOf(r, m.project), Move(raw, m, at), d);
    assert RouteOk(r.state.statics, m.project, RouteOf(r.state, m.project), d);
    forall p | p in u.state.routes
      ensures RouteOk(u.state.statics, p, u.state.routes[p], d)
    {
      assert p != m.project ==> RouteOk(r.state.statics, p, r.state.routes[p], d);
    }
    forall p
      ensures MovesOk(MovesOf(u, p), d) && RouteOf(u.state, p).current == PointerAt(MovesOf(u, p), |MovesOf(u, p)|)
      ensures RouteOf(r.state, p).manifests <= RouteOf(u.state, p).manifests && MovesOf(r, p) <= MovesOf(u, p)
    {
      assert MovesOk(MovesOf(r, p), d) && RouteOf(r.state, p).current == PointerAt(MovesOf(r, p), |MovesOf(r, p)|);
    }
    OthersStay(r, u, t, d);
  }

  lemma StepKeeps(r: Race, s: Step, d: Decoders)
    requires RaceInv(r, d)
    ensures RaceInv(Apply(r, s, d), d) && Later(r, Apply(r, s, d))
  {
    hide Inv, GoInstall, GoStore, GoCheck, GoPoint, MovesOk;
    match s
    case DoBegin(t, q, cas) =>
      var u := Begin(r, t, q, cas, d);
      SameStateLater(r, u);
      assert forall p :: MovesOf(u, p) == MovesOf(r, p);
      OthersStay(r, u, t, d);
    case DoGo(t) =>
      if t in r.processes && r.processes[t].request.exact.Some? {
        match r.processes[t].phase
        case Installing(k) => InstallStepKeeps(r, t, k, d);
        case Storing => StoreStepKeeps(r, t, d);
        case Checking => CheckStepKeeps(r, t, d);
        case Pointing(at) => PointStepKeeps(r, t, at, d);
      } else {
        SameStateLater(r, r);
      }
    case DoDie(t) =>
      var u := End(r, t);
      SameStateLater(r, u);
      assert forall p :: MovesOf(u, p) == MovesOf(r, p);
      OthersStay(r, u, t, d);
  }

  lemma LaterTransitive(a: Race, b: Race, c: Race)
    requires Later(a, b) && Later(b, c)
    ensures Later(a, c)
  {
    forall p
      ensures RouteOf(a.state, p).manifests <= RouteOf(c.state, p).manifests && MovesOf(a, p) <= MovesOf(c, p)
    {
      assert RouteOf(a.state, p).manifests <= RouteOf(b.state, p).manifests && MovesOf(a, p) <= MovesOf(b, p);
      assert RouteOf(b.state, p).manifests <= RouteOf(c.state, p).manifests && MovesOf(b, p) <= MovesOf(c, p);
    }
  }

  lemma {:induction false} RunKeeps(r: Race, steps: seq<Step>, d: Decoders)
    requires RaceInv(r, d)
    ensures RaceInv(ApplyAll(r, steps, d), d) && Later(r, ApplyAll(r, steps, d))
    decreases |steps|
  {
    hide RaceInv, Later, Apply;
    if steps == [] {
      SameStateLater(r, r);
    } else {
      StepKeeps(r, steps[0], d);
      RunKeeps(Apply(r, steps[0], d), steps[1..], d);
      LaterTransitive(r, Apply(r, steps[0], d), ApplyAll(r, steps, d));
    }
  }

  lemma StartHolds(d: Decoders)
    ensures RaceInv(START, d)
  {
  }

  // ----- main results -----

  /** However switches overlap and die, the pointer is a stored manifest, and a frontend the gateway
      selects has its tree installed. */
  lemma OverlapIsSafe(steps: seq<Step>, project: Id, listing: seq<Raw>, cookie: Option<Id>, now: int, d: Decoders)
    ensures var s := ApplyAll(START, steps, d).state;
            && (RouteOf(s, project).current.Some? ==> RouteOf(s, project).current.value in RouteOf(s, project).manifests)
            && (Active(s, project, d).Some? && (forall i :: 0 <= i < |listing| ==> listing[i] in RouteOf(s, project).manifests) ==>
                  var selected := RequestedRelease(listing, Active(s, project, d).value, project, cookie, now, d);
                  selected.frontend.Some? ==>
                    selected.frontend.value.archive in s.statics
                    && Unpacked(selected.frontend.value.archive, s.statics[selected.frontend.value.archive], d))
  {
    StartHolds(d);
    RunKeeps(START, steps, d);
    hide Active, RequestedRelease, TreesOk, StoredOk, Unpacked, ProcessesOk, HistoriesOk;
    var s := ApplyAll(START, steps, d).state;
    if Active(s, project, d).Some? && forall i :: 0 <= i < |listing| ==> listing[i] in RouteOf(s, project).manifests {
      SelectionIsInstalled(s, project, listing, cookie, now, d);
    }
  }

  /** The write at `j` relies on a look that the write at `i` has outdated, and must not follow it. */
  predicate Overtaken(h: seq<Move>, i: nat, j: nat, d: Decoders)
    requires i < j < |h|
  {
    h[j].at <= i && !MayFollow(Some(h[i].raw), h[j].m, d)
  }

  predicate NoneOvertaken(h: seq<Move>, d: Decoders) {
    forall i, j :: 0 <= i < j < |h| ==> !Overtaken(h, i, j, d)
  }

  predicate Forward(h: seq<Move>, i: nat, j: nat, d: Decoders)
    requires i <= j <= |h|
  {
    PointerAdvances(PointerAt(h, i), PointerAt(h, j), d)
  }

  lemma ForwardTo(h: seq<Move>, i: nat, j: nat, d: Decoders)
    requires MovesOk(h, d) && i < j < |h|
    ensures Forward(h, i + 1, j + 1, d) <==> MayFollow(Some(h[i].raw), h[j].m, d)
  {
    assert MoveOk(h, i, d) && MoveOk(h, j, d);
  }

  lemma {:induction false} FollowsEarlier(h: seq<Move>, i: nat, j: nat, d: Decoders)
    requires MovesOk(h, d) && NoneOvertaken(h, d) && i < j < |h|
    ensures MayFollow(Some(h[i].raw), h[j].m, d)
    decreases j
  {
    assert MoveOk(h, i, d) && MoveOk(h, j, d) && !Overtaken(h, i, j, d);
    var at := h[j].at;
    if i < at {
      assert MoveOk(h, at - 1, d);
      if i < at - 1 {
        FollowsEarlier(h, i, at - 1, d);
      }
    }
  }

  /** Over any overlapping switches of a project the pointer only moves forward iff no pointer write is
      overtaken: between a switch's look at the pointer and its write, no other switch of a later
      generation, or of the same generation with other content, has written. */
  lemma ForwardIffNoneOvertaken(steps: seq<Step>, project: Id, d: Decoders)
    ensures var h := MovesOf(ApplyAll(START, steps, d), project);
            (forall i, j :: 0 <= i <= j <= |h| ==> Forward(h, i, j, d)) <==> NoneOvertaken(h, d)
  {
    StartHolds(d);
    RunKeeps(START, steps, d);
    var h := MovesOf(ApplyAll(START, steps, d), project);
    assert MovesOk(h, d);
    hide ApplyAll, MovesOf;
    if NoneOvertaken(h, d) {
      forall i, j | 0 <= i <= j <= |h|
        ensures Forward(h, i, j, d)
      {
        if 0 < i < j {
          FollowsEarlier(h, i - 1, j - 1, d);
          ForwardTo(h, i - 1, j - 1, d);
        } else if 0 < i {
          assert MoveOk(h, i - 1, d);
        }
      }
    }
    if forall i, j :: 0 <= i <= j <= |h| ==> Forward(h, i, j, d) {
      forall i, j | 0 <= i < j < |h|
        ensures !Overtaken(h, i, j, d)
      {
        assert Forward(h, i + 1, j + 1, d);
        ForwardTo(h, i, j, d);
      }
    }
  }

  /** The pointer of a moment is where the writes so far have put it, and later moments only add writes. */
  lemma PointersAreMoves(steps: seq<Step>, more: seq<Step>, project: Id, d: Decoders)
    ensures var r, u := ApplyAll(START, steps, d), ApplyAll(ApplyAll(START, steps, d), more, d);
            && RouteOf(r.state, project).current == PointerAt(MovesOf(r, project), |MovesOf(r, project)|)
            && RouteOf(u.state, project).current == PointerAt(MovesOf(u, project), |MovesOf(u, project)|)
            && MovesOf(r, project) <= MovesOf(u, project)
  {
    StartHolds(d);
    RunKeeps(START, steps, d);
    RunKeeps(ApplyAll(START, steps, d), more, d);
  }

  function Lead(t: nat): seq<Step> {
    [DoGo(t), DoGo(t), DoGo(t)]
  }

  lemma {:induction false} ApplyAllSplits(r: Race, steps: seq<Step>, more: seq<Step>, d: Decoders)
    ensures ApplyAll(r, steps + more, d) == ApplyAll(ApplyAll(r, steps, d), more, d)
    decreases |steps|
  {
    hide Apply;
    if steps == [] {
      assert [] + more == more;
    } else {
      assert (steps + more)[1..] == steps[1..] + more;
      ApplyAllSplits(Apply(r, steps[0], d), steps[1..], more, d);
    }
  }

  /** A switch without trees, from its start to just before its pointer write. */
  lemma LeadsToPointing(r: Race, t: nat, q: Request, d: Decoders)
    requires t !in r.processes && Admissible(q, d) && Assets(q.manifest) == []
    requires MayFollow(RouteOf(r.state, q.manifest.project).current, q.manifest, d)
    ensures var u := ApplyAll(Begin(r, t, q, {}, d), Lead(t), d);
            && u.processes == r.processes[t := Process(q, {}, Pointing(|MovesOf(r, q.manifest.project)|))]
            && u.moves == r.moves && RouteOf(u.state, q.manifest.project).current == RouteOf(r.state, q.manifest.project).current
  {
    assert q.exact.Some?;
    hide Assets, Admissible, MayFollow;
    var r0 := r.(processes := r.processes[t := Process(q, {}, Installing(0))]);
    var r1, r2 := Go(r0, t, d), Go(Go(r0, t, d), t, d);
    assert r1.processes == r.processes[t := Process(q, {}, Storing)];
    assert r2.processes == r.processes[t := Process(q, {}, Checking)];
    assert Lead(t)[1..] == [DoGo(t), DoGo(t)] && Lead(t)[1..][1..] == [DoGo(t)] && Lead(t)[1..][1..][1..] == [];
    assert ApplyAll(r2, [DoGo(t)], d) == Go(r2, t, d);
    assert ApplyAll(r0, Lead(t), d) == Go(r2, t, d);
  }

  /** Overtaking happens: of two switches that both look before either writes, the one of the lower
      generation can write last, and the pointer goes back. */
  lemma PointerCanGoBack(low: Request, high: Request, d: Decoders)
    requires Admissible(low, d) && Admissible(high, d) && Assets(low.manifest) == [] && Assets(high.manifest) == []
    requires low.manifest.project == high.manifest.project && low.manifest.generation < high.manifest.generation
    ensures var before := ApplyAll(START, [DoBegin(0, low, {})] + Lead(0) + ([DoBegin(1, high, {})] + Lead(1)) + [DoGo(1)], d);
            var after := ApplyAll(before, [DoGo(0)], d);
            && RouteOf(before.state, low.manifest.project).current == high.exact
            && RouteOf(after.state, low.manifest.project).current == low.exact
            && !PointerAdvances(high.exact, low.exact, d)
  {
    var p := low.manifest.project;
    var r1 := ApplyAll(Begin(START, 0, low, {}, d), Lead(0), d);
    var r2 := ApplyAll(Begin(r1, 1, high, {}, d), Lead(1), d);
    LeadsToPointing(START, 0, low, d);
    LeadsToPointing(r1, 1, high, d);
    hide Assets, MayFollow, Lead;
    BeginThen(START, 0, low, Lead(0), d);
    BeginThen(r1, 1, high, Lead(1), d);
    var first, second := [DoBegin(0, low, {})] + Lead(0), [DoBegin(1, high, {})] + Lead(1);
    ApplyAllSplits(START, first + second, [DoGo(1)], d);
    ApplyAllSplits(START, first, second, d);
    assert ApplyAll(START, first + second, d) == r2;
    assert [DoGo(1)][1..] == [] && [DoGo(0)][1..] == [];
    var before := Go(r2, 1, d);
    assert ApplyAll(r2, [DoGo(1)], d) == before && ApplyAll(before, [DoGo(0)], d) == Go(before, 0, d);
    hide ApplyAll, Begin, Apply;
    PointInTurn(r2, low, high, |MovesOf(START, p)|, |MovesOf(r1, p)|, d);
  }

  lemma PointInTurn(r: Race, low: Request, high: Request, at: nat, at': nat, d: Decoders)
    requires Admissible(low, d) && Admissible(high, d) && low.manifest.project == high.manifest.project
    requires 0 in r.processes && r.processes[0] == Process(low, {}, Pointing(at))
    requires 1 in r.processes && r.processes[1] == Process(high, {}, Pointing(at'))
    ensures RouteOf(Go(r, 1, d).state, low.manifest.project).current == high.exact
    ensures RouteOf(Go(Go(r, 1, d), 0, d).state, low.manifest.project).current == low.exact
  {
  }

  lemma BeginThen(r: Race, t: nat, q: Request, steps: seq<Step>, d: Decoders)
    ensures ApplyAll(r, [DoBegin(t, q, {})] + steps, d) == ApplyAll(Begin(r, t, q, {}, d), steps, d)
  {
    assert ([DoBegin(t, q, {})] + steps)[1..] == steps;
  }

  // ----- a switch alone -----

  function GoMany(r: Race, t: nat, n: nat, d: Decoders): Race
    decreases n
  {
    if n == 0 then r else GoMany(Go(r, t, d), t, n - 1, d)
  }

  lemma {:induction false} GoManySplits(r: Race, t: nat, n: nat, k: nat, d: Decoders)
    ensures GoMany(r, t, n + k, d) == GoMany(GoMany(r, t, n, d), t, k, d)
    decreases n
  {
    hide Go;
    if n > 0 {
      GoManySplits(Go(r, t, d), t, n - 1, k, d);
    }
  }

  lemma {:induction false} Stopped(r: Race, t: nat, n: nat, d: Decoders)
    requires t !in r.processes
    ensures GoMany(r, t, n, d) == r
    decreases n
  {
    if n > 0 {
      Stopped(r, t, n - 1, d);
    }
  }

  /** Only this process has moved, to this phase. */
  predicate Arrived(r: Race, u: Race, t: nat, s: State, p: Phase) {
    t in r.processes && u == r.(state := s, processes := r.processes[t := r.processes[t].(phase := p)])
  }

  lemma {:induction false} AloneInstalls(r: Race, t: nat, k: nat, d: Decoders, budget: nat)
    requires t in r.processes && r.processes[t].request.exact.Some? && r.processes[t].phase == Installing(k)
    requires k <= |Assets(r.processes[t].request.manifest)| && budget >= |Assets(r.processes[t].request.manifest)| - k
    ensures var x := r.processes[t];
            var n := |Assets(x.request.manifest)|;
            var (statics, p) := InstallAll(r.state.statics, Assets(x.request.manifest)[k..], x.cas, d, budget);
            var u := GoMany(r, t, n - k, d);
            && !p.Crashed? && u.state == r.state.(statics := statics)
            && (p.Refused? ==> t !in u.processes)
            && (p.Going? ==> Arrived(r, u, t, r.state.(statics := statics), Installing(n)))
    decreases |Assets(r.processes[t].request.manifest)| - k
  {
    hide ExtractStatic, Assets;
    var x := r.processes[t];
    var assets := Assets(x.request.manifest);
    if k < |assets| {
      assert assets[k..][0] == assets[k] && assets[k..][1..] == assets[k + 1..];
      var (one, p1) := Install(r.state.statics, assets[k], x.cas, d, 1);
      var (b, pb) := Install(r.state.statics, assets[k], x.cas, d, budget);
      assert one == b && SameEnd(p1, pb) && !pb.Crashed?;
      var next := Go(r, t, d);
      if p1.Going? {
        assert next.processes[t] == x.(phase := Installing(k + 1));
        AloneInstalls(next, t, k + 1, d, pb.budget);
      } else {
        Stopped(next, t, |assets| - k - 1, d);
      }
    }
  }

  /** A switch that no other step disturbs leaves what the sequential run leaves. */
  lemma AloneIsSwitch(r: Race, t: nat, q: Request, cas: set<Raw>, d: Decoders, budget: nat)
    requires t !in r.processes && Admissible(q, d) && budget >= |Assets(q.manifest)| + 2
    ensures GoMany(Begin(r, t, q, cas, d), t, |Assets(q.manifest)| + 4, d).state == ReleaseRoute.Switch(r.state, q, cas, d, budget).0
  {
    assert q.exact.Some?;
    hide Assets, Admissible, MayFollow;
    var n := |Assets(q.manifest)|;
    var r0 := Begin(r, t, q, cas, d);
    assert Assets(q.manifest)[0..] == Assets(q.manifest);
    AloneInstalls(r0, t, 0, d, budget);
    AmpleInstalls(r.state.statics, Assets(q.manifest), cas, d, budget, budget, 2);
    GoManySplits(r0, t, n, 4, d);
    var (statics, p) := InstallAll(r.state.statics, Assets(q.manifest), cas, d, budget);
    var u := GoMany(r0, t, n, d);
    if p.Refused? {
      Stopped(u, t, 4, d);
    } else {
      AlonePublishes(u, t, n, d, p.budget);
    }
  }

  lemma AlonePublishes(r: Race, t: nat, n: nat, d: Decoders, budget: nat)
    requires t in r.processes && r.processes[t].request.exact.Some? && r.processes[t].phase == Installing(n)
    requires n == |Assets(r.processes[t].request.manifest)| && budget >= 2
    ensures var q := r.processes[t].request;
            GoMany(r, t, 4, d).state == Publish(r.state, q.exact.value, q.manifest, d, budget).0
  {
    hide Assets, MayFollow;
    var r1 := Go(r, t, d);
    var r2 := Go(r1, t, d);
    var r3 := Go(r2, t, d);
    var r4 := Go(r3, t, d);
    assert GoMany(r, t, 4, d) == GoMany(r1, t, 3, d) == GoMany(r2, t, 2, d) == GoMany(r3, t, 1, d) == r4;
    var q := r.processes[t].request;
    var route := RouteOf(r.state, q.manifest.project);
    assert r2.state == SetRoute(r.state, q.manifest.project, route.(manifests := route.manifests + {q.exact.value}));
    assert r2.processes[t].phase == Checking;
    if MayFollow(route.current, q.manifest, d) {
      assert r3.state == r2.state && r3.processes[t].phase.Pointing?;
      assert r4.state.routes == r.state.routes[q.manifest.project := Route(route.manifests + {q.exact.value}, q.exact)];
    }
  }
}
