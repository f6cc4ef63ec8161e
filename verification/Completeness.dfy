/** Pigeonhole checks at both ends of a build: the artifacts a completion registers against the
    declared services, and the credentials a worker receives against the leased references. */
module Completeness {
  import opened Common
  import opened Counting
  import opened BuildQueue

  function Ids(services: seq<Service>): (keys: seq<nat>)
    ensures |keys| == |services| && forall i :: 0 <= i < |services| ==> keys[i] == services[i].id
  {
    seq(|services|, i requires 0 <= i < |services| => services[i].id)
  }

  function Owners(artifacts: seq<Artifact>): (keys: seq<nat>)
    ensures |keys| == |artifacts| && forall i :: 0 <= i < |artifacts| ==> keys[i] == artifacts[i].service
  {
    seq(|artifacts|, i requires 0 <= i < |artifacts| => artifacts[i].service)
  }

  lemma {:induction false} KindOfDeclared(services: seq<Service>, id: nat)
    ensures KindOf(services, id).Some? <==> id in ServiceIds(services)
    ensures KindOf(services, id).Some? ==> Service(id, KindOf(services, id).value) in services
    decreases |services|
  {
    if services != [] {
      var n := |services| - 1;
      KindOfDeclared(services[..n], id);
      assert ServiceIds(services) == ServiceIds(services[..n]) + {services[n].id};
    }
  }

  /** An accepted success registers exactly one artifact for every declared service id, of that
      service's kind, and none for anything else: the count closes what the loop leaves open. */
  lemma SuccessCoversServices(services: seq<Service>, o: Outcome)
    requires ArtifactsAccepted(services, o) && o.state == Succeeded
    ensures forall id :: id in ServiceIds(services) <==> exists i :: 0 <= i < |o.artifacts| && o.artifacts[i].service == id
    ensures forall i, k :: 0 <= i < k < |o.artifacts| ==> o.artifacts[i].service != o.artifacts[k].service
    ensures forall i :: 0 <= i < |o.artifacts| ==> Service(o.artifacts[i].service, o.artifacts[i].kind) in services
  {
    var artifacts := o.artifacts;
    var keys := Owners(artifacts);
    forall i | 0 <= i < |artifacts|
      ensures artifacts[i].service in ServiceIds(services) && Service(artifacts[i].service, artifacts[i].kind) in services
    {
      KindOfDeclared(services, artifacts[i].service);
    }
    forall i, k | 0 <= i < k < |keys|
      ensures keys[i] != keys[k]
    {
      assert artifacts[i].kind != artifacts[k].kind;
    }
    ImageSize(keys);
    SubsetSize(Places(keys), ServiceIds(services));
    forall id
      ensures id in ServiceIds(services) <==> exists i :: 0 <= i < |artifacts| && artifacts[i].service == id
    {
      assert id in Places(keys) <==> exists i :: 0 <= i < |artifacts| && artifacts[i].service == id;
    }
  }

  // ----- the worker's own check -----

  predicate Produced(artifacts: seq<Artifact>, s: Service) {
    exists i :: 0 <= i < |artifacts| && artifacts[i].service == s.id && artifacts[i].kind == s.kind
  }

  /** validate_artifacts: as many artifacts as services, and one for every service. */
  predicate WorkerAccepts(services: seq<Service>, artifacts: seq<Artifact>) {
    |services| == |artifacts| && forall i :: 0 <= i < |services| ==> Produced(artifacts, services[i])
  }

  method ValidateArtifacts(services: seq<Service>, artifacts: seq<Artifact>) returns (ok: bool)
    ensures ok == WorkerAccepts(services, artifacts)
  {
    if |services| != |artifacts| {
      return false;
    }
    var i := 0;
    while i < |services|
      invariant 0 <= i <= |services| && forall k :: 0 <= k < i ==> Produced(artifacts, services[k])
    {
      if !Produced(artifacts, services[i]) {
        return false;
      }
      i := i + 1;
    }
    ok := true;
  }

  /** With distinct service ids the worker's check leaves no artifact over: each belongs to a service. */
  lemma WorkerLeavesNoneOver(services: seq<Service>, artifacts: seq<Artifact>)
    requires WorkerAccepts(services, artifacts)
    requires forall i, k :: 0 <= i < k < |services| ==> services[i].id != services[k].id
    ensures Places(Owners(artifacts)) == ServiceIds(services)
    ensures |ServiceIds(services)| == |services|
    ensures forall i, k :: 0 <= i < k < |artifacts| ==> artifacts[i].service != artifacts[k].service
  {
    var ids, owners := Ids(services), Owners(artifacts);
    ImageSize(ids);
    assert Places(ids) == ServiceIds(services);
    forall id | id in Places(ids)
      ensures id in Places(owners)
    {
      var i :| 0 <= i < |ids| && ids[i] == id;
      assert Produced(artifacts, services[i]);
      var k :| 0 <= k < |artifacts| && artifacts[k].service == services[i].id && artifacts[k].kind == services[i].kind;
      assert owners[k] == id;
    }
    PlacesBound(owners);
    SubsetSize(Places(ids), Places(owners));
    forall i, k | 0 <= i < k < |artifacts|
      ensures artifacts[i].service != artifacts[k].service
    {
      DistinctByCount(owners, i, k);
    }
  }

  lemma {:induction false} KindOfFirst(services: seq<Service>, i: nat)
    requires i < |services| && forall k, l :: 0 <= k < l < |services| ==> services[k].id != services[l].id
    ensures KindOf(services, services[i].id) == Some(services[i].kind)
    decreases |services|
  {
    var n := |services| - 1;
    if i < n {
      KindOfFirst(services[..n], i);
    }
  }

  /** What the worker accepts, with the distinct kinds the receiver enforces, control accepts as a
      success, and the other way round. */
  lemma WorkerAndControlAgree(services: seq<Service>, o: Outcome)
    requires o.state == Succeeded
    requires forall i, k :: 0 <= i < k < |services| ==> services[i].id != services[k].id
    requires forall i, k :: 0 <= i < k < |o.artifacts| ==> o.artifacts[i].kind != o.artifacts[k].kind
    ensures WorkerAccepts(services, o.artifacts) <==> ArtifactsAccepted(services, o)
  {
    var artifacts := o.artifacts;
    if WorkerAccepts(services, artifacts) {
      WorkerLeavesNoneOver(services, artifacts);
      forall i | 0 <= i < |artifacts|
        ensures KindOf(services, artifacts[i].service) == Some(artifacts[i].kind)
      {
        assert Owners(artifacts)[i] in ServiceIds(services);
        var k :| 0 <= k < |services| && services[k].id == artifacts[i].service;
        assert Produced(artifacts, services[k]);
        KindOfFirst(services, k);
      }
    }
    if ArtifactsAccepted(services, o) {
      SuccessCoversServices(services, o);
      ImageSize(Ids(services));
      assert Places(Ids(services)) == ServiceIds(services);
      forall i | 0 <= i < |services|
        ensures Produced(artifacts, services[i])
      {
        assert services[i].id in ServiceIds(services);
        var k :| 0 <= k < |artifacts| && artifacts[k].service == services[i].id;
        KindOfFirst(services, i);
      }
    }
  }

  function Kinds(artifacts: seq<Artifact>): set<Kind> {
    set i | 0 <= i < |artifacts| :: artifacts[i].kind
  }

  /** One more artifact fits iff its kind is new and is the declared one of its service. */
  lemma OneMoreMatches(services: seq<Service>, artifacts: seq<Artifact>, i: nat)
    requires i < |artifacts|
    ensures ArtifactsMatch(services, artifacts[..i + 1])
            <==> ArtifactsMatch(services, artifacts[..i]) && artifacts[i].kind !in Kinds(artifacts[..i])
                 && KindOf(services, artifacts[i].service) == Some(artifacts[i].kind)
    ensures Kinds(artifacts[..i + 1]) == Kinds(artifacts[..i]) + {artifacts[i].kind}
  {
    hide KindOf;
    var before, after := artifacts[..i], artifacts[..i + 1];
    assert after == before + [artifacts[i]];
    forall k | 0 <= k < i
      ensures before[k] == after[k] && before[k].kind in Kinds(before)
    {
    }
    if artifacts[i].kind in Kinds(before) {
      var k :| 0 <= k < i && before[k].kind == artifacts[i].kind;
      assert after[k].kind == after[i].kind;
    }
  }

  lemma MatchingPrefix(services: seq<Service>, artifacts: seq<Artifact>, i: nat)
    requires i <= |artifacts| && ArtifactsMatch(services, artifacts)
    ensures ArtifactsMatch(services, artifacts[..i])
  {
  }

  /** The artifact loop of `complete`. */
  method CheckArtifacts(services: seq<Service>, o: Outcome) returns (accepted: bool)
    ensures accepted == ArtifactsAccepted(services, o)
  {
    hide ArtifactsMatch, Kinds;
    var seen: set<Kind> := {};
    var i := 0;
    EmptyMatches(services);
    assert o.artifacts[..0] == [];
    while i < |o.artifacts|
      invariant 0 <= i <= |o.artifacts|
      invariant seen == Kinds(o.artifacts[..i]) && |seen| == i
      invariant ArtifactsMatch(services, o.artifacts[..i])
    {
      var a := o.artifacts[i];
      OneMoreMatches(services, o.artifacts, i);
      if a.kind in seen || KindOf(services, a.service) != Some(a.kind) {
        if ArtifactsMatch(services, o.artifacts) {
          MatchingPrefix(services, o.artifacts, i + 1);
        }
        return false;
      }
      seen := seen + {a.kind};
      i := i + 1;
    }
    assert o.artifacts[..i] == o.artifacts;
    accepted := o.state != Succeeded || |seen| == |ServiceIds(services)|;
  }

  lemma EmptyMatches(services: seq<Service>)
    ensures ArtifactsMatch(services, []) && Kinds([]) == {}
  {
  }

  // ----- the worker's credentials -----

  datatype Reference = Reference(service: nat, version: nat, name: string)

  datatype Credential = Credential(service: nat, version: nat, name: string, value: string)

  const MAX_CREDENTIAL := 16 * 1024

  predicate Answers(r: Reference, c: Credential) {
    r.version == c.version && r.service == c.service && r.name == c.name
  }

  /** The reference a version id names: HashMap::collect keeps the last. */
  function Expected(references: seq<Reference>, version: nat): Option<Reference> {
    if references == [] then None
    else if references[|references| - 1].version == version then Some(references[|references| - 1])
    else Expected(references[..|references| - 1], version)
  }

  predicate CredentialOk(references: seq<Reference>, c: Credential) {
    && Expected(references, c.version).Some? && Answers(Expected(references, c.version).value, c)
    && 0 < |c.value| <= MAX_CREDENTIAL
  }

  /** The loop of `validate_credentials`. */
  method ValidateCredentials(references: seq<Reference>, credentials: seq<Credential>) returns (r: Option<seq<Credential>>)
    ensures r.Some? <==>
              && |references| == |credentials|
              && (forall i :: 0 <= i < |credentials| ==> CredentialOk(references, credentials[i]))
              && (forall i, k :: 0 <= i < k < |credentials| ==> credentials[i].version != credentials[k].version)
    ensures r.Some? ==> r.value == credentials
  {
    if |references| != |credentials| {
      return None;
    }
    var observed: set<nat> := {};
    var output: seq<Credential> := [];
    var i := 0;
    while i < |credentials|
      invariant 0 <= i <= |credentials| && output == credentials[..i]
      invariant forall k :: 0 <= k < i ==> CredentialOk(references, credentials[k])
      invariant forall v :: v in observed <==> exists k :: 0 <= k < i && credentials[k].version == v
      invariant forall k, l :: 0 <= k < l < i ==> credentials[k].version != credentials[l].version
    {
      var c := credentials[i];
      if !CredentialOk(references, c) || c.version in observed {
        return None;
      }
      observed := observed + {c.version};
      output := output + [c];
      i := i + 1;
    }
    r := Some(output);
  }

  function Versions(credentials: seq<Credential>): (keys: seq<nat>)
    ensures |keys| == |credentials| && forall i :: 0 <= i < |credentials| ==> keys[i] == credentials[i].version
  {
    seq(|credentials|, i requires 0 <= i < |credentials| => credentials[i].version)
  }

  function ReferenceVersions(references: seq<Reference>): (keys: seq<nat>)
    ensures |keys| == |references| && forall i :: 0 <= i < |references| ==> keys[i] == references[i].version
  {
    seq(|references|, i requires 0 <= i < |references| => references[i].version)
  }

  lemma {:induction false} ExpectedIsAReference(references: seq<Reference>, version: nat)
    ensures Expected(references, version).Some? ==> Expected(references, version).value in references
    ensures Expected(references, version).Some? ==> Expected(references, version).value.version == version
    decreases |references|
  {
    if references != [] {
      ExpectedIsAReference(references[..|references| - 1], version);
    }
  }

  /** Accepted credentials answer every leased reference exactly once. A lease with two references
      of one version id is never satisfied: the counts cannot meet. */
  lemma CredentialsCoverReferences(references: seq<Reference>, credentials: seq<Credential>)
    requires |references| == |credentials|
    requires forall i :: 0 <= i < |credentials| ==> CredentialOk(references, credentials[i])
    requires forall i, k :: 0 <= i < k < |credentials| ==> credentials[i].version != credentials[k].version
    ensures forall i :: 0 <= i < |references| ==> exists k :: 0 <= k < |credentials| && Answers(references[i], credentials[k])
    ensures forall i, k :: 0 <= i < k < |references| ==> references[i].version != references[k].version
  {
    var given, asked := Versions(credentials), ReferenceVersions(references);
    ImageSize(given);
    PlacesBound(asked);
    forall k | 0 <= k < |credentials|
      ensures given[k] in Places(asked)
    {
      ExpectedIsAReference(references, credentials[k].version);
      var i :| 0 <= i < |references| && references[i] == Expected(references, credentials[k].version).value;
      assert asked[i] == given[k];
    }
    SubsetSize(Places(given), Places(asked));
    forall i, k | 0 <= i < k < |references|
      ensures references[i].version != references[k].version
    {
      DistinctByCount(asked, i, k);
    }
    forall i | 0 <= i < |references|
      ensures exists k :: 0 <= k < |credentials| && Answers(references[i], credentials[k])
    {
      assert asked[i] in Places(given);
      var k :| 0 <= k < |credentials| && credentials[k].version == references[i].version;
      ExpectedIsAReference(references, credentials[k].version);
    }
  }
}
