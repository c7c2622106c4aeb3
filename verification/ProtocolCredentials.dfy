/** The MinIO credentials in kyuubi and metastore objects: when an object carries any, and how one can
    come to carry the wrong ones. */
module ProtocolCredentials {
  import opened Text
  import opened Clusters
  import opened Protocol
  import opened ProtocolSafety
  import opened Coverage
  import opened ProtocolTermination
  import opened ProtocolProgress
  import opened ProtocolOutcome
  import opened ProtocolStarvation
  import opened ProtocolHistory
  import opened ProtocolConverse

  // ---------------------------------------------------------------- which objects carry credentials

  predicate NeedsSecret(v: ClusterInfo, st: Storage) {
    (v.typ == Kyuubi || v.typ == MetaStore) && st == MinioStorage
  }

  lemma WhoReadsTheSecret(c: Cluster, v: ClusterInfo)
    requires c.kind == BATCH
    ensures MinioSecret in Waits(c, v) <==> NeedsSecret(v, ClusterStorage(c))
  {
    if NeedsSecret(v, ClusterStorage(c)) {
      var ws := Waits(c, v);
      if v.typ == MetaStore {
        assert ws[3] == MinioSecret;
      } else {
        assert ws[|ws| - 1] == MinioSecret;
      }
    } else if MinioSecret in Waits(c, v) {
      WaitCases(c, v, MinioSecret);
    }
  }

  /** The goroutine has credentials once it is past reading them. */
  predicate ReadOk(t: Inner) {
    t.read.Some? <==> exists i :: 0 <= i < t.wait && i < |WaitsOf(t)| && WaitsOf(t)[i] == MinioSecret
  }

  predicate Carries(o: Obj, st: Storage) {
    o.KyuubiObj? || o.MetastoreObj? ==> (o.minio.Some? <==> st == MinioStorage)
  }

  predicate OfStorage(c: Cluster, id: Ident, st: Storage) {
    c.id == id ==> c.kind == BATCH && ClusterStorage(c) == st
  }

  predicate InnerCarries(t: Inner, id: Ident, st: Storage) {
    && OfStorage(t.cluster, id, st) && ReadOk(t)
    && (t.cluster.id == id && t.desired.Some? ==> Carries(t.desired.value, st))
  }

  predicate StoreCarries(store: map<Key, Obj>, id: Ident, st: Storage) {
    forall k :: k in store && k.id == id ==> Carries(store[k], st)
  }

  /** What runs keep while every pass over a cluster finds the same storage. */
  ghost predicate Carrying(s: State, id: Ident, st: Storage) {
    && (forall i :: 0 <= i < |s.outers| ==> OfStorage(s.outers[i].cluster, id, st))
    && (forall j :: 0 <= j < |s.inners| ==> InnerCarries(s.inners[j], id, st))
    && StoreCarries(s.store, id, st)
  }

  predicate PassFinds(e: Event, id: Ident, st: Storage) {
    e.Pass? && PassCluster(e.c).Some? ==> OfStorage(PassCluster(e.c).value, id, st)
  }

  lemma WaitKeepsReadOk(s: State, t: Inner, choice: Choice)
    requires ReadOk(t) && t.wait < |WaitsOf(t)|
    ensures ReadOk(AfterWait(s, t, WaitsOf(t)[t.wait], choice))
  {
    hide Waits, CredsIn;
    var u := AfterWait(s, t, WaitsOf(t)[t.wait], choice);
    assert WaitsOf(u) == WaitsOf(t);
    if WaitsOf(t)[t.wait] == MinioSecret {
      assert u.wait == t.wait + 1 && WaitsOf(u)[t.wait] == MinioSecret;
    } else {
      assert u.read == t.read;
      assert forall i :: 0 <= i < u.wait && i < |WaitsOf(t)| && WaitsOf(t)[i] == MinioSecret ==> i < t.wait;
      assert t.wait <= u.wait;
    }
  }

  lemma DesiredCarries(s: State, t: Inner, role: Role, choice: Choice, st: Storage)
    requires t.cluster.kind == BATCH && ClusterStorage(t.cluster) == st && ReadOk(t) && t.wait >= |WaitsOf(t)|
    requires role in RolesOf(t)
    ensures var d := Desired(s, t, role, choice); d.Some? ==> Carries(d.value, st)
  {
    WhoReadsTheSecret(t.cluster, t.entry);
    assert t.read.Some? <==> MinioSecret in WaitsOf(t);
    hide Waits, FindsFEAndBE, ClusterStorage;
  }

  lemma StepKeepsReadOk(s: State, t: Inner, choice: Choice)
    requires ReadOk(t) && t.k < |RolesOf(t)|
    ensures ReadOk(AfterStep(s, t, choice))
  {
    hide Waits, Roles, Desired;
    var u := AfterStep(s, t, choice);
    assert WaitsOf(u) == WaitsOf(t) && u.wait == t.wait && u.read == t.read;
  }

  lemma RunKeepsInnerCarries(s: State, t: Inner, choice: Choice, id: Ident, st: Storage)
    requires InnerCarries(t, id, st) && RunEnabled(s, t, choice)
    ensures InnerCarries(AfterRun(s, t, choice), id, st)
  {
    SamePlace(s, t, choice);
    if t.wait < |WaitsOf(t)| {
      WaitKeepsReadOk(s, t, choice);
      hide Waits, Roles, ReadOk, Carries, OfStorage, CredsIn;
    } else {
      StepKeepsReadOk(s, t, choice);
      AfterStepDesired(s, t, choice);
      if t.cluster.id == id {
        DesiredCarries(s, t, RolesOf(t)[t.k], choice, st);
      }
      hide AfterStep, Waits, Roles, ReadOk, Carries, Desired;
    }
  }

  lemma RunKeepsCarrying(s: State, j: nat, choice: Choice, id: Ident, st: Storage)
    requires Carrying(s, id, st) && CanRun(s, j, choice)
    ensures Carrying(ApplyRun(s, j, choice), id, st)
  {
    var t := s.inners[j];
    assert InnerCarries(t, id, st);
    RunKeepsInnerCarries(s, t, choice, id, st);
    RunChangesOnly(s, j, choice);
    assert Accepts(s, t, choice).Some? ==> Accepts(s, t, choice).value == Created(Key(t.cluster.id, RolesOf(t)[t.k]), t.desired.value);
    hide AfterRun, Accepts, ApplyRun, ReadOk, Carries, OfStorage, Waits, Roles;
  }

  lemma {:induction false} SpawnKeepsCarrying(s: State, c: Cluster, n: nat, id: Ident, st: Storage)
    requires Carrying(s, id, st) && OfStorage(c, id, st) && n <= |c.clusterSet|
    ensures Carrying(SpawnUpTo(s, c, n), id, st)
  {
    if n > 0 {
      SpawnKeepsCarrying(s, c, n - 1, id, st);
      SpawnAddsOne(SpawnUpTo(s, c, n - 1), c, c.clusterSet[n - 1]);
      hide Spawn, InnerCarries, OfStorage, Carries;
    }
  }

  lemma LaunchKeepsCarrying(s: State, i: nat, id: Ident, st: Storage)
    requires Carrying(s, id, st) && Enabled(s, Launch(i))
    ensures Carrying(ApplyLaunch(s, i), id, st)
  {
    assert OfStorage(s.outers[i].cluster, id, st);
    assert InnerCarries(Launchee(s.outers[i]), id, st) by { hide Waits; }
    hide InnerCarries, OfStorage, StoreCarries;
  }

  lemma StepKeepsCarrying(s: State, e: Event, id: Ident, st: Storage)
    requires Carrying(s, id, st) && Enabled(s, e) && PassFinds(e, id, st)
    ensures Carrying(Apply(s, e), id, st)
  {
    match e
    case Pass(c) =>
      if PassCluster(c).Some? {
        SpawnKeepsCarrying(s, PassCluster(c).value, |PassCluster(c).value.clusterSet|, id, st);
      }
    case Launch(i) => LaunchKeepsCarrying(s, i, id, st);
    case Run(j, choice) => RunKeepsCarrying(s, j, choice, id, st);
    case _ => hide InnerCarries, OfStorage, StoreCarries;
  }

  lemma {:induction false} RunsKeepCarrying(s: State, events: seq<Event>, id: Ident, st: Storage)
    requires Carrying(s, id, st) && IsRun(s, events) && forall i :: 0 <= i < |events| ==> PassFinds(events[i], id, st)
    ensures Carrying(EndOf(s, events), id, st)
    decreases |events|
  {
    hide Carrying;
    if events != [] {
      StepKeepsCarrying(s, events[0], id, st);
      RunsKeepCarrying(Apply(s, events[0]), events[1..], id, st);
    }
  }

  /** Whatever fails, a kyuubi or metastore object has a place for credentials exactly when the passes
      over its cluster found MinIO storage. With MinIO storage it holds either those of the one stored
      secret, or empty ones, and those only if a goroutine of the cluster failed to read the secret. */
  lemma StoredCredentials(events: seq<Event>, id: Ident, role: Role, st: Storage)
    requires IsRun(INIT, events) && forall i :: 0 <= i < |events| ==> PassFinds(events[i], id, st)
    requires (role == KyuubiRole || role == MetastoreRole) && Stored(EndOf(INIT, events), id, role)
    ensures var s := EndOf(INIT, events);
      var o := s.store[Key(id, role)];
      && Fits(role, o) && (o.minio.Some? <==> st == MinioStorage)
      && (st == MinioStorage ==>
            || (Stored(s, id, MinioUserRole) && s.store[Key(id, MinioUserRole)] == MinioUserSecret(o.minio.value))
            || (o.minio.value == NO_CREDS && id in LostReads(INIT, events)))
  {
    CredentialsAgree(events, id, role);
    InitCarries(id, st);
    RunsKeepCarrying(INIT, events, id, st);
    CarriesWhat(EndOf(INIT, events), id, role, st);
    hide *;
  }

  lemma InitCarries(id: Ident, st: Storage)
    ensures Carrying(INIT, id, st)
  {
  }

  lemma CarriesWhat(s: State, id: Ident, role: Role, st: Storage)
    requires Carrying(s, id, st) && Stored(s, id, role) && Fits(role, s.store[Key(id, role)])
    requires role == KyuubiRole || role == MetastoreRole
    ensures s.store[Key(id, role)].KyuubiObj? || s.store[Key(id, role)].MetastoreObj?
    ensures s.store[Key(id, role)].minio.Some? <==> st == MinioStorage
  {
    assert StoreCarries(s.store, id, st) && Carries(s.store[Key(id, role)], st);
  }

  // ---------------------------------------------------------------- one lost read is enough

  /** What a metastore goroutine of MinIO storage finds when its time comes. */
  ghost predicate ReadyForMetastore(s: State, f: Cluster) {
    && PodsUp(s, Key(f.id, PgRole), PG_REPLICAS) && MinioServiceUp(s, f.id.ns)
    && Key(f.id, MetastoreRole) !in s.store
  }

  lemma MetastoreWaits(f: Cluster, v: ClusterInfo)
    requires v.typ == MetaStore && ClusterStorage(f) == MinioStorage
    ensures Waits(f, v) == [SetReplicas(v.replicas), Pods(PgRole, PG_REPLICAS), MinioService, MinioSecret, External]
    ensures Roles(v) == [MetastoreRole]
  {
  }

  /** The waits of a metastore goroutine, the read of the secret failing. */
  lemma WaitsWithLostRead(s: State, f: Cluster, v: ClusterInfo, j: nat) returns (events: seq<Event>)
    requires ReadyForMetastore(s, f) && ClusterStorage(f) == MinioStorage && v.typ == MetaStore
    requires j < |s.inners| && s.inners[j] == Inner(f, v, 0, 0, Build, None, false, false, false, None)
    ensures events == [Run(j, Ok), Run(j, Ok), Run(j, Ok), Run(j, Fail), Run(j, Ok)]
    ensures IsRun(s, events)
    ensures var n := if v.replicas != 0 then v.replicas else s.metastoreReplicas;
      EndOf(s, events) == Waiting(s, f, v, j, n, 5, Some(NO_CREDS))
  {
    FirstWaits(s, f, v, j);
    var n := if v.replicas != 0 then v.replicas else s.metastoreReplicas;
    ServiceWait(s, f, v, j, n);
    LastWaits(s, f, v, j, n);
    hide *;
    events := FiveSteps(s, Waiting(s, f, v, j, n, 1, None), Waiting(s, f, v, j, n, 2, None), Waiting(s, f, v, j, n, 3, None),
                        Waiting(s, f, v, j, n, 4, Some(NO_CREDS)), Waiting(s, f, v, j, n, 5, Some(NO_CREDS)), j);
  }

  /** The state with the goroutine at its w-th wait. */
  function Waiting(s: State, f: Cluster, v: ClusterInfo, j: nat, n: int, w: nat, read: Option<Creds>): State
    requires j < |s.inners|
  {
    s.(inners := s.inners[j := Inner(f, v, w, 0, Build, None, false, false, false, read)], metastoreReplicas := n)
  }

  lemma FirstWaits(s: State, f: Cluster, v: ClusterInfo, j: nat)
    requires ReadyForMetastore(s, f) && ClusterStorage(f) == MinioStorage && v.typ == MetaStore
    requires j < |s.inners| && s.inners[j] == Inner(f, v, 0, 0, Build, None, false, false, false, None)
    ensures var n := if v.replicas != 0 then v.replicas else s.metastoreReplicas;
      && Enabled(s, Run(j, Ok)) && Apply(s, Run(j, Ok)) == Waiting(s, f, v, j, n, 1, None)
      && Enabled(Waiting(s, f, v, j, n, 1, None), Run(j, Ok))
      && Apply(Waiting(s, f, v, j, n, 1, None), Run(j, Ok)) == Waiting(s, f, v, j, n, 2, None)
  {
    MetastoreWaits(f, v);
    hide Waits, Roles, ClusterStorage, MinioServiceUp;
    var n := if v.replicas != 0 then v.replicas else s.metastoreReplicas;
    OneWait(s, j, Ok, Waiting(s, f, v, j, n, 1, None));
    OneWait(Waiting(s, f, v, j, n, 1, None), j, Ok, Waiting(s, f, v, j, n, 2, None));
  }

  lemma ServiceWait(s: State, f: Cluster, v: ClusterInfo, j: nat, n: int)
    requires ReadyForMetastore(s, f) && ClusterStorage(f) == MinioStorage && v.typ == MetaStore && j < |s.inners|
    ensures var s2 := Waiting(s, f, v, j, n, 2, None);
      Enabled(s2, Run(j, Ok)) && Apply(s2, Run(j, Ok)) == Waiting(s, f, v, j, n, 3, None)
  {
    MetastoreWaits(f, v);
    hide Waits, Roles, ClusterStorage, PodsUp;
    OneWait(Waiting(s, f, v, j, n, 2, None), j, Ok, Waiting(s, f, v, j, n, 3, None));
  }

  lemma LastWaits(s: State, f: Cluster, v: ClusterInfo, j: nat, n: int)
    requires ClusterStorage(f) == MinioStorage && v.typ == MetaStore && j < |s.inners|
    ensures var s3 := Waiting(s, f, v, j, n, 3, None);
      var s4, s5 := Waiting(s, f, v, j, n, 4, Some(NO_CREDS)), Waiting(s, f, v, j, n, 5, Some(NO_CREDS));
      && Enabled(s3, Run(j, Fail)) && Apply(s3, Run(j, Fail)) == s4
      && Enabled(s4, Run(j, Ok)) && Apply(s4, Run(j, Ok)) == s5
  {
    MetastoreWaits(f, v);
    hide Waits, Roles, ClusterStorage, PodsUp, MinioServiceUp;
    var s3 := Waiting(s, f, v, j, n, 3, None);
    var s4, s5 := Waiting(s, f, v, j, n, 4, Some(NO_CREDS)), Waiting(s, f, v, j, n, 5, Some(NO_CREDS));
    OneWait(s3, j, Fail, s4);
    OneWait(s4, j, Ok, s5);
  }

  lemma OneWait(s: State, j: nat, choice: Choice, s': State)
    requires CanRun(s, j, choice) && s.inners[j].wait < |WaitsOf(s.inners[j])|
    requires var t := s.inners[j];
      s' == s.(inners := s.inners[j := AfterWait(s, t, WaitsOf(t)[t.wait], choice)], metastoreReplicas := NewReplicas(s, t))
    ensures Enabled(s, Run(j, choice)) && Apply(s, Run(j, choice)) == s'
  {
    hide Waits, Roles;
  }

  lemma FiveSteps(s: State, s1: State, s2: State, s3: State, s4: State, s5: State, j: nat) returns (events: seq<Event>)
    requires Enabled(s, Run(j, Ok)) && Apply(s, Run(j, Ok)) == s1
    requires Enabled(s1, Run(j, Ok)) && Apply(s1, Run(j, Ok)) == s2
    requires Enabled(s2, Run(j, Ok)) && Apply(s2, Run(j, Ok)) == s3
    requires Enabled(s3, Run(j, Fail)) && Apply(s3, Run(j, Fail)) == s4
    requires Enabled(s4, Run(j, Ok)) && Apply(s4, Run(j, Ok)) == s5
    ensures events == [Run(j, Ok), Run(j, Ok), Run(j, Ok), Run(j, Fail), Run(j, Ok)]
    ensures IsRun(s, events) && EndOf(s, events) == s5
  {
    hide Enabled, Apply;
    RunOne(s, Run(j, Ok));
    RunSnoc(s, [Run(j, Ok)], Run(j, Ok));
    RunSnoc(s, [Run(j, Ok)] + [Run(j, Ok)], Run(j, Ok));
    RunSnoc(s, [Run(j, Ok)] + [Run(j, Ok)] + [Run(j, Ok)], Run(j, Fail));
    RunSnoc(s, [Run(j, Ok)] + [Run(j, Ok)] + [Run(j, Ok)] + [Run(j, Fail)], Run(j, Ok));
    events := [Run(j, Ok)] + [Run(j, Ok)] + [Run(j, Ok)] + [Run(j, Fail)] + [Run(j, Ok)];
  }

  /** Past its waits a metastore goroutine builds its object, does not find it, and creates it. */
  lemma CreatesMetastore(s: State, f: Cluster, v: ClusterInfo, j: nat, read: Option<Creds>) returns (events: seq<Event>)
    requires v.typ == MetaStore && ClusterStorage(f) == MinioStorage && Key(f.id, MetastoreRole) !in s.store
    requires j < |s.inners| && s.inners[j] == Inner(f, v, 5, 0, Build, None, false, false, false, read)
    ensures events == [Run(j, Ok), Run(j, Ok), Run(j, Ok)] && IsRun(s, events)
    ensures EndOf(s, events).store == s.store[Key(f.id, MetastoreRole) := MetastoreObj(s.metastoreReplicas, read)]
  {
    MetastoreWaits(f, v);
    hide Waits, Roles, ClusterStorage;
    var o := Some(MetastoreObj(s.metastoreReplicas, read));
    var s1 := s.(inners := s.inners[j := Inner(f, v, 5, 0, Get, o, false, false, false, read)]);
    var s2 := s.(inners := s.inners[j := Inner(f, v, 5, 0, Create, o, true, false, false, read)]);
    assert Enabled(s, Run(j, Ok)) && Apply(s, Run(j, Ok)) == s1;
    assert Enabled(s1, Run(j, Ok)) && Apply(s1, Run(j, Ok)) == s2;
    assert Enabled(s2, Run(j, Ok)) && Apply(s2, Run(j, Ok)).store == s.store[Key(f.id, MetastoreRole) := o.value];
    hide Enabled, Apply;
    RunOne(s, Run(j, Ok));
    RunSnoc(s, [Run(j, Ok)], Run(j, Ok));
    RunSnoc(s, [Run(j, Ok)] + [Run(j, Ok)], Run(j, Ok));
    events := [Run(j, Ok)] + [Run(j, Ok)] + [Run(j, Ok)];
  }

  /** With the metastore asleep, everything its goroutine waits for is there. */
  lemma ReadyAtTheEnd(s: State, f: Cluster)
    requires GoodCluster(f) && ClusterStorage(f) == MinioStorage && Steady(s, f) && Made(s)
    requires Asleep(s, Sleepers(f, None)) && QuiescentBut(s, Sleepers(f, None))
    requires forall v :: v in f.clusterSet && Launches(v.typ) && v !in Sleepers(f, None) ==> Stored(s, f.id, MainRole(v.typ))
    ensures ReadyForMetastore(s, f) && Stored(s, f.id, MinioUserRole)
  {
    hide Completed, Provided, ProperTypes, Steady, Made, QuiescentBut, Asked, Asleep, ClusterStorage, Waits;
    AwaitedAreStored(s, f);
    SecretIsStored(s, f);
    NoMetastoreYet(s, f);
    IsReady(s, f, PgRole);
    IsReady(s, f, TenantRole);
    assert Key(f.id, TenantRole) in s.ready;
  }

  lemma AwaitedAreStored(s: State, f: Cluster)
    requires GoodCluster(f) && ClusterStorage(f) == MinioStorage
    requires forall v :: v in f.clusterSet && Launches(v.typ) && v !in Sleepers(f, None) ==> Stored(s, f.id, MainRole(v.typ))
    ensures Stored(s, f.id, PgRole) && Stored(s, f.id, TenantRole)
  {
    hide Sleepers, Completed, Provided, ProperTypes;
    var d := EntryOfType(f, Database);
    var n := EntryOfType(f, Minio);
    assert MainRole(d.typ) == PgRole && MainRole(n.typ) == TenantRole;
  }

  lemma SecretIsStored(s: State, f: Cluster)
    requires Steady(s, f) && Stored(s, f.id, TenantRole)
    ensures Stored(s, f.id, MinioUserRole)
  {
    assert ContentOk(s, Key(f.id, TenantRole), NOBODY);
  }

  lemma IsReady(s: State, f: Cluster, role: Role)
    requires Steady(s, f) && QuiescentBut(s, Sleepers(f, None)) && Stored(s, f.id, role) && (role == PgRole || role == TenantRole)
    ensures ReadyCount(s, Key(f.id, role)) >= if role == PgRole then PG_REPLICAS else 1
  {
    assert ContentOk(s, Key(f.id, role), NOBODY);
    hide Steady, Sleepers, QuiescentBut;
    AllReady(s, Sleepers(f, None), Key(f.id, role));
  }

  lemma EntryOfType(f: Cluster, t: ClusterType) returns (v: ClusterInfo)
    requires Completed(f) && ProfileOf(f).Needs(t) && t != Kyuubi && t != MetaStore
    ensures v in f.clusterSet && v.typ == t && v !in Sleepers(f, None)
  {
    CompletedLists(f, t);
    var i :| 0 <= i < |f.clusterSet| && f.clusterSet[i].typ == t;
    v := f.clusterSet[i];
  }

  lemma NoMetastoreYet(s: State, f: Cluster)
    requires Made(s) && Steady(s, f) && Asleep(s, Sleepers(f, None))
    ensures Key(f.id, MetastoreRole) !in s.store
  {
    forall j | 0 <= j < |s.inners| ensures MetastoreRole !in RolesOf(s.inners[j]) {
      assert InnerOver(f, s.inners[j]);
    }
    hide Steady, Sleepers, Asleep, Roles;
    forall k | k in s.store ensures k.role != MetastoreRole {
      assert HasMaker(s, k);
    }
  }

  /** The only event of a run that is not smooth. */
  predicate OnlyAt(f: Cluster, events: seq<Event>, at: nat) {
    && at < |events| && events[at].Run? && events[at].choice == Fail
    && forall i :: 0 <= i < |events| && i != at ==> Smooth(f, events[i])
  }

  /** For every provided cluster with MinIO storage, any credentials drawn, and each of its metastore
      entries there is a run with one failing call, its goroutine's read of the secret, in which the
      secret is stored with those credentials and the metastore without any. */
  lemma OneLostReadIsEnough(f: Cluster, v: ClusterInfo, creds: Creds) returns (events: seq<Event>, at: nat)
    requires GoodCluster(f) && ClusterStorage(f) == MinioStorage && v in f.clusterSet && v.typ == MetaStore
    ensures IsRun(INIT, events) && OnlyAt(f, events, at)
    ensures var s := EndOf(INIT, events);
      && Stored(s, f.id, MinioUserRole) && s.store[Key(f.id, MinioUserRole)] == MinioUserSecret(creds)
      && Stored(s, f.id, MetastoreRole) && s.store[Key(f.id, MetastoreRole)].MetastoreObj?
      && s.store[Key(f.id, MetastoreRole)].minio == Some(NO_CREDS)
  {
    var first, h := BeforeTheRead(f, v, creds);
    var s := EndOf(INIT, first);
    hide *;
    var launch := Launched(s, f, h);
    var c := EndOf(s, launch);
    var n := |s.inners|;
    var waits := WaitsWithLostRead(c, f, v, n);
    var create := CreatesMetastore(EndOf(c, waits), f, v, n, Some(NO_CREDS));
    RunConcat(c, waits, create);
    RunConcat(s, launch, waits + create);
    RunConcat(INIT, first, launch + (waits + create));
    events := first + (launch + (waits + create));
    at := |first| + |launch| + 3;
    OnlyOneFails(f, first, launch, n);
    StoredAfter(s, f, EndOf(c, waits), EndOf(INIT, events), creds);
  }

  lemma StoredAfter(s: State, f: Cluster, w: State, z: State, creds: Creds)
    requires Stored(s, f.id, MinioUserRole) && s.store[Key(f.id, MinioUserRole)] == MinioUserSecret(creds) && w.store == s.store
    requires z.store == w.store[Key(f.id, MetastoreRole) := MetastoreObj(w.metastoreReplicas, Some(NO_CREDS))]
    ensures Stored(z, f.id, MinioUserRole) && z.store[Key(f.id, MinioUserRole)] == MinioUserSecret(creds)
    ensures Stored(z, f.id, MetastoreRole) && z.store[Key(f.id, MetastoreRole)].MetastoreObj?
    ensures z.store[Key(f.id, MetastoreRole)].minio == Some(NO_CREDS)
  {
  }

  /** A smooth run to where the metastore's goroutine is the next to go. */
  lemma BeforeTheRead(f: Cluster, v: ClusterInfo, creds: Creds) returns (first: seq<Event>, h: nat)
    requires GoodCluster(f) && ClusterStorage(f) == MinioStorage && v in f.clusterSet && v.typ == MetaStore
    ensures IsRun(INIT, first) && AllSmooth(f, first)
    ensures var s := EndOf(INIT, first);
      && Steady(s, f) && ReadyForMetastore(s, f) && (forall m :: 0 <= m < |s.mutexes| ==> s.mutexes[m].None?)
      && h < |s.outers| && s.outers[h].pc == Trying && s.outers[h].entry == v && Launches(v.typ)
      && Stored(s, f.id, MinioUserRole) && s.store[Key(f.id, MinioUserRole)] == MinioUserSecret(creds)
  {
    assert Plan(f, Sleepers(f, None), 1);
    hide Completed, Provided, ProperTypes, AllSmooth, NoPass, QuiescentBut, Waits, Roles, Sound, Steady, Counts, Made, HasOuter, Asleep,
      Sleepers, Drawn, ReadyForMetastore, ClusterStorage;
    first := SleepersLast(f, None, 1, creds);
    var s := EndOf(INIT, first);
    RunsKeepMadeFromInit(first);
    RunsAreDrawn(first, {creds}, NodesIn(first));
    ReadyAtTheEnd(s, f);
    EndIsOpen(s, f, None);
    assert HasOuter(s, v);
    h := SleeperOf(s, f, None, v);
    SecretIsDrawn(s, f, creds, NodesIn(first));
  }

  lemma SecretIsDrawn(s: State, f: Cluster, creds: Creds, nodes: set<nat>)
    requires Drawn(s, {creds}, nodes) && Steady(s, f) && Stored(s, f.id, MinioUserRole)
    ensures s.store[Key(f.id, MinioUserRole)] == MinioUserSecret(creds)
  {
    assert ContentOk(s, Key(f.id, MinioUserRole), NOBODY);
  }

  /** One outer goroutine gets its free mutex and launches its inner one. */
  lemma Launched(s: State, f: Cluster, h: nat) returns (events: seq<Event>)
    requires Steady(s, f) && h < |s.outers| && s.outers[h].pc == Trying && Launches(s.outers[h].entry.typ)
    requires forall m :: 0 <= m < |s.mutexes| ==> s.mutexes[m].None?
    requires ReadyForMetastore(s, f)
    ensures IsRun(s, events) && events == [TryLock(h), Launch(h)]
    ensures var c := EndOf(s, events);
      && c.store == s.store && c.inners == s.inners + [Inner(f, s.outers[h].entry, 0, 0, Build, None, false, false, false, None)]
      && ReadyForMetastore(c, f)
  {
    assert OuterOk(s, h) && OuterOf(f, s.outers[h]);
    hide Steady, LockName;
    RunOne(s, TryLock(h));
    RunSnoc(s, [TryLock(h)], Launch(h));
    events := [TryLock(h)] + [Launch(h)];
  }

  lemma OnlyOneFails(f: Cluster, first: seq<Event>, launch: seq<Event>, j: nat)
    requires AllSmooth(f, first) && |launch| == 2 && launch[0].TryLock? && launch[1].Launch?
    ensures var waits := [Run(j, Ok), Run(j, Ok), Run(j, Ok), Run(j, Fail), Run(j, Ok)];
      var create := [Run(j, Ok), Run(j, Ok), Run(j, Ok)];
      OnlyAt(f, first + (launch + (waits + create)), |first| + |launch| + 3)
  {
  }
}
