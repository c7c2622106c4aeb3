/** Components that never come: what nobody provides, and what waits for it, is never created. */
module ProtocolStarvation {
  import opened Text
  import opened Clusters
  import opened Protocol
  import opened ProtocolSafety

  /** What a cluster goes without: objects that are never created, name nodes that are never ready, and
      a metastore that never has the replicas awaited. patient: nobody gives up waiting for name nodes
      or for the MinIO service. alone: there is no other cluster. */
  datatype Famine = Famine(dead: set<Role>, noNameNodes: bool, shortMetastore: bool, patient: bool, alone: bool)

  /** A wait that is never over. */
  predicate Blocks(fam: Famine, w: Wait) {
    match w
    case Pods(role, _) => role in fam.dead
    case MetastorePods => MetastoreRole in fam.dead || fam.shortMetastore
    case NameNodes(_) => fam.patient && (HdfsRole in fam.dead || fam.noNameNodes)
    case MinioService => fam.patient && fam.alone && TenantRole in fam.dead
    case _ => false
  }

  predicate Bars(fam: Famine, ws: seq<Wait>) {
    exists i :: 0 <= i < |ws| && Blocks(fam, ws[i])
  }

  predicate Barred(f: Cluster, fam: Famine, v: ClusterInfo) {
    Bars(fam, Waits(f, v))
  }

  /** The entry's goroutine has something to create under the role; doris without FE or BE has not. */
  predicate CanMake(f: Cluster, v: ClusterInfo, role: Role) {
    role in Roles(v) && (role == DorisRole ==> FindsFEAndBE(f, v))
  }

  /** The entry's goroutine does not end the famine. */
  predicate Harmless(f: Cluster, fam: Famine, v: ClusterInfo) {
    && (Barred(f, fam, v) || forall role :: role in fam.dead ==> !CanMake(f, v, role))
    && (fam.noNameNodes && HdfsRole in Roles(v) ==> NameNodesAsked(f, v) < 1)
  }

  /** The only type whose goroutines create under a role. */
  function MakerOf(role: Role): ClusterType {
    match role
    case KyuubiRole => Kyuubi
    case MetastoreRole => MetaStore
    case TenantRole => Minio
    case PgRole => Database
    case DorisRole => Doris
    case ZkRole => Zookeeper
    case HdfsRole => Hdfs
    case MinioConfigRole => Minio
    case MinioUserRole => Minio
    case PgInitRole => Database
    case PgSuperRole => Database
  }

  lemma RolesOfMaker(v: ClusterInfo)
    ensures forall role :: role in Roles(v) ==> MakerOf(role) == v.typ
  {
  }

  /** An entry whose type makes nothing of what is missing does not end the famine. */
  lemma StrangerIsHarmless(f: Cluster, fam: Famine, v: ClusterInfo)
    requires forall role :: role in fam.dead ==> MakerOf(role) != v.typ
    requires fam.noNameNodes ==> v.typ != Hdfs
    ensures Harmless(f, fam, v)
  {
    RolesOfMaker(v);
    hide Roles, Barred;
  }

  predicate AllHarmless(f: Cluster, fam: Famine) {
    forall v :: v in f.clusterSet ==> Harmless(f, fam, v)
  }

  // ---------------------------------------------------------------- the invariant

  /** The first n waits do not block, and there are more. */
  predicate Before(fam: Famine, ws: seq<Wait>, n: nat) {
    n < |ws| && forall i :: 0 <= i < n ==> !Blocks(fam, ws[i])
  }

  predicate InFront(fam: Famine, t: Inner) {
    Before(fam, WaitsOf(t), t.wait) && t.k == 0 && t.stage == Build
  }

  /** What an object under a role can be, as far as the famine goes. */
  predicate Meagre(f: Cluster, fam: Famine, v: ClusterInfo, role: Role, o: Obj) {
    && (role == DorisRole ==> FindsFEAndBE(f, v))
    && (fam.noNameNodes && role == HdfsRole ==> o.HdfsObj? && o.nameNodes < 1)
  }

  predicate InnerStarved(f: Cluster, fam: Famine, t: Inner) {
    && (fam.alone ==> t.cluster.id == f.id)
    && (t.cluster.id == f.id ==>
          && t.cluster == f && Harmless(f, fam, t.entry)
          && (Barred(f, fam, t.entry) ==> InFront(fam, t))
          && (t.desired.Some? && t.k < |RolesOf(t)| ==> Meagre(f, fam, t.entry, RolesOf(t)[t.k], t.desired.value)))
  }

  predicate OuterStarved(f: Cluster, fam: Famine, o: Outer) {
    && (fam.alone ==> o.cluster.id == f.id)
    && (o.cluster.id == f.id ==> o.cluster == f && (o.pc == Trying || o.pc == Holding ==> Harmless(f, fam, o.entry)))
  }

  predicate StoreStarved(store: map<Key, Obj>, f: Cluster, fam: Famine) {
    && (forall role :: role in fam.dead ==> Key(f.id, role) !in store)
    && (fam.alone ==> forall k :: k in store ==> k.id == f.id)
    && (fam.noNameNodes && Key(f.id, HdfsRole) in store ==>
          store[Key(f.id, HdfsRole)].HdfsObj? && store[Key(f.id, HdfsRole)].nameNodes < 1)
  }

  /** Nobody is going to set MetastoreReplicas again. */
  ghost predicate NoSetters(s: State) {
    && (forall i :: 0 <= i < |s.outers| && (s.outers[i].pc == Trying || s.outers[i].pc == Holding) ==> s.outers[i].entry.typ != MetaStore)
    && (forall j :: 0 <= j < |s.inners| && s.inners[j].entry.typ == MetaStore ==> s.inners[j].wait >= 1 || s.inners[j].failed)
  }

  /** The stored metastore asks for none, or for fewer than are awaited for good. */
  ghost predicate ShortMetastore(s: State, f: Cluster) {
    var k := Key(f.id, MetastoreRole);
    && k in s.store && s.store[k].MetastoreObj?
    && (s.store[k].replicas < 1 || (s.store[k].replicas < s.metastoreReplicas && NoSetters(s)))
  }

  ghost predicate Starved(s: State, f: Cluster, fam: Famine) {
    && ReadyOk(s)
    && (forall i :: 0 <= i < |s.outers| ==> OuterStarved(f, fam, s.outers[i]))
    && (forall j :: 0 <= j < |s.inners| ==> InnerStarved(f, fam, s.inners[j]))
    && StoreStarved(s.store, f, fam)
    && (fam.shortMetastore ==> ShortMetastore(s, f))
  }

  // ---------------------------------------------------------------- the events of such runs

  /** The goroutine stops waiting for what has not come. */
  predicate GivesUp(t: Inner, choice: Choice) {
    && t.wait < |WaitsOf(t)|
    && ((WaitsOf(t)[t.wait].NameNodes? && choice == Timeout) || (WaitsOf(t)[t.wait] == MinioService && choice == Fail))
  }

  /** Passes bring nothing that ends the famine. */
  predicate PassAdmitted(f: Cluster, fam: Famine, e: Event) {
    e.Pass? && PassCluster(e.c).Some? ==>
      && !fam.shortMetastore
      && (fam.alone ==> PassCluster(e.c).value.id == f.id)
      && (PassCluster(e.c).value.id == f.id ==> PassCluster(e.c).value == f && AllHarmless(f, fam))
  }

  predicate Admitted(s: State, f: Cluster, fam: Famine, e: Event) {
    && PassAdmitted(f, fam, e)
    && (fam.patient && e.Run? && e.j < |s.inners| ==> !GivesUp(s.inners[e.j], e.choice))
  }

  predicate AllAdmitted(s: State, f: Cluster, fam: Famine, events: seq<Event>)
    requires IsRun(s, events)
    decreases |events|
  {
    events == [] || (Admitted(s, f, fam, events[0]) && AllAdmitted(Apply(s, events[0]), f, fam, events[1..]))
  }

  /** Prompt events without a pass are always admitted. */
  lemma {:induction false} PromptIsAdmitted(s: State, f: Cluster, fam: Famine, events: seq<Event>)
    requires IsRun(s, events)
    requires forall i :: 0 <= i < |events| ==> Prompt(events[i]) && !events[i].Pass?
    ensures AllAdmitted(s, f, fam, events)
    decreases |events|
  {
    hide Apply, Enabled, Waits;
    if events != [] {
      PromptIsAdmitted(Apply(s, events[0]), f, fam, events[1..]);
    }
  }

  // ---------------------------------------------------------------- every event keeps it

  lemma BeforeAdvances(fam: Famine, ws: seq<Wait>, n: nat)
    requires Bars(fam, ws) && Before(fam, ws, n) && !Blocks(fam, ws[n])
    ensures Before(fam, ws, n + 1)
  {
    var i :| 0 <= i < |ws| && Blocks(fam, ws[i]);
  }

  /** No wait that ends was a blocking one. */
  lemma BlockedForEver(s: State, f: Cluster, fam: Famine, t: Inner, choice: Choice)
    requires Starved(s, f, fam) && t.cluster == f && t.wait < |WaitsOf(t)|
    requires WaitEnabled(s, t, WaitsOf(t)[t.wait], choice) && (fam.patient ==> !GivesUp(t, choice))
    ensures !Blocks(fam, WaitsOf(t)[t.wait])
  {
    hide Waits, InnerStarved, OuterStarved, NoSetters;
    var w := WaitsOf(t)[t.wait];
    if w == MinioService && fam.patient && fam.alone && TenantRole in fam.dead {
      NoTenantNoService(s, f, fam);
    }
  }

  lemma NoTenantNoService(s: State, f: Cluster, fam: Famine)
    requires Starved(s, f, fam) && fam.alone && TenantRole in fam.dead
    ensures !MinioServiceUp(s, f.id.ns)
  {
    hide InnerStarved, OuterStarved, ShortMetastore;
    forall k | k in s.ready && s.ready[k] >= 1 ensures k.id == f.id && k.role != TenantRole {
      assert k in s.store;
      assert k == Key(f.id, k.role);
    }
  }

  lemma DesiredIsMeagre(s: State, f: Cluster, fam: Famine, t: Inner, role: Role, choice: Choice)
    requires t.cluster == f && Harmless(f, fam, t.entry) && role in Roles(t.entry)
    ensures var d := Desired(s, t, role, choice); d.Some? ==> Meagre(f, fam, t.entry, role, d.value)
  {
  }

  lemma StepKeepsInnerStarved(s: State, f: Cluster, fam: Famine, t: Inner, choice: Choice)
    requires InnerStarved(f, fam, t) && t.cluster == f && t.wait >= |WaitsOf(t)| && t.k < |RolesOf(t)|
    ensures InnerStarved(f, fam, AfterStep(s, t, choice))
  {
    DesiredIsMeagre(s, f, fam, t, RolesOf(t)[t.k], choice);
    AfterStepDesired(s, t, choice);
    assert !Barred(f, fam, t.entry);
    hide Waits, Roles, Harmless, Barred, Meagre, Desired, AfterStep;
  }

  lemma AfterWaitKeeps(s: State, t: Inner, choice: Choice)
    requires t.wait < |WaitsOf(t)|
    ensures var u := AfterWait(s, t, WaitsOf(t)[t.wait], choice);
      && u.cluster == t.cluster && u.entry == t.entry && u.k == t.k && u.stage == t.stage && u.desired == t.desired
      && (u.wait == t.wait + 1 || u.wait == t.wait)
  {
    hide Waits, CredsIn;
  }

  lemma InFrontAdvances(fam: Famine, t: Inner, u: Inner)
    requires InFront(fam, t) && Bars(fam, WaitsOf(t)) && !Blocks(fam, WaitsOf(t)[t.wait])
    requires u.cluster == t.cluster && u.entry == t.entry && u.k == t.k && u.stage == t.stage
    requires u.wait == t.wait + 1 || u.wait == t.wait
    ensures InFront(fam, u)
  {
    hide Waits, Bars, Blocks;
    BeforeAdvances(fam, WaitsOf(t), t.wait);
  }

  lemma WaitKeepsInnerStarved(s: State, f: Cluster, fam: Famine, t: Inner, choice: Choice)
    requires Starved(s, f, fam) && InnerStarved(f, fam, t) && t.cluster == f && t.wait < |WaitsOf(t)|
    requires WaitEnabled(s, t, WaitsOf(t)[t.wait], choice) && (fam.patient ==> !GivesUp(t, choice))
    ensures InnerStarved(f, fam, AfterWait(s, t, WaitsOf(t)[t.wait], choice))
  {
    hide Starved, WaitEnabled, GivesUp, Waits, Roles, Harmless, Meagre, Bars, Before, InFront, AfterWait, Blocks;
    BlockedForEver(s, f, fam, t, choice);
    AfterWaitKeeps(s, t, choice);
    if Barred(f, fam, t.entry) {
      InFrontAdvances(fam, t, AfterWait(s, t, WaitsOf(t)[t.wait], choice));
    }
  }

  lemma RunKeepsInnerStarved(s: State, f: Cluster, fam: Famine, t: Inner, choice: Choice)
    requires Starved(s, f, fam) && InnerStarved(f, fam, t) && RunEnabled(s, t, choice)
    requires fam.patient ==> !GivesUp(t, choice)
    ensures InnerStarved(f, fam, AfterRun(s, t, choice))
  {
    SamePlace(s, t, choice);
    hide Starved, AfterStep, AfterWait, WaitEnabled, StepEnabled, GivesUp, Waits, Roles, Harmless, Barred, InFront, Meagre;
    if t.cluster == f {
      if t.wait < |WaitsOf(t)| {
        WaitKeepsInnerStarved(s, f, fam, t, choice);
      } else {
        StepKeepsInnerStarved(s, f, fam, t, choice);
      }
    }
  }

  lemma CreateKeepsStoreStarved(s: State, f: Cluster, fam: Famine, t: Inner, choice: Choice)
    requires StoreStarved(s.store, f, fam) && InnerStarved(f, fam, t) && RunEnabled(s, t, choice)
    requires Accepts(s, t, choice).Some?
    ensures var cr := Accepts(s, t, choice).value; StoreStarved(s.store[cr.key := cr.obj], f, fam)
  {
    var cr := Accepts(s, t, choice).value;
    if t.cluster.id == f.id {
      assert !Barred(f, fam, t.entry) && CanMake(f, t.entry, cr.key.role);
    }
    hide Waits, Roles, Barred;
  }

  /** Only a metastore goroutine that has not started sets MetastoreReplicas. */
  lemma OnlySettersSet(s: State, t: Inner)
    requires !Done(t) && (t.entry.typ == MetaStore ==> t.wait >= 1 || t.failed)
    ensures NewReplicas(s, t) == s.metastoreReplicas
  {
    if t.wait < |WaitsOf(t)| && WaitsOf(t)[t.wait].SetReplicas? {
      SetterIsFirst(t.cluster, t.entry, t.wait);
    }
    hide Waits;
  }

  lemma SetterIsFirst(c: Cluster, v: ClusterInfo, i: nat)
    requires i < |Waits(c, v)| && Waits(c, v)[i].SetReplicas?
    ensures v.typ == MetaStore && i == 0
  {
    WaitCases(c, v, Waits(c, v)[i]);
    var rest := Waits(c, v)[1..];
    assert v.typ == MetaStore ==> forall k :: 0 <= k < |rest| ==> !rest[k].SetReplicas?;
    assert forall k :: 0 <= k < |rest| ==> Waits(c, v)[k + 1] == rest[k];
  }

  lemma RunKeepsShort(s: State, f: Cluster, j: nat, choice: Choice)
    requires ShortMetastore(s, f) && CanRun(s, j, choice)
    ensures ShortMetastore(ApplyRun(s, j, choice), f)
  {
    var t := s.inners[j];
    RunExtendsStep(s, j, choice);
    RunChangesOnly(s, j, choice);
    SamePlace(s, t, choice);
    if t.entry.typ == MetaStore ==> t.wait >= 1 || t.failed {
      OnlySettersSet(s, t);
    }
    hide AfterRun, Accepts, NewReplicas, ApplyRun, Waits, WaitEnabled, StepEnabled;
  }

  lemma RunKeepsStarved(s: State, f: Cluster, fam: Famine, j: nat, choice: Choice)
    requires Starved(s, f, fam) && CanRun(s, j, choice) && Admitted(s, f, fam, Run(j, choice))
    ensures Starved(ApplyRun(s, j, choice), f, fam)
  {
    var t := s.inners[j];
    assert InnerStarved(f, fam, t);
    RunKeepsInnerStarved(s, f, fam, t, choice);
    if Accepts(s, t, choice).Some? {
      CreateKeepsStoreStarved(s, f, fam, t, choice);
    }
    if fam.shortMetastore {
      RunKeepsShort(s, f, j, choice);
    }
    RunExtendsStep(s, j, choice);
    RunChangesOnly(s, j, choice);
    hide StoreStarved, InnerStarved, OuterStarved, Accepts, AfterRun, ApplyRun, NewReplicas, ShortMetastore, Asked, RunEnabled, GivesUp;
  }

  lemma {:induction false} SpawnKeepsStarved(s: State, f: Cluster, fam: Famine, g: Cluster, n: nat)
    requires Starved(s, f, fam) && n <= |g.clusterSet| && !fam.shortMetastore
    requires (fam.alone ==> g.id == f.id) && (g.id == f.id ==> g == f && AllHarmless(f, fam))
    ensures Starved(SpawnUpTo(s, g, n), f, fam)
  {
    if n > 0 {
      SpawnKeepsStarved(s, f, fam, g, n - 1);
      assert g.id == f.id ==> Harmless(f, fam, g.clusterSet[n - 1]);
      hide Starved, Harmless, Spawn, AllHarmless;
      SpawnOneKeepsStarved(SpawnUpTo(s, g, n - 1), f, fam, g, g.clusterSet[n - 1]);
    }
  }

  lemma SpawnOneKeepsStarved(s: State, f: Cluster, fam: Famine, g: Cluster, v: ClusterInfo)
    requires Starved(s, f, fam) && !fam.shortMetastore
    requires (fam.alone ==> g.id == f.id) && (g.id == f.id ==> g == f && Harmless(f, fam, v))
    ensures Starved(Spawn(s, g, v), f, fam)
  {
    SpawnAddsOne(s, g, v);
    hide Harmless, InnerStarved, StoreStarved, Spawn, Asked, ShortMetastore;
    var s' := Spawn(s, g, v);
    forall i | 0 <= i < |s'.outers| ensures OuterStarved(f, fam, s'.outers[i]) {
      assert i < |s.outers| ==> s'.outers[i] == s.outers[i];
    }
  }

  lemma SpawnAddsOne(s: State, c: Cluster, v: ClusterInfo)
    ensures var s' := Spawn(s, c, v);
      && |s'.outers| == |s.outers| + 1 && s.outers <= s'.outers
      && s'.outers[|s.outers|] == Outer(c, v, s'.outers[|s.outers|].mutex, Trying)
      && s'.inners == s.inners && s'.store == s.store && s'.ready == s.ready && s'.metastoreReplicas == s.metastoreReplicas
  {
    hide LockName;
  }

  lemma LauncheeStarved(f: Cluster, fam: Famine, o: Outer)
    requires OuterStarved(f, fam, o) && o.pc == Holding
    ensures InnerStarved(f, fam, Launchee(o))
  {
    if o.cluster.id == f.id && Barred(f, fam, o.entry) {
      var ws := Waits(f, o.entry);
      var i :| 0 <= i < |ws| && Blocks(fam, ws[i]);
    }
    hide Waits, Roles, Harmless;
  }

  lemma LaunchKeepsStarved(s: State, f: Cluster, fam: Famine, i: nat)
    requires Starved(s, f, fam) && Enabled(s, Launch(i))
    ensures Starved(ApplyLaunch(s, i), f, fam)
  {
    assert OuterStarved(f, fam, s.outers[i]);
    LauncheeStarved(f, fam, s.outers[i]);
    hide InnerStarved, StoreStarved, Harmless, Asked;
  }

  lemma TryLockKeepsStarved(s: State, f: Cluster, fam: Famine, i: nat)
    requires Starved(s, f, fam) && Enabled(s, TryLock(i))
    ensures Starved(ApplyTryLock(s, i), f, fam)
  {
    assert OuterStarved(f, fam, s.outers[i]);
    hide InnerStarved, StoreStarved, Harmless, Asked;
  }

  lemma UnlockKeepsStarved(s: State, f: Cluster, fam: Famine, i: nat)
    requires Starved(s, f, fam) && Enabled(s, Unlock(i))
    ensures Starved(ApplyUnlock(s, i), f, fam)
  {
    assert OuterStarved(f, fam, s.outers[i]);
    hide InnerStarved, StoreStarved, Harmless, Asked;
  }

  lemma ReadinessKeepsStarved(s: State, f: Cluster, fam: Famine, e: Event)
    requires Starved(s, f, fam) && Enabled(s, e) && (e.BecomeReady? || e.BecomeUnready?)
    ensures Starved(Apply(s, e), f, fam)
  {
    hide InnerStarved, OuterStarved, StoreStarved, Asked;
  }

  lemma StepKeepsStarved(s: State, f: Cluster, fam: Famine, e: Event)
    requires Starved(s, f, fam) && Enabled(s, e) && Admitted(s, f, fam, e)
    ensures Starved(Apply(s, e), f, fam)
  {
    match e
    case Pass(c) =>
      if PassCluster(c).Some? {
        SpawnKeepsStarved(s, f, fam, PassCluster(c).value, |PassCluster(c).value.clusterSet|);
      }
    case Launch(i) => LaunchKeepsStarved(s, f, fam, i);
    case Run(j, choice) => RunKeepsStarved(s, f, fam, j, choice);
    case TryLock(i) => TryLockKeepsStarved(s, f, fam, i);
    case Unlock(i) => UnlockKeepsStarved(s, f, fam, i);
    case BecomeReady(_) => ReadinessKeepsStarved(s, f, fam, e);
    case BecomeUnready(_) => ReadinessKeepsStarved(s, f, fam, e);
  }

  /** A famine never ends. */
  lemma {:induction false} StarvedForEver(s: State, f: Cluster, fam: Famine, events: seq<Event>)
    requires Starved(s, f, fam) && IsRun(s, events) && AllAdmitted(s, f, fam, events)
    ensures Starved(EndOf(s, events), f, fam)
    decreases |events|
  {
    hide Starved, Admitted;
    if events != [] {
      StepKeepsStarved(s, f, fam, events[0]);
      StarvedForEver(Apply(s, events[0]), f, fam, events[1..]);
    }
  }

  // ---------------------------------------------------------------- from the start

  /** Where every entry that could create one of some objects waits for another of them, or for name
      nodes that no object asks for, no run over the cluster ever creates any of them, however long it
      is and whatever succeeds or fails in it. The objects may wait for each other in any length of
      chain. */
  lemma UnprovidedStarves(f: Cluster, fam: Famine, events: seq<Event>)
    requires AllHarmless(f, fam) && !fam.shortMetastore
    requires IsRun(INIT, events) && AllAdmitted(INIT, f, fam, events)
    ensures forall role :: role in fam.dead ==> Key(f.id, role) !in EndOf(INIT, events).store
  {
    StarvedForEver(INIT, f, fam, events);
  }

  /** Passes over one cluster, or over others with another name. */
  predicate PassesOverOrBeside(f: Cluster, events: seq<Event>) {
    forall i :: 0 <= i < |events| && events[i].Pass? && PassCluster(events[i].c).Some? && PassCluster(events[i].c).value.id == f.id ==>
      PassCluster(events[i].c) == Some(f)
  }

  lemma {:induction false} BesideIsAdmitted(s: State, f: Cluster, fam: Famine, events: seq<Event>)
    requires AllHarmless(f, fam) && !fam.shortMetastore && !fam.patient && !fam.alone
    requires IsRun(s, events) && PassesOverOrBeside(f, events)
    ensures AllAdmitted(s, f, fam, events)
    decreases |events|
  {
    hide Apply, Enabled, AllHarmless, PassCluster;
    if events != [] {
      BesideIsAdmitted(Apply(s, events[0]), f, fam, events[1..]);
    }
  }

  lemma WaitsBar(f: Cluster, fam: Famine, v: ClusterInfo, i: nat)
    requires i < |Waits(f, v)| && Blocks(fam, Waits(f, v)[i])
    ensures Barred(f, fam, v)
  {
    hide Waits, Blocks;
  }

  /** Kyuubi always waits for the metastore, and the metastore for the database. */
  lemma EveryKyuubiWaits(f: Cluster, v: ClusterInfo) returns (i: nat)
    requires v.typ == Kyuubi
    ensures i < |Waits(f, v)| && Waits(f, v)[i] == MetastorePods
  {
    var head := When(UsesJdbc(v), JDBC_WAITS) + When(KyuubiNeedsHA(f), [Pods(ZkRole, ZK_REPLICAS)]);
    i := |head|;
    assert Waits(f, v) == head + [MetastorePods] + When(f.kind == BATCH && ClusterStorage(f) == MinioStorage, [MinioService, MinioSecret]);
  }

  /** A cluster whose database entries are all of another kind never gets its metastore, nor kyuubi. */
  lemma NoPostgresNoMetastore(f: Cluster, events: seq<Event>)
    requires forall v :: v in f.clusterSet && v.typ == Database ==> v.subType != "" && v.subType != "postgres"
    requires IsRun(INIT, events) && PassesOverOrBeside(f, events)
    ensures Key(f.id, PgRole) !in EndOf(INIT, events).store
    ensures Key(f.id, MetastoreRole) !in EndOf(INIT, events).store
    ensures Key(f.id, KyuubiRole) !in EndOf(INIT, events).store
  {
    var fam := Famine({PgRole, MetastoreRole, KyuubiRole}, false, false, false, false);
    forall v | v in f.clusterSet ensures Harmless(f, fam, v) {
      if v.typ == MetaStore {
        WaitsBar(f, fam, v, 1);
      } else if v.typ == Kyuubi {
        var i := EveryKyuubiWaits(f, v);
        WaitsBar(f, fam, v, i);
      } else if v.typ != Database {
        StrangerIsHarmless(f, fam, v);
      }
    }
    BesideIsAdmitted(INIT, f, fam, events);
    UnprovidedStarves(f, fam, events);
  }

  /** Hdfs with two namenodes and no zookeeper in the set never gets created. A user who lists the
      hdfs entries but leaves the storage feature at minio is in this situation. */
  lemma NoZookeeperNoHdfs(f: Cluster, events: seq<Event>)
    requires !Lists(f.clusterSet, Zookeeper)
    requires forall v :: v in f.clusterSet && v.typ == Hdfs ==> NamenodeHA(f, v)
    requires IsRun(INIT, events) && PassesOverOrBeside(f, events)
    ensures Key(f.id, HdfsRole) !in EndOf(INIT, events).store
  {
    var fam := Famine({ZkRole, HdfsRole}, false, false, false, false);
    forall v | v in f.clusterSet ensures Harmless(f, fam, v) {
      var i :| 0 <= i < |f.clusterSet| && f.clusterSet[i] == v;
      assert v.typ == Zookeeper ==> Lists(f.clusterSet, Zookeeper);
      if v.typ == Hdfs {
        WaitsBar(f, fam, v, 0);
      } else {
        StrangerIsHarmless(f, fam, v);
      }
    }
    BesideIsAdmitted(INIT, f, fam, events);
    UnprovidedStarves(f, fam, events);
  }

  /** With HDFS storage and no hdfs entry that asks for name nodes, neither the metastore nor kyuubi is
      ever created while nobody gives up waiting. */
  lemma NoNameNodesNoMetastore(f: Cluster, events: seq<Event>)
    requires ClusterStorage(f) == HdfsStorage
    requires forall v :: v in f.clusterSet && v.typ == Hdfs ==> NameNodesAsked(f, v) < 1
    requires IsRun(INIT, events) && AllAdmitted(INIT, f, Famine({MetastoreRole, KyuubiRole}, true, false, true, false), events)
    ensures Key(f.id, MetastoreRole) !in EndOf(INIT, events).store
    ensures Key(f.id, KyuubiRole) !in EndOf(INIT, events).store
  {
    var fam := Famine({MetastoreRole, KyuubiRole}, true, false, true, false);
    forall v | v in f.clusterSet ensures Harmless(f, fam, v) {
      if v.typ == MetaStore {
        assert Waits(f, v)[2] == NameNodes(LastNameNodes(f.clusterSet));
        WaitsBar(f, fam, v, 2);
      } else if v.typ == Kyuubi {
        var i := EveryKyuubiWaits(f, v);
        WaitsBar(f, fam, v, i);
      } else if v.typ != Hdfs {
        StrangerIsHarmless(f, fam, v);
      }
    }
    UnprovidedStarves(f, fam, events);
  }
}
