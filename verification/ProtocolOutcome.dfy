/** How smooth runs end: where nothing is left to do every component of a covered cluster has been
    created. */
module ProtocolOutcome {
  import opened Text
  import opened Clusters
  import opened Protocol
  import opened ProtocolSafety
  import opened Coverage
  import opened ProtocolTermination
  import opened ProtocolProgress

  // ---------------------------------------------------------------- the metastore's replicas

  /** The metastore entries that do not sleep make m of MetastoreReplicas. */
  predicate Plan(f: Cluster, asleep: set<ClusterInfo>, m: int) {
    forall v :: v in f.clusterSet && v.typ == MetaStore && v !in asleep ==> ReplicasOf(v) == m
  }

  predicate InnerCounts(s: State, t: Inner, m: int) {
    t.entry.typ == MetaStore ==>
      && ReplicasOf(t.entry) == m
      && (t.wait >= 1 ==> s.metastoreReplicas == m)
      && (t.desired.Some? ==> t.desired.value.MetastoreObj? && t.desired.value.replicas == m)
  }

  predicate StoreCounts(store: map<Key, Obj>, m: int) {
    forall k :: k in store && k.role == MetastoreRole ==> store[k].MetastoreObj? && store[k].replicas == m
  }

  /** Every metastore object asks for m replicas, and nobody waits for more. */
  ghost predicate Counts(s: State, m: int) {
    && (s.metastoreReplicas == 1 || s.metastoreReplicas == m)
    && (forall j :: 0 <= j < |s.inners| ==> InnerCounts(s, s.inners[j], m))
    && StoreCounts(s.store, m)
  }

  /** Sleeping entries have no goroutine past trying their mutex. */
  ghost predicate Asleep(s: State, asleep: set<ClusterInfo>) {
    && (forall i :: 0 <= i < |s.outers| && s.outers[i].entry in asleep ==> s.outers[i].pc == Trying)
    && (forall j :: 0 <= j < |s.inners| ==> s.inners[j].entry !in asleep)
  }

  lemma WaitsSetOwnReplicas(t: Inner)
    requires t.wait < |WaitsOf(t)| && WaitsOf(t)[t.wait].SetReplicas?
    ensures t.entry.typ == MetaStore && WaitsOf(t)[t.wait].n == t.entry.replicas
  {
    WaitCases(t.cluster, t.entry, WaitsOf(t)[t.wait]);
  }

  lemma ReplicasSet(s: State, t: Inner, m: int)
    requires InnerCounts(s, t, m) && (s.metastoreReplicas == 1 || s.metastoreReplicas == m)
    ensures NewReplicas(s, t) == s.metastoreReplicas || NewReplicas(s, t) == m
    ensures t.entry.typ == MetaStore && t.wait == 0 ==> NewReplicas(s, t) == m
  {
    if t.wait < |WaitsOf(t)| && WaitsOf(t)[t.wait].SetReplicas? {
      WaitsSetOwnReplicas(t);
    }
    assert t.entry.typ == MetaStore ==> WaitsOf(t)[0] == SetReplicas(t.entry.replicas);
    hide Waits;
  }

  lemma RunKeepsInnerCounts(s: State, s': State, t: Inner, choice: Choice, m: int)
    requires InnerCounts(s, t, m) && InnerOk(s, t, NOBODY) && RunEnabled(s, t, choice)
    requires s'.metastoreReplicas == s.metastoreReplicas || s'.metastoreReplicas == m
    requires t.entry.typ == MetaStore && t.wait == 0 ==> s'.metastoreReplicas == m
    ensures InnerCounts(s', AfterRun(s, t, choice), m)
  {
    SamePlace(s, t, choice);
    if t.wait >= |WaitsOf(t)| {
      AfterStepDesired(s, t, choice);
      assert t.entry.typ == MetaStore ==> |WaitsOf(t)| >= 2 && RolesOf(t)[t.k] == MetastoreRole;
      hide Waits, Roles, AfterStep;
    } else {
      hide Waits, Roles, WaitEnabled, CredsIn;
    }
  }

  /** What the step leaves in the store. */
  lemma AcceptKeepsStoreCounts(s: State, t: Inner, choice: Choice, m: int)
    requires StoreCounts(s.store, m) && InnerCounts(s, t, m) && InnerOk(s, t, NOBODY) && RunEnabled(s, t, choice)
    ensures StoreCounts(match Accepts(s, t, choice) case None => s.store case Some(cr) => s.store[cr.key := cr.obj], m)
  {
    if Accepts(s, t, choice).Some? && Accepts(s, t, choice).value.key.role == MetastoreRole {
      AcceptedCounts(s, t, choice, m);
    }
    hide Accepts, InnerOk, InnerCounts, RunEnabled;
  }

  lemma OthersStillCount(s: State, s': State, m: int)
    requires s'.metastoreReplicas == s.metastoreReplicas || s'.metastoreReplicas == m
    ensures forall t :: InnerCounts(s, t, m) ==> InnerCounts(s', t, m)
  {
  }

  lemma RunKeepsCounts(s: State, j: nat, choice: Choice, m: int)
    requires Counts(s, m) && Inv(s, NOBODY) && CanRun(s, j, choice)
    ensures Counts(ApplyRun(s, j, choice), m)
  {
    var t := s.inners[j];
    var s' := ApplyRun(s, j, choice);
    assert InnerOk(s, t, NOBODY) && InnerCounts(s, t, m);
    hide Inv, InnerOk, InnerCounts, StoreCounts, AfterRun, NewReplicas, Accepts, Waits, ApplyRun, RunEnabled;
    RunChangesOnly(s, j, choice);
    ReplicasSet(s, t, m);
    RunKeepsInnerCounts(s, s', t, choice, m);
    AcceptKeepsStoreCounts(s, t, choice, m);
    OthersStillCount(s, s', m);
  }

  lemma AcceptedCounts(s: State, t: Inner, choice: Choice, m: int)
    requires InnerCounts(s, t, m) && InnerOk(s, t, NOBODY) && RunEnabled(s, t, choice)
    requires Accepts(s, t, choice).Some? && Accepts(s, t, choice).value.key.role == MetastoreRole
    ensures Accepts(s, t, choice).value.obj.MetastoreObj? && Accepts(s, t, choice).value.obj.replicas == m
  {
  }

  lemma StepKeepsCounts(s: State, f: Cluster, asleep: set<ClusterInfo>, m: int, e: Event)
    requires Counts(s, m) && Steady(s, f) && Asleep(s, asleep) && Plan(f, asleep, m)
    requires Enabled(s, e) && Smooth(f, e)
    ensures Counts(Apply(s, e), m)
  {
    match e
    case Pass(_) => SpawnExtends(s, f, |f.clusterSet|);
    case Launch(i) => LaunchKeepsCounts(s, f, asleep, m, i);
    case Run(j, choice) => RunKeepsCounts(s, j, choice, m);
    case TryLock(i) => CountsFrame(s, ApplyTryLock(s, i), m); hide Steady, InnerCounts, StoreCounts;
    case Unlock(i) => CountsFrame(s, ApplyUnlock(s, i), m); hide Steady, InnerCounts, StoreCounts;
    case BecomeReady(_) => CountsFrame(s, Apply(s, e), m); hide Steady, InnerCounts, StoreCounts;
  }

  lemma LaunchKeepsCounts(s: State, f: Cluster, asleep: set<ClusterInfo>, m: int, i: nat)
    requires Counts(s, m) && Steady(s, f) && Asleep(s, asleep) && Plan(f, asleep, m)
    requires Enabled(s, Launch(i))
    ensures Counts(ApplyLaunch(s, i), m)
  {
    assert OuterOf(f, s.outers[i]);
    assert InnerCounts(s, Launchee(s.outers[i]), m);
    hide Steady, Inv, InnerCounts, StoreCounts;
    assert forall t :: InnerCounts(s, t, m) ==> InnerCounts(ApplyLaunch(s, i), t, m) by { CountsFrame(s, ApplyLaunch(s, i), m); }
  }

  lemma CountsFrame(s: State, s': State, m: int)
    requires s'.metastoreReplicas == s.metastoreReplicas
    ensures forall t :: InnerCounts(s, t, m) ==> InnerCounts(s', t, m)
  {
  }

  lemma StepKeepsAsleep(s: State, f: Cluster, asleep: set<ClusterInfo>, e: Event)
    requires Asleep(s, asleep) && Steady(s, f) && Enabled(s, e) && Smooth(f, e) && !Wakes(s, asleep, e)
    ensures Asleep(Apply(s, e), asleep)
  {
    hide Steady;
    match e
    case Pass(_) => SpawnLetsSleep(s, f, |f.clusterSet|, asleep);
    case Run(j, choice) => RunLetsSleep(s, j, choice, asleep);
    case _ =>
  }

  lemma RunLetsSleep(s: State, j: nat, choice: Choice, asleep: set<ClusterInfo>)
    requires Asleep(s, asleep) && CanRun(s, j, choice)
    ensures Asleep(ApplyRun(s, j, choice), asleep)
  {
    SamePlace(s, s.inners[j], choice);
    RunChangesOnly(s, j, choice);
    hide ApplyRun, AfterRun, RunEnabled, Accepts, NewReplicas;
  }

  lemma {:induction false} SpawnLetsSleep(s: State, f: Cluster, n: nat, asleep: set<ClusterInfo>)
    requires Asleep(s, asleep) && n <= |f.clusterSet|
    ensures Asleep(SpawnUpTo(s, f, n), asleep)
  {
    hide LockName;
    if n > 0 {
      SpawnLetsSleep(s, f, n - 1, asleep);
    }
  }

  /** All that such runs keep. */
  ghost predicate Going(s: State, f: Cluster, asleep: set<ClusterInfo>, m: int) {
    Sound(s, f) && Steady(s, f) && Asleep(s, asleep) && Counts(s, m)
  }

  lemma StepKeepsGoing(s: State, f: Cluster, asleep: set<ClusterInfo>, m: int, e: Event)
    requires Going(s, f, asleep, m) && GoodCluster(f) && Plan(f, asleep, m)
    requires Enabled(s, e) && Smooth(f, e) && !Wakes(s, asleep, e)
    ensures Going(Apply(s, e), f, asleep, m)
  {
    hide Sound, Steady, Asleep, Counts, Enabled, Apply;
    StepKeepsSoundness(s, f, e);
    StepStaysSteady(s, f, e);
    StepKeepsAsleep(s, f, asleep, e);
    StepKeepsCounts(s, f, asleep, m, e);
  }

  lemma {:induction false} RunKeepsGoing(s: State, f: Cluster, asleep: set<ClusterInfo>, m: int, events: seq<Event>)
    requires Going(s, f, asleep, m) && GoodCluster(f) && Plan(f, asleep, m)
    requires IsRun(s, events) && AllSmooth(f, events) && LetsSleep(s, asleep, events)
    ensures Going(EndOf(s, events), f, asleep, m)
    decreases |events|
  {
    hide Going;
    if events != [] {
      StepKeepsGoing(s, f, asleep, m, events[0]);
      RunKeepsGoing(Apply(s, events[0]), f, asleep, m, events[1..]);
    }
  }

  lemma InitIsGoing(f: Cluster, asleep: set<ClusterInfo>, m: int)
    ensures Going(INIT, f, asleep, m)
  {
  }

  /** With nobody asleep every run lets sleep. */
  lemma {:induction false} NobodyToWake(s: State, events: seq<Event>)
    requires IsRun(s, events)
    ensures LetsSleep(s, {}, events)
    decreases |events|
  {
    if events != [] {
      NobodyToWake(Apply(s, events[0]), events[1..]);
    }
  }

  // ---------------------------------------------------------------- where nothing is left to do

  /** Every entry of the cluster set has its outer goroutine. */
  ghost predicate Spawned(s: State, f: Cluster) {
    forall v :: v in f.clusterSet ==> HasOuter(s, v)
  }

  ghost predicate HasOuter(s: State, v: ClusterInfo) {
    exists i :: 0 <= i < |s.outers| && s.outers[i].entry == v
  }

  lemma OutersFinished(s: State, asleep: set<ClusterInfo>, i: nat)
    requires QuiescentBut(s, asleep) && i < |s.outers| && s.outers[i].entry !in asleep
    ensures s.outers[i].pc.Finished?
  {
    assert !Enabled(s, TryLock(i)) && !Enabled(s, Launch(i)) && !Enabled(s, Unlock(i));
  }

  lemma RunnerOfType(s: State, f: Cluster, asleep: set<ClusterInfo>, v: ClusterInfo) returns (j: nat)
    requires Sound(s, f) && QuiescentBut(s, asleep) && Asleep(s, asleep) && Spawned(s, f)
    requires Launches(v.typ) && v in f.clusterSet && v !in asleep
    ensures j < |s.inners| && s.inners[j].entry.typ == v.typ && !s.inners[j].doomed
    ensures InnerOk(s, s.inners[j], NOBODY) && InnerSound(s, f, s.inners[j])
  {
    var t := v.typ;
    assert HasOuter(s, v);
    var i :| 0 <= i < |s.outers| && s.outers[i].entry == v;
    OutersFinished(s, asleep, i);
    assert OuterServed(s, s.outers[i]);
    if HasHolder(s, t) {
      var h :| 0 <= h < |s.outers| && s.outers[h].pc == Holding && s.outers[h].entry.typ == t;
      OutersFinished(s, asleep, h);
    }
    assert HasRunner(s, t);
    if t == Minio {
      j :| 0 <= j < |s.inners| && Alive(s.inners[j], 0);
    } else {
      j :| 0 <= j < |s.inners| && s.inners[j].entry.typ == t;
    }
    assert InnerOk(s, s.inners[j], NOBODY) && InnerSound(s, f, s.inners[j]);
  }

  lemma AllReady(s: State, asleep: set<ClusterInfo>, k: Key)
    requires QuiescentBut(s, asleep) && k in s.store
    ensures ReadyCount(s, k) >= Asked(s.store[k])
  {
    assert !Enabled(s, BecomeReady(k));
  }

  /** Once what a wait is for is stored and ready, the wait is over. */
  lemma WaitIsOver(s: State, f: Cluster, asleep: set<ClusterInfo>, m: int, t: Inner)
    requires Going(s, f, asleep, m) && QuiescentBut(s, asleep) && InnerSound(s, f, t)
    requires t.wait < |WaitsOf(t)| && (WaitsOf(t)[t.wait] == MetastorePods ==> m >= 1)
    requires var w := WaitsOf(t)[t.wait]; Awaited(w).Some? ==> Stored(s, f.id, Awaited(w).value)
    ensures WaitEnabled(s, t, WaitsOf(t)[t.wait], Ok)
  {
    var w := WaitsOf(t)[t.wait];
    if Awaited(w).Some? {
      var k := Key(f.id, Awaited(w).value);
      AllReady(s, asleep, k);
      assert ContentOk(s, k, NOBODY);
      if w != MetastorePods {
        EnoughForEveryWait(f, t.entry, w, s.store[k]);
      }
    }
  }

  /** A goroutine past its waits is never stuck. */
  lemma StepIsPossible(s: State, t: Inner)
    requires !Done(t) && t.wait >= |WaitsOf(t)| && t.k < |RolesOf(t)|
    ensures exists choice :: RunEnabled(s, t, choice) && choice != Fail && choice != LostReply && choice != Timeout
  {
    assert RunEnabled(s, t, Ok) || RunEnabled(s, t, Random(NO_CREDS)) || RunEnabled(s, t, Nodes(1));
  }

  lemma NobodyCanRun(s: State, asleep: set<ClusterInfo>, j: nat, choice: Choice)
    requires QuiescentBut(s, asleep) && j < |s.inners| && choice != Fail && choice != LostReply && choice != Timeout
    ensures !RunEnabled(s, s.inners[j], choice)
  {
    assert !Enabled(s, Run(j, choice));
  }

  lemma DoneMeansCreated(s: State, f: Cluster, t: Inner)
    requires InnerOk(s, t, NOBODY) && InnerSound(s, f, t) && Provided(f) && Done(t) && !t.doomed
    ensures Stored(s, f.id, MainRole(t.entry.typ))
  {
    assert EntryProvided(f, t.entry);
    if !t.failed {
      assert MainRole(t.entry.typ) == RolesOf(t)[t.k - 1];
    }
  }

  /** Induction along the waits-for order: with all lower ranks created, a goroutine of this rank
      has nothing to wait for, so at the end it is done, and then its object is there. */
  lemma {:induction false} CreatedByRank(s: State, f: Cluster, asleep: set<ClusterInfo>, m: int, v: ClusterInfo)
    requires Going(s, f, asleep, m) && GoodCluster(f) && QuiescentBut(s, asleep) && Spawned(s, f)
    requires v in f.clusterSet && v !in asleep && Launches(v.typ)
    requires forall u :: u in asleep ==> Rank(u.typ) >= Rank(v.typ)
    requires v.typ == Kyuubi ==> m >= 1
    ensures Stored(s, f.id, MainRole(v.typ))
    decreases Rank(v.typ)
  {
    hide Sound, Steady, Counts, InnerOk, Waits, Roles, RunEnabled, Rank, QuiescentBut, Asleep, Spawned, Done, GoodCluster, WaitEnabled;
    var j := RunnerOfType(s, f, asleep, v);
    var u := s.inners[j];
    hide Going;
    EntryOfSound(s, f, u);
    if Done(u) {
      DoneCreated(s, f, u);
    } else if u.wait < |WaitsOf(u)| {
      var w := WaitsOf(u)[u.wait];
      if Awaited(w).Some? {
        var below := AwaitedEntry(f, u.entry, w);
        CreatedByRank(s, f, asleep, m, below);
      }
      if w == MetastorePods {
        OnlyKyuubiAwaitsTheMetastore(u);
      }
      WaitIsOver(s, f, asleep, m, u);
      WaitCanEnd(s, asleep, j);
    } else {
      StepCanBeTaken(s, asleep, j);
    }
  }

  lemma EntryOfSound(s: State, f: Cluster, t: Inner)
    requires InnerSound(s, f, t)
    ensures t.cluster == f && t.entry in f.clusterSet
  {
  }

  lemma DoneCreated(s: State, f: Cluster, t: Inner)
    requires InnerOk(s, t, NOBODY) && InnerSound(s, f, t) && GoodCluster(f) && Done(t) && !t.doomed
    ensures Stored(s, f.id, MainRole(t.entry.typ))
  {
    hide InnerOk, InnerSound, Done, Provided, Completed;
    DoneMeansCreated(s, f, t);
  }

  lemma AwaitedEntry(f: Cluster, v: ClusterInfo, w: Wait) returns (u: ClusterInfo)
    requires GoodCluster(f) && v in f.clusterSet && w in Waits(f, v) && Awaited(w).Some?
    ensures u in f.clusterSet && Launches(u.typ) && MainRole(u.typ) == Awaited(w).value
    ensures Rank(u.typ) < Rank(v.typ) && u.typ != Kyuubi
  {
    hide Waits, Completed, EntryProvided;
    assert Rank(v.typ) <= 3;
    var t := WaitsFall(f, v, w);
    var i :| 0 <= i < |f.clusterSet| && f.clusterSet[i].typ == t;
    u := f.clusterSet[i];
  }

  lemma OnlyKyuubiAwaitsTheMetastore(t: Inner)
    requires t.wait < |WaitsOf(t)| && WaitsOf(t)[t.wait] == MetastorePods
    ensures t.entry.typ == Kyuubi
  {
    WaitsOfWhom(t.cluster, t.entry, MetastorePods);
  }

  lemma WaitCanEnd(s: State, asleep: set<ClusterInfo>, j: nat)
    requires j < |s.inners| && !Done(s.inners[j]) && s.inners[j].wait < |WaitsOf(s.inners[j])|
    requires WaitEnabled(s, s.inners[j], WaitsOf(s.inners[j])[s.inners[j].wait], Ok)
    ensures !QuiescentBut(s, asleep)
  {
    assert RunEnabled(s, s.inners[j], Ok);
    hide Waits, WaitEnabled;
    if QuiescentBut(s, asleep) {
      NobodyCanRun(s, asleep, j, Ok);
    }
  }

  lemma StepCanBeTaken(s: State, asleep: set<ClusterInfo>, j: nat)
    requires j < |s.inners| && !Done(s.inners[j]) && s.inners[j].wait >= |WaitsOf(s.inners[j])|
    requires InnerOk(s, s.inners[j], NOBODY)
    ensures !QuiescentBut(s, asleep)
  {
    StepIsPossible(s, s.inners[j]);
    hide Waits, Roles;
    if QuiescentBut(s, asleep) {
      var choice :| RunEnabled(s, s.inners[j], choice) && choice != Fail && choice != LostReply && choice != Timeout;
      NobodyCanRun(s, asleep, j, choice);
    }
  }

  // ---------------------------------------------------------------- passes over the cluster

  lemma PassSpawns(s: State, f: Cluster, c: Cluster)
    requires PassCluster(c) == Some(f)
    ensures Spawned(ApplyPass(s, c), f)
  {
    var s' := ApplyPass(s, c);
    forall v | v in f.clusterSet ensures HasOuter(s', v) {
      var i :| 0 <= i < |f.clusterSet| && f.clusterSet[i] == v;
      SpawnedByPass(s, f, |f.clusterSet|, i);
      assert s'.outers[|s.outers| + i].entry == v;
    }
  }

  lemma StepKeepsSpawned(s: State, f: Cluster, e: Event)
    requires Spawned(s, f) && Enabled(s, e)
    ensures Spawned(Apply(s, e), f)
  {
    var s' := Apply(s, e);
    if e.Pass? && PassCluster(e.c).Some? {
      SpawnedByPass(s, PassCluster(e.c).value, |PassCluster(e.c).value.clusterSet|, 0);
    }
    forall v | v in f.clusterSet ensures HasOuter(s', v) {
      assert HasOuter(s, v);
      var i :| 0 <= i < |s.outers| && s.outers[i].entry == v;
      assert s'.outers[i].entry == v;
    }
  }

  lemma {:induction false} RunSpawns(s: State, f: Cluster, events: seq<Event>)
    requires IsRun(s, events) && AllSmooth(f, events)
    requires Spawned(s, f) || !NoPass(events)
    ensures Spawned(EndOf(s, events), f)
    decreases |events|
  {
    if events != [] {
      if events[0].Pass? {
        PassSpawns(s, f, events[0].c);
      } else if Spawned(s, f) {
        StepKeepsSpawned(s, f, events[0]);
      }
      RunSpawns(Apply(s, events[0]), f, events[1..]);
    }
  }

  // ---------------------------------------------------------------- the theorems

  /** Every component a goroutine is launched for has its object. */
  predicate AllCreated(s: State, f: Cluster) {
    forall v :: v in f.clusterSet && Launches(v.typ) ==> Stored(s, f.id, MainRole(v.typ))
  }

  /** That is: an object under its own role for each listed component but those that live inside others. */
  lemma AllCreatedMeans(s: State, f: Cluster)
    ensures AllCreated(s, f) <==>
      && (Lists(f.clusterSet, Kyuubi) ==> Key(f.id, KyuubiRole) in s.store)
      && (Lists(f.clusterSet, MetaStore) ==> Key(f.id, MetastoreRole) in s.store)
      && (Lists(f.clusterSet, Database) ==> Key(f.id, PgRole) in s.store)
      && (Lists(f.clusterSet, Minio) ==> Key(f.id, TenantRole) in s.store)
      && (Lists(f.clusterSet, Zookeeper) ==> Key(f.id, ZkRole) in s.store)
      && (Lists(f.clusterSet, Hdfs) ==> Key(f.id, HdfsRole) in s.store)
      && (Lists(f.clusterSet, Doris) ==> Key(f.id, DorisRole) in s.store)
  {
    forall t | Launches(t) ensures Lists(f.clusterSet, t) <==> exists v :: v in f.clusterSet && v.typ == t {
      if Lists(f.clusterSet, t) {
        var i :| 0 <= i < |f.clusterSet| && f.clusterSet[i].typ == t;
        assert f.clusterSet[i] in f.clusterSet;
      }
    }
    hide Lists;
  }

  ghost predicate AllMutexesFree(s: State) {
    forall m :: 0 <= m < |s.mutexes| ==> s.mutexes[m].None?
  }

  lemma QuietMutexes(s: State)
    requires Inv(s, NOBODY) && Quiescent(s)
    ensures AllMutexesFree(s)
  {
    forall m | 0 <= m < |s.mutexes| ensures s.mutexes[m].None? {
      if s.mutexes[m].Some? {
        assert OwnerOk(s, m);
        OutersFinished(s, {}, s.mutexes[m].value);
      }
    }
  }

  lemma CoveredPlan(f: Cluster)
    requires ReplicasAgree(f)
    ensures Plan(f, {}, MetastoreWanted(f)) && MetastoreWanted(f) >= 1
  {
  }

  lemma QuietEnd(s: State, f: Cluster)
    requires Going(s, f, {}, MetastoreWanted(f)) && GoodCluster(f) && ReplicasAgree(f)
    requires Quiescent(s) && Spawned(s, f)
    ensures AllCreated(s, f) && AllMutexesFree(s)
  {
    assert Inv(s, NOBODY);
    CoveredPlan(f);
    hide Going, Inv, Sound, Spawned, QuiescentBut;
    forall v | v in f.clusterSet && Launches(v.typ) ensures Stored(s, f.id, MainRole(v.typ)) {
      CreatedByRank(s, f, {}, MetastoreWanted(f), v);
    }
    QuietMutexes(s);
  }

  lemma RunsAreGoing(f: Cluster, events: seq<Event>)
    requires GoodCluster(f) && ReplicasAgree(f) && IsRun(INIT, events) && AllSmooth(f, events)
    ensures Going(EndOf(INIT, events), f, {}, MetastoreWanted(f))
    ensures !NoPass(events) ==> Spawned(EndOf(INIT, events), f)
  {
    hide Going, Spawned, Provided, Plan;
    CoveredPlan(f);
    InitIsGoing(f, {}, MetastoreWanted(f));
    NobodyToWake(INIT, events);
    RunKeepsGoing(INIT, f, {}, MetastoreWanted(f), events);
    if !NoPass(events) {
      RunSpawns(INIT, f, events);
    }
  }

  /** In every smooth run over a covered cluster a stored metastore asks for what each of its metastore
      entries says, zero standing for one. */
  lemma StoredMetastoreAsks(f: Cluster, events: seq<Event>, v: ClusterInfo)
    requires GoodCluster(f) && ReplicasAgree(f) && IsRun(INIT, events) && AllSmooth(f, events)
    requires v in f.clusterSet && v.typ == MetaStore && Stored(EndOf(INIT, events), f.id, MetastoreRole)
    ensures var o := EndOf(INIT, events).store[Key(f.id, MetastoreRole)];
      o.MetastoreObj? && o.replicas == if v.replicas == 0 then 1 else v.replicas
  {
    RunsAreGoing(f, events);
    hide Completed, ProperTypes, Provided, Sound, Steady, Asleep, AllSmooth, IsRun, EndOf;
  }

  lemma SmoothConcat(f: Cluster, a: seq<Event>, b: seq<Event>)
    requires IsRun(INIT, a) && IsRun(EndOf(INIT, a), b) && AllSmooth(f, a) && AllSmooth(f, b)
    ensures IsRun(INIT, a + b) && AllSmooth(f, a + b) && EndOf(INIT, a + b) == EndOf(EndOf(INIT, a), b)
    ensures !NoPass(a) ==> !NoPass(a + b)
  {
    RunConcat(INIT, a, b);
    if i :| 0 <= i < |a| && a[i].Pass? {
      assert (a + b)[i].Pass?;
    }
  }

  /** Progress. After any smooth run with at least one pass over a covered cluster, time limits reached
      or not, what can still happen before the next pass is bounded, and where nothing is left to do
      every component is created and every mutex is free: no goroutine hangs, and no skipped or doomed
      one is missed. */
  lemma SmoothRunsCreateEverything(f: Cluster, before: seq<Event>, after: seq<Event>)
    requires GoodCluster(f) && ReplicasAgree(f)
    requires IsRun(INIT, before) && AllSmooth(f, before) && !NoPass(before)
    requires IsRun(EndOf(INIT, before), after) && AllSmooth(f, after) && NoPass(after)
    ensures |after| <= WorkLeft(EndOf(INIT, before), f)
    ensures var s := EndOf(EndOf(INIT, before), after); Quiescent(s) ==> AllCreated(s, f) && AllMutexesFree(s)
  {
    hide Going, Spawned, Steady, WorkLeft, AllSmooth, NoPass, Quiescent, Provided;
    var mid := EndOf(INIT, before);
    InitIsSteady(f);
    RunsStaySteady(INIT, f, before);
    RunsAreShort(mid, f, after);
    SmoothConcat(f, before, after);
    RunsAreGoing(f, before + after);
    if Quiescent(EndOf(mid, after)) {
      QuietEnd(EndOf(mid, after), f);
    }
  }

  /** From every state such a run reaches, the system can still get everything created. */
  lemma EverythingCanStillBeCreated(f: Cluster, before: seq<Event>) returns (after: seq<Event>)
    requires GoodCluster(f) && ReplicasAgree(f)
    requires IsRun(INIT, before) && AllSmooth(f, before) && !NoPass(before)
    ensures IsRun(EndOf(INIT, before), after) && AllSmooth(f, after) && NoPass(after)
    ensures AllCreated(EndOf(EndOf(INIT, before), after), f)
  {
    hide Steady, AllSmooth, NoPass, Provided, QuiescentBut;
    InitIsSteady(f);
    RunsStaySteady(INIT, f, before);
    after := CanFinish(EndOf(INIT, before), f, {}, NO_CREDS);
    SmoothRunsCreateEverything(f, before, after);
  }

  /** A batch cluster with any features and no database or hdfs entries of the user's own gets everything
      created, given that their metastore and doris entries make sense by themselves. */
  lemma DefaultsGetEverything(c: Cluster, before: seq<Event>, after: seq<Event>)
    requires c.kind == BATCH && ProperTypes(c)
    requires forall v :: v in c.clusterSet ==> v.typ != Database && !InHdfsFamily(v.typ)
    requires ReplicasAgree(c) && forall v :: v in c.clusterSet && v.typ == Doris ==> FindsFEAndBE(Filled(c), v)
    requires IsRun(INIT, before) && AllSmooth(Filled(c), before) && !NoPass(before)
    requires IsRun(EndOf(INIT, before), after) && AllSmooth(Filled(c), after) && NoPass(after)
    ensures |after| <= WorkLeft(EndOf(INIT, before), Filled(c))
    ensures var s := EndOf(EndOf(INIT, before), after); Quiescent(s) ==> AllCreated(s, Filled(c)) && AllMutexesFree(s)
  {
    DefaultsAreGood(c);
    hide *;
    SmoothRunsCreateEverything(Filled(c), before, after);
  }

  lemma DefaultsAreGood(c: Cluster)
    requires c.kind == BATCH && ProperTypes(c)
    requires forall v :: v in c.clusterSet ==> v.typ != Database && !InHdfsFamily(v.typ)
    requires ReplicasAgree(c) && forall v :: v in c.clusterSet && v.typ == Doris ==> FindsFEAndBE(Filled(c), v)
    ensures GoodCluster(Filled(c)) && ReplicasAgree(Filled(c)) && PassCluster(c) == Some(Filled(c))
  {
    assert PassCluster(c) == Some(Filled(c));
    hide Filled, PassCluster, ReplicasAgree, Provided, Completed, InHdfsFamily, FindsFEAndBE, ProperTypes;
    DefaultsAreCovered(c);
    PassClusterCompleted(c);
    FilledIsProper(c);
  }

  lemma FilledIsProper(c: Cluster)
    requires ProperTypes(c)
    ensures ProperTypes(Filled(c))
  {
    var f := Filled(c).clusterSet;
    forall i | 0 <= i < |f| ensures Proper(f[i].typ) {
      if i < |c.clusterSet| {
        assert f[i] == c.clusterSet[i];
      } else if !Lists(c.clusterSet, f[i].typ) {
        FillUsesTheTable(c, i);
      } else {
        UserTypesAreUserEntries(c, i);
        var k :| 0 <= k < |c.clusterSet| && c.clusterSet[k] == f[i];
      }
    }
  }
}
