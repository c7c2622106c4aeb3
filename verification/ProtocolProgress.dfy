/** Progress of the reconcile protocol: when calls succeed and created components become ready, any
    number of overlapping passes over one covered batch cluster come to an end after boundedly many
    steps, and then every component is created and every mutex free. */
module ProtocolProgress {
  import opened Text
  import opened Clusters
  import opened Protocol
  import opened ProtocolSafety
  import opened Coverage
  import opened ProtocolTermination

  // ---------------------------------------------------------------- the invariant of such runs

  ghost predicate HasRunner(s: State, t: ClusterType) {
    exists j :: 0 <= j < |s.inners| && s.inners[j].entry.typ == t
  }

  ghost predicate HasHolder(s: State, t: ClusterType) {
    exists i :: 0 <= i < |s.outers| && s.outers[i].pc == Holding && s.outers[i].entry.typ == t
  }

  /** An outer goroutine that lost the mutex leaves its component to the holder it lost it to. */
  ghost predicate OuterServed(s: State, o: Outer) {
    Launches(o.entry.typ) ==>
      && (o.pc == Launched || o.pc == Finished(true) ==> HasRunner(s, o.entry.typ))
      && (o.pc == Finished(false) ==> HasRunner(s, o.entry.typ) || HasHolder(s, o.entry.typ))
  }

  ghost predicate OutersOk(s: State, f: Cluster) {
    forall i :: 0 <= i < |s.outers| ==> OuterOf(f, s.outers[i]) && OuterServed(s, s.outers[i])
  }

  /** What an inner goroutine of such a run satisfies beyond InnerOk. */
  predicate InnerSound(s: State, f: Cluster, t: Inner) {
    && t.cluster == f && t.entry in f.clusterSet && Launches(t.entry.typ)
    && (t.failed ==> t.doomed || Stored(s, f.id, MainRole(t.entry.typ)))
    && (t.stage != Build && t.k < |RolesOf(t)| && !t.doomed ==>
          t.desired.Some? && AsksEnough(f, RolesOf(t)[t.k], t.desired.value))
  }

  ghost predicate InnersSound(s: State, f: Cluster) {
    forall j :: 0 <= j < |s.inners| ==> InnerSound(s, f, s.inners[j])
  }

  predicate StoreSound(s: State, f: Cluster) {
    forall k :: k in s.store ==> k.id == f.id && AsksEnough(f, k.role, s.store[k])
  }

  /** A minio goroutine still able to create the tenant that has dealt with its first n objects. */
  ghost predicate AliveMinio(s: State, n: nat) {
    exists j :: 0 <= j < |s.inners| && Alive(s.inners[j], n)
  }

  predicate Alive(t: Inner, n: nat) {
    t.entry.typ == Minio && !t.doomed && t.k >= n
  }

  /** Losing the race for a secret dooms a minio goroutine, but never the last one. */
  ghost predicate MinioSurvives(s: State, f: Cluster) {
    && (HasRunner(s, Minio) ==> AliveMinio(s, 0))
    && (Stored(s, f.id, MinioConfigRole) ==> AliveMinio(s, 1))
    && (Stored(s, f.id, MinioUserRole) ==> AliveMinio(s, 2))
  }

  ghost predicate Sound(s: State, f: Cluster) {
    && Inv(s, NOBODY)
    && OutersOk(s, f)
    && InnersSound(s, f)
    && StoreSound(s, f)
    && MinioSurvives(s, f)
  }

  predicate GoodCluster(f: Cluster) {
    Completed(f) && ProperTypes(f) && Provided(f)
  }

  lemma EntryIsProper(f: Cluster, v: ClusterInfo)
    requires ProperTypes(f) && v in f.clusterSet
    ensures Proper(v.typ)
  {
    var i :| 0 <= i < |f.clusterSet| && f.clusterSet[i] == v;
  }

  // ---------------------------------------------------------------- outer goroutines

  lemma ServedStays(s: State, s': State, o: Outer)
    requires OuterServed(s, o)
    requires forall t :: HasRunner(s, t) ==> HasRunner(s', t)
    requires forall t :: HasHolder(s, t) ==> HasHolder(s', t) || HasRunner(s', t)
    ensures OuterServed(s', o)
  {
  }

  /** More goroutines, and outer ones only stop holding when they have launched theirs. */
  lemma RunnersStay(s: State, s': State)
    requires |s.inners| <= |s'.inners| && forall j :: 0 <= j < |s.inners| ==> s'.inners[j].entry == s.inners[j].entry
    ensures forall t :: HasRunner(s, t) ==> HasRunner(s', t)
  {
    forall t | HasRunner(s, t) ensures HasRunner(s', t) {
      var j :| 0 <= j < |s.inners| && s.inners[j].entry.typ == t;
      assert s'.inners[j].entry.typ == t;
    }
  }

  lemma HoldersStay(s: State, s': State)
    requires |s.outers| <= |s'.outers| && forall i :: 0 <= i < |s.outers| ==>
      s'.outers[i].entry == s.outers[i].entry && (s.outers[i].pc == Holding ==> s'.outers[i].pc == Holding)
    ensures forall t :: HasHolder(s, t) ==> HasHolder(s', t)
  {
    forall t | HasHolder(s, t) ensures HasHolder(s', t) {
      var i :| 0 <= i < |s.outers| && s.outers[i].pc == Holding && s.outers[i].entry.typ == t;
      assert s'.outers[i].pc == Holding && s'.outers[i].entry.typ == t;
    }
  }

  lemma {:induction false} PassKeepsOuters(s: State, f: Cluster, n: nat)
    requires OutersOk(s, f) && n <= |f.clusterSet|
    ensures OutersOk(SpawnUpTo(s, f, n), f)
  {
    if n > 0 {
      PassKeepsOuters(s, f, n - 1);
      var s1 := SpawnUpTo(s, f, n - 1);
      var s2 := Spawn(s1, f, f.clusterSet[n - 1]);
      RunnersStay(s1, s2);
      HoldersStay(s1, s2);
      forall i | 0 <= i < |s2.outers| ensures OuterOf(f, s2.outers[i]) && OuterServed(s2, s2.outers[i]) {
        if i < |s1.outers| {
          ServedStays(s1, s2, s1.outers[i]);
        }
      }
    }
  }

  lemma LockNameFixesType(f: Cluster, t: ClusterType, u: ClusterType)
    requires Proper(t) && Proper(u) && LockName(f.id, t) == LockName(f.id, u)
    ensures t == u
  {
    var p := "nineinfra-" + f.id.ns + "-" + f.id.name + "-";
    assert LockName(f.id, t)[|p|..] == TypeName(t);
    assert LockName(f.id, u)[|p|..] == TypeName(u);
    TypeNameInjective(t, u);
  }

  /** Two names in the table of an invariant state share a mutex only if they are the same. */
  lemma SameMutexSameType(s: State, f: Cluster, i: nat, j: nat)
    requires LocksOk(s) && OutersOk(s, f) && ProperTypes(f)
    requires i < |s.outers| && j < |s.outers| && s.outers[i].mutex == s.outers[j].mutex
    ensures s.outers[i].entry.typ == s.outers[j].entry.typ
  {
    assert OuterOk(s, i) && OuterOk(s, j);
    EntryIsProper(f, s.outers[i].entry);
    EntryIsProper(f, s.outers[j].entry);
    LockNameFixesType(f, s.outers[i].entry.typ, s.outers[j].entry.typ);
  }

  lemma TryLockKeepsOuters(s: State, f: Cluster, i: nat)
    requires LocksOk(s) && OutersOk(s, f) && ProperTypes(f) && Enabled(s, TryLock(i))
    ensures OutersOk(ApplyTryLock(s, i), f)
  {
    var s' := ApplyTryLock(s, i);
    var o := s.outers[i];
    RunnersStay(s, s');
    HoldersStay(s, s');
    assert OuterOk(s, i);
    if !MutexFree(s, o.mutex) {
      assert OwnerOk(s, o.mutex);
      var h := s.mutexes[o.mutex].value;
      SameMutexSameType(s, f, i, h);
      assert OuterServed(s, s.outers[h]);
      if s.outers[h].pc == Holding {
        assert s'.outers[h].pc == Holding && s'.outers[h].entry.typ == o.entry.typ;
        assert HasHolder(s', o.entry.typ);
      }
    }
    forall j | 0 <= j < |s'.outers| ensures OuterOf(f, s'.outers[j]) && OuterServed(s', s'.outers[j]) {
      if j != i {
        ServedStays(s, s', s.outers[j]);
      }
    }
  }

  lemma LaunchKeepsOuters(s: State, f: Cluster, i: nat)
    requires OutersOk(s, f) && Enabled(s, Launch(i))
    ensures OutersOk(ApplyLaunch(s, i), f)
  {
    var s' := ApplyLaunch(s, i);
    var o := s.outers[i];
    RunnersStay(s, s');
    if Launches(o.entry.typ) {
      assert s'.inners[|s.inners|].entry.typ == o.entry.typ;
    }
    forall t | HasHolder(s, t) && Launches(t) ensures HasHolder(s', t) || HasRunner(s', t) {
      var h :| 0 <= h < |s.outers| && s.outers[h].pc == Holding && s.outers[h].entry.typ == t;
      if h != i {
        assert s'.outers[h].pc == Holding && s'.outers[h].entry.typ == t;
      }
    }
    forall j | 0 <= j < |s'.outers| ensures OuterOf(f, s'.outers[j]) && OuterServed(s', s'.outers[j]) {
      assert OuterServed(s, s.outers[j]);
    }
  }

  lemma UnlockKeepsOuters(s: State, f: Cluster, i: nat)
    requires OutersOk(s, f) && Enabled(s, Unlock(i))
    ensures OutersOk(ApplyUnlock(s, i), f)
  {
    var s' := ApplyUnlock(s, i);
    RunnersStay(s, s');
    HoldersStay(s, s');
    forall j | 0 <= j < |s'.outers| ensures OuterOf(f, s'.outers[j]) && OuterServed(s', s'.outers[j]) {
      ServedStays(s, s', s.outers[j]);
    }
  }

  // ---------------------------------------------------------------- inner goroutines

  lemma SoundStays(s: State, s': State, f: Cluster, t: Inner)
    requires InnerSound(s, f, t) && Extends(s, s')
    ensures InnerSound(s', f, t)
  {
  }

  lemma DesiredAsksEnough(s: State, f: Cluster, t: Inner, choice: Choice)
    requires GoodCluster(f) && InnerSound(s, f, t) && t.k < |RolesOf(t)| && t.wait >= |WaitsOf(t)|
    requires t.stage == Build && StepEnabled(t, choice) && choice != Fail
    ensures var d := Desired(s, t, RolesOf(t)[t.k], choice);
      d.Some? && AsksEnough(f, RolesOf(t)[t.k], d.value)
  {
    assert EntryProvided(f, t.entry);
  }

  lemma RunKeepsInnerSound(s: State, f: Cluster, j: nat, choice: Choice)
    requires Sound(s, f) && GoodCluster(f) && RunsSmoothly(s, j, choice)
    ensures InnerSound(ApplyRun(s, j, choice), f, AfterRun(s, s.inners[j], choice))
  {
    var t := s.inners[j];
    var s' := ApplyRun(s, j, choice);
    assert InnerSound(s, f, t) && InnerOk(s, t, NOBODY);
    RunExtendsStep(s, j, choice);
    SoundStays(s, s', f, t);
    if t.wait >= |WaitsOf(t)| {
      StepKeepsSound(s, s', f, t, choice);
    }
  }

  lemma StepKeepsSound(s: State, s': State, f: Cluster, t: Inner, choice: Choice)
    requires GoodCluster(f) && InnerSound(s, f, t) && InnerSound(s', f, t) && InnerOk(s, t, NOBODY) && Extends(s, s')
    requires t.wait >= |WaitsOf(t)| && RunEnabled(s, t, choice) && choice != Fail && choice != LostReply
    ensures InnerSound(s', f, AfterStep(s, t, choice))
  {
    var role := RolesOf(t)[t.k];
    match t.stage {
      case Build => DesiredAsksEnough(s, f, t, choice);
      case Get =>
      case Create =>
        if t.missing && t.desired.Some? && Key(f.id, role) in s.store && !IsMinioSecret(role)
          && role != PgInitRole && role != PgSuperRole {
          assert role == MainRole(t.entry.typ);
        }
    }
  }

  lemma RunKeepsStoreSound(s: State, f: Cluster, j: nat, choice: Choice)
    requires Sound(s, f) && CanRun(s, j, choice)
    ensures StoreSound(ApplyRun(s, j, choice), f)
  {
    var t := s.inners[j];
    assert InnerSound(s, f, t) && InnerOk(s, t, NOBODY);
  }

  // ---------------------------------------------------------------- the minio goroutines

  lemma AliveWitness(s: State, j: nat, n: nat)
    requires j < |s.inners| && Alive(s.inners[j], n)
    ensures AliveMinio(s, n)
  {
  }

  /** s' differs from s by a step of inner goroutine j, as far as goroutines go. */
  predicate Moved(s: State, s': State, j: nat) {
    && j < |s.inners| && |s'.inners| == |s.inners| && s'.outers == s.outers
    && (forall i :: 0 <= i < |s.inners| && i != j ==> s'.inners[i] == s.inners[i])
    && s'.inners[j].entry == s.inners[j].entry && s'.inners[j].k >= s.inners[j].k
    && (s.inners[j].doomed ==> s'.inners[j].doomed)
  }

  lemma AfterRunKeepsPlace(s: State, t: Inner, choice: Choice)
    requires RunEnabled(s, t, choice) && InnerOk(s, t, NOBODY)
    ensures var u := AfterRun(s, t, choice);
      u.cluster == t.cluster && u.entry == t.entry && u.k >= t.k && (t.doomed ==> u.doomed)
  {
    SamePlace(s, t, choice);
    assert t.k < |RolesOf(t)| && (IsMinioSecret(RolesOf(t)[t.k]) || RolesOf(t)[t.k] == TenantRole) ==> t.k <= TENANT_STEP;
    hide Waits, Roles, Desired, CredsIn, WaitEnabled;
  }

  lemma RunMoves(s: State, j: nat, choice: Choice)
    requires CanRun(s, j, choice) && InnerOk(s, s.inners[j], NOBODY)
    ensures Moved(s, ApplyRun(s, j, choice), j)
    ensures ApplyRun(s, j, choice).inners[j] == AfterRun(s, s.inners[j], choice)
  {
    AfterRunKeepsPlace(s, s.inners[j], choice);
  }

  /** A goroutine that is doomed by this step lost a secret to another one. */
  lemma DoomedByRival(s: State, f: Cluster, j: nat, choice: Choice)
    requires RunsSmoothly(s, j, choice) && InnerSound(s, f, s.inners[j]) && InnerOk(s, s.inners[j], NOBODY)
    requires !s.inners[j].doomed && AfterRun(s, s.inners[j], choice).doomed
    ensures s.inners[j].entry.typ == Minio && s.inners[j].k <= 1
    ensures Stored(s, f.id, if s.inners[j].k == 0 then MinioConfigRole else MinioUserRole)
    ensures Accepts(s, s.inners[j], choice).None?
  {
    var t := s.inners[j];
    assert IsMinioSecret(RolesOf(t)[t.k]);
  }

  /** A secret that this step creates leaves its creator alive and past it. */
  lemma CreatorIsAlive(s: State, f: Cluster, j: nat, choice: Choice, role: Role)
    requires RunsSmoothly(s, j, choice) && InnerOk(s, s.inners[j], NOBODY) && s.inners[j].cluster == f
    requires IsMinioSecret(role) && !Stored(s, f.id, role) && Stored(ApplyRun(s, j, choice), f.id, role)
    ensures Alive(AfterRun(s, s.inners[j], choice), if role == MinioConfigRole then 1 else 2)
  {
    var t := s.inners[j];
    assert role == RolesOf(t)[t.k];
  }

  lemma AliveStays(s: State, s': State, j: nat, n: nat)
    requires Moved(s, s', j) && AliveMinio(s, n)
    requires s'.inners[j].doomed && !s.inners[j].doomed ==> s.inners[j].k < n
    ensures AliveMinio(s', n)
  {
    var i :| 0 <= i < |s.inners| && Alive(s.inners[i], n);
    assert Alive(s'.inners[i], n);
  }

  lemma MoreAlive(s: State, n: nat, m: nat)
    requires AliveMinio(s, n) && m <= n
    ensures AliveMinio(s, m)
  {
    var i :| 0 <= i < |s.inners| && Alive(s.inners[i], n);
    AliveWitness(s, i, m);
  }

  lemma DoomLeavesARival(s: State, s': State, f: Cluster, j: nat)
    requires MinioSurvives(s, f) && Moved(s, s', j) && s'.store == s.store && s.inners[j].k <= 1
    requires Stored(s, f.id, if s.inners[j].k == 0 then MinioConfigRole else MinioUserRole)
    ensures MinioSurvives(s', f)
  {
    var n := s.inners[j].k + 1;
    AliveStays(s, s', j, n);
    MoreAlive(s', n, 0);
    MoreAlive(s', n, 1);
    if Stored(s, f.id, MinioUserRole) { AliveStays(s, s', j, 2); }
  }

  lemma MovesOnAlive(s: State, s': State, f: Cluster, j: nat)
    requires MinioSurvives(s, f) && Moved(s, s', j)
    requires s'.inners[j].doomed ==> s.inners[j].doomed
    requires Stored(s', f.id, MinioConfigRole) ==> Stored(s, f.id, MinioConfigRole) || Alive(s'.inners[j], 1)
    requires Stored(s', f.id, MinioUserRole) ==> Stored(s, f.id, MinioUserRole) || Alive(s'.inners[j], 2)
    ensures MinioSurvives(s', f)
  {
    if HasRunner(s', Minio) {
      RunnersStay(s', s);
      AliveStays(s, s', j, 0);
    }
    if Stored(s, f.id, MinioConfigRole) { AliveStays(s, s', j, 1); }
    if Stored(s, f.id, MinioUserRole) { AliveStays(s, s', j, 2); }
  }

  lemma RunKeepsMinio(s: State, f: Cluster, j: nat, choice: Choice)
    requires MinioSurvives(s, f) && RunsSmoothly(s, j, choice)
    requires InnerSound(s, f, s.inners[j]) && InnerOk(s, s.inners[j], NOBODY)
    ensures MinioSurvives(ApplyRun(s, j, choice), f)
  {
    var s' := ApplyRun(s, j, choice);
    RunMoves(s, j, choice);
    if AfterRun(s, s.inners[j], choice).doomed && !s.inners[j].doomed {
      DoomedByRival(s, f, j, choice);
      DoomLeavesARival(s, s', f, j);
    } else {
      if Stored(s', f.id, MinioConfigRole) && !Stored(s, f.id, MinioConfigRole) {
        CreatorIsAlive(s, f, j, choice, MinioConfigRole);
      }
      if Stored(s', f.id, MinioUserRole) && !Stored(s, f.id, MinioUserRole) {
        CreatorIsAlive(s, f, j, choice, MinioUserRole);
      }
      MovesOnAlive(s, s', f, j);
    }
  }

  // ---------------------------------------------------------------- every smooth event keeps it

  lemma RunKeepsInnersSound(s: State, f: Cluster, j: nat, choice: Choice)
    requires Sound(s, f) && GoodCluster(f) && RunsSmoothly(s, j, choice)
    ensures InnersSound(ApplyRun(s, j, choice), f)
  {
    var s' := ApplyRun(s, j, choice);
    RunExtendsStep(s, j, choice);
    assert InnerSound(s, f, s.inners[j]);
    RunKeepsInnerSound(s, f, j, choice);
    hide InnerSound, AfterRun, Accepts, Extends, Waits, Inv, OutersOk, MinioSurvives, StoreSound;
    forall i | 0 <= i < |s'.inners| ensures InnerSound(s', f, s'.inners[i]) {
      if i != j {
        SoundStays(s, s', f, s.inners[i]);
      }
    }
  }

  lemma SameOutersStayOk(s: State, s': State, f: Cluster)
    requires OutersOk(s, f) && s'.outers == s.outers
    requires |s.inners| == |s'.inners| && forall j :: 0 <= j < |s.inners| ==> s'.inners[j].entry == s.inners[j].entry
    ensures OutersOk(s', f)
  {
    RunnersStay(s, s');
    HoldersStay(s, s');
    forall i | 0 <= i < |s'.outers| ensures OuterOf(f, s'.outers[i]) && OuterServed(s', s'.outers[i]) {
      ServedStays(s, s', s.outers[i]);
    }
  }

  lemma RunKeepsOuters(s: State, f: Cluster, j: nat, choice: Choice)
    requires OutersOk(s, f) && CanRun(s, j, choice) && InnerOk(s, s.inners[j], NOBODY)
    ensures OutersOk(ApplyRun(s, j, choice), f)
  {
    RunMoves(s, j, choice);
    SameOutersStayOk(s, ApplyRun(s, j, choice), f);
  }

  lemma RunKeepsSound(s: State, f: Cluster, j: nat, choice: Choice)
    requires Sound(s, f) && GoodCluster(f) && RunsSmoothly(s, j, choice)
    ensures Sound(ApplyRun(s, j, choice), f)
  {
    RunKeepsInv(s, j, choice, NOBODY);
    RunKeepsInnersSound(s, f, j, choice);
    RunKeepsStoreSound(s, f, j, choice);
    RunKeepsMinio(s, f, j, choice);
    RunKeepsOuters(s, f, j, choice);
  }

  /** Events that touch neither the store nor a running goroutine. */
  lemma OutsideKeepsSound(s: State, s': State, f: Cluster)
    requires Sound(s, f) && Inv(s', NOBODY) && OutersOk(s', f) && Extends(s, s') && s'.store == s.store
    requires s.inners <= s'.inners
    requires forall j :: |s.inners| <= j < |s'.inners| ==> InnerSound(s', f, s'.inners[j]) && !s'.inners[j].doomed
    ensures Sound(s', f)
  {
    forall i | 0 <= i < |s'.inners| ensures InnerSound(s', f, s'.inners[i]) {
      if i < |s.inners| {
        SoundStays(s, s', f, s.inners[i]);
      }
    }
    forall n | AliveMinio(s, n) ensures AliveMinio(s', n) {
      var i :| 0 <= i < |s.inners| && Alive(s.inners[i], n);
      AliveWitness(s', i, n);
    }
    if HasRunner(s', Minio) {
      var i :| 0 <= i < |s'.inners| && s'.inners[i].entry.typ == Minio;
      if i < |s.inners| {
        assert HasRunner(s, Minio);
      } else {
        AliveWitness(s', i, 0);
      }
    }
  }

  lemma PassKeepsSound(s: State, f: Cluster, c: Cluster)
    requires Sound(s, f) && PassCluster(c) == Some(f)
    ensures Sound(ApplyPass(s, c), f)
  {
    PassKeepsInv(s, c, NOBODY);
    SpawnExtends(s, f, |f.clusterSet|);
    PassKeepsOuters(s, f, |f.clusterSet|);
    OutsideKeepsSound(s, ApplyPass(s, c), f);
  }

  lemma LaunchKeepsSound(s: State, f: Cluster, i: nat)
    requires Sound(s, f) && Enabled(s, Launch(i))
    ensures Sound(ApplyLaunch(s, i), f)
  {
    LaunchKeepsInv(s, i, NOBODY);
    LaunchKeepsOuters(s, f, i);
    assert OuterOf(f, s.outers[i]);
    OutsideKeepsSound(s, ApplyLaunch(s, i), f);
  }

  lemma LockStepKeepsSound(s: State, s': State, f: Cluster)
    requires Sound(s, f) && LocksOk(s') && OutersOk(s', f)
    requires s' == s.(mutexes := s'.mutexes, outers := s'.outers, ready := s'.ready)
    ensures Sound(s', f)
  {
    LockStepKeepsInv(s, s', NOBODY);
    OutsideKeepsSound(s, s', f);
  }

  lemma StepKeepsSoundness(s: State, f: Cluster, e: Event)
    requires Sound(s, f) && GoodCluster(f) && Enabled(s, e) && Smooth(f, e)
    ensures Sound(Apply(s, e), f)
  {
    match e
    case Pass(c) => PassKeepsSound(s, f, c);
    case TryLock(i) =>
      TryLockKeepsLocks(s, i);
      TryLockKeepsOuters(s, f, i);
      LockStepKeepsSound(s, ApplyTryLock(s, i), f);
    case Launch(i) => LaunchKeepsSound(s, f, i);
    case Unlock(i) =>
      UnlockKeepsLocks(s, i);
      UnlockKeepsOuters(s, f, i);
      LockStepKeepsSound(s, ApplyUnlock(s, i), f);
    case Run(j, choice) => RunKeepsSound(s, f, j, choice);
    case BecomeReady(_) =>
      LocksFrame(s, Apply(s, e));
      SameOutersStayOk(s, Apply(s, e), f);
      LockStepKeepsSound(s, Apply(s, e), f);
  }

  lemma {:induction false} RunKeepsSoundness(s: State, f: Cluster, events: seq<Event>)
    requires Sound(s, f) && GoodCluster(f) && IsRun(s, events) && AllSmooth(f, events)
    ensures Sound(EndOf(s, events), f)
    decreases |events|
  {
    if events != [] {
      StepKeepsSoundness(s, f, events[0]);
      RunKeepsSoundness(Apply(s, events[0]), f, events[1..]);
    }
  }
}
