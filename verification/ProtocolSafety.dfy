/** What every run of the reconcile protocol keeps, whatever fails and however the goroutines of
    any number of passes over any clusters interleave. */
module ProtocolSafety {
  import opened Text
  import opened Clusters
  import opened Protocol

  // ---------------------------------------------------------------- nothing created is ever changed

  /** t is a later state as far as locks, objects and the record of creates go. */
  ghost predicate Extends(s: State, t: State) {
    && (forall n :: n in s.locks ==> n in t.locks && t.locks[n] == s.locks[n])
    && (forall k :: k in s.store ==> k in t.store && t.store[k] == s.store[k])
    && s.log <= t.log
  }

  lemma {:induction false} SpawnExtends(s: State, c: Cluster, n: nat)
    requires n <= |c.clusterSet|
    ensures Extends(s, SpawnUpTo(s, c, n))
    ensures SpawnUpTo(s, c, n).(locks := s.locks, mutexes := s.mutexes, outers := s.outers) == s
  {
    if n > 0 {
      SpawnExtends(s, c, n - 1);
    }
  }

  lemma {:induction false} SpawnedByPass(s: State, f: Cluster, n: nat, i: nat)
    requires n <= |f.clusterSet|
    ensures |SpawnUpTo(s, f, n).outers| == |s.outers| + n && s.outers <= SpawnUpTo(s, f, n).outers
    ensures i < n ==> SpawnedAt(SpawnUpTo(s, f, n), |s.outers| + i, f, i)
  {
    if n > 0 {
      SpawnedByPass(s, f, n - 1, i);
    }
  }

  /** Outer goroutine k was spawned for entry i of the cluster. */
  predicate SpawnedAt(s: State, k: nat, f: Cluster, i: nat) {
    k < |s.outers| && i < |f.clusterSet| && s.outers[k].cluster == f && s.outers[k].entry == f.clusterSet[i]
  }

  lemma StepExtends(s: State, e: Event)
    requires Enabled(s, e)
    ensures Extends(s, Apply(s, e))
  {
    match e
    case Pass(c) =>
      if PassCluster(c).Some? {
        var f := PassCluster(c).value;
        SpawnExtends(s, f, |f.clusterSet|);
      }
    case _ =>
  }

  /** Over any run the lock table only grows and never rebinds a name, objects once created keep
      their contents, and the record of creates is only appended to. */
  lemma {:induction false} RunExtends(s: State, events: seq<Event>)
    requires IsRun(s, events)
    ensures Extends(s, EndOf(s, events))
    decreases |events|
  {
    if events != [] {
      StepExtends(s, events[0]);
      RunExtends(Apply(s, events[0]), events[1..]);
    }
  }

  // ---------------------------------------------------------------- the invariant

  ghost predicate LocksOk(s: State) {
    && (forall n :: n in s.locks ==> s.locks[n] < |s.mutexes|)
    && (forall n, m :: n in s.locks && m in s.locks && s.locks[n] == s.locks[m] ==> n == m)
    && (forall i :: 0 <= i < |s.outers| ==> OuterOk(s, i))
    && (forall m :: 0 <= m < |s.mutexes| && s.mutexes[m].Some? ==> OwnerOk(s, m))
  }

  predicate InSection(o: Outer) {
    o.pc == Holding || o.pc == Launched
  }

  ghost predicate OuterOk(s: State, i: nat)
    requires i < |s.outers|
  {
    var o := s.outers[i];
    var n := LockName(o.cluster.id, o.entry.typ);
    && n in s.locks && s.locks[n] == o.mutex && o.mutex < |s.mutexes|
    && (InSection(o) ==> s.mutexes[o.mutex] == Some(i))
  }

  ghost predicate OwnerOk(s: State, m: nat)
    requires m < |s.mutexes| && s.mutexes[m].Some?
  {
    var i := s.mutexes[m].value;
    i < |s.outers| && s.outers[i].mutex == m && InSection(s.outers[i])
  }

  /** Exactly the logged objects are stored, each key logged once. */
  ghost predicate StoreOk(s: State) {
    LoggedAreStored(s.store, s.log) && LogDistinct(s.log) && StoredAreLogged(s.store, s.log)
  }

  predicate LoggedAreStored(store: map<Key, Obj>, log: seq<Created>) {
    forall i :: 0 <= i < |log| ==> log[i].key in store && store[log[i].key] == log[i].obj
  }

  predicate LogDistinct(log: seq<Created>) {
    forall i, j :: 0 <= i < j < |log| ==> log[i].key != log[j].key
  }

  predicate Logs(log: seq<Created>, k: Key) {
    exists i :: 0 <= i < |log| && log[i].key == k
  }

  predicate StoredAreLogged(store: map<Key, Obj>, log: seq<Created>) {
    forall k :: k in store ==> Logs(log, k)
  }

  /** Any cluster may have lost a read. */
  ghost const EVERYONE: iset<Ident> := iset id: Ident | true

  /** No cluster has. */
  ghost const NOBODY: iset<Ident> := iset{}

  /** Credentials a goroutine has read are those of the stored secret; where a read failed, they may
      also be empty. */
  predicate CredsOk(s: State, id: Ident, read: Option<Creds>, lost: iset<Ident>) {
    read.Some? ==>
      || (id in lost && read.value == NO_CREDS)
      || (Key(id, MinioUserRole) in s.store && s.store[Key(id, MinioUserRole)] == MinioUserSecret(read.value))
  }

  predicate ObjCredsOk(s: State, id: Ident, o: Obj, lost: iset<Ident>) {
    (o.KyuubiObj? || o.MetastoreObj?) ==> CredsOk(s, id, o.minio, lost)
  }

  predicate Stored(s: State, id: Ident, role: Role) {
    Key(id, role) in s.store
  }

  predicate ContentOk(s: State, k: Key, lost: iset<Ident>)
    requires k in s.store
  {
    && Fits(k.role, s.store[k])
    && ObjCredsOk(s, k.id, s.store[k], lost)
    && (k.role == TenantRole ==> Stored(s, k.id, MinioConfigRole) && Stored(s, k.id, MinioUserRole))
    && (k.role == PgRole ==> Stored(s, k.id, PgInitRole) && Stored(s, k.id, PgSuperRole))
  }

  predicate InnerOk(s: State, t: Inner, lost: iset<Ident>) {
    && t.wait <= |WaitsOf(t)| && t.k <= |RolesOf(t)|
    && (t.doomed ==> t.entry.typ == Minio && t.k >= TENANT_STEP && (t.stage == Build ==> t.k == |RolesOf(t)|))
    && (t.stage != Build || t.k > 0 ==> t.wait == |WaitsOf(t)|)
    && (t.stage != Build ==> t.k < |RolesOf(t)|)
    && (t.stage != Build && t.desired.Some? ==> !t.doomed && Fits(RolesOf(t)[t.k], t.desired.value))
    && (t.stage != Build && t.desired.Some? ==> ObjCredsOk(s, t.cluster.id, t.desired.value, lost))
    && (t.stage == Create && !t.missing ==> Stored(s, t.cluster.id, RolesOf(t)[t.k]))
    && (!t.doomed ==> forall i :: 0 <= i < t.k ==> Stored(s, t.cluster.id, RolesOf(t)[i]))
    && CredsOk(s, t.cluster.id, t.read, lost)
  }

  ghost predicate ContentsOk(s: State, lost: iset<Ident>) {
    forall k :: k in s.store ==> ContentOk(s, k, lost)
  }

  ghost predicate InnersOk(s: State, lost: iset<Ident>) {
    forall j :: 0 <= j < |s.inners| ==> InnerOk(s, s.inners[j], lost)
  }

  /** The invariant of every run, where lost are the clusters of which a read of the secret failed. */
  ghost predicate Inv(s: State, lost: iset<Ident>) {
    LocksOk(s) && StoreOk(s) && ContentsOk(s, lost) && InnersOk(s, lost)
  }

  // ---------------------------------------------------------------- each event keeps it

  lemma WithLockKeepsLocks(s: State, name: string)
    requires LocksOk(s)
    ensures LocksOk(WithLock(s, name))
  {
    var s1 := WithLock(s, name);
    forall i | 0 <= i < |s1.outers| ensures OuterOk(s1, i) {
      assert OuterOk(s, i);
    }
    forall m | 0 <= m < |s1.mutexes| && s1.mutexes[m].Some? ensures OwnerOk(s1, m) {
      assert m < |s.mutexes| && OwnerOk(s, m);
    }
  }

  lemma SpawnKeepsLocks(s: State, c: Cluster, v: ClusterInfo)
    requires LocksOk(s)
    ensures LocksOk(Spawn(s, c, v))
  {
    var s1 := WithLock(s, LockName(c.id, v.typ));
    WithLockKeepsLocks(s, LockName(c.id, v.typ));
    var s2 := Spawn(s, c, v);
    forall i | 0 <= i < |s2.outers| ensures OuterOk(s2, i) {
      if i < |s1.outers| {
        assert OuterOk(s1, i);
      }
    }
    forall m | 0 <= m < |s2.mutexes| && s2.mutexes[m].Some? ensures OwnerOk(s2, m) {
      assert OwnerOk(s1, m);
    }
  }

  lemma {:induction false} PassKeepsLocks(s: State, c: Cluster, n: nat)
    requires LocksOk(s) && n <= |c.clusterSet|
    ensures LocksOk(SpawnUpTo(s, c, n))
  {
    if n > 0 {
      PassKeepsLocks(s, c, n - 1);
      SpawnKeepsLocks(SpawnUpTo(s, c, n - 1), c, c.clusterSet[n - 1]);
    }
  }

  lemma TryLockKeepsLocks(s: State, i: nat)
    requires LocksOk(s) && Enabled(s, TryLock(i))
    ensures LocksOk(ApplyTryLock(s, i))
  {
    var s' := ApplyTryLock(s, i);
    assert OuterOk(s, i);
    forall j | 0 <= j < |s'.outers| ensures OuterOk(s', j) {
      assert OuterOk(s, j);
    }
    forall m | 0 <= m < |s'.mutexes| && s'.mutexes[m].Some? ensures OwnerOk(s', m) {
      assert s.mutexes[m].Some? ==> OwnerOk(s, m);
    }
  }

  lemma LaunchKeepsLocks(s: State, i: nat)
    requires LocksOk(s) && Enabled(s, Launch(i))
    ensures LocksOk(ApplyLaunch(s, i))
  {
    var s' := ApplyLaunch(s, i);
    forall j | 0 <= j < |s'.outers| ensures OuterOk(s', j) {
      assert OuterOk(s, j);
    }
    forall m | 0 <= m < |s'.mutexes| && s'.mutexes[m].Some? ensures OwnerOk(s', m) {
      assert OwnerOk(s, m);
    }
  }

  lemma UnlockKeepsLocks(s: State, i: nat)
    requires LocksOk(s) && Enabled(s, Unlock(i))
    ensures LocksOk(ApplyUnlock(s, i))
  {
    var s' := ApplyUnlock(s, i);
    assert OuterOk(s, i);
    forall j | 0 <= j < |s'.outers| ensures OuterOk(s', j) {
      assert OuterOk(s, j);
    }
    forall m | 0 <= m < |s'.mutexes| && s'.mutexes[m].Some? ensures OwnerOk(s', m) {
      assert OwnerOk(s, m);
    }
  }

  /** What an inner goroutine knows stays true while other goroutines change the state. */
  lemma InnerStaysOk(s: State, s': State, t: Inner, lost: iset<Ident>)
    requires Extends(s, s') && InnerOk(s, t, lost)
    ensures InnerOk(s', t, lost)
  {
  }

  lemma ContentStaysOk(s: State, s': State, k: Key, lost: iset<Ident>)
    requires Extends(s, s') && k in s.store && ContentOk(s, k, lost)
    ensures ContentOk(s', k, lost)
  {
  }

  lemma WaitKeepsInner(s: State, t: Inner, choice: Choice, lost: iset<Ident>)
    requires InnerOk(s, t, lost) && RunEnabled(s, t, choice) && t.wait < |WaitsOf(t)|
    requires ContentsOk(s, lost)
    requires LosesRead(t, choice) ==> t.cluster.id in lost
    ensures InnerOk(s, AfterRun(s, t, choice), lost)
  {
    assert Key(t.cluster.id, MinioUserRole) in s.store ==> ContentOk(s, Key(t.cluster.id, MinioUserRole), lost);
  }

  lemma StepKeepsInner(s: State, s': State, t: Inner, choice: Choice, lost: iset<Ident>)
    requires InnerOk(s, t, lost) && RunEnabled(s, t, choice) && t.wait == |WaitsOf(t)|
    requires Extends(s, s')
    requires Accepts(s, t, choice).Some? ==> Accepts(s, t, choice).value.key in s'.store
    ensures InnerOk(s', AfterStep(s, t, choice), lost)
  {
    InnerStaysOk(s, s', t, lost);
    match t.stage {
      case Build => BuildKeepsInner(s, s', t, choice, lost);
      case Get => GetKeepsInner(s, s', t, choice, lost);
      case Create => CreateKeepsInner(s, s', t, choice, lost);
    }
  }

  lemma GetKeepsInner(s: State, s': State, t: Inner, choice: Choice, lost: iset<Ident>)
    requires InnerOk(s', t, lost) && t.k < |RolesOf(t)| && t.stage == Get && Extends(s, s')
    ensures InnerOk(s', AfterStep(s, t, choice), lost)
  {
    assert IsMinioSecret(RolesOf(t)[t.k]) ==> t.entry.typ == Minio && |RolesOf(t)| == 3;
    hide Waits, Roles, Fits, ObjCredsOk, CredsOk;
  }

  /** Where the goroutine moves on, the object was found, was created just now, or is a rival's. */
  lemma CreateKeepsInner(s: State, s': State, t: Inner, choice: Choice, lost: iset<Ident>)
    requires InnerOk(s', t, lost) && t.k < |RolesOf(t)| && t.stage == Create && Extends(s, s')
    requires CreateAccepted(s, t, choice) ==> Stored(s', t.cluster.id, RolesOf(t)[t.k])
    ensures InnerOk(s', AfterStep(s, t, choice), lost)
  {
    var u := AfterStep(s, t, choice);
    if u == NextObject(t) {
      assert Stored(s', t.cluster.id, RolesOf(t)[t.k]);
    }
  }

  lemma BuildKeepsInner(s: State, s': State, t: Inner, choice: Choice, lost: iset<Ident>)
    requires InnerOk(s', t, lost) && t.k < |RolesOf(t)| && t.wait == |WaitsOf(t)| && t.stage == Build
    requires StepEnabled(t, choice)
    ensures InnerOk(s', AfterStep(s, t, choice), lost)
  {
  }

  lemma LogsAppend(log: seq<Created>, cr: Created, k: Key)
    ensures Logs(log + [cr], k) <==> Logs(log, k) || cr.key == k
  {
    var all := log + [cr];
    assert all[|log|] == cr;
    if Logs(log, k) {
      var i :| 0 <= i < |log| && log[i].key == k;
      assert all[i].key == k;
    }
  }

  /** What one step of an inner goroutine leaves as it was, and what it can desire next. */
  lemma SamePlace(s: State, t: Inner, choice: Choice)
    requires RunEnabled(s, t, choice)
    ensures AfterRun(s, t, choice).cluster == t.cluster && AfterRun(s, t, choice).entry == t.entry
    ensures AfterRun(s, t, choice).wait >= t.wait
  {
    hide Waits, Roles, Desired, CredsIn, WaitEnabled;
  }

  lemma AfterStepDesired(s: State, t: Inner, choice: Choice)
    requires t.k < |RolesOf(t)|
    ensures var u := AfterStep(s, t, choice);
      && u.cluster == t.cluster && u.entry == t.entry && u.wait == t.wait
      && (u.desired == None || (u.k == t.k && (u.desired == t.desired || u.desired == Desired(s, t, RolesOf(t)[t.k], choice))))
  {
    hide Waits, Roles, Desired;
  }

  lemma RunChangesOnly(s: State, j: nat, choice: Choice)
    requires CanRun(s, j, choice)
    ensures var s', t := ApplyRun(s, j, choice), s.inners[j];
      && s'.outers == s.outers && s'.ready == s.ready && s'.inners == s.inners[j := AfterRun(s, t, choice)]
      && s'.metastoreReplicas == NewReplicas(s, t)
      && s'.store == match Accepts(s, t, choice) case None => s.store case Some(cr) => s.store[cr.key := cr.obj]
  {
    hide AfterRun, Accepts, NewReplicas;
  }

  lemma CreateKeepsStored(store: map<Key, Obj>, log: seq<Created>, cr: Created)
    requires StoredAreLogged(store, log)
    ensures StoredAreLogged(store[cr.key := cr.obj], log + [cr])
  {
    forall k | k in store[cr.key := cr.obj] ensures Logs(log + [cr], k) {
      LogsAppend(log, cr, k);
    }
  }

  lemma CreateKeepsStore(s: State, s': State, cr: Created)
    requires StoreOk(s) && cr.key !in s.store
    requires s'.store == s.store[cr.key := cr.obj] && s'.log == s.log + [cr]
    ensures StoreOk(s')
  {
    CreateKeepsStored(s.store, s.log, cr);
  }

  lemma RunKeepsInners(s: State, j: nat, choice: Choice, lost: iset<Ident>)
    requires InnersOk(s, lost) && ContentsOk(s, lost) && CanRun(s, j, choice)
    requires LostRead(s, Run(j, choice)) <= lost
    ensures InnersOk(ApplyRun(s, j, choice), lost)
  {
    var t := s.inners[j];
    var s' := ApplyRun(s, j, choice);
    RunExtendsStep(s, j, choice);
    assert InnerOk(s, t, lost);
    if t.wait < |WaitsOf(t)| {
      WaitKeepsInner(s, t, choice, lost);
      InnerStaysOk(s, s', AfterRun(s, t, choice), lost);
    } else {
      StepKeepsInner(s, s', t, choice, lost);
    }
    forall i | 0 <= i < |s'.inners| ensures InnerOk(s', s'.inners[i], lost) {
      if i != j {
        InnerStaysOk(s, s', s.inners[i], lost);
      }
    }
  }

  lemma RunExtendsStep(s: State, j: nat, choice: Choice)
    requires CanRun(s, j, choice)
    ensures Extends(s, ApplyRun(s, j, choice))
  {
  }

  lemma RunKeepsContents(s: State, j: nat, choice: Choice, lost: iset<Ident>)
    requires InnersOk(s, lost) && ContentsOk(s, lost) && CanRun(s, j, choice)
    ensures ContentsOk(ApplyRun(s, j, choice), lost)
  {
    var t := s.inners[j];
    var s' := ApplyRun(s, j, choice);
    RunExtendsStep(s, j, choice);
    assert InnerOk(s, t, lost);
    forall k | k in s'.store ensures ContentOk(s', k, lost) {
      if k in s.store {
        ContentStaysOk(s, s', k, lost);
      } else {
        // the new object: its goroutine is not doomed and has passed its earlier objects
        CreatedObjectOk(s, s', t, lost);
      }
    }
  }

  lemma RunKeepsInv(s: State, j: nat, choice: Choice, lost: iset<Ident>)
    requires Inv(s, lost) && CanRun(s, j, choice)
    requires LostRead(s, Run(j, choice)) <= lost
    ensures Inv(ApplyRun(s, j, choice), lost)
  {
    RunKeepsInners(s, j, choice, lost);
    RunKeepsContents(s, j, choice, lost);
    LocksFrame(s, ApplyRun(s, j, choice));
    RunKeepsStore(s, j, choice);
  }

  lemma RunKeepsStore(s: State, j: nat, choice: Choice)
    requires StoreOk(s) && CanRun(s, j, choice)
    ensures StoreOk(ApplyRun(s, j, choice))
  {
    match Accepts(s, s.inners[j], choice)
    case None =>
    case Some(cr) => CreateKeepsStore(s, ApplyRun(s, j, choice), cr);
  }

  lemma CreatedObjectOk(s: State, s': State, t: Inner, lost: iset<Ident>)
    requires InnerOk(s, t, lost) && Extends(s, s') && t.stage == Create && t.desired.Some?
    requires Key(t.cluster.id, RolesOf(t)[t.k]) in s'.store
    requires s'.store[Key(t.cluster.id, RolesOf(t)[t.k])] == t.desired.value
    ensures ContentOk(s', Key(t.cluster.id, RolesOf(t)[t.k]), lost)
  {
    InnerStaysOk(s, s', t, lost);
    var roles := RolesOf(t);
    if roles[t.k] == TenantRole {
      assert t.k == 2 && roles[0] == MinioConfigRole && roles[1] == MinioUserRole;
    } else if roles[t.k] == PgRole {
      assert t.k == 2 && roles[0] == PgInitRole && roles[1] == PgSuperRole;
    }
  }

  /** An event that leaves the store and every goroutine there is alone. */
  lemma OutsideKeepsInv(s: State, s': State, lost: iset<Ident>)
    requires Inv(s, lost) && LocksOk(s') && Extends(s, s') && s'.store == s.store && s'.log == s.log
    requires |s.inners| <= |s'.inners| && forall i :: 0 <= i < |s.inners| ==> s'.inners[i] == s.inners[i]
    requires forall i :: |s.inners| <= i < |s'.inners| ==> InnerOk(s', s'.inners[i], lost)
    ensures Inv(s', lost)
  {
    forall k | k in s'.store ensures ContentOk(s', k, lost) {
      ContentStaysOk(s, s', k, lost);
    }
    forall i | 0 <= i < |s'.inners| ensures InnerOk(s', s'.inners[i], lost) {
      if i < |s.inners| {
        InnerStaysOk(s, s', s.inners[i], lost);
      }
    }
  }

  lemma PassKeepsInv(s: State, c: Cluster, lost: iset<Ident>)
    requires Inv(s, lost)
    ensures Inv(ApplyPass(s, c), lost)
  {
    if PassCluster(c).Some? {
      var f := PassCluster(c).value;
      PassKeepsLocks(s, f, |f.clusterSet|);
      SpawnExtends(s, f, |f.clusterSet|);
      OutsideKeepsInv(s, ApplyPass(s, c), lost);
    }
  }

  lemma LaunchKeepsInv(s: State, i: nat, lost: iset<Ident>)
    requires Inv(s, lost) && Enabled(s, Launch(i))
    ensures Inv(ApplyLaunch(s, i), lost)
  {
    LaunchKeepsLocks(s, i);
    OutsideKeepsInv(s, ApplyLaunch(s, i), lost);
  }

  lemma LockStepKeepsInv(s: State, s': State, lost: iset<Ident>)
    requires Inv(s, lost) && LocksOk(s')
    requires s' == s.(mutexes := s'.mutexes, outers := s'.outers, ready := s'.ready)
    ensures Inv(s', lost)
  {
    OutsideKeepsInv(s, s', lost);
  }

  lemma StepKeepsInv(s: State, e: Event, lost: iset<Ident>)
    requires Inv(s, lost) && Enabled(s, e) && LostRead(s, e) <= lost
    ensures Inv(Apply(s, e), lost)
  {
    match e
    case Pass(c) => PassKeepsInv(s, c, lost);
    case TryLock(i) => TryLockKeepsLocks(s, i); LockStepKeepsInv(s, Apply(s, e), lost);
    case Launch(i) => LaunchKeepsInv(s, i, lost);
    case Unlock(i) => UnlockKeepsLocks(s, i); LockStepKeepsInv(s, Apply(s, e), lost);
    case Run(j, choice) => RunKeepsInv(s, j, choice, lost);
    case BecomeReady(_) => LocksFrame(s, Apply(s, e)); LockStepKeepsInv(s, Apply(s, e), lost);
    case BecomeUnready(_) => LocksFrame(s, Apply(s, e)); LockStepKeepsInv(s, Apply(s, e), lost);
  }

  lemma LocksFrame(s: State, s': State)
    requires LocksOk(s) && s'.locks == s.locks && s'.mutexes == s.mutexes && s'.outers == s.outers
    ensures LocksOk(s')
  {
    forall i | 0 <= i < |s'.outers| ensures OuterOk(s', i) { assert OuterOk(s, i); }
    forall m | 0 <= m < |s'.mutexes| && s'.mutexes[m].Some? ensures OwnerOk(s', m) { assert OwnerOk(s, m); }
  }

  lemma {:induction false} RunKeepsInvariant(s: State, events: seq<Event>, lost: iset<Ident>)
    requires Inv(s, lost) && IsRun(s, events) && LostReads(s, events) <= lost
    ensures Inv(EndOf(s, events), lost)
    decreases |events|
  {
    if events != [] {
      StepKeepsInv(s, events[0], lost);
      RunKeepsInvariant(Apply(s, events[0]), events[1..], lost);
    }
  }

  // ---------------------------------------------------------------- readiness

  /** Only what is stored can be ready, and no more of it than it asks for. */
  ghost predicate ReadyOk(s: State) {
    forall k :: k in s.ready && s.ready[k] > 0 ==> k in s.store && s.ready[k] <= Asked(s.store[k])
  }

  lemma StepKeepsReadyOk(s: State, e: Event)
    requires ReadyOk(s) && Enabled(s, e)
    ensures ReadyOk(Apply(s, e))
  {
    StepExtends(s, e);
    hide Asked;
    match e
    case Pass(c) =>
      if PassCluster(c).Some? {
        SpawnExtends(s, PassCluster(c).value, |PassCluster(c).value.clusterSet|);
      }
    case Run(j, choice) => RunChangesOnly(s, j, choice); hide ApplyRun, AfterRun, Accepts, NewReplicas;
    case _ =>
  }

  lemma {:induction false} RunsKeepReadyOk(s: State, events: seq<Event>)
    requires ReadyOk(s) && IsRun(s, events)
    ensures ReadyOk(EndOf(s, events))
    decreases |events|
  {
    hide ReadyOk;
    if events != [] {
      StepKeepsReadyOk(s, events[0]);
      RunsKeepReadyOk(Apply(s, events[0]), events[1..]);
    }
  }

  /** In every run nothing is ready that is not stored, and never more than three replicas of a database or
      of zookeeper, one of a tenant, or as many of a metastore or of name nodes as its object asks for. */
  lemma ReadyWithinBounds(events: seq<Event>, k: Key)
    requires IsRun(INIT, events) && ReadyCount(EndOf(INIT, events), k) > 0
    ensures var s := EndOf(INIT, events); var n := ReadyCount(s, k);
      && k in s.store
      && (k.role == PgRole || k.role == ZkRole ==> n <= 3)
      && (k.role == TenantRole ==> n <= 1)
      && (k.role == MetastoreRole ==> s.store[k].MetastoreObj? && n <= s.store[k].replicas)
      && (k.role == HdfsRole ==> s.store[k].HdfsObj? && n <= s.store[k].nameNodes)
  {
    var s := EndOf(INIT, events);
    RunsKeepReadyOk(INIT, events);
    hide IsRun, EndOf, ReadyOk, Fits, Asked;
    RunKeepsInvariant(INIT, events, EVERYONE);
    hide LocksOk, StoreOk, InnersOk, ObjCredsOk;
    ReadyIsAsked(s, k);
    FitsBounds(k.role, s.store[k]);
  }

  lemma ReadyIsAsked(s: State, k: Key)
    requires ReadyOk(s) && ReadyCount(s, k) > 0
    ensures k in s.store && ReadyCount(s, k) <= Asked(s.store[k])
  {
    hide Asked;
  }

  lemma FitsBounds(role: Role, o: Obj)
    requires Fits(role, o)
    ensures role == PgRole || role == ZkRole ==> Asked(o) <= 3
    ensures role == TenantRole ==> Asked(o) <= 1
    ensures role == MetastoreRole ==> o.MetastoreObj? && (Asked(o) > 0 ==> Asked(o) <= o.replicas)
    ensures role == HdfsRole ==> o.HdfsObj? && (Asked(o) > 0 ==> Asked(o) <= o.nameNodes)
  {
  }

  // ---------------------------------------------------------------- what it means

  lemma {:induction false} RunConcat(s: State, a: seq<Event>, b: seq<Event>)
    requires IsRun(s, a) && IsRun(EndOf(s, a), b)
    ensures IsRun(s, a + b) && EndOf(s, a + b) == EndOf(EndOf(s, a), b)
    decreases |a|
  {
    if a == [] {
      assert a + b == b;
    } else {
      assert (a + b)[0] == a[0] && (a + b)[1..] == a[1..] + b;
      RunConcat(Apply(s, a[0]), a[1..], b);
    }
  }

  lemma RunOne(s: State, e: Event)
    requires Enabled(s, e)
    ensures IsRun(s, [e]) && EndOf(s, [e]) == Apply(s, e)
  {
    hide Enabled, Apply;
    var events := [e];
    assert events[0] == e && events[1..] == [];
    assert IsRun(Apply(s, e), []);
    assert EndOf(Apply(s, e), []) == Apply(s, e);
  }

  lemma RunSnoc(s: State, events: seq<Event>, e: Event)
    requires IsRun(s, events) && Enabled(EndOf(s, events), e)
    ensures IsRun(s, events + [e]) && EndOf(s, events + [e]) == Apply(EndOf(s, events), e)
  {
    RunOne(EndOf(s, events), e);
    RunConcat(s, events, [e]);
  }

  /** How often the API server accepted a create of this key. */
  function Creations(log: seq<Created>, k: Key): nat {
    if log == [] then 0
    else Creations(log[..|log| - 1], k) + if log[|log| - 1].key == k then 1 else 0
  }

  lemma {:induction false} CreationsOfDistinct(log: seq<Created>, k: Key)
    requires LogDistinct(log)
    ensures Creations(log, k) == if Logs(log, k) then 1 else 0
  {
    if log != [] {
      var n := |log| - 1;
      CreationsOfDistinct(log[..n], k);
      LogsAppend(log[..n], log[n], k);
      assert log == log[..n] + [log[n]];
    }
  }

  /** In every run each object and secret is created at most once, is stored exactly when it was
      created, and never changes afterwards, random credentials included. */
  lemma CreatedOnceAndForever(before: seq<Event>, after: seq<Event>, k: Key)
    requires IsRun(INIT, before) && IsRun(EndOf(INIT, before), after)
    ensures Creations(EndOf(INIT, before).log, k) == if k in EndOf(INIT, before).store then 1 else 0
    ensures k in EndOf(INIT, before).store ==>
      && k in EndOf(EndOf(INIT, before), after).store
      && EndOf(EndOf(INIT, before), after).store[k] == EndOf(INIT, before).store[k]
      && Creations(EndOf(EndOf(INIT, before), after).log, k) == 1
  {
    var mid := EndOf(INIT, before);
    RunKeepsInvariant(INIT, before, EVERYONE);
    RunKeepsInvariant(mid, after, EVERYONE);
    RunExtends(mid, after);
    CreationsOfDistinct(mid.log, k);
    CreationsOfDistinct(EndOf(mid, after).log, k);
  }

  /** The credentials in kyuubi and metastore objects are those of the one stored user secret, although
      every pass draws new random ones. They can only be other ones, and then empty, when a goroutine of
      this very cluster failed to read the secret: no other failure, of this cluster or of another, can
      part them. */
  lemma CredentialsAgree(events: seq<Event>, id: Ident, role: Role)
    requires IsRun(INIT, events)
    requires role == KyuubiRole || role == MetastoreRole
    requires Key(id, role) in EndOf(INIT, events).store
    ensures var s := EndOf(INIT, events);
      var o := s.store[Key(id, role)];
      && Fits(role, o)
      && (o.minio.Some? ==>
            || (o.minio.value == NO_CREDS && id in LostReads(INIT, events))
            || (Stored(s, id, MinioUserRole) && s.store[Key(id, MinioUserRole)] == MinioUserSecret(o.minio.value)))
  {
    var lost := LostReads(INIT, events);
    RunKeepsInvariant(INIT, events, lost);
    assert ContentOk(EndOf(INIT, events), Key(id, role), lost);
  }

  /** A stored tenant or database cluster never refers to a secret that does not exist. */
  lemma ReferencedSecretsExist(events: seq<Event>, id: Ident)
    requires IsRun(INIT, events)
    ensures var s := EndOf(INIT, events);
      && (Stored(s, id, TenantRole) ==> Stored(s, id, MinioConfigRole) && Stored(s, id, MinioUserRole))
      && (Stored(s, id, PgRole) ==> Stored(s, id, PgInitRole) && Stored(s, id, PgSuperRole))
  {
    var s := EndOf(INIT, events);
    RunKeepsInvariant(INIT, events, EVERYONE);
    assert Stored(s, id, TenantRole) ==> ContentOk(s, Key(id, TenantRole), EVERYONE);
    assert Stored(s, id, PgRole) ==> ContentOk(s, Key(id, PgRole), EVERYONE);
  }

  /** At most one outer goroutine per lock name is between TryLock and Unlock, and a mutex is
      taken only while one is. */
  lemma OuterSectionsExclude(events: seq<Event>, i: nat, j: nat)
    requires IsRun(INIT, events)
    requires i < |EndOf(INIT, events).outers| && j < |EndOf(INIT, events).outers|
    requires var s := EndOf(INIT, events);
      LockName(s.outers[i].cluster.id, s.outers[i].entry.typ) == LockName(s.outers[j].cluster.id, s.outers[j].entry.typ)
    ensures var s := EndOf(INIT, events);
      && s.outers[i].mutex == s.outers[j].mutex
      && (InSection(s.outers[i]) && InSection(s.outers[j]) ==> i == j)
  {
    var s := EndOf(INIT, events);
    RunKeepsInvariant(INIT, events, EVERYONE);
    assert OuterOk(s, i) && OuterOk(s, j);
  }

  /** A mutex is taken exactly while an outer goroutine of its name is between TryLock and Unlock. */
  lemma TakenMeansInSection(events: seq<Event>, name: string)
    requires IsRun(INIT, events) && name in EndOf(INIT, events).locks
    ensures var s := EndOf(INIT, events);
      !MutexFree(s, s.locks[name]) <==>
      exists i :: 0 <= i < |s.outers| && LockName(s.outers[i].cluster.id, s.outers[i].entry.typ) == name && InSection(s.outers[i])
  {
    var s := EndOf(INIT, events);
    RunKeepsInvariant(INIT, events, EVERYONE);
    hide LockName;
    var m := s.locks[name];
    if s.mutexes[m].Some? {
      assert OwnerOk(s, m);
      assert OuterOk(s, s.mutexes[m].value);
    }
    if i :| 0 <= i < |s.outers| && LockName(s.outers[i].cluster.id, s.outers[i].entry.typ) == name && InSection(s.outers[i]) {
      assert OuterOk(s, i);
    }
  }

  /** Whoever won a mutex can always give it back by its own next steps, whatever the others do. */
  lemma WinnersRelease(events: seq<Event>, i: nat)
    requires IsRun(INIT, events)
    requires i < |EndOf(INIT, events).outers| && InSection(EndOf(INIT, events).outers[i])
    ensures var s := EndOf(INIT, events);
      && (s.outers[i].pc == Holding ==> Enabled(s, Launch(i)))
      && var t := if s.outers[i].pc == Holding then Apply(s, Launch(i)) else s;
         && Enabled(t, Unlock(i))
         && var u := Apply(t, Unlock(i));
            i < |u.outers| && u.outers[i].pc == Finished(true) && MutexFree(u, s.outers[i].mutex)
  {
    var s := EndOf(INIT, events);
    RunKeepsInvariant(INIT, events, EVERYONE);
    assert OuterOk(s, i);
    hide LockName, IsRun, EndOf, Launchee;
  }
}
