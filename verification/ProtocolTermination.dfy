/** Runs over one cluster come to an end: without a new pass only boundedly many steps can follow,
    whatever the cluster lists and however its components wait for each other. */
module ProtocolTermination {
  import opened Text
  import opened Clusters
  import opened Protocol
  import opened ProtocolSafety

  // ---------------------------------------------------------------- runs over one cluster

  predicate PassesOver(f: Cluster, e: Event) {
    e.Pass? ==> PassCluster(e.c) == Some(f)
  }

  /** The events the progress theorems allow: no call fails, and passes are over this cluster. */
  predicate Smooth(f: Cluster, e: Event) {
    Reliable(e) && PassesOver(f, e)
  }

  predicate AllSmooth(f: Cluster, events: seq<Event>) {
    forall i :: 0 <= i < |events| ==> Smooth(f, events[i])
  }

  predicate NoPass(events: seq<Event>) {
    forall i :: 0 <= i < |events| ==> !events[i].Pass?
  }

  predicate RunsSmoothly(s: State, j: nat, choice: Choice) {
    CanRun(s, j, choice) && choice != Fail && choice != LostReply
  }

  predicate OuterOf(f: Cluster, o: Outer) {
    o.cluster == f && o.entry in f.clusterSet
  }

  function Positive(n: int): nat {
    if n < 0 then 0 else n
  }

  function TotalReplicas(entries: seq<ClusterInfo>): nat {
    if entries == [] then 0
    else TotalReplicas(entries[..|entries| - 1]) + Positive(entries[|entries| - 1].replicas)
  }

  /** No object of the cluster asks for more replicas. */
  function AskedBound(f: Cluster): nat {
    3 + TotalReplicas(f.clusterSet)
  }

  lemma {:induction false} ReplicasBelowTotal(entries: seq<ClusterInfo>, v: ClusterInfo)
    requires v in entries
    ensures v.replicas <= TotalReplicas(entries)
  {
    var n := |entries| - 1;
    if v != entries[n] {
      assert entries == entries[..n] + [entries[n]];
      ReplicasBelowTotal(entries[..n], v);
    }
  }

  lemma {:induction false} NameNodesBelowTotal(entries: seq<ClusterInfo>)
    ensures LastNameNodes(entries) <= TotalReplicas(entries)
  {
    if entries != [] && entries[|entries| - 1].typ != HdfsNameNode {
      NameNodesBelowTotal(entries[..|entries| - 1]);
    }
  }

  predicate InnerOver(f: Cluster, t: Inner) {
    && t.cluster == f && t.entry in f.clusterSet
    && (t.desired.Some? ==> Asked(t.desired.value) <= AskedBound(f))
  }

  predicate StoreOver(store: map<Key, Obj>, f: Cluster) {
    forall k :: k in store ==> k.id == f.id && Asked(store[k]) <= AskedBound(f)
  }

  ghost predicate OutersOver(s: State, f: Cluster) {
    forall i :: 0 <= i < |s.outers| ==> OuterOf(f, s.outers[i])
  }

  ghost predicate InnersOver(s: State, f: Cluster) {
    forall j :: 0 <= j < |s.inners| ==> InnerOver(f, s.inners[j])
  }

  /** All goroutines and objects are of the one cluster, and nothing asks for more than the bound. */
  ghost predicate Over(s: State, f: Cluster) {
    OutersOver(s, f) && InnersOver(s, f) && StoreOver(s.store, f) && s.metastoreReplicas <= AskedBound(f)
  }

  lemma DesiredBelowBound(s: State, f: Cluster, t: Inner, role: Role, choice: Choice)
    requires t.cluster == f && t.entry in f.clusterSet && s.metastoreReplicas <= AskedBound(f)
    ensures var d := Desired(s, t, role, choice); d.Some? ==> Asked(d.value) <= AskedBound(f)
  {
    NameNodesBelowTotal(f.clusterSet);
  }

  lemma NewReplicasBelowBound(s: State, f: Cluster, t: Inner)
    requires t.cluster == f && t.entry in f.clusterSet && s.metastoreReplicas <= AskedBound(f)
    ensures NewReplicas(s, t) <= AskedBound(f)
  {
    ReplicasBelowTotal(f.clusterSet, t.entry);
    if t.wait < |WaitsOf(t)| {
      WaitCases(f, t.entry, WaitsOf(t)[t.wait]);
    }
    hide Waits;
  }

  lemma InnerStaysOver(s: State, f: Cluster, t: Inner, choice: Choice)
    requires InnerOver(f, t) && RunEnabled(s, t, choice) && s.metastoreReplicas <= AskedBound(f)
    ensures InnerOver(f, AfterRun(s, t, choice))
  {
    SamePlace(s, t, choice);
    if t.wait >= |WaitsOf(t)| {
      AfterStepDesired(s, t, choice);
      DesiredBelowBound(s, f, t, RolesOf(t)[t.k], choice);
      hide Waits, Roles, Desired, AskedBound, Asked, AfterStep;
    } else {
      hide Waits, Roles, Desired, AskedBound, Asked, WaitEnabled, CredsIn;
    }
  }

  lemma RunStaysOver(s: State, f: Cluster, j: nat, choice: Choice)
    requires Over(s, f) && CanRun(s, j, choice)
    ensures Over(ApplyRun(s, j, choice), f)
  {
    assert InnerOver(f, s.inners[j]);
    InnerStaysOver(s, f, s.inners[j], choice);
    NewReplicasBelowBound(s, f, s.inners[j]);
    hide AfterRun, NewReplicas, Asked, AskedBound;
  }

  lemma {:induction false} SpawnStaysOver(s: State, f: Cluster, n: nat)
    requires Over(s, f) && n <= |f.clusterSet|
    ensures Over(SpawnUpTo(s, f, n), f)
  {
    hide AskedBound, Asked;
    if n > 0 {
      SpawnStaysOver(s, f, n - 1);
    }
  }

  lemma StepStaysOver(s: State, f: Cluster, e: Event)
    requires Over(s, f) && Enabled(s, e) && PassesOver(f, e)
    ensures Over(Apply(s, e), f)
  {
    hide AskedBound, Asked;
    match e
    case Pass(_) => SpawnStaysOver(s, f, |f.clusterSet|);
    case Run(j, choice) => RunStaysOver(s, f, j, choice);
    case _ =>
  }

  lemma ReliableLosesNoRead(s: State, e: Event)
    requires Reliable(e)
    ensures LostRead(s, e) == NOBODY
  {
  }

  /** What the steps of a smooth run keep. */
  ghost predicate Steady(s: State, f: Cluster) {
    Inv(s, NOBODY) && Over(s, f)
  }

  lemma StepStaysSteady(s: State, f: Cluster, e: Event)
    requires Steady(s, f) && Enabled(s, e) && Smooth(f, e)
    ensures Steady(Apply(s, e), f)
  {
    ReliableLosesNoRead(s, e);
    StepKeepsInv(s, e, NOBODY);
    StepStaysOver(s, f, e);
  }

  lemma {:induction false} RunsStaySteady(s: State, f: Cluster, events: seq<Event>)
    requires Steady(s, f) && IsRun(s, events) && AllSmooth(f, events)
    ensures Steady(EndOf(s, events), f)
    decreases |events|
  {
    hide Steady;
    if events != [] {
      StepStaysSteady(s, f, events[0]);
      RunsStaySteady(Apply(s, events[0]), f, events[1..]);
    }
  }

  lemma InitIsSteady(f: Cluster)
    ensures Steady(INIT, f)
  {
  }

  // ---------------------------------------------------------------- a bound on the steps left

  function InnerWork(t: Inner): nat {
    if t.failed || t.wait > |WaitsOf(t)| || t.k > |RolesOf(t)| then 0
    else
      |WaitsOf(t)| - t.wait
      + if t.k == |RolesOf(t)| then 0
        else 3 * (|RolesOf(t)| - t.k) - match t.stage case Build => 0 case Get => 1 case Create => 2
  }

  function LaunchWork(o: Outer): nat {
    InnerWork(Launchee(o))
  }

  function OuterWork(o: Outer): nat {
    match o.pc
    case Trying => 3 + LaunchWork(o)
    case Holding => 2 + LaunchWork(o)
    case Launched => 1
    case Finished(_) => 0
  }

  function InnersWork(inners: seq<Inner>): nat {
    if inners == [] then 0 else InnersWork(inners[..|inners| - 1]) + InnerWork(inners[|inners| - 1])
  }

  function OutersWork(outers: seq<Outer>): nat {
    if outers == [] then 0 else OutersWork(outers[..|outers| - 1]) + OuterWork(outers[|outers| - 1])
  }

  lemma {:induction false} InnersWorkUpdate(inners: seq<Inner>, j: nat, t: Inner)
    requires j < |inners|
    ensures InnersWork(inners[j := t]) + InnerWork(inners[j]) == InnersWork(inners) + InnerWork(t)
  {
    var n := |inners| - 1;
    if j == n {
      assert inners[j := t][..n] == inners[..n];
    } else {
      assert inners[j := t][..n] == inners[..n][j := t];
      InnersWorkUpdate(inners[..n], j, t);
    }
  }

  lemma {:induction false} OutersWorkUpdate(outers: seq<Outer>, i: nat, o: Outer)
    requires i < |outers|
    ensures OutersWork(outers[i := o]) + OuterWork(outers[i]) == OutersWork(outers) + OuterWork(o)
  {
    var n := |outers| - 1;
    if i == n {
      assert outers[i := o][..n] == outers[..n];
    } else {
      assert outers[i := o][..n] == outers[..n][i := o];
      OutersWorkUpdate(outers[..n], i, o);
    }
  }

  lemma InnersWorkAppend(inners: seq<Inner>, t: Inner)
    ensures InnersWork(inners + [t]) == InnersWork(inners) + InnerWork(t)
  {
    assert (inners + [t])[..|inners|] == inners;
  }

  /** How many replicas of an object are yet to become ready. */
  function Deficit(store: map<Key, Obj>, ready: map<Key, nat>, k: Key, bound: nat): nat {
    if k !in store then bound
    else
      var n := if k in ready then ready[k] else 0;
      if n < Asked(store[k]) then Asked(store[k]) - n else 0
  }

  function Deficits(store: map<Key, Obj>, ready: map<Key, nat>, id: Ident, bound: nat): nat {
    Deficit(store, ready, Key(id, PgRole), bound)
    + Deficit(store, ready, Key(id, ZkRole), bound)
    + Deficit(store, ready, Key(id, TenantRole), bound)
    + Deficit(store, ready, Key(id, HdfsRole), bound)
    + Deficit(store, ready, Key(id, MetastoreRole), bound)
  }

  function WorkLeft(s: State, f: Cluster): nat {
    OutersWork(s.outers) + InnersWork(s.inners) + Deficits(s.store, s.ready, f.id, AskedBound(f))
  }

  lemma RunDoesWork(s: State, t: Inner, choice: Choice)
    requires RunEnabled(s, t, choice) && InnerOk(s, t, NOBODY)
    ensures InnerWork(AfterRun(s, t, choice)) < InnerWork(t)
  {
    if t.wait >= |WaitsOf(t)| {
      StepDoesWork(s, t, choice);
    }
  }

  lemma StepDoesWork(s: State, t: Inner, choice: Choice)
    requires RunEnabled(s, t, choice) && InnerOk(s, t, NOBODY) && t.wait == |WaitsOf(t)|
    ensures InnerWork(AfterStep(s, t, choice)) < InnerWork(t)
  {
    StepGoesOn(s, t, choice);
    hide *;
    FurtherOnIsLess(t, AfterStep(s, t, choice));
  }

  /** How far a goroutine is with its objects. */
  function Place(t: Inner): nat {
    3 * t.k + match t.stage case Build => 0 case Get => 1 case Create => 2
  }

  lemma FurtherOnIsLess(t: Inner, t': Inner)
    requires t'.cluster == t.cluster && t'.entry == t.entry && t'.wait == t.wait == |WaitsOf(t)|
    requires !t.failed && t.k < |RolesOf(t)| && t'.k <= |RolesOf(t)| && (t'.failed || Place(t') > Place(t))
    ensures InnerWork(t') < InnerWork(t)
  {
    hide Roles, Waits;
  }

  lemma StepGoesOn(s: State, t: Inner, choice: Choice)
    requires RunEnabled(s, t, choice) && InnerOk(s, t, NOBODY) && t.wait == |WaitsOf(t)|
    ensures var t' := AfterStep(s, t, choice);
      && t'.cluster == t.cluster && t'.entry == t.entry && t'.wait == t.wait && t'.k <= |RolesOf(t)|
      && !t.failed && t.k < |RolesOf(t)| && (t'.failed || Place(t') > Place(t))
  {
    assert IsMinioSecret(RolesOf(t)[t.k]) || RolesOf(t)[t.k] == TenantRole ==> |RolesOf(t)| == 3;
    hide Roles, Waits, Desired, Fits, ObjCredsOk, CredsOk, Stored;
  }

  lemma CreateKeepsDeficits(s: State, s': State, f: Cluster)
    requires s'.ready == s.ready && Extends(s, s') && StoreOver(s'.store, f)
    ensures Deficits(s'.store, s'.ready, f.id, AskedBound(f)) <= Deficits(s.store, s.ready, f.id, AskedBound(f))
  {
    hide Asked, AskedBound;
    assert forall role :: Deficit(s'.store, s'.ready, Key(f.id, role), AskedBound(f))
                       <= Deficit(s.store, s.ready, Key(f.id, role), AskedBound(f));
  }

  lemma RunLessWork(s: State, f: Cluster, j: nat, choice: Choice)
    requires Steady(s, f) && RunsSmoothly(s, j, choice)
    ensures WorkLeft(ApplyRun(s, j, choice), f) < WorkLeft(s, f)
  {
    assert InnerOk(s, s.inners[j], NOBODY);
    RunDoesWork(s, s.inners[j], choice);
    InnersWorkUpdate(s.inners, j, AfterRun(s, s.inners[j], choice));
    RunStaysOver(s, f, j, choice);
    RunExtendsStep(s, j, choice);
    CreateKeepsDeficits(s, ApplyRun(s, j, choice), f);
    hide AfterRun, NewReplicas, Accepts, Deficits, InnerWork, Inv;
  }

  lemma TryLockLessWork(s: State, f: Cluster, i: nat)
    requires i < |s.outers| && s.outers[i].pc == Trying
    ensures WorkLeft(ApplyTryLock(s, i), f) < WorkLeft(s, f)
  {
    var s' := ApplyTryLock(s, i);
    OutersWorkUpdate(s.outers, i, s'.outers[i]);
  }

  lemma LaunchLessWork(s: State, f: Cluster, i: nat)
    requires i < |s.outers| && s.outers[i].pc == Holding
    ensures WorkLeft(ApplyLaunch(s, i), f) < WorkLeft(s, f)
  {
    var s' := ApplyLaunch(s, i);
    OutersWorkUpdate(s.outers, i, s'.outers[i]);
    InnersWorkAppend(s.inners, Launchee(s.outers[i]));
  }

  lemma UnlockLessWork(s: State, f: Cluster, i: nat)
    requires i < |s.outers| && s.outers[i].pc == Launched
    ensures WorkLeft(ApplyUnlock(s, i), f) < WorkLeft(s, f)
  {
    var s' := ApplyUnlock(s, i);
    OutersWorkUpdate(s.outers, i, s'.outers[i]);
  }

  lemma ReadyDeficit(store: map<Key, Obj>, ready: map<Key, nat>, k: Key, l: Key, bound: nat)
    requires k in store && (if k in ready then ready[k] else 0) < Asked(store[k])
    ensures Deficit(store, ready[k := (if k in ready then ready[k] else 0) + 1], l, bound)
      == Deficit(store, ready, l, bound) - if l == k then 1 else 0
  {
  }

  lemma OnlyAwaitedAsk(role: Role, o: Obj)
    requires Fits(role, o) && Asked(o) > 0
    ensures role in {PgRole, ZkRole, TenantRole, HdfsRole, MetastoreRole}
  {
  }

  /** The deficits fall by one when one more replica is ready of an object that can be awaited. */
  lemma DeficitsFall(store: map<Key, Obj>, ready: map<Key, nat>, k: Key, bound: nat)
    requires k in store && (if k in ready then ready[k] else 0) < Asked(store[k])
    requires k.role in {PgRole, ZkRole, TenantRole, HdfsRole, MetastoreRole}
    ensures Deficits(store, ready[k := (if k in ready then ready[k] else 0) + 1], k.id, bound) == Deficits(store, ready, k.id, bound) - 1
  {
    hide Deficit, Asked;
    ReadyDeficit(store, ready, k, Key(k.id, PgRole), bound);
    ReadyDeficit(store, ready, k, Key(k.id, ZkRole), bound);
    ReadyDeficit(store, ready, k, Key(k.id, TenantRole), bound);
    ReadyDeficit(store, ready, k, Key(k.id, HdfsRole), bound);
    ReadyDeficit(store, ready, k, Key(k.id, MetastoreRole), bound);
  }

  lemma ReadyLessWork(s: State, f: Cluster, k: Key)
    requires Steady(s, f) && k in s.store && ReadyCount(s, k) < Asked(s.store[k])
    ensures WorkLeft(s.(ready := s.ready[k := ReadyCount(s, k) + 1]), f) < WorkLeft(s, f)
  {
    assert ContentOk(s, k, NOBODY) && k.id == f.id;
    OnlyAwaitedAsk(k.role, s.store[k]);
    hide Deficits, Asked, AskedBound, OutersWork, InnersWork, Inv, Over;
    DeficitsFall(s.store, s.ready, k, AskedBound(f));
  }

  lemma StepLessWork(s: State, f: Cluster, e: Event)
    requires Steady(s, f) && Enabled(s, e) && Smooth(f, e) && !e.Pass?
    ensures WorkLeft(Apply(s, e), f) < WorkLeft(s, f)
  {
    hide Steady, WorkLeft;
    match e
    case TryLock(i) => TryLockLessWork(s, f, i);
    case Launch(i) => LaunchLessWork(s, f, i);
    case Unlock(i) => UnlockLessWork(s, f, i);
    case Run(j, choice) => RunLessWork(s, f, j, choice);
    case BecomeReady(k) => ReadyLessWork(s, f, k);
  }

  /** Without a new pass a smooth run has at most WorkLeft steps, whatever the cluster. */
  lemma {:induction false} RunsAreShort(s: State, f: Cluster, events: seq<Event>)
    requires Steady(s, f) && IsRun(s, events) && AllSmooth(f, events) && NoPass(events)
    ensures |events| + WorkLeft(EndOf(s, events), f) <= WorkLeft(s, f)
    decreases |events|
  {
    hide Steady, WorkLeft;
    if events != [] {
      var e, rest := events[0], events[1..];
      StepLessWork(s, f, e);
      StepStaysSteady(s, f, e);
      RunsAreShort(Apply(s, e), f, rest);
      assert EndOf(s, events) == EndOf(Apply(s, e), rest);
    }
  }

  // ---------------------------------------------------------------- where nothing is left to do

  /** The step locks the mutex for an entry that is to sleep. */
  predicate Wakes(s: State, asleep: set<ClusterInfo>, e: Event) {
    e.TryLock? && e.i < |s.outers| && s.outers[e.i].entry in asleep
  }

  /** No goroutine can move, those of sleeping entries apart, and no replica is still to become ready.
      A time limit may yet be reached: there may be name nodes without addresses, and then it is not. */
  ghost predicate QuiescentBut(s: State, asleep: set<ClusterInfo>) {
    forall e :: Prompt(e) && !e.Pass? && !Wakes(s, asleep, e) ==> !Enabled(s, e)
  }

  ghost predicate Quiescent(s: State) {
    QuiescentBut(s, {})
  }

  /** A run that wakes no sleeping entry. */
  predicate LetsSleep(s: State, asleep: set<ClusterInfo>, events: seq<Event>)
    requires IsRun(s, events)
    decreases |events|
  {
    events == [] || (!Wakes(s, asleep, events[0]) && LetsSleep(Apply(s, events[0]), asleep, events[1..]))
  }

  predicate AllPrompt(events: seq<Event>) {
    forall i :: 0 <= i < |events| ==> Prompt(events[i])
  }

  lemma RunCons(s: State, e: Event, rest: seq<Event>)
    requires Enabled(s, e) && IsRun(Apply(s, e), rest)
    ensures IsRun(s, [e] + rest) && EndOf(s, [e] + rest) == EndOf(Apply(s, e), rest)
    ensures forall asleep :: LetsSleep(s, asleep, [e] + rest) <==> !Wakes(s, asleep, e) && LetsSleep(Apply(s, e), asleep, rest)
  {
    assert ([e] + rest)[1..] == rest;
  }

  /** Every random draw gives these credentials. */
  predicate Draws(events: seq<Event>, creds: Creds) {
    forall i :: 0 <= i < |events| && events[i].Run? && events[i].choice.Random? ==> events[i].choice.creds == creds
  }

  lemma AnyDrawWillDo(s: State, j: nat, drawn: Creds, creds: Creds)
    requires Enabled(s, Run(j, Random(drawn)))
    ensures Enabled(s, Run(j, Random(creds)))
  {
    hide Waits, Roles;
  }

  /** From every such state some steps, drawing what one likes, lead to where nothing is left to do. */
  lemma {:induction false} CanFinish(s: State, f: Cluster, asleep: set<ClusterInfo>, creds: Creds) returns (events: seq<Event>)
    requires Steady(s, f)
    ensures IsRun(s, events) && AllSmooth(f, events) && AllPrompt(events) && NoPass(events) && Draws(events, creds)
    ensures LetsSleep(s, asleep, events) && QuiescentBut(EndOf(s, events), asleep)
    decreases WorkLeft(s, f)
  {
    hide Steady, WorkLeft, Enabled, Apply;
    if QuiescentBut(s, asleep) {
      events := [];
    } else {
      var e :| Prompt(e) && !e.Pass? && !Wakes(s, asleep, e) && Enabled(s, e);
      if e.Run? && e.choice.Random? {
        AnyDrawWillDo(s, e.j, e.choice.creds, creds);
        e := Run(e.j, Random(creds));
      }
      StepLessWork(s, f, e);
      StepStaysSteady(s, f, e);
      var rest := CanFinish(Apply(s, e), f, asleep, creds);
      events := [e] + rest;
      RunCons(s, e, rest);
    }
  }
}
