/** What the mutexes of the reconcile protocol do not give: they do not keep two goroutines of a component
    apart, and they can keep a component from being reconciled at all. */
module ProtocolLimits {
  import opened Text
  import opened Clusters
  import opened Protocol
  import opened ProtocolSafety

  // ---------------------------------------------------------------- goroutines of one component overlap

  /** Only passes so far: outer goroutines wait for their mutexes, which are all free. */
  predicate Fresh(s: State) {
    && s.inners == [] && s.store == map[]
    && (forall m :: 0 <= m < |s.mutexes| ==> s.mutexes[m].None?)
    && (forall n :: n in s.locks ==> s.locks[n] < |s.mutexes|)
    && (forall i :: 0 <= i < |s.outers| ==> s.outers[i].mutex < |s.mutexes| && s.outers[i].pc == Trying)
  }

  lemma FreshSpawn(s: State, f: Cluster, v: ClusterInfo)
    requires Fresh(s)
    ensures Fresh(Spawn(s, f, v))
  {
    var t := Spawn(s, f, v);
    assert forall n :: n in s.locks ==> n in t.locks && t.locks[n] == s.locks[n];
  }

  lemma {:induction false} FreshPass(s: State, f: Cluster, n: nat)
    requires Fresh(s) && n <= |f.clusterSet|
    ensures Fresh(SpawnUpTo(s, f, n))
  {
    if n > 0 {
      FreshPass(s, f, n - 1);
      FreshSpawn(SpawnUpTo(s, f, n - 1), f, f.clusterSet[n - 1]);
    }
  }

  /** Goroutine j is about to create an object it did not find. */
  predicate AboutToCreate(s: State, j: nat, k: Key) {
    && j < |s.inners| && k !in s.store
    && !Done(s.inners[j]) && s.inners[j].wait >= |WaitsOf(s.inners[j])|
    && s.inners[j].stage == Create && s.inners[j].missing && s.inners[j].desired.Some?
    && k == Key(s.inners[j].cluster.id, RolesOf(s.inners[j])[s.inners[j].k])
  }

  /** TryLock, Launch and Unlock of one outer goroutine with nobody in its way. */
  lemma LaunchFreely(before: seq<Event>, i: nat) returns (events: seq<Event>)
    requires IsRun(INIT, before)
    requires var s := EndOf(INIT, before); i < |s.outers| && s.outers[i].pc == Trying && MutexFree(s, s.outers[i].mutex)
    requires Launches(EndOf(INIT, before).outers[i].entry.typ)
    ensures IsRun(INIT, events)
    ensures var s, t := EndOf(INIT, before), EndOf(INIT, events);
      && t.inners == s.inners + [Launchee(s.outers[i])] && t.store == s.store
      && t.mutexes == s.mutexes && |t.outers| == |s.outers|
      && (forall k :: 0 <= k < |s.outers| && k != i ==> t.outers[k] == s.outers[k])
  {
    var s := EndOf(INIT, before);
    RunSnoc(INIT, before, TryLock(i));
    RunSnoc(INIT, before + [TryLock(i)], Launch(i));
    RunSnoc(INIT, before + [TryLock(i)] + [Launch(i)], Unlock(i));
    events := before + [TryLock(i)] + [Launch(i)] + [Unlock(i)];
    assert EndOf(INIT, events).mutexes == s.mutexes;
  }

  /** A database goroutine builds its first secret and does not find it. */
  lemma FindMissing(before: seq<Event>, j: nat) returns (events: seq<Event>)
    requires IsRun(INIT, before)
    requires var s := EndOf(INIT, before);
      j < |s.inners| && s.inners[j].entry.typ == Database && IsPostgres(s.inners[j].entry)
      && s.inners[j] == FirstState(s.inners[j].cluster, s.inners[j].entry)
      && Key(s.inners[j].cluster.id, PgInitRole) !in s.store
    ensures IsRun(INIT, events)
    ensures var s, t := EndOf(INIT, before), EndOf(INIT, events);
      && t.store == s.store && |t.inners| == |s.inners| && t.inners == s.inners[j := t.inners[j]]
      && AboutToCreate(t, j, Key(s.inners[j].cluster.id, PgInitRole))
  {
    RunSnoc(INIT, before, Run(j, Ok));
    RunSnoc(INIT, before + [Run(j, Ok)], Run(j, Ok));
    events := before + [Run(j, Ok)] + [Run(j, Ok)];
  }

  lemma TwoPasses(c: Cluster, i: nat) returns (events: seq<Event>)
    requires PassCluster(c).Some? && i < |PassCluster(c).value.clusterSet|
    ensures IsRun(INIT, events) && Fresh(EndOf(INIT, events))
    ensures var f := PassCluster(c).value;
      SpawnedAt(EndOf(INIT, events), i, f, i) && SpawnedAt(EndOf(INIT, events), |f.clusterSet| + i, f, i)
  {
    hide FilledKind, Filled;
    var f := PassCluster(c).value;
    var n := |f.clusterSet|;
    assert IsRun(INIT, []);
    RunSnoc(INIT, [], Pass(c));
    var one := [] + [Pass(c)];
    var s := EndOf(INIT, one);
    assert s == SpawnUpTo(INIT, f, n);
    FreshPass(INIT, f, n);
    SpawnedByPass(INIT, f, n, i);
    RunSnoc(INIT, one, Pass(c));
    events := one + [Pass(c)];
    assert EndOf(INIT, events) == SpawnUpTo(s, f, n);
    FreshPass(s, f, n);
    SpawnedByPass(s, f, n, i);
  }

  /** Each of two passes gets its goroutine for the entry launched. */
  lemma LaunchBoth(c: Cluster, i: nat) returns (events: seq<Event>)
    requires PassCluster(c).Some? && i < |PassCluster(c).value.clusterSet|
    requires Launches(PassCluster(c).value.clusterSet[i].typ)
    ensures IsRun(INIT, events)
    ensures var f, s := PassCluster(c).value, EndOf(INIT, events);
      && s.store == map[] && |s.inners| == 2
      && s.inners[0] == FirstState(f, f.clusterSet[i]) && s.inners[1] == FirstState(f, f.clusterSet[i])
  {
    hide PassCluster, Fresh, IsRun, EndOf;
    var n := |PassCluster(c).value.clusterSet|;
    var passes := TwoPasses(c, i);
    FreshOuters(EndOf(INIT, passes));
    var one := LaunchFreely(passes, i);
    events := LaunchFreely(one, n + i);
  }

  function FirstState(f: Cluster, v: ClusterInfo): Inner {
    Launchee(Outer(f, v, 0, Trying))
  }

  /** Two passes over any cluster with a postgres entry can bring two goroutines of the same entry
      to the point of creating the same missing secret, although each held the mutex in turn: that it
      is created once is the API server's doing. */
  lemma MutexDoesNotExcludeReconciles(c: Cluster, i: nat) returns (events: seq<Event>)
    requires PassCluster(c).Some? && i < |PassCluster(c).value.clusterSet|
    requires PassCluster(c).value.clusterSet[i].typ == Database && IsPostgres(PassCluster(c).value.clusterSet[i])
    ensures IsRun(INIT, events)
    ensures AboutToCreate(EndOf(INIT, events), 0, Key(c.id, PgInitRole))
    ensures AboutToCreate(EndOf(INIT, events), 1, Key(c.id, PgInitRole))
  {
    PassKeepsId(c);
    var two := LaunchBoth(c, i);
    hide PassCluster, AboutToCreate, IsRun, EndOf;
    var three := FindMissing(two, 0);
    events := FindMissing(three, 1);
    StillAboutToCreate(EndOf(INIT, three), EndOf(INIT, events), 0, Key(c.id, PgInitRole));
  }

  lemma PassKeepsId(c: Cluster)
    requires PassCluster(c).Some?
    ensures PassCluster(c).value.id == c.id
  {
  }

  lemma FreshOuters(s: State)
    requires Fresh(s)
    ensures s.inners == [] && s.store == map[]
    ensures forall i :: 0 <= i < |s.outers| ==> s.outers[i].pc == Trying && MutexFree(s, s.outers[i].mutex)
  {
  }

  lemma StillAboutToCreate(s: State, t: State, j: nat, k: Key)
    requires AboutToCreate(s, j, k) && t.store == s.store && j < |t.inners| && t.inners[j] == s.inners[j]
    ensures AboutToCreate(t, j, k)
  {
  }
}
