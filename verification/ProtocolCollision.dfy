/** What a collision of lock names costs: one cluster's goroutine makes another cluster's TryLock fail, and
    the other's component is missed in that pass. */
module ProtocolCollision {
  import opened Text
  import opened Clusters
  import opened Protocol
  import opened ProtocolSafety
  import opened Coverage
  import opened ProtocolTermination
  import opened ProtocolStarvation
  import opened ProtocolLimits
  import opened ProtocolConverse
  import opened LockTable

  /** The state after a pass over each of two clusters. */
  function BothPassed(c: Cluster, d: Cluster): State {
    SpawnUpTo(Passed(c), d, |d.clusterSet|)
  }

  /** Outer goroutine k belongs to an entry of one of the two. */
  predicate OfEither(s: State, k: nat, c: Cluster, d: Cluster) {
    var n := |c.clusterSet|;
    if k < n then SpawnedAt(s, k, c, k) else SpawnedAt(s, k, d, k - n)
  }

  lemma BothPassedRun(c: Cluster, d: Cluster)
    requires Completed(c) && Completed(d)
    ensures IsRun(INIT, [Pass(c), Pass(d)]) && EndOf(INIT, [Pass(c), Pass(d)]) == BothPassed(c, d)
  {
    PassedIsFresh(c);
    PassedIsFresh(d);
    hide Completed, SpawnUpTo, LockName, Filled;
    RunSnoc(INIT, [Pass(c)], Pass(d));
    assert [Pass(c)] + [Pass(d)] == [Pass(c), Pass(d)];
  }

  lemma BothPassedIsFresh(c: Cluster, d: Cluster)
    requires Completed(c) && Completed(d)
    ensures var s := BothPassed(c, d);
      && Fresh(s) && LocksOk(s) && s.ready == map[] && |s.outers| == |c.clusterSet| + |d.clusterSet|
      && forall k :: 0 <= k < |s.outers| ==> OfEither(s, k, c, d)
  {
    PassedIsFresh(c);
    hide Completed, SpawnUpTo, LockName, Fresh, LocksOk, Passed, OfEither;
    var p := Passed(c);
    FreshPass(p, d, |d.clusterSet|);
    PassKeepsLocks(p, d, |d.clusterSet|);
    SpawnExtends(p, d, |d.clusterSet|);
    SpawnedByPass(p, d, |d.clusterSet|, 0);
    forall k | 0 <= k < |BothPassed(c, d).outers| ensures OfEither(BothPassed(c, d), k, c, d) {
      SpawnedOfEither(p, c, d, k);
    }
  }

  lemma SpawnedOfEither(p: State, c: Cluster, d: Cluster, k: nat)
    requires |p.outers| == |c.clusterSet| && k < |c.clusterSet| + |d.clusterSet|
    requires k < |c.clusterSet| ==> SpawnedAt(p, k, c, k)
    ensures OfEither(SpawnUpTo(p, d, |d.clusterSet|), k, c, d)
  {
    hide SpawnUpTo;
    SpawnedByPass(p, d, |d.clusterSet|, if k < |c.clusterSet| then 0 else k - |c.clusterSet|);
  }

  lemma SameNameSameMutex(s: State, i: nat, k: nat)
    requires LocksOk(s) && i < |s.outers| && k < |s.outers|
    requires LockName(s.outers[i].cluster.id, s.outers[i].entry.typ) == LockName(s.outers[k].cluster.id, s.outers[k].entry.typ)
    ensures s.outers[i].mutex == s.outers[k].mutex
  {
    assert OuterOk(s, i) && OuterOk(s, k);
    hide LockName;
  }

  lemma NoPassIsAdmitted(s: State, f: Cluster, fam: Famine, events: seq<Event>)
    requires IsRun(s, events) && NoPass(events) && !fam.patient
    ensures AllAdmitted(s, f, fam, events)
    decreases |events|
  {
    if events != [] {
      NoPassIsAdmitted(Apply(s, events[0]), f, fam, events[1..]);
    }
  }

  /** The run: a pass over each cluster, and c's goroutine takes the mutex before d's try it. */
  lemma CollidingRun(c: Cluster, i: nat, d: Cluster, t: ClusterType) returns (events: seq<Event>)
    requires Completed(c) && Completed(d) && c.id != d.id && i < |c.clusterSet| && Launches(t)
    requires LockName(c.id, c.clusterSet[i].typ) == LockName(d.id, t)
    ensures IsRun(INIT, events) && forall k :: 0 <= k < |events| ==> events[k].Pass? || events[k].TryLock?
    ensures Starved(EndOf(INIT, events), d, Famine({MainRole(t)}, false, false, false, false))
  {
    hide Completed, LockName, BothPassed;
    BothPassedRun(c, d);
    BothPassedIsFresh(c, d);
    var s := BothPassed(c, d);
    assert OfEither(s, i, c, d);
    RunSnoc(INIT, [Pass(c), Pass(d)], TryLock(i));
    var rest := LoseAll(ApplyTryLock(s, i), i, |s.outers|);
    RunConcat(INIT, [Pass(c), Pass(d)] + [TryLock(i)], rest);
    events := [Pass(c), Pass(d)] + [TryLock(i)] + rest;
    LosersStarve(s, c, i, d, t);
  }

  lemma LosersStarve(s: State, c: Cluster, i: nat, d: Cluster, t: ClusterType)
    requires Fresh(s) && LocksOk(s) && s.ready == map[] && i < |c.clusterSet| <= |s.outers| && c.id != d.id && Launches(t)
    requires forall k :: 0 <= k < |s.outers| ==> OfEither(s, k, c, d)
    requires LockName(c.id, c.clusterSet[i].typ) == LockName(d.id, t)
    ensures Starved(Beaten(ApplyTryLock(s, i), i, |s.outers|), d, Famine({MainRole(t)}, false, false, false, false))
  {
    hide LockName, Waits, Barred, LocksOk, Roles, Harmless;
    assert MakerOf(MainRole(t)) == t;
    var fam := Famine({MainRole(t)}, false, false, false, false);
    var z := Beaten(ApplyTryLock(s, i), i, |s.outers|);
    assert OfEither(s, i, c, d);
    forall k | 0 <= k < |z.outers| ensures OuterStarved(d, fam, z.outers[k]) {
      assert OfEither(s, k, c, d);
      if k >= |c.clusterSet| {
        if s.outers[k].entry.typ == t {
          SameNameSameMutex(s, i, k);
        } else {
          StrangerIsHarmless(d, fam, s.outers[k].entry);
        }
      }
    }
  }

  /** Two clusters whose names collide for some component: there is a run without a failing call after
      which, until the next pass, nothing that happens creates the second cluster's component. */
  lemma CollisionMissesAComponent(c: Cluster, i: nat, d: Cluster, t: ClusterType) returns (events: seq<Event>)
    requires Completed(c) && Completed(d) && c.id != d.id && i < |c.clusterSet| && Launches(t)
    requires LockName(c.id, c.clusterSet[i].typ) == LockName(d.id, t)
    ensures IsRun(INIT, events) && forall k :: 0 <= k < |events| ==> events[k].Pass? || events[k].TryLock?
    ensures forall after :: IsRun(EndOf(INIT, events), after) && NoPass(after) ==>
      !Stored(EndOf(EndOf(INIT, events), after), d.id, MainRole(t))
  {
    hide Starved, Completed, LockName, NoPass;
    events := CollidingRun(c, i, d, t);
    var s := EndOf(INIT, events);
    var fam := Famine({MainRole(t)}, false, false, false, false);
    forall after | IsRun(s, after) && NoPass(after) ensures !Stored(EndOf(s, after), d.id, MainRole(t)) {
      NoPassIsAdmitted(s, d, fam, after);
      StarvedForEver(s, d, fam, after);
      DeadIsNotStored(EndOf(s, after), d, fam, MainRole(t));
    }
  }

  lemma DeadIsNotStored(s: State, f: Cluster, fam: Famine, role: Role)
    requires Starved(s, f, fam) && role in fam.dead
    ensures !Stored(s, f.id, role)
  {
  }

  /** Clusters in namespaces a-b and a can collide on every component. */
  lemma HyphensMissAComponent(c: Cluster, i: nat, d: Cluster) returns (events: seq<Event>)
    requires Completed(c) && Completed(d) && c.id == Ident("a-b", "c") && d.id == Ident("a", "b-c")
    requires i < |c.clusterSet| && Launches(c.clusterSet[i].typ)
    ensures IsRun(INIT, events) && forall k :: 0 <= k < |events| ==> events[k].Pass? || events[k].TryLock?
    ensures forall after :: IsRun(EndOf(INIT, events), after) && NoPass(after) ==>
      !Stored(EndOf(EndOf(INIT, events), after), d.id, MainRole(c.clusterSet[i].typ))
  {
    HyphenatedNamespacesCollide(c.clusterSet[i].typ);
    assert c.id.ns != d.id.ns;
    hide Completed, LockName, NoPass, IsRun, EndOf;
    events := CollisionMissesAComponent(c, i, d, c.clusterSet[i].typ);
  }
}
