/** The converse of progress: a cluster that is not covered has a smooth run that ends, with nothing left
    to do, without one of its components. */
module ProtocolConverse {
  import opened Text
  import opened Clusters
  import opened Protocol
  import opened ProtocolSafety
  import opened Coverage
  import opened ProtocolTermination
  import opened ProtocolProgress
  import opened ProtocolOutcome
  import opened ProtocolStarvation
  import opened ProtocolLimits
  import opened ProtocolHistory

  /** A smooth run with a pass that comes to its end and leaves a component out. */
  ghost predicate Misses(f: Cluster, events: seq<Event>) {
    && IsRun(INIT, events) && AllSmooth(f, events) && !NoPass(events)
    && Quiescent(EndOf(INIT, events)) && !AllCreated(EndOf(INIT, events), f)
  }

  // ---------------------------------------------------------------- one entry takes its type's mutex

  /** The outer goroutines of h's mutex, up to the n-th, have tried it while h held it. */
  function BeatenOuters(outers: seq<Outer>, h: nat, n: nat): (r: seq<Outer>)
    requires h < |outers|
    ensures |r| == |outers|
  {
    seq(|outers|, k requires 0 <= k < |outers| =>
      if k < n && k != h && outers[k].mutex == outers[h].mutex && outers[k].pc == Trying then outers[k].(pc := Finished(false))
      else outers[k])
  }

  function Beaten(s: State, h: nat, n: nat): State
    requires h < |s.outers|
  {
    s.(outers := BeatenOuters(s.outers, h, n))
  }

  predicate OnlyTries(events: seq<Event>) {
    forall i :: 0 <= i < |events| ==> events[i].TryLock?
  }

  lemma {:induction false} LoseAll(s: State, h: nat, n: nat) returns (events: seq<Event>)
    requires h < |s.outers| && n <= |s.outers| && s.outers[h].pc != Trying
    requires s.outers[h].mutex < |s.mutexes| && s.mutexes[s.outers[h].mutex].Some?
    ensures OnlyTries(events) && IsRun(s, events) && EndOf(s, events) == Beaten(s, h, n)
  {
    if n == 0 {
      events := [];
      assert BeatenOuters(s.outers, h, 0) == s.outers;
    } else {
      events := LoseAll(s, h, n - 1);
      var t := Beaten(s, h, n - 1);
      var o := s.outers[n - 1];
      if n - 1 != h && o.mutex == s.outers[h].mutex && o.pc == Trying {
        RunSnoc(s, events, TryLock(n - 1));
        events := events + [TryLock(n - 1)];
        assert BeatenOuters(s.outers, h, n) == t.outers[n - 1 := o.(pc := Finished(false))];
      } else {
        assert BeatenOuters(s.outers, h, n) == t.outers;
      }
    }
  }

  /** The state after one pass over the cluster. */
  function Passed(f: Cluster): State {
    SpawnUpTo(INIT, f, |f.clusterSet|)
  }

  lemma PassedIsFresh(f: Cluster)
    requires Completed(f)
    ensures PassCluster(f) == Some(f)
    ensures IsRun(INIT, [Pass(f)]) && EndOf(INIT, [Pass(f)]) == Passed(f)
    ensures Fresh(Passed(f)) && LocksOk(Passed(f)) && |Passed(f).outers| == |f.clusterSet|
    ensures forall i :: 0 <= i < |f.clusterSet| ==> SpawnedAt(Passed(f), i, f, i)
    ensures Passed(f).ready == map[]
  {
    hide Filled;
    RunOne(INIT, Pass(f));
    FreshPass(INIT, f, |f.clusterSet|);
    PassKeepsLocks(INIT, f, |f.clusterSet|);
    SpawnExtends(INIT, f, |f.clusterSet|);
    forall i | 0 <= i < |f.clusterSet| ensures SpawnedAt(Passed(f), i, f, i) {
      SpawnedByPass(INIT, f, |f.clusterSet|, i);
    }
    SpawnedByPass(INIT, f, |f.clusterSet|, 0);
  }

  lemma SameTypeSameMutex(s: State, i: nat, k: nat)
    requires LocksOk(s) && i < |s.outers| && k < |s.outers|
    requires s.outers[i].cluster.id == s.outers[k].cluster.id && s.outers[i].entry.typ == s.outers[k].entry.typ
    ensures s.outers[i].mutex == s.outers[k].mutex
  {
    assert OuterOk(s, i) && OuterOk(s, k);
    hide LockName;
  }

  /** The run in which entry i alone gets its type's mutex. */
  lemma MonopolyRun(f: Cluster, i: nat) returns (events: seq<Event>)
    requires Completed(f) && i < |f.clusterSet|
    ensures IsRun(INIT, events) && AllSmooth(f, events) && !NoPass(events)
    ensures var s := EndOf(INIT, events);
      && s.inners == [] && s.store == map[] && s.ready == map[] && |s.outers| == |f.clusterSet|
      && (forall k :: 0 <= k < |s.outers| ==> s.outers[k].cluster == f && s.outers[k].entry == f.clusterSet[k])
      && (forall k :: 0 <= k < |s.outers| && k != i && f.clusterSet[k].typ == f.clusterSet[i].typ ==> s.outers[k].pc == Finished(false))
  {
    hide Completed, LockName, SpawnUpTo;
    PassedIsFresh(f);
    var s := Passed(f);
    assert SpawnedAt(s, i, f, i);
    var t := ApplyTryLock(s, i);
    RunSnoc(INIT, [Pass(f)], TryLock(i));
    var two := [Pass(f)] + [TryLock(i)];
    var rest := LoseAll(t, i, |t.outers|);
    RunConcat(INIT, two, rest);
    events := two + rest;
    assert events[0] == Pass(f);
    forall k | 0 <= k < |s.outers|
      ensures t.outers[k].entry == f.clusterSet[k] && t.outers[k].cluster == f
      ensures k != i ==> t.outers[k].pc == Trying
      ensures f.clusterSet[k].typ == f.clusterSet[i].typ ==> t.outers[k].mutex == t.outers[i].mutex
    {
      assert SpawnedAt(s, k, f, k);
      if f.clusterSet[k].typ == f.clusterSet[i].typ {
        SameTypeSameMutex(s, i, k);
      }
    }
  }

  // ---------------------------------------------------------------- from a famine to a quiet end

  lemma SmoothIsBeside(f: Cluster, events: seq<Event>)
    requires AllSmooth(f, events)
    ensures PassesOverOrBeside(f, events)
  {
  }

  /** From a famine the run can be brought to its end, which lacks what the famine keeps away. */
  lemma StarvedFinish(f: Cluster, fam: Famine, before: seq<Event>, v: ClusterInfo) returns (events: seq<Event>)
    requires IsRun(INIT, before) && AllSmooth(f, before) && !NoPass(before)
    requires Starved(EndOf(INIT, before), f, fam)
    requires v in f.clusterSet && Launches(v.typ) && MainRole(v.typ) in fam.dead
    ensures Misses(f, events)
  {
    hide Steady, AllSmooth, NoPass, QuiescentBut, Waits;
    InitIsSteady(f);
    RunsStaySteady(INIT, f, before);
    var mid := EndOf(INIT, before);
    var after := CanFinish(mid, f, {}, NO_CREDS);
    AdmittedAfter(mid, f, fam, after);
    StarvedForEver(mid, f, fam, after);
    SmoothConcat(f, before, after);
    events := before + after;
    StarvedLacks(EndOf(mid, after), f, fam, v);
  }

  lemma AdmittedAfter(s: State, f: Cluster, fam: Famine, events: seq<Event>)
    requires IsRun(s, events) && AllPrompt(events) && NoPass(events)
    ensures AllAdmitted(s, f, fam, events)
  {
    PromptIsAdmitted(s, f, fam, events);
  }

  lemma StarvedLacks(s: State, f: Cluster, fam: Famine, v: ClusterInfo)
    requires Starved(s, f, fam) && v in f.clusterSet && Launches(v.typ) && MainRole(v.typ) in fam.dead
    ensures !AllCreated(s, f)
  {
    hide Waits, InnerStarved, OuterStarved;
  }

  /** One entry that does not end a famine can keep all others of its type from doing so. */
  lemma MonopolyMisses(f: Cluster, i: nat, fam: Famine, v: ClusterInfo) returns (events: seq<Event>)
    requires Completed(f) && i < |f.clusterSet| && !fam.shortMetastore
    requires Harmless(f, fam, f.clusterSet[i])
    requires forall k :: 0 <= k < |f.clusterSet| && f.clusterSet[k].typ != f.clusterSet[i].typ ==> Harmless(f, fam, f.clusterSet[k])
    requires v in f.clusterSet && Launches(v.typ) && MainRole(v.typ) in fam.dead
    ensures Misses(f, events)
  {
    hide Completed, Harmless, Misses;
    var before := MonopolyRun(f, i);
    var s := EndOf(INIT, before);
    forall k | 0 <= k < |s.outers| ensures OuterStarved(f, fam, s.outers[k]) {
      assert k != i && f.clusterSet[k].typ == f.clusterSet[i].typ ==> s.outers[k].pc == Finished(false);
    }
    events := StarvedFinish(f, fam, before, v);
  }

  // ---------------------------------------------------------------- an entry that is not provided

  lemma UnprovidedMisses(f: Cluster, i: nat) returns (events: seq<Event>)
    requires Completed(f) && i < |f.clusterSet| && !EntryProvided(f, f.clusterSet[i])
    ensures Misses(f, events)
  {
    var v := f.clusterSet[i];
    if v.typ == Database && !IsPostgres(v) {
      events := NoPostgresMisses(f, i);
    } else if v.typ == Doris && !FindsFEAndBE(f, v) {
      events := NoFEAndBEMisses(f, i);
    } else if v.typ == Hdfs && NamenodeHA(f, v) && !Lists(f.clusterSet, Zookeeper) {
      events := NoZookeeperMisses(f, i);
    } else {
      events := NoNameNodesMisses(f, i);
    }
  }

  lemma NoPostgresMisses(f: Cluster, i: nat) returns (events: seq<Event>)
    requires Completed(f) && i < |f.clusterSet| && f.clusterSet[i].typ == Database && !IsPostgres(f.clusterSet[i])
    ensures Misses(f, events)
  {
    hide Completed, Misses, Waits, Barred;
    var fam := Famine({PgRole}, false, false, false, false);
    assert Harmless(f, fam, f.clusterSet[i]);
    hide Harmless, Roles;
    forall k | 0 <= k < |f.clusterSet| && f.clusterSet[k].typ != Database ensures Harmless(f, fam, f.clusterSet[k]) {
      StrangerIsHarmless(f, fam, f.clusterSet[k]);
    }
    events := MonopolyMisses(f, i, fam, f.clusterSet[i]);
  }

  lemma NoFEAndBEMisses(f: Cluster, i: nat) returns (events: seq<Event>)
    requires Completed(f) && i < |f.clusterSet| && f.clusterSet[i].typ == Doris && !FindsFEAndBE(f, f.clusterSet[i])
    ensures Misses(f, events)
  {
    hide Completed, Misses, Waits, Barred, FindsFEAndBE;
    var fam := Famine({DorisRole}, false, false, false, false);
    assert Harmless(f, fam, f.clusterSet[i]);
    hide Harmless, Roles;
    forall k | 0 <= k < |f.clusterSet| && f.clusterSet[k].typ != Doris ensures Harmless(f, fam, f.clusterSet[k]) {
      StrangerIsHarmless(f, fam, f.clusterSet[k]);
    }
    events := MonopolyMisses(f, i, fam, f.clusterSet[i]);
  }

  lemma NoZookeeperMisses(f: Cluster, i: nat) returns (events: seq<Event>)
    requires Completed(f) && i < |f.clusterSet| && f.clusterSet[i].typ == Hdfs
    requires NamenodeHA(f, f.clusterSet[i]) && !Lists(f.clusterSet, Zookeeper)
    ensures Misses(f, events)
  {
    var fam := Famine({ZkRole, HdfsRole}, false, false, false, false);
    assert forall k :: 0 <= k < |f.clusterSet| ==> f.clusterSet[k].typ != Zookeeper;
    HdfsBarred(f, fam, f.clusterSet[i]);
    hide Completed, Misses, Waits, Barred, NamenodeHA, Lists, Roles;
    assert Harmless(f, fam, f.clusterSet[i]);
    hide Harmless;
    forall k | 0 <= k < |f.clusterSet| && f.clusterSet[k].typ != Hdfs ensures Harmless(f, fam, f.clusterSet[k]) {
      StrangerIsHarmless(f, fam, f.clusterSet[k]);
    }
    events := MonopolyMisses(f, i, fam, f.clusterSet[i]);
  }

  lemma HdfsBarred(f: Cluster, fam: Famine, v: ClusterInfo)
    requires v.typ == Hdfs && NamenodeHA(f, v) && ZkRole in fam.dead
    ensures Barred(f, fam, v)
  {
    assert Waits(f, v)[0] == Pods(ZkRole, ZK_REPLICAS);
    WaitsBar(f, fam, v, 0);
  }

  const HUNGRY_METASTORE := Famine({MetastoreRole}, true, false, true, false)

  lemma MetastoreBarred(f: Cluster, v: ClusterInfo)
    requires ClusterStorage(f) == HdfsStorage && v.typ == MetaStore
    ensures Barred(f, HUNGRY_METASTORE, v)
  {
    assert Waits(f, v)[2] == NameNodes(LastNameNodes(f.clusterSet));
    WaitsBar(f, HUNGRY_METASTORE, v, 2);
  }

  lemma NoNameNodesMisses(f: Cluster, i: nat) returns (events: seq<Event>)
    requires Completed(f) && i < |f.clusterSet| && f.clusterSet[i].typ == Hdfs
    requires ClusterStorage(f) == HdfsStorage && NameNodesAsked(f, f.clusterSet[i]) < 1
    ensures Misses(f, events)
  {
    var n := ListedAt(f, MetaStore);
    HungryHdfsIsHarmless(f, f.clusterSet[i]);
    hide Completed, Misses, Waits, Barred, NameNodesAsked, Lists, ClusterStorage, Roles, Harmless;
    forall k | 0 <= k < |f.clusterSet| && f.clusterSet[k].typ != Hdfs ensures Harmless(f, HUNGRY_METASTORE, f.clusterSet[k]) {
      if f.clusterSet[k].typ == MetaStore {
        HungryMetastoreIsHarmless(f, f.clusterSet[k]);
      } else {
        StrangerIsHarmless(f, HUNGRY_METASTORE, f.clusterSet[k]);
      }
    }
    events := MonopolyMisses(f, i, HUNGRY_METASTORE, f.clusterSet[n]);
  }

  lemma ListedAt(f: Cluster, t: ClusterType) returns (n: nat)
    requires Completed(f) && ProfileOf(f).Needs(t)
    ensures n < |f.clusterSet| && f.clusterSet[n].typ == t
  {
    CompletedLists(f, t);
    n :| 0 <= n < |f.clusterSet| && f.clusterSet[n].typ == t;
  }

  lemma HungryHdfsIsHarmless(f: Cluster, v: ClusterInfo)
    requires v.typ == Hdfs && NameNodesAsked(f, v) < 1
    ensures Harmless(f, HUNGRY_METASTORE, v)
  {
    RolesOfMaker(v);
    hide Roles, Barred, NameNodesAsked;
  }

  lemma HungryMetastoreIsHarmless(f: Cluster, v: ClusterInfo)
    requires ClusterStorage(f) == HdfsStorage && v.typ == MetaStore
    ensures Harmless(f, HUNGRY_METASTORE, v)
  {
    MetastoreBarred(f, v);
    RolesOfMaker(v);
    hide Roles, Barred, ClusterStorage;
  }

  // ---------------------------------------------------------------- metastore entries that disagree

  /** No famine at all: what it says of goroutines and readiness holds in every run. */
  const PLENTY := Famine({}, false, false, false, false)

  lemma RunsArePlain(f: Cluster, events: seq<Event>)
    requires IsRun(INIT, events) && AllSmooth(f, events)
    ensures Starved(EndOf(INIT, events), f, PLENTY)
  {
    SmoothIsBeside(f, events);
    assert AllHarmless(f, PLENTY) by { hide Waits, Barred; }
    BesideIsAdmitted(INIT, f, PLENTY, events);
    hide Waits, AllHarmless;
    StarvedForEver(INIT, f, PLENTY, events);
  }

  /** Kyuubi and the metastore entries, but for one. */
  function Sleepers(f: Cluster, but: Option<ClusterInfo>): set<ClusterInfo> {
    set u | u in f.clusterSet && (u.typ == Kyuubi || (u.typ == MetaStore && Some(u) != but))
  }

  /** Everything below kyuubi and the metastore can be created first, and the one metastore entry that
      does not sleep after it, with the others yet to try their mutexes. */
  lemma SleepersLast(f: Cluster, but: Option<ClusterInfo>, m: int, creds: Creds) returns (events: seq<Event>)
    requires GoodCluster(f) && Plan(f, Sleepers(f, but), m)
    ensures IsRun(INIT, events) && AllSmooth(f, events) && !NoPass(events) && Draws(events, creds)
    ensures var s := EndOf(INIT, events);
      && Going(s, f, Sleepers(f, but), m) && QuiescentBut(s, Sleepers(f, but)) && Spawned(s, f)
      && forall v :: v in f.clusterSet && Launches(v.typ) && v !in Sleepers(f, but) ==> Stored(s, f.id, MainRole(v.typ))
  {
    hide Provided, ProperTypes, Going, Steady, Completed, QuiescentBut, Spawned, SpawnUpTo, Plan;
    var asleep := Sleepers(f, but);
    PassedIsFresh(f);
    InitIsGoing(f, asleep, m);
    InitIsSteady(f);
    assert LetsSleep(INIT, asleep, [Pass(f)]);
    RunKeepsGoing(INIT, f, asleep, m, [Pass(f)]);
    RunsStaySteady(INIT, f, [Pass(f)]);
    var mid := EndOf(INIT, [Pass(f)]);
    var after := CanFinish(mid, f, asleep, creds);
    RunKeepsGoing(mid, f, asleep, m, after);
    SmoothConcat(f, [Pass(f)], after);
    events := [Pass(f)] + after;
    assert [Pass(f)][0].Pass?;
    RunSpawns(INIT, f, events);
    forall v | v in f.clusterSet && Launches(v.typ) && v !in asleep ensures Stored(EndOf(INIT, events), f.id, MainRole(v.typ)) {
      CreatedByRank(EndOf(INIT, events), f, asleep, m, v);
    }
  }

  /** The entry's metastore can be created first. */
  lemma MetastoreFirst(f: Cluster, v: ClusterInfo) returns (events: seq<Event>)
    requires GoodCluster(f) && v in f.clusterSet && v.typ == MetaStore
    ensures IsRun(INIT, events) && AllSmooth(f, events) && !NoPass(events)
    ensures var s := EndOf(INIT, events);
      && Going(s, f, Sleepers(f, Some(v)), ReplicasOf(v)) && QuiescentBut(s, Sleepers(f, Some(v))) && Spawned(s, f)
      && Stored(s, f.id, MetastoreRole)
  {
    hide Provided, ProperTypes, Going, Completed, QuiescentBut, Spawned;
    events := SleepersLast(f, Some(v), ReplicasOf(v), NO_CREDS);
  }

  lemma StoredCounts(s: State, f: Cluster, m: int)
    requires Counts(s, m) && Stored(s, f.id, MetastoreRole)
    ensures s.store[Key(f.id, MetastoreRole)].MetastoreObj? && s.store[Key(f.id, MetastoreRole)].replicas == m
  {
  }

  lemma NoKyuubiYet(s: State, f: Cluster, but: Option<ClusterInfo>)
    requires Made(s) && Steady(s, f) && Asleep(s, Sleepers(f, but))
    ensures Key(f.id, KyuubiRole) !in s.store
    ensures forall j :: 0 <= j < |s.inners| ==> s.inners[j].entry.typ != Kyuubi
  {
    forall j | 0 <= j < |s.inners| ensures s.inners[j].entry.typ != Kyuubi && KyuubiRole !in RolesOf(s.inners[j]) {
      assert InnerOver(f, s.inners[j]);
    }
    hide Steady, Sleepers, Asleep, Roles;
    forall k | k in s.store ensures k.role != KyuubiRole {
      assert HasMaker(s, k);
    }
  }

  const KYUUBI_FAMINE := Famine({KyuubiRole}, false, true, false, false)

  lemma HarmlessToKyuubi(f: Cluster, v: ClusterInfo)
    ensures Harmless(f, KYUUBI_FAMINE, v)
    ensures v.typ != Kyuubi ==> !Barred(f, KYUUBI_FAMINE, v)
  {
    if v.typ == Kyuubi {
      var i := EveryKyuubiWaits(f, v);
      WaitsBar(f, KYUUBI_FAMINE, v, i);
    } else {
      forall i | 0 <= i < |Waits(f, v)| ensures !Blocks(KYUUBI_FAMINE, Waits(f, v)[i]) {
        WaitCases(f, v, Waits(f, v)[i]);
      }
    }
  }

  /** Kyuubi starves behind a metastore that is too short, if it has no goroutine yet. */
  lemma KyuubiStarves(s: State, f: Cluster)
    requires Starved(s, f, PLENTY) && ShortMetastore(s, f)
    requires Key(f.id, KyuubiRole) !in s.store
    requires forall j :: 0 <= j < |s.inners| ==> s.inners[j].entry.typ != Kyuubi
    ensures Starved(s, f, KYUUBI_FAMINE)
  {
    hide Waits, Harmless, Barred, ShortMetastore, ReadyOk, InFront;
    forall i | 0 <= i < |s.outers| ensures OuterStarved(f, KYUUBI_FAMINE, s.outers[i]) {
      assert OuterStarved(f, PLENTY, s.outers[i]);
      HarmlessToKyuubi(f, s.outers[i].entry);
    }
    forall j | 0 <= j < |s.inners| ensures InnerStarved(f, KYUUBI_FAMINE, s.inners[j]) {
      assert InnerStarved(f, PLENTY, s.inners[j]);
      HarmlessToKyuubi(f, s.inners[j].entry);
    }
  }

  /** A metastore entry with negative replicas keeps kyuubi away. */
  lemma NegativeReplicasMiss(f: Cluster, v: ClusterInfo) returns (events: seq<Event>)
    requires GoodCluster(f) && v in f.clusterSet && v.typ == MetaStore && ReplicasOf(v) < 1
    ensures Misses(f, events)
  {
    hide Completed, Provided, ProperTypes, AllSmooth, NoPass, QuiescentBut, Misses, Spawned, Waits, Sound, Steady, Asleep, Made, Starved;
    var before := MetastoreFirst(f, v);
    var s := EndOf(INIT, before);
    StoredCounts(s, f, ReplicasOf(v));
    RunsKeepMadeFromInit(before);
    NoKyuubiYet(s, f, Some(v));
    RunsArePlain(f, before);
    KyuubiStarves(s, f);
    var u := KyuubiListed(f);
    events := StarvedFinish(f, KYUUBI_FAMINE, before, u);
  }

  lemma KyuubiListed(f: Cluster) returns (u: ClusterInfo)
    requires Completed(f)
    ensures u in f.clusterSet && u.typ == Kyuubi
  {
    var n := ListedAt(f, Kyuubi);
    u := f.clusterSet[n];
  }

  /** At such an end every mutex is free, and no metastore goroutine is still to set its replicas. */
  lemma EndIsOpen(s: State, f: Cluster, but: Option<ClusterInfo>)
    requires Steady(s, f) && Asleep(s, Sleepers(f, but)) && QuiescentBut(s, Sleepers(f, but))
    ensures forall m :: 0 <= m < |s.mutexes| ==> s.mutexes[m].None?
    ensures forall j :: 0 <= j < |s.inners| && s.inners[j].entry.typ == MetaStore ==> s.inners[j].wait >= 1 || s.inners[j].failed
    ensures forall i :: 0 <= i < |s.outers| ==> s.outers[i].pc == Trying || s.outers[i].pc.Finished?
    ensures forall i :: 0 <= i < |s.outers| && s.outers[i].pc == Trying ==> s.outers[i].entry in Sleepers(f, but)
  {
    var asleep := Sleepers(f, but);
    forall i | 0 <= i < |s.outers|
      ensures s.outers[i].pc == Trying || s.outers[i].pc.Finished?
      ensures s.outers[i].pc == Trying ==> s.outers[i].entry in asleep
    {
      if s.outers[i].entry !in asleep {
        OutersFinished(s, asleep, i);
      }
    }
    forall m | 0 <= m < |s.mutexes| ensures s.mutexes[m].None? {
      assert s.mutexes[m].Some? ==> OwnerOk(s, m);
    }
    forall j | 0 <= j < |s.inners| && s.inners[j].entry.typ == MetaStore ensures s.inners[j].wait >= 1 || s.inners[j].failed {
      NobodyCanRun(s, asleep, j, Ok);
      if s.inners[j].wait == 0 && !s.inners[j].failed {
        SetterCanRun(s, s.inners[j]);
      }
    }
  }

  lemma SetterCanRun(s: State, t: Inner)
    requires t.entry.typ == MetaStore && t.wait == 0 && !t.failed
    ensures RunEnabled(s, t, Ok)
  {
    assert WaitsOf(t)[0] == SetReplicas(t.entry.replicas);
  }

  /** Two metastore entries that disagree: the one with fewer replicas is created, and the other sets
      MetastoreReplicas beyond them for good. */
  lemma DisagreementMisses(f: Cluster, v: ClusterInfo, w: ClusterInfo) returns (events: seq<Event>)
    requires GoodCluster(f) && v in f.clusterSet && w in f.clusterSet && v.typ == w.typ == MetaStore
    requires 1 <= ReplicasOf(v) < ReplicasOf(w)
    ensures Misses(f, events)
  {
    hide Completed, Provided, ProperTypes, AllSmooth, NoPass, QuiescentBut, Misses, Waits, Sound, Steady, Made, Starved, HasOuter, ShortMetastore, Asleep;
    var first := MetastoreFirst(f, v);
    var s := EndOf(INIT, first);
    StoredCounts(s, f, ReplicasOf(v));
    assert HasOuter(s, w);
    var h := SleeperOf(s, f, Some(v), w);
    var before := SetterLast(f, Some(v), first, h);
    var z := EndOf(INIT, before);
    RunsKeepMadeFromInit(first);
    NoKyuubiYet(s, f, Some(v));
    RunsArePlain(f, before);
    KyuubiStarves(z, f);
    var u := KyuubiListed(f);
    events := StarvedFinish(f, KYUUBI_FAMINE, before, u);
  }

  lemma SleeperOf(s: State, f: Cluster, but: Option<ClusterInfo>, w: ClusterInfo) returns (h: nat)
    requires HasOuter(s, w) && Asleep(s, Sleepers(f, but)) && w in f.clusterSet && w.typ == MetaStore && Some(w) != but
    ensures h < |s.outers| && s.outers[h].entry == w && s.outers[h].pc == Trying
  {
    h :| 0 <= h < |s.outers| && s.outers[h].entry == w;
  }

  /** Goroutine h gets the mutex, all others of it lose, and h launches its inner goroutine. */
  lemma LaunchAlone(s: State, f: Cluster, h: nat) returns (events: seq<Event>)
    requires LocksOk(s) && OutersOver(s, f) && h < |s.outers| && s.outers[h].pc == Trying && s.outers[h].entry.typ == MetaStore
    requires forall m :: 0 <= m < |s.mutexes| ==> s.mutexes[m].None?
    requires forall i :: 0 <= i < |s.outers| ==> s.outers[i].pc == Trying || s.outers[i].pc.Finished?
    ensures IsRun(s, events) && AllSmooth(f, events)
    ensures var c := EndOf(s, events);
      && c == s.(outers := c.outers, mutexes := c.mutexes, inners := s.inners + [Launchee(s.outers[h])])
      && forall i :: 0 <= i < |c.outers| && c.outers[i].entry.typ == MetaStore ==> c.outers[i].pc != Trying && c.outers[i].pc != Holding
  {
    hide LockName;
    assert OuterOk(s, h);
    var a := ApplyTryLock(s, h);
    RunOne(s, TryLock(h));
    var tries := LoseAll(a, h, |a.outers|);
    RunConcat(s, [TryLock(h)], tries);
    RunSnoc(s, [TryLock(h)] + tries, Launch(h));
    events := [TryLock(h)] + tries + [Launch(h)];
    NoOtherSetter(s, f, h);
  }

  /** What is left of the run: the entry's goroutine is the last to set the replicas. */
  lemma SetterLast(f: Cluster, but: Option<ClusterInfo>, first: seq<Event>, h: nat) returns (events: seq<Event>)
    requires IsRun(INIT, first) && AllSmooth(f, first) && !NoPass(first)
    requires var s := EndOf(INIT, first);
      && Steady(s, f) && Asleep(s, Sleepers(f, but)) && QuiescentBut(s, Sleepers(f, but))
      && h < |s.outers| && s.outers[h].pc == Trying && s.outers[h].entry.typ == MetaStore
      && Stored(s, f.id, MetastoreRole) && s.store[Key(f.id, MetastoreRole)].MetastoreObj?
      && 1 <= s.store[Key(f.id, MetastoreRole)].replicas < ReplicasOf(s.outers[h].entry)
    ensures IsRun(INIT, events) && AllSmooth(f, events) && !NoPass(events)
    ensures var s, z := EndOf(INIT, first), EndOf(INIT, events);
      && ShortMetastore(z, f) && z.store == s.store && |z.inners| == |s.inners| + 1
      && z.inners[..|s.inners|] == s.inners && z.inners[|s.inners|].entry.typ == MetaStore
  {
    var s := EndOf(INIT, first);
    EndIsOpen(s, f, but);
    SteadyLocks(s, f);
    var o := s.outers[h];
    hide *;
    var rest := LaunchAlone(s, f, h);
    var c := EndOf(s, rest);
    var j := |s.inners|;
    LauncheeSets(c, o, j);
    RunSnoc(s, rest, Run(j, Ok));
    SnocIsSmooth(f, rest, Run(j, Ok));
    SmoothConcat(f, first, rest + [Run(j, Ok)]);
    events := first + (rest + [Run(j, Ok)]);
    ReplicasOfSetter(o.entry, s.store[Key(f.id, MetastoreRole)].replicas);
    ShortAfter(s, f, c, o);
  }

  lemma SteadyLocks(s: State, f: Cluster)
    requires Steady(s, f)
    ensures LocksOk(s) && OutersOver(s, f)
  {
  }

  lemma SnocIsSmooth(f: Cluster, events: seq<Event>, e: Event)
    requires AllSmooth(f, events) && Smooth(f, e)
    ensures AllSmooth(f, events + [e])
  {
  }

  lemma ReplicasOfSetter(v: ClusterInfo, n: int)
    requires 1 <= n < ReplicasOf(v)
    ensures v.replicas != 0 && v.replicas == ReplicasOf(v)
  {
  }

  /** The stored metastore stays short once the last setter has set its replicas. */
  lemma ShortAfter(s: State, f: Cluster, c: State, o: Outer)
    requires c == s.(outers := c.outers, mutexes := c.mutexes, inners := s.inners + [Launchee(o)])
    requires forall i :: 0 <= i < |c.outers| && c.outers[i].entry.typ == MetaStore ==> c.outers[i].pc != Trying && c.outers[i].pc != Holding
    requires forall j :: 0 <= j < |s.inners| && s.inners[j].entry.typ == MetaStore ==> s.inners[j].wait >= 1 || s.inners[j].failed
    requires Key(f.id, MetastoreRole) in s.store && s.store[Key(f.id, MetastoreRole)].MetastoreObj?
    requires s.store[Key(f.id, MetastoreRole)].replicas < o.entry.replicas
    ensures var n := |s.inners|;
      var z := c.(metastoreReplicas := o.entry.replicas, inners := c.inners[n := c.inners[n].(wait := 1)]);
      ShortMetastore(z, f) && z.store == s.store && |z.inners| == n + 1 && z.inners[..n] == s.inners && z.inners[n].entry == o.entry
  {
  }

  lemma LauncheeSets(c: State, o: Outer, j: nat)
    requires j < |c.inners| && c.inners[j] == Launchee(o) && o.entry.typ == MetaStore
    ensures Enabled(c, Run(j, Ok)) && !Done(c.inners[j]) && c.inners[j].entry == o.entry
    ensures o.entry.replicas != 0 ==> ApplyRun(c, j, Ok) == c.(metastoreReplicas := o.entry.replicas, inners := c.inners[j := c.inners[j].(wait := 1)])
  {
    assert WaitsOf(c.inners[j])[0] == SetReplicas(o.entry.replicas);
    SetterCanRun(c, c.inners[j]);
  }

  /** Once h has the mutex and the others of it have lost, no other metastore goroutine can come. */
  lemma NoOtherSetter(s: State, f: Cluster, h: nat)
    requires LocksOk(s) && OutersOver(s, f) && h < |s.outers| && s.outers[h].entry.typ == MetaStore && s.outers[h].pc == Trying
    requires forall i :: 0 <= i < |s.outers| ==> s.outers[i].pc == Trying || s.outers[i].pc.Finished?
    requires MutexFree(s, s.outers[h].mutex)
    ensures var b := Beaten(ApplyTryLock(s, h), h, |s.outers|);
      forall i :: 0 <= i < |b.outers| && i != h && b.outers[i].entry.typ == MetaStore ==> b.outers[i].pc.Finished?
  {
    var a := ApplyTryLock(s, h);
    forall i | 0 <= i < |s.outers| && i != h && s.outers[i].entry.typ == MetaStore
      ensures a.outers[i] == s.outers[i] && s.outers[i].mutex == s.outers[h].mutex
    {
      assert OuterOf(f, s.outers[i]) && OuterOf(f, s.outers[h]);
      SameTypeSameMutex(s, i, h);
    }
  }

  lemma DisagreeingMisses(f: Cluster) returns (events: seq<Event>)
    requires GoodCluster(f) && !ReplicasAgree(f)
    ensures Misses(f, events)
  {
    hide Provided, ProperTypes, Misses;
    CompletedLists(f, MetaStore);
    hide Completed;
    var first := FirstOf(f.clusterSet, MetaStore).value;
    if ReplicasOf(first) < 1 {
      events := NegativeReplicasMiss(f, first);
    } else {
      var w :| w in f.clusterSet && w.typ == MetaStore && ReplicasOf(w) != ReplicasOf(first);
      if ReplicasOf(w) < 1 {
        events := NegativeReplicasMiss(f, w);
      } else if ReplicasOf(w) < ReplicasOf(first) {
        events := DisagreementMisses(f, w, first);
      } else {
        events := DisagreementMisses(f, first, w);
      }
    }
  }

  // ---------------------------------------------------------------- the exact condition

  /** A cluster that is not covered can end without one of its components, although no call fails. */
  lemma UncoveredMisses(f: Cluster) returns (events: seq<Event>)
    requires Completed(f) && ProperTypes(f) && !Covered(f)
    ensures Misses(f, events)
  {
    hide Completed, ProperTypes, ReplicasAgree, EntryProvided, Misses;
    if Provided(f) {
      events := DisagreeingMisses(f);
    } else {
      var v :| v in f.clusterSet && !EntryProvided(f, v);
      var i :| 0 <= i < |f.clusterSet| && f.clusterSet[i] == v;
      events := UnprovidedMisses(f, i);
    }
  }

  /** Every smooth run over a completed cluster that has a pass and comes to its end has created every
      component, exactly when the cluster is covered. */
  lemma ProgressExactly(f: Cluster)
    requires Completed(f) && ProperTypes(f)
    ensures Covered(f) <==> forall events :: !Misses(f, events)
  {
    hide Completed, ProperTypes, Provided, ReplicasAgree;
    if Covered(f) {
      forall events ensures !Misses(f, events) {
        if Misses(f, events) {
          CoveredMissesNothing(f, events);
        }
      }
    } else {
      var events := UncoveredMisses(f);
    }
  }

  /** Which is to say of any cluster whose passes get as far as its components: whether these passes, if no
      call fails, create them all is settled by the completed set alone. */
  lemma PassProgressExactly(c: Cluster)
    requires PassCluster(c).Some? && ProperTypes(PassCluster(c).value)
    ensures Covered(PassCluster(c).value) <==> forall events :: !Misses(PassCluster(c).value, events)
  {
    PassClusterCompleted(c);
    hide Completed, PassCluster, ProperTypes, Covered, Misses;
    ProgressExactly(PassCluster(c).value);
  }

  /** A batch cluster with any features and no database or hdfs entries of the user's own gets everything
      created in every smooth run that comes to its end, exactly when their metastore entries agree on a
      positive number of replicas and their doris entries find what they refer to. */
  lemma DefaultsExactly(c: Cluster)
    requires c.kind == BATCH && ProperTypes(c)
    requires forall v :: v in c.clusterSet ==> v.typ != Database && !InHdfsFamily(v.typ)
    ensures (forall events :: !Misses(Filled(c), events)) <==>
      ReplicasAgree(c) && forall v :: v in c.clusterSet && v.typ == Doris ==> FindsFEAndBE(Filled(c), v)
  {
    assert PassCluster(c) == Some(Filled(c));
    hide Filled, PassCluster, ReplicasAgree, Provided, InHdfsFamily, FindsFEAndBE, ProperTypes, Misses;
    DefaultsAreCovered(c);
    FilledIsProper(c);
    PassProgressExactly(c);
  }

  lemma CoveredMissesNothing(f: Cluster, events: seq<Event>)
    requires GoodCluster(f) && ReplicasAgree(f) && IsRun(INIT, events) && AllSmooth(f, events) && !NoPass(events)
    ensures Quiescent(EndOf(INIT, events)) ==> AllCreated(EndOf(INIT, events), f)
  {
    hide Completed, ProperTypes, Provided, ReplicasAgree, Quiescent, AllCreated;
    assert IsRun(EndOf(INIT, events), []) && AllSmooth(f, []) && NoPass([]);
    SmoothRunsCreateEverything(f, events, []);
  }
}
