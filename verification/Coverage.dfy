/** Which clusters can be reconciled to the end: what their components wait for must be listed, must
    be created, and must ask for as many replicas as are awaited. */
module Coverage {
  import opened Text
  import opened Clusters
  import opened Protocol

  // ---------------------------------------------------------------- which clusters can get there

  /** What a completed cluster set looks like: completing it again changes nothing. */
  predicate Completed(f: Cluster) {
    f.kind == BATCH && Filled(f) == f
  }

  lemma PassClusterCompleted(c: Cluster)
    requires PassCluster(c).Some?
    ensures Completed(PassCluster(c).value)
  {
    FillIdempotent(FilledKind(c).value);
  }

  lemma CompletedLists(f: Cluster, t: ClusterType)
    requires Completed(f) && ProfileOf(f).Needs(t)
    ensures Lists(f.clusterSet, t)
  {
    FillLists(f, t);
  }

  /** Every type is written as the datatype writes it. */
  predicate ProperTypes(f: Cluster) {
    forall i :: 0 <= i < |f.clusterSet| ==> Proper(f.clusterSet[i].typ)
  }

  /** What a metastore entry makes of MetastoreReplicas, which is 1 until an entry sets it. */
  function ReplicasOf(v: ClusterInfo): int {
    if v.replicas == 0 then 1 else v.replicas
  }

  function MetastoreWanted(f: Cluster): int {
    match FirstOf(f.clusterSet, MetaStore)
    case None => 1
    case Some(v) => ReplicasOf(v)
  }

  /** The conditions on an entry, the metastore's replicas apart, under which it can be created and what
      others await of it can be had. */
  predicate EntryProvided(f: Cluster, v: ClusterInfo) {
    && (v.typ == Database ==> IsPostgres(v))
    && (v.typ == Doris ==> FindsFEAndBE(f, v))
    && (v.typ == Hdfs && NamenodeHA(f, v) ==> Lists(f.clusterSet, Zookeeper))
    && (v.typ == Hdfs && ClusterStorage(f) == HdfsStorage ==> NameNodesAsked(f, v) >= 1)
  }

  predicate Provided(f: Cluster) {
    forall v :: v in f.clusterSet ==> EntryProvided(f, v)
  }

  /** All metastore entries make the same of MetastoreReplicas, and that is at least one. */
  predicate ReplicasAgree(f: Cluster) {
    MetastoreWanted(f) >= 1 && forall v :: v in f.clusterSet && v.typ == MetaStore ==> ReplicasOf(v) == MetastoreWanted(f)
  }

  predicate Covered(f: Cluster) {
    Provided(f) && ReplicasAgree(f)
  }

  predicate InHdfsFamily(t: ClusterType) {
    t == Hdfs || t == HdfsNameNode || t == HdfsDataNode || t == HdfsJournalNode
  }

  /** The last name node entry, if there is one. */
  predicate IsLastNameNode(entries: seq<ClusterInfo>, i: nat)
    requires i < |entries|
  {
    entries[i].typ == HdfsNameNode && forall k :: i < k < |entries| ==> entries[k].typ != HdfsNameNode
  }

  /** Of several name node entries the last one counts. */
  lemma {:induction false} LastNameNodesIsLast(entries: seq<ClusterInfo>, i: nat)
    requires i < |entries| && IsLastNameNode(entries, i)
    ensures LastNameNodes(entries) == entries[i].replicas
  {
    if i < |entries| - 1 {
      LastNameNodesIsLast(entries[..|entries| - 1], i);
    }
  }

  lemma {:induction false} NoNameNodes(entries: seq<ClusterInfo>)
    requires forall i :: 0 <= i < |entries| ==> entries[i].typ != HdfsNameNode
    ensures LastNameNodes(entries) == 0
  {
    if entries != [] {
      NoNameNodes(entries[..|entries| - 1]);
    }
  }

  /** Name nodes are asked for where the last such entry has some. */
  lemma {:induction false} NameNodesWanted(entries: seq<ClusterInfo>)
    ensures LastNameNodes(entries) >= 1 <==> exists i :: 0 <= i < |entries| && IsLastNameNode(entries, i) && entries[i].replicas >= 1
  {
    if entries != [] {
      var n := |entries| - 1;
      if entries[n].typ == HdfsNameNode {
        assert IsLastNameNode(entries, n);
      } else {
        NameNodesWanted(entries[..n]);
        assert forall i :: 0 <= i < n ==> (IsLastNameNode(entries, i) <==> IsLastNameNode(entries[..n], i)) && entries[i] == entries[..n][i];
      }
    }
  }

  /** The metastore entries agree on a positive number, zero standing for one. */
  lemma AgreeInFull(f: Cluster)
    requires Completed(f)
    ensures ReplicasAgree(f) <==>
      && (forall v :: v in f.clusterSet && v.typ == MetaStore ==> v.replicas >= 0)
      && forall v, w :: v in f.clusterSet && w in f.clusterSet && v.typ == w.typ == MetaStore ==>
           v.replicas == w.replicas || (v.replicas <= 1 && w.replicas <= 1)
  {
    CompletedLists(f, MetaStore);
    hide Completed;
    var first := FirstOf(f.clusterSet, MetaStore).value;
    assert first in f.clusterSet && first.typ == MetaStore;
  }

  /** The conditions on a completed cluster's hdfs entries, in terms of the entries and the features. */
  lemma HdfsInFull(f: Cluster, v: ClusterInfo)
    requires v.typ == Hdfs
    ensures EntryProvided(f, v) <==>
      && (v.refs == [] || Lists(f.clusterSet, Zookeeper)
          || forall e :: e in f.clusterSet && e.typ == HdfsNameNode ==> e.replicas != 2)
      && ("storage" in f.features && f.features["storage"] == "hdfs" ==>
            && HdfsNameNode in v.refs
            && exists i :: 0 <= i < |f.clusterSet| && IsLastNameNode(f.clusterSet, i) && f.clusterSet[i].replicas >= 1)
  {
    NameNodesWanted(f.clusterSet);
    TwoNameNodesListed(f.clusterSet);
    hide LastNameNodes, IsLastNameNode, TwoNameNodes, Lists;
  }

  /** What a completed cluster must meet to be covered, in terms of its entries and features. */
  lemma CoveredInFull(f: Cluster)
    requires Completed(f)
    ensures Covered(f) <==>
      && (forall v :: v in f.clusterSet && v.typ == Database ==> v.subType == "" || v.subType == "postgres")
      && (forall v :: v in f.clusterSet && v.typ == Doris ==>
            DorisFE in v.refs && Lists(f.clusterSet, DorisFE) && DorisBE in v.refs && Lists(f.clusterSet, DorisBE))
      && (forall v :: v in f.clusterSet && v.typ == Hdfs ==>
            v.refs == [] || Lists(f.clusterSet, Zookeeper) || forall e :: e in f.clusterSet && e.typ == HdfsNameNode ==> e.replicas != 2)
      && (forall v :: v in f.clusterSet && v.typ == Hdfs && "storage" in f.features && f.features["storage"] == "hdfs" ==>
            && HdfsNameNode in v.refs
            && exists i :: 0 <= i < |f.clusterSet| && IsLastNameNode(f.clusterSet, i) && f.clusterSet[i].replicas >= 1)
      && (forall v :: v in f.clusterSet && v.typ == MetaStore ==> v.replicas >= 0)
      && (forall v, w :: v in f.clusterSet && w in f.clusterSet && v.typ == w.typ == MetaStore ==>
            v.replicas == w.replicas || (v.replicas <= 1 && w.replicas <= 1))
  {
    AgreeInFull(f);
    forall v | v in f.clusterSet && v.typ == Hdfs
      ensures EntryProvided(f, v) <==>
        && (v.refs == [] || Lists(f.clusterSet, Zookeeper)
            || forall e :: e in f.clusterSet && e.typ == HdfsNameNode ==> e.replicas != 2)
        && ("storage" in f.features && f.features["storage"] == "hdfs" ==>
              && HdfsNameNode in v.refs
              && exists i :: 0 <= i < |f.clusterSet| && IsLastNameNode(f.clusterSet, i) && f.clusterSet[i].replicas >= 1)
    {
      HdfsInFull(f, v);
    }
    forall v | v in f.clusterSet && v.typ != Hdfs
      ensures EntryProvided(f, v) <==>
        && (v.typ == Database ==> v.subType == "" || v.subType == "postgres")
        && (v.typ == Doris ==>
              DorisFE in v.refs && Lists(f.clusterSet, DorisFE) && DorisBE in v.refs && Lists(f.clusterSet, DorisBE))
    {
      hide Lists;
    }
    hide Completed, EntryProvided, ReplicasAgree, IsLastNameNode, Lists;
  }

  lemma TwoNameNodesListed(entries: seq<ClusterInfo>)
    ensures TwoNameNodes(entries) <==> exists e :: e in entries && e.typ == HdfsNameNode && e.replicas == 2
  {
    if e :| e in entries && e.typ == HdfsNameNode && e.replicas == 2 {
      var i :| 0 <= i < |entries| && entries[i] == e;
    }
  }

  /** A batch cluster whose user lists no database and no hdfs entries of their own is covered, exactly
      when their metastore entries agree on a positive number and their doris entries find what they
      refer to. */
  lemma DefaultsAreCovered(c: Cluster)
    requires c.kind == BATCH
    requires forall v :: v in c.clusterSet ==> v.typ != Database && !InHdfsFamily(v.typ)
    ensures Covered(Filled(c)) <==>
      && ReplicasAgree(c)
      && forall v :: v in c.clusterSet && v.typ == Doris ==> FindsFEAndBE(Filled(c), v)
  {
    DefaultsAreProvided(c);
    DefaultReplicasAgree(c);
  }

  lemma DefaultsAreProvided(c: Cluster)
    requires c.kind == BATCH
    requires forall v :: v in c.clusterSet ==> v.typ != Database && !InHdfsFamily(v.typ)
    ensures Provided(Filled(c)) <==> forall v :: v in c.clusterSet && v.typ == Doris ==> FindsFEAndBE(Filled(c), v)
  {
    var f := Filled(c);
    assert forall v :: v in c.clusterSet ==> v in f.clusterSet;
    if forall v :: v in c.clusterSet && v.typ == Doris ==> FindsFEAndBE(f, v) {
      forall v | v in f.clusterSet ensures EntryProvided(f, v) {
        var i :| 0 <= i < |f.clusterSet| && f.clusterSet[i] == v;
        if Lists(c.clusterSet, v.typ) {
          UserTypesAreUserEntries(c, i);
        } else {
          DefaultEntryProvided(c, i);
        }
      }
    } else {
      var v :| v in c.clusterSet && v.typ == Doris && !FindsFEAndBE(f, v);
      assert !EntryProvided(f, v);
    }
  }

  lemma DefaultReplicasAgree(c: Cluster)
    ensures ReplicasAgree(Filled(c)) <==> ReplicasAgree(c)
  {
    var f, u := Filled(c).clusterSet, |c.clusterSet|;
    FirstOfPrefix(c.clusterSet, f, MetaStore);
    assert forall v :: v in c.clusterSet ==> v in f;
    forall v | v in f && v.typ == MetaStore
      ensures if Lists(c.clusterSet, MetaStore) then v in c.clusterSet else v.replicas == 0
    {
      var i :| 0 <= i < |f| && f[i] == v;
      if Lists(c.clusterSet, MetaStore) {
        UserTypesAreUserEntries(c, i);
      } else {
        FillUsesTheTable(c, i);
      }
    }
    assert forall v :: v in c.clusterSet && v.typ == MetaStore ==> Lists(c.clusterSet, MetaStore);
  }

  /** A search that succeeds in a prefix finds the same in the whole. */
  lemma {:induction false} FirstOfPrefix(a: seq<ClusterInfo>, b: seq<ClusterInfo>, t: ClusterType)
    requires a <= b
    ensures Lists(a, t) ==> FirstOf(b, t) == FirstOf(a, t)
  {
    if a != [] && a[0].typ != t {
      assert a[1..] <= b[1..];
      FirstOfPrefix(a[1..], b[1..], t);
    }
  }

  /** An entry of a type the user lists is one of the user's. */
  lemma UserTypesAreUserEntries(c: Cluster, i: nat)
    requires i < |Filled(c).clusterSet| && Lists(c.clusterSet, Filled(c).clusterSet[i].typ)
    ensures Filled(c).clusterSet[i] in c.clusterSet
  {
    FillAppendsExactlyTheMissing(c);
    hide Filled, ProfileOf, FullTable, PickedInOrder;
    var f, u := Filled(c).clusterSet, |c.clusterSet|;
    forall k | u <= k < |f|
      ensures Lists(f[u..], f[k].typ)
    {
      assert f[u..][k - u].typ == f[k].typ;
    }
    assert forall k :: 0 <= k < u ==> f[k] == c.clusterSet[k];
  }

  lemma DefaultEntryProvided(c: Cluster, i: nat)
    requires c.kind == BATCH && i < |Filled(c).clusterSet|
    requires !Lists(c.clusterSet, Filled(c).clusterSet[i].typ)
    requires forall v :: v in c.clusterSet ==> !InHdfsFamily(v.typ)
    ensures EntryProvided(Filled(c), Filled(c).clusterSet[i])
  {
    var f := Filled(c);
    var v := f.clusterSet[i];
    FillUsesTheTable(c, i);
    assert Lists(f.clusterSet, v.typ);
    FillLists(c, v.typ);
    match v.typ {
      case Doris => AppendedDorisFindsFEAndBE(c, i);
      case Hdfs =>
        FillLists(c, Zookeeper);
        DefaultNameNodes(c);
      case _ =>
    }
  }

  predicate TypesDistinct(entries: seq<ClusterInfo>) {
    forall i, k :: 0 <= i < k < |entries| ==> entries[i].typ != entries[k].typ
  }

  lemma RowOfTypeAt(k: nat)
    requires k < TABLE_SIZE
    ensures RowOf(TypeAt(k)) == k
  {
  }

  lemma TableTypesDistinct()
    ensures TypesDistinct(FullTable())
  {
    forall i, k | 0 <= i < k < TABLE_SIZE
      ensures FullTable()[i].typ != FullTable()[k].typ
    {
      RowOfTypeAt(i);
      RowOfTypeAt(k);
    }
  }

  lemma PickedTypesDistinct(added: seq<ClusterInfo>, table: seq<ClusterInfo>, rows: seq<nat>)
    requires PickedInOrder(added, table, rows) && TypesDistinct(table)
    ensures TypesDistinct(added)
  {
  }

  lemma AppendedTypesDistinct(c: Cluster)
    ensures TypesDistinct(Filled(c).clusterSet[|c.clusterSet|..])
  {
    FillAppendsExactlyTheMissing(c);
    TableTypesDistinct();
    var added := Filled(c).clusterSet[|c.clusterSet|..];
    var rows :| PickedInOrder(added, FullTable(), rows);
    PickedTypesDistinct(added, FullTable(), rows);
  }

  lemma OneNameNode(f: seq<ClusterInfo>, u: nat, i: nat)
    requires u <= i < |f| && f[i].typ == HdfsNameNode && TypesDistinct(f[u..])
    requires forall k :: 0 <= k < u ==> f[k].typ != HdfsNameNode
    ensures LastNameNodes(f) == f[i].replicas
  {
    forall k | u <= k < |f| && k != i
      ensures f[k].typ != f[i].typ
    {
      var added := f[u..];
      assert added[k - u] == f[k] && added[i - u] == f[i];
    }
    LastNameNodesIsLast(f, i);
  }

  lemma DefaultNameNodes(c: Cluster)
    requires ProfileOf(c).storage == HdfsStorage
    requires forall v :: v in c.clusterSet ==> !InHdfsFamily(v.typ)
    ensures LastNameNodes(Filled(c).clusterSet) == 2
  {
    FillLists(c, HdfsNameNode);
    hide Filled, LastNameNodes, TypesDistinct, KyuubiNeedsHA, WantsDoris, ClusterStorage;
    var f, u := Filled(c).clusterSet, |c.clusterSet|;
    var i :| 0 <= i < |f| && f[i].typ == HdfsNameNode;
    assert forall k :: 0 <= k < u ==> f[k] == c.clusterSet[k] && f[k] in c.clusterSet;
    FillUsesTheTable(c, i);
    AppendedTypesDistinct(c);
    OneNameNode(f, u, i);
  }

  // ---------------------------------------------------------------- the waits-for order

  /** The object a wait is for. */
  function Awaited(w: Wait): Option<Role> {
    match w
    case Pods(role, _) => Some(role)
    case NameNodes(_) => Some(HdfsRole)
    case MetastorePods => Some(MetastoreRole)
    case MinioService => Some(TenantRole)
    case MinioSecret => Some(TenantRole)
    case SetReplicas(_) => None
    case External => None
  }

  function Rank(t: ClusterType): nat {
    match t
    case Kyuubi => 3
    case MetaStore => 2
    case Hdfs => 1
    case _ => 0
  }

  /** Every wait of a provided entry is for the main object of a listed component of lower rank, so
      the waits of a cluster have no cycle and never leave its cluster set. */
  lemma WaitsFall(f: Cluster, v: ClusterInfo, w: Wait) returns (t: ClusterType)
    requires Completed(f) && EntryProvided(f, v)
    requires w in Waits(f, v) && Awaited(w).Some?
    ensures Launches(t) && MainRole(t) == Awaited(w).value
    ensures Lists(f.clusterSet, t)
    ensures Rank(t) < Rank(v.typ)
  {
    WaitsOfWhom(f, v, w);
    hide Waits, Filled, Lists, FindsFEAndBE;
    t := match Awaited(w).value
      case PgRole => Database
      case ZkRole => Zookeeper
      case HdfsRole => Hdfs
      case MetastoreRole => MetaStore
      case _ => Minio;
    if v.typ != Hdfs {
      CompletedLists(f, t);
    }
  }

  /** Who is awaited by whom, and under which features. */
  lemma WaitsOfWhom(f: Cluster, v: ClusterInfo, w: Wait)
    requires w in Waits(f, v) && Awaited(w).Some?
    ensures v.typ in {Kyuubi, MetaStore, Hdfs}
    ensures Awaited(w).value in {PgRole, ZkRole, HdfsRole, MetastoreRole, TenantRole}
    ensures Awaited(w) == Some(MetastoreRole) ==> v.typ == Kyuubi
    ensures Awaited(w) == Some(HdfsRole) ==> v.typ == MetaStore && ClusterStorage(f) == HdfsStorage
    ensures Awaited(w) == Some(TenantRole) ==> ClusterStorage(f) == MinioStorage
    ensures Awaited(w) == Some(ZkRole) ==> (v.typ == Kyuubi && KyuubiNeedsHA(f)) || (v.typ == Hdfs && NamenodeHA(f, v))
    ensures v.typ == Hdfs ==> Awaited(w) == Some(ZkRole)
  {
    WaitCases(f, v, w);
    hide Waits, KyuubiNeedsHA, ClusterStorage, NamenodeHA, UsesJdbc, LastNameNodes;
  }

  /** The replicas awaited, the metastore's apart. */
  function AwaitedCount(w: Wait): int {
    match w
    case Pods(_, need) => need
    case NameNodes(wanted) => wanted
    case _ => 1
  }

  /** The object a provided component creates asks for at least the replicas any other waits for. */
  predicate AsksEnough(f: Cluster, role: Role, o: Obj) {
    && Fits(role, o)
    && (role == HdfsRole && ClusterStorage(f) == HdfsStorage ==> o.nameNodes == LastNameNodes(f.clusterSet) >= 1)
  }

  lemma EnoughForEveryWait(f: Cluster, v: ClusterInfo, w: Wait, o: Obj)
    requires w in Waits(f, v) && Awaited(w).Some? && w != MetastorePods
    requires AsksEnough(f, Awaited(w).value, o)
    ensures Asked(o) >= AwaitedCount(w) && Asked(o) >= 1
  {
    WaitCases(f, v, w);
    hide Waits, ClusterStorage, LastNameNodes, KyuubiNeedsHA;
  }
}
