/** NineCluster resources: the specification a user writes, the default tables, and how the
    controller completes the user's cluster set before it reconciles anything. */
module Clusters {
  import opened Text

  /** A component type is a string in the resource. Other stands for the strings that are not one
      of the thirteen the controller knows. */
  datatype ClusterType =
    | Kyuubi | Doris | DorisFE | DorisBE | Spark | MetaStore | Database | Minio | Zookeeper
    | Hdfs | HdfsNameNode | HdfsDataNode | HdfsJournalNode
    | Other(name: string)

  function TypeName(t: ClusterType): string {
    match t
    case Kyuubi => "kyuubi"
    case Doris => "doris"
    case DorisFE => "doris-fe"
    case DorisBE => "doris-be"
    case Spark => "spark"
    case MetaStore => "metastore"
    case Database => "database"
    case Minio => "minio"
    case Zookeeper => "zookeeper"
    case Hdfs => "hdfs"
    case HdfsNameNode => "namenode"
    case HdfsDataNode => "datanode"
    case HdfsJournalNode => "journalnode"
    case Other(name) => name
  }

  function TypeOf(s: string): ClusterType {
    if s == "kyuubi" then Kyuubi
    else if s == "doris" then Doris
    else if s == "doris-fe" then DorisFE
    else if s == "doris-be" then DorisBE
    else if s == "spark" then Spark
    else if s == "metastore" then MetaStore
    else if s == "database" then Database
    else if s == "minio" then Minio
    else if s == "zookeeper" then Zookeeper
    else if s == "hdfs" then Hdfs
    else if s == "namenode" then HdfsNameNode
    else if s == "datanode" then HdfsDataNode
    else if s == "journalnode" then HdfsJournalNode
    else Other(s)
  }

  /** t is the reading of its own name: a known name is never wrapped in Other. */
  predicate Proper(t: ClusterType) {
    t.Other? ==> TypeOf(t.name) == t
  }

  /** The names in full. */
  lemma TypesAreNamed()
    ensures TypeName(Kyuubi) == "kyuubi" && TypeName(MetaStore) == "metastore" && TypeName(Database) == "database"
    ensures TypeName(Minio) == "minio" && TypeName(Spark) == "spark" && TypeName(Zookeeper) == "zookeeper"
    ensures TypeName(Doris) == "doris" && TypeName(DorisFE) == "doris-fe" && TypeName(DorisBE) == "doris-be"
    ensures TypeName(Hdfs) == "hdfs" && TypeName(HdfsNameNode) == "namenode"
    ensures TypeName(HdfsDataNode) == "datanode" && TypeName(HdfsJournalNode) == "journalnode"
  {
  }

  lemma TypeNameInjective(t: ClusterType, u: ClusterType)
    requires Proper(t) && Proper(u)
    requires TypeName(t) == TypeName(u)
    ensures t == u
  {
    TypeOfName(t);
    TypeOfName(u);
  }

  lemma TypeOfName(t: ClusterType)
    requires Proper(t)
    ensures TypeOf(TypeName(t)) == t
  {
    match t
    case Kyuubi => case Doris => case DorisFE => case DorisBE => case Spark =>
    case MetaStore => case Database => case Minio => case Zookeeper => case Hdfs =>
    case HdfsNameNode => case HdfsDataNode => case HdfsJournalNode => case Other(_) =>
  }

  datatype Auth = Auth(kind: string, user: string, password: string)

  /** One entry of a cluster set. Replicas and disks are int32 in the resource. */
  datatype ClusterInfo = ClusterInfo(
    typ: ClusterType,
    subType: string,
    replicas: int,
    disks: int,
    auth: Auth,
    conf: map<string, string>,
    k8sConf: map<string, string>,
    refs: seq<ClusterType>)

  datatype Ident = Ident(ns: string, name: string)

  datatype Cluster = Cluster(
    id: Ident,
    dataVolume: int,
    kind: string,
    features: map<string, string>,
    clusterSet: seq<ClusterInfo>)

  // ---------------------------------------------------------------- the default tables

  const NO_AUTH := Auth("", "", "")
  const DB_POSTGRES := "postgres"
  const BATCH := "batch"
  const STREAM := "stream"

  const KYUUBI_CONF := map[
    "kyuubi.frontend.connection.url.use.hostname" := "false",
    "kyuubi.frontend.thrift.binary.bind.port" := "10009",
    "kyuubi.frontend.thrift.http.bind.port" := "10010",
    "kyuubi.frontend.rest.bind.port" := "10099",
    "kyuubi.frontend.mysql.bind.port" := "3309",
    "kyuubi.frontend.protocols" := "REST,THRIFT_BINARY",
    "kyuubi.metrics.enabled" := "false"]

  const TABLE_SIZE := 13
  const BASE_SIZE := 3

  /** The order of NineDatahouseFullClusterset; its first three rows are NineDatahouseClusterset. */
  function TypeAt(k: nat): (t: ClusterType)
    requires k < TABLE_SIZE
    ensures !t.Other?
  {
    match k
    case 0 => Kyuubi case 1 => MetaStore case 2 => Database case 3 => Minio case 4 => Spark
    case 5 => Doris case 6 => DorisFE case 7 => DorisBE case 8 => Zookeeper case 9 => Hdfs
    case 10 => HdfsNameNode case 11 => HdfsDataNode case _ => HdfsJournalNode
  }

  function RowOf(t: ClusterType): (k: nat)
    requires !t.Other?
    ensures k < TABLE_SIZE && TypeAt(k) == t
  {
    match t
    case Kyuubi => 0 case MetaStore => 1 case Database => 2 case Minio => 3 case Spark => 4
    case Doris => 5 case DorisFE => 6 case DorisBE => 7 case Zookeeper => 8 case Hdfs => 9
    case HdfsNameNode => 10 case HdfsDataNode => 11 case HdfsJournalNode => 12
  }

  /** The default entry of a type, as both tables have it. */
  function DefaultEntry(t: ClusterType): (v: ClusterInfo)
    requires !t.Other?
    ensures v.typ == t
  {
    var subType := if t == Database then DB_POSTGRES else "";
    var replicas :=
      match t
      case Kyuubi => 1 case DorisFE => 3 case DorisBE => 3
      case HdfsNameNode => 2 case HdfsJournalNode => 3 case _ => 0;
    var conf := if t == Kyuubi then KYUUBI_CONF else map[];
    var refs: seq<ClusterType> :=
      match t
      case Kyuubi => [Spark]
      case Doris => [DorisFE, DorisBE]
      case Hdfs => [HdfsNameNode, HdfsDataNode, HdfsJournalNode]
      case _ => [];
    ClusterInfo(t, subType, replicas, 0, if t == Doris then Auth("", "root", "") else NO_AUTH, conf, map[], refs)
  }

  /** NineDatahouseFullClusterset. */
  function FullTable(): (table: seq<ClusterInfo>)
    ensures |table| == TABLE_SIZE
    ensures forall k :: 0 <= k < TABLE_SIZE ==> table[k] == DefaultEntry(TypeAt(k))
  {
    seq(TABLE_SIZE, k requires 0 <= k < TABLE_SIZE => DefaultEntry(TypeAt(k)))
  }

  // ---------------------------------------------------------------- features

  datatype Storage = MinioStorage | HdfsStorage

  function ClusterStorage(c: Cluster): Storage {
    if "storage" in c.features && c.features["storage"] == "hdfs" then HdfsStorage else MinioStorage
  }

  predicate WantsDoris(c: Cluster) {
    "olap" in c.features && c.features["olap"] == "doris"
  }

  /** strconv.ParseBool, with an error read as false. */
  predicate ParsesTrue(s: string) {
    s == "1" || s == "t" || s == "T" || s == "true" || s == "TRUE" || s == "True"
  }

  predicate KyuubiNeedsHA(c: Cluster) {
    "kyuubi-ha" in c.features && ParsesTrue(c.features["kyuubi-ha"])
  }

  // ---------------------------------------------------------------- completing the cluster set

  /** What the features and the kind of a cluster come down to when its set is completed. */
  datatype Profile = Profile(batch: bool, ha: bool, storage: Storage, doris: bool) {

    /** weNeedClusterTypes. */
    predicate Needs(t: ClusterType) {
      match t
      case Kyuubi => true
      case MetaStore => true
      case Database => true
      case Spark => batch
      case Zookeeper => ha || storage == HdfsStorage
      case Minio => storage == MinioStorage
      case Hdfs => storage == HdfsStorage
      case HdfsNameNode => storage == HdfsStorage
      case HdfsDataNode => storage == HdfsStorage
      case HdfsJournalNode => storage == HdfsStorage
      case Doris => doris
      case DorisFE => doris
      case DorisBE => doris
      case Other(_) => false
    }
  }

  function ProfileOf(c: Cluster): Profile {
    Profile(c.kind == BATCH, KyuubiNeedsHA(c), ClusterStorage(c), WantsDoris(c))
  }

  predicate Lists(entries: seq<ClusterInfo>, t: ClusterType) {
    exists i :: 0 <= i < |entries| && entries[i].typ == t
  }

  /** A type the cluster needs and its user left out. */
  predicate Missing(p: Profile, user: seq<ClusterInfo>, t: ClusterType) {
    p.Needs(t) && !Lists(user, t)
  }

  function MissingRows(p: Profile, user: seq<ClusterInfo>, table: seq<ClusterInfo>): (added: seq<ClusterInfo>)
  {
    if table == [] then []
    else
      var v := table[|table| - 1];
      MissingRows(p, user, table[..|table| - 1]) + if Missing(p, user, v.typ) then [v] else []
  }

  function Filled(c: Cluster): (f: Cluster)
    ensures c.clusterSet <= f.clusterSet
    ensures f == c.(clusterSet := f.clusterSet)
  {
    c.(clusterSet := c.clusterSet + MissingRows(ProfileOf(c), c.clusterSet, FullTable()))
  }

  /** FillNineClusterType: no kind means batch, and only batch and stream are supported. */
  function FilledKind(c: Cluster): Option<Cluster> {
    if c.kind == "" then Some(c.(kind := BATCH))
    else if c.kind == STREAM || c.kind == BATCH then Some(c)
    else None
  }

  /** The table position of every added entry, which fixes both the order and the distinctness. */
  ghost predicate PickedInOrder(added: seq<ClusterInfo>, table: seq<ClusterInfo>, rows: seq<nat>) {
    && |rows| == |added|
    && (forall i :: 0 <= i < |rows| ==> rows[i] < |table| && added[i] == table[rows[i]])
    && (forall i, j :: 0 <= i < j < |rows| ==> rows[i] < rows[j])
  }

  lemma {:induction false} PickRows(p: Profile, user: seq<ClusterInfo>, table: seq<ClusterInfo>) returns (rows: seq<nat>)
    ensures PickedInOrder(MissingRows(p, user, table), table, rows)
    ensures forall i :: 0 <= i < |rows| ==> Missing(p, user, table[rows[i]].typ)
    ensures forall k :: 0 <= k < |table| && Missing(p, user, table[k].typ) ==> k in rows
  {
    if table == [] {
      rows := [];
    } else {
      var n := |table| - 1;
      var before := PickRows(p, user, table[..n]);
      rows := before;
      if Missing(p, user, table[n].typ) {
        rows := before + [n];
      }
    }
  }

  /** The user's entries stay as a prefix; what follows are exactly the needed types the user did
      not list, in table order, each once and as the table has it. */
  lemma FillAppendsExactlyTheMissing(c: Cluster)
    ensures c.clusterSet <= Filled(c).clusterSet
    ensures exists rows :: PickedInOrder(Filled(c).clusterSet[|c.clusterSet|..], FullTable(), rows)
    ensures forall t ::
      Lists(Filled(c).clusterSet[|c.clusterSet|..], t) <==> ProfileOf(c).Needs(t) && !Lists(c.clusterSet, t)
  {
    var p := ProfileOf(c);
    var rows := PickRows(p, c.clusterSet, FullTable());
    var added := Filled(c).clusterSet[|c.clusterSet|..];
    assert added == MissingRows(p, c.clusterSet, FullTable());
    forall t
      ensures Lists(added, t) <==> Missing(p, c.clusterSet, t)
    {
      if Missing(p, c.clusterSet, t) {
        var k := RowOf(t);
        assert FullTable()[k].typ == t;
        var i :| 0 <= i < |rows| && rows[i] == k;
        assert added[i].typ == t;
      }
    }
  }

  lemma ListsConcat(a: seq<ClusterInfo>, b: seq<ClusterInfo>, t: ClusterType)
    ensures Lists(a + b, t) <==> Lists(a, t) || Lists(b, t)
  {
    var s := a + b;
    if Lists(a, t) {
      var i :| 0 <= i < |a| && a[i].typ == t;
      assert s[i].typ == t;
    }
    if Lists(b, t) {
      var i :| 0 <= i < |b| && b[i].typ == t;
      assert s[|a| + i].typ == t;
    }
  }

  lemma FillLists(c: Cluster, t: ClusterType)
    ensures Lists(Filled(c).clusterSet, t) <==> ProfileOf(c).Needs(t) || Lists(c.clusterSet, t)
  {
    FillAppendsExactlyTheMissing(c);
    var f, u := Filled(c).clusterSet, |c.clusterSet|;
    assert f == c.clusterSet + f[u..];
    ListsConcat(c.clusterSet, f[u..], t);
  }

  /** An entry of a type the user did not list is the table's own. */
  lemma FillUsesTheTable(c: Cluster, i: nat)
    requires i < |Filled(c).clusterSet| && !Lists(c.clusterSet, Filled(c).clusterSet[i].typ)
    ensures !Filled(c).clusterSet[i].typ.Other?
    ensures Filled(c).clusterSet[i] == DefaultEntry(Filled(c).clusterSet[i].typ)
  {
    var u := |c.clusterSet|;
    var rows := PickRows(ProfileOf(c), c.clusterSet, FullTable());
    assert forall k :: 0 <= k < u ==> Filled(c).clusterSet[k] == c.clusterSet[k];
    assert Filled(c).clusterSet[i] == FullTable()[rows[i - u]];
  }

  lemma {:induction false} NothingMissing(p: Profile, user: seq<ClusterInfo>, table: seq<ClusterInfo>)
    requires forall t :: p.Needs(t) ==> Lists(user, t)
    ensures MissingRows(p, user, table) == []
  {
    if table != [] {
      NothingMissing(p, user, table[..|table| - 1]);
    }
  }

  lemma FillIdempotent(c: Cluster)
    ensures Filled(Filled(c)) == Filled(c)
  {
    var f := Filled(c);
    assert ProfileOf(f) == ProfileOf(c);
    forall t | ProfileOf(f).Needs(t)
      ensures Lists(f.clusterSet, t)
    {
      FillLists(c, t);
    }
    NothingMissing(ProfileOf(f), f.clusterSet, FullTable());
  }

  /** What the completed set lists, in terms of the kind and the features: the three base types always, the
      storage's own types, and what the two other features ask for, beside what the user lists. */
  lemma FilledByFeatures(c: Cluster)
    ensures var f := Filled(c).clusterSet;
      var hdfs := "storage" in c.features && c.features["storage"] == "hdfs";
      var doris := "olap" in c.features && c.features["olap"] == "doris";
      var ha := "kyuubi-ha" in c.features && c.features["kyuubi-ha"] in ["1", "t", "T", "TRUE", "true", "True"];
      && Lists(f, Kyuubi) && Lists(f, MetaStore) && Lists(f, Database)
      && (Lists(f, Spark) <==> Lists(c.clusterSet, Spark) || c.kind == "batch")
      && (Lists(f, Minio) <==> Lists(c.clusterSet, Minio) || !hdfs)
      && (forall t :: t in {Hdfs, HdfsNameNode, HdfsDataNode, HdfsJournalNode} ==> (Lists(f, t) <==> Lists(c.clusterSet, t) || hdfs))
      && (forall t :: t in {Doris, DorisFE, DorisBE} ==> (Lists(f, t) <==> Lists(c.clusterSet, t) || doris))
      && (Lists(f, Zookeeper) <==> Lists(c.clusterSet, Zookeeper) || hdfs || ha)
      && (forall t: ClusterType :: t.Other? ==> (Lists(f, t) <==> Lists(c.clusterSet, t)))
  {
    FillLists(c, Kyuubi);
    FillLists(c, MetaStore);
    FillLists(c, Database);
    FillLists(c, Spark);
    FillLists(c, Minio);
    FillLists(c, Zookeeper);
    hide Lists, Filled;
    forall t: ClusterType | t in {Hdfs, HdfsNameNode, HdfsDataNode, HdfsJournalNode, Doris, DorisFE, DorisBE} || t.Other?
      ensures Lists(Filled(c).clusterSet, t) <==> ProfileOf(c).Needs(t) || Lists(c.clusterSet, t)
    {
      FillLists(c, t);
    }
  }

  /** An entry the user left out comes with the replicas, the database kind and the references of the
      shipped table. */
  lemma FilledDefaults(c: Cluster, i: nat)
    requires i < |Filled(c).clusterSet| && !Lists(c.clusterSet, Filled(c).clusterSet[i].typ)
    ensures var v := Filled(c).clusterSet[i];
      && (v.typ == Kyuubi ==> v.replicas == 1 && v.refs == [Spark])
      && (v.typ == DorisFE || v.typ == DorisBE || v.typ == HdfsJournalNode ==> v.replicas == 3)
      && (v.typ == HdfsNameNode ==> v.replicas == 2)
      && (v.typ in {MetaStore, Database, Minio, Spark, Doris, Zookeeper, Hdfs, HdfsDataNode} ==> v.replicas == 0)
      && (v.typ == Database ==> v.subType == "postgres")
      && (v.typ == Doris ==> v.refs == [DorisFE, DorisBE] && v.auth.user == "root")
      && (v.typ == Hdfs ==> v.refs == [HdfsNameNode, HdfsDataNode, HdfsJournalNode])
      && (v.typ != Database ==> v.subType == "") && (v.typ != Kyuubi ==> v.conf == map[])
      && v.disks == 0 && v.k8sConf == map[] && v.auth.kind == ""
  {
    FillUsesTheTable(c, i);
    hide Filled, Lists;
  }

  /** The order of the shipped table. */
  lemma TableInOrder()
    ensures TypesOf(FullTable()) == [Kyuubi, MetaStore, Database, Minio, Spark, Doris, DorisFE, DorisBE, Zookeeper,
                                     Hdfs, HdfsNameNode, HdfsDataNode, HdfsJournalNode]
  {
    hide DefaultEntry;
  }

  /** The shipped order: what a cluster without entries and features gets, and what it gets with HDFS. */
  lemma DefaultSets(c: Cluster)
    requires c.clusterSet == [] && c.kind == "batch" && "kyuubi-ha" !in c.features && "olap" !in c.features
    ensures "storage" !in c.features ==> TypesOf(Filled(c).clusterSet) == [Kyuubi, MetaStore, Database, Minio, Spark]
    ensures "storage" in c.features && c.features["storage"] == "hdfs" ==>
      TypesOf(Filled(c).clusterSet)
      == [Kyuubi, MetaStore, Database, Spark, Zookeeper, Hdfs, HdfsNameNode, HdfsDataNode, HdfsJournalNode]
  {
    var p, table := ProfileOf(c), FullTable();
    assert table[..13] == table;
    RowsUpTo(p, 13);
    assert p == Profile(true, false, p.storage, false);
    assert NeededRows(p, 13) == TypesOf(Filled(c).clusterSet);
    PickedDefaults(p);
  }

  function TypesOf(entries: seq<ClusterInfo>): (r: seq<ClusterType>)
    ensures |r| == |entries| && forall i :: 0 <= i < |r| ==> r[i] == entries[i].typ
  {
    seq(|entries|, i requires 0 <= i < |entries| => entries[i].typ)
  }

  /** The needed types among the first n rows. */
  function NeededRows(p: Profile, n: nat): seq<ClusterType>
    requires n <= TABLE_SIZE
  {
    if n == 0 then [] else NeededRows(p, n - 1) + if p.Needs(TypeAt(n - 1)) then [TypeAt(n - 1)] else []
  }

  lemma {:induction false} RowsUpTo(p: Profile, n: nat)
    requires n <= TABLE_SIZE
    ensures TypesOf(MissingRows(p, [], FullTable()[..n])) == NeededRows(p, n)
  {
    hide *;
    if n == 0 {
      NoRows(p);
    } else {
      RowsUpTo(p, n - 1);
      RowIsNeeded(p, n - 1);
      OneMoreRow(p, [], FullTable(), n - 1);
      OneMoreNeeded(p, n);
      TypesOfOneMore(MissingRows(p, [], FullTable()[..n - 1]), FullTable()[n - 1]);
    }
  }

  lemma NoRows(p: Profile)
    ensures TypesOf(MissingRows(p, [], FullTable()[..0])) == NeededRows(p, 0)
  {
    hide FullTable;
    assert FullTable()[..0] == [];
  }

  lemma OneMoreNeeded(p: Profile, n: nat)
    requires 0 < n <= TABLE_SIZE
    ensures NeededRows(p, n) == NeededRows(p, n - 1) + if p.Needs(TypeAt(n - 1)) then [TypeAt(n - 1)] else []
  {
    hide Profile.Needs, TypeAt;
  }

  lemma RowIsNeeded(p: Profile, i: nat)
    requires i < TABLE_SIZE
    ensures FullTable()[i].typ == TypeAt(i)
    ensures Missing(p, [], TypeAt(i)) <==> p.Needs(TypeAt(i))
  {
    assert !Lists([], TypeAt(i));
    hide FullTable, Profile.Needs, Lists;
  }

  lemma TypesOfOneMore(entries: seq<ClusterInfo>, v: ClusterInfo)
    ensures TypesOf(entries + [v]) == TypesOf(entries) + [v.typ]
    ensures entries + [] == entries && TypesOf(entries) + [] == TypesOf(entries)
  {
  }

  lemma PickedDefaults(p: Profile)
    requires p.batch && !p.ha && !p.doris
    ensures p.storage == MinioStorage ==> NeededRows(p, 13) == [Kyuubi, MetaStore, Database, Minio, Spark]
    ensures p.storage == HdfsStorage ==>
      NeededRows(p, 13) == [Kyuubi, MetaStore, Database, Spark, Zookeeper, Hdfs, HdfsNameNode, HdfsDataNode, HdfsJournalNode]
  {
    assert NeededRows(p, 0) == [];
    assert NeededRows(p, 1) == [Kyuubi];
    assert NeededRows(p, 2) == [Kyuubi, MetaStore];
    var base := [Kyuubi, MetaStore, Database];
    assert NeededRows(p, 3) == base;
    assert NeededRows(p, 4) == base + if p.storage == MinioStorage then [Minio] else [];
    var front := base + (if p.storage == MinioStorage then [Minio] else []) + [Spark];
    assert NeededRows(p, 5) == front;
    assert NeededRows(p, 6) == front;
    assert NeededRows(p, 7) == front;
    assert NeededRows(p, 8) == front;
    var hdfs := p.storage == HdfsStorage;
    assert NeededRows(p, 9) == front + if hdfs then [Zookeeper] else [];
    assert NeededRows(p, 10) == front + if hdfs then [Zookeeper, Hdfs] else [];
    assert NeededRows(p, 11) == front + if hdfs then [Zookeeper, Hdfs, HdfsNameNode] else [];
    assert NeededRows(p, 12) == front + if hdfs then [Zookeeper, Hdfs, HdfsNameNode, HdfsDataNode] else [];
  }

  predicate ClosedUnderRefs(entries: seq<ClusterInfo>) {
    forall i, r :: 0 <= i < |entries| && r in entries[i].refs ==> Lists(entries, r)
  }

  /** With no entries of the user's own, the completed set is closed under its references
      exactly for batch clusters: only they get the spark entry kyuubi refers to. */
  lemma FillClosedUnderRefs(c: Cluster)
    requires c.clusterSet == []
    ensures ClosedUnderRefs(Filled(c).clusterSet) <==> c.kind == BATCH
  {
    var f := Filled(c).clusterSet;
    if c.kind == BATCH {
      forall i, r | 0 <= i < |f| && r in f[i].refs
        ensures Lists(f, r)
      {
        FillUsesTheTable(c, i);
        assert Lists(f, f[i].typ);
        FillLists(c, f[i].typ);
        FillLists(c, r);
      }
    } else {
      FillLists(c, Kyuubi);
      var i :| 0 <= i < |f| && f[i].typ == Kyuubi;
      FillUsesTheTable(c, i);
      assert Spark in f[i].refs;
      FillLists(c, Spark);
    }
  }

  // ---------------------------------------------------------------- lookups

  predicate IsFirst(entries: seq<ClusterInfo>, t: ClusterType, i: nat)
    requires i < |entries|
  {
    entries[i].typ == t && forall j :: 0 <= j < i ==> entries[j].typ != t
  }

  function FirstOf(entries: seq<ClusterInfo>, t: ClusterType): (r: Option<ClusterInfo>)
    ensures r.Some? <==> Lists(entries, t)
    ensures r.Some? ==> r.value.typ == t && r.value in entries
    ensures forall i :: 0 <= i < |entries| && IsFirst(entries, t, i) ==> r == Some(entries[i])
  {
    if entries == [] then None
    else if entries[0].typ == t then Some(entries[0])
    else
      var r := FirstOf(entries[1..], t);
      assert forall i :: 0 <= i < |entries| && IsFirst(entries, t, i) ==> r == Some(entries[i]) by {
        forall i | 0 <= i < |entries| && IsFirst(entries, t, i) ensures r == Some(entries[i]) {
          assert i > 0 && IsFirst(entries[1..], t, i - 1);
        }
      }
      assert Lists(entries[1..], t) ==> Lists(entries, t);
      assert Lists(entries, t) ==> Lists(entries[1..], t) by {
        if Lists(entries, t) {
          var i :| 0 <= i < |entries| && entries[i].typ == t;
          assert entries[1..][i - 1].typ == t;
        }
      }
      r
  }

  /** GetDefaultRefClusterInfo: only the base table is searched. */
  function BaseEntry(t: ClusterType): Option<ClusterInfo> {
    if !t.Other? && RowOf(t) < BASE_SIZE then Some(DefaultEntry(t)) else None
  }

  /** GetRefClusterInfo: the cluster set first, then the base table. */
  function RefClusterInfo(c: Cluster, t: ClusterType): Option<ClusterInfo> {
    var r := FirstOf(c.clusterSet, t);
    if r.Some? then r else BaseEntry(t)
  }

  /** The user's first entry of the type is found before the base table, which has three types only. */
  lemma RefClusterInfoPrefersTheSet(c: Cluster, t: ClusterType, i: nat)
    ensures i < |c.clusterSet| && IsFirst(c.clusterSet, t, i) ==> RefClusterInfo(c, t) == Some(c.clusterSet[i])
    ensures !Lists(c.clusterSet, t) ==> (RefClusterInfo(c, t).Some? <==> t in {Kyuubi, MetaStore, Database})
  {
  }

  /** The spark entry that kyuubi's configuration dereferences exists after completion exactly
      when the cluster is a batch cluster or its user listed one. */
  lemma SparkLookupNeverNil(c: Cluster)
    ensures RefClusterInfo(Filled(c), Spark).Some? <==> c.kind == BATCH || Lists(c.clusterSet, Spark)
  {
    FillLists(c, Spark);
  }

  /** checkHdfsNameNodeHA: some entry asks for exactly two name nodes. */
  predicate TwoNameNodes(entries: seq<ClusterInfo>) {
    exists i :: 0 <= i < |entries| && entries[i].typ == HdfsNameNode && entries[i].replicas == 2
  }

  /** getFEAndBEClusterInfo succeeds. */
  predicate FindsFEAndBE(c: Cluster, doris: ClusterInfo) {
    && DorisFE in doris.refs && Lists(c.clusterSet, DorisFE)
    && DorisBE in doris.refs && Lists(c.clusterSet, DorisBE)
  }

  lemma AppendedDorisFindsFEAndBE(c: Cluster, i: nat)
    requires i < |Filled(c).clusterSet|
    requires Filled(c).clusterSet[i].typ == Doris && !Lists(c.clusterSet, Doris)
    ensures FindsFEAndBE(Filled(c), Filled(c).clusterSet[i])
  {
    FillUsesTheTable(c, i);
    assert Lists(Filled(c).clusterSet, Doris);
    FillLists(c, Doris);
    FillLists(c, DorisFE);
    FillLists(c, DorisBE);
  }

  // ---------------------------------------------------------------- the resource the controller changes

  class NineCluster {
    const id: Ident
    const dataVolume: int
    const features: map<string, string>
    var kind: string
    var clusterSet: seq<ClusterInfo>

    constructor (c: Cluster)
      ensures Value() == c
    {
      id, dataVolume, features := c.id, c.dataVolume, c.features;
      kind, clusterSet := c.kind, c.clusterSet;
    }

    function Value(): Cluster
      reads this
    {
      Cluster(id, dataVolume, kind, features, clusterSet)
    }

    method FillNineClusterType() returns (ok: bool)
      modifies this`kind
      ensures ok == FilledKind(old(Value())).Some?
      ensures Value() == if ok then FilledKind(old(Value())).value else old(Value())
    {
      ok := true;
      if kind == "" {
        kind := BATCH;
      } else if kind != STREAM && kind != BATCH {
        ok := false;
      }
    }

    method FillClustersInfo()
      modifies this`clusterSet
      ensures Value() == Filled(old(Value()))
    {
      hide ProfileOf, FullTable, Lists, Profile.Needs, MissingRows;
      ghost var c := Value();
      var p := ProfileOf(Value());
      var need := CollectNeeded(p);

      var listed := CollectListed(clusterSet);
      var table := FullTable();
      NoMissingRows(p, c.clusterSet);
      for i := 0 to |table|
        invariant clusterSet == c.clusterSet + MissingRows(p, c.clusterSet, table[..i])
      {
        var v := table[i];
        OneMoreRow(p, c.clusterSet, table, i);
        assert v.typ in need && v.typ !in listed <==> Missing(p, c.clusterSet, v.typ);
        if v.typ in need && v.typ !in listed {
          clusterSet := clusterSet + [v];
        }
      }
      assert table[..|table|] == table;
    }
  }

  lemma NoMissingRows(p: Profile, user: seq<ClusterInfo>)
    ensures MissingRows(p, user, []) == []
  {
  }

  lemma OneMoreRow(p: Profile, user: seq<ClusterInfo>, table: seq<ClusterInfo>, i: nat)
    requires i < |table|
    ensures MissingRows(p, user, table[..i + 1])
            == MissingRows(p, user, table[..i]) + if Missing(p, user, table[i].typ) then [table[i]] else []
  {
    assert table[..i + 1][..i] == table[..i];
  }

  method CollectListed(user: seq<ClusterInfo>) returns (listed: set<ClusterType>)
    ensures forall t :: t in listed <==> Lists(user, t)
  {
    listed := {};
    for i := 0 to |user|
      invariant forall t :: t in listed <==> Lists(user[..i], t)
    {
      ListsAppend(user[..i], user[i]);
      assert user[..i + 1] == user[..i] + [user[i]];
      listed := listed + {user[i].typ};
    }
    assert user[..|user|] == user;
  }

  method CollectNeeded(p: Profile) returns (need: set<ClusterType>)
    ensures forall t :: t in need <==> p.Needs(t)
  {
    need := {};
    for i := 0 to BASE_SIZE
      invariant need == set k | 0 <= k < i :: TypeAt(k)
    {
      need := need + {TypeAt(i)};
    }
    assert need == {TypeAt(0), TypeAt(1), TypeAt(2)};
    if p.batch {
      need := need + {Spark};
    }
    if p.ha || p.storage == HdfsStorage {
      need := need + {Zookeeper};
    }
    match p.storage {
      case MinioStorage => need := need + {Minio};
      case HdfsStorage => need := need + {Hdfs, HdfsNameNode, HdfsJournalNode, HdfsDataNode};
    }
    if p.doris {
      need := need + {Doris, DorisFE, DorisBE};
    }
  }

  lemma ListsAppend(entries: seq<ClusterInfo>, v: ClusterInfo)
    ensures forall t :: Lists(entries + [v], t) <==> Lists(entries, t) || v.typ == t
  {
    forall t
      ensures Lists(entries + [v], t) <==> Lists(entries, t) || v.typ == t
    {
      ListsConcat(entries, [v], t);
      assert [v][0] == v;
    }
  }
}
