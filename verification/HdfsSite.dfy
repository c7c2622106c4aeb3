/** The HDFS client configuration: written under computed keys, and read back from them. */
module HdfsSite {
  import opened Text
  import opened Clusters

  type Site = map<string, string>

  const NAMESERVICES := "dfs.nameservices"
  const DEFAULT_FS := "fs.defaultFS"
  const DEFAULT_NAMESERVICE := "nineinfra"
  const FAILOVER := "org.apache.hadoop.hdfs.server.namenode.ha.ConfiguredFailoverProxyProvider"

  function NameNodesKey(ns: string): string {
    "dfs.ha.namenodes." + ns
  }

  function RpcKey(ns: string): string {
    "dfs.namenode.rpc-address." + ns
  }

  function HttpKey(ns: string): string {
    "dfs.namenode.http-address." + ns
  }

  function ProviderKey(ns: string): string {
    "dfs.client.failover.proxy.provider." + ns
  }

  function NodeRpcKey(ns: string, node: string): string {
    RpcKey(ns) + "." + node
  }

  function NodeHttpKey(ns: string, node: string): string {
    HttpKey(ns) + "." + node
  }

  // ---------------------------------------------------------------- what the cluster says

  predicate NameNodeHA(c: Cluster) {
    TwoNameNodes(c.clusterSet)
  }

  /** GetClusterDomain: the first entry of the type that names one. */
  function ClusterDomain(entries: seq<ClusterInfo>, t: ClusterType): string {
    if entries == [] then "cluster.local"
    else if entries[0].typ == t && "clusterDomain" in entries[0].k8sConf then entries[0].k8sConf["clusterDomain"]
    else ClusterDomain(entries[1..], t)
  }

  function NameNodeAddress(c: Cluster, i: nat): string {
    var resource := c.id.name + "-nine" + "-hdfs";
    resource + "-namenode-" + Decimal(i) + "." + resource + "-namenode." + c.id.ns + ".svc."
    + ClusterDomain(c.clusterSet, Hdfs) + ":" + "8020"
  }

  /** A setting of the user's hdfs entry. */
  function Setting(c: Cluster, key: string): Option<string> {
    match FirstOf(c.clusterSet, Hdfs)
    case None => None
    case Some(v) => if key in v.conf then Some(v.conf[key]) else None
  }

  function NameService(c: Cluster): string {
    match Setting(c, NAMESERVICES)
    case None => DEFAULT_NAMESERVICE
    case Some(ns) => ns
  }

  /** The address of a name node, in full. */
  lemma AddressInFull(c: Cluster, i: nat)
    ensures NameNodeAddress(c, i) ==
      c.id.name + "-nine-hdfs-namenode-" + Decimal(i) + "." + c.id.name + "-nine-hdfs-namenode." + c.id.ns + ".svc."
      + ClusterDomain(c.clusterSet, Hdfs) + ":8020"
  {
    hide ClusterDomain, Decimal;
    assert "-nine" + "-hdfs" == "-nine-hdfs" && ":" + "8020" == ":8020";
    var name, d, rest := c.id.name, Decimal(i), ClusterDomain(c.clusterSet, Hdfs);
    assert name + "-nine" + "-hdfs" + "-namenode-" == name + "-nine-hdfs-namenode-";
    assert name + "-nine" + "-hdfs" + "-namenode." == name + "-nine-hdfs-namenode.";
    Regroup(name + "-nine" + "-hdfs", "-namenode-", d, "-namenode.", c.id.ns, rest);
  }

  lemma Regroup(r: string, a: string, d: string, b: string, ns: string, domain: string)
    ensures r + a + d + "." + r + b + ns + ".svc." + domain + ":" + "8020"
            == (r + a) + d + "." + (r + b) + ns + ".svc." + domain + ":8020"
  {
  }

  lemma DigitsHaveNoDot(n: nat)
    ensures '.' !in Decimal(n)
  {
  }

  /** It starts with its node's own name, so equal addresses are of one node. */
  lemma AddressesDiffer(c: Cluster, i: nat, j: nat)
    requires NameNodeAddress(c, i) == NameNodeAddress(c, j)
    ensures i == j
  {
    AddressStarts(c, i);
    AddressStarts(c, j);
    var head := c.id.name + "-nine-hdfs-namenode-";
    var rest := NameNodeAddress(c, i)[|head|..];
    DigitsHaveNoDot(i);
    DigitsHaveNoDot(j);
    var a :| rest == Decimal(i) + "." + a;
    var b :| rest == Decimal(j) + "." + b;
    CutAtFirst(Decimal(i), '.', a);
    CutAtFirst(Decimal(j), '.', b);
    DecimalInjective(i, j);
  }

  lemma AddressStarts(c: Cluster, i: nat)
    ensures var head := c.id.name + "-nine-hdfs-namenode-";
      && head <= NameNodeAddress(c, i)
      && exists rest :: NameNodeAddress(c, i)[|head|..] == Decimal(i) + "." + rest
  {
    AddressInFull(c, i);
    hide NameNodeAddress, ClusterDomain, Decimal;
    var head := c.id.name + "-nine-hdfs-namenode-";
    var r := c.id.name + "-nine-hdfs-namenode.";
    var rest := r + c.id.ns + ".svc." + ClusterDomain(c.clusterSet, Hdfs) + ":8020";
    StartsAndRest(head, Decimal(i), r, c.id.ns, ClusterDomain(c.clusterSet, Hdfs));
    AfterHead(head, Decimal(i) + "." + rest);
    hide *;
    assert NameNodeAddress(c, i)[|head|..] == Decimal(i) + "." + rest;
  }

  lemma AfterHead(head: string, rest: string)
    ensures head <= head + rest && (head + rest)[|head|..] == rest
  {
  }

  lemma StartsAndRest(head: string, d: string, r: string, ns: string, domain: string)
    ensures head + d + "." + r + ns + ".svc." + domain + ":8020" == head + (d + "." + (r + ns + ".svc." + domain + ":8020"))
  {
  }

  /** The domain is that of the first entry of the type that names one, or the default. */
  lemma {:induction false} DomainIsFirstNamed(entries: seq<ClusterInfo>, t: ClusterType, i: nat)
    requires i <= |entries|
    requires forall j :: 0 <= j < i ==> entries[j].typ != t || "clusterDomain" !in entries[j].k8sConf
    ensures i == |entries| ==> ClusterDomain(entries, t) == "cluster.local"
    ensures i < |entries| && entries[i].typ == t && "clusterDomain" in entries[i].k8sConf ==>
      ClusterDomain(entries, t) == entries[i].k8sConf["clusterDomain"]
  {
    if i > 0 {
      DomainIsFirstNamed(entries[1..], t, i - 1);
    }
  }

  /** The nameservice is what the first hdfs entry sets, or the default. */
  lemma NameServiceIsFirstSet(c: Cluster, i: nat)
    ensures i < |c.clusterSet| && IsFirst(c.clusterSet, Hdfs, i) ==>
      NameService(c) == if "dfs.nameservices" in c.clusterSet[i].conf then c.clusterSet[i].conf["dfs.nameservices"] else "nineinfra"
    ensures !Lists(c.clusterSet, Hdfs) ==> NameService(c) == "nineinfra"
  {
  }

  // ---------------------------------------------------------------- the keys never collide

  lemma BaseKeysDiffer(ns: string)
    ensures NAMESERVICES != NameNodesKey(ns) && NAMESERVICES != RpcKey(ns)
  {
    assert NAMESERVICES[4] == 'n' && NAMESERVICES[8] == 's';
    assert NameNodesKey(ns)[4] == 'h' && RpcKey(ns)[8] == 'n';
  }

  lemma KeysDiffer(ns: string)
    ensures NAMESERVICES != NameNodesKey(ns) && NAMESERVICES != RpcKey(ns)
    ensures NameNodesKey(ns) != RpcKey(ns)
    ensures forall n :: NodeRpcKey(ns, n) != NAMESERVICES && NodeRpcKey(ns, n) != NameNodesKey(ns) && NodeRpcKey(ns, n) != ProviderKey(ns)
    ensures forall n :: NodeHttpKey(ns, n) != NAMESERVICES && NodeHttpKey(ns, n) != NameNodesKey(ns) && NodeHttpKey(ns, n) != ProviderKey(ns)
    ensures forall m, n :: NodeRpcKey(ns, m) != NodeHttpKey(ns, n)
    ensures NodeRpcKey(ns, "nn0") != NodeRpcKey(ns, "nn1") && NodeHttpKey(ns, "nn0") != NodeHttpKey(ns, "nn1")
    ensures ProviderKey(ns) != NAMESERVICES && ProviderKey(ns) != NameNodesKey(ns)
  {
    assert NAMESERVICES[4] == 'n' && NAMESERVICES[8] == 's';
    assert NameNodesKey(ns)[4] == 'h' && ProviderKey(ns)[4] == 'c';
    assert RpcKey(ns)[4] == 'n' && RpcKey(ns)[8] == 'n' && RpcKey(ns)[13] == 'r';
    assert HttpKey(ns)[4] == 'n' && HttpKey(ns)[8] == 'n' && HttpKey(ns)[13] == 'h';
    assert forall n :: NodeRpcKey(ns, n)[4] == 'n' && NodeRpcKey(ns, n)[8] == 'n' && NodeRpcKey(ns, n)[13] == 'r';
    assert forall n :: NodeHttpKey(ns, n)[4] == 'n' && NodeHttpKey(ns, n)[8] == 'n' && NodeHttpKey(ns, n)[13] == 'h';
    var r, h := |RpcKey(ns)| + 3, |HttpKey(ns)| + 3;
    assert NodeRpcKey(ns, "nn0")[r] == '0' && NodeRpcKey(ns, "nn1")[r] == '1';
    assert NodeHttpKey(ns, "nn0")[h] == '0' && NodeHttpKey(ns, "nn1")[h] == '1';
  }

  // ---------------------------------------------------------------- the writer

  /** What a client needs of the map. */
  ghost predicate Describes(site: Site, c: Cluster) {
    var ns := NameService(c);
    && NAMESERVICES in site && site[NAMESERVICES] == ns
    && if NameNodeHA(c) then
         && site.Keys == {NAMESERVICES, NameNodesKey(ns), ProviderKey(ns), NodeRpcKey(ns, "nn0"), NodeRpcKey(ns, "nn1"),
                          NodeHttpKey(ns, "nn0"), NodeHttpKey(ns, "nn1")}
         && site[NameNodesKey(ns)] == "nn0,nn1"
         && site[ProviderKey(ns)] == FAILOVER
         && site[NodeRpcKey(ns, "nn0")] == site[NodeHttpKey(ns, "nn0")] == NameNodeAddress(c, 0)
         && site[NodeRpcKey(ns, "nn1")] == site[NodeHttpKey(ns, "nn1")] == NameNodeAddress(c, 1)
       else
         && site.Keys == {NAMESERVICES, RpcKey(ns)}
         && site[RpcKey(ns)] == NameNodeAddress(c, 0)
  }

  function NodeName(i: nat): string {
    "nn" + Decimal(i)
  }

  /** constructHdfsSite. */
  method ConstructHdfsSite(c: Cluster) returns (site: Site)
    ensures Describes(site, c)
  {
    site := map[];
    var entry := FirstOf(c.clusterSet, Hdfs);
    if entry.Some? && NAMESERVICES in entry.value.conf {
      site := site[NAMESERVICES := entry.value.conf[NAMESERVICES]];
    }
    if NAMESERVICES !in site {
      site := site[NAMESERVICES := DEFAULT_NAMESERVICE];
    }
    var ns := site[NAMESERVICES];
    assert ns == NameService(c) && site.Keys == {NAMESERVICES};
    hide NameService, NameNodeAddress, NodeRpcKey, NodeHttpKey, RpcKey, HttpKey, ProviderKey, NameNodesKey, NodeName, NameNodeHA, Describes;
    BaseKeysDiffer(ns);
    if NameNodeHA(c) {
      if NameNodesKey(ns) !in site {
        site := site[NameNodesKey(ns) := "nn0,nn1"];
        for i := 0 to 2
          invariant site == WithNodes(c, ns, i)
        {
          site := site[NodeRpcKey(ns, NodeName(i)) := NameNodeAddress(c, i)];
          site := site[NodeHttpKey(ns, NodeName(i)) := NameNodeAddress(c, i)];
        }
        site := site[ProviderKey(ns) := FAILOVER];
      }
      WithNodesDescribes(c);
    } else {
      if RpcKey(ns) !in site {
        site := site[RpcKey(ns) := NameNodeAddress(c, 0)];
      }
      SingleDescribes(c);
    }
  }

  /** The map after n rounds of the loop over the name nodes. */
  ghost function WithNodes(c: Cluster, ns: string, n: nat): Site {
    if n == 0 then map[NAMESERVICES := ns][NameNodesKey(ns) := "nn0,nn1"]
    else WithNodes(c, ns, n - 1)[NodeRpcKey(ns, NodeName(n - 1)) := NameNodeAddress(c, n - 1)]
                                [NodeHttpKey(ns, NodeName(n - 1)) := NameNodeAddress(c, n - 1)]
  }

  lemma WithNodesDescribes(c: Cluster)
    requires NameNodeHA(c)
    ensures var ns := NameService(c); Describes(WithNodes(c, ns, 2)[ProviderKey(ns) := FAILOVER], c)
  {
    var ns := NameService(c);
    NodeNames();
    KeysDiffer(ns);
    hide NameService, NameNodeAddress, NodeRpcKey, NodeHttpKey, RpcKey, HttpKey, ProviderKey, NameNodesKey, NodeName, NameNodeHA;
    var s0 := WithNodes(c, ns, 0);
    var s1 := WithNodes(c, ns, 1);
    assert s1 == s0[NodeRpcKey(ns, "nn0") := NameNodeAddress(c, 0)][NodeHttpKey(ns, "nn0") := NameNodeAddress(c, 0)];
    var s2 := WithNodes(c, ns, 2);
    assert s2 == s1[NodeRpcKey(ns, "nn1") := NameNodeAddress(c, 1)][NodeHttpKey(ns, "nn1") := NameNodeAddress(c, 1)];
  }

  lemma SingleDescribes(c: Cluster)
    requires !NameNodeHA(c)
    ensures var ns := NameService(c); Describes(map[NAMESERVICES := ns][RpcKey(ns) := NameNodeAddress(c, 0)], c)
  {
    KeysDiffer(NameService(c));
    hide NameService, NameNodeAddress, RpcKey, NameNodeHA;
  }

  lemma NodeNames()
    ensures NodeName(0) == "nn0" && NodeName(1) == "nn1"
  {
  }

  // ---------------------------------------------------------------- the reader

  function Lookup(site: Site, key: string): string {
    if key in site then site[key] else ""
  }

  function AddressesIn(site: Site): seq<string> {
    if NAMESERVICES !in site then []
    else
      var ns := site[NAMESERVICES];
      if NameNodesKey(ns) in site then
        var nodes := Split(site[NameNodesKey(ns)], ',');
        seq(|nodes|, i requires 0 <= i < |nodes| => Lookup(site, NodeRpcKey(ns, nodes[i])))
      else [Lookup(site, RpcKey(ns))]
  }

  /** The addresses createHdfsDataDir hands to its client. */
  method DataDirAddresses(site: Option<Site>) returns (addresses: seq<string>)
    ensures addresses == if site.None? then [] else AddressesIn(site.value)
  {
    addresses := [];
    if site.Some? && NAMESERVICES in site.value {
      var ns := site.value[NAMESERVICES];
      if NameNodesKey(ns) in site.value {
        var nodes := Split(site.value[NameNodesKey(ns)], ',');
        for i := 0 to |nodes|
          invariant |addresses| == i
          invariant forall j :: 0 <= j < i ==> addresses[j] == Lookup(site.value, NodeRpcKey(ns, nodes[j]))
        {
          addresses := addresses + [Lookup(site.value, NodeRpcKey(ns, nodes[i]))];
        }
      } else {
        addresses := addresses + [Lookup(site.value, RpcKey(ns))];
      }
    }
  }

  lemma SplitAtOne(a: string, c: char, b: string)
    requires c !in a && c !in b
    ensures Split(a + [c] + b, c) == [a, b]
  {
    CutAtFirst(a, c, b);
    assert IndexOf(b, c) == |b|;
  }

  lemma SplitOfTwo()
    ensures Split("nn0,nn1", ',') == ["nn0", "nn1"]
  {
    hide *;
    SplitAtOne("nn0", ',', "nn1");
    assert "nn0" + "," + "nn1" == "nn0,nn1";
  }

  /** Whatever the cluster and the nameservice the user chose, the reader finds the written addresses:
      both name nodes in order under high availability, the only one otherwise. */
  lemma AddressesComeBack(c: Cluster, site: Site)
    requires Describes(site, c)
    ensures AddressesIn(site) == if NameNodeHA(c) then [NameNodeAddress(c, 0), NameNodeAddress(c, 1)] else [NameNodeAddress(c, 0)]
  {
    var ns := NameService(c);
    KeysDiffer(ns);
    SplitOfTwo();
    hide NameService, NameNodeAddress, NodeRpcKey, NodeHttpKey, RpcKey, HttpKey, ProviderKey, NameNodesKey, Split;
    if !NameNodeHA(c) {
      assert NameNodesKey(ns) !in site.Keys;
    }
  }

  /** What the reader gets, in full: with exactly two name nodes two different addresses, of node 0 and of
      node 1, and otherwise that of node 0. */
  lemma AddressesInFull(c: Cluster, site: Site)
    requires Describes(site, c)
    ensures (exists v :: v in c.clusterSet && v.typ == HdfsNameNode && v.replicas == 2) ==>
      && |AddressesIn(site)| == 2 && AddressesIn(site)[0] != AddressesIn(site)[1]
      && c.id.name + "-nine-hdfs-namenode-0." <= AddressesIn(site)[0] && c.id.name + "-nine-hdfs-namenode-1." <= AddressesIn(site)[1]
    ensures !(exists v :: v in c.clusterSet && v.typ == HdfsNameNode && v.replicas == 2) ==>
      |AddressesIn(site)| == 1 && c.id.name + "-nine-hdfs-namenode-0." <= AddressesIn(site)[0]
  {
    AddressesComeBack(c, site);
    if NameNodeAddress(c, 0) == NameNodeAddress(c, 1) {
      AddressesDiffer(c, 0, 1);
    }
    NodeStarts(c, 0);
    NodeStarts(c, 1);
    TwoMeansTwo(c);
    hide NameNodeAddress, AddressesIn, Describes, NameNodeHA, Decimal;
    assert Decimal(0) == "0" && Decimal(1) == "1" by { DecimalDigits(); }
    assert c.id.name + "-nine-hdfs-namenode-" + "0" + "." == c.id.name + "-nine-hdfs-namenode-0.";
    assert c.id.name + "-nine-hdfs-namenode-" + "1" + "." == c.id.name + "-nine-hdfs-namenode-1.";
  }

  lemma DecimalDigits()
    ensures Decimal(0) == "0" && Decimal(1) == "1"
  {
  }

  lemma NodeStarts(c: Cluster, i: nat)
    ensures c.id.name + "-nine-hdfs-namenode-" + Decimal(i) + "." <= NameNodeAddress(c, i)
  {
    AddressStarts(c, i);
    hide NameNodeAddress, Decimal;
    var head := c.id.name + "-nine-hdfs-namenode-";
    var rest :| NameNodeAddress(c, i)[|head|..] == Decimal(i) + "." + rest;
    assert NameNodeAddress(c, i) == head + NameNodeAddress(c, i)[|head|..];
    assert NameNodeAddress(c, i) == (head + Decimal(i) + ".") + rest;
  }

  lemma TwoMeansTwo(c: Cluster)
    ensures NameNodeHA(c) <==> exists v :: v in c.clusterSet && v.typ == HdfsNameNode && v.replicas == 2
  {
    if v :| v in c.clusterSet && v.typ == HdfsNameNode && v.replicas == 2 {
      var i :| 0 <= i < |c.clusterSet| && c.clusterSet[i] == v;
    }
  }

  /** The keys and values, as Hadoop spells them. */
  lemma SiteInFull(c: Cluster, site: Site)
    requires Describes(site, c)
    ensures var ns := NameService(c);
      && "dfs.nameservices" in site && site["dfs.nameservices"] == ns
      && (NameNodeHA(c) ==>
            && "dfs.ha.namenodes." + ns in site && site["dfs.ha.namenodes." + ns] == "nn0,nn1"
            && "dfs.namenode.rpc-address." + ns + ".nn0" in site
            && site["dfs.namenode.rpc-address." + ns + ".nn0"] == NameNodeAddress(c, 0)
            && "dfs.namenode.rpc-address." + ns + ".nn1" in site
            && site["dfs.namenode.rpc-address." + ns + ".nn1"] == NameNodeAddress(c, 1)
            && "dfs.namenode.http-address." + ns + ".nn0" in site
            && site["dfs.namenode.http-address." + ns + ".nn0"] == NameNodeAddress(c, 0)
            && "dfs.namenode.http-address." + ns + ".nn1" in site
            && site["dfs.namenode.http-address." + ns + ".nn1"] == NameNodeAddress(c, 1)
            && "dfs.client.failover.proxy.provider." + ns in site
            && site["dfs.client.failover.proxy.provider." + ns]
               == "org.apache.hadoop.hdfs.server.namenode.ha.ConfiguredFailoverProxyProvider")
      && (!NameNodeHA(c) ==>
            "dfs.namenode.rpc-address." + ns in site && site["dfs.namenode.rpc-address." + ns] == NameNodeAddress(c, 0))
  {
    var ns := NameService(c);
    KeysInFull(ns);
    hide NameService, NameNodeAddress, NameNodeHA, NameNodesKey, RpcKey, NodeRpcKey, NodeHttpKey, ProviderKey;
    assert NameNodeHA(c) ==> {NameNodesKey(ns), ProviderKey(ns), NodeRpcKey(ns, "nn0"), NodeRpcKey(ns, "nn1"),
                              NodeHttpKey(ns, "nn0"), NodeHttpKey(ns, "nn1")} <= site.Keys;
  }

  lemma KeysInFull(ns: string)
    ensures NameNodesKey(ns) == "dfs.ha.namenodes." + ns && RpcKey(ns) == "dfs.namenode.rpc-address." + ns
    ensures ProviderKey(ns) == "dfs.client.failover.proxy.provider." + ns
    ensures NodeRpcKey(ns, "nn0") == "dfs.namenode.rpc-address." + ns + ".nn0"
    ensures NodeRpcKey(ns, "nn1") == "dfs.namenode.rpc-address." + ns + ".nn1"
    ensures NodeHttpKey(ns, "nn0") == "dfs.namenode.http-address." + ns + ".nn0"
    ensures NodeHttpKey(ns, "nn1") == "dfs.namenode.http-address." + ns + ".nn1"
  {
  }

  // ---------------------------------------------------------------- the default file system

  /** constructCoreSite. */
  method ConstructCoreSite(c: Cluster) returns (site: Site)
    ensures site == map["fs.defaultFS" := DefaultFS(c)]
  {
    site := map[];
    var entry := FirstOf(c.clusterSet, Hdfs);
    if entry.Some? && DEFAULT_FS in entry.value.conf {
      site := site[DEFAULT_FS := entry.value.conf[DEFAULT_FS]];
      return;
    }
    if NameNodeHA(c) {
      site := site[DEFAULT_FS := "hdfs://" + DEFAULT_NAMESERVICE];
    } else {
      site := site[DEFAULT_FS := "hdfs://" + NameNodeAddress(c, 0)];
    }
  }

  function DefaultFS(c: Cluster): string {
    match Setting(c, DEFAULT_FS)
    case Some(fs) => fs
    case None => if NameNodeHA(c) then "hdfs://" + DEFAULT_NAMESERVICE else "hdfs://" + NameNodeAddress(c, 0)
  }

  /** The default file system is one that the site configuration resolves: its nameservice under high
      availability, the one address it holds otherwise. */
  ghost predicate Resolves(fs: string, site: Site)
    requires NAMESERVICES in site
  {
    if NameNodesKey(site[NAMESERVICES]) in site then fs == "hdfs://" + site[NAMESERVICES]
    else AddressesIn(site) != [] && fs == "hdfs://" + AddressesIn(site)[0]
  }

  /** The two files agree exactly when the user set the file system to what the site resolves, or set
      none and, under high availability, left the nameservice as it is: the default file system keeps
      the default nameservice when the user renames it. */
  lemma FilesAgree(c: Cluster, site: Site)
    requires Describes(site, c)
    ensures Resolves(DefaultFS(c), site) <==>
            match Setting(c, DEFAULT_FS)
            case Some(fs) => fs == "hdfs://" + (if NameNodeHA(c) then NameService(c) else NameNodeAddress(c, 0))
            case None => NameNodeHA(c) ==> Setting(c, NAMESERVICES) == None || Setting(c, NAMESERVICES) == Some(DEFAULT_NAMESERVICE)
  {
    var ns := NameService(c);
    AddressesComeBack(c, site);
    SiteTellsHA(c, site);
    hide NameNodeAddress, AddressesIn, NodeRpcKey, NodeHttpKey, RpcKey, HttpKey, ProviderKey, NameNodesKey, NameNodeHA;
    SchemeCancels(DEFAULT_NAMESERVICE, ns);
  }

  const DATA_HOUSE_DIR := "/nineinfra/datahouse"
  const WAREHOUSE := "hive.metastore.warehouse.dir"

  /** constructHiveSite. */
  method ConstructHiveSite(c: Cluster) returns (site: Site)
    ensures site == map["hive.metastore.warehouse.dir" := WarehouseDir(c)]
  {
    site := map[];
    match ClusterStorage(c) {
      case MinioStorage => site := site[WAREHOUSE := "s3a:/" + DATA_HOUSE_DIR];
      case HdfsStorage => site := site[WAREHOUSE := "hdfs://" + "nineinfra" + DATA_HOUSE_DIR];
    }
  }

  function WarehouseFS(): string {
    "hdfs://" + "nineinfra"
  }

  function WarehouseDir(c: Cluster): string {
    match ClusterStorage(c)
    case MinioStorage => "s3a:/" + DATA_HOUSE_DIR
    case HdfsStorage => WarehouseFS() + DATA_HOUSE_DIR
  }

  /** The default file system is that of the user's first hdfs entry if it sets one, and where none does the
      default nameservice under high availability and node 0's address otherwise. */
  lemma DefaultFSInFull(c: Cluster, i: nat)
    ensures i < |c.clusterSet| && IsFirst(c.clusterSet, Hdfs, i) && "fs.defaultFS" in c.clusterSet[i].conf ==>
              DefaultFS(c) == c.clusterSet[i].conf["fs.defaultFS"]
    ensures (forall v :: v in c.clusterSet && v.typ == Hdfs ==> "fs.defaultFS" !in v.conf) ==>
              DefaultFS(c) == if exists v :: v in c.clusterSet && v.typ == HdfsNameNode && v.replicas == 2 then "hdfs://nineinfra"
                              else "hdfs://" + NameNodeAddress(c, 0)
  {
    TwoMeansTwo(c);
    hide NameNodeAddress, NameNodeHA, IsFirst;
    assert "hdfs://" + DEFAULT_NAMESERVICE == "hdfs://nineinfra";
    hide FirstOf;
  }

  /** The warehouse is in MinIO's bucket unless the feature asks for HDFS. */
  lemma WarehouseInFull(c: Cluster)
    ensures "storage" in c.features && c.features["storage"] == "hdfs" ==>
      WarehouseDir(c) == "hdfs://nineinfra" + "/nineinfra/datahouse"
    ensures !("storage" in c.features && c.features["storage"] == "hdfs") ==>
      WarehouseDir(c) == "s3a:/" + "/nineinfra/datahouse"
  {
    assert WarehouseFS() == "hdfs://nineinfra";
    hide WarehouseFS;
  }

  /** The warehouse always names the default nameservice, so the site configuration resolves it exactly
      under high availability with the nameservice left as it is, whatever the user sets the default file
      system to: the two files of FilesAgree can agree while the warehouse is out of reach. */
  lemma WarehouseResolves(c: Cluster, site: Site)
    requires Describes(site, c)
    ensures Resolves(WarehouseFS(), site) <==> NameNodeHA(c) && NameService(c) == DEFAULT_NAMESERVICE
  {
    var ns := NameService(c);
    AddressesComeBack(c, site);
    SiteTellsHA(c, site);
    AddressIsLong(c);
    hide NameNodeAddress, AddressesIn, NodeRpcKey, NodeHttpKey, RpcKey, HttpKey, ProviderKey, NameNodesKey, NameNodeHA;
    SchemeCancels(DEFAULT_NAMESERVICE, ns);
    SchemeCancels(DEFAULT_NAMESERVICE, NameNodeAddress(c, 0));
  }

  lemma AddressIsLong(c: Cluster)
    ensures NameNodeAddress(c, 0) != DEFAULT_NAMESERVICE
  {
    hide ClusterDomain, Decimal;
    var resource := c.id.name + "-nine" + "-hdfs";
    var head := resource + "-namenode-" + Decimal(0) + "." + resource + "-namenode.";
    assert |head| > 20;
    assert |NameNodeAddress(c, 0)| >= |head|;
  }

  /** The key of the name nodes tells the two forms of the map apart. */
  lemma SiteTellsHA(c: Cluster, site: Site)
    requires Describes(site, c)
    ensures NameNodesKey(NameService(c)) in site <==> NameNodeHA(c)
  {
    KeysDiffer(NameService(c));
    hide NameService, NameNodeAddress, NodeRpcKey, NodeHttpKey, RpcKey, HttpKey, ProviderKey, NameNodesKey;
    assert NameNodesKey(NameService(c)) in site.Keys <==> NameNodeHA(c);
  }

  lemma SchemeCancels(a: string, b: string)
    ensures "hdfs://" + a == "hdfs://" + b <==> a == b
  {
    assert ("hdfs://" + a)[7..] == a && ("hdfs://" + b)[7..] == b;
  }
}
