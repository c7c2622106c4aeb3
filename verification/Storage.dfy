/** Capacity split over volumes: Go's integer widths, MinIO's pool rules, and the HDFS sub-clusters. */
module Storage {
  import opened Text
  import opened Clusters
  import opened Integers
  import opened Tenants
  import Affix
  import Hosts

  const GIB: int := 1024 * 1024 * 1024

  function GiB2Bytes(dataVolume: int): int {
    Wrap64(dataVolume * GIB)
  }

  /** CapacityPerVolume on a number of bytes; None when the division has no divisor, which panics. */
  function CapacityPerVolume(bytes: int, volumes: int): Option<int> {
    if volumes == 0 then None else Some(Wrap64(Quotient(bytes, volumes)))
  }

  function DiskNum(c: ClusterInfo): int {
    if c.disks != 0 then c.disks else 4
  }

  // ---------------------------------------------------------------- MinIO pools

  datatype PoolError =
    | NoServers | NoVolumes | TwoServersTooFew | ThreeServersTooFew
    | NoTemplate | NoRequests | ZeroSize | NoAccessMode

  /** Pool.Validate. A request without storage reads as a quantity of zero. */
  function PoolCheck(p: Pool): Option<PoolError> {
    if p.servers <= 0 then Some(NoServers)
    else if p.volumesPerServer <= 0 then Some(NoVolumes)
    else if Wrap32(p.servers * p.volumesPerServer) < 4 && p.servers == 2 then Some(TwoServersTooFew)
    else if Wrap32(p.servers * p.volumesPerServer) < 4 && p.servers == 3 then Some(ThreeServersTooFew)
    else if p.claim.None? then Some(NoTemplate)
    else if p.claim.value.requests.None? then Some(NoRequests)
    else if "storage" !in p.claim.value.requests.value || p.claim.value.requests.value["storage"] <= 0 then Some(ZeroSize)
    else if p.claim.value.accessModes == [] then Some(NoAccessMode)
    else None
  }

  /** The key server settings that must come together. */
  datatype Kes = Kes(gcpCredential: bool, gcpIdentityPool: bool)

  /** Pools with 2^30 volumes or more on two servers, and some with as many on three, overflow to fewer than
      four. For 32-bit numbers, these aside, only one volume on each of two or three servers is too few. */
  lemma PoolPassesExactly(p: Pool)
    requires p.servers < TWO31 && p.volumesPerServer < TWO31
    ensures PoolCheck(p).None? <==>
      && p.servers >= 1 && p.volumesPerServer >= 1
      && (p.servers == 2 ==> 2 <= p.volumesPerServer < 0x4000_0000)
      && (p.servers == 3 ==> 2 <= p.volumesPerServer <= 715827882 || 1431655766 < p.volumesPerServer)
      && p.claim.Some? && p.claim.value.requests.Some? && p.claim.value.accessModes != []
      && "storage" in p.claim.value.requests.value && p.claim.value.requests.value["storage"] >= 1
    ensures PoolCheck(p) == Some(NoServers) <==> p.servers <= 0
    ensures PoolCheck(p) == Some(NoVolumes) <==> p.servers > 0 && p.volumesPerServer <= 0
    ensures PoolCheck(p) == Some(TwoServersTooFew) ==> p.servers == 2
    ensures PoolCheck(p) == Some(ThreeServersTooFew) ==> p.servers == 3
    ensures PoolCheck(p) == Some(NoTemplate) ==> p.claim.None?
    ensures PoolCheck(p) == Some(NoRequests) ==> p.claim.value.requests.None?
    ensures PoolCheck(p) == Some(ZeroSize) ==>
      "storage" in p.claim.value.requests.value ==> p.claim.value.requests.value["storage"] <= 0
    ensures PoolCheck(p) == Some(NoAccessMode) ==> p.claim.value.accessModes == []
  {
    var v := p.volumesPerServer;
    if p.servers == 2 && v >= 1 {
      TwiceWraps(v);
    } else if p.servers == 3 && v >= 1 {
      ThriceWraps(v);
    }
    hide Wrap32;
  }

  lemma TwiceWraps(v: int)
    requires 1 <= v < TWO31
    ensures Wrap32(2 * v) < 4 <==> v == 1 || v >= 0x4000_0000
  {
  }

  lemma ThriceWraps(v: int)
    requires 1 <= v < TWO31
    ensures Wrap32(3 * v) < 4 <==> v == 1 || 715827883 <= v <= 1431655766
  {
  }

  datatype TenantSpec = TenantSpec(
    pools: Option<seq<Pool>>,
    configuration: bool,
    creds: bool,
    kes: Option<Kes>,
    tls: bool,
    domains: seq<string>)

  datatype TenantError =
    | NoPools | NoConfiguration | NoIdentityPool | NoCredential
    | BadPool(index: nat, error: PoolError) | BadDomain(domain: Affix.DomainError)

  ghost predicate Settled(t: TenantSpec) {
    && t.pools.Some?
    && (t.configuration || t.creds)
    && (t.kes.Some? ==> t.kes.value.gcpCredential == t.kes.value.gcpIdentityPool)
  }

  ghost predicate TenantValid(t: TenantSpec, rules: Affix.Rules) {
    && Settled(t)
    && (forall i :: 0 <= i < |t.pools.value| ==> PoolCheck(t.pools.value[i]).None?)
    && Affix.DomainsValid(t.domains, t.tls, rules)
  }

  /** Tenant.Validate: the first error, in the order of the checks. */
  method Validate(t: TenantSpec, rules: Affix.Rules) returns (err: Option<TenantError>)
    ensures err.None? <==> TenantValid(t, rules)
    ensures err.Some? && err.value.BadPool? ==>
      && Settled(t)
      && err.value.index < |t.pools.value| && PoolCheck(t.pools.value[err.value.index]) == Some(err.value.error)
      && forall i :: 0 <= i < err.value.index ==> PoolCheck(t.pools.value[i]).None?
    ensures err.Some? && err.value.BadDomain? ==>
      && TenantValid(t.(domains := []), rules) && !Affix.DomainsValid(t.domains, t.tls, rules)
      && Affix.Explains(err.value.domain, t.domains, t.tls, rules)
    ensures err == Some(NoPools) <==> t.pools.None?
    ensures err == Some(NoConfiguration) <==> t.pools.Some? && !t.configuration && !t.creds
    ensures err == Some(NoIdentityPool) <==>
      t.pools.Some? && (t.configuration || t.creds) && t.kes.Some? && t.kes.value == Kes(true, false)
    ensures err == Some(NoCredential) <==>
      t.pools.Some? && (t.configuration || t.creds) && t.kes.Some? && t.kes.value == Kes(false, true)
  {
    if t.pools.None? {
      return Some(NoPools);
    }
    if !t.configuration && !t.creds {
      return Some(NoConfiguration);
    }
    if t.kes.Some? {
      if t.kes.value.gcpCredential && !t.kes.value.gcpIdentityPool {
        return Some(NoIdentityPool);
      } else if t.kes.value.gcpIdentityPool && !t.kes.value.gcpCredential {
        return Some(NoCredential);
      }
    }
    var pools := t.pools.value;
    for zi := 0 to |pools|
      invariant forall i :: 0 <= i < zi ==> PoolCheck(pools[i]).None?
    {
      var e := PoolCheck(pools[zi]);
      if e.Some? {
        return Some(BadPool(zi, e.value));
      }
    }
    var e := Affix.ValidateDomains(t.domains, t.tls, rules);
    if e.Some? {
      return Some(BadDomain(e.value));
    }
    return None;
  }

  // ---------------------------------------------------------------- the tenant of a cluster

  /** The sizing of constructMinioTenant for the nodes found; None when the division panics. */
  function TenantOf(c: Cluster, minio: ClusterInfo, nodes: int): Option<TenantSpec> {
    var disks := DiskNum(minio);
    match CapacityPerVolume(GiB2Bytes(c.dataVolume), Wrap32(nodes * disks))
    case None => None
    case Some(q) =>
      var claim := Claim(Some(map["storage" := q]), ["ReadWriteOnce"]);
      Some(TenantSpec(Some([Pool("", nodes, disks, Some(claim))]), true, false, None, false, []))
  }

  /** For any number of nodes and any disks, the construction panics exactly when their 32-bit product
      is zero. */
  lemma ConstructionPanics(c: Cluster, minio: ClusterInfo, nodes: int)
    ensures TenantOf(c, minio, nodes).None? <==> nodes * (if minio.disks == 0 then 4 else minio.disks) % 0x1_0000_0000 == 0
  {
    WrapsToZero(nodes * DiskNum(minio));
  }

  /** Where nothing overflows, the tenant passes its own validation exactly when there is a byte for
      every volume and the disks are enough for MinIO's erasure code. */
  lemma TenantPassesExactly(c: Cluster, minio: ClusterInfo, nodes: int, rules: Affix.Rules)
    requires nodes > 0 && Fits32(nodes * DiskNum(minio)) && Fits64(c.dataVolume * GIB)
    ensures TenantOf(c, minio, nodes).Some?
    ensures var d := if minio.disks == 0 then 4 else minio.disks;
            TenantValid(TenantOf(c, minio, nodes).value, rules) <==>
            d > 0 && c.dataVolume * 1073741824 >= nodes * d && !(d == 1 && (nodes == 2 || nodes == 3))
  {
    var d := DiskNum(minio);
    var total, n := c.dataVolume * GIB, nodes * d;
    NonZeroProduct(nodes, d);
    var t := TenantOf(c, minio, nodes).value;
    var p := Pool("", nodes, d, Some(Claim(Some(map["storage" := Wrap64(Quotient(total, n))]), ["ReadWriteOnce"])));
    assert t.pools.value == [p];
    assert TenantValid(t, rules) <==> PoolCheck(p).None? by { assert t.pools.value[0] == p; }
    if d > 0 {
      assert n > 0;
      if total >= 0 {
        QuotientBounds(total, n);
      } else {
        QuotientOfNegative(total, n);
        assert -total / n <= -total by { QuotientBounds(-total, n); }
      }
      assert Fits64(Quotient(total, n));
      SmallProducts(nodes, d);
    }
  }

  lemma NonZeroProduct(a: int, b: int)
    requires a != 0 && b != 0
    ensures a * b != 0
    ensures a > 0 && b > 0 ==> a * b > 0
  {
  }

  lemma SmallProducts(a: int, b: int)
    requires a > 0 && b > 0
    ensures a == 2 ==> (a * b < 4 <==> b == 1)
    ensures a == 3 ==> (a * b < 4 <==> b == 1)
  {
  }

  /** The claims never ask for more than the data volume, and miss it by less than a byte a volume. */
  lemma TenantClaims(c: Cluster, minio: ClusterInfo, nodes: int)
    requires nodes > 0 && DiskNum(minio) > 0 && Fits32(nodes * DiskNum(minio))
    requires 0 <= c.dataVolume && Fits64(c.dataVolume * GIB)
    ensures TenantOf(c, minio, nodes).Some?
    ensures var t := TenantOf(c, minio, nodes).value;
            && t.pools.Some? && |t.pools.value| == 1
            && var p := t.pools.value[0];
            && p.servers == nodes && p.volumesPerServer == (if minio.disks == 0 then 4 else minio.disks)
            && p.claim.Some? && p.claim.value.accessModes == ["ReadWriteOnce"]
            && p.claim.value.requests.Some? && p.claim.value.requests.value.Keys == {"storage"}
            && var volumes := nodes * p.volumesPerServer;
            volumes * p.claim.value.requests.value["storage"] <= c.dataVolume * 1073741824
              < volumes * p.claim.value.requests.value["storage"] + volumes
  {
    NonZeroProduct(nodes, DiskNum(minio));
    QuotientBounds(c.dataVolume * GIB, nodes * DiskNum(minio));
  }

  /** Once its pool is named, such a tenant's host pattern stands for one host a node, all different. */
  lemma TenantHostsAreItsNodes(c: Cluster, minio: ClusterInfo, nodes: int, domain: string)
    requires nodes > 0 && TenantOf(c, minio, nodes).Some?
    requires Hosts.Braceless(c.id.name) && Hosts.Braceless(c.id.ns) && Hosts.Braceless(domain)
    ensures var pools := Hosts.Named(TenantOf(c, minio, nodes).value.pools.value);
            var name := c.id.name + "-nine";
            var hosts := Hosts.ExpandAll(Hosts.Patterns(name, Hosts.Rest(name, c.id.ns, domain), pools, []));
            |hosts| == nodes && Distinct(hosts)
  {
    var pools := TenantOf(c, minio, nodes).value.pools.value;
    hide Hosts.Patterns, Hosts.ExpandAll, Hosts.Rest, Hosts.DefaultName;
    Hosts.NamedTenantHosts(c.id.name + "-nine", c.id.ns, domain, pools);
    assert pools[..0] == [];
  }

  /** Beyond the widths the sizing breaks: 65536 disks on 65536 nodes panic, and 2^33 GiB wrap to a
      negative number of bytes, which no pool may ask for. */
  lemma OverflowBreaksTheTenant(c: Cluster, minio: ClusterInfo, rules: Affix.Rules)
    ensures minio.disks == 65536 ==> TenantOf(c, minio, 65536).None?
    ensures minio.disks == 4 && c.dataVolume == 0x2_0000_0000 ==>
            TenantOf(c, minio, 4).Some? && !TenantValid(TenantOf(c, minio, 4).value, rules)
  {
    ConstructionPanics(c, minio, 65536);
    ConstructionPanics(c, minio, 4);
    hide Affix.Rejected;
    if minio.disks == 4 && c.dataVolume == 0x2_0000_0000 {
      HugeVolumeWraps();
      var t := TenantOf(c, minio, 4).value;
      assert PoolCheck(t.pools.value[0]) == Some(ZeroSize);
    }
  }

  lemma HugeVolumeWraps()
    ensures GiB2Bytes(0x2_0000_0000) == -TWO63 && CapacityPerVolume(-TWO63, 16) == Some(-0x800_0000_0000_0000)
  {
  }

  // ---------------------------------------------------------------- HDFS sub-clusters

  datatype SubCluster = SubCluster(typ: ClusterType, replicas: int, disks: int, request: Option<int>)

  function DataNodeReplicas(e: ClusterInfo, directPVNodes: Option<int>): int {
    if e.replicas != 0 then e.replicas else if directPVNodes.Some? then directPVNodes.value else 3
  }

  /** One sub-cluster of the hdfs entry; None when the division panics. */
  function SubOf(c: Cluster, hdfs: ClusterInfo, e: ClusterInfo, directPVNodes: Option<int>, replication: int): Option<SubCluster> {
    if e.typ != HdfsDataNode then Some(SubCluster(e.typ, e.replicas, e.disks, None))
    else
      var replicas, disks := DataNodeReplicas(e, directPVNodes), DiskNum(hdfs);
      match CapacityPerVolume(GiB2Bytes(Wrap64(c.dataVolume * replication)), Wrap32(replicas * disks))
      case None => None
      case Some(q) => Some(SubCluster(e.typ, replicas, disks, Some(q)))
  }

  function OfType(entries: seq<ClusterInfo>, t: ClusterType): seq<ClusterInfo> {
    if entries == [] then []
    else OfType(entries[..|entries| - 1], t) + if entries[|entries| - 1].typ == t then [entries[|entries| - 1]] else []
  }

  /** The entries the references pick: for each reference in turn, all of its type. */
  function Picked(entries: seq<ClusterInfo>, refs: seq<ClusterType>): seq<ClusterInfo> {
    if refs == [] then [] else Picked(entries, refs[..|refs| - 1]) + OfType(entries, refs[|refs| - 1])
  }

  lemma {:induction false} OfTypeCounts(entries: seq<ClusterInfo>, t: ClusterType, e: ClusterInfo)
    ensures multiset(OfType(entries, t))[e] == if e.typ == t then multiset(entries)[e] else 0
  {
    if entries != [] {
      var n := |entries| - 1;
      OfTypeCounts(entries[..n], t, e);
      assert entries == entries[..n] + [entries[n]];
    }
  }

  lemma RefsOfOneMore(refs: seq<ClusterType>, t: ClusterType)
    requires refs != []
    ensures var n := |refs| - 1; multiset(refs)[t] == multiset(refs[..n])[t] + if refs[n] == t then 1 else 0
  {
    assert refs == refs[..|refs| - 1] + [refs[|refs| - 1]];
  }

  lemma PickedOfOneMore(entries: seq<ClusterInfo>, refs: seq<ClusterType>, e: ClusterInfo)
    requires refs != []
    ensures var n := |refs| - 1;
            multiset(Picked(entries, refs))[e] == multiset(Picked(entries, refs[..n]))[e] + multiset(OfType(entries, refs[n]))[e]
  {
    hide OfType;
  }

  lemma OnceMore(x: nat, y: nat)
    ensures x * y + x == x * (y + 1)
  {
  }

  /** An entry is picked as often as it is listed and its type referred to, and nothing else is picked. */
  lemma {:induction false} PickedCounts(entries: seq<ClusterInfo>, refs: seq<ClusterType>, e: ClusterInfo)
    ensures multiset(Picked(entries, refs))[e] == multiset(entries)[e] * multiset(refs)[e.typ]
  {
    if refs == [] {
      assert Picked(entries, refs) == [];
    } else {
      hide *;
      var n := |refs| - 1;
      PickedCounts(entries, refs[..n], e);
      PickedOfOneMore(entries, refs, e);
      OfTypeCounts(entries, refs[n], e);
      RefsOfOneMore(refs, e.typ);
      OnceMore(multiset(entries)[e], multiset(refs[..n])[e.typ]);
    }
  }

  /** Where a picked entry comes from: the reference that picks it, and its place in the list. */
  ghost predicate PickedAt(entries: seq<ClusterInfo>, refs: seq<ClusterType>, e: ClusterInfo, a: int, b: int) {
    0 <= a < |refs| && 0 <= b < |entries| && entries[b] == e && e.typ == refs[a]
  }

  ghost predicate InTurn(entries: seq<ClusterInfo>, refs: seq<ClusterType>, d: ClusterInfo, e: ClusterInfo) {
    exists a, b, a', b' :: PickedAt(entries, refs, d, a, b) && PickedAt(entries, refs, e, a', b') && (a < a' || (a == a' && b < b'))
  }

  lemma {:induction false} OfTypeInOrder(entries: seq<ClusterInfo>, t: ClusterType, i: nat, j: nat)
    requires i < j < |OfType(entries, t)|
    ensures exists b, b' :: 0 <= b < b' < |entries| && entries[b] == OfType(entries, t)[i] && entries[b'] == OfType(entries, t)[j]
  {
    var n := |entries| - 1;
    var was, now := OfType(entries[..n], t), OfType(entries, t);
    if j < |was| {
      OfTypeInOrder(entries[..n], t, i, j);
      var b, b' :| 0 <= b < b' < n && entries[..n][b] == was[i] && entries[..n][b'] == was[j];
      assert entries[b] == now[i] && entries[b'] == now[j];
    } else {
      OfTypeCounts(entries[..n], t, was[i]);
      assert was[i] in multiset(was);
      assert was[i] in entries[..n];
      var b :| 0 <= b < n && entries[b] == was[i];
      assert entries[b] == now[i] && entries[n] == now[j];
    }
  }

  /** The references take turns: what an earlier one picks comes first, and what one picks keeps its order. */
  lemma {:induction false} PickedInTurn(entries: seq<ClusterInfo>, refs: seq<ClusterType>, i: nat, j: nat)
    requires i < j < |Picked(entries, refs)|
    ensures InTurn(entries, refs, Picked(entries, refs)[i], Picked(entries, refs)[j])
  {
    var n := |refs| - 1;
    var was, more, now := Picked(entries, refs[..n]), OfType(entries, refs[n]), Picked(entries, refs);
    if j < |was| {
      PickedInTurn(entries, refs[..n], i, j);
      var a, b, a', b' :| PickedAt(entries, refs[..n], was[i], a, b) && PickedAt(entries, refs[..n], was[j], a', b') && (a < a' || (a == a' && b < b'));
      assert PickedAt(entries, refs, now[i], a, b) && PickedAt(entries, refs, now[j], a', b');
    } else if i >= |was| {
      OfTypeInOrder(entries, refs[n], i - |was|, j - |was|);
      var b, b' :| 0 <= b < b' < |entries| && entries[b] == now[i] && entries[b'] == now[j];
      var _ := IsOfType(entries, refs[n], i - |was|);
      var _ := IsOfType(entries, refs[n], j - |was|);
      assert PickedAt(entries, refs, now[i], n, b) && PickedAt(entries, refs, now[j], n, b');
    } else {
      var a, b := PickedFrom(entries, refs[..n], i);
      var b' := IsOfType(entries, refs[n], j - |was|);
      assert PickedAt(entries, refs, now[i], a, b) && PickedAt(entries, refs, now[j], n, b');
    }
  }

  lemma IsOfType(entries: seq<ClusterInfo>, t: ClusterType, i: nat) returns (b: nat)
    requires i < |OfType(entries, t)|
    ensures b < |entries| && entries[b] == OfType(entries, t)[i] && entries[b].typ == t
  {
    var e := OfType(entries, t)[i];
    OfTypeCounts(entries, t, e);
    assert e in multiset(OfType(entries, t));
    assert e in entries;
    b :| b < |entries| && entries[b] == e;
  }

  lemma PickedFrom(entries: seq<ClusterInfo>, refs: seq<ClusterType>, i: nat) returns (a: nat, b: nat)
    requires i < |Picked(entries, refs)|
    ensures PickedAt(entries, refs, Picked(entries, refs)[i], a, b)
  {
    var e := Picked(entries, refs)[i];
    PickedCounts(entries, refs, e);
    assert e in multiset(Picked(entries, refs));
    assert multiset(entries)[e] > 0 && multiset(refs)[e.typ] > 0;
    assert e in entries && e.typ in refs;
    a :| a < |refs| && refs[a] == e.typ;
    b :| b < |entries| && entries[b] == e;
  }

  ghost predicate Built(c: Cluster, hdfs: ClusterInfo, directPVNodes: Option<int>, replication: int,
                        subs: seq<SubCluster>, picked: seq<ClusterInfo>) {
    && |subs| == |picked|
    && forall k :: 0 <= k < |subs| ==> SubOf(c, hdfs, picked[k], directPVNodes, replication) == Some(subs[k])
  }

  lemma TwoNameNodesOfOneMore(entries: seq<ClusterInfo>, e: ClusterInfo)
    ensures TwoNameNodes(entries + [e]) <==> TwoNameNodes(entries) || (e.typ == HdfsNameNode && e.replicas == 2)
  {
    assert (entries + [e])[|entries|] == e;
    if TwoNameNodes(entries) {
      var i :| 0 <= i < |entries| && entries[i].typ == HdfsNameNode && entries[i].replicas == 2;
      assert (entries + [e])[i] == entries[i];
    }
  }

  lemma OfTypeOfOneMore(entries: seq<ClusterInfo>, e: ClusterInfo, t: ClusterType)
    ensures OfType(entries + [e], t) == OfType(entries, t) + if e.typ == t then [e] else []
  {
    assert (entries + [e])[..|entries|] == entries;
  }

  /** The sub-cluster that cannot be sized. */
  predicate Unsizable(hdfs: ClusterInfo, e: ClusterInfo, directPVNodes: Option<int>) {
    e.typ == HdfsDataNode && Wrap32(DataNodeReplicas(e, directPVNodes) * DiskNum(hdfs)) == 0
  }

  /** The nested loops of constructHdfsCluster: the sub-clusters of the entries the references pick, and
      whether the name nodes are two; None when the sizing of one of them panics. The replication setting
      may be absent, or not a number. */
  method BuildSubClusters(c: Cluster, hdfs: ClusterInfo, directPVNodes: Option<int>, setting: Option<Option<int>>)
    returns (r: Option<(seq<SubCluster>, bool)>)
    ensures r.Some? ==>
      Built(c, hdfs, directPVNodes, if setting.Some? && setting.value.Some? then setting.value.value else 3,
            r.value.0, Picked(c.clusterSet, hdfs.refs))
    ensures r.Some? ==> (r.value.1 <==> hdfs.refs != [] && TwoNameNodes(c.clusterSet))
    ensures r.None? ==> exists e :: e in c.clusterSet && e.typ in hdfs.refs && Unsizable(hdfs, e, directPVNodes)
  {
    hide SubOf, Unsizable, TwoNameNodes, OfType;
    var replication := if setting.Some? && setting.value.Some? then setting.value.value else 3;
    var namenodeHA := false;
    var clusters: seq<SubCluster> := [];
    var entries, refs := c.clusterSet, hdfs.refs;
    NothingOfType();
    for i := 0 to |refs|
      invariant Built(c, hdfs, directPVNodes, replication, clusters, Picked(entries, refs[..i]))
      invariant namenodeHA <==> i > 0 && TwoNameNodes(entries)
    {
      ghost var before := Picked(entries, refs[..i]);
      assert refs[..i + 1][..i] == refs[..i];
      for j := 0 to |entries|
        invariant Built(c, hdfs, directPVNodes, replication, clusters, before + OfType(entries[..j], refs[i]))
        invariant namenodeHA <==> (i > 0 && TwoNameNodes(entries)) || TwoNameNodes(entries[..j])
      {
        var e := entries[j];
        assert entries[..j + 1] == entries[..j] + [e];
        OfTypeOfOneMore(entries[..j], e, refs[i]);
        TwoNameNodesOfOneMore(entries[..j], e);
        if e.typ == refs[i] {
          var sub := SubOf(c, hdfs, e, directPVNodes, replication);
          if sub.None? {
            UnsizableOnly(c, hdfs, e, directPVNodes, replication);
            return None;
          }
          clusters := clusters + [sub.value];
        }
        if e.typ == HdfsNameNode && e.replicas == 2 {
          namenodeHA := true;
        }
      }
      assert entries[..|entries|] == entries;
    }
    assert refs[..|refs|] == refs;
    r := Some((clusters, namenodeHA));
  }

  lemma NothingOfType()
    ensures !TwoNameNodes([]) && forall t :: OfType([], t) == []
  {
  }

  lemma UnsizableOnly(c: Cluster, hdfs: ClusterInfo, e: ClusterInfo, directPVNodes: Option<int>, replication: int)
    ensures SubOf(c, hdfs, e, directPVNodes, replication).None? <==> Unsizable(hdfs, e, directPVNodes)
  {
  }

  /** The volumes of a data node sub-cluster ask for the replicated data volume and no more, and miss it
      by less than a byte a volume; the disks published are those the division used. */
  lemma DataNodeRequests(c: Cluster, hdfs: ClusterInfo, e: ClusterInfo, directPVNodes: Option<int>, replication: int)
    requires e.typ == HdfsDataNode && DataNodeReplicas(e, directPVNodes) > 0 && DiskNum(hdfs) > 0
    requires DataNodeReplicas(e, directPVNodes) * DiskNum(hdfs) < TWO31
    requires 0 <= c.dataVolume * replication && c.dataVolume * replication * GIB < TWO63
    ensures var r := SubOf(c, hdfs, e, directPVNodes, replication);
            && r.Some? && r.value.request.Some?
            && r.value.typ == HdfsDataNode && r.value.disks == (if hdfs.disks == 0 then 4 else hdfs.disks)
            && r.value.replicas == (if e.replicas != 0 then e.replicas else if directPVNodes.Some? then directPVNodes.value else 3)
            && var volumes := r.value.replicas * r.value.disks;
               volumes * r.value.request.value <= replication * c.dataVolume * 1073741824 < volumes * r.value.request.value + volumes
  {
    var n := DataNodeReplicas(e, directPVNodes) * DiskNum(hdfs);
    NonZeroProduct(DataNodeReplicas(e, directPVNodes), DiskNum(hdfs));
    var total := c.dataVolume * replication;
    assert replication * c.dataVolume == total;
    assert Fits64(total) && Fits64(total * GIB);
    QuotientBounds(total * GIB, n);
    assert CapacityPerVolume(GiB2Bytes(Wrap64(total)), Wrap32(n)) == Some(Quotient(total * GIB, n));
  }

  /** Other sub-clusters get what their entries ask for. */
  lemma OthersAsAsked(c: Cluster, hdfs: ClusterInfo, e: ClusterInfo, directPVNodes: Option<int>, replication: int)
    requires e.typ != HdfsDataNode
    ensures var r := SubOf(c, hdfs, e, directPVNodes, replication);
            r.Some? && r.value.typ == e.typ && r.value.replicas == e.replicas && r.value.disks == e.disks && r.value.request.None?
  {
  }

  /** More replicas or more disks never make a volume larger. */
  lemma RequestsFall(c: Cluster, hdfs: ClusterInfo, e: ClusterInfo, hdfs': ClusterInfo, e': ClusterInfo,
                     directPVNodes: Option<int>, replication: int)
    requires e.typ == e'.typ == HdfsDataNode
    requires 0 < DataNodeReplicas(e, directPVNodes) <= DataNodeReplicas(e', directPVNodes)
    requires 0 < DiskNum(hdfs) <= DiskNum(hdfs')
    requires DataNodeReplicas(e', directPVNodes) * DiskNum(hdfs') < TWO31
    requires 0 <= c.dataVolume * replication && c.dataVolume * replication * GIB < TWO63
    ensures var r, r' := SubOf(c, hdfs, e, directPVNodes, replication), SubOf(c, hdfs', e', directPVNodes, replication);
            r.Some? && r'.Some? && r'.value.request.value <= r.value.request.value
  {
    var m, n := DataNodeReplicas(e, directPVNodes) * DiskNum(hdfs), DataNodeReplicas(e', directPVNodes) * DiskNum(hdfs');
    ProductsGrow(DataNodeReplicas(e, directPVNodes), DiskNum(hdfs), DataNodeReplicas(e', directPVNodes), DiskNum(hdfs'));
    var total := c.dataVolume * replication * GIB;
    QuotientFalls(total, m, n);
    QuotientBounds(total, m);
    QuotientBounds(total, n);
    assert Fits64(c.dataVolume * replication) && Fits64(total);
  }

  lemma ProductsGrow(a: int, b: int, x: int, y: int)
    requires 0 < a <= x && 0 < b <= y
    ensures 0 < a * b <= x * y
  {
    assert a * b <= x * b;
    assert x * b <= x * y;
  }
}
