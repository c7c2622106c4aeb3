/** The reconcile protocol as a state machine over its steps.

    A pass completes the cluster set and spawns one outer goroutine per entry. An outer goroutine
    tries the component's mutex, launches an inner goroutine, and releases the mutex at once, so inner
    goroutines of one component can overlap. An inner goroutine first waits for other components,
    then for each of its objects builds the desired object, looks for it, and creates it when it was
    not found. What another process decides (random credentials, API errors, lost replies, how many
    replicas are ready) is part of the event, so a theorem about all runs is about all of it. */
module Protocol {
  import opened Text
  import opened Clusters

  // ---------------------------------------------------------------- objects in the API server

  /** The objects the controller creates for one cluster. */
  datatype Role =
    | KyuubiRole | MetastoreRole | TenantRole | PgRole | DorisRole | ZkRole | HdfsRole
    | MinioConfigRole | MinioUserRole | PgInitRole | PgSuperRole

  datatype Key = Key(id: Ident, role: Role)

  datatype Kind =
    | KyuubiClusters | MetastoreClusters | Tenants | PgClusters | DorisClusters | ZookeeperClusters
    | HdfsClusters | Secrets

  function KindOf(role: Role): Kind {
    match role
    case KyuubiRole => KyuubiClusters
    case MetastoreRole => MetastoreClusters
    case TenantRole => Tenants
    case PgRole => PgClusters
    case DorisRole => DorisClusters
    case ZkRole => ZookeeperClusters
    case HdfsRole => HdfsClusters
    case _ => Secrets
  }

  /** NineResourceName and the secret names: what follows the cluster's own name. */
  function NameSuffix(role: Role): string {
    match role
    case PgRole => "-nine-pg"
    case DorisRole => "-nine-doris"
    case MinioConfigRole => "-nine-minio-config"
    case MinioUserRole => "-nine-minio-user"
    case PgInitRole => "-nine-pg-user"
    case PgSuperRole => "-nine-pg-superuser"
    case _ => "-nine"
  }

  function ObjectName(k: Key): string {
    k.id.name + NameSuffix(k.role)
  }

  /** The sixth character from the end tells the names of one cluster's secrets apart. */
  lemma SecretSuffixMark(role: Role)
    requires KindOf(role) == Secrets
    ensures |NameSuffix(role)| >= 6
    ensures NameSuffix(role)[|NameSuffix(role)| - 6] ==
      match role
      case MinioConfigRole => 'c'
      case MinioUserRole => 'o'
      case PgInitRole => 'g'
      case _ => 'e'
  {
  }

  lemma SameEndSameMark(x: string, a: string, y: string, b: string)
    requires x + a == y + b && |a| >= 6 && |b| >= 6
    ensures a[|a| - 6] == b[|b| - 6]
  {
    var s := x + a;
    assert s[|s| - 6] == a[|a| - 6];
    assert (y + b)[|s| - 6] == b[|b| - 6];
  }

  lemma CancelSuffix(x: string, y: string, a: string)
    requires x + a == y + a
    ensures x == y
  {
    assert (x + a)[..|x|] == x;
    assert (y + a)[..|y|] == y;
  }

  /** Two different roles or clusters never address the same object in the API server, so the
      store below can be indexed by key. */
  lemma ObjectNamesInjective(k: Key, l: Key)
    requires KindOf(k.role) == KindOf(l.role) && k.id.ns == l.id.ns && ObjectName(k) == ObjectName(l)
    ensures k == l
  {
    var a, b := NameSuffix(k.role), NameSuffix(l.role);
    if KindOf(k.role) == Secrets {
      SecretSuffixMark(k.role);
      SecretSuffixMark(l.role);
      SameEndSameMark(k.id.name, a, l.id.name, b);
    }
    assert k.role == l.role;
    CancelSuffix(k.id.name, l.id.name, a);
  }

  /** The names themselves: the cluster's name with what tells its objects apart. */
  lemma ObjectNamesAreThose(id: Ident)
    ensures forall role :: role in {KyuubiRole, MetastoreRole, TenantRole, ZkRole, HdfsRole} ==> ObjectName(Key(id, role)) == id.name + "-nine"
    ensures ObjectName(Key(id, PgRole)) == id.name + "-nine-pg" && ObjectName(Key(id, DorisRole)) == id.name + "-nine-doris"
    ensures ObjectName(Key(id, MinioConfigRole)) == ObjectName(Key(id, TenantRole)) + "-minio-config"
    ensures ObjectName(Key(id, MinioUserRole)) == ObjectName(Key(id, TenantRole)) + "-minio-user"
    ensures ObjectName(Key(id, PgInitRole)) == ObjectName(Key(id, PgRole)) + "-user"
    ensures ObjectName(Key(id, PgSuperRole)) == ObjectName(Key(id, PgRole)) + "-superuser"
  {
  }

  datatype Creds = Creds(access: string, secret: string)

  const NO_CREDS := Creds("", "")

  /** The parts of each object that other goroutines or operators act on. */
  datatype Obj =
    | MinioConfigSecret
    | MinioUserSecret(creds: Creds)
    | PgInitSecret
    | PgSuperSecret(user: string, password: string)
    | TenantObj(servers: int)
    | PgObj
    | MetastoreObj(replicas: int, minio: Option<Creds>)
    | KyuubiObj(replicas: int, minio: Option<Creds>)
    | ZkObj
    | HdfsObj(nameNodes: int)
    | DorisObj

  predicate Fits(role: Role, o: Obj) {
    match role
    case KyuubiRole => o.KyuubiObj?
    case MetastoreRole => o.MetastoreObj?
    case TenantRole => o.TenantObj?
    case PgRole => o.PgObj?
    case DorisRole => o.DorisObj?
    case ZkRole => o.ZkObj?
    case HdfsRole => o.HdfsObj?
    case MinioConfigRole => o.MinioConfigSecret?
    case MinioUserRole => o.MinioUserSecret?
    case PgInitRole => o.PgInitSecret?
    case PgSuperRole => o.PgSuperSecret?
  }

  const PG_REPLICAS := 3
  const ZK_REPLICAS := 3

  /** How many ready replicas the operator behind an object can ever report. A tenant counts as
      ready when its "minio" service exists. */
  function Asked(o: Obj): nat {
    match o
    case PgObj => PG_REPLICAS
    case ZkObj => ZK_REPLICAS
    case MetastoreObj(n, _) => if n < 0 then 0 else n
    case HdfsObj(n) => if n < 0 then 0 else n
    case TenantObj(_) => 1
    case _ => 0
  }

  // ---------------------------------------------------------------- what an inner goroutine does

  datatype Wait =
    | SetReplicas(n: int)            // initMetastore writes the process-wide MetastoreReplicas
    | Pods(role: Role, need: nat)    // poll until that many replicas are ready
    | NameNodes(wanted: int)           // the same for the namenodes, with a time limit
    | MetastorePods                  // as Pods, for the current value of MetastoreReplicas
    | MinioService
    | MinioSecret
    | External                       // an SQL, HDFS or S3 call

  predicate UsesJdbc(v: ClusterInfo) {
    v.auth.kind == "" || v.auth.kind == "JDBC"
  }

  /** namenodeHA in constructHdfsCluster. */
  predicate NamenodeHA(c: Cluster, v: ClusterInfo) {
    v.refs != [] && TwoNameNodes(c.clusterSet)
  }

  /** The replicas of the last namenode entry, or 0. */
  function LastNameNodes(entries: seq<ClusterInfo>): int {
    if entries == [] then 0
    else if entries[|entries| - 1].typ == HdfsNameNode then entries[|entries| - 1].replicas
    else LastNameNodes(entries[..|entries| - 1])
  }

  /** getKyuubiReplicas. */
  function KyuubiReplicas(c: Cluster, v: ClusterInfo): int {
    if KyuubiNeedsHA(c) then 2 else if v.replicas == 0 then 1 else v.replicas
  }

  /** The name nodes an hdfs entry's object asks for. */
  function NameNodesAsked(c: Cluster, v: ClusterInfo): int {
    if HdfsNameNode in v.refs then LastNameNodes(c.clusterSet) else 0
  }

  function When(b: bool, ws: seq<Wait>): (r: seq<Wait>)
    ensures forall w :: w in r <==> b && w in ws
  {
    if b then ws else []
  }

  const JDBC_WAITS :=
    [Pods(PgRole, PG_REPLICAS), External, Pods(PgRole, PG_REPLICAS), External, Pods(PgRole, PG_REPLICAS), External]

  /** Everything the goroutine of entry v does before it builds its own objects, in order. */
  function Waits(c: Cluster, v: ClusterInfo): seq<Wait> {
    match v.typ
    case Kyuubi =>
      When(UsesJdbc(v), JDBC_WAITS)
      + When(KyuubiNeedsHA(c), [Pods(ZkRole, ZK_REPLICAS)])
      + [MetastorePods]
      + When(c.kind == BATCH && ClusterStorage(c) == MinioStorage, [MinioService, MinioSecret])
    case MetaStore =>
      [SetReplicas(v.replicas), Pods(PgRole, PG_REPLICAS)]
      + When(ClusterStorage(c) == HdfsStorage, [NameNodes(LastNameNodes(c.clusterSet)), External])
      + When(ClusterStorage(c) == MinioStorage, [MinioService, MinioSecret, External])
    case Hdfs => When(NamenodeHA(c, v), [Pods(ZkRole, ZK_REPLICAS)])
    case _ => []
  }

  /** The waits by component, each with the condition under which it is made. */
  lemma WaitCases(c: Cluster, v: ClusterInfo, w: Wait)
    requires w in Waits(c, v)
    ensures v.typ == Kyuubi || v.typ == MetaStore || v.typ == Hdfs
    ensures v.typ == Kyuubi ==>
      || w == Pods(PgRole, PG_REPLICAS) || w == External || w == MetastorePods
      || (w == Pods(ZkRole, ZK_REPLICAS) && KyuubiNeedsHA(c))
      || ((w == MinioService || w == MinioSecret) && ClusterStorage(c) == MinioStorage)
    ensures v.typ == MetaStore ==>
      || w == SetReplicas(v.replicas) || w == Pods(PgRole, PG_REPLICAS) || w == External
      || (w == NameNodes(LastNameNodes(c.clusterSet)) && ClusterStorage(c) == HdfsStorage)
      || ((w == MinioService || w == MinioSecret) && ClusterStorage(c) == MinioStorage)
    ensures v.typ == Hdfs ==> w == Pods(ZkRole, ZK_REPLICAS) && NamenodeHA(c, v)
  {
  }

  /** What each component waits for, and when. */
  predicate Needed(c: Cluster, v: ClusterInfo, w: Wait) {
    match w
    case SetReplicas(n) => v.typ == MetaStore && n == v.replicas
    case Pods(role, need) =>
      || (role == PgRole && need == PG_REPLICAS && ((v.typ == Kyuubi && UsesJdbc(v)) || v.typ == MetaStore))
      || (role == ZkRole && need == ZK_REPLICAS && ((v.typ == Kyuubi && KyuubiNeedsHA(c)) || (v.typ == Hdfs && NamenodeHA(c, v))))
    case NameNodes(wanted) => v.typ == MetaStore && ClusterStorage(c) == HdfsStorage && wanted == LastNameNodes(c.clusterSet)
    case MetastorePods => v.typ == Kyuubi
    case External => v.typ == MetaStore || (v.typ == Kyuubi && UsesJdbc(v))
    case _ => ClusterStorage(c) == MinioStorage && (v.typ == MetaStore || (v.typ == Kyuubi && c.kind == BATCH))
  }

  /** When its turn comes. */
  function Turn(v: ClusterInfo, w: Wait): nat {
    match w
    case SetReplicas(_) => 0
    case Pods(role, _) => if role == PgRole then 1 else 2
    case NameNodes(_) => 2
    case MetastorePods => 3
    case MinioService => 4
    case MinioSecret => 5
    case External => if v.typ == Kyuubi then 1 else 6
  }

  lemma WaitsAreNeeded(c: Cluster, v: ClusterInfo, w: Wait)
    ensures w in Waits(c, v) <==> Needed(c, v, w)
  {
    hide KyuubiNeedsHA, NamenodeHA, UsesJdbc, LastNameNodes;
  }

  /** A component's waits are exactly those needed, each in its turn, and each SQL call of kyuubi comes
      right after a wait for the database. */
  lemma WaitsInTurn(c: Cluster, v: ClusterInfo)
    ensures forall w :: w in Waits(c, v) <==> Needed(c, v, w)
    ensures forall i, j :: 0 <= i < j < |Waits(c, v)| ==> Turn(v, Waits(c, v)[i]) <= Turn(v, Waits(c, v)[j])
    ensures v.typ == Kyuubi ==> forall i :: 0 <= i < |Waits(c, v)| && Waits(c, v)[i] == External ==>
      i > 0 && Waits(c, v)[i - 1] == Pods(PgRole, PG_REPLICAS)
  {
    forall w ensures w in Waits(c, v) <==> Needed(c, v, w) {
      WaitsAreNeeded(c, v, w);
    }
    hide Needed;
    if v.typ == Kyuubi {
      KyuubiWaitsInTurn(c, v);
    } else {
      OthersWaitInTurn(c, v);
    }
  }

  lemma KyuubiWaitsInTurn(c: Cluster, v: ClusterInfo)
    requires v.typ == Kyuubi
    ensures forall i, j :: 0 <= i < j < |Waits(c, v)| ==> Turn(v, Waits(c, v)[i]) <= Turn(v, Waits(c, v)[j])
    ensures forall i :: 0 <= i < |Waits(c, v)| && Waits(c, v)[i] == External ==>
      i > 0 && Waits(c, v)[i - 1] == Pods(PgRole, PG_REPLICAS)
  {
    hide KyuubiNeedsHA, UsesJdbc, ClusterStorage;
  }

  lemma OthersWaitInTurn(c: Cluster, v: ClusterInfo)
    requires v.typ != Kyuubi
    ensures forall i, j :: 0 <= i < j < |Waits(c, v)| ==> Turn(v, Waits(c, v)[i]) <= Turn(v, Waits(c, v)[j])
  {
    hide NamenodeHA, LastNameNodes, ClusterStorage;
  }

  /** reconcileDatabaseCluster knows one kind of database. */
  predicate IsPostgres(v: ClusterInfo) {
    v.subType == "" || v.subType == DB_POSTGRES
  }

  /** The objects the goroutine gets or creates, in order; the last is the component's own. */
  function Roles(v: ClusterInfo): seq<Role> {
    match v.typ
    case Kyuubi => [KyuubiRole]
    case MetaStore => [MetastoreRole]
    case Minio => [MinioConfigRole, MinioUserRole, TenantRole]
    case Database => if IsPostgres(v) then [PgInitRole, PgSuperRole, PgRole] else []
    case Doris => [DorisRole]
    case Zookeeper => [ZkRole]
    case Hdfs => [HdfsRole]
    case _ => []
  }

  /** The types reconcileRoutine launches a goroutine for. */
  predicate Launches(t: ClusterType) {
    t in {Kyuubi, MetaStore, Minio, Database, Doris, Zookeeper, Hdfs}
  }

  function MainRole(t: ClusterType): Role
    requires Launches(t)
  {
    match t
    case Kyuubi => KyuubiRole
    case MetaStore => MetastoreRole
    case Minio => TenantRole
    case Database => PgRole
    case Doris => DorisRole
    case Zookeeper => ZkRole
    case Hdfs => HdfsRole
  }

  // ---------------------------------------------------------------- the state

  datatype OuterPc = Trying | Holding | Launched | Finished(won: bool)

  datatype Outer = Outer(cluster: Cluster, entry: ClusterInfo, mutex: nat, pc: OuterPc)

  datatype Stage = Build | Get | Create

  /** wait counts the waits done; k and stage say which object is being worked on. doomed: the minio
      goroutine lost a secret and carries on with no tenant to create. failed: it returned an error. */
  datatype Inner = Inner(
    cluster: Cluster,
    entry: ClusterInfo,
    wait: nat,
    k: nat,
    stage: Stage,
    desired: Option<Obj>,
    missing: bool,
    doomed: bool,
    failed: bool,
    read: Option<Creds>)

  datatype Created = Created(key: Key, obj: Obj)

  /** locks is the global table from lock names to mutexes, mutexes holds each mutex's owner, log
      records every create the API server accepted. */
  datatype State = State(
    locks: map<string, nat>,
    mutexes: seq<Option<nat>>,
    outers: seq<Outer>,
    inners: seq<Inner>,
    store: map<Key, Obj>,
    log: seq<Created>,
    ready: map<Key, nat>,
    metastoreReplicas: int)

  const INIT := State(map[], [], [], [], map[], [], map[], 1)

  function ReadyCount(s: State, k: Key): nat {
    if k in s.ready then s.ready[k] else 0
  }

  function RolesOf(t: Inner): seq<Role> { Roles(t.entry) }

  function WaitsOf(t: Inner): seq<Wait> { Waits(t.cluster, t.entry) }

  predicate Done(t: Inner) {
    t.failed || (t.wait >= |WaitsOf(t)| && t.k >= |RolesOf(t)|)
  }

  // ---------------------------------------------------------------- events

  datatype Choice =
    | Ok                     // the call succeeds as the store has it
    | Fail                   // the call returns an error that is not "not found" or "exists"
    | LostReply              // a create takes effect but its caller sees an error
    | Random(creds: Creds)   // GenerateCredentials
    | Nodes(n: nat)          // the number of directpv nodes
    | Timeout                // the wait for name nodes gives up, which reports no error

  datatype Event =
    | Pass(c: Cluster)
    | TryLock(i: nat)
    | Launch(i: nat)
    | Unlock(i: nat)
    | Run(j: nat, choice: Choice)
    | BecomeReady(k: Key)
    | BecomeUnready(k: Key)

  /** The events of runs in which API and external calls succeed and ready replicas stay ready. The
      time limit of the name node wait may still be reached. */
  predicate Reliable(e: Event) {
    match e
    case Run(_, choice) => choice != Fail && choice != LostReply
    case BecomeUnready(_) => false
    case _ => true
  }

  /** The same, with no time limit reached. */
  predicate Prompt(e: Event) {
    Reliable(e) && !(e.Run? && e.choice == Timeout)
  }

  predicate PodsUp(s: State, k: Key, need: int) {
    ReadyCount(s, k) >= 1 && ReadyCount(s, k) >= need
  }

  /** The service is named "minio" for every tenant, so any tenant of the namespace provides it. */
  predicate MinioServiceUp(s: State, ns: string) {
    exists k :: k in s.ready && k.role == TenantRole && k.id.ns == ns && s.ready[k] >= 1
  }

  predicate WaitEnabled(s: State, t: Inner, w: Wait, choice: Choice) {
    match w
    case SetReplicas(_) => choice == Ok
    case Pods(role, need) => choice == Ok && PodsUp(s, Key(t.cluster.id, role), need)
    case NameNodes(need) => (choice == Ok && PodsUp(s, Key(t.cluster.id, HdfsRole), need)) || choice == Timeout
    case MetastorePods => choice == Ok && PodsUp(s, Key(t.cluster.id, MetastoreRole), s.metastoreReplicas)
    case MinioService => (choice == Ok && MinioServiceUp(s, t.cluster.id.ns)) || choice == Fail
    case MinioSecret => (choice == Ok && Key(t.cluster.id, MinioUserRole) in s.store) || choice == Fail
    case External => choice == Ok || choice == Fail
  }

  predicate StepEnabled(t: Inner, choice: Choice)
    requires t.k < |RolesOf(t)|
  {
    match t.stage
    case Build =>
      (match RolesOf(t)[t.k]
       case MinioUserRole => choice.Random?
       case TenantRole => choice.Nodes? || choice == Fail
       case _ => choice == Ok)
    case Get => choice == Ok || choice == Fail
    case Create => choice == Ok || choice == Fail || choice == LostReply
  }

  predicate RunEnabled(s: State, t: Inner, choice: Choice) {
    && !Done(t)
    && (if t.wait < |WaitsOf(t)| then WaitEnabled(s, t, WaitsOf(t)[t.wait], choice)
        else StepEnabled(t, choice))
  }

  predicate CanRun(s: State, j: nat, choice: Choice) {
    j < |s.inners| && RunEnabled(s, s.inners[j], choice)
  }

  predicate Enabled(s: State, e: Event) {
    match e
    case Pass(_) => true
    case TryLock(i) => i < |s.outers| && s.outers[i].pc == Trying
    case Launch(i) => i < |s.outers| && s.outers[i].pc == Holding
    case Unlock(i) => i < |s.outers| && s.outers[i].pc == Launched
    case Run(j, choice) => CanRun(s, j, choice)
    case BecomeReady(k) => k in s.store && ReadyCount(s, k) < Asked(s.store[k])
    case BecomeUnready(k) => ReadyCount(s, k) > 0
  }

  // ---------------------------------------------------------------- effects of outer goroutines

  /** GenUniqueName4Cluster. */
  function LockName(id: Ident, t: ClusterType): string {
    "nineinfra-" + id.ns + "-" + id.name + "-" + TypeName(t)
  }

  /** getUniqueClusterLock: the table entry of a name, allocated when there is none. */
  function WithLock(s: State, name: string): State {
    if name in s.locks then s
    else s.(locks := s.locks[name := |s.mutexes|], mutexes := s.mutexes + [None])
  }

  function Spawn(s: State, c: Cluster, v: ClusterInfo): State {
    var name := LockName(c.id, v.typ);
    var s' := WithLock(s, name);
    s'.(outers := s'.outers + [Outer(c, v, s'.locks[name], Trying)])
  }

  /** The loop of renconcileDataHouse over the first n entries. */
  function SpawnUpTo(s: State, c: Cluster, n: nat): State
    requires n <= |c.clusterSet|
  {
    if n == 0 then s else Spawn(SpawnUpTo(s, c, n - 1), c, c.clusterSet[n - 1])
  }

  /** The cluster a pass works on, if it gets as far as its components. */
  function PassCluster(c: Cluster): Option<Cluster> {
    match FilledKind(c)
    case None => None
    case Some(d) => if d.kind == BATCH then Some(Filled(d)) else None
  }

  /** Passes reach the components of batch clusters only, and no kind means batch; any kind but the two
      known ones is refused. */
  lemma PassesReachBatchOnly(c: Cluster)
    ensures PassCluster(c).Some? <==> c.kind == "" || c.kind == "batch"
    ensures PassCluster(c).Some? ==>
      PassCluster(c).value.kind == "batch" && PassCluster(c).value.id == c.id && PassCluster(c).value.features == c.features
    ensures FilledKind(c).None? <==> c.kind != "" && c.kind != "batch" && c.kind != "stream"
    ensures FilledKind(c).Some? && c.kind != "" ==> FilledKind(c).value == c
  {
    hide Filled;
  }

  function ApplyPass(s: State, c: Cluster): State {
    match PassCluster(c)
    case None => s
    case Some(f) => SpawnUpTo(s, f, |f.clusterSet|)
  }

  function MutexFree(s: State, m: nat): bool {
    m < |s.mutexes| && s.mutexes[m].None?
  }

  function ApplyTryLock(s: State, i: nat): State
    requires i < |s.outers|
  {
    var o := s.outers[i];
    if MutexFree(s, o.mutex) then
      s.(mutexes := s.mutexes[o.mutex := Some(i)], outers := s.outers[i := o.(pc := Holding)])
    else
      s.(outers := s.outers[i := o.(pc := Finished(false))])
  }

  function Launchee(o: Outer): Inner {
    Inner(o.cluster, o.entry, 0, 0, Build, None, false, false, false, None)
  }

  function ApplyLaunch(s: State, i: nat): State
    requires i < |s.outers|
  {
    var o := s.outers[i];
    s.(outers := s.outers[i := o.(pc := Launched)],
       inners := if Launches(o.entry.typ) then s.inners + [Launchee(o)] else s.inners)
  }

  function ApplyUnlock(s: State, i: nat): State
    requires i < |s.outers|
  {
    var o := s.outers[i];
    s.(outers := s.outers[i := o.(pc := Finished(true))],
       mutexes := if o.mutex < |s.mutexes| then s.mutexes[o.mutex := None] else s.mutexes)
  }

  // ---------------------------------------------------------------- effects of inner goroutines

  function CredsIn(s: State, k: Key): Creds {
    if k in s.store && s.store[k].MinioUserSecret? then s.store[k].creds else NO_CREDS
  }

  function AfterWait(s: State, t: Inner, w: Wait, choice: Choice): Inner {
    var u := t.(wait := t.wait + 1);
    match w
    case MinioSecret =>
      // an error other than "not found" is logged and the secret stays empty
      u.(read := Some(if choice == Ok then CredsIn(s, Key(t.cluster.id, MinioUserRole)) else NO_CREDS))
    case External => if choice == Ok then u else t.(failed := true)
    case _ => u
  }

  /** The object a goroutine would create; doris without its FE or BE entry has none. */
  function Desired(s: State, t: Inner, role: Role, choice: Choice): Option<Obj> {
    match role
    case KyuubiRole => Some(KyuubiObj(KyuubiReplicas(t.cluster, t.entry), t.read))
    case MetastoreRole => Some(MetastoreObj(s.metastoreReplicas, t.read))
    case TenantRole => if choice.Nodes? then Some(TenantObj(choice.n)) else None
    case PgRole => Some(PgObj)
    case DorisRole => if FindsFEAndBE(t.cluster, t.entry) then Some(DorisObj) else None
    case ZkRole => Some(ZkObj)
    case HdfsRole => Some(HdfsObj(NameNodesAsked(t.cluster, t.entry)))
    case MinioConfigRole => Some(MinioConfigSecret)
    case MinioUserRole => Some(MinioUserSecret(if choice.Random? then choice.creds else NO_CREDS))
    case PgInitRole => Some(PgInitSecret)
    case PgSuperRole => Some(PgSuperSecret(SuperUser(t.entry).0, SuperUser(t.entry).1))
  }

  /** getPGSuperUserNameAndPassword. */
  function SuperUser(v: ClusterInfo): (string, string) {
    if v.auth.kind == "simple" && v.auth.user != "" && v.auth.password != "" then (v.auth.user, v.auth.password)
    else ("postgres", "postgres")
  }

  const TENANT_STEP := 2

  /** constructMinioTenant returned an error, which reconcileMinioTenant drops. */
  function Doom(t: Inner): Inner {
    t.(k := TENANT_STEP, stage := Get, desired := None, doomed := true)
  }

  function IsMinioSecret(role: Role): bool {
    role == MinioConfigRole || role == MinioUserRole
  }

  function Broken(t: Inner, role: Role): Inner {
    if IsMinioSecret(role) then Doom(t) else t.(failed := true)
  }

  function NextObject(t: Inner): Inner {
    t.(k := t.k + 1, stage := Build, desired := None)
  }

  /** AlreadyExists: the database secrets accept it, the minio secrets and every main object do not. */
  function LostRace(t: Inner, role: Role): Inner {
    if role == PgInitRole || role == PgSuperRole then NextObject(t) else Broken(t, role)
  }

  predicate CreateAccepted(s: State, t: Inner, choice: Choice)
    requires t.k < |RolesOf(t)|
  {
    t.missing && t.desired.Some? && choice != Fail && Key(t.cluster.id, RolesOf(t)[t.k]) !in s.store
  }

  function AfterStep(s: State, t: Inner, choice: Choice): Inner
    requires t.k < |RolesOf(t)|
  {
    var role := RolesOf(t)[t.k];
    var key := Key(t.cluster.id, role);
    match t.stage
    case Build =>
      if role == TenantRole && choice == Fail then Doom(t)
      else t.(desired := Desired(s, t, role, choice), stage := Get)
    case Get =>
      if choice == Fail then Broken(t, role)
      else t.(missing := key !in s.store, stage := Create)
    case Create =>
      if !t.missing then NextObject(t)
      else if t.desired.None? || choice == Fail then Broken(t, role)
      else if key in s.store then LostRace(t, role)
      else if choice == LostReply then Broken(t, role)
      else NextObject(t)
  }

  function AfterRun(s: State, t: Inner, choice: Choice): Inner
    requires !Done(t)
  {
    if t.wait < |WaitsOf(t)| then AfterWait(s, t, WaitsOf(t)[t.wait], choice) else AfterStep(s, t, choice)
  }

  /** The object an inner goroutine's step puts in the store, if any. */
  function Accepts(s: State, t: Inner, choice: Choice): Option<Created>
    requires !Done(t)
  {
    if t.wait >= |WaitsOf(t)| && t.stage == Create && CreateAccepted(s, t, choice) then
      Some(Created(Key(t.cluster.id, RolesOf(t)[t.k]), t.desired.value))
    else None
  }

  function NewReplicas(s: State, t: Inner): int {
    if t.wait < |WaitsOf(t)| && WaitsOf(t)[t.wait].SetReplicas? && WaitsOf(t)[t.wait].n != 0 then WaitsOf(t)[t.wait].n
    else s.metastoreReplicas
  }

  function ApplyRun(s: State, j: nat, choice: Choice): State
    requires j < |s.inners| && !Done(s.inners[j])
  {
    var t := s.inners[j];
    var s' := s.(inners := s.inners[j := AfterRun(s, t, choice)], metastoreReplicas := NewReplicas(s, t));
    match Accepts(s, t, choice)
    case None => s'
    case Some(cr) => s'.(store := s.store[cr.key := cr.obj], log := s.log + [cr])
  }

  /** The read of the user secret fails with an error other than "not found". */
  predicate LosesRead(t: Inner, choice: Choice) {
    choice == Fail && t.wait < |WaitsOf(t)| && WaitsOf(t)[t.wait] == MinioSecret
  }

  // ---------------------------------------------------------------- runs

  function Apply(s: State, e: Event): State
    requires Enabled(s, e)
  {
    match e
    case Pass(c) => ApplyPass(s, c)
    case TryLock(i) => ApplyTryLock(s, i)
    case Launch(i) => ApplyLaunch(s, i)
    case Unlock(i) => ApplyUnlock(s, i)
    case Run(j, choice) => ApplyRun(s, j, choice)
    case BecomeReady(k) => s.(ready := s.ready[k := ReadyCount(s, k) + 1])
    case BecomeUnready(k) => s.(ready := s.ready[k := ReadyCount(s, k) - 1])
  }

  /** A run of the machine from s: every event is enabled when it happens. */
  predicate IsRun(s: State, events: seq<Event>)
    decreases |events|
  {
    events == [] || (Enabled(s, events[0]) && IsRun(Apply(s, events[0]), events[1..]))
  }

  function EndOf(s: State, events: seq<Event>): State
    requires IsRun(s, events)
    decreases |events|
  {
    if events == [] then s else EndOf(Apply(s, events[0]), events[1..])
  }

  /** The cluster one of whose goroutines loses its read of the user secret in this step. */
  function LostRead(s: State, e: Event): iset<Ident> {
    if e.Run? && e.j < |s.inners| && LosesRead(s.inners[e.j], e.choice) then iset{s.inners[e.j].cluster.id} else iset{}
  }

  /** The clusters of which that happens in a run. */
  function LostReads(s: State, events: seq<Event>): iset<Ident>
    requires IsRun(s, events)
    decreases |events|
  {
    if events == [] then iset{} else LostRead(s, events[0]) + LostReads(Apply(s, events[0]), events[1..])
  }
}
