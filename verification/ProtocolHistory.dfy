/** What the state of a run says of how it came about: every stored object was made by a goroutine past all
    its waits and is what that goroutine's entry calls for, and every wait that is over found what it
    waited for. */
module ProtocolHistory {
  import opened Text
  import opened Clusters
  import opened Protocol
  import opened ProtocolSafety
  import opened Coverage

  // ---------------------------------------------------------------- what the entries call for

  predicate WantsKyuubiHA(c: Cluster) {
    "kyuubi-ha" in c.features && c.features["kyuubi-ha"] in ["1", "t", "T", "TRUE", "true", "True"]
  }

  /** What the object that an entry's goroutine creates under a role must be. */
  ghost predicate Suits(c: Cluster, v: ClusterInfo, role: Role, o: Obj) {
    match role
    case KyuubiRole =>
      o.KyuubiObj? && o.replicas == if WantsKyuubiHA(c) then 2 else if v.replicas == 0 then 1 else v.replicas
    case HdfsRole =>
      && o.HdfsObj?
      && (HdfsNameNode !in v.refs || (forall i :: 0 <= i < |c.clusterSet| ==> c.clusterSet[i].typ != HdfsNameNode) ==> o.nameNodes == 0)
      && (HdfsNameNode in v.refs ==>
            forall i :: 0 <= i < |c.clusterSet| && IsLastNameNode(c.clusterSet, i) ==> o.nameNodes == c.clusterSet[i].replicas)
    case DorisRole =>
      && DorisFE in v.refs && DorisBE in v.refs
      && (exists e :: e in c.clusterSet && e.typ == DorisFE) && (exists e :: e in c.clusterSet && e.typ == DorisBE)
    case PgSuperRole =>
      o == if v.auth.kind == "simple" && v.auth.user != "" && v.auth.password != "" then PgSuperSecret(v.auth.user, v.auth.password)
           else PgSuperSecret("postgres", "postgres")
    case _ => true
  }

  lemma NameNodesSuit(c: Cluster, v: ClusterInfo)
    ensures Suits(c, v, HdfsRole, HdfsObj(NameNodesAsked(c, v)))
  {
    if forall i :: 0 <= i < |c.clusterSet| ==> c.clusterSet[i].typ != HdfsNameNode {
      NoNameNodes(c.clusterSet);
    }
    forall i | 0 <= i < |c.clusterSet| && IsLastNameNode(c.clusterSet, i) ensures LastNameNodes(c.clusterSet) == c.clusterSet[i].replicas {
      LastNameNodesIsLast(c.clusterSet, i);
    }
    hide LastNameNodes, IsLastNameNode;
  }

  lemma ListedEntry(entries: seq<ClusterInfo>, t: ClusterType)
    requires Lists(entries, t)
    ensures exists e :: e in entries && e.typ == t
  {
    var i :| 0 <= i < |entries| && entries[i].typ == t;
    assert entries[i] in entries;
  }

  lemma DesiredSuits(s: State, t: Inner, role: Role, choice: Choice)
    ensures var d := Desired(s, t, role, choice); d.Some? ==> Suits(t.cluster, t.entry, role, d.value)
  {
    if role == HdfsRole {
      NameNodesSuit(t.cluster, t.entry);
    } else if role == DorisRole && FindsFEAndBE(t.cluster, t.entry) {
      ListedEntry(t.cluster.clusterSet, DorisFE);
      ListedEntry(t.cluster.clusterSet, DorisBE);
    }
    hide NameNodesAsked, Lists, CredsIn;
  }

  // ---------------------------------------------------------------- makers

  /** What is desired is what the entry calls for. */
  ghost predicate InnerSuits(t: Inner) {
    t.desired.Some? && t.k < |RolesOf(t)| ==> Suits(t.cluster, t.entry, RolesOf(t)[t.k], t.desired.value)
  }

  /** Goroutine j made the object, after all its waits. */
  ghost predicate MadeBy(s: State, k: Key, j: nat)
    requires k in s.store
  {
    && j < |s.inners| && s.inners[j].cluster.id == k.id && k.role in RolesOf(s.inners[j])
    && s.inners[j].wait >= |WaitsOf(s.inners[j])|
    && Suits(s.inners[j].cluster, s.inners[j].entry, k.role, s.store[k])
  }

  ghost predicate HasMaker(s: State, k: Key)
    requires k in s.store
  {
    exists j: nat :: MadeBy(s, k, j)
  }

  ghost predicate Made(s: State) {
    (forall k :: k in s.store ==> HasMaker(s, k)) && forall j :: 0 <= j < |s.inners| ==> InnerSuits(s.inners[j])
  }

  lemma MakersStay(s: State, s': State, k: Key)
    requires k in s.store && HasMaker(s, k) && k in s'.store && s'.store[k] == s.store[k] && |s.inners| <= |s'.inners|
    requires forall j :: 0 <= j < |s.inners| ==>
      s'.inners[j].cluster == s.inners[j].cluster && s'.inners[j].entry == s.inners[j].entry && s'.inners[j].wait >= s.inners[j].wait
    ensures HasMaker(s', k)
  {
    hide Roles, Waits, Suits;
    var j: nat :| MadeBy(s, k, j);
    assert MadeBy(s', k, j);
  }

  lemma RunKeepsInnerSuits(s: State, t: Inner, choice: Choice)
    requires InnerSuits(t) && RunEnabled(s, t, choice)
    ensures InnerSuits(AfterRun(s, t, choice))
  {
    if t.wait >= |WaitsOf(t)| {
      AfterStepDesired(s, t, choice);
      DesiredSuits(s, t, RolesOf(t)[t.k], choice);
      hide AfterStep, Waits, Roles, Suits, Desired;
    } else {
      hide Waits, Roles, Suits, CredsIn;
    }
  }

  lemma RunKeepsMade(s: State, j: nat, choice: Choice)
    requires Made(s) && CanRun(s, j, choice)
    ensures Made(ApplyRun(s, j, choice))
  {
    var s', t := ApplyRun(s, j, choice), s.inners[j];
    assert InnerSuits(t);
    hide ApplyRun, AfterRun, Accepts, Roles, Waits, HasMaker, InnerSuits, RunEnabled, NewReplicas;
    RunKeepsInnerSuits(s, t, choice);
    SamePlace(s, t, choice);
    RunChangesOnly(s, j, choice);
    RunExtendsStep(s, j, choice);
    AcceptedHasMaker(s, j, choice);
    MakersOfAll(s, s');
  }

  lemma MakersOfAll(s: State, s': State)
    requires (forall k :: k in s.store ==> HasMaker(s, k)) && Extends(s, s') && |s.inners| <= |s'.inners|
    requires forall j :: 0 <= j < |s.inners| ==>
      s'.inners[j].cluster == s.inners[j].cluster && s'.inners[j].entry == s.inners[j].entry && s'.inners[j].wait >= s.inners[j].wait
    ensures forall k :: k in s.store ==> k in s'.store && HasMaker(s', k)
  {
    hide HasMaker;
    forall k | k in s.store ensures k in s'.store && HasMaker(s', k) {
      MakersStay(s, s', k);
    }
  }

  lemma AcceptedHasMaker(s: State, j: nat, choice: Choice)
    requires CanRun(s, j, choice) && InnerSuits(s.inners[j])
    ensures Accepts(s, s.inners[j], choice).Some? ==>
      var k, s' := Accepts(s, s.inners[j], choice).value.key, ApplyRun(s, j, choice);
      k in s'.store && HasMaker(s', k)
  {
    SamePlace(s, s.inners[j], choice);
    if Accepts(s, s.inners[j], choice).Some? {
      var k, s' := Accepts(s, s.inners[j], choice).value.key, ApplyRun(s, j, choice);
      hide Waits, Roles, Suits, AfterRun;
      assert MadeBy(s', k, j);
    }
  }

  lemma OutsideKeepsMade(s: State, s': State)
    requires Made(s) && s'.store == s.store && s.inners <= s'.inners
    requires forall j :: |s.inners| <= j < |s'.inners| ==> s'.inners[j].desired.None?
    ensures Made(s')
  {
    hide HasMaker, Suits, Roles;
    forall k | k in s.store ensures HasMaker(s', k) {
      MakersStay(s, s', k);
    }
  }

  lemma StepKeepsMade(s: State, e: Event)
    requires Made(s) && Enabled(s, e)
    ensures Made(Apply(s, e))
  {
    hide Made;
    match e
    case Run(j, choice) => RunKeepsMade(s, j, choice);
    case Pass(c) =>
      if PassCluster(c).Some? {
        SpawnExtends(s, PassCluster(c).value, |PassCluster(c).value.clusterSet|);
      }
      OutsideKeepsMade(s, Apply(s, e));
    case _ => OutsideKeepsMade(s, Apply(s, e));
  }

  lemma {:induction false} RunsKeepMade(s: State, events: seq<Event>)
    requires Made(s) && IsRun(s, events)
    ensures Made(EndOf(s, events))
    decreases |events|
  {
    hide Made;
    if events != [] {
      StepKeepsMade(s, events[0]);
      RunsKeepMade(Apply(s, events[0]), events[1..]);
    }
  }

  lemma RunsKeepMadeFromInit(events: seq<Event>)
    requires IsRun(INIT, events)
    ensures Made(EndOf(INIT, events))
  {
    RunsKeepMade(INIT, events);
  }

  /** In every run each stored object was made by a goroutine of its cluster that had done all its waits,
      and is what that goroutine's entry and cluster call for: kyuubi's replicas by its high availability,
      the name nodes of the last such entry, doris with both its references listed, and the superuser's
      own name and password or the default ones. */
  lemma StoredIsCalledFor(events: seq<Event>, k: Key) returns (j: nat)
    requires IsRun(INIT, events) && k in EndOf(INIT, events).store
    ensures var s := EndOf(INIT, events);
      && j < |s.inners| && s.inners[j].cluster.id == k.id && s.inners[j].wait >= |WaitsOf(s.inners[j])|
      && k.role in RolesOf(s.inners[j])
    ensures var s := EndOf(INIT, events); var c, v, o := s.inners[j].cluster, s.inners[j].entry, s.store[k];
      && (k.role == KyuubiRole ==>
            o.KyuubiObj? && o.replicas == if WantsKyuubiHA(c) then 2 else if v.replicas == 0 then 1 else v.replicas)
      && (k.role == HdfsRole ==>
            && o.HdfsObj? && (HdfsNameNode !in v.refs ==> o.nameNodes == 0)
            && (HdfsNameNode in v.refs ==>
                  forall i :: 0 <= i < |c.clusterSet| && IsLastNameNode(c.clusterSet, i) ==> o.nameNodes == c.clusterSet[i].replicas))
      && (k.role == DorisRole ==>
            && DorisFE in v.refs && DorisBE in v.refs
            && (exists e :: e in c.clusterSet && e.typ == DorisFE) && (exists e :: e in c.clusterSet && e.typ == DorisBE))
      && (k.role == PgSuperRole ==>
            if v.auth.kind == "simple" && v.auth.user != "" && v.auth.password != "" then o == PgSuperSecret(v.auth.user, v.auth.password)
            else o == PgSuperSecret("postgres", "postgres"))
  {
    RunsKeepMadeFromInit(events);
    var s := EndOf(INIT, events);
    assert HasMaker(s, k);
    j :| MadeBy(s, k, j);
    hide Waits, Roles, WantsKyuubiHA;
  }

  // ---------------------------------------------------------------- draws

  predicate InnerDraws(t: Inner, creds: set<Creds>, nodes: set<nat>) {
    t.desired.Some? ==>
      && (t.desired.value.MinioUserSecret? ==> t.desired.value.creds in creds)
      && (t.desired.value.TenantObj? ==> exists n :: n in nodes && t.desired.value.servers == n)
  }

  predicate StoreDraws(store: map<Key, Obj>, creds: set<Creds>, nodes: set<nat>) {
    forall k :: k in store ==>
      && (store[k].MinioUserSecret? ==> store[k].creds in creds)
      && (store[k].TenantObj? ==> exists n :: n in nodes && store[k].servers == n)
  }

  /** Every secret has credentials drawn, and every tenant as many servers as nodes were found. */
  ghost predicate Drawn(s: State, creds: set<Creds>, nodes: set<nat>) {
    (forall j :: 0 <= j < |s.inners| ==> InnerDraws(s.inners[j], creds, nodes)) && StoreDraws(s.store, creds, nodes)
  }

  predicate DrawsFrom(e: Event, creds: set<Creds>, nodes: set<nat>) {
    && (e.Run? && e.choice.Random? ==> e.choice.creds in creds)
    && (e.Run? && e.choice.Nodes? ==> e.choice.n in nodes)
  }

  function CredsDrawn(events: seq<Event>): set<Creds> {
    set i | 0 <= i < |events| && events[i].Run? && events[i].choice.Random? :: events[i].choice.creds
  }

  function NodesIn(events: seq<Event>): set<nat> {
    set i | 0 <= i < |events| && events[i].Run? && events[i].choice.Nodes? :: events[i].choice.n
  }

  /** Only building an object sets what is desired. */
  lemma BuiltOnly(s: State, t: Inner, choice: Choice)
    requires t.k < |RolesOf(t)|
    ensures t.stage != Build ==> AfterStep(s, t, choice).desired == None || AfterStep(s, t, choice).desired == t.desired
  {
    hide Waits, Roles, Desired;
  }

  lemma DesiredDraws(s: State, t: Inner, role: Role, choice: Choice, creds: set<Creds>, nodes: set<nat>)
    requires DrawsFrom(Run(0, choice), creds, nodes) && (role == MinioUserRole ==> choice.Random?)
    ensures var d := Desired(s, t, role, choice); InnerDraws(t.(desired := d), creds, nodes)
  {
    hide Lists, NameNodesAsked, KyuubiReplicas, CredsIn;
  }

  lemma RunKeepsInnerDraws(s: State, t: Inner, choice: Choice, creds: set<Creds>, nodes: set<nat>)
    requires InnerDraws(t, creds, nodes) && RunEnabled(s, t, choice) && DrawsFrom(Run(0, choice), creds, nodes)
    ensures InnerDraws(AfterRun(s, t, choice), creds, nodes)
  {
    if t.wait >= |WaitsOf(t)| {
      AfterStepDesired(s, t, choice);
      BuiltOnly(s, t, choice);
      if t.stage == Build {
        assert RolesOf(t)[t.k] == MinioUserRole ==> choice.Random?;
        DesiredDraws(s, t, RolesOf(t)[t.k], choice, creds, nodes);
      }
      hide AfterStep, Waits, Roles, Desired, StepEnabled;
    } else {
      hide Waits, Roles, CredsIn;
    }
  }

  lemma RunKeepsDrawn(s: State, j: nat, choice: Choice, creds: set<Creds>, nodes: set<nat>)
    requires Drawn(s, creds, nodes) && CanRun(s, j, choice) && DrawsFrom(Run(0, choice), creds, nodes)
    ensures Drawn(ApplyRun(s, j, choice), creds, nodes)
  {
    var t := s.inners[j];
    assert InnerDraws(t, creds, nodes);
    RunKeepsInnerDraws(s, t, choice, creds, nodes);
    RunChangesOnly(s, j, choice);
    assert Accepts(s, t, choice).Some? ==> Some(Accepts(s, t, choice).value.obj) == t.desired;
    hide AfterRun, Accepts, ApplyRun, Waits, Roles, RunEnabled, NewReplicas;
  }

  lemma StepKeepsDrawn(s: State, e: Event, creds: set<Creds>, nodes: set<nat>)
    requires Drawn(s, creds, nodes) && Enabled(s, e) && DrawsFrom(e, creds, nodes)
    ensures Drawn(Apply(s, e), creds, nodes)
  {
    match e
    case Pass(c) =>
      if PassCluster(c).Some? {
        SpawnExtends(s, PassCluster(c).value, |PassCluster(c).value.clusterSet|);
      }
    case Run(j, choice) => RunKeepsDrawn(s, j, choice, creds, nodes);
    case _ => hide StoreDraws;
  }

  lemma {:induction false} RunsKeepDrawn(s: State, events: seq<Event>, creds: set<Creds>, nodes: set<nat>)
    requires Drawn(s, creds, nodes) && IsRun(s, events)
    requires forall i :: 0 <= i < |events| ==> DrawsFrom(events[i], creds, nodes)
    ensures Drawn(EndOf(s, events), creds, nodes)
    decreases |events|
  {
    hide Drawn, DrawsFrom;
    if events != [] {
      StepKeepsDrawn(s, events[0], creds, nodes);
      RunsKeepDrawn(Apply(s, events[0]), events[1..], creds, nodes);
    }
  }

  lemma RunsAreDrawn(events: seq<Event>, creds: set<Creds>, nodes: set<nat>)
    requires IsRun(INIT, events) && NodesIn(events) <= nodes && CredsDrawn(events) <= creds
    ensures Drawn(EndOf(INIT, events), creds, nodes)
  {
    forall i | 0 <= i < |events| ensures DrawsFrom(events[i], creds, nodes) {
      assert events[i].Run? && events[i].choice.Random? ==> events[i].choice.creds in CredsDrawn(events);
      assert events[i].Run? && events[i].choice.Nodes? ==> events[i].choice.n in NodesIn(events);
    }
    hide DrawsFrom, CredsDrawn, NodesIn;
    RunsKeepDrawn(INIT, events, creds, nodes);
  }

  lemma SecretHasCreds(events: seq<Event>, id: Ident)
    requires IsRun(INIT, events) && Key(id, MinioUserRole) in EndOf(INIT, events).store
    ensures EndOf(INIT, events).store[Key(id, MinioUserRole)].MinioUserSecret?
  {
    var s := EndOf(INIT, events);
    RunKeepsInvariant(INIT, events, EVERYONE);
    assert ContentOk(s, Key(id, MinioUserRole), EVERYONE);
    hide *;
  }

  lemma TenantHasServers(events: seq<Event>, id: Ident)
    requires IsRun(INIT, events) && Key(id, TenantRole) in EndOf(INIT, events).store
    ensures EndOf(INIT, events).store[Key(id, TenantRole)].TenantObj?
  {
    var s := EndOf(INIT, events);
    RunKeepsInvariant(INIT, events, EVERYONE);
    assert ContentOk(s, Key(id, TenantRole), EVERYONE);
    hide *;
  }

  lemma DrawnWas(events: seq<Event>, creds: Creds) returns (i: nat)
    requires creds in CredsDrawn(events)
    ensures i < |events| && events[i].Run? && events[i].choice == Random(creds)
  {
    i :| i < |events| && events[i].Run? && events[i].choice.Random? && events[i].choice.creds == creds;
  }

  lemma FoundWas(events: seq<Event>, n: nat) returns (i: nat)
    requires n in NodesIn(events)
    ensures i < |events| && events[i].Run? && events[i].choice == Nodes(n)
  {
    i :| i < |events| && events[i].Run? && events[i].choice.Nodes? && events[i].choice.n == n;
  }

  /** In every run the stored credentials were drawn in it. */
  lemma StoredCredentialsWereDrawn(events: seq<Event>, id: Ident) returns (i: nat, creds: Creds)
    requires IsRun(INIT, events) && Key(id, MinioUserRole) in EndOf(INIT, events).store
    ensures i < |events| && events[i].Run? && events[i].choice == Random(creds)
    ensures EndOf(INIT, events).store[Key(id, MinioUserRole)] == MinioUserSecret(creds)
  {
    hide IsRun, EndOf, CredsDrawn, NodesIn, InnerDraws;
    RunsAreDrawn(events, CredsDrawn(events), NodesIn(events));
    SecretHasCreds(events, id);
    creds := EndOf(INIT, events).store[Key(id, MinioUserRole)].creds;
    i := DrawnWas(events, creds);
  }

  /** In every run a stored tenant has as many servers as directpv nodes were found at some time. */
  lemma StoredTenantFitsNodes(events: seq<Event>, id: Ident) returns (i: nat, n: nat)
    requires IsRun(INIT, events) && Key(id, TenantRole) in EndOf(INIT, events).store
    ensures i < |events| && events[i].Run? && events[i].choice == Nodes(n)
    ensures EndOf(INIT, events).store[Key(id, TenantRole)] == TenantObj(n)
  {
    hide IsRun, EndOf, CredsDrawn, NodesIn, InnerDraws;
    RunsAreDrawn(events, CredsDrawn(events), NodesIn(events));
    TenantHasServers(events, id);
    n :| n in NodesIn(events) && EndOf(INIT, events).store[Key(id, TenantRole)].servers == n;
    i := FoundWas(events, n);
  }

  /** A goroutine that is done, and neither failed nor lost a secret, leaves all its objects stored. */
  lemma DoneLeavesAll(events: seq<Event>, j: nat)
    requires IsRun(INIT, events) && j < |EndOf(INIT, events).inners|
    ensures var s := EndOf(INIT, events); var t := s.inners[j];
      Done(t) && !t.failed && !t.doomed ==> forall role :: role in RolesOf(t) ==> Key(t.cluster.id, role) in s.store
  {
    var s := EndOf(INIT, events);
    RunKeepsInvariant(INIT, events, EVERYONE);
    assert InnerOk(s, s.inners[j], EVERYONE);
    hide Waits, Roles;
  }

  // ---------------------------------------------------------------- waits

  /** The state after the first n events. */
  ghost function After(s: State, events: seq<Event>, n: nat): State
    requires IsRun(s, events) && n <= |events|
    decreases n
  {
    if n == 0 then s else After(Apply(s, events[0]), events[1..], n - 1)
  }

  /** It is where the prefix of the run ends. */
  lemma {:induction false} AfterEndsPrefix(s: State, events: seq<Event>, n: nat)
    requires IsRun(s, events) && n <= |events|
    ensures IsRun(s, events[..n]) && EndOf(s, events[..n]) == After(s, events, n)
    ensures After(s, events, |events|) == EndOf(s, events)
    decreases |events|
  {
    hide Enabled, Apply;
    if events != [] {
      var e, rest := events[0], events[1..];
      AfterEndsPrefix(Apply(s, e), rest, if n == 0 then 0 else n - 1);
      if n > 0 {
        assert events[..n] == [e] + rest[..n - 1];
        assert events[..n][1..] == rest[..n - 1];
      }
    }
  }

  lemma StepKeepsInners(s: State, e: Event, j: nat)
    requires Enabled(s, e)
    ensures |s.inners| <= |Apply(s, e).inners|
    ensures j < |Apply(s, e).inners| ==> var s' := Apply(s, e);
      && (j < |s.inners| ==>
            && s'.inners[j].cluster == s.inners[j].cluster && s'.inners[j].entry == s.inners[j].entry
            && s'.inners[j].wait >= s.inners[j].wait
            && (s'.inners[j].wait > s.inners[j].wait ==>
                  && e.Run? && e.j == j && s'.inners[j].wait == s.inners[j].wait + 1 && s.inners[j].wait < |WaitsOf(s.inners[j])|
                  && WaitEnabled(s, s.inners[j], WaitsOf(s.inners[j])[s.inners[j].wait], e.choice)))
      && (j >= |s.inners| ==> s'.inners[j].wait == 0)
  {
    match e
    case Pass(c) =>
      if PassCluster(c).Some? {
        SpawnExtends(s, PassCluster(c).value, |PassCluster(c).value.clusterSet|);
      }
    case Run(i, choice) => RunMovesWait(s, i, choice);
    case _ =>
  }

  lemma RunMovesWait(s: State, i: nat, choice: Choice)
    requires CanRun(s, i, choice)
    ensures var t, s' := s.inners[i], ApplyRun(s, i, choice);
      && |s'.inners| == |s.inners| && (forall j :: 0 <= j < |s.inners| && j != i ==> s'.inners[j] == s.inners[j])
      && s'.inners[i].cluster == t.cluster && s'.inners[i].entry == t.entry
      && (s'.inners[i].wait == t.wait
          || (s'.inners[i].wait == t.wait + 1 && t.wait < |WaitsOf(t)| && WaitEnabled(s, t, WaitsOf(t)[t.wait], choice)))
  {
    var t := s.inners[i];
    SamePlace(s, t, choice);
    RunChangesOnly(s, i, choice);
    if t.wait >= |WaitsOf(t)| {
      AfterStepDesired(s, t, choice);
      hide Waits, Roles, AfterStep, ApplyRun;
    } else {
      hide Waits, Roles, CredsIn, ApplyRun, WaitEnabled;
    }
  }

  /** The step at which goroutine j's i-th wait ended. */
  ghost predicate EndsWait(s: State, events: seq<Event>, n: nat, j: nat, i: nat)
    requires IsRun(s, events) && j < |EndOf(s, events).inners|
  {
    && n < |events| && events[n].Run? && events[n].j == j
    && var m, t := After(s, events, n), EndOf(s, events).inners[j];
       && j < |m.inners| && m.inners[j].wait == i && m.inners[j].cluster == t.cluster && m.inners[j].entry == t.entry
       && i < |WaitsOf(t)| && WaitEnabled(m, m.inners[j], WaitsOf(t)[i], events[n].choice)
  }

  lemma {:induction false} InnersStay(s: State, events: seq<Event>, j: nat)
    requires IsRun(s, events) && j < |s.inners|
    ensures var t := EndOf(s, events); j < |t.inners| && t.inners[j].cluster == s.inners[j].cluster && t.inners[j].entry == s.inners[j].entry
    decreases |events|
  {
    hide Enabled, Apply;
    if events != [] {
      StepKeepsInners(s, events[0], j);
      InnersStay(Apply(s, events[0]), events[1..], j);
    }
  }

  /** A wait that is over ended at some step of the run. */
  lemma {:induction false} PastWait(s: State, events: seq<Event>, j: nat, i: nat) returns (n: nat)
    requires IsRun(s, events) && j < |EndOf(s, events).inners| && i < EndOf(s, events).inners[j].wait
    requires j < |s.inners| ==> s.inners[j].wait <= i
    ensures EndsWait(s, events, n, j, i)
    decreases |events|
  {
    hide Enabled, Apply, WaitEnabled, Waits;
    var e, rest := events[0], events[1..];
    var s1 := Apply(s, e);
    if j < |s1.inners| {
      StepKeepsInners(s, e, j);
    }
    if j < |s1.inners| && s1.inners[j].wait > i {
      n := 0;
      InnersStay(s, events, j);
    } else {
      n := PastWait(s1, rest, j, i);
      assert After(s, events, n + 1) == After(s1, rest, n);
      n := n + 1;
    }
  }

  /** What a wait is for is there: three ready replicas for the database and for zookeeper, at least one
      and as many as MetastoreReplicas says for the metastore, at least one and as many as wanted for name
      nodes, a ready tenant of the namespace, and the stored secret. */
  ghost predicate Met(m: State, id: Ident, w: Wait) {
    match w
    case Pods(role, _) => ReadyCount(m, Key(id, role)) >= 3
    case MetastorePods => ReadyCount(m, Key(id, MetastoreRole)) >= 1 && ReadyCount(m, Key(id, MetastoreRole)) >= m.metastoreReplicas
    case NameNodes(wanted) => ReadyCount(m, Key(id, HdfsRole)) >= 1 && ReadyCount(m, Key(id, HdfsRole)) >= wanted
    case MinioService => exists k: Key :: k.role == TenantRole && k.id.ns == id.ns && ReadyCount(m, k) >= 1
    case MinioSecret => Key(id, MinioUserRole) in m.store
    case SetReplicas(_) => true
    case External => true
  }

  /** The ways to go on without it: the time limit for name nodes, and failing reads for MinIO. */
  predicate GoesWithout(w: Wait, choice: Choice) {
    match w
    case NameNodes(_) => choice == Timeout
    case MinioService => choice == Fail
    case MinioSecret => choice == Fail
    case _ => false
  }

  lemma PodsAreThree(c: Cluster, v: ClusterInfo, i: nat)
    requires i < |Waits(c, v)| && Waits(c, v)[i].Pods?
    ensures Waits(c, v)[i].need == 3
  {
    WaitCases(c, v, Waits(c, v)[i]);
    hide Waits;
  }

  lemma EnabledIsMet(m: State, t: Inner, i: nat, choice: Choice)
    requires i < |WaitsOf(t)| && WaitEnabled(m, t, WaitsOf(t)[i], choice)
    ensures Met(m, t.cluster.id, WaitsOf(t)[i]) || GoesWithout(WaitsOf(t)[i], choice)
  {
    if WaitsOf(t)[i].Pods? {
      PodsAreThree(t.cluster, t.entry, i);
    }
    hide Waits;
    if MinioServiceUp(m, t.cluster.id.ns) {
      var k :| k in m.ready && k.role == TenantRole && k.id.ns == t.cluster.id.ns && m.ready[k] >= 1;
      assert ReadyCount(m, k) >= 1;
    }
  }

  /** In every run, whatever fails, each wait of each goroutine ended at a step of its own at which what it
      is for was there, or which went on without it. */
  lemma EveryWaitWasMet(events: seq<Event>, j: nat, i: nat) returns (n: nat)
    requires IsRun(INIT, events) && j < |EndOf(INIT, events).inners| && i < EndOf(INIT, events).inners[j].wait
    ensures n < |events| && events[n].Run? && events[n].j == j
    ensures var t := EndOf(INIT, events).inners[j];
      i < |WaitsOf(t)| && (Met(After(INIT, events, n), t.cluster.id, WaitsOf(t)[i]) || GoesWithout(WaitsOf(t)[i], events[n].choice))
  {
    n := PastWait(INIT, events, j, i);
    var m := After(INIT, events, n);
    hide Waits, WaitEnabled, Met, GoesWithout;
    EnabledIsMet(m, m.inners[j], i, events[n].choice);
  }

  // ---------------------------------------------------------------- what a component was made after

  /** At some step of goroutine j what it waited for was there, or it went on without it. */
  ghost predicate OnceMet(events: seq<Event>, j: nat, id: Ident, w: Wait)
    requires IsRun(INIT, events)
  {
    exists n :: 0 <= n < |events| && events[n].Run? && events[n].j == j
                && (Met(After(INIT, events, n), id, w) || GoesWithout(w, events[n].choice))
  }

  /** At some time of the run three replicas of the object were ready. */
  ghost predicate OnceThreeReady(events: seq<Event>, k: Key)
    requires IsRun(INIT, events)
  {
    exists n :: 0 <= n <= |events| && ReadyCount(After(INIT, events, n), k) >= 3
  }

  lemma MetThree(events: seq<Event>, j: nat, id: Ident, role: Role)
    requires IsRun(INIT, events) && OnceMet(events, j, id, Pods(role, 3))
    ensures OnceThreeReady(events, Key(id, role))
  {
    var n :| 0 <= n < |events| && events[n].Run? && events[n].j == j
             && (Met(After(INIT, events, n), id, Pods(role, 3)) || GoesWithout(Pods(role, 3), events[n].choice));
    assert ReadyCount(After(INIT, events, n), Key(id, role)) >= 3;
  }

  /** A goroutine past its waits had each of them met. */
  lemma GoroutinesHadTheirNeeds(events: seq<Event>, j: nat, w: Wait)
    requires IsRun(INIT, events) && j < |EndOf(INIT, events).inners|
    requires var t := EndOf(INIT, events).inners[j]; t.wait >= |WaitsOf(t)| && w in WaitsOf(t)
    ensures OnceMet(events, j, EndOf(INIT, events).inners[j].cluster.id, w)
  {
    var t := EndOf(INIT, events).inners[j];
    hide Waits, Met, GoesWithout;
    var i :| 0 <= i < |WaitsOf(t)| && WaitsOf(t)[i] == w;
    var n := EveryWaitWasMet(events, j, i);
  }

  /** Which waits a component has, in terms of its entry and the cluster's features. */
  lemma NeedsInFull(c: Cluster, v: ClusterInfo)
    ensures var hdfs := "storage" in c.features && c.features["storage"] == "hdfs";
      var jdbc := v.auth.kind == "" || v.auth.kind == "JDBC";
      var twoNameNodes := exists e :: e in c.clusterSet && e.typ == HdfsNameNode && e.replicas == 2;
      && (Pods(PgRole, 3) in Waits(c, v) <==> v.typ == MetaStore || (v.typ == Kyuubi && jdbc))
      && (Pods(ZkRole, 3) in Waits(c, v) <==>
            (v.typ == Kyuubi && WantsKyuubiHA(c)) || (v.typ == Hdfs && v.refs != [] && twoNameNodes))
      && (MetastorePods in Waits(c, v) <==> v.typ == Kyuubi)
      && (NameNodes(LastNameNodes(c.clusterSet)) in Waits(c, v) <==> v.typ == MetaStore && hdfs)
      && (MinioService in Waits(c, v) <==> !hdfs && (v.typ == MetaStore || (v.typ == Kyuubi && c.kind == "batch")))
      && (MinioSecret in Waits(c, v) <==> !hdfs && (v.typ == MetaStore || (v.typ == Kyuubi && c.kind == "batch")))
  {
    WaitsInTurn(c, v);
    hide Waits, LastNameNodes;
    if e :| e in c.clusterSet && e.typ == HdfsNameNode && e.replicas == 2 {
      var i :| 0 <= i < |c.clusterSet| && c.clusterSet[i] == e;
    }
  }

  lemma OnlyMaker(v: ClusterInfo)
    ensures MetastoreRole in Roles(v) ==> v.typ == MetaStore
    ensures KyuubiRole in Roles(v) ==> v.typ == Kyuubi
    ensures HdfsRole in Roles(v) ==> v.typ == Hdfs
  {
  }

  /** In every run each stored object was made by a goroutine of its cluster after each of that goroutine's
      waits had been met at a step of its own: a metastore, in particular, after three database replicas had
      been ready, and a kyuubi after as many metastore replicas as MetastoreReplicas then said, and at least
      one. */
  lemma StoredComponentsHadTheirNeeds(events: seq<Event>, k: Key) returns (j: nat)
    requires IsRun(INIT, events) && k in EndOf(INIT, events).store
    ensures j < |EndOf(INIT, events).inners|
    ensures var t := EndOf(INIT, events).inners[j];
      && t.cluster.id == k.id && k.role in RolesOf(t)
      && forall w :: w in WaitsOf(t) ==> OnceMet(events, j, k.id, w)
    ensures k.role == MetastoreRole ==> OnceThreeReady(events, Key(k.id, PgRole))
    ensures k.role == KyuubiRole ==> OnceMet(events, j, k.id, MetastorePods)
  {
    hide Waits, Roles, OnceThreeReady, OnceMet, WantsKyuubiHA, LastNameNodes;
    j := StoredIsCalledFor(events, k);
    var t := EndOf(INIT, events).inners[j];
    forall w | w in WaitsOf(t) ensures OnceMet(events, j, k.id, w) {
      GoroutinesHadTheirNeeds(events, j, w);
    }
    OnlyMaker(t.entry);
    NeedsInFull(t.cluster, t.entry);
    if k.role == MetastoreRole {
      MetThree(events, j, k.id, PgRole);
    }
  }

  /** So a stored kyuubi without an authentication of another kind had three database replicas ready, one
      under high availability three zookeeper replicas, as a stored hdfs whose entry has references and
      whose cluster has two name nodes; and a metastore on HDFS storage had its name nodes ready, unless
      the goroutine that made it gave up. */
  lemma NeedsOfAStored(events: seq<Event>, k: Key, j: nat)
    requires IsRun(INIT, events) && j < |EndOf(INIT, events).inners|
    requires var t := EndOf(INIT, events).inners[j];
      && t.cluster.id == k.id && k.role in RolesOf(t) && forall w :: w in WaitsOf(t) ==> OnceMet(events, j, k.id, w)
    ensures var c, v := EndOf(INIT, events).inners[j].cluster, EndOf(INIT, events).inners[j].entry;
      && (k.role == KyuubiRole && (v.auth.kind == "" || v.auth.kind == "JDBC") ==> OnceThreeReady(events, Key(k.id, PgRole)))
      && (k.role == KyuubiRole && WantsKyuubiHA(c) ==> OnceThreeReady(events, Key(k.id, ZkRole)))
      && (k.role == HdfsRole && v.refs != [] && (exists e :: e in c.clusterSet && e.typ == HdfsNameNode && e.replicas == 2) ==>
            OnceThreeReady(events, Key(k.id, ZkRole)))
      && (k.role == MetastoreRole && "storage" in c.features && c.features["storage"] == "hdfs" ==>
            exists n :: 0 <= n < |events| && events[n].Run? && events[n].j == j
              && var ready := ReadyCount(After(INIT, events, n), Key(k.id, HdfsRole));
                 ((ready >= 1 && ready >= LastNameNodes(c.clusterSet)) || events[n].choice == Timeout))
  {
    var t := EndOf(INIT, events).inners[j];
    hide Waits, Roles, OnceThreeReady, WantsKyuubiHA, LastNameNodes;
    OnlyMaker(t.entry);
    NeedsInFull(t.cluster, t.entry);
    if Pods(PgRole, 3) in WaitsOf(t) {
      MetThree(events, j, k.id, PgRole);
    }
    if Pods(ZkRole, 3) in WaitsOf(t) {
      MetThree(events, j, k.id, ZkRole);
    }
    var w := NameNodes(LastNameNodes(t.cluster.clusterSet));
    if w in WaitsOf(t) {
      assert OnceMet(events, j, k.id, w);
      var n :| 0 <= n < |events| && events[n].Run? && events[n].j == j
               && (Met(After(INIT, events, n), k.id, w) || GoesWithout(w, events[n].choice));
    }
  }

  predicate NobodyUnready(events: seq<Event>) {
    forall i :: 0 <= i < |events| ==> !events[i].BecomeUnready?
  }

  lemma {:induction false} ReadyOnlyGrows(s: State, events: seq<Event>, n: nat, k: Key)
    requires IsRun(s, events) && NobodyUnready(events) && n <= |events|
    ensures ReadyCount(EndOf(s, events), k) >= ReadyCount(After(s, events, n), k) >= ReadyCount(s, k)
    decreases |events|
  {
    hide Enabled;
    if events != [] {
      StepKeepsReady(s, events[0], k);
      ReadyOnlyGrows(Apply(s, events[0]), events[1..], if n == 0 then 0 else n - 1, k);
    }
  }

  lemma StepKeepsReady(s: State, e: Event, k: Key)
    requires Enabled(s, e) && !e.BecomeUnready?
    ensures ReadyCount(Apply(s, e), k) >= ReadyCount(s, k)
  {
    if e.Pass? && PassCluster(e.c).Some? {
      SpawnExtends(s, PassCluster(e.c).value, |PassCluster(e.c).value.clusterSet|);
    }
  }

  /** Where no replica becomes unready again, three are ready at the end, too. */
  lemma ThreeStayReady(events: seq<Event>, k: Key)
    requires IsRun(INIT, events) && NobodyUnready(events) && OnceThreeReady(events, k)
    ensures ReadyCount(EndOf(INIT, events), k) >= 3
  {
    var n :| 0 <= n <= |events| && ReadyCount(After(INIT, events, n), k) >= 3;
    ReadyOnlyGrows(INIT, events, n, k);
  }
}
