/** What a failing call does, over whole runs: which goroutines give up and when, what they leave behind,
    and what every object was created after. */
module ProtocolFailures {
  import opened Text
  import opened Clusters
  import opened Protocol
  import opened ProtocolSafety
  import opened ProtocolHistory

  /** A doris entry without a reference to FE or BE, or whose cluster lists none. */
  predicate LacksReference(c: Cluster, v: ClusterInfo) {
    && v.typ == Doris
    && !(&& DorisFE in v.refs && (exists e :: e in c.clusterSet && e.typ == DorisFE)
         && DorisBE in v.refs && (exists e :: e in c.clusterSet && e.typ == DorisBE))
  }

  function KeyOf(t: Inner): Key
    requires t.k < |RolesOf(t)|
  {
    Key(t.cluster.id, RolesOf(t)[t.k])
  }

  /** A step that cannot be done: an SQL, HDFS or S3 call fails; counting nodes for a tenant fails; a look
      for an object fails; or the object was not found and there is none to create, its create fails, its
      reply is lost, or somebody else created it in between, which only the database secrets accept. */
  predicate Breaks(s: State, t: Inner, choice: Choice)
    requires !Done(t)
  {
    if t.wait < |WaitsOf(t)| then WaitsOf(t)[t.wait] == External && choice == Fail
    else
      match t.stage
      case Build => KeyOf(t).role == TenantRole && choice == Fail
      case Get => choice == Fail
      case Create =>
        && t.missing
        && (t.doomed || LacksReference(t.cluster, t.entry) || choice == Fail
            || if KeyOf(t) in s.store then KeyOf(t).role != PgInitRole && KeyOf(t).role != PgSuperRole else choice == LostReply)
  }

  /** Where that is the minio goroutine's nodes or one of its secrets, it carries on without a tenant. */
  predicate Dooms(s: State, t: Inner, choice: Choice)
    requires !Done(t)
  {
    && Breaks(s, t, choice) && t.wait >= |WaitsOf(t)|
    && (t.stage == Build || KeyOf(t).role == MinioConfigRole || KeyOf(t).role == MinioUserRole)
  }

  /** What there is to create, while it is being looked for. */
  predicate InnerShape(t: Inner) {
    && (t.stage != Build && t.k < |RolesOf(t)| ==> (t.desired.None? <==> t.doomed || LacksReference(t.cluster, t.entry)))
    && (t.doomed ==> t.entry.typ == Minio && t.k == if t.stage == Build then 3 else 2)
    && (t.stage == Build ==> t.desired.None?)
    && (t.stage != Build ==> t.wait >= |WaitsOf(t)|)
  }

  ghost predicate Shaped(s: State) {
    forall j :: 0 <= j < |s.inners| ==> InnerShape(s.inners[j])
  }

  lemma LacksOrFinds(t: Inner)
    requires t.entry.typ == Doris
    ensures LacksReference(t.cluster, t.entry) <==> !FindsFEAndBE(t.cluster, t.entry)
  {
    var entries := t.cluster.clusterSet;
    forall u ensures Lists(entries, u) <==> exists e :: e in entries && e.typ == u {
      if Lists(entries, u) {
        ListedEntry(entries, u);
      }
      if e :| e in entries && e.typ == u {
        var i :| 0 <= i < |entries| && entries[i] == e;
      }
    }
  }

  lemma NothingDesired(s: State, t: Inner, choice: Choice)
    requires t.k < |RolesOf(t)| && StepEnabled(t, choice) && t.stage == Build
    ensures Desired(s, t, RolesOf(t)[t.k], choice).None? <==> LacksReference(t.cluster, t.entry) || (RolesOf(t)[t.k] == TenantRole && choice == Fail)
  {
    if t.entry.typ == Doris {
      LacksOrFinds(t);
    }
    hide LacksReference, FindsFEAndBE, KyuubiReplicas, NameNodesAsked, CredsIn, SuperUser;
  }

  /** A minio goroutine's roles, and that only it has them. */
  lemma MinioRoles(v: ClusterInfo)
    ensures v.typ == Minio ==> Roles(v) == [MinioConfigRole, MinioUserRole, TenantRole]
    ensures forall role :: role in Roles(v) ==>
      (v.typ == Minio <==> role == MinioConfigRole || role == MinioUserRole || role == TenantRole)
  {
  }

  lemma StepBreaks(s: State, t: Inner, choice: Choice)
    requires RunEnabled(s, t, choice) && InnerShape(t) && t.wait >= |WaitsOf(t)|
    ensures var u := AfterStep(s, t, choice);
      && (u.failed <==> Breaks(s, t, choice) && !Dooms(s, t, choice))
      && (u.doomed <==> t.doomed || Dooms(s, t, choice))
  {
    MinioRoles(t.entry);
    hide Waits, Desired, LacksReference, Roles;
  }

  lemma StepKeepsShape(s: State, t: Inner, choice: Choice)
    requires RunEnabled(s, t, choice) && InnerShape(t) && t.wait >= |WaitsOf(t)|
    ensures InnerShape(AfterStep(s, t, choice))
  {
    if t.stage == Build {
      NothingDesired(s, t, choice);
    }
    MinioRoles(t.entry);
    AfterStepDesired(s, t, choice);
    hide Waits, Desired, LacksReference, Roles;
  }

  /** One step of a goroutine: when it fails, and when it carries on without a tenant. */
  lemma RunBreaks(s: State, t: Inner, choice: Choice)
    requires RunEnabled(s, t, choice) && InnerShape(t)
    ensures var u := AfterRun(s, t, choice);
      && InnerShape(u)
      && (u.failed <==> Breaks(s, t, choice) && !Dooms(s, t, choice))
      && (u.doomed <==> t.doomed || Dooms(s, t, choice))
  {
    if t.wait < |WaitsOf(t)| {
      hide Waits, Roles, LacksReference, CredsIn;
    } else {
      StepBreaks(s, t, choice);
      StepKeepsShape(s, t, choice);
      hide Waits, Roles, Breaks, Dooms, InnerShape, AfterStep, StepEnabled;
    }
  }

  /** What an event does to goroutine j: nothing, unless it is that goroutine's own step. */
  lemma EventBreaks(s: State, e: Event, j: nat)
    requires Enabled(s, e) && Shaped(s) && j < |Apply(s, e).inners|
    ensures |s.inners| <= |Apply(s, e).inners|
    ensures var u := Apply(s, e).inners[j];
      && InnerShape(u)
      && (j >= |s.inners| ==> !u.failed && !u.doomed && u.stage == Build)
      && (j < |s.inners| && !(e.Run? && e.j == j) ==> u == s.inners[j])
      && (j < |s.inners| && e.Run? && e.j == j ==> u == AfterRun(s, s.inners[j], e.choice))
  {
    match e
    case Pass(c) =>
      if PassCluster(c).Some? {
        SpawnExtends(s, PassCluster(c).value, |PassCluster(c).value.clusterSet|);
      }
    case Run(i, choice) =>
      RunChangesOnly(s, i, choice);
      RunBreaks(s, s.inners[i], choice);
      hide AfterRun, InnerShape, RunEnabled, Waits, Roles, Breaks, Dooms, ApplyRun;
    case Launch(i) => hide LacksReference;
    case _ =>
  }

  lemma EventKeepsShaped(s: State, e: Event)
    requires Enabled(s, e) && Shaped(s)
    ensures Shaped(Apply(s, e))
  {
    forall j | 0 <= j < |Apply(s, e).inners| ensures InnerShape(Apply(s, e).inners[j]) {
      EventBreaks(s, e, j);
    }
    hide *;
  }

  /** What the environment may decide. A goroutine that waits goes on as soon as what it waits for is there,
      a call of SQL, HDFS or S3 may succeed or fail at any time, a read of MinIO's service or secret may fail,
      and the name nodes' time limit may be reached. Without a wait, any credentials may be drawn, any number
      of nodes counted, or the count fail; each look may fail, and each create may fail or lose its reply. */
  lemma WhatMayHappen(s: State, t: Inner)
    requires !Done(t)
    ensures t.wait < |WaitsOf(t)| ==>
      var w := WaitsOf(t)[t.wait];
      && (Met(s, t.cluster.id, w) ==> RunEnabled(s, t, Ok))
      && (RunEnabled(s, t, Fail) <==> w == External || w == MinioService || w == MinioSecret)
      && (RunEnabled(s, t, Timeout) <==> w.NameNodes?)
      && (RunEnabled(s, t, Ok) ==> Met(s, t.cluster.id, w))
    ensures t.wait >= |WaitsOf(t)| ==>
      var role := KeyOf(t).role;
      && (RunEnabled(s, t, Ok) <==> t.stage != Build || (role != MinioUserRole && role != TenantRole))
      && (RunEnabled(s, t, Fail) <==> t.stage != Build || role == TenantRole)
      && (RunEnabled(s, t, LostReply) <==> t.stage == Create)
      && (forall creds :: RunEnabled(s, t, Random(creds)) <==> t.stage == Build && role == MinioUserRole)
      && (forall n :: RunEnabled(s, t, Nodes(n)) <==> t.stage == Build && role == TenantRole)
  {
    if t.wait < |WaitsOf(t)| {
      MetIsEnabled(s, t);
      hide Waits, Roles, Met;
    } else {
      hide Waits, Roles;
    }
  }

  /** Readiness comes and goes one replica at a time, up to what the object asks for. */
  lemma ReadinessMoves(s: State, k: Key, l: Key)
    ensures Enabled(s, BecomeReady(k)) <==> k in s.store && ReadyCount(s, k) < Asked(s.store[k])
    ensures Enabled(s, BecomeReady(k)) ==>
      ReadyCount(Apply(s, BecomeReady(k)), l) == ReadyCount(s, l) + if k == l then 1 else 0
    ensures Enabled(s, BecomeUnready(k)) <==> ReadyCount(s, k) > 0
    ensures Enabled(s, BecomeUnready(k)) ==>
      ReadyCount(Apply(s, BecomeUnready(k)), l) == ReadyCount(s, l) - if k == l then 1 else 0
  {
  }

  lemma MetIsEnabled(s: State, t: Inner)
    requires t.wait < |WaitsOf(t)|
    ensures Met(s, t.cluster.id, WaitsOf(t)[t.wait]) <==> WaitEnabled(s, t, WaitsOf(t)[t.wait], Ok)
  {
    var w := WaitsOf(t)[t.wait];
    if w.Pods? {
      PodsAreThree(t.cluster, t.entry, t.wait);
    }
    hide Waits;
    var ns := t.cluster.id.ns;
    if MinioServiceUp(s, ns) {
      var k :| k in s.ready && k.role == TenantRole && k.id.ns == ns && s.ready[k] >= 1;
      assert ReadyCount(s, k) >= 1;
    }
    if k: Key :| k.role == TenantRole && k.id.ns == ns && ReadyCount(s, k) >= 1 {
      assert k in s.ready && s.ready[k] >= 1;
    }
  }

  // ---------------------------------------------------------------- along a run

  lemma {:induction false} AfterOneMore(s: State, events: seq<Event>, n: nat)
    requires IsRun(s, events) && n < |events|
    ensures Enabled(After(s, events, n), events[n]) && After(s, events, n + 1) == Apply(After(s, events, n), events[n])
    decreases n
  {
    hide Enabled, Apply;
    if n > 0 {
      AfterOneMore(Apply(s, events[0]), events[1..], n - 1);
    }
  }

  lemma {:induction false} AlwaysShaped(events: seq<Event>, n: nat)
    requires IsRun(INIT, events) && n <= |events|
    ensures Shaped(After(INIT, events, n))
  {
    if n > 0 {
      AlwaysShaped(events, n - 1);
      AfterOneMore(INIT, events, n - 1);
      EventKeepsShaped(After(INIT, events, n - 1), events[n - 1]);
    }
  }

  /** Event i is a step of goroutine j. */
  ghost predicate StepsAt(events: seq<Event>, i: nat, j: nat)
    requires IsRun(INIT, events)
  {
    && i < |events| && events[i].Run? && events[i].j == j && j < |After(INIT, events, i).inners|
    && RunEnabled(After(INIT, events, i), After(INIT, events, i).inners[j], events[i].choice)
  }

  ghost predicate DoomsAt(events: seq<Event>, i: nat, j: nat)
    requires IsRun(INIT, events)
  {
    StepsAt(events, i, j) && Dooms(After(INIT, events, i), After(INIT, events, i).inners[j], events[i].choice)
  }

  ghost predicate FailsAt(events: seq<Event>, i: nat, j: nat)
    requires IsRun(INIT, events)
  {
    && StepsAt(events, i, j) && Breaks(After(INIT, events, i), After(INIT, events, i).inners[j], events[i].choice)
    && !DoomsAt(events, i, j)
  }

  lemma OwnStep(events: seq<Event>, i: nat, j: nat)
    requires IsRun(INIT, events) && i < |events|
    ensures StepsAt(events, i, j) <==> events[i].Run? && events[i].j == j
  {
    AfterOneMore(INIT, events, i);
    hide RunEnabled, Apply;
  }

  /** In every run a goroutine has failed exactly if one of its steps could not be done and it was not the
      minio goroutine's nodes or secrets that were at stake; it is without a tenant exactly if it was. */
  lemma {:induction false} BrokenExactly(events: seq<Event>, n: nat, j: nat)
    requires IsRun(INIT, events) && n <= |events|
    ensures j < |After(INIT, events, n).inners| ==>
      var t := After(INIT, events, n).inners[j];
      && (t.failed <==> exists i :: 0 <= i < n && FailsAt(events, i, j))
      && (t.doomed <==> exists i :: 0 <= i < n && DoomsAt(events, i, j))
    ensures j >= |After(INIT, events, n).inners| ==> forall i :: 0 <= i < n ==> !StepsAt(events, i, j)
  {
    hide After, StepsAt, FailsAt, DoomsAt, IsRun;
    if n == 0 {
      NobodyAtFirst(events);
    } else {
      BrokenExactly(events, n - 1, j);
      EventAt(events, n - 1, j);
      BrokenIsStep(events, n - 1, j);
    }
  }

  lemma NobodyAtFirst(events: seq<Event>)
    requires IsRun(INIT, events)
    ensures After(INIT, events, 0).inners == []
  {
  }

  lemma BrokenIsStep(events: seq<Event>, n: nat, j: nat)
    requires IsRun(INIT, events)
    ensures forall i :: 0 <= i <= n && (FailsAt(events, i, j) || DoomsAt(events, i, j)) ==> StepsAt(events, i, j)
  {
    hide StepsAt, IsRun, After, Breaks, Dooms;
  }

  /** One event of a run, for goroutine j. */
  lemma EventAt(events: seq<Event>, i: nat, j: nat)
    requires IsRun(INIT, events) && i < |events|
    ensures var s, u := After(INIT, events, i), After(INIT, events, i + 1);
      && |s.inners| <= |u.inners|
      && (j < |s.inners| ==>
            && (u.inners[j].failed <==> s.inners[j].failed || FailsAt(events, i, j))
            && (u.inners[j].doomed <==> s.inners[j].doomed || DoomsAt(events, i, j)))
      && (|s.inners| <= j < |u.inners| ==> !u.inners[j].failed && !u.inners[j].doomed)
      && (StepsAt(events, i, j) ==> j < |s.inners|)
  {
    var s, e := After(INIT, events, i), events[i];
    AfterOneMore(INIT, events, i);
    AlwaysShaped(events, i);
    OwnStep(events, i, j);
    EventKeepsCount(s, e);
    if j < |Apply(s, e).inners| {
      EventBreaks(s, e, j);
      if StepsAt(events, i, j) {
        assert InnerShape(s.inners[j]);
        RunBreaks(s, s.inners[j], e.choice);
      }
    }
    hide IsRun, After, Apply, Enabled, RunEnabled, Breaks, Dooms, InnerShape, AfterRun, Shaped;
  }

  lemma EventKeepsCount(s: State, e: Event)
    requires Enabled(s, e) && Shaped(s)
    ensures |s.inners| <= |Apply(s, e).inners|
  {
    hide Shaped;
    StepKeepsInners(s, e, 0);
  }

  // ---------------------------------------------------------------- what an object was created after

  /** Only a look that found nothing leads to a create. */
  lemma RunLooks(s: State, t: Inner, choice: Choice)
    requires RunEnabled(s, t, choice) && InnerShape(t)
    ensures var u := AfterRun(s, t, choice);
      u.stage == Create && u.missing && !u.failed ==>
        && t.stage == Get && choice == Ok && t.k < |RolesOf(t)| && KeyOf(t) !in s.store
        && u.k == t.k && u.cluster == t.cluster && u.entry == t.entry
  {
    SamePlace(s, t, choice);
    hide Waits, Roles, Desired, LacksReference, CredsIn;
  }

  /** Goroutine j looks for object k at event m and does not find it. */
  ghost predicate MissesAt(events: seq<Event>, m: nat, j: nat, k: Key)
    requires IsRun(INIT, events)
  {
    && StepsAt(events, m, j) && events[m].choice == Ok && k !in After(INIT, events, m).store
    && var t := After(INIT, events, m).inners[j]; t.stage == Get && t.k < |RolesOf(t)| && KeyOf(t) == k
  }

  lemma {:induction false} LookedBefore(events: seq<Event>, n: nat, j: nat) returns (m: nat)
    requires IsRun(INIT, events) && n <= |events| && j < |After(INIT, events, n).inners|
    requires var t := After(INIT, events, n).inners[j]; t.stage == Create && t.missing && !t.failed && t.k < |RolesOf(t)|
    ensures m < n && MissesAt(events, m, j, KeyOf(After(INIT, events, n).inners[j]))
  {
    if n == 0 {
      NobodyAtFirst(events);
      assert false;
    } else {
      hide *;
      EventLooks(events, n - 1, j);
      if StepsAt(events, n - 1, j) {
        m := n - 1;
      } else {
        m := LookedBefore(events, n - 1, j);
      }
    }
  }

  lemma EventLooks(events: seq<Event>, i: nat, j: nat)
    requires IsRun(INIT, events) && i < |events| && j < |After(INIT, events, i + 1).inners|
    requires var u := After(INIT, events, i + 1).inners[j]; u.stage == Create && u.missing && !u.failed && u.k < |RolesOf(u)|
    ensures StepsAt(events, i, j) ==> MissesAt(events, i, j, KeyOf(After(INIT, events, i + 1).inners[j]))
    ensures !StepsAt(events, i, j) ==>
      j < |After(INIT, events, i).inners| && After(INIT, events, i).inners[j] == After(INIT, events, i + 1).inners[j]
  {
    var s, e := After(INIT, events, i), events[i];
    AfterOneMore(INIT, events, i);
    AlwaysShaped(events, i);
    EventBreaks(s, e, j);
    OwnStep(events, i, j);
    if StepsAt(events, i, j) {
      assert InnerShape(s.inners[j]);
      RunLooks(s, s.inners[j], e.choice);
    }
    hide After, Apply, Enabled, AfterRun, InnerShape, Shaped, Roles, IsRun, RunEnabled;
  }

  /** The step that puts an object in the store. */
  lemma RunCreates(s: State, j: nat, choice: Choice, k: Key)
    requires CanRun(s, j, choice) && k !in s.store && k in ApplyRun(s, j, choice).store
    ensures var t := s.inners[j];
      && t.stage == Create && t.missing && !t.failed && t.k < |RolesOf(t)| && KeyOf(t) == k && (choice == Ok || choice == LostReply)
  {
    RunChangesOnly(s, j, choice);
    hide Waits, Roles, AfterRun, ApplyRun;
  }

  lemma EventCreates(s: State, e: Event, k: Key)
    requires Enabled(s, e) && k !in s.store && k in Apply(s, e).store
    ensures e.Run? && k in ApplyRun(s, e.j, e.choice).store
  {
    match e
    case Pass(c) =>
      if PassCluster(c).Some? {
        SpawnExtends(s, PassCluster(c).value, |PassCluster(c).value.clusterSet|);
      }
    case _ =>
  }

  /** In every run each stored object was created by a goroutine that had looked for it before and not found
      it, in a step that did not fail, although its reply may have been lost. */
  lemma {:induction false} CreatedAfterLooking(events: seq<Event>, n: nat, k: Key) returns (j: nat, m: nat, i: nat)
    requires IsRun(INIT, events) && n <= |events| && k in After(INIT, events, n).store
    ensures m < i < n && MissesAt(events, m, j, k)
    ensures StepsAt(events, i, j) && (events[i].choice == Ok || events[i].choice == LostReply)
    ensures k !in After(INIT, events, i).store && k in After(INIT, events, i + 1).store
  {
    if n == 0 {
      assert false;
    } else if k in After(INIT, events, n - 1).store {
      j, m, i := CreatedAfterLooking(events, n - 1, k);
    } else {
      var s, e := After(INIT, events, n - 1), events[n - 1];
      AfterOneMore(INIT, events, n - 1);
      EventCreates(s, e, k);
      hide After, ApplyRun, RunEnabled, Roles;
      RunCreates(s, e.j, e.choice, k);
      j, i := e.j, n - 1;
      OwnStep(events, i, j);
      m := LookedBefore(events, i, j);
    }
  }

  /** A goroutine that failed, or is without a tenant, creates nothing any more. */
  lemma BrokenCreateNothing(events: seq<Event>, i: nat, j: nat)
    requires IsRun(INIT, events) && StepsAt(events, i, j)
    requires var t := After(INIT, events, i).inners[j]; t.failed || t.doomed
    ensures After(INIT, events, i + 1).store == After(INIT, events, i).store
  {
    var s, e := After(INIT, events, i), events[i];
    AfterOneMore(INIT, events, i);
    AlwaysShaped(events, i);
    assert InnerShape(s.inners[j]);
    RunChangesOnly(s, j, e.choice);
    hide After, ApplyRun, AfterRun, Roles, Waits, LacksReference, IsRun;
  }

  /** A goroutine that is to create its object and neither fails nor lacks it leaves the object stored,
      by whomever it was created. */
  lemma AttemptsAreStored(events: seq<Event>, i: nat, j: nat)
    requires IsRun(INIT, events) && StepsAt(events, i, j) && events[i].choice != Fail
    requires var t := After(INIT, events, i).inners[j];
      t.stage == Create && t.k < |RolesOf(t)| && !t.doomed && !LacksReference(t.cluster, t.entry)
    ensures KeyOf(After(INIT, events, i).inners[j]) in After(INIT, events, i + 1).store
  {
    var s, e := After(INIT, events, i), events[i];
    AfterOneMore(INIT, events, i);
    AlwaysShaped(events, i);
    assert InnerShape(s.inners[j]);
    StoredWhenFound(events, i, j);
    RunChangesOnly(s, j, e.choice);
    hide After, ApplyRun, AfterRun, Roles, Waits, LacksReference, IsRun;
  }

  lemma StoredWhenFound(events: seq<Event>, i: nat, j: nat)
    requires IsRun(INIT, events) && i <= |events| && j < |After(INIT, events, i).inners|
    ensures var t := After(INIT, events, i).inners[j];
      t.stage == Create && !t.missing && t.k < |RolesOf(t)| ==> KeyOf(t) in After(INIT, events, i).store
  {
    AfterEndsPrefix(INIT, events, i);
    RunKeepsInvariant(INIT, events[..i], EVERYONE);
    var s := After(INIT, events, i);
    assert InnerOk(s, s.inners[j], EVERYONE);
    hide Roles, Waits;
  }
}
