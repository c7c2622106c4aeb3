# Nineinfra: a verified model

Nineinfra is a Kubernetes operator that reconciles one `NineCluster` resource into clusters of other
operators: kyuubi, metastore, postgres, MinIO, zookeeper, HDFS and doris. This project models the parts
of it that carry hard properties, and proves them with Dafny 4.11:

    dafny verify dfyconfig.toml

| module | what it models |
|---|---|
| `Text`, `Integers` | Go's string helpers, and its integers and division |
| `Clusters` | the cluster set, the default tables, and its completion |
| `Protocol` | the reconcile protocol as a state machine: passes, mutexes, goroutines, waits, get-then-create, the API server |
| `ProtocolSafety`, `ProtocolLimits` | what all its runs keep, and what the mutexes do not give |
| `ProtocolTermination`, `Coverage`, `ProtocolProgress`, `ProtocolOutcome` | that runs end, and when they get everything created |
| `ProtocolStarvation`, `ProtocolConverse` | what never comes, and that every uncovered cluster can miss a component |
| `ProtocolHistory`, `ProtocolFailures` | what every stored object was made after, and what a failing call does |
| `ProtocolCredentials` | the MinIO credentials in kyuubi and metastore objects |
| `LockTable`, `ProtocolCollision` | the process-wide lock table, its names, and what a collision of names costs |
| `ConfigEnv` | the `config.env` printer and parser, and the credentials |
| `Affix` | `lcp` and the domain check |
| `Tenants` | the pools of a MinIO tenant |
| `Hosts` | pool names, host patterns and what they expand to |
| `Drive`, `Label` | the DirectPV drive object and the label normaliser |
| `HdfsSite` | the HDFS client configuration, written and read |
| `Storage` | capacity per volume, tenant validation, HDFS sub-clusters |
| `Readiness` | counting ready pods |

## How the protocol is modelled

A state holds the lock table, the mutexes with their owners, the outer and inner goroutines, the objects
in the API server with a log of accepted creates, the ready replicas of each, and the process-wide
`MetastoreReplicas`. An event is one atomic step: a whole pass up to the spawning of its goroutines, one
of TryLock, Launch, Unlock, one step of an inner goroutine (a wait that is over, building an object, a
Get, a Create), or a change of readiness. What the environment decides is part of the event: the random
credentials, the number of nodes, failing calls, creates that take effect although their caller sees an
error. A run is any sequence of enabled events, so the safety lemmas speak of every interleaving.

The progress lemmas speak of *smooth* runs: calls succeed, ready replicas stay ready, and passes are over
one cluster value; the time limit of the wait for name nodes may be reached at any time. A run has come
to its end where nothing is left to do but to reach such a time limit, which may never happen. A cluster
is *covered* when each of its entries is provided (its databases are postgres, its doris entries find FE
and BE, its hdfs entries find zookeeper when they need it and, under HDFS storage, ask for name nodes)
and its metastore entries agree on a positive number of replicas.

## What the proofs found

Each of these is a lemma below.

- The mutex of a component does not exclude two reconciles of it: it is released when the inner
  goroutine is launched. That objects are created once is the API server's doing.
- Lock names collide for clusters of different namespaces when a namespace has a hyphen, and then one
  cluster's goroutine can make the other's component be missed in a pass.
- A read of the user secret that fails with an error other than "not found" is logged, and kyuubi or
  the metastore is then created with empty credentials. That is the only way for them to differ from
  the secret, and one such read is enough.
- The routine documented as the longest common suffix is not one when a later string is shorter than
  the candidate and matches it whole; the exact lists are given.
- The domain check misses a host that all others end with unless the suffixes of the host that sorts
  first lead to one of the hosts.
- `fs.defaultFS` keeps the default nameservice when the user renames it under high availability, and the
  warehouse directory always does, which with a single name node nothing resolves.
- One pass of `ToLabelValue` can end in `-`, which is not a valid label value; in an invalid value it
  also turns `.`, `_` and `-` into `x`, although labels may contain them.
- `CheckPodsReady` counts conditions rather than pods.
- Progress holds exactly for covered clusters. A mysql database (even beside a postgres one, with which
  it shares a mutex), doris without FE or BE, HDFS with two name nodes and without zookeeper or asked for
  no name nodes, or metastore entries that disagree on their replicas can each leave a component out for
  good, although no call fails.
- The ranges of templated hosts run backwards once the servers no longer fit 32 bits.
- The sizing of a tenant panics exactly when nodes times disks is zero modulo 2^32.
- A pool on two or three servers with very many volumes is refused as having fewer than four, because the
  product overflows 32 bits; which pools these are is given.
- A goroutine that loses the race for an object stops unless the object is a database secret, and the MinIO
  goroutine carries on without a tenant when it is one of its own secrets that was at stake.
- The printed `config.env` depends on the iteration order of a Go map where two of its keys share an
  alias.

## Model

| member | source | states |
|---|---|---|
| `ProtocolSafety.CreatedOnceAndForever` | internal/controller/ninecluster_controller.go:114-173 | In every run of any number of overlapping passes, with any failures, each object and secret is accepted by the API server at most once, is stored exactly when it was, and keeps its contents (random credentials included) in every continuation |
| `ProtocolSafety.CredentialsAgree` | internal/controller/minio.go:37-70 | In every run the credentials of a stored kyuubi or metastore object are those of the one stored user secret, although each pass draws new ones, unless a goroutine of that very cluster lost its read of the secret; then they may be empty, and never anything else |
| `ProtocolCredentials.StoredCredentials` | internal/controller/minio.go:37-70 | Whatever fails, a stored kyuubi or metastore object has credentials exactly when the passes over its cluster found MinIO storage, and they are the secret's, or empty after a lost read of this cluster |
| `ProtocolCredentials.OneLostReadIsEnough` | internal/controller/minio.go:51-56 | For every provided cluster with MinIO storage and any credentials there is a run with one failing call, a read of the secret, that stores the secret with those credentials and the metastore with empty ones |
| `ProtocolSafety.ReferencedSecretsExist` | internal/controller/minio.go:223-284 | In every reachable state a stored tenant has both its secrets stored, and a stored database cluster has both of its own |
| `ProtocolSafety.RunExtends` | internal/controller/ninecluster_controller.go:104-112 | Over every run the lock table only grows and never rebinds a name, stored objects keep their contents, and the record of creates is only appended to |
| `ProtocolSafety.RunKeepsInvariant` | internal/controller/ninecluster_controller.go:114-179 | Every event of every run keeps the protocol's invariant: owners and sections of mutexes, the store and its log, the contents of each object, and what each goroutine may assume |
| `ProtocolSafety.OuterSectionsExclude` | internal/controller/ninecluster_controller.go:114-120 | In every reachable state all goroutines of one lock name share one mutex, and at most one of them is between TryLock and Unlock |
| `ProtocolSafety.TakenMeansInSection` | internal/controller/ninecluster_controller.go:115-120 | A mutex is taken exactly while some goroutine of its name is in its section |
| `ProtocolSafety.WinnersRelease` | internal/controller/ninecluster_controller.go:115-121 | From every reachable state each winner's own next steps are enabled and give its mutex back |
| `ProtocolSafety.ReadyWithinBounds` | internal/controller/postgresql.go:262-307 | In every run nothing is ready that is not stored, and never more than three replicas of a database or of zookeeper, one of a tenant, or what a metastore or an hdfs object asks for |
| `ProtocolHistory.EveryWaitWasMet` | internal/controller/postgresql.go:101-126 | In every run, whatever fails, each wait a goroutine has behind it ended at a step of its own at which what it is for was there: three ready replicas for a database or zookeeper, MetastoreReplicas of that moment and at least one for a metastore, the replicas asked for and at least one for name nodes, a ready tenant, the secret; or it went on by the time limit or a failed read, where the code does |
| `ProtocolHistory.StoredComponentsHadTheirNeeds` | internal/controller/metastore.go:116-145 | In every run each stored object was made by a goroutine of its cluster all of whose waits had been met: a stored metastore had three ready database replicas before it, a stored kyuubi the metastore replicas asked for |
| `ProtocolHistory.NeedsOfAStored` | internal/controller/zookeeper.go:38-59 | So a stored kyuubi had three ready database replicas unless its authentication is of another kind, and three of zookeeper under high availability, as a stored hdfs with two name nodes; a stored metastore on HDFS storage had its name nodes ready unless its goroutine gave up |
| `ProtocolHistory.NeedsInFull` | internal/controller/kyuubi.go:46-110 | Which component waits for what, in terms of its entry and the cluster's features alone |
| `ProtocolHistory.ThreeStayReady` | internal/controller/postgresql.go:101-126 | Where no replica becomes unready again, the three are ready at the end of the run, too |
| `ProtocolHistory.StoredIsCalledFor` | internal/controller/kyuubi.go:21-31 | In every run each stored object is what its maker's entry and cluster call for: kyuubi asks for two replicas under high availability and otherwise for the entry's, none meaning one; hdfs for the name nodes of the last such entry if it refers to them; a doris had both FE and BE; the superuser secret is the entry's own or the default one |
| `ProtocolHistory.StoredCredentialsWereDrawn` | internal/controller/minio.go:123-157 | In every run the stored user secret has credentials that were drawn in it |
| `ProtocolHistory.StoredTenantFitsNodes` | internal/controller/minio.go:195-243 | In every run a stored tenant has as many servers as nodes were found at some step of it |
| `ProtocolHistory.DoneLeavesAll` | internal/controller/minio.go:286-319 | A goroutine that is done, and neither failed nor lost a secret, leaves all its objects stored |
| `ProtocolFailures.WhatMayHappen` | internal/controller/hdfs.go:118-179 | A wait can end as soon as what it is for is there, and otherwise only by a failed call or read or, for name nodes, the time limit; every look and create may fail and every create lose its reply |
| `ProtocolFailures.ReadinessMoves` | internal/controller/common.go:271-296 | Readiness comes and goes one replica at a time, up to what the object asks for |
| `ProtocolFailures.BrokenExactly` | internal/controller/ninecluster_controller.go:121-171 | In every run a goroutine has failed exactly if one of its own steps could not be done: an external call or a look failed, or the object was not found and then its create failed, lost its reply, met another's object (but for the database secrets) or had nothing to create; it goes on without a tenant exactly if that was about counting nodes or a MinIO secret |
| `ProtocolFailures.CreatedAfterLooking` | internal/controller/minio.go:302-313 | In every run each stored object was created, in a step that did not fail, by a goroutine that had looked for it before and not found it |
| `ProtocolFailures.AttemptsAreStored` | internal/controller/minio.go:302-313 | A goroutine about to create that neither fails nor lacks its object leaves it stored, by whomever it was created, even where the reply is lost |
| `ProtocolFailures.BrokenCreateNothing` | internal/controller/minio.go:286-319 | A goroutine that failed or is without a tenant creates nothing any more |
| `ProtocolLimits.MutexDoesNotExcludeReconciles` | internal/controller/ninecluster_controller.go:115-149 | For every cluster with a postgres entry there is a run in which two goroutines of that entry are both about to create the same missing secret: the mutex does not exclude them |
| `Protocol.ObjectNamesInjective` | internal/controller/common.go:25-43 | Two roles or clusters of one namespace never address the same object of a kind |
| `Protocol.ObjectNamesAreThose` | internal/controller/common.go:25-43 | The names of the objects and secrets, written out |
| `Protocol.PassesReachBatchOnly` | internal/controller/ninecluster_controller.go:192-203 | A pass reaches its components exactly for batch clusters and those without a kind, and changes neither name nor features |
| `Protocol.WaitsInTurn` | internal/controller/kyuubi.go:46-110 | A component's waits are exactly those its type, authentication, kind, storage and high availability call for, in this order, each SQL call of kyuubi right after a wait for the database; EveryWaitWasMet says when each of them is over |
| `LockTable.Locks.constructor` | internal/controller/ninecluster_controller.go:104-112 | The empty table is that of the protocol's initial state |
| `LockTable.Locks.GetUniqueClusterLock` | internal/controller/ninecluster_controller.go:104-112 | The mutex of the name, made on first use; other names keep theirs, no two names share one, and the table refines the protocol's step |
| `LockTable.Locks.TryLock` | internal/controller/ninecluster_controller.go:116-119 | The mutex refines the protocol's TryLock step, winning exactly when that does |
| `LockTable.Locks.Unlock` | internal/controller/ninecluster_controller.go:120 | The mutex refines the protocol's Unlock step |
| `Clusters.TypesAreNamed` | api/v1alpha1/ninecluster_types.go:57-69 | The name of each type |
| `LockTable.LockNamesMeet` | internal/controller/common.go:21-23 | Two components of known types have the same lock name exactly when the types are equal and namespace and name read the same once joined by a hyphen |
| `LockTable.LockNamesInjective` | internal/controller/common.go:21-23 | The format is injective over known types when namespaces have no hyphen |
| `LockTable.HyphenatedNamespacesCollide` | internal/controller/common.go:21-23 | With hyphens in namespaces two different clusters share a mutex: `a-b`/`c` and `a`/`b-c` |
| `ProtocolCollision.CollisionMissesAComponent` | internal/controller/ninecluster_controller.go:115-119 | Where two clusters' names collide there is a run without a failing call after which nothing before the next pass creates the second cluster's component |
| `ProtocolCollision.HyphensMissAComponent` | internal/controller/common.go:21-23 | That happens to clusters in namespaces `a-b` and `a` for every component |
| `ProtocolConverse.ProgressExactly` | internal/controller/ninecluster_controller.go:181-190 | For every completed cluster: every smooth run with a pass that comes to its end has created every component, if and only if the cluster is covered, a condition on its entries alone |
| `ProtocolConverse.PassProgressExactly` | internal/controller/ninecluster_controller.go:181-203 | The same of the completed set of any resource whose passes get as far as its components |
| `ProtocolConverse.UncoveredMisses` | internal/controller/ninecluster_controller.go:114-190 | For every cluster that is not covered there is a smooth run, no time limit reached, that ends with nothing left to do and without one of its components |
| `ProtocolConverse.DefaultsExactly` | api/v1alpha1/ninecluster_metadata.go:8-215 | A batch cluster with any features and no database or hdfs entries of the user's own gets everything created in every such run, if and only if their metastore entries agree on a positive number and their doris entries find what they refer to |
| `ProtocolOutcome.SmoothRunsCreateEverything` | internal/controller/ninecluster_controller.go:181-190 | For any covered cluster, after any smooth run with a pass, time limits reached or not, at most WorkLeft more steps can happen before the next pass, and where nothing is left to do every component is created and every mutex is free |
| `ProtocolOutcome.DefaultsGetEverything` | api/v1alpha1/ninecluster_metadata.go:8-215 | So it is for every batch cluster with any features and no database or hdfs entries of the user's own whose metastore and doris entries make sense by themselves |
| `ProtocolOutcome.EverythingCanStillBeCreated` | internal/controller/ninecluster_controller.go:114-190 | From every state such a run reaches there is a continuation, without a new pass, that creates every component: no interleaving is a dead end |
| `ProtocolTermination.RunsAreShort` | internal/controller/ninecluster_controller.go:114-173 | Whatever the cluster lists, every step of a smooth run lowers an explicit bound on the steps left before the next pass |
| `ProtocolTermination.CanFinish` | internal/controller/ninecluster_controller.go:114-173 | From every state of such a run some steps, no time limit among them, lead to where nothing is left to do |
| `ProtocolOutcome.CreatedByRank` | internal/controller/metastore.go:44-103 | Induction along the waits-for order: at a quiet end every launched component of every rank has its object |
| `ProtocolOutcome.AllCreatedMeans` | internal/controller/ninecluster_controller.go:121-171 | Everything created means: the object of each listed component, one by one |
| `ProtocolOutcome.StoredMetastoreAsks` | internal/controller/metastore.go:38-42 | In every smooth run over a covered cluster the stored metastore asks for what its entries say, zero standing for one |
| `ProtocolProgress.RunKeepsSoundness` | internal/controller/minio.go:286-319 | Smooth runs keep the progress invariant; in particular a minio goroutine that lost the race for a secret, and goes on without a tenant, never leaves the cluster without one that can still create it |
| `Coverage.WaitsFall` | internal/controller/metastore.go:44-103 | Every wait of a provided entry is for the main object of a listed component of strictly lower rank: the waits have no cycle and stay inside the cluster set |
| `Coverage.EnoughForEveryWait` | internal/controller/zookeeper.go:38-102 | Whatever is awaited, the object its component creates asks for at least as many replicas |
| `Coverage.CoveredInFull` | internal/controller/ninecluster_controller.go:86-102 | The condition of ProgressExactly in terms of entries and features: databases are postgres or unnamed, doris refers to a listed FE and BE, hdfs with two name nodes has zookeeper and under HDFS storage some name nodes, and metastore entries agree on a positive number, zero standing for one |
| `Coverage.LastNameNodesIsLast` | internal/controller/hdfs.go:269-326 | Of several name node entries the last one counts |
| `Coverage.DefaultsAreCovered` | api/v1alpha1/ninecluster_metadata.go:8-215 | Which batch clusters without database and hdfs entries of the user's own are covered |
| `ProtocolStarvation.UnprovidedStarves` | internal/controller/postgresql.go:101-126 | Where every entry that could create one of some objects waits for another of them, through pods, name nodes, the metastore or the MinIO service and in any length of chain, no run ever creates any of them |
| `ProtocolStarvation.NoPostgresNoMetastore` | internal/controller/ninecluster_controller.go:86-102 | A cluster whose databases are all of another kind never gets its metastore, nor kyuubi behind it |
| `ProtocolConverse.NoPostgresMisses` | internal/controller/ninecluster_controller.go:86-120 | Already one database of another kind, whatever stands beside it, can keep the database from being created |
| `ProtocolConverse.DisagreementMisses` | internal/controller/metastore.go:38-42 | Two metastore entries that disagree can leave kyuubi waiting for more replicas than the stored metastore asks for |
| `ProtocolStarvation.NoNameNodesNoMetastore` | internal/controller/hdfs.go:118-179 | With HDFS storage and no name nodes asked for, neither metastore nor kyuubi comes while nobody gives up waiting |
| `ProtocolStarvation.NoZookeeperNoHdfs` | internal/controller/hdfs.go:328-333 | HDFS with two name nodes and no zookeeper entry is never created |
| `Clusters.NineCluster.FillClustersInfo` | internal/controller/common.go:198-247 | The loop over the table leaves the cluster as the specification function Filled says; FilledByFeatures, FilledDefaults and FillAppendsExactlyTheMissing say what that is |
| `Clusters.NineCluster.FillNineClusterType` | internal/controller/common.go:187-196 | No type becomes batch, an unsupported one is refused and changes nothing |
| `Clusters.FillAppendsExactlyTheMissing` | internal/controller/common.go:198-247 | The user's entries stay as a prefix; behind them come exactly the needed types not listed, in table order, each once |
| `Clusters.FillUsesTheTable` | internal/controller/common.go:236-244 | An entry of a type the user did not list is the table's own, whole |
| `Clusters.FillLists` | internal/controller/common.go:198-247 | A type is listed after completion exactly when it is needed or the user listed it |
| `Clusters.FilledByFeatures` | internal/controller/common.go:109-151 | In terms of the kind and the features alone: the base types always, spark for batch, MinIO unless the storage feature is hdfs and then the four HDFS types and zookeeper, the doris types for olap doris, zookeeper for a true kyuubi-ha; and else only what the user listed |
| `Clusters.FilledDefaults` | api/v1alpha1/ninecluster_metadata.go:8-215 | Replicas, disks, database kind and references of every entry the user left out |
| `Clusters.TableInOrder` | api/v1alpha1/ninecluster_metadata.go:53-215 | The order of the shipped table |
| `Clusters.DefaultSets` | api/v1alpha1/ninecluster_metadata.go:8-215 | The whole completed set of a cluster without entries of its own, for MinIO and for HDFS storage |
| `Coverage.AppendedTypesDistinct` | internal/controller/common.go:236-244 | No type is appended twice |
| `Clusters.FillIdempotent` | internal/controller/common.go:198-247 | Completing twice is completing once |
| `Clusters.FillClosedUnderRefs` | internal/controller/common.go:198-247 | With no user entries the completed set is closed under its references exactly for batch clusters |
| `Clusters.SparkLookupNeverNil` | internal/controller/common.go:66-82 | The spark entry dereferenced for kyuubi exists exactly for batch clusters or when the user listed one |
| `Clusters.RefClusterInfoPrefersTheSet` | internal/controller/common.go:66-82 | The user's first entry of a type is found before the base table, which has three types |
| `Clusters.AppendedDorisFindsFEAndBE` | internal/controller/doris.go:30-50 | An appended doris entry always finds its FE and BE |
| `ConfigEnv.PrintedFileParsesBack` | pkg/minio/operator/apis/minio.min.io/v2/utils.go:87-93 | For every map and every order of the printing loop, parsing the printed file gives the map and its aliases back exactly when the keys and values are printable and no two keys fight for one name |
| `ConfigEnv.LoopOrderDecides` | pkg/minio/operator/apis/minio.min.io/v2/utils.go:87-93 | Where two keys with different values share an alias, two orders of the loop print files that parse differently |
| `ConfigEnv.ParsedOfJoined` | pkg/minio/operator/apis/minio.min.io/v2/helper.go:1053-1080 | Parsing a, a newline and b is parsing a overwritten by parsing b, aliases included |
| `ConfigEnv.ParsedIsPrintable` | pkg/minio/operator/apis/minio.min.io/v2/helper.go:1016-1050 | Whatever the text, no stored key has '=', a newline, leading space or a leading '#', and no stored value has a newline |
| `ConfigEnv.ParseRawConfiguration` | pkg/minio/operator/apis/minio.min.io/v2/helper.go:1053-1080 | The scan loop computes the fold of the parsed lines, nil giving the empty map; RootLines, PrintedCredentials and CredentialsSurvive say what is read |
| `ConfigEnv.GenerateTenantConfigurationFile` | pkg/minio/operator/apis/minio.min.io/v2/utils.go:87-93 | The loop prints every key once, in some order |
| `ConfigEnv.ExportLine` | pkg/minio/operator/apis/minio.min.io/v2/helper.go:1016-1050 | An export line with a good key parses to that key and its value without trailing space and quotes |
| `ConfigEnv.CredentialsSurvive` | pkg/minio/operator/apis/minio.min.io/v2/helper.go:675-694 | Written as unquoted export lines and read back, the pair of credentials is returned unchanged exactly when both have no newline, no trailing space and no enclosing quotes |
| `ConfigEnv.RootLines` | pkg/minio/operator/apis/minio.min.io/v2/helper.go:1067-1072 | Export lines for the root user and the root password give the access key and the secret key, for all plain values |
| `ConfigEnv.PrintedCredentials` | pkg/minio/operator/apis/minio.min.io/v2/helper.go:1067-1072 | Whatever the order of the printing loop, a printed map with a user alone gives the access key and one with a password alone the secret key, and nothing else gives either |
| `ConfigEnv.DetailsNeedBoth` | pkg/minio/operator/apis/minio.min.io/v2/helper.go:675-694 | With one of the two credentials missing, or without an address, there are no details |
| `Text.SpacesInFull` | pkg/minio/operator/apis/minio.min.io/v2/helper.go:1017 | The white space that is trimmed, character by character |
| `ConfigEnv.BareLine` | pkg/minio/operator/apis/minio.min.io/v2/helper.go:1016-1050 | A line without the word export is read as well |
| `ConfigEnv.QuotesAreDropped` | pkg/minio/operator/apis/minio.min.io/v2/helper.go:1039-1045 | A pair of equal quotes around a value is dropped, one of different quotes is kept |
| `ConfigEnv.LinesThatSayNothing` | pkg/minio/operator/apis/minio.min.io/v2/helper.go:1016-1037 | Empty lines, lines of spaces and comments say nothing, and a line without an equals sign is malformed |
| `ConfigEnv.GenerateCredentials` | pkg/minio/operator/apis/minio.min.io/v2/utils.go:50-84 | 20 and 40 characters, each the table entry of its random byte; always a pair that survives the secret; a failed read gives none |
| `ConfigEnv.MapBytes` | pkg/minio/operator/apis/minio.min.io/v2/utils.go:66-68 | The in-place loop replaces every byte by its table entry |
| `ConfigEnv.TableEntries` | pkg/minio/operator/apis/minio.min.io/v2/utils.go:36-40 | What stands at every place of the two tables of characters |
| `Affix.Lcp` | pkg/minio/operator/apis/minio.min.io/v2/helper.go:1197-1242 | On every list and for prefixes and suffixes alike the nested loops compute the longest affix of the first string that is comparable with every string, or nothing when a string of several is empty |
| `Affix.CompareLetters` | pkg/minio/operator/apis/minio.min.io/v2/helper.go:1209-1239 | The loop over the letters keeps the longest affix of the candidate that is comparable with the string |
| `Affix.SharedIsLongestCommon` | pkg/minio/operator/apis/minio.min.io/v2/helper.go:1192-1242 | That is the longest common affix exactly when the list does not overshoot: the first string longer than the shortest, and its affix one character longer than those comparable with all |
| `Affix.OvershootMissesTheShortest` | pkg/minio/operator/apis/minio.min.io/v2/helper.go:1229-1239 | When it overshoots the answer is longer than the shortest strings, which are the true common affix |
| `Affix.ShortestFirstIsEnough` | pkg/minio/operator/apis/minio.min.io/v2/helper.go:1197-1242 | With a first string of minimal length the answer is the longest common affix |
| `Affix.ValidateDomains` | pkg/minio/operator/apis/minio.min.io/v2/helper.go:1109-1147 | No error exactly when every domain parses and the hosts are not rejected; otherwise the first domain that does not parse, or else the overlapping host; PortsDoNotMatter and SchemeIsInferred say what the hosts are |
| `Affix.PortsDoNotMatter` | pkg/minio/operator/apis/minio.min.io/v2/helper.go:1133-1135 | Ports never change the answer: a parser that leaves them on gives the same hosts and the same check as one that does not |
| `Affix.HostsHaveNoPort` | pkg/minio/operator/apis/minio.min.io/v2/helper.go:1133-1135 | No host that is compared has a colon |
| `Affix.SchemeIsInferred` | pkg/minio/operator/apis/minio.min.io/v2/helper.go:1114-1122 | A domain without a scheme is checked as with the one of the TLS setting, and one with a scheme as it is |
| `Affix.Overlapped` | pkg/minio/operator/apis/minio.min.io/v2/helper.go:1137-1143 | The check over the sorted hosts rejects exactly when the shared suffix of several hosts is one of them, and names it |
| `Affix.RejectedExactly` | pkg/minio/operator/apis/minio.min.io/v2/helper.go:1137-1143 | Which lists are rejected, in terms of the hosts alone |
| `Affix.RejectedHostsOverlap` | pkg/minio/operator/apis/minio.min.io/v2/helper.go:1109-1147 | Every rejection is right: some host is a suffix of all |
| `Affix.RejectionNamesAComparableHost` | pkg/minio/operator/apis/minio.min.io/v2/helper.go:1139-1142 | The host named by the error is suffix-comparable with every other |
| `Affix.IncomparableHostsPass` | pkg/minio/operator/apis/minio.min.io/v2/helper.go:1109-1147 | Pairwise incomparable hosts are never rejected |
| `Affix.BaseHostFirstIsRejected` | pkg/minio/operator/apis/minio.min.io/v2/helper.go:1137-1143 | A host that is a suffix of all others is always found when it sorts first |
| `Affix.TwoHosts` | pkg/minio/operator/apis/minio.min.io/v2/helper.go:1137-1143 | Two hosts are rejected exactly when one is a suffix of the other |
| `Affix.OverlapCanPass` | pkg/minio/operator/apis/minio.min.io/v2/helper.go:1109-1147 | Three hosts that overlap and are not rejected: a.b.com, b.com, c.b.com |
| `Hosts.Tenant.EnsurePoolNames` | pkg/minio/operator/apis/minio.min.io/v2/helper.go:342-348 | The loop names every unnamed pool ss- and its index and changes nothing else of the pools |
| `Hosts.NamingIsIdempotent` | pkg/minio/operator/apis/minio.min.io/v2/helper.go:342-348 | Naming the named changes nothing |
| `Hosts.NamedAreDistinct` | pkg/minio/operator/apis/minio.min.io/v2/helper.go:342-348 | After naming, pool names are distinct exactly when no user name occurs twice or is the default name of an unnamed pool |
| `Hosts.Tenant.MinIOHosts` | pkg/minio/operator/apis/minio.min.io/v2/helper.go:437-453 | One pattern for each pool, from its own or its recorded statefulset name |
| `Hosts.TenantHosts` | pkg/minio/operator/apis/minio.min.io/v2/helper.go:437-453 | Expanded, the patterns stand for as many hosts as there are servers, all different exactly when the statefulset names are, recorded or not |
| `Hosts.TenantHostNames` | pkg/minio/operator/apis/minio.min.io/v2/helper.go:437-453 | A name is among the hosts exactly when it is a pool's recorded or own statefulset name, a number below its servers, and the tenant's headless service in its namespace and domain, written out |
| `Hosts.HostsOfAll` | pkg/minio/operator/apis/minio.min.io/v2/helper.go:446-450 | A name is among the expanded hosts exactly when it is a statefulset, a number below its servers, and the service's rest |
| `Hosts.HostsOfAnyServers` | pkg/minio/operator/apis/minio.min.io/v2/helper.go:437-453 | For any numbers of servers there are at least as many hosts as servers, and exactly as many if and only if every pool has one: a pool without stands for a host that no pod has |
| `Hosts.NamedTenantHosts` | pkg/minio/operator/apis/minio.min.io/v2/helper.go:437-453 | After naming and with nothing recorded, the hosts are all different exactly when the user's names do not clash, whatever hyphens and digits they contain |
| `Hosts.ExpandEllipsis` | pkg/minio/operator/apis/minio.min.io/v2/helper.go:154-156 | Expanding a printed range gives its numbers in order with what stands before and behind |
| `Hosts.HostNamesOnce` | pkg/minio/operator/apis/minio.min.io/v2/helper.go:446-450 | A host determines its statefulset and its number |
| `Hosts.Tenant.TemplatedMinIOHosts` | pkg/minio/operator/apis/minio.min.io/v2/helper.go:456-482 | The hosts are the successful renderings of the ranges the loop emits |
| `Hosts.EachPoolIsTried` | pkg/minio/operator/apis/minio.min.io/v2/helper.go:463-480 | Every pool is tried in order with its own statefulset, the services, the domain and the range from where the last rendered one ended to the servers so far in 32 bits; one that fails to render is left out and ends no range |
| `Hosts.RangesTile` | pkg/minio/operator/apis/minio.min.io/v2/helper.go:463-481 | Whatever executions fail and however the servers wrap around in 32 bits, the emitted ranges list the numbers below index, each once, exactly when no range runs backwards |
| `Hosts.RangesTileTheServers` | pkg/minio/operator/apis/minio.min.io/v2/helper.go:463-481 | For pools of no negative size the ranges tile while the servers fit 32 bits, and, if all templates render, exactly then, and then they tile all servers |
| `Hosts.RangesArePrinted` | pkg/minio/operator/apis/minio.min.io/v2/helper.go:465-472 | Each rendering is given exactly the range it covers, printed |
| `Hosts.RangesReachAPool` | pkg/minio/operator/apis/minio.min.io/v2/helper.go:463-481 | index is always what the servers of the pools up to one of them add up to in 32 bits |
| `Drive.DirectPVDrive.constructor` | pkg/minio/directpv/apis/directpv.min.io/v1beta1/drive.go:74-99 | A new drive is protected, has no volumes, and stores its labels as given |
| `Drive.DirectPVDrive.GetVolumeCount` | pkg/minio/directpv/apis/directpv.min.io/v1beta1/drive.go:122-124 | The number of volumes while the drive is protected, one less otherwise |
| `Drive.DirectPVDrive.VolumeExist` | pkg/minio/directpv/apis/directpv.min.io/v1beta1/drive.go:127-129 | Membership in the volumes the finalizers stand for |
| `Drive.DirectPVDrive.GetVolumes` | pkg/minio/directpv/apis/directpv.min.io/v1beta1/drive.go:132-139 | The loop returns exactly those volumes, in order |
| `Drive.DirectPVDrive.ResetFinalizers` | pkg/minio/directpv/apis/directpv.min.io/v1beta1/drive.go:142-144 | Refines clearing the volumes and protecting the drive |
| `Drive.DirectPVDrive.RemoveFinalizers` | pkg/minio/directpv/apis/directpv.min.io/v1beta1/drive.go:147-153 | Succeeds, and changes anything, exactly when the drive is protected and has no volumes |
| `Drive.DirectPVDrive.AddVolumeFinalizer` | pkg/minio/directpv/apis/directpv.min.io/v1beta1/drive.go:156-166 | Adds the volume at the end exactly when it is not there |
| `Drive.DirectPVDrive.RemoveVolumeFinalizer` | pkg/minio/directpv/apis/directpv.min.io/v1beta1/drive.go:169-185 | The rebuilt list stands for the volumes without the one named; the answer says whether it was there |
| `Drive.VolumesAfterRun` | pkg/minio/directpv/apis/directpv.min.io/v1beta1/drive.go:122-185 | After any run from a new drive the volumes are distinct, and one is there exactly when the last call about it says so |
| `Drive.VolumesInOrderOfArrival` | pkg/minio/directpv/apis/directpv.min.io/v1beta1/drive.go:132-185 | Volumes are listed in the order in which they came to stay |
| `Drive.ReleasesNeedResets` | pkg/minio/directpv/apis/directpv.min.io/v1beta1/drive.go:142-153 | Over any run a drive is released at most once more than it is reset, and without resets exactly once if it ends unprotected |
| `Drive.VolumesHoldTheDrive` | pkg/minio/directpv/apis/directpv.min.io/v1beta1/drive.go:142-185 | While a volume is on the drive and is not removed or reset, no run releases the drive |
| `Drive.DirectPVDrive.SetErrorCondition` | pkg/minio/directpv/apis/directpv.min.io/v1beta1/drive.go:289-308 | Replaces the first condition of the type, or appends |
| `Drive.DirectPVDrive.SetMountErrorCondition` | pkg/minio/directpv/apis/directpv.min.io/v1beta1/drive.go:270-272 | The same for mount errors |
| `Drive.DirectPVDrive.SetMultipleMatchesErrorCondition` | pkg/minio/directpv/apis/directpv.min.io/v1beta1/drive.go:275-277 | The same for multiple matches |
| `Drive.DirectPVDrive.SetIOErrorCondition` | pkg/minio/directpv/apis/directpv.min.io/v1beta1/drive.go:280-282 | The same for I/O errors, with their fixed message |
| `Drive.DirectPVDrive.SetRelabelErrorCondition` | pkg/minio/directpv/apis/directpv.min.io/v1beta1/drive.go:285-287 | The same for relabel errors |
| `Drive.DirectPVDrive.GetLatestErrorConditionType` | pkg/minio/directpv/apis/directpv.min.io/v1beta1/drive.go:311-327 | The type of the first condition of maximal time among the known ones; none exactly when there is none |
| `Drive.ConditionsAfterRun` | pkg/minio/directpv/apis/directpv.min.io/v1beta1/drive.go:269-308 | Over any run there stays at most one condition of each type, and it is the last one set, or the initial one |
| `Drive.LatestAfterRun` | pkg/minio/directpv/apis/directpv.min.io/v1beta1/drive.go:289-327 | With a clock that never goes back the answer has the time of the last call, and is the last call's type exactly when no known condition listed before it has that time |
| `Drive.LatestIsLastCall` | pkg/minio/directpv/apis/directpv.min.io/v1beta1/drive.go:289-327 | With a clock that always moves on the answer is the last call's type |
| `Drive.TieKeepsTheFirst` | pkg/minio/directpv/apis/directpv.min.io/v1beta1/drive.go:311-327 | Two errors in one tick: the earlier is reported |
| `Drive.DirectPVDrive.GetLabels` | pkg/minio/directpv/apis/directpv.min.io/v1beta1/drive.go:188-195 | An absent map becomes an empty one |
| `Drive.DirectPVDrive.GetLabel` | pkg/minio/directpv/apis/directpv.min.io/v1beta1/drive.go:197-200 | The stored value normalised once, the empty value when there is none |
| `Drive.DirectPVDrive.SetLabel` | pkg/minio/directpv/apis/directpv.min.io/v1beta1/drive.go:247-254 | The one label is set; the answer says whether anything changed |
| `Drive.DirectPVDrive.RemoveLabel` | pkg/minio/directpv/apis/directpv.min.io/v1beta1/drive.go:257-262 | The one label goes; the answer says whether it was there |
| `Drive.DirectPVDrive.SetDriveName` | pkg/minio/directpv/apis/directpv.min.io/v1beta1/drive.go:203-205 | Stores the normalised name under its own key |
| `Drive.DirectPVDrive.GetDriveName` | pkg/minio/directpv/apis/directpv.min.io/v1beta1/drive.go:208-210 | The stored name, normalised once more |
| `Drive.DirectPVDrive.SetNodeID` | pkg/minio/directpv/apis/directpv.min.io/v1beta1/drive.go:213-215 | Stores the normalised node under its own key |
| `Drive.DirectPVDrive.GetNodeID` | pkg/minio/directpv/apis/directpv.min.io/v1beta1/drive.go:218-220 | The stored node, normalised once more |
| `Drive.SetThenGet` | pkg/minio/directpv/apis/directpv.min.io/v1beta1/drive.go:203-220 | What is read back after setting is a valid label, is the name exactly when the name was valid, and is stable under setting and reading again |
| `Label.ToLabelValue` | pkg/minio/directpv/apis/directpv.min.io/v1beta1/label.go:96-129 | The loop over the runes computes the specification function LabelOf |
| `Label.ValidIsKept` | pkg/minio/directpv/apis/directpv.min.io/v1beta1/label.go:97-100 | A valid value is left alone |
| `Label.KeptOnlyIfValid` | pkg/minio/directpv/apis/directpv.min.io/v1beta1/label.go:96-129 | Only a valid value is: an invalid one always changes |
| `Label.OnePass` | pkg/minio/directpv/apis/directpv.min.io/v1beta1/label.go:102-121 | One pass over an invalid value gives 1 to 63 permitted characters, the first alphanumeric; the result is valid exactly when the cut value is one rune or its last rune is alphanumeric or one of '.', '_', '-' |
| `Label.LabelsArePermitted` | pkg/minio/directpv/apis/directpv.min.io/v1beta1/label.go:96-129 | Whatever the value, one pass gives at most 63 bytes of letters, digits, dots, underscores and hyphens, a letter or digit first |
| `Label.WidthsOfUtf8` | pkg/minio/directpv/apis/directpv.min.io/v1beta1/label.go:103-107 | Where characters of one, two, three and four bytes begin |
| `Label.EachRune` | pkg/minio/directpv/apis/directpv.min.io/v1beta1/label.go:107-118 | What becomes of every rune of an invalid value, by its kind and its place |
| `Label.CutInFull` | pkg/minio/directpv/apis/directpv.min.io/v1beta1/label.go:103-107 | The cut keeps the most whole characters that fit, and for the bytes of the next one that are left it has one replacement rune each |
| `Label.TwoPassesAreEnough` | pkg/minio/directpv/apis/directpv.min.io/v1beta1/label.go:96-129 | Two passes are always valid and a fixed point |
| `Label.LabelsMeet` | pkg/minio/directpv/apis/directpv.min.io/v1beta1/label.go:102-121 | Different values can share a label, and one pass can end in '-' |
| `HdfsSite.ConstructHdfsSite` | internal/controller/hdfs.go:217-267 | The map described by Describes, whatever the cluster; SiteInFull and AddressInFull write it out |
| `HdfsSite.SiteInFull` | internal/controller/hdfs.go:217-267 | The keys and values of the map, as Hadoop spells them |
| `HdfsSite.AddressInFull` | internal/controller/hdfs.go:231-262 | The address of name node i, written out with its index, the namespace, the domain and the port 8020 |
| `HdfsSite.AddressesDiffer` | internal/controller/hdfs.go:231-262 | Equal addresses are of one node |
| `HdfsSite.NameServiceIsFirstSet` | internal/controller/hdfs.go:217-229 | The nameservice is what the first hdfs entry sets, or nineinfra |
| `HdfsSite.DomainIsFirstNamed` | internal/controller/common.go:174-185 | The domain is that of the first entry of the type that names one, or cluster.local |
| `HdfsSite.KeysDiffer` | internal/controller/hdfs.go:217-267 | No two computed keys collide, whatever the nameservice |
| `HdfsSite.DataDirAddresses` | internal/controller/hdfs.go:66-79 | The reading loop computes the addresses under the keys of the listed name nodes |
| `HdfsSite.AddressesComeBack` | internal/controller/hdfs.go:66-79 | For every cluster and nameservice the addresses read are exactly those written: two in order, or the one |
| `HdfsSite.AddressesInFull` | internal/controller/hdfs.go:62-85 | What is read back is two different addresses, of node 0 and of node 1, exactly when some entry asks for two name nodes, and otherwise that of node 0 |
| `HdfsSite.ConstructCoreSite` | internal/controller/hdfs.go:192-215 | The user's file system, else the default nameservice or the one address |
| `HdfsSite.DefaultFSInFull` | internal/controller/hdfs.go:192-215 | The user's file system, or the default nameservice under high availability and node 0's address otherwise, written out |
| `HdfsSite.FilesAgree` | internal/controller/hdfs.go:192-267 | The default file system is one the site configuration resolves exactly when the user set it so, or set none and did not rename the nameservice under high availability |
| `HdfsSite.ConstructHiveSite` | internal/controller/metastore.go:105-114 | The warehouse directory by storage, under HDFS always on the default nameservice |
| `HdfsSite.WarehouseInFull` | internal/controller/metastore.go:105-114 | The warehouse directory for either value of the storage feature, written out |
| `HdfsSite.WarehouseResolves` | internal/controller/metastore.go:105-114 | The site configuration resolves the warehouse exactly under high availability with the nameservice left as it is, even where the default file system agrees |
| `Storage.TenantPassesExactly` | internal/controller/minio.go:235-277 | Where nothing overflows the tenant passes its validation exactly when there is a byte for every volume, disks are positive, and it is not two or three nodes with one disk |
| `Storage.PoolPassesExactly` | pkg/minio/operator/apis/minio.min.io/v2/helper.go:791-838 | Which pools of 32-bit numbers pass, and with what error the others fail: besides a single volume on two or three servers, those whose product overflows to fewer than four |
| `Storage.TenantClaims` | internal/controller/minio.go:235-277 | The claims total at most the data volume and miss it by less than one byte a volume |
| `Storage.TenantHostsAreItsNodes` | internal/controller/minio.go:242-262 | Once its pool is named, the host pattern of such a tenant stands for one host a node, all different |
| `Storage.ConstructionPanics` | internal/controller/minio.go:240 | For any nodes and disks the construction divides by zero exactly when their product is zero modulo 2^32 |
| `Storage.OverflowBreaksTheTenant` | internal/controller/minio.go:240 | 65536 nodes with 65536 disks panic, and 2^33 GiB wrap to a size no pool may ask for |
| `Storage.Validate` | pkg/minio/operator/apis/minio.min.io/v2/helper.go:841-872 | No error exactly when the settings, every pool and the domains are right; a pool error is the first one, and a domain error comes only when all else is right |
| `Storage.BuildSubClusters` | internal/controller/hdfs.go:269-326 | The nested loops build, for each reference in turn, the sub-clusters of all its entries, and report two name nodes exactly when there are references and such an entry; they stop only at an entry whose division has no divisor |
| `Storage.PickedCounts` | internal/controller/hdfs.go:281-283 | An entry is picked as often as it is listed and its type referred to, and nothing else is |
| `Storage.PickedInTurn` | internal/controller/hdfs.go:281-283 | What an earlier reference picks comes first, and what one reference picks keeps its order |
| `Storage.OthersAsAsked` | internal/controller/hdfs.go:284-300 | Sub-clusters other than data nodes get the replicas and disks of their entries |
| `Storage.DataNodeRequests` | internal/controller/hdfs.go:302-318 | The volumes of the data nodes total at most the replicated data volume and miss it by less than one byte a volume; the disks published are those the division used |
| `Storage.RequestsFall` | internal/controller/hdfs.go:302-318 | More replicas or disks never make a volume larger |
| `Integers.QuotientTruncates` | internal/controller/common.go:166-172 | The division per volume, for any dividend and divisor: the remainder is smaller than the divisor and has the sign of the dividend |
| `Readiness.CheckPodsReady` | internal/controller/common.go:271-296 | The nested loops answer whether there are enough pods and enough conditions that say ready |
| `Readiness.SaysCounts` | internal/controller/common.go:284-292 | A pod says ready as often as it has the condition Ready with status True |
| `Readiness.ReadyPodsAreThose` | internal/controller/common.go:284-292 | The ready pods are those that have it |
| `Readiness.EnoughMeansEnoughPods` | internal/controller/common.go:284-295 | That is enough ready pods for every number of replicas exactly when no pod says ready twice or all pods are ready |

## Left out

- Images, versions, resource limits and other parts of the default entries that no modelled code acts on.
- Updates and deletion of objects: the controller never issues them; other operators' changes to the objects it created are not modelled.
- The readiness of an object is one count of ready replicas, bounded by what the object asks for; pods, endpoints and services are not told apart. For HDFS the count is that of the name nodes, and how its own operator starts them is not modelled.
- The order of steps inside one pass: completing the set and spawning its goroutines is one event. The lock table's own mutex makes each lookup atomic, and the goroutines spawned start in any order.
- ProtocolConverse.ProgressExactly: speaks of passes over one cluster value; with several clusters the process-wide `MetastoreReplicas` is shared, and one cluster may wait for another's count.
- ProtocolOutcome.SmoothRunsCreateEverything: for passes over one cluster value, as ProgressExactly.
- ProtocolOutcome.EverythingCanStillBeCreated: for the same runs.
- That every type is written as the datatype writes it (a known name is never an unknown type's) is assumed where the theorems say ProperTypes; it restricts no cluster.
- The streaming type, the mysql database and flink, which the controller leaves as stubs; the contents of kyuubi's and spark's configuration maps; Helm.
- SQL, HDFS and S3 calls are one step that succeeds or fails; TLS, JWT and logging are not modelled. The time limit of the wait for name nodes is an event that may come at any time, although the code counts only the seconds without endpoints.
- Invalid UTF-8: strings are sequences of Unicode scalar values. `Label` counts bytes where the code does, and models the cut inside a character.
- ConfigEnv.ParseRawConfiguration: lines longer than the scanner's buffer of 64 KiB, where the code stops, are not modelled.
- ConfigEnv.GenerateCredentials: the distribution of the characters is not modelled.
- Affix.ValidateDomains: URL parsing and the DNS name check are functions the contract holds for, whatever they are.
- Hosts.Tenant.TemplatedMinIOHosts: a template is a function of its values that renders or fails; the template language is not modelled.
- Hosts.TenantHosts: pools have at least one server, which pool validation demands (HostsOfAnyServers says what pools without give), and names have no brace, which no name in Kubernetes may have; the expansion of a range is this model's own reading of the notation, as MinIO's expansion is not in the repository.
- Hosts.Tenant.EnsurePoolNames: the other defaults that EnsureDefaults sets are not modelled.
- Storage.TenantPassesExactly: assumes that nodes times disks fits 32 bits and the bytes fit 64; ConstructionPanics and OverflowBreaksTheTenant say what happens beyond.
- Quantities are whole numbers of bytes; parsing one back from its decimal digits is taken to give the number.
- DirectPV volumes, nodes, init requests and string sets, and the claim, suspend and migration labels of a drive, which are further uses of the label methods modelled.
- CheckEndpointsReady, which looks at one subset only, and the zookeeper address list.
- Generated clients, deep copies, schemes, manifests and charts.
