/** The tenant's host patterns: pool names, ellipsis ranges, and the hosts they stand for. */
module Hosts {
  import opened Text
  import opened Tenants
  import opened Integers

  /** genEllipsis. */
  function Ellipsis(start: int, end: int): string {
    "{" + Itoa(start) + "..." + Itoa(end) + "}"
  }

  // ---------------------------------------------------------------- pool names

  function DefaultName(i: nat): string {
    "ss" + "-" + Decimal(i)
  }

  function NameOf(pools: seq<Pool>, i: nat): string
    requires i < |pools|
  {
    if pools[i].name == "" then DefaultName(i) else pools[i].name
  }

  function Named(pools: seq<Pool>): (r: seq<Pool>)
    ensures |r| == |pools|
    ensures forall i :: 0 <= i < |pools| ==> r[i] == pools[i].(name := NameOf(pools, i))
  {
    seq(|pools|, i requires 0 <= i < |pools| => pools[i].(name := NameOf(pools, i)))
  }

  /** Naming the named changes nothing. */
  lemma NamingIsIdempotent(pools: seq<Pool>)
    ensures Named(Named(pools)) == Named(pools)
  {
  }

  ghost predicate DistinctNames(pools: seq<Pool>) {
    forall i, j :: 0 <= i < j < |pools| ==> pools[i].name != pools[j].name
  }

  /** What the user must have kept to: no name twice, and none that is the default name of a pool left
      unnamed. */
  ghost predicate NamesDoNotClash(pools: seq<Pool>) {
    && (forall i, j :: 0 <= i < j < |pools| && pools[i].name != "" ==> pools[i].name != pools[j].name)
    && (forall i, j :: 0 <= i < |pools| && 0 <= j < |pools| && pools[j].name == "" ==> pools[i].name != DefaultName(j))
  }

  lemma DefaultNamesDiffer(i: nat, j: nat)
    requires DefaultName(i) == DefaultName(j)
    ensures i == j
  {
    assert DefaultName(i)[3..] == Decimal(i) && DefaultName(j)[3..] == Decimal(j);
    DecimalInjective(i, j);
  }

  lemma NamedAreDistinct(pools: seq<Pool>)
    ensures DistinctNames(Named(pools)) <==> NamesDoNotClash(pools)
  {
    if NamesDoNotClash(pools) {
      forall i, j | 0 <= i < j < |pools| ensures NameOf(pools, i) != NameOf(pools, j) {
        if pools[i].name == "" && pools[j].name == "" && DefaultName(i) == DefaultName(j) {
          DefaultNamesDiffer(i, j);
        }
      }
    } else {
      hide DefaultName;
      ClashIsSeen(pools);
    }
  }

  lemma ClashIsSeen(pools: seq<Pool>)
    requires !NamesDoNotClash(pools)
    ensures !DistinctNames(Named(pools))
  {
    var named := Named(pools);
    if i, j :| 0 <= i < |pools| && 0 <= j < |pools| && pools[j].name == "" && pools[i].name == DefaultName(j) {
      assert i != j;
      assert named[i].name == named[j].name;
    } else {
      var i, j :| 0 <= i < j < |pools| && pools[i].name != "" && pools[i].name == pools[j].name;
      assert named[i].name == named[j].name;
    }
  }

  // ---------------------------------------------------------------- the tenant

  datatype TemplateValues = TemplateValues(
    statefulSet: string, ciService: string, hlService: string, ellipsis: string, domain: string)

  class Tenant {
    const name: string
    const namespace: string
    /** The cluster domain, read once per process. */
    const domain: string
    var pools: seq<Pool>
    /** The statefulset names recorded in the status. */
    var recorded: seq<string>

    constructor (name: string, namespace: string, domain: string, pools: seq<Pool>, recorded: seq<string>)
      ensures this.name == name && this.namespace == namespace && this.domain == domain
      ensures this.pools == pools && this.recorded == recorded
    {
      this.name, this.namespace, this.domain := name, namespace, domain;
      this.pools, this.recorded := pools, recorded;
    }

    /** The loop of EnsureDefaults over the pools. */
    method EnsurePoolNames()
      modifies this`pools
      ensures pools == Named(old(pools))
      ensures |pools| == |old(pools)| && forall i :: 0 <= i < |pools| ==>
        pools[i] == old(pools)[i].(name := if old(pools)[i].name == "" then "ss-" + Decimal(i) else old(pools)[i].name)
    {
      forall i: nat ensures DefaultName(i) == "ss-" + Decimal(i) {
        assert "ss" + "-" == "ss-";
      }
      for pi := 0 to |pools|
        invariant |pools| == |old(pools)|
        invariant forall i :: 0 <= i < pi ==> pools[i] == Named(old(pools))[i]
        invariant forall i :: pi <= i < |pools| ==> pools[i] == old(pools)[i]
      {
        var pool := pools[pi];
        if pool.name == "" {
          pool := pool.(name := "ss" + "-" + Decimal(pi));
        }
        pools := pools[pi := pool];
      }
    }

    /** MinIOHosts. */
    method MinIOHosts() returns (hosts: seq<string>)
      ensures hosts == Patterns(name, Rest(name, namespace, domain), pools, recorded)
    {
      hosts := [];
      for pi := 0 to |pools|
        invariant |hosts| == pi
        invariant forall i :: 0 <= i < pi ==> hosts[i] == Pattern(SetName(name, pools, recorded, i), Rest(name, namespace, domain), pools[i].servers)
      {
        var ssName := name + "-" + pools[pi].name;
        if |recorded| > pi {
          ssName := recorded[pi];
        }
        var hl := name + "-hl";
        if pools[pi].servers == 1 {
          hosts := hosts + [ssName + "-" + "0" + ("." + hl + "." + namespace + ".svc." + domain)];
        } else {
          hosts := hosts + [ssName + "-" + Ellipsis(0, pools[pi].servers - 1) + ("." + hl + "." + namespace + ".svc." + domain)];
        }
      }
    }

    /** TemplatedMinIOHosts, for a template that parsed: what it renders for given values, or a failure. */
    method TemplatedMinIOHosts(render: TemplateValues -> Option<string>) returns (hosts: seq<string>)
      ensures var e := Emit(this.name, domain, pools, render);
              |hosts| == |e.ranges| && forall i :: 0 <= i < |hosts| ==> render(e.ranges[i].values) == Some(hosts[i])
    {
      hide Emit, Wrap32, Ellipsis;
      hosts := [];
      NothingEmitted(this.name, domain, render);
      var max, index := 0, 0;
      ghost var e := Emitted(0, 0, []);
      for pi := 0 to |pools|
        invariant e == Emit(this.name, domain, pools[..pi], render) && e.index == index && e.max == max
        invariant |hosts| == |e.ranges| && forall i :: 0 <= i < |hosts| ==> render(e.ranges[i].values) == Some(hosts[i])
      {
        EmitOneMore(this.name, domain, pools, pi, render);
        e := Emit(this.name, domain, pools[..pi + 1], render);
        var pool := pools[pi];
        max := Wrap32(max + pool.servers);
        var data := TemplateValues(this.name + "-" + pool.name, "minio", this.name + "-hl", Ellipsis(index, max - 1), domain);
        var output := render(data);
        if output.Some? {
          hosts := hosts + [output.value];
          index := max;
        }
      }
      assert pools[..|pools|] == pools;
    }
  }

  // ---------------------------------------------------------------- what a pattern stands for

  /** What follows the pod name in every host. */
  function Rest(name: string, namespace: string, domain: string): string {
    "." + (name + "-hl") + "." + namespace + ".svc." + domain
  }

  function SetName(name: string, pools: seq<Pool>, recorded: seq<string>, i: nat): string
    requires i < |pools|
  {
    if |recorded| > i then recorded[i] else name + "-" + pools[i].name
  }

  function Pattern(ssName: string, rest: string, servers: int): string {
    ssName + "-" + (if servers == 1 then "0" else Ellipsis(0, servers - 1)) + rest
  }

  function Patterns(name: string, rest: string, pools: seq<Pool>, recorded: seq<string>): seq<string> {
    seq(|pools|, i requires 0 <= i < |pools| => Pattern(SetName(name, pools, recorded, i), rest, pools[i].servers))
  }

  function Spread(pre: string, from: nat, to: nat, post: string): (s: seq<string>)
    requires from <= to
    ensures |s| == to - from
    ensures forall k :: 0 <= k < |s| ==> s[k] == pre + Decimal(from + k) + post
  {
    seq(to - from, k requires 0 <= k < to - from => pre + Decimal(from + k) + post)
  }

  /** The two numbers of a range; None when the text is not one. */
  function Bounds(range: string): (r: Option<(nat, nat)>)
    ensures r.Some? ==> r.value.0 <= r.value.1
  {
    var d := IndexOf(range, '.');
    if "..." <= range[d..] then Ordered(range[..d], range[d + 3..]) else None
  }

  function Ordered(x: string, y: string): (r: Option<(nat, nat)>)
    ensures r.Some? ==> r.value.0 <= r.value.1
  {
    if AllDigits(x) && AllDigits(y) && Atoi(x) <= Atoi(y) then Some((Atoi(x), Atoi(y))) else None
  }

  /** The hosts a pattern stands for: one for each number of its range, or the pattern itself. */
  function Expand(s: string): seq<string> {
    var o := IndexOf(s, '{');
    if o == |s| then [s]
    else
      var body := s[o + 1..];
      var c := IndexOf(body, '}');
      if c == |body| then [s]
      else
        match Bounds(body[..c])
        case None => [s]
        case Some(r) => Spread(s[..o], r.0, r.1 + 1, body[c + 1..])
  }

  lemma BoundsOf(x: string, y: string)
    requires AllDigits(x) && AllDigits(y) && Atoi(x) <= Atoi(y)
    ensures Bounds(x + "..." + y) == Some((Atoi(x), Atoi(y)))
  {
    assert '.' !in x;
    assert Ordered(x, y) == Some((Atoi(x), Atoi(y)));
    hide Atoi, AllDigits, Ordered, IndexOf;
    ThreeDots(x, y);
    CutAtFirst(x, '.', ".." + y);
  }

  lemma ThreeDots(x: string, y: string)
    ensures var range := x + "." + (".." + y);
            range == x + "..." + y && "..." <= range[|x|..] && range[|x| + 3..] == y
  {
    var range := x + "." + (".." + y);
    assert range == x + ("..." + y);
    assert range[|x|..] == "..." + y;
  }

  lemma ExpandOf(pre: string, range: string, post: string)
    requires '{' !in pre && '}' !in range && Bounds(range).Some?
    ensures Expand(pre + "{" + range + "}" + post) == Spread(pre, Bounds(range).value.0, Bounds(range).value.1 + 1, post)
  {
    hide Bounds, Spread;
    assert pre + "{" + range + "}" + post == pre + "{" + (range + "}" + post);
    CutAtFirst(pre, '{', range + "}" + post);
    CutAtFirst(range, '}', post);
  }

  lemma BracesStandAlone(pre: string, x: string, y: string, post: string)
    requires '}' !in x && '}' !in y
    ensures pre + ("{" + x + "..." + y + "}") + post == pre + "{" + (x + "..." + y) + "}" + post
    ensures '}' !in x + "..." + y
  {
  }

  lemma ExpandEllipsis(pre: string, a: nat, b: nat, post: string)
    requires '{' !in pre && a <= b
    ensures Expand(pre + Ellipsis(a, b) + post) == Spread(pre, a, b + 1, post)
  {
    var x, y := Decimal(a), Decimal(b);
    NoneInDigits(a, '}');
    NoneInDigits(b, '}');
    AtoiOfDecimal(a);
    AtoiOfDecimal(b);
    assert Ellipsis(a, b) == "{" + x + "..." + y + "}";
    hide *;
    BoundsOf(x, y);
    BracesStandAlone(pre, x, y, post);
    ExpandOf(pre, x + "..." + y, post);
  }

  lemma NoneInDigits(n: nat, c: char)
    requires !IsDigit(c)
    ensures c !in Decimal(n)
  {
  }

  predicate Braceless(s: string) {
    '{' !in s
  }

  lemma SingleStandsFor(ssName: string, rest: string)
    requires Braceless(ssName) && Braceless(rest)
    ensures Expand(ssName + "-" + "0" + rest) == [ssName + "-" + "0" + rest]
  {
    var s := ssName + "-" + "0" + rest;
    assert '{' !in s;
    hide Bounds, Spread;
  }

  lemma SpreadOfOne(pre: string, post: string)
    ensures Spread(pre, 0, 1, post) == [pre + "0" + post]
  {
    assert Decimal(0) == "0";
  }

  /** One pattern stands for as many hosts as the pool has servers, numbered from zero. */
  lemma PatternStandsFor(ssName: string, rest: string, servers: int)
    requires servers >= 1 && Braceless(ssName) && Braceless(rest)
    ensures Expand(Pattern(ssName, rest, servers)) == Spread(ssName + "-", 0, servers, rest)
  {
    hide Expand, Spread, Decimal, Ellipsis;
    if servers == 1 {
      SingleStandsFor(ssName, rest);
      SpreadOfOne(ssName + "-", rest);
    } else {
      assert '{' !in ssName + "-";
      ExpandEllipsis(ssName + "-", 0, servers - 1, rest);
    }
  }

  /** The pattern of a pool without servers is no range: it stands for itself, a host that no pod has. */
  lemma UnservedStandsForItself(ssName: string, rest: string, servers: int)
    requires servers < 1 && Braceless(ssName) && Braceless(rest)
    ensures Expand(Pattern(ssName, rest, servers)) == [Pattern(ssName, rest, servers)]
  {
    UnservedEllipsis(servers);
    hide Bounds, Spread, Decimal, Itoa, AllDigits, Ellipsis, Expand;
    var y := Itoa(servers - 1);
    NoBounds(y);
    StandsForItself(ssName + "-", "0" + "..." + y, rest);
    BracesStandAlone(ssName + "-", "0", y, rest);
  }

  lemma UnservedEllipsis(servers: int)
    requires servers < 1
    ensures var y := Itoa(servers - 1);
      Ellipsis(0, servers - 1) == "{" + "0" + "..." + y + "}" && '}' !in y && !AllDigits(y)
  {
    NoneInDigits(1 - servers, '}');
    var y := Itoa(servers - 1);
    assert y[0] == '-' && Itoa(0) == "0";
    hide Decimal;
  }

  lemma StandsForItself(pre: string, range: string, post: string)
    requires '{' !in pre && '}' !in range && Bounds(range).None?
    ensures Expand(pre + "{" + range + "}" + post) == [pre + "{" + range + "}" + post]
  {
    hide Bounds, Spread;
    assert pre + "{" + range + "}" + post == pre + "{" + (range + "}" + post);
    CutAtFirst(pre, '{', range + "}" + post);
    CutAtFirst(range, '}', post);
  }

  lemma NoBounds(y: string)
    requires !AllDigits(y)
    ensures Bounds("0" + "..." + y).None?
  {
    hide Atoi, AllDigits;
    ThreeDots("0", y);
    CutAtFirst("0", '.', ".." + y);
  }

  function Total(pools: seq<Pool>): int {
    if pools == [] then 0 else Total(pools[..|pools| - 1]) + pools[|pools| - 1].servers
  }

  function ExpandAll(patterns: seq<string>): seq<string> {
    if patterns == [] then [] else ExpandAll(patterns[..|patterns| - 1]) + Expand(patterns[|patterns| - 1])
  }

  /** All that the patterns of some statefulsets must be for the expansion to read them back. */
  ghost predicate Readable(sets: seq<string>, servers: seq<int>, rest: string) {
    && |sets| == |servers| && Braceless(rest)
    && forall i :: 0 <= i < |sets| ==> Braceless(sets[i]) && servers[i] >= 1
  }

  /** The patterns of some statefulsets. */
  ghost function PatternsOf(sets: seq<string>, servers: seq<int>, rest: string): seq<string>
    requires |sets| == |servers|
  {
    seq(|sets|, i requires 0 <= i < |sets| => Pattern(sets[i], rest, servers[i]))
  }

  ghost function Sum(servers: seq<int>): int {
    if servers == [] then 0 else Sum(servers[..|servers| - 1]) + servers[|servers| - 1]
  }

  lemma PatternsOfInit(sets: seq<string>, servers: seq<int>, rest: string)
    requires |sets| == |servers| > 0
    ensures var ps := PatternsOf(sets, servers, rest);
            ps[..|ps| - 1] == PatternsOf(sets[..|sets| - 1], servers[..|sets| - 1], rest)
            && ps[|ps| - 1] == Pattern(sets[|sets| - 1], rest, servers[|sets| - 1])
  {
  }

  /** The hosts of all patterns: their number, and where each comes from. */
  lemma {:induction false} HostsOfAll(sets: seq<string>, servers: seq<int>, rest: string)
    requires Readable(sets, servers, rest)
    ensures |ExpandAll(PatternsOf(sets, servers, rest))| == Sum(servers)
    ensures forall h :: h in ExpandAll(PatternsOf(sets, servers, rest)) <==> IsHost(sets, servers, rest, h)
  {
    var n := |sets| - 1;
    if sets != [] {
      var ps := PatternsOf(sets, servers, rest);
      PatternsOfInit(sets, servers, rest);
      HostsOfAll(sets[..n], servers[..n], rest);
      PatternStandsFor(sets[n], rest, servers[n]);
      hide Expand, Pattern, PatternsOf;
      forall h ensures h in ExpandAll(ps) <==> IsHost(sets, servers, rest, h) {
        HostOfInit(sets, servers, rest, h);
      }
    }
  }

  /** Of names without a brace the patterns stand for one host a server, and for one more for each pool
      that has none. */
  lemma {:induction false} HostsOfAnyServers(sets: seq<string>, servers: seq<int>, rest: string)
    requires |sets| == |servers| && Braceless(rest) && forall i :: 0 <= i < |sets| ==> Braceless(sets[i])
    ensures |ExpandAll(PatternsOf(sets, servers, rest))| >= Sum(servers)
    ensures |ExpandAll(PatternsOf(sets, servers, rest))| == Sum(servers) <==> forall i :: 0 <= i < |servers| ==> servers[i] >= 1
  {
    var n := |sets| - 1;
    if sets != [] {
      HostsOfAnyServers(sets[..n], servers[..n], rest);
      if servers[n] >= 1 {
        PatternStandsFor(sets[n], rest, servers[n]);
      } else {
        UnservedStandsForItself(sets[n], rest, servers[n]);
      }
      OneMorePattern(sets, servers, rest);
      AllServedByOne(servers);
      hide *;
    }
  }

  lemma OneMorePattern(sets: seq<string>, servers: seq<int>, rest: string)
    requires |sets| == |servers| > 0
    ensures var n := |sets| - 1;
      && Sum(servers) == Sum(servers[..n]) + servers[n]
      && |ExpandAll(PatternsOf(sets, servers, rest))|
         == |ExpandAll(PatternsOf(sets[..n], servers[..n], rest))| + |Expand(Pattern(sets[n], rest, servers[n]))|
  {
    PatternsOfInit(sets, servers, rest);
    hide PatternsOf, Expand, Pattern;
    ExpandLast(PatternsOf(sets, servers, rest));
  }

  lemma AllServedByOne(servers: seq<int>)
    requires servers != []
    ensures var n := |servers| - 1;
      (forall i :: 0 <= i < |servers| ==> servers[i] >= 1) <==>
      (forall i :: 0 <= i < n ==> servers[..n][i] >= 1) && servers[n] >= 1
  {
    var n := |servers| - 1;
    assert servers == servers[..n] + [servers[n]];
  }

  ghost predicate HostAt(sets: seq<string>, servers: seq<int>, rest: string, h: string, i: int, k: int) {
    0 <= i < |sets| && i < |servers| && 0 <= k < servers[i] && h == sets[i] + "-" + Decimal(k) + rest
  }

  /** A pod of one of the statefulsets. */
  ghost predicate IsHost(sets: seq<string>, servers: seq<int>, rest: string, h: string) {
    exists i, k :: HostAt(sets, servers, rest, h, i, k)
  }

  lemma HostOfInit(sets: seq<string>, servers: seq<int>, rest: string, h: string)
    requires |sets| == |servers| > 0 && servers[|sets| - 1] >= 1
    ensures var n := |sets| - 1;
            IsHost(sets, servers, rest, h) <==>
            IsHost(sets[..n], servers[..n], rest, h) || h in Spread(sets[n] + "-", 0, servers[n], rest)
  {
    var n := |sets| - 1;
    var last := Spread(sets[n] + "-", 0, servers[n], rest);
    if i, k :| HostAt(sets, servers, rest, h, i, k) {
      if i < n {
        assert HostAt(sets[..n], servers[..n], rest, h, i, k);
      } else {
        assert last[k] == h;
      }
    }
    if i, k :| HostAt(sets[..n], servers[..n], rest, h, i, k) {
      assert HostAt(sets, servers, rest, h, i, k);
    }
    if h in last {
      var k :| 0 <= k < |last| && last[k] == h;
      assert HostAt(sets, servers, rest, h, n, k);
    }
  }

  /** A host names its statefulset and its number, even when names have hyphens and digits. */
  lemma HostNamesOnce(s: string, k: nat, t: string, l: nat, rest: string)
    requires s + "-" + Decimal(k) + rest == t + "-" + Decimal(l) + rest
    ensures s == t && k == l
  {
    var x, y := s + "-" + Decimal(k), t + "-" + Decimal(l);
    assert x == (x + rest)[..|x|] && y == (y + rest)[..|y|];
    assert |x + rest| == |y + rest|;
    assert x == y;
    NoneInDigits(k, '-');
    NoneInDigits(l, '-');
    LastHyphen(s, Decimal(k), t, Decimal(l));
    assert s == x[..|s|] && t == y[..|s|];
    assert Decimal(k) == x[|s| + 1..] && Decimal(l) == y[|s| + 1..];
    DecimalInjective(k, l);
  }

  lemma LastHyphen(s: string, a: string, t: string, b: string)
    requires s + "-" + a == t + "-" + b && '-' !in a && '-' !in b
    ensures |s| == |t|
  {
    var x, y := s + "-" + a, t + "-" + b;
    assert x[|s|] == '-' && y[|t|] == '-';
    assert forall i :: |s| < i < |x| ==> x[i] == a[i - |s| - 1] && x[i] in a;
    assert forall i :: |t| < i < |y| ==> y[i] == b[i - |t| - 1] && y[i] in b;
  }

  /** The hosts are all different exactly when the statefulset names are. */
  lemma {:induction false} HostsAreDistinct(sets: seq<string>, servers: seq<int>, rest: string)
    requires Readable(sets, servers, rest)
    ensures Distinct(ExpandAll(PatternsOf(sets, servers, rest))) <==> Distinct(sets)
  {
    if sets != [] {
      var n := |sets| - 1;
      var ps := PatternsOf(sets, servers, rest);
      PatternsOfInit(sets, servers, rest);
      HostsAreDistinct(sets[..n], servers[..n], rest);
      HostsOfAll(sets[..n], servers[..n], rest);
      PatternStandsFor(sets[n], rest, servers[n]);
      hide *;
      LastIsDistinct(sets, servers, rest, ExpandAll(ps[..n]));
      assert ps[..n] == PatternsOf(sets[..n], servers[..n], rest);
      ExpandLast(ps);
    }
  }

  lemma ExpandLast(ps: seq<string>)
    requires ps != []
    ensures ExpandAll(ps) == ExpandAll(ps[..|ps| - 1]) + Expand(ps[|ps| - 1])
  {
  }

  lemma LastIsDistinct(sets: seq<string>, servers: seq<int>, rest: string, a: seq<string>)
    requires Readable(sets, servers, rest) && sets != []
    requires forall h :: h in a <==> IsHost(sets[..|sets| - 1], servers[..|sets| - 1], rest, h)
    requires Distinct(a) <==> Distinct(sets[..|sets| - 1])
    ensures Distinct(a + Spread(sets[|sets| - 1] + "-", 0, servers[|sets| - 1], rest)) <==> Distinct(sets)
  {
    hide IsHost, Distinct, Spread, Decimal;
    var n := |sets| - 1;
    var b := Spread(sets[n] + "-", 0, servers[n], rest);
    SpreadIsDistinct(sets[n], servers[n], rest);
    DistinctConcat(a, b);
    SetsMeet(sets, servers, rest);
    assert (forall h :: h in a ==> h !in b) <==> sets[n] !in sets[..n];
    assert sets == sets[..n] + [sets[n]];
    DistinctConcat(sets[..n], [sets[n]]);
    OneIsDistinct(sets[n]);
  }

  lemma OneIsDistinct(x: string)
    ensures Distinct([x])
  {
  }

  lemma SpreadIsDistinct(s: string, n: nat, rest: string)
    ensures Distinct(Spread(s + "-", 0, n, rest))
  {
    var b := Spread(s + "-", 0, n, rest);
    forall k, l | 0 <= k < l < n ensures b[k] != b[l] {
      if b[k] == b[l] {
        HostNamesOnce(s, k, s, l, rest);
      }
    }
  }

  lemma DistinctConcat(a: seq<string>, b: seq<string>)
    ensures Distinct(a + b) <==> Distinct(a) && Distinct(b) && forall x :: x in a ==> x !in b
  {
    var s := a + b;
    assert forall i :: 0 <= i < |a| ==> s[i] == a[i];
    assert forall i :: 0 <= i < |b| ==> s[|a| + i] == b[i];
    if Distinct(a) && Distinct(b) && forall x :: x in a ==> x !in b {
      forall i, j | 0 <= i < j < |s| ensures s[i] != s[j] {
        if i < |a| && j >= |a| {
          assert s[i] in a && s[j] == b[j - |a|];
        }
      }
    }
    if Distinct(s) {
      forall x | x in a ensures x !in b {
        var i :| 0 <= i < |a| && s[i] == x;
      }
    }
  }

  /** The hosts of the last statefulset are new exactly when its name is. */
  lemma SetsMeet(sets: seq<string>, servers: seq<int>, rest: string)
    requires Readable(sets, servers, rest) && sets != []
    ensures var n := |sets| - 1;
            (forall h :: IsHost(sets[..n], servers[..n], rest, h) ==> h !in Spread(sets[n] + "-", 0, servers[n], rest))
            <==> sets[n] !in sets[..n]
  {
    var n := |sets| - 1;
    var b := Spread(sets[n] + "-", 0, servers[n], rest);
    if sets[n] in sets[..n] {
      var i :| 0 <= i < n && sets[i] == sets[n];
      assert HostAt(sets[..n], servers[..n], rest, b[0], i, 0);
      assert b[0] in b;
    } else {
      forall h | IsHost(sets[..n], servers[..n], rest, h) ensures h !in b {
        var i, k :| HostAt(sets[..n], servers[..n], rest, h, i, k);
        if h in b {
          var l :| 0 <= l < |b| && b[l] == h;
          HostNamesOnce(sets[i], k, sets[n], l, rest);
        }
      }
    }
  }

  // ---------------------------------------------------------------- the tenant's hosts

  ghost function SetNames(name: string, pools: seq<Pool>, recorded: seq<string>): seq<string> {
    seq(|pools|, i requires 0 <= i < |pools| => SetName(name, pools, recorded, i))
  }

  ghost function Servers(pools: seq<Pool>): seq<int> {
    seq(|pools|, i requires 0 <= i < |pools| => pools[i].servers)
  }

  ghost predicate PlainNames(name: string, namespace: string, domain: string, pools: seq<Pool>, recorded: seq<string>) {
    && Braceless(name) && Braceless(namespace) && Braceless(domain)
    && (forall i :: 0 <= i < |pools| ==> Braceless(pools[i].name) && pools[i].servers >= 1)
    && (forall i :: 0 <= i < |recorded| ==> Braceless(recorded[i]))
  }

  lemma PlainIsReadable(name: string, namespace: string, domain: string, pools: seq<Pool>, recorded: seq<string>)
    requires PlainNames(name, namespace, domain, pools, recorded)
    ensures Readable(SetNames(name, pools, recorded), Servers(pools), Rest(name, namespace, domain))
    ensures Patterns(name, Rest(name, namespace, domain), pools, recorded)
            == PatternsOf(SetNames(name, pools, recorded), Servers(pools), Rest(name, namespace, domain))
  {
  }

  lemma {:induction false} SumOfServers(pools: seq<Pool>)
    ensures Sum(Servers(pools)) == Total(pools)
  {
    if pools != [] {
      SumOfServers(pools[..|pools| - 1]);
      assert Servers(pools)[..|pools| - 1] == Servers(pools[..|pools| - 1]);
    }
  }

  /** MinIOHosts stands for as many hosts as there are servers, and they are all different exactly when
      the statefulset names, recorded or not, are. */
  lemma TenantHosts(name: string, namespace: string, domain: string, pools: seq<Pool>, recorded: seq<string>)
    requires PlainNames(name, namespace, domain, pools, recorded)
    ensures var hosts := ExpandAll(Patterns(name, Rest(name, namespace, domain), pools, recorded));
            |hosts| == Total(pools) && (Distinct(hosts) <==> Distinct(SetNames(name, pools, recorded)))
  {
    PlainIsReadable(name, namespace, domain, pools, recorded);
    HostsOfAll(SetNames(name, pools, recorded), Servers(pools), Rest(name, namespace, domain));
    HostsAreDistinct(SetNames(name, pools, recorded), Servers(pools), Rest(name, namespace, domain));
    SumOfServers(pools);
  }

  /** After the pools have been named, and before any statefulset is recorded, the hosts are all different
      exactly when the names the user chose do not clash. */
  lemma NamedTenantHosts(name: string, namespace: string, domain: string, pools: seq<Pool>)
    requires PlainNames(name, namespace, domain, pools, [])
    ensures var hosts := ExpandAll(Patterns(name, Rest(name, namespace, domain), Named(pools), []));
            |hosts| == Total(pools) && (Distinct(hosts) <==> NamesDoNotClash(pools))
  {
    var named := Named(pools);
    forall i | 0 <= i < |named| ensures Braceless(named[i].name) {
      NoneInDigits(i, '{');
    }
    TenantHosts(name, namespace, domain, named, []);
    NamedAreDistinct(pools);
    assert Servers(named) == Servers(pools);
    SumOfServers(named);
    SumOfServers(pools);
    SetNamesDiffer(name, named);
  }

  lemma SetNamesDiffer(name: string, pools: seq<Pool>)
    ensures Distinct(SetNames(name, pools, [])) <==> DistinctNames(pools)
  {
    var sets := SetNames(name, pools, []);
    forall i, j | 0 <= i < j < |pools| ensures sets[i] == sets[j] <==> pools[i].name == pools[j].name {
      assert (name + "-" + pools[i].name)[|name| + 1..] == pools[i].name;
      assert (name + "-" + pools[j].name)[|name| + 1..] == pools[j].name;
    }
  }

  /** A server of one of the pools, by its full name. */
  ghost predicate ServerAt(name: string, namespace: string, domain: string, pools: seq<Pool>, recorded: seq<string>,
                           h: string, i: int, k: int) {
    && 0 <= i < |pools| && 0 <= k < pools[i].servers
    && h == (if i < |recorded| then recorded[i] else name + "-" + pools[i].name)
            + "-" + Decimal(k) + "." + name + "-hl." + namespace + ".svc." + domain
  }

  lemma RestInFull(name: string, namespace: string, domain: string, s: string)
    ensures s + Rest(name, namespace, domain) == s + "." + name + "-hl." + namespace + ".svc." + domain
  {
    assert "-hl" + "." == "-hl.";
    assert Rest(name, namespace, domain) == "." + name + "-hl." + namespace + ".svc." + domain;
  }

  /** The hosts MinIOHosts stands for are the servers' full names, and no others: the name recorded for the
      pool's statefulset or else the tenant's with the pool's, the number, and the headless service. */
  lemma TenantHostNames(name: string, namespace: string, domain: string, pools: seq<Pool>, recorded: seq<string>, h: string)
    requires PlainNames(name, namespace, domain, pools, recorded)
    ensures h in ExpandAll(Patterns(name, Rest(name, namespace, domain), pools, recorded)) <==>
            exists i, k :: ServerAt(name, namespace, domain, pools, recorded, h, i, k)
  {
    var sets, servers, rest := SetNames(name, pools, recorded), Servers(pools), Rest(name, namespace, domain);
    PlainIsReadable(name, namespace, domain, pools, recorded);
    HostsOfAll(sets, servers, rest);
    forall i, k ensures HostAt(sets, servers, rest, h, i, k) <==> ServerAt(name, namespace, domain, pools, recorded, h, i, k) {
      if 0 <= i < |pools| && 0 <= k < pools[i].servers {
        RestInFull(name, namespace, domain, sets[i] + "-" + Decimal(k));
      }
    }
    hide *;
  }

  // ---------------------------------------------------------------- templated hosts

  /** One successful execution: the numbers its ellipsis covers, up to but not with the second. */
  datatype Range = Range(from: int, to: int, values: TemplateValues)

  datatype Emitted = Emitted(index: int, max: int, ranges: seq<Range>)

  /** The loop of TemplatedMinIOHosts. */
  function Emit(name: string, domain: string, pools: seq<Pool>, render: TemplateValues -> Option<string>): Emitted {
    if pools == [] then Emitted(0, 0, [])
    else
      var e := Emit(name, domain, pools[..|pools| - 1], render);
      var pool := pools[|pools| - 1];
      var max := Wrap32(e.max + pool.servers);
      var data := TemplateValues(name + "-" + pool.name, "minio", name + "-hl", Ellipsis(e.index, max - 1), domain);
      if render(data).Some? then Emitted(max, max, e.ranges + [Range(e.index, max, data)])
      else Emitted(e.index, max, e.ranges)
  }

  /** Each template is given the range it covers, printed. */
  lemma {:induction false} RangesArePrinted(name: string, domain: string, pools: seq<Pool>, render: TemplateValues -> Option<string>, i: nat)
    requires i < |Emit(name, domain, pools, render).ranges|
    ensures var r := Emit(name, domain, pools, render).ranges[i]; r.values.ellipsis == Ellipsis(r.from, r.to - 1)
  {
    hide Ellipsis;
    assert pools != [];
    var init := pools[..|pools| - 1];
    if i < |Emit(name, domain, init, render).ranges| {
      RangesArePrinted(name, domain, init, render, i);
    }
  }

  /** What the template is given for a pool, written out. */
  ghost function ValuesFor(name: string, domain: string, pool: Pool, from: int, to: int): TemplateValues {
    TemplateValues(name + "-" + pool.name, "minio", name + "-hl", "{" + Itoa(from) + "..." + Itoa(to - 1) + "}", domain)
  }

  ghost function EndOf(ranges: seq<Range>): int {
    if ranges == [] then 0 else ranges[|ranges| - 1].to
  }

  /** Every pool is tried, in order, and what was emitted stays. A pool that renders gets the range from where
      the last one ended up to what the servers add up to by then in 32 bits; one that fails ends no range. */
  lemma EachPoolIsTried(name: string, domain: string, pools: seq<Pool>, render: TemplateValues -> Option<string>, j: nat)
    requires j < |pools|
    ensures var was, now := Emit(name, domain, pools[..j], render).ranges, Emit(name, domain, pools[..j + 1], render).ranges;
      var from, to := EndOf(was), Wrap32(Total(pools[..j + 1]));
      var values := ValuesFor(name, domain, pools[j], from, to);
      now == if render(values).Some? then was + [Range(from, to, values)] else was
    ensures Emit(name, domain, pools[..j + 1], render).ranges <= Emit(name, domain, pools, render).ranges
  {
    hide *;
    EmitOneMore(name, domain, pools, j, render);
    EndsAtIndex(name, domain, pools[..j], render);
    TotalsToAPool(name, domain, pools, render, j);
    EllipsisInFull(EndOf(Emit(name, domain, pools[..j], render).ranges), Wrap32(Total(pools[..j + 1])));
    ValuesInFull(name, domain, pools[j], EndOf(Emit(name, domain, pools[..j], render).ranges), Wrap32(Total(pools[..j + 1])));
    EmittedStay(name, domain, pools, render, j + 1);
  }

  lemma EndsAtIndex(name: string, domain: string, pools: seq<Pool>, render: TemplateValues -> Option<string>)
    ensures EndOf(Emit(name, domain, pools, render).ranges) == Emit(name, domain, pools, render).index
  {
    hide Emit;
    EmittedAreChained(name, domain, pools, render);
  }

  lemma TotalsToAPool(name: string, domain: string, pools: seq<Pool>, render: TemplateValues -> Option<string>, j: nat)
    requires j < |pools|
    ensures Wrap32(Emit(name, domain, pools[..j], render).max + pools[j].servers) == Wrap32(Total(pools[..j + 1]))
  {
    hide *;
    RangesReachAPool(name, domain, pools[..j], render);
    WrapAdds(Total(pools[..j]), pools[j].servers);
    TotalOfAll(pools[..j + 1]);
    assert pools[..j + 1][..j] == pools[..j];
  }

  lemma EllipsisInFull(from: int, to: int)
    ensures Ellipsis(from, to - 1) == "{" + Itoa(from) + "..." + Itoa(to - 1) + "}"
  {
  }

  lemma ValuesInFull(name: string, domain: string, pool: Pool, from: int, to: int)
    ensures ValuesFor(name, domain, pool, from, to)
            == TemplateValues(name + "-" + pool.name, "minio", name + "-hl", "{" + Itoa(from) + "..." + Itoa(to - 1) + "}", domain)
  {
  }

  lemma {:induction false} EmittedStay(name: string, domain: string, pools: seq<Pool>, render: TemplateValues -> Option<string>, n: nat)
    requires n <= |pools|
    ensures Emit(name, domain, pools[..n], render).ranges <= Emit(name, domain, pools, render).ranges
  {
    if n == |pools| {
      assert pools[..n] == pools;
    } else {
      var init := pools[..|pools| - 1];
      assert init[..n] == pools[..n];
      EmittedStay(name, domain, init, render, n);
      EmitLast(name, domain, pools, render);
    }
  }

  lemma NothingEmitted(name: string, domain: string, render: TemplateValues -> Option<string>)
    ensures Emit(name, domain, [], render) == Emitted(0, 0, [])
  {
  }

  lemma EmitOneMore(name: string, domain: string, pools: seq<Pool>, i: nat, render: TemplateValues -> Option<string>)
    requires i < |pools|
    ensures var was := Emit(name, domain, pools[..i], render);
      var max := Wrap32(was.max + pools[i].servers);
      var data := TemplateValues(name + "-" + pools[i].name, "minio", name + "-hl", Ellipsis(was.index, max - 1), domain);
      Emit(name, domain, pools[..i + 1], render) ==
        if render(data).Some? then Emitted(max, max, was.ranges + [Range(was.index, max, data)])
        else Emitted(was.index, max, was.ranges)
  {
    hide Wrap32, Ellipsis;
    assert pools[..i + 1][..i] == pools[..i];
  }

  function Numbers(from: int, to: int): seq<int>
    decreases if to <= from then 0 else to - from
  {
    if to <= from then [] else Numbers(from, to - 1) + [to - 1]
  }

  function Covered(ranges: seq<Range>): seq<int> {
    if ranges == [] then []
    else Covered(ranges[..|ranges| - 1]) + Numbers(ranges[|ranges| - 1].from, ranges[|ranges| - 1].to)
  }

  lemma {:induction false} NumbersJoin(a: int, b: int, c: int)
    requires a <= b <= c
    ensures Numbers(a, b) + Numbers(b, c) == Numbers(a, c)
    decreases c - b
  {
    if b < c {
      NumbersJoin(a, b, c - 1);
      assert Numbers(a, b) + Numbers(b, c) == Numbers(a, b) + Numbers(b, c - 1) + [c - 1];
    }
  }

  lemma {:induction false} NumbersCount(a: int, b: int)
    ensures |Numbers(a, b)| == if b <= a then 0 else b - a
    decreases if b <= a then 0 else b - a
  {
    if a < b {
      NumbersCount(a, b - 1);
    }
  }

  /** No range runs backwards. */
  predicate Forward(ranges: seq<Range>) {
    forall i :: 0 <= i < |ranges| ==> ranges[i].from <= ranges[i].to
  }

  /** Every range starts where the one before it ended, the first at zero. */
  predicate Chained(ranges: seq<Range>, end: int) {
    if ranges == [] then end == 0
    else
      var last := ranges[|ranges| - 1];
      last.to == end && Chained(ranges[..|ranges| - 1], last.from)
  }

  /** What one more pool emits. */
  lemma EmitLast(name: string, domain: string, pools: seq<Pool>, render: TemplateValues -> Option<string>)
    requires pools != []
    ensures var was, e := Emit(name, domain, pools[..|pools| - 1], render), Emit(name, domain, pools, render);
      && e.max == Wrap32(was.max + pools[|pools| - 1].servers)
      && ((e.ranges == was.ranges && e.index == was.index)
          || (e.index == e.max && |e.ranges| == |was.ranges| + 1 && e.ranges[..|was.ranges|] == was.ranges
              && e.ranges[|was.ranges|].from == was.index && e.ranges[|was.ranges|].to == e.max))
  {
    hide Ellipsis, Wrap32;
  }

  lemma {:induction false} EmittedAreChained(name: string, domain: string, pools: seq<Pool>, render: TemplateValues -> Option<string>)
    ensures var e := Emit(name, domain, pools, render);
      Chained(e.ranges, e.index) && |e.ranges| <= |pools| && (|e.ranges| == |pools| ==> e.index == e.max)
  {
    if pools != [] {
      hide Emit;
      EmittedAreChained(name, domain, pools[..|pools| - 1], render);
      EmitLast(name, domain, pools, render);
    }
  }

  /** Chained ranges list the numbers up to the end, each once and none left out, exactly when none runs
      backwards; otherwise they list too many. */
  lemma {:induction false} ChainedTile(ranges: seq<Range>, end: int)
    requires Chained(ranges, end)
    ensures Forward(ranges) ==> end >= 0 && Covered(ranges) == Numbers(0, end)
    ensures |Covered(ranges)| >= end && (!Forward(ranges) ==> |Covered(ranges)| > end)
  {
    if ranges != [] {
      var init, last := ranges[..|ranges| - 1], ranges[|ranges| - 1];
      ChainedTile(init, last.from);
      assert ranges == init + [last];
      NumbersCount(last.from, last.to);
      if Forward(ranges) {
        NumbersJoin(0, last.from, last.to);
      }
    }
  }

  /** Whatever executions fail, and whatever the servers add up to in 32 bits, the ranges emitted list the
      numbers below index, each once and none left out, exactly when no range runs backwards. */
  lemma RangesTile(name: string, domain: string, pools: seq<Pool>, render: TemplateValues -> Option<string>)
    ensures var e := Emit(name, domain, pools, render);
      e.index >= 0 && Covered(e.ranges) == Numbers(0, e.index) <==> Forward(e.ranges)
  {
    var e := Emit(name, domain, pools, render);
    hide Emit, Covered, Numbers;
    EmittedAreChained(name, domain, pools, render);
    ChainedTile(e.ranges, e.index);
    NumbersCount(0, e.index);
  }

  /** The index is what the servers of the pools up to one of them add up to in 32 bits. */
  lemma {:induction false} RangesReachAPool(name: string, domain: string, pools: seq<Pool>, render: TemplateValues -> Option<string>)
    ensures exists k :: 0 <= k <= |pools| && Emit(name, domain, pools, render).index == Wrap32(Total(pools[..k]))
    ensures Emit(name, domain, pools, render).max == Wrap32(Total(pools))
  {
    hide Ellipsis, Wrap32;
    if pools == [] {
      assert Total(pools[..0]) == 0 && Wrap32(0) == 0;
    } else {
      var init := pools[..|pools| - 1];
      RangesReachAPool(name, domain, init, render);
      WrapAdds(Total(init), pools[|pools| - 1].servers);
      EmitLast(name, domain, pools, render);
      hide *;
      ReachedBefore(init, pools, Emit(name, domain, init, render).index);
      TotalOfAll(pools);
    }
  }

  lemma TotalOfAll(pools: seq<Pool>)
    ensures Total(pools[..|pools|]) == Total(pools)
    ensures pools != [] ==> Total(pools) == Total(pools[..|pools| - 1]) + pools[|pools| - 1].servers
  {
    assert pools[..|pools|] == pools;
  }

  lemma ReachedBefore(init: seq<Pool>, pools: seq<Pool>, index: int)
    requires init <= pools && exists k :: 0 <= k <= |init| && index == Wrap32(Total(init[..k]))
    ensures exists k :: 0 <= k <= |pools| && index == Wrap32(Total(pools[..k]))
  {
    hide Total, Wrap32;
    var k :| 0 <= k <= |init| && index == Wrap32(Total(init[..k]));
    assert init[..k] == pools[..k];
  }

  predicate FewServers(pools: seq<Pool>) {
    forall i :: 0 <= i < |pools| ==> 0 <= pools[i].servers < TWO31
  }

  /** The ranges as far as the servers fit 32 bits, and the first beyond. */
  lemma {:induction false} ForwardWhileItFits(name: string, domain: string, pools: seq<Pool>, render: TemplateValues -> Option<string>)
    requires FewServers(pools)
    ensures var e := Emit(name, domain, pools, render);
      && 0 <= Total(pools)
      && (Total(pools) < TWO31 ==> 0 <= e.index <= e.max == Total(pools) && Forward(e.ranges))
      && (Total(pools) >= TWO31 && |e.ranges| == |pools| ==> !Forward(e.ranges))
  {
    if pools != [] {
      var init := pools[..|pools| - 1];
      assert FewServers(init) && 0 <= pools[|pools| - 1].servers < TWO31;
      hide *;
      ForwardWhileItFits(name, domain, init, render);
      TotalOfAll(pools);
      ForwardOneMore(name, domain, pools, render);
    }
  }

  lemma ForwardOneMore(name: string, domain: string, pools: seq<Pool>, render: TemplateValues -> Option<string>)
    requires pools != [] && 0 <= pools[|pools| - 1].servers < TWO31
    requires var init := pools[..|pools| - 1]; var was := Emit(name, domain, init, render);
      && 0 <= Total(init)
      && (Total(init) < TWO31 ==> 0 <= was.index <= was.max == Total(init) && Forward(was.ranges))
      && (Total(init) >= TWO31 && |was.ranges| == |init| ==> !Forward(was.ranges))
    ensures var e := Emit(name, domain, pools, render); var total := Total(pools[..|pools| - 1]) + pools[|pools| - 1].servers;
      && (total < TWO31 ==> 0 <= e.index <= e.max == total && Forward(e.ranges))
      && (total >= TWO31 && |e.ranges| == |pools| ==> !Forward(e.ranges))
  {
    hide *;
    var init := pools[..|pools| - 1];
    EmittedAreChained(name, domain, init, render);
    EmitLast(name, domain, pools, render);
    ForwardStep(Emit(name, domain, init, render), Emit(name, domain, pools, render), Total(init), pools[|pools| - 1].servers, |init|);
  }

  lemma ForwardStep(was: Emitted, e: Emitted, total: int, servers: int, n: nat)
    requires 0 <= total && 0 <= servers < TWO31 && e.max == Wrap32(was.max + servers)
    requires (e.ranges == was.ranges && e.index == was.index)
          || (e.index == e.max && |e.ranges| == |was.ranges| + 1 && e.ranges[..|was.ranges|] == was.ranges
              && e.ranges[|was.ranges|].from == was.index && e.ranges[|was.ranges|].to == e.max)
    requires total < TWO31 ==> 0 <= was.index <= was.max == total && Forward(was.ranges)
    requires total >= TWO31 && |was.ranges| == n ==> !Forward(was.ranges)
    requires |was.ranges| <= n && (|was.ranges| == n ==> was.index == was.max)
    ensures total + servers < TWO31 ==> 0 <= e.index <= e.max == total + servers && Forward(e.ranges)
    ensures total + servers >= TWO31 && |e.ranges| == n + 1 ==> !Forward(e.ranges)
  {
    hide Wrap32, Forward;
    ForwardByOne(was.ranges, e.ranges);
    if total < TWO31 <= total + servers {
      WrapBeyond(total + servers);
    }
  }

  lemma ForwardByOne(a: seq<Range>, b: seq<Range>)
    requires a == b || (|b| == |a| + 1 && b[..|a|] == a)
    ensures Forward(b) <==> Forward(a) && (|b| == |a| || b[|a|].from <= b[|a|].to)
  {
    assert forall i :: 0 <= i < |a| ==> a[i] == b[i];
  }

  /** For pools of no negative size whose templates all render, the ranges tile, and they tile the servers,
      exactly when the servers fit 32 bits; where they fit, the ranges tile whatever fails. */
  lemma RangesTileTheServers(name: string, domain: string, pools: seq<Pool>, render: TemplateValues -> Option<string>)
    requires FewServers(pools)
    ensures var e := Emit(name, domain, pools, render);
      && (Total(pools) < TWO31 ==> Covered(e.ranges) == Numbers(0, e.index))
      && (|e.ranges| == |pools| ==> (e.index >= 0 && Covered(e.ranges) == Numbers(0, e.index) <==> Total(pools) < TWO31))
      && (|e.ranges| == |pools| ==> (e.index == Total(pools) <==> Total(pools) < TWO31))
  {
    ForwardWhileItFits(name, domain, pools, render);
    RangesTile(name, domain, pools, render);
    EmittedAreChained(name, domain, pools, render);
    RangesReachAPool(name, domain, pools, render);
    hide Emit, Covered, Numbers, Forward;
  }
}
