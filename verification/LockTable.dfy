/** The process-wide table of reconcile mutexes and the names it is keyed by. */
module LockTable {
  import opened Text
  import opened Clusters
  import opened Protocol

  class Mutex {
    var locked: bool

    constructor ()
      ensures !locked
    {
      locked := false;
    }

    method TryLock() returns (ok: bool)
      modifies this
      ensures ok == !old(locked) && locked
    {
      ok := !locked;
      locked := true;
    }

    method Unlock()
      requires locked
      modifies this
      ensures !locked
    {
      locked := false;
    }
  }

  class Locks {
    var table: map<string, Mutex>
    /** The mutexes in the order they were made. */
    ghost var made: seq<Mutex>

    ghost predicate Valid()
      reads this
    {
      && (forall i, j :: 0 <= i < j < |made| ==> made[i] != made[j])
      && (forall n :: n in table ==> table[n] in made)
      && (forall n, m :: n in table && m in table && table[n] == table[m] ==> n == m)
    }

    /** The table and its mutexes are those of the reconcile protocol's state. */
    ghost predicate Refines(s: State)
      reads this, made
    {
      && Valid()
      && table.Keys == s.locks.Keys && |made| == |s.mutexes|
      && (forall n :: n in table ==> s.locks[n] < |made| && table[n] == made[s.locks[n]])
      && (forall m :: 0 <= m < |made| ==> (made[m].locked <==> s.mutexes[m].Some?))
    }

    constructor ()
      ensures Refines(INIT)
    {
      table := map[];
      made := [];
    }

    /** getUniqueClusterLock: the mutex of the name, made on first use. Other names keep theirs, no two
        names ever share one, and the protocol's table takes the same step. */
    method GetUniqueClusterLock(id: Ident, t: ClusterType, ghost s: State) returns (mutex: Mutex)
      requires Refines(s)
      modifies this
      ensures Refines(WithLock(s, LockName(id, t)))
      ensures mutex == made[WithLock(s, LockName(id, t)).locks[LockName(id, t)]]
      ensures LockName(id, t) in old(table) ==> mutex == old(table)[LockName(id, t)] && table == old(table)
      ensures LockName(id, t) !in old(table) ==> fresh(mutex) && !mutex.locked && table == old(table)[LockName(id, t) := mutex]
    {
      var name := LockName(id, t);
      hide LockName;
      if name !in table {
        var m := new Mutex();
        table := table[name := m];
        made := made + [m];
      }
      mutex := table[name];
    }

    /** The TryLock of outer goroutine i. */
    method TryLock(ghost s: State, ghost i: nat, mutex: Mutex) returns (ok: bool)
      requires Refines(s) && i < |s.outers| && s.outers[i].mutex < |made| && mutex == made[s.outers[i].mutex]
      modifies mutex
      ensures Refines(ApplyTryLock(s, i)) && made == old(made)
      ensures ApplyTryLock(s, i).outers[i].pc == if ok then Holding else Finished(false)
    {
      ok := mutex.TryLock();
    }

    /** Its deferred Unlock. */
    method Unlock(ghost s: State, ghost i: nat, mutex: Mutex)
      requires Refines(s) && i < |s.outers| && s.outers[i].mutex < |made| && mutex == made[s.outers[i].mutex]
      requires mutex.locked
      modifies mutex
      ensures Refines(ApplyUnlock(s, i)) && made == old(made)
    {
      mutex.Unlock();
    }
  }

  // ---------------------------------------------------------------- when two components share a mutex

  /** Where a known type name has a hyphen, two characters follow it; no known name is that short. */
  lemma HyphenInTypeName(t: ClusterType)
    requires !t.Other?
    ensures forall i :: 0 <= i < |TypeName(t)| && TypeName(t)[i] == '-' ==> |TypeName(t)| - i == 3
    ensures |TypeName(t)| > 2
  {
  }

  lemma HyphenMeetsTail(x: string, a: string, y: string, b: string)
    requires x + "-" + a == y + "-" + b && |x| < |y|
    ensures |y| - |x| <= |a| && a[|y| - |x| - 1] == '-' && |a| == |y| - |x| + |b|
  {
    var s := x + "-" + a;
    assert |s| == |y + "-" + b| == |y| + 1 + |b|;
    assert s[|y|] == (y + "-" + b)[|y|] == '-';
    assert s[|y|] == a[|y| - |x| - 1];
  }

  lemma NotShorter(x: string, t: ClusterType, y: string, u: ClusterType)
    requires !t.Other? && !u.Other?
    requires x + "-" + TypeName(t) == y + "-" + TypeName(u)
    ensures |y| <= |x|
  {
    if |x| < |y| {
      HyphenMeetsTail(x, TypeName(t), y, TypeName(u));
      HyphenInTypeName(t);
      HyphenInTypeName(u);
    }
  }

  lemma {:induction false} EqualEndsEqualTypes(x: string, t: ClusterType, y: string, u: ClusterType)
    requires !t.Other? && !u.Other?
    requires x + "-" + TypeName(t) == y + "-" + TypeName(u)
    ensures x == y && t == u
  {
    NotShorter(x, t, y, u);
    NotShorter(y, u, x, t);
    var s, r := x + "-" + TypeName(t), y + "-" + TypeName(u);
    assert x == s[..|x|] && y == r[..|x|];
    assert TypeName(t) == s[|x| + 1..] && TypeName(u) == r[|x| + 1..];
    TypeNameInjective(t, u);
  }

  lemma CancelPrefix(p: string, a: string, b: string)
    requires p + a == p + b
    ensures a == b
  {
    assert (p + a)[|p|..] == a && (p + b)[|p|..] == b;
  }

  /** Two components of known types share a mutex exactly when they have the same type and their
      namespaces and names read the same once joined by a hyphen. */
  lemma LockNamesMeet(id: Ident, t: ClusterType, jd: Ident, u: ClusterType)
    requires !t.Other? && !u.Other?
    ensures LockName(id, t) == LockName(jd, u) <==> t == u && id.ns + "-" + id.name == jd.ns + "-" + jd.name
  {
    var p := "nineinfra-";
    var x, y := id.ns + "-" + id.name, jd.ns + "-" + jd.name;
    assert LockName(id, t) == p + (x + "-" + TypeName(t));
    assert LockName(jd, u) == p + (y + "-" + TypeName(u));
    if LockName(id, t) == LockName(jd, u) {
      CancelPrefix(p, x + "-" + TypeName(t), y + "-" + TypeName(u));
      EqualEndsEqualTypes(x, t, y, u);
    }
  }

  /** The format is injective over the known types when namespaces have no hyphen. */
  lemma LockNamesInjective(id: Ident, t: ClusterType, jd: Ident, u: ClusterType)
    requires !t.Other? && !u.Other? && '-' !in id.ns && '-' !in jd.ns
    requires LockName(id, t) == LockName(jd, u)
    ensures id == jd && t == u
  {
    LockNamesMeet(id, t, jd, u);
    IndexOfConcat(id.ns, '-', id.name);
    IndexOfConcat(jd.ns, '-', jd.name);
    var s := id.ns + "-" + id.name;
    assert id.ns == s[..|id.ns|] && jd.ns == (jd.ns + "-" + jd.name)[..|jd.ns|];
    assert id.name == s[|id.ns| + 1..] && jd.name == (jd.ns + "-" + jd.name)[|jd.ns| + 1..];
  }

  /** Kubernetes namespaces may have hyphens, and then two clusters can share their mutexes. */
  lemma HyphenatedNamespacesCollide(t: ClusterType)
    ensures LockName(Ident("a-b", "c"), t) == LockName(Ident("a", "b-c"), t)
  {
    assert "nineinfra-" + "a-b" + "-" + "c" == "nineinfra-" + "a" + "-" + "b-c";
  }
}
