/** The DirectPV drive object: finalizers that stand for volumes, labels, and error conditions. */
module Drive {
  import opened Text
  import opened Label

  const DATA_PROTECTION := "directpv.min.io/data-protection"
  const VOLUME_PREFIX := "directpv.min.io.volume/"
  const NODE_LABEL_KEY := "directpv.min.io/node"
  const DRIVE_NAME_LABEL_KEY := "directpv.min.io/drive-name"
  const ACCESS_TIER_LABEL_KEY := "directpv.min.io/access-tier"

  // ---------------------------------------------------------------- what the finalizers stand for

  /** Whether the drive still carries its own finalizer, and the volumes on it. */
  datatype Kept = Kept(protected: bool, volumes: seq<string>)

  datatype Op = Add(volume: string) | Remove(volume: string) | Reset | RemoveAll

  function Without(s: seq<string>, x: string): seq<string> {
    if s == [] then []
    else
      var init, last := s[..|s| - 1], s[|s| - 1];
      if last == x then Without(init, x) else Without(init, x) + [last]
  }

  function Next(k: Kept, op: Op): Kept {
    match op
    case Add(v) => if v in k.volumes then k else k.(volumes := k.volumes + [v])
    case Remove(v) => k.(volumes := Without(k.volumes, v))
    case Reset => Kept(true, [])
    case RemoveAll => if k == Kept(true, []) then Kept(false, []) else k
  }

  function Encoded(k: Kept): (s: seq<string>)
    ensures |s| == |k.volumes| + if k.protected then 1 else 0
  {
    (if k.protected then [DATA_PROTECTION] else [])
    + seq(|k.volumes|, i requires 0 <= i < |k.volumes| => VOLUME_PREFIX + k.volumes[i])
  }

  lemma PrefixesDiffer()
    ensures !(VOLUME_PREFIX <= DATA_PROTECTION)
    ensures forall v, w :: VOLUME_PREFIX + v == VOLUME_PREFIX + w ==> v == w
  {
    assert VOLUME_PREFIX[15] == '.' && DATA_PROTECTION[15] == '/';
    forall v, w | VOLUME_PREFIX + v == VOLUME_PREFIX + w ensures v == w {
      assert (VOLUME_PREFIX + v)[|VOLUME_PREFIX|..] == v;
      assert (VOLUME_PREFIX + w)[|VOLUME_PREFIX|..] == w;
    }
  }

  lemma EncodedHolds(k: Kept, v: string)
    ensures VOLUME_PREFIX + v in Encoded(k) <==> v in k.volumes
  {
    PrefixesDiffer();
    assert VOLUME_PREFIX + v != DATA_PROTECTION by { assert VOLUME_PREFIX <= VOLUME_PREFIX + v; }
    var o := if k.protected then 1 else 0;
    assert forall i :: 0 <= i < |k.volumes| ==> Encoded(k)[o + i] == VOLUME_PREFIX + k.volumes[i];
    if v in k.volumes {
      var i :| 0 <= i < |k.volumes| && k.volumes[i] == v;
      assert Encoded(k)[o + i] == VOLUME_PREFIX + v;
    }
  }

  lemma EncodedSnoc(k: Kept, vs: seq<string>, v: string)
    ensures Encoded(k.(volumes := vs + [v])) == Encoded(k.(volumes := vs)) + [VOLUME_PREFIX + v]
  {
  }

  lemma WithoutSnoc(s: seq<string>, y: string, x: string)
    ensures Without(s + [y], x) == if y == x then Without(s, x) else Without(s, x) + [y]
  {
    assert (s + [y])[..|s|] == s;
  }

  lemma {:induction false} EncodedWithout(k: Kept, v: string)
    ensures Without(Encoded(k), VOLUME_PREFIX + v) == Encoded(k.(volumes := Without(k.volumes, v)))
    decreases |k.volumes|
  {
    PrefixesDiffer();
    if k.volumes == [] {
      assert VOLUME_PREFIX + v != DATA_PROTECTION by { assert VOLUME_PREFIX <= VOLUME_PREFIX + v; }
      assert k.protected ==> Encoded(k) == [] + [DATA_PROTECTION];
      WithoutSnoc([], DATA_PROTECTION, VOLUME_PREFIX + v);
      assert Without(Encoded(k), VOLUME_PREFIX + v) == Encoded(k);
    } else {
      hide Encoded, Without;
      var init, last := k.volumes[..|k.volumes| - 1], k.volumes[|k.volumes| - 1];
      assert k.volumes == init + [last];
      EncodedWithout(k.(volumes := init), v);
      EncodedSnoc(k, init, last);
      WithoutSnoc(Encoded(k.(volumes := init)), VOLUME_PREFIX + last, VOLUME_PREFIX + v);
      WithoutSnoc(init, last, v);
      EncodedSnoc(k, Without(init, v), last);
    }
  }

  lemma {:induction false} WithoutHolds(s: seq<string>, x: string, y: string)
    ensures y in Without(s, x) <==> y in s && y != x
  {
    if s != [] {
      WithoutHolds(s[..|s| - 1], x, y);
      assert s == s[..|s| - 1] + [s[|s| - 1]];
    }
  }

  lemma NothingWithout(x: string)
    ensures Without([], x) == []
  {
  }

  lemma {:induction false} WithoutAbsent(s: seq<string>, x: string)
    requires x !in s
    ensures Without(s, x) == s
  {
    if s != [] {
      WithoutAbsent(s[..|s| - 1], x);
    }
  }

  /** What is left stands in the order it had. */
  lemma {:induction false} WithoutKeepsOrder(s: seq<string>, x: string, i: nat, j: nat)
    requires i < j < |Without(s, x)|
    ensures exists a, b :: 0 <= a < b < |s| && s[a] == Without(s, x)[i] && s[b] == Without(s, x)[j]
  {
    var init, last := s[..|s| - 1], s[|s| - 1];
    if j < |Without(init, x)| {
      WithoutKeepsOrder(init, x, i, j);
      var a, b :| 0 <= a < b < |init| && init[a] == Without(init, x)[i] && init[b] == Without(init, x)[j];
      assert s[a] == init[a] && s[b] == init[b];
    } else {
      WithoutHolds(init, x, Without(init, x)[i]);
      var a :| 0 <= a < |init| && init[a] == Without(init, x)[i];
      assert s[a] == init[a];
    }
  }

  lemma NextKeepsDistinct(k: Kept, op: Op)
    requires Distinct(k.volumes)
    ensures Distinct(Next(k, op).volumes)
  {
    if op.Remove? {
      var w := Without(k.volumes, op.volume);
      forall i, j | 0 <= i < j < |w| ensures w[i] != w[j] {
        WithoutKeepsOrder(k.volumes, op.volume, i, j);
      }
    }
  }

  // ---------------------------------------------------------------- conditions

  /** A condition; its status is always true. Times are those of one clock. */
  datatype Condition = Condition(typ: string, reason: string, message: string, time: int)

  predicate Known(t: string) {
    t == "MountError" || t == "MultipleMatches" || t == "IOError" || t == "RelabelError"
  }

  function Where(conds: seq<Condition>, t: string): (i: nat)
    ensures i <= |conds|
    ensures forall j :: 0 <= j < i ==> conds[j].typ != t
    ensures i < |conds| ==> conds[i].typ == t
  {
    if conds == [] then 0
    else if conds[0].typ == t then 0
    else
      var r := Where(conds[1..], t);
      assert forall j :: 1 <= j < r + 1 ==> conds[j] == conds[1..][j - 1];
      r + 1
  }

  function Upsert(conds: seq<Condition>, c: Condition): seq<Condition> {
    var i := Where(conds, c.typ);
    if i < |conds| then conds[i := c] else conds + [c]
  }

  /** The condition a search for the latest one ends with: the first of those of maximal time. */
  ghost predicate LatestAt(conds: seq<Condition>, i: int) {
    && 0 <= i < |conds| && Known(conds[i].typ)
    && (forall j :: 0 <= j < i && Known(conds[j].typ) ==> conds[j].time < conds[i].time)
    && (forall j :: i < j < |conds| && Known(conds[j].typ) ==> conds[j].time <= conds[i].time)
  }

  // ---------------------------------------------------------------- the object

  class DirectPVDrive {
    var finalizers: seq<string>
    var labels: Option<map<string, string>>
    var conditions: seq<Condition>
    ghost var kept: Kept

    ghost predicate Valid()
      reads this
    {
      finalizers == Encoded(kept) && Distinct(kept.volumes)
    }

    /** NewDirectPVDrive: the labels are stored as they are given. */
    constructor (conds: seq<Condition>, nodeID: string, driveName: string, accessTier: string)
      ensures Valid() && kept == NEW_DRIVE && finalizers == ["directpv.min.io/data-protection"]
      ensures labels == Some(map[
        "directpv.min.io/node" := nodeID, "directpv.min.io/drive-name" := driveName,
        "directpv.min.io/access-tier" := accessTier, "directpv.min.io/version" := "v1beta1",
        "directpv.min.io/created-by" := "directpv-driver"])
      ensures conditions == conds
    {
      finalizers := [DATA_PROTECTION];
      labels := Some(map[
        NODE_LABEL_KEY := nodeID, DRIVE_NAME_LABEL_KEY := driveName, ACCESS_TIER_LABEL_KEY := accessTier,
        "directpv.min.io/version" := "v1beta1", "directpv.min.io/created-by" := "directpv-driver"]);
      conditions := conds;
      kept := Kept(true, []);
    }

    method GetVolumeCount() returns (n: int)
      requires Valid()
      ensures n == |kept.volumes| - (if kept.protected then 0 else 1)
    {
      return |finalizers| - 1;
    }

    method VolumeExist(volume: string) returns (exist: bool)
      requires Valid()
      ensures exist <==> volume in kept.volumes
    {
      EncodedHolds(kept, volume);
      for i := 0 to |finalizers|
        invariant forall j :: 0 <= j < i ==> finalizers[j] != VOLUME_PREFIX + volume
      {
        if finalizers[i] == VOLUME_PREFIX + volume {
          return true;
        }
      }
      return false;
    }

    method GetVolumes() returns (names: seq<string>)
      requires Valid()
      ensures names == kept.volumes
    {
      PrefixesDiffer();
      names := [];
      ghost var o := if kept.protected then 1 else 0;
      assert forall i :: o <= i < |finalizers| ==> finalizers[i] == VOLUME_PREFIX + kept.volumes[i - o];
      for i := 0 to |finalizers|
        invariant names == if i < o then [] else kept.volumes[..i - o]
      {
        var finalizer := finalizers[i];
        if VOLUME_PREFIX <= finalizer {
          names := names + [finalizer[|VOLUME_PREFIX|..]];
        }
      }
    }

    method ResetFinalizers()
      requires Valid()
      modifies this`finalizers, this`kept
      ensures Valid() && kept == Next(old(kept), Reset)
      ensures finalizers == ["directpv.min.io/data-protection"]
    {
      finalizers := [DATA_PROTECTION];
      kept := Kept(true, []);
    }

    method RemoveFinalizers() returns (removed: bool)
      requires Valid()
      modifies this`finalizers, this`kept
      ensures Valid() && kept == Next(old(kept), RemoveAll)
      ensures removed <==> old(kept).protected && old(kept).volumes == []
      ensures removed <==> old(finalizers) == ["directpv.min.io/data-protection"]
      ensures finalizers == if removed then [] else old(finalizers)
    {
      AloneMeansEmpty(kept);
      if |finalizers| == 1 && finalizers[0] == DATA_PROTECTION {
        finalizers := [];
        kept := Kept(false, []);
        return true;
      }
      return false;
    }

    method AddVolumeFinalizer(volume: string) returns (added: bool)
      requires Valid()
      modifies this`finalizers, this`kept
      ensures Valid() && kept == Next(old(kept), Add(volume))
      ensures added <==> volume !in old(kept).volumes
      ensures finalizers == old(finalizers) + if added then ["directpv.min.io.volume/" + volume] else []
    {
      EncodedHolds(kept, volume);
      var value := VOLUME_PREFIX + volume;
      for i := 0 to |finalizers|
        invariant forall j :: 0 <= j < i ==> finalizers[j] != value
      {
        if finalizers[i] == value {
          return false;
        }
      }
      NextKeepsDistinct(kept, Add(volume));
      finalizers := finalizers + [value];
      kept := Next(kept, Add(volume));
      return true;
    }

    method RemoveVolumeFinalizer(volume: string) returns (found: bool)
      requires Valid()
      modifies this`finalizers, this`kept
      ensures Valid() && kept == Next(old(kept), Remove(volume))
      ensures found <==> volume in old(kept).volumes
      ensures found <==> "directpv.min.io.volume/" + volume in old(finalizers)
      ensures "directpv.min.io.volume/" + volume !in finalizers
    {
      hide Encoded, Without;
      var value := VOLUME_PREFIX + volume;
      var left := [];
      found := false;
      NothingWithout(value);
      for i := 0 to |finalizers|
        invariant finalizers == old(finalizers) && kept == old(kept)
        invariant left == Without(finalizers[..i], value)
        invariant found <==> value in finalizers[..i]
      {
        assert finalizers[..i + 1] == finalizers[..i] + [finalizers[i]];
        WithoutSnoc(finalizers[..i], finalizers[i], value);
        if finalizers[i] == value {
          found := true;
        } else {
          left := left + [finalizers[i]];
        }
      }
      assert finalizers[..|finalizers|] == finalizers;
      EncodedHolds(kept, volume);
      EncodedWithout(kept, volume);
      NextKeepsDistinct(kept, Remove(volume));
      WithoutHolds(finalizers, value, value);
      if found {
        finalizers := left;
      } else {
        WithoutAbsent(finalizers, value);
      }
      kept := Next(kept, Remove(volume));
    }

    ghost function LabelMap(): map<string, string>
      reads this
    {
      if labels.None? then map[] else labels.value
    }

    /** GetLabels: an absent map becomes an empty one. */
    method GetLabels() returns (values: map<string, string>)
      modifies this`labels
      ensures labels == Some(values) && values == old(LabelMap())
    {
      if labels.None? {
        labels := Some(map[]);
      }
      return labels.value;
    }

    /** getLabel, on a copy of the drive. */
    method GetLabel(key: string) returns (value: string)
      ensures value == LabelOf(if key in LabelMap() then LabelMap()[key] else "")
    {
      var values := if labels.None? then map[] else labels.value;
      value := ToLabelValue(if key in values then values[key] else "");
    }

    method SetLabel(key: string, value: string) returns (changed: bool)
      modifies this`labels
      ensures LabelMap() == old(LabelMap())[key := value]
      ensures changed <==> LabelMap() != old(LabelMap())
    {
      var values := GetLabels();
      if key in values && values[key] == value {
        return false;
      }
      labels := Some(values[key := value]);
      assert LabelMap()[key] == value;
      return true;
    }

    method RemoveLabel(key: string) returns (found: bool)
      modifies this`labels
      ensures LabelMap() == old(LabelMap()) - {key}
      ensures found <==> key in old(LabelMap())
    {
      var values := GetLabels();
      found := key in values;
      labels := Some(values - {key});
    }

    method SetDriveName(name: string)
      modifies this`labels
      ensures LabelMap() == old(LabelMap())["directpv.min.io/drive-name" := LabelOf(name)]
    {
      var value := ToLabelValue(name);
      var _ := SetLabel(DRIVE_NAME_LABEL_KEY, value);
    }

    method GetDriveName() returns (name: string)
      ensures var key := "directpv.min.io/drive-name"; name == LabelOf(if key in LabelMap() then LabelMap()[key] else "")
    {
      name := GetLabel(DRIVE_NAME_LABEL_KEY);
    }

    method SetNodeID(name: string)
      modifies this`labels
      ensures LabelMap() == old(LabelMap())["directpv.min.io/node" := LabelOf(name)]
    {
      var value := ToLabelValue(name);
      var _ := SetLabel(NODE_LABEL_KEY, value);
    }

    method GetNodeID() returns (name: string)
      ensures var key := "directpv.min.io/node"; name == LabelOf(if key in LabelMap() then LabelMap()[key] else "")
    {
      name := GetLabel(NODE_LABEL_KEY);
    }

    /** setErrorCondition: the clock's reading is a parameter. */
    method SetErrorCondition(errType: string, reason: string, message: string, now: int)
      modifies this`conditions
      ensures conditions == Upsert(old(conditions), Condition(errType, reason, message, now))
    {
      var c := Condition(errType, reason, message, now);
      var updated := false;
      var i := 0;
      while i < |conditions|
        invariant 0 <= i <= |conditions| && !updated && conditions == old(conditions)
        invariant forall j :: 0 <= j < i ==> conditions[j].typ != errType
      {
        if conditions[i].typ == errType {
          conditions := conditions[i := c];
          updated := true;
          break;
        }
        i := i + 1;
      }
      if !updated {
        conditions := conditions + [c];
      }
    }

    method SetMountErrorCondition(message: string, now: int)
      modifies this`conditions
      ensures conditions == Upsert(old(conditions), Condition("MountError", "DriveHasMountError", message, now))
    {
      SetErrorCondition("MountError", "DriveHasMountError", message, now);
    }

    method SetMultipleMatchesErrorCondition(message: string, now: int)
      modifies this`conditions
      ensures conditions == Upsert(old(conditions), Condition("MultipleMatches", "DriveHasMultipleMatches", message, now))
    {
      SetErrorCondition("MultipleMatches", "DriveHasMultipleMatches", message, now);
    }

    method SetIOErrorCondition(now: int)
      modifies this`conditions
      ensures conditions == Upsert(old(conditions), Condition("IOError", "DriveHasIOError", "Drive has I/O error", now))
    {
      SetErrorCondition("IOError", "DriveHasIOError", "Drive has I/O error", now);
    }

    method SetRelabelErrorCondition(message: string, now: int)
      modifies this`conditions
      ensures conditions == Upsert(old(conditions), Condition("RelabelError", "DriveHasRelabelError", message, now))
    {
      SetErrorCondition("RelabelError", "DriveHasRelabelError", message, now);
    }

    method GetLatestErrorConditionType() returns (errType: string)
      ensures errType in ["", "MountError", "MultipleMatches", "IOError", "RelabelError"]
      ensures errType == "" <==> forall i :: 0 <= i < |conditions| ==>
        conditions[i].typ !in ["MountError", "MultipleMatches", "IOError", "RelabelError"]
      ensures errType != "" ==> exists i :: LatestAt(conditions, i) && conditions[i].typ == errType
      ensures forall i :: LatestAt(conditions, i) ==> errType == conditions[i].typ
    {
      var latest := -1;
      for i := 0 to |conditions|
        invariant -1 <= latest < i
        invariant latest == -1 ==> forall j :: 0 <= j < i ==> !Known(conditions[j].typ)
        invariant latest >= 0 ==> LatestAt(conditions[..i], latest)
      {
        if Known(conditions[i].typ) {
          if latest == -1 || conditions[i].time > conditions[latest].time {
            latest := i;
          }
        }
      }
      assert conditions[..|conditions|] == conditions;
      errType := if latest == -1 then "" else conditions[latest].typ;
      forall i | LatestAt(conditions, i) ensures errType == conditions[i].typ {
        LatestIsOne(conditions, i, latest);
      }
    }
  }

  lemma AloneMeansEmpty(k: Kept)
    ensures |Encoded(k)| == 1 && Encoded(k)[0] == DATA_PROTECTION <==> k.protected && k.volumes == []
  {
    PrefixesDiffer();
    if !k.protected && |k.volumes| == 1 {
      assert VOLUME_PREFIX <= VOLUME_PREFIX + k.volumes[0] == Encoded(k)[0];
    }
  }

  // ---------------------------------------------------------------- runs of finalizer calls

  ghost function Run(k: Kept, ops: seq<Op>): Kept {
    if ops == [] then k else Next(Run(k, ops[..|ops| - 1]), ops[|ops| - 1])
  }

  const NEW_DRIVE := Kept(true, [])

  /** What the calls say about one volume: the last that names it, or clears all, decides. */
  ghost function LastSays(v: string, ops: seq<Op>): bool {
    if ops == [] then false
    else
      var init := ops[..|ops| - 1];
      match ops[|ops| - 1]
      case Add(u) => u == v || LastSays(v, init)
      case Remove(u) => u != v && LastSays(v, init)
      case Reset => false
      case RemoveAll => LastSays(v, init)
  }

  /** The volumes after a run are those the last relevant call put there, once each. */
  lemma {:induction false} VolumesAfterRun(ops: seq<Op>, v: string)
    ensures Distinct(Run(NEW_DRIVE, ops).volumes)
    ensures v in Run(NEW_DRIVE, ops).volumes <==> LastSays(v, ops)
  {
    if ops != [] {
      var init, op := ops[..|ops| - 1], ops[|ops| - 1];
      VolumesAfterRun(init, v);
      NextKeepsDistinct(Run(NEW_DRIVE, init), op);
      if op.Remove? {
        WithoutHolds(Run(NEW_DRIVE, init).volumes, op.volume, v);
      }
    }
  }

  /** The call since which a volume has been on the drive without a break. */
  ghost function OnSince(v: string, ops: seq<Op>): (n: nat)
    requires v in Run(NEW_DRIVE, ops).volumes
    ensures 0 < n <= |ops|
  {
    var init := ops[..|ops| - 1];
    assert ops != [];
    if v in Run(NEW_DRIVE, init).volumes then OnSince(v, init) else |ops|
  }

  /** Volumes are listed in the order they came. */
  lemma {:induction false} VolumesInOrderOfArrival(ops: seq<Op>, i: nat, j: nat)
    requires i < j < |Run(NEW_DRIVE, ops).volumes|
    ensures var vs := Run(NEW_DRIVE, ops).volumes; OnSince(vs[i], ops) < OnSince(vs[j], ops)
  {
    var init, op := ops[..|ops| - 1], ops[|ops| - 1];
    var was, now := Run(NEW_DRIVE, init).volumes, Run(NEW_DRIVE, ops).volumes;
    if op.Remove? {
      WithoutKeepsOrder(was, op.volume, i, j);
      var a, b :| 0 <= a < b < |was| && was[a] == now[i] && was[b] == now[j];
      VolumesInOrderOfArrival(init, a, b);
    } else if j < |was| {
      VolumesInOrderOfArrival(init, i, j);
    } else {
      assert op == Add(now[j]) && now[i] == was[i];
    }
  }

  ghost function Resets(ops: seq<Op>): nat {
    if ops == [] then 0 else Resets(ops[..|ops| - 1]) + if ops[|ops| - 1].Reset? then 1 else 0
  }

  /** How many of the calls took the drive's own finalizer away. */
  ghost function Released(k: Kept, ops: seq<Op>): nat {
    if ops == [] then 0
    else
      var init := ops[..|ops| - 1];
      Released(k, init) + if ops[|ops| - 1].RemoveAll? && Run(k, init) == Kept(true, []) then 1 else 0
  }

  /** A drive is released at most once between resets: no other call brings its finalizer back. */
  lemma {:induction false} ReleasesNeedResets(k: Kept, ops: seq<Op>)
    ensures Released(k, ops) + (if Run(k, ops).protected then 1 else 0)
            <= Resets(ops) + (if k.protected then 1 else 0)
    ensures Resets(ops) == 0 ==>
            Released(k, ops) + (if Run(k, ops).protected then 1 else 0) == (if k.protected then 1 else 0)
  {
    if ops != [] {
      ReleasesNeedResets(k, ops[..|ops| - 1]);
    }
  }

  /** While a volume is on the drive nothing but its removal or a reset takes it off, and no call
      releases the drive. */
  lemma {:induction false} VolumesHoldTheDrive(k: Kept, ops: seq<Op>, v: string)
    requires v in k.volumes
    requires forall op :: op in ops ==> op != Remove(v) && op != Reset
    ensures v in Run(k, ops).volumes && Released(k, ops) == 0 && Run(k, ops).protected == k.protected
  {
    if ops != [] {
      var init, op := ops[..|ops| - 1], ops[|ops| - 1];
      assert op in ops && forall o :: o in init ==> o in ops;
      VolumesHoldTheDrive(k, init, v);
      if op.Remove? {
        WithoutHolds(Run(k, init).volumes, op.volume, v);
      }
    }
  }

  // ---------------------------------------------------------------- runs of condition calls

  ghost predicate OnePerType(conds: seq<Condition>) {
    forall i, j :: 0 <= i < j < |conds| ==> conds[i].typ != conds[j].typ
  }

  ghost function SetAll(conds: seq<Condition>, calls: seq<Condition>): seq<Condition> {
    if calls == [] then conds else Upsert(SetAll(conds, calls[..|calls| - 1]), calls[|calls| - 1])
  }

  /** The last call of a type, if there is one. */
  ghost function LastOf(calls: seq<Condition>, t: string): Option<Condition> {
    if calls == [] then None
    else if calls[|calls| - 1].typ == t then Some(calls[|calls| - 1])
    else LastOf(calls[..|calls| - 1], t)
  }

  /** At most one condition of each type, and that is the last one set. */
  lemma {:induction false} ConditionsAfterRun(conds: seq<Condition>, calls: seq<Condition>, c: Condition)
    requires OnePerType(conds)
    ensures OnePerType(SetAll(conds, calls))
    ensures c in SetAll(conds, calls) <==>
            LastOf(calls, c.typ) == Some(c) || (LastOf(calls, c.typ) == None && c in conds)
  {
    if calls != [] {
      var init, last := calls[..|calls| - 1], calls[|calls| - 1];
      var was := SetAll(conds, init);
      ConditionsAfterRun(conds, init, c);
      UpsertHolds(was, last, c);
    }
  }

  lemma UpsertHolds(conds: seq<Condition>, last: Condition, c: Condition)
    requires OnePerType(conds)
    ensures OnePerType(Upsert(conds, last))
    ensures c in Upsert(conds, last) <==> c == last || (c in conds && c.typ != last.typ)
  {
    var w, now := Where(conds, last.typ), Upsert(conds, last);
    assert now[w] == last;
    assert forall i :: 0 <= i < |conds| && i != w ==> now[i] == conds[i];
    if c in conds && c.typ != last.typ {
      var i :| 0 <= i < |conds| && conds[i] == c;
      assert now[i] == c;
    }
  }

  /** The clock: no call reads an earlier time than one before it, or than the conditions there were. */
  ghost predicate NonDecreasing(conds: seq<Condition>, calls: seq<Condition>) {
    && (forall c, i :: c in conds && 0 <= i < |calls| ==> c.time <= calls[i].time)
    && (forall i, j :: 0 <= i < j < |calls| ==> calls[i].time <= calls[j].time)
  }

  ghost predicate Increasing(conds: seq<Condition>, calls: seq<Condition>) {
    && (forall c, i :: c in conds && 0 <= i < |calls| ==> c.time < calls[i].time)
    && (forall i, j :: 0 <= i < j < |calls| ==> calls[i].time < calls[j].time)
  }

  /** Every condition but the last call's comes from before it. */
  lemma {:induction false} ComesFrom(conds: seq<Condition>, calls: seq<Condition>, c: Condition)
    requires c in SetAll(conds, calls)
    ensures c in conds || c in calls
  {
    if calls != [] {
      var init, last := calls[..|calls| - 1], calls[|calls| - 1];
      if c != last {
        var was, now := SetAll(conds, init), SetAll(conds, calls);
        var i :| 0 <= i < |now| && now[i] == c;
        assert c == was[i];
        ComesFrom(conds, init, c);
        assert c in init ==> c in calls;
      }
    }
  }

  lemma OthersAreEarlier(conds: seq<Condition>, calls: seq<Condition>, j: nat)
    requires calls != [] && NonDecreasing(conds, calls)
    requires j < |SetAll(conds, calls)| && SetAll(conds, calls)[j] != calls[|calls| - 1]
    ensures SetAll(conds, calls)[j].time <= calls[|calls| - 1].time
    ensures Increasing(conds, calls) ==> SetAll(conds, calls)[j].time < calls[|calls| - 1].time
  {
    ComesFrom(conds, calls, SetAll(conds, calls)[j]);
  }

  /** With a clock that never goes back, the latest error is one of those set at the time of the last
      call: the last call's own, exactly when no known condition listed before it has that time. */
  lemma LatestAfterRun(conds: seq<Condition>, calls: seq<Condition>, i: int)
    requires calls != [] && NonDecreasing(conds, calls) && Known(calls[|calls| - 1].typ)
    requires LatestAt(SetAll(conds, calls), i)
    ensures var now, last := SetAll(conds, calls), calls[|calls| - 1];
            && now[i].time == last.time
            && (now[i].typ == last.typ <==>
                forall j :: 0 <= j < Where(now, last.typ) && Known(now[j].typ) ==> now[j].time < last.time)
  {
    var now, last := SetAll(conds, calls), calls[|calls| - 1];
    var w := Where(now, last.typ);
    LastIsWhere(conds, calls);
    if now[i] != last {
      OthersAreEarlier(conds, calls, i);
    }
    assert i <= w;
  }

  lemma LastIsWhere(conds: seq<Condition>, calls: seq<Condition>)
    requires calls != []
    ensures var w := Where(SetAll(conds, calls), calls[|calls| - 1].typ);
            w < |SetAll(conds, calls)| && SetAll(conds, calls)[w] == calls[|calls| - 1]
  {
    var was, last := SetAll(conds, calls[..|calls| - 1]), calls[|calls| - 1];
    var w := Where(was, last.typ);
    assert Upsert(was, last)[w] == last;
    assert forall j :: 0 <= j < w ==> Upsert(was, last)[j] == was[j];
  }

  /** With a clock that always moves on, the latest error is the last one set. */
  lemma LatestIsLastCall(conds: seq<Condition>, calls: seq<Condition>, i: int)
    requires calls != [] && Increasing(conds, calls)
    requires calls[|calls| - 1].typ in ["MountError", "MultipleMatches", "IOError", "RelabelError"]
    requires LatestAt(SetAll(conds, calls), i)
    ensures SetAll(conds, calls)[i] == calls[|calls| - 1]
  {
    LatestAfterRun(conds, calls, i);
    if SetAll(conds, calls)[i] != calls[|calls| - 1] {
      OthersAreEarlier(conds, calls, i);
    }
  }

  /** Two errors in one tick: the first keeps the title, though the second was set later. */
  lemma TieKeepsTheFirst(t: int)
    ensures var calls := [Condition("MountError", "DriveHasMountError", "", t), Condition("IOError", "DriveHasIOError", "Drive has I/O error", t)];
            LatestAt(SetAll([], calls), 0) && SetAll([], calls)[0].typ == "MountError"
  {
    var m, o := Condition("MountError", "DriveHasMountError", "", t), Condition("IOError", "DriveHasIOError", "Drive has I/O error", t);
    UpsertIntoNone(m);
    UpsertBehind(m, o);
    hide Upsert;
    assert [m, o][..1] == [m] && [m][..0] == [];
    assert SetAll([], [m]) == [m];
    assert SetAll([], [m, o]) == [m, o];
    assert Known("MountError") && [m, o][0] == m && [m, o][1] == o;
  }

  lemma UpsertIntoNone(c: Condition)
    ensures Upsert([], c) == [c]
  {
  }

  lemma UpsertBehind(a: Condition, b: Condition)
    requires a.typ != b.typ
    ensures Upsert([a], b) == [a, b]
  {
    assert Where([a], b.typ) == 1;
    assert [a] + [b] == [a, b];
  }

  /** A search has one answer. */
  lemma LatestIsOne(conds: seq<Condition>, i: int, j: int)
    requires LatestAt(conds, i) && LatestAt(conds, j)
    ensures i == j
  {
  }

  // ---------------------------------------------------------------- names through labels

  /** What is read back after a name was set: a valid label, the name itself exactly when it was valid,
      and the same again if that is set and read back. */
  lemma SetThenGet(name: string)
    ensures var got := LabelOf(LabelOf(name));
            Valid(got) && (got == name <==> Valid(name)) && LabelOf(LabelOf(got)) == got
  {
    TwoPassesAreEnough(name);
  }
}
