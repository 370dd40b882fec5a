/**
 The version stamps that decide which of two writes to an external record wins,
 and a store that refuses stale writes. Instants are nanoseconds since the epoch.
 */
module EntityVersions {
  import opened Prelude

  datatype Version = Version(createdAt: int, versionNo: int)

  /** `time.Time.UnixMilli`: the instant rounded down to milliseconds. */
  function UnixMilli(nanos: int): int {
    nanos / 1_000_000
  }

  function CompareInt(a: int, b: int): int {
    if a < b then -1 else if a > b then 1 else 0
  }

  /** `EntityVersion.Compare`. */
  function Compare(v: Version, o: Version): int {
    var c := CompareInt(UnixMilli(v.createdAt), UnixMilli(o.createdAt));
    if c != 0 then c else CompareInt(v.versionNo, o.versionNo)
  }

  /** `IsStale`. */
  predicate IsStale(incoming: Option<Version>, stored: Option<Version>) {
    incoming.Some? && stored.Some? && Compare(incoming.value, stored.value) < 0
  }

  /** Compare orders all stamps: total, antisymmetric in sign, transitive. */
  lemma CompareIsTotalPreorder(a: Version, b: Version, c: Version)
    ensures Compare(a, a) == 0
    ensures Compare(a, b) == -Compare(b, a)
    ensures Compare(a, b) <= 0 && Compare(b, c) <= 0 ==> Compare(a, c) <= 0
    ensures Compare(a, b) < 0 && Compare(b, c) <= 0 ==> Compare(a, c) < 0
    ensures Compare(a, b) <= 0 && Compare(b, c) < 0 ==> Compare(a, c) < 0
  {
  }

  /**
   Two stamps compare equal exactly when they share their number and differ in the digits below the millisecond
   only; then they compare alike with every stamp.
   */
  lemma SubMillisecondsDoNotCount(v: Version, o: Version, w: Version)
    ensures Compare(v, o) == 0 <==>
            v.versionNo == o.versionNo && 0 <= v.createdAt - 1_000_000 * UnixMilli(o.createdAt) < 1_000_000
    ensures Compare(v, o) == 0 ==> Compare(v, w) == Compare(o, w) && Compare(w, v) == Compare(w, o)
  {
    assert v.createdAt == 1_000_000 * UnixMilli(v.createdAt) + v.createdAt % 1_000_000;
  }

  /** A re-created entity, whose version number restarts, still comes after its predecessor. */
  lemma RecreatedIsNewer(old_: Version, new_: Version)
    requires UnixMilli(new_.createdAt) > UnixMilli(old_.createdAt)
    ensures Compare(new_, old_) > 0 && !IsStale(Some(new_), Some(old_)) && IsStale(Some(old_), Some(new_))
  {
  }

  /** At the same millisecond the greater number is newer. */
  lemma GreaterNumbersAreNewer(v: Version, o: Version)
    requires UnixMilli(v.createdAt) == UnixMilli(o.createdAt) && v.versionNo > o.versionNo
    ensures Compare(v, o) == 1 && Compare(o, v) == -1
    ensures !IsStale(Some(v), Some(o)) && IsStale(Some(o), Some(v))
  {
  }

  /** An equal stamp is not stale, and neither is anything without a stamp on both sides. */
  lemma OnlyOlderIsStale(v: Version, o: Version)
    ensures IsStale(Some(v), Some(o)) <==>
            || v.createdAt / 1_000_000 < o.createdAt / 1_000_000
            || (v.createdAt / 1_000_000 == o.createdAt / 1_000_000 && v.versionNo < o.versionNo)
    ensures !IsStale(None, Some(o)) && !IsStale(Some(v), None) && !IsStale(None, None)
  {
  }

  // -------------------------------------------------- a store that refuses stale writes

  /** A delivery of an entity's content, which may carry no stamp. */
  datatype Delivery = Delivery(stamp: Option<Version>, content: string)

  /** An external record: what it was last written with; none before the first write. */
  type Record = Option<Delivery>

  function StampOf(r: Record): Option<Version> {
    if r.Some? then r.value.stamp else None
  }

  /** Write unless stale. */
  function Write(r: Record, d: Delivery): Record {
    if IsStale(d.stamp, StampOf(r)) then r else Some(d)
  }

  function WriteAll(r: Record, ds: seq<Delivery>): Record {
    if ds == [] then r else Write(WriteAll(r, ds[..|ds| - 1]), ds[|ds| - 1])
  }

  predicate AtLeast(stamp: Option<Version>, v: Version) {
    stamp.Some? && Compare(stamp.value, v) >= 0
  }

  ghost predicate Stamped(ds: seq<Delivery>) {
    forall i :: 0 <= i < |ds| ==> ds[i].stamp.Some?
  }

  /**
   A write keeps the stored stamp from falling if and only if it carries a stamp itself, which the record then
   has at least.
   */
  lemma WriteNeverLowers(r: Record, d: Delivery)
    ensures StampOf(r).Some? ==> (AtLeast(StampOf(Write(r, d)), StampOf(r).value) <==> d.stamp.Some?)
    ensures d.stamp.Some? ==> AtLeast(StampOf(Write(r, d)), d.stamp.value)
  {
  }

  /** From any point of a run on, stamped writes never lower the stamp. */
  lemma {:induction false} StampNeverFalls(r: Record, ds: seq<Delivery>, k: nat)
    requires k <= |ds| && Stamped(ds[k..]) && StampOf(WriteAll(r, ds[..k])).Some?
    ensures AtLeast(StampOf(WriteAll(r, ds)), StampOf(WriteAll(r, ds[..k])).value)
    decreases |ds|
  {
    if k == |ds| {
      assert ds[..k] == ds;
    } else {
      var n := |ds| - 1;
      assert ds[..n][..k] == ds[..k];
      assert forall i :: 0 <= i < n - k ==> ds[..n][k..][i] == ds[k..][i];
      StampNeverFalls(r, ds[..n], k);
      assert ds[n] == ds[k..][n - k];
      KeepsAtLeast(WriteAll(r, ds[..n]), ds[n], StampOf(WriteAll(r, ds[..k])).value);
    }
  }

  lemma KeepsAtLeast(r: Record, d: Delivery, v: Version)
    requires AtLeast(StampOf(r), v) && d.stamp.Some?
    ensures AtLeast(StampOf(Write(r, d)), v)
  {
  }

  /** An unstamped write makes the record forget: what follows is written as on an empty record. */
  lemma {:induction false} UnstampedForgets(r: Record, before: seq<Delivery>, u: Delivery, after: seq<Delivery>)
    requires u.stamp.None?
    ensures WriteAll(r, before + [u] + after) == if after == [] then Some(u) else WriteAll(None, after)
  {
    var all := before + [u] + after;
    if after == [] {
      assert all == before + [u];
      assert all[..|before|] == before;
    } else {
      var n := |after| - 1;
      UnstampedForgets(r, before, u, after[..n]);
      assert all[..|all| - 1] == before + [u] + after[..n];
    }
  }

  /** At i an unstamped delivery, and after it no stamp above v. */
  ghost predicate OpensFor(mid: seq<Delivery>, v: Version, i: nat) {
    i < |mid| && mid[i].stamp.None? && forall j :: i < j < |mid| && mid[j].stamp.Some? ==>
                                                     Compare(mid[j].stamp.value, v) <= 0
  }

  /**
   A write that is stale against the stored stamp gets through after further
   deliveries if and only if one of them was unstamped and none after that one
   carried a greater stamp.
   */
  lemma {:induction false} StaleGetsThrough(stored: Delivery, mid: seq<Delivery>, d: Delivery)
    requires stored.stamp.Some? && d.stamp.Some? && IsStale(d.stamp, stored.stamp)
    ensures !IsStale(d.stamp, StampOf(WriteAll(Some(stored), mid))) <==> exists i :: OpensFor(mid, d.stamp.value, i)
  {
    var v := d.stamp.value;
    if mid != [] {
      var n := |mid| - 1;
      var front, last := mid[..n], mid[n];
      StaleGetsThrough(stored, front, d);
      if last.stamp.None? {
        assert OpensFor(mid, v, n);
      } else if Compare(last.stamp.value, v) <= 0 {
        if i :| OpensFor(front, v, i) {
          assert OpensFor(mid, v, i);
        }
        if i :| OpensFor(mid, v, i) {
          assert OpensFor(front, v, i);
        }
      }
    }
  }

  /** i is the delivery that wins: no stamp is greater, and every later one is smaller. */
  ghost predicate IsLastGreatest(ds: seq<Delivery>, i: nat)
    requires Stamped(ds)
  {
    && i < |ds|
    && (forall j :: 0 <= j < |ds| ==> Compare(ds[j].stamp.value, ds[i].stamp.value) <= 0)
    && (forall j :: i < j < |ds| ==> Compare(ds[j].stamp.value, ds[i].stamp.value) < 0)
  }

  /** An empty record ends with the last delivery that has the greatest stamp. */
  lemma {:induction false} LastGreatestWins(ds: seq<Delivery>) returns (i: nat)
    requires ds != [] && Stamped(ds)
    ensures IsLastGreatest(ds, i) && WriteAll(None, ds) == Some(ds[i])
  {
    var n := |ds| - 1;
    var rest, last := ds[..n], ds[n];
    if rest == [] {
      i := 0;
    } else {
      i := LastGreatestWins(rest);
      assert forall j :: 0 <= j < n ==> rest[j] == ds[j];
      if Compare(last.stamp.value, ds[i].stamp.value) >= 0 {
        forall j | 0 <= j < n ensures Compare(ds[j].stamp.value, last.stamp.value) <= 0 {
          CompareIsTotalPreorder(ds[j].stamp.value, ds[i].stamp.value, last.stamp.value);
          CompareIsTotalPreorder(last.stamp.value, ds[i].stamp.value, last.stamp.value);
        }
        i := n;
      }
    }
  }

  ghost predicate Carries(ds: seq<Delivery>, stamp: Version) {
    exists j :: 0 <= j < |ds| && ds[j].stamp == Some(stamp)
  }

  /** The same stamps, in any order and with any repetition. */
  ghost predicate SameStamps(a: seq<Delivery>, b: seq<Delivery>)
    requires Stamped(a) && Stamped(b)
  {
    && (forall i :: 0 <= i < |a| ==> Carries(b, a[i].stamp.value))
    && (forall j :: 0 <= j < |b| ==> Carries(a, b[j].stamp.value))
  }

  lemma GreatestBounds(ds: seq<Delivery>, i: nat, stamp: Version)
    requires Stamped(ds) && IsLastGreatest(ds, i) && Carries(ds, stamp)
    ensures Compare(stamp, ds[i].stamp.value) <= 0
  {
    var j :| 0 <= j < |ds| && ds[j].stamp == Some(stamp);
  }

  /** All orders and repetitions of the same stamped deliveries converge to equal stamps. */
  lemma OrdersConverge(a: seq<Delivery>, b: seq<Delivery>)
    requires Stamped(a) && Stamped(b) && SameStamps(a, b) && |a| > 0
    ensures StampOf(WriteAll(None, a)).Some? && StampOf(WriteAll(None, b)).Some?
    ensures Compare(StampOf(WriteAll(None, a)).value, StampOf(WriteAll(None, b)).value) == 0
  {
    assert Carries(b, a[0].stamp.value);
    var i := LastGreatestWins(a);
    var j := LastGreatestWins(b);
    GreatestBounds(a, i, b[j].stamp.value);
    GreatestBounds(b, j, a[i].stamp.value);
    CompareIsTotalPreorder(a[i].stamp.value, b[j].stamp.value, a[i].stamp.value);
  }
}
