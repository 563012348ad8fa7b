/**
 * What a QCOW2 image is for: a flat disk of sectors, with frozen copies that can
 * be made, restored and dropped.  This is the reference the driver is held to.
 */
module QcowFlat {
  import opened Division
  import opened QcowLayout
  import opened QcowIds

  type Disk = imap<nat, Sector>

  datatype Frozen = Frozen(id: string, name: string, disk: Disk)

  datatype Flat = Flat(disk: Disk, frozen: seq<Frozen>)

  datatype Op =
    | ReadOp(s: nat, n: nat)
    | WriteOp(s: nat, buf: seq<Sector>)
    | CreateOp(id: string, name: string)
    | GotoOp(key: string)
    | DeleteOp(key: string)

  datatype Reply = Sectors(buf: seq<Sector>) | Done | NoEntry

  /** Every sector number has contents. */
  ghost predicate Whole(d: Disk) {
    forall s: nat :: s in d
  }

  /** The first copy with the given id, or the number of copies. */
  function FindId(fs: seq<Frozen>, id: string): (k: nat)
    ensures k <= |fs|
  {
    if |fs| == 0 || fs[0].id == id then 0 else 1 + FindId(fs[1..], id)
  }

  function FindName(fs: seq<Frozen>, name: string): (k: nat)
    ensures k <= |fs|
  {
    if |fs| == 0 || fs[0].name == name then 0 else 1 + FindName(fs[1..], name)
  }

  /** A copy is named by its id or else by its name. */
  function Find(fs: seq<Frozen>, key: string): (k: nat)
    ensures k <= |fs|
  {
    if FindId(fs, key) < |fs| then FindId(fs, key) else FindName(fs, key)
  }

  function IdsOf(fs: seq<Frozen>): (ids: seq<string>)
    ensures |ids| == |fs|
  {
    seq(|fs|, k requires 0 <= k < |fs| => fs[k].id)
  }

  /** The id of a new copy: the one asked for, or one made up when none is. */
  function ChosenId(fs: seq<Frozen>, id: string): string {
    if id == "" then NewId(IdsOf(fs)) else id
  }

  ghost function Written(d: Disk, s: nat, buf: seq<Sector>): Disk {
    imap x: nat | x in d :: if s <= x < s + |buf| then buf[x - s] else d[x]
  }

  ghost function ReadFrom(d: Disk, s: nat, n: nat): seq<Sector>
    requires Whole(d)
  {
    seq(n, x requires 0 <= x < n => d[s + x])
  }

  ghost predicate WholeFlat(f: Flat) {
    Whole(f.disk) && forall k: nat | k < |f.frozen| :: Whole(f.frozen[k].disk)
  }

  /** One operation on the flat disk. */
  ghost function Step(f: Flat, op: Op): (r: (Flat, Reply))
    requires WholeFlat(f)
    ensures WholeFlat(r.0)
  {
    match op
    case ReadOp(s, n) => (f, Sectors(ReadFrom(f.disk, s, n)))
    case WriteOp(s, buf) => (f.(disk := Written(f.disk, s, buf)), Done)
    case CreateOp(id, name) =>
      var i := ChosenId(f.frozen, id);
      if FindId(f.frozen, i) < |f.frozen| then (f, NoEntry)
      else (f.(frozen := f.frozen + [Frozen(i, name, f.disk)]), Done)
    case GotoOp(key) =>
      var k := Find(f.frozen, key);
      if k == |f.frozen| then (f, NoEntry) else (f.(disk := f.frozen[k].disk), Done)
    case DeleteOp(key) =>
      var k := Find(f.frozen, key);
      if k == |f.frozen| then (f, NoEntry)
      else (f.(frozen := f.frozen[..k] + f.frozen[k + 1..]), Done)
  }

  /** A whole run: the final disk and every reply. */
  ghost function RunFlat(f: Flat, ops: seq<Op>): (r: (Flat, seq<Reply>))
    requires WholeFlat(f)
    ensures WholeFlat(r.0)
    decreases |ops|
  {
    if |ops| == 0 then (f, [])
    else
      var before := RunFlat(f, ops[..|ops| - 1]);
      var last := Step(before.0, ops[|ops| - 1]);
      (last.0, before.1 + [last.1])
  }

  lemma {:induction false} FindIdFinds(fs: seq<Frozen>, id: string)
    ensures FindId(fs, id) < |fs| <==> id in IdsOf(fs)
  {
    if |fs| > 0 {
      FindIdFinds(fs[1..], id);
      assert IdsOf(fs) == [fs[0].id] + IdsOf(fs[1..]);
    }
  }

  /** A copy without an id is refused only when the numbers have run out. */
  lemma UnnamedRefused(f: Flat, name: string)
    requires WholeFlat(f)
    ensures var ids := IdsOf(f.frozen);
            Step(f, CreateOp("", name)).1 == NoEntry <==> MaxNumber(ids, |ids|) == INT_MAX && Print(INT_MIN) in ids
  {
    hide NewId, MaxNumber, Print, FindId, IdsOf;
    FindIdFinds(f.frozen, NewId(IdsOf(f.frozen)));
    NewIdTaken(IdsOf(f.frozen));
  }

  /** Take copies under the largest int and under the smallest one, then one without an id. */
  function ExhaustingRun(name: string): seq<Op> {
    [CreateOp(Decimal(INT_MAX), name), CreateOp(Print(INT_MIN), name), CreateOp("", name)]
  }

  lemma RunOne(f: Flat, op: Op)
    requires WholeFlat(f)
    ensures RunFlat(f, [op]).0 == Step(f, op).0 && RunFlat(f, [op]).1 == [Step(f, op).1]
  {
    assert [op][..0] == [];
    assert RunFlat(f, []) == (f, []);
  }

  lemma ExhaustingStart(f: Flat, name: string)
    requires WholeFlat(f) && f.frozen == []
    ensures var r := RunFlat(f, ExhaustingRun(name)[..2]);
            IdsOf(r.0.frozen) == [Decimal(INT_MAX), Print(INT_MIN)] && r.1 == [Done, Done]
  {
    hide Decimal;
    var ops := ExhaustingRun(name);
    DecimalDigits(INT_MAX);
    assert Decimal(INT_MAX)[0] != Print(INT_MIN)[0];
    assert ops[..1] == [ops[0]] && ops[..2][..1] == ops[..1];
    RunOne(f, ops[0]);
    var one := RunFlat(f, ops[..1]);
    assert FindId([], Decimal(INT_MAX)) == 0;
    assert one.0.frozen == [Frozen(Decimal(INT_MAX), name, f.disk)] && one.1 == [Done];
    FindIdFinds(one.0.frozen, Print(INT_MIN));
    assert IdsOf(one.0.frozen) == [Decimal(INT_MAX)];
  }

  /** The numbers do run out: the last copy of this run is refused. */
  lemma NumbersRunOut(f: Flat, name: string)
    requires WholeFlat(f) && f.frozen == []
    ensures RunFlat(f, ExhaustingRun(name)).1 == [Done, Done, NoEntry]
  {
    hide Decimal, Strtoul;
    var ops := ExhaustingRun(name);
    ExhaustingStart(f, name);
    var g := RunFlat(f, ops[..2]).0;
    var ids := [Decimal(INT_MAX), Print(INT_MIN)];
    ReadBack(INT_MAX);
    MaxIsMax(ids, 0, 2);
    UnnamedRefused(g, name);
  }

  lemma NothingMadeUp()
    ensures MadeUp(0) == []
  {
  }

  function Unnamed(names: seq<string>): (ops: seq<Op>)
    ensures |ops| == |names|
  {
    seq(|names|, k requires 0 <= k < |names| => CreateOp("", names[k]))
  }

  /** After copies 1 to `n`, one more without an id is taken under the next number. */
  lemma UnnamedStep(f: Flat, name: string, n: nat)
    requires WholeFlat(f) && IdsOf(f.frozen) == MadeUp(n) && n + 1 < INT_MAX
    ensures var r := Step(f, CreateOp("", name));
            r.1 == Done && IdsOf(r.0.frozen) == MadeUp(n + 1)
  {
    hide NewId, MaxNumber, Decimal, FindId;
    CountedUp(n);
    NewIdIsNew(MadeUp(n));
    FindIdFinds(f.frozen, Decimal(n + 1));
    var last := Frozen(Decimal(n + 1), name, f.disk);
    assert Step(f, CreateOp("", name)) == (f.(frozen := f.frozen + [last]), Done);
    assert IdsOf(f.frozen + [last]) == IdsOf(f.frozen) + [Decimal(n + 1)];
  }

  /** Copies made without ids, one after the other, are all taken, under the ids 1, 2, 3. */
  lemma {:induction false} UnnamedCount(f: Flat, names: seq<string>)
    requires WholeFlat(f) && f.frozen == [] && |names| < INT_MAX
    ensures var r := RunFlat(f, Unnamed(names));
            IdsOf(r.0.frozen) == MadeUp(|names|) && |r.1| == |names| && forall k: nat | k < |names| :: r.1[k] == Done
    decreases |names|
  {
    hide Step, MadeUp;
    var n := |names|;
    if n > 0 {
      UnnamedCount(f, names[..n - 1]);
      var ops, before := Unnamed(names), RunFlat(f, Unnamed(names[..n - 1])).0;
      assert ops[..n - 1] == Unnamed(names[..n - 1]) && ops[n - 1] == CreateOp("", names[n - 1]);
      UnnamedStep(before, names[n - 1], n - 1);
    } else {
      NothingMadeUp();
    }
  }

  // ---------------------------------------------------------------------------
  // How long the L1 tables are
  // ---------------------------------------------------------------------------

  /** The size that an L1 table of `n > 0` entries grows to when `min` are needed. */
  function GrownSize(n: nat, min: nat): nat
    decreases min - n
  {
    if min <= n || n == 0 then n else GrownSize((n * 3 + 1) / 2, min)
  }

  lemma {:induction false} GrownEnough(n: nat, min: nat)
    requires n > 0
    ensures GrownSize(n, min) >= n && GrownSize(n, min) >= min
    decreases min - n
  {
    if n < min { GrownEnough((n * 3 + 1) / 2, min); }
  }

  /** Growing for `a` and then for a larger `b` is growing for `b`. */
  lemma {:induction false} GrownTwice(n: nat, a: nat, b: nat)
    requires n > 0 && a <= b
    ensures GrownSize(GrownSize(n, a), b) == GrownSize(n, b)
    decreases a - n
  {
    if n < a { GrownTwice((n * 3 + 1) / 2, a, b); }
  }

  /** Entries of the active L1 table, and of each snapshot's. */
  datatype Sizes = Sizes(l1: nat, snaps: seq<nat>)

  /** Sectors per cluster and entries per table cluster. */
  datatype Geometry = Geometry(clusterSectors: nat, l2Size: nat)

  /** The L1 entry that serves guest sector `s`. */
  function L1Index(g: Geometry, s: nat): nat
    requires g.clusterSectors > 0 && g.l2Size > 0
  {
    Quot(Quot(s, g.clusterSectors), g.l2Size)
  }

  ghost predicate Fits(f: Flat, z: Sizes) {
    WholeFlat(f) && |z.snaps| == |f.frozen|
  }

  /** How one operation changes the lengths. */
  ghost function SizeStep(g: Geometry, f: Flat, z: Sizes, op: Op): (z': Sizes)
    requires g.clusterSectors > 0 && g.l2Size > 0 && Fits(f, z)
    ensures Fits(Step(f, op).0, z')
  {
    match op
    case ReadOp(_, _) => z
    case WriteOp(s, buf) => if |buf| == 0 then z else z.(l1 := GrownSize(z.l1, L1Index(g, s + |buf| - 1) + 1))
    case CreateOp(id, _) =>
      if FindId(f.frozen, ChosenId(f.frozen, id)) < |f.frozen| then z else z.(snaps := z.snaps + [z.l1])
    case GotoOp(key) =>
      var k := Find(f.frozen, key);
      if k == |f.frozen| then z else z.(l1 := z.snaps[k])
    case DeleteOp(key) =>
      var k := Find(f.frozen, key);
      if k == |f.frozen| then z else z.(snaps := z.snaps[..k] + z.snaps[k + 1..])
  }

  /**
   * Going from an L1 table of `now` entries to a snapshot's of `size` entries
   * leaves no cluster of the (possibly grown) L1 area behind.
   */
  predicate KeepsArea(l2Size: nat, size: nat, now: nat)
    requires l2Size > 0
  {
    Clusters(GrownSize(now, size), l2Size) == Clusters(size, l2Size)
  }

  ghost predicate Keeps(g: Geometry, f: Flat, z: Sizes, op: Op)
    requires g.clusterSectors > 0 && g.l2Size > 0 && Fits(f, z)
  {
    op.GotoOp? && Find(f.frozen, op.key) < |f.frozen| ==>
      KeepsArea(g.l2Size, z.snaps[Find(f.frozen, op.key)], z.l1)
  }

  ghost function RunSizes(g: Geometry, f: Flat, z: Sizes, ops: seq<Op>): (z': Sizes)
    requires g.clusterSectors > 0 && g.l2Size > 0 && Fits(f, z)
    ensures Fits(RunFlat(f, ops).0, z')
    decreases |ops|
  {
    if |ops| == 0 then z
    else
      var before := ops[..|ops| - 1];
      SizeStep(g, RunFlat(f, before).0, RunSizes(g, f, z, before), ops[|ops| - 1])
  }

  /** There are never more than `limit` copies at the start of an operation of the run. */
  ghost predicate FewCopies(f: Flat, ops: seq<Op>, limit: nat)
    requires WholeFlat(f)
    decreases |ops|
  {
    |ops| > 0 ==>
      var before := ops[..|ops| - 1];
      FewCopies(f, before, limit) && |RunFlat(f, before).0.frozen| <= limit
  }

  /** No goto in the run leaves clusters behind; computable before the run. */
  ghost predicate KeepsAll(g: Geometry, f: Flat, z: Sizes, ops: seq<Op>)
    requires g.clusterSectors > 0 && g.l2Size > 0 && Fits(f, z)
    decreases |ops|
  {
    |ops| > 0 ==>
      var before := ops[..|ops| - 1];
      && KeepsAll(g, f, z, before)
      && Keeps(g, RunFlat(f, before).0, RunSizes(g, f, z, before), ops[|ops| - 1])
  }

  lemma {:induction false} FewBefore(f: Flat, ops: seq<Op>, i: nat, limit: nat)
    requires WholeFlat(f) && FewCopies(f, ops, limit) && i < |ops|
    ensures |RunFlat(f, ops[..i]).0.frozen| <= limit
    decreases |ops|
  {
    hide RunFlat;
    var before := ops[..|ops| - 1];
    if i < |before| {
      FewBefore(f, before, i, limit);
      assert before[..i] == ops[..i];
    }
  }

  // ---------------------------------------------------------------------------
  // A run that loses clusters
  // ---------------------------------------------------------------------------

  /** 4096-byte clusters: 8 sectors each, 512 table entries each. */
  const SMALL_CLUSTERS := Geometry(8, 512)

  /** Take a copy, write the first sector past 512 L1 entries, go back to the copy. */
  function LosingRun(x: Sector): seq<Op> {
    [CreateOp("1", "a"), WriteOp(2097152, [x]), GotoOp("1")]
  }

  lemma PastTheTable()
    ensures L1Index(SMALL_CLUSTERS, 2097152) == 512
    ensures GrownSize(512, 513) == 768 && Clusters(768, 512) == 2 && Clusters(512, 512) == 1
  {
    QuotIsDivision(2097152, 8);
    QuotIsDivision(262144, 512);
    QuotIsDivision(768 + 511, 512);
    QuotIsDivision(512 + 511, 512);
    assert GrownSize(768, 513) == 768;
  }

  lemma LosingStart(f: Flat, x: Sector)
    requires WholeFlat(f) && f.frozen == []
    ensures var g := RunFlat(f, [CreateOp("1", "a")]).0;
            && g.frozen == [Frozen("1", "a", f.disk)] && g.disk == f.disk
            && RunSizes(SMALL_CLUSTERS, f, Sizes(512, []), [CreateOp("1", "a")]) == Sizes(512, [512])
  {
    var op := CreateOp("1", "a");
    assert [op][..0] == [];
    assert RunFlat(f, []) == (f, []);
    assert FindId([], "1") == 0;
  }

  lemma LosingMiddle(f: Flat, x: Sector)
    requires WholeFlat(f) && f.frozen == []
    ensures var ops := [CreateOp("1", "a"), WriteOp(2097152, [x])];
            && RunFlat(f, ops).0.frozen == [Frozen("1", "a", f.disk)]
            && RunSizes(SMALL_CLUSTERS, f, Sizes(512, []), ops) == Sizes(768, [512])
  {
    var ops := [CreateOp("1", "a"), WriteOp(2097152, [x])];
    assert ops[..1] == [CreateOp("1", "a")];
    LosingStart(f, x);
    PastTheTable();
  }

  /** Clusters do get lost: this run leaves one cluster of the grown L1 area behind. */
  lemma ClustersGetLost(f: Flat, x: Sector)
    requires WholeFlat(f) && f.frozen == []
    ensures !KeepsAll(SMALL_CLUSTERS, f, Sizes(512, []), LosingRun(x))
  {
    hide RunFlat, RunSizes;
    var ops := LosingRun(x);
    var before := ops[..2];
    assert before == [CreateOp("1", "a"), WriteOp(2097152, [x])];
    LosingMiddle(f, x);
    PastTheTable();
    var g := RunFlat(f, before).0;
    assert FindId(g.frozen, "1") == 0;
    assert GrownSize(768, 512) == 768;
    assert !KeepsArea(512, 512, 768);
  }
}
