/**
 * What an image amounts to as a flat disk with frozen copies, and how the steps
 * of the driver change that view.
 */
module QcowView {
  import opened Division
  import opened QcowLayout
  import opened QcowSpec
  import opened QcowSteps
  import opened QcowSnapshots
  import opened QcowFlat

  /** The disk that the root `t` describes. */
  ghost function DiskOf(lay: Layout, h: Host, t: seq<Entry>): (d: Disk)
    requires lay.l2Size > 0 && lay.clusterSectors > 0
    ensures Whole(d)
  {
    imap s: nat | s >= 0 :: GuestSector(lay, h, t, s)
  }

  lemma SameDisk(lay: Layout, h: Host, t: seq<Entry>, h': Host, t': seq<Entry>)
    requires lay.l2Size > 0 && lay.clusterSectors > 0
    requires forall s: nat :: GuestSector(lay, h', t', s) == GuestSector(lay, h, t, s)
    ensures DiskOf(lay, h', t') == DiskOf(lay, h, t)
  {
  }

  ghost function FrozenOf(lay: Layout, h: Host, sn: Snapshot): (f: Frozen)
    requires lay.l2Size > 0 && lay.clusterSectors > 0
    ensures Whole(f.disk)
  {
    Frozen(sn.id, sn.name, DiskOf(lay, h, SnapRoot(lay, h, sn).tab))
  }

  /** What an image amounts to: the active disk and the snapshots' disks. */
  ghost function FlatOf(lay: Layout, m: Image): (f: Flat)
    requires lay.l2Size > 0 && lay.clusterSectors > 0
    ensures WholeFlat(f)
  {
    Flat(DiskOf(lay, m.host, m.l1),
         seq(|m.snaps|, k requires 0 <= k < |m.snaps| => FrozenOf(lay, m.host, m.snaps[k])))
  }

  /** The lengths of all L1 tables. */
  ghost function SizesOf(m: Image): (z: Sizes)
    ensures |z.snaps| == |m.snaps|
  {
    Sizes(|m.l1|, seq(|m.snaps|, k requires 0 <= k < |m.snaps| => m.snaps[k].l1Size))
  }

  lemma FlatSame(lay: Layout, m: Image, m': Image)
    requires lay.l2Size > 0 && lay.clusterSectors > 0
    requires FlatOf(lay, m').frozen == FlatOf(lay, m).frozen && DiskOf(lay, m'.host, m'.l1) == DiskOf(lay, m.host, m.l1)
    ensures FlatOf(lay, m') == FlatOf(lay, m)
  {
  }

  lemma RetagSize(lay: Layout, m: Image, m': Image)
    requires lay.l2Size > 0 && Retag(lay, m, m')
    ensures |m'.l1| == |m.l1|
  {
  }

  lemma SameFrozen(lay: Layout, m: Image, m': Image)
    requires WellFormed(lay) && SnapshotsKept(lay, m, m')
    ensures FlatOf(lay, m').frozen == FlatOf(lay, m).frozen
  {
    forall k: nat | k < |m.snaps|
      ensures FrozenOf(lay, m'.host, m.snaps[k]) == FrozenOf(lay, m.host, m.snaps[k])
    {
      SameDisk(lay, m.host, SnapRoot(lay, m.host, m.snaps[k]).tab, m'.host, SnapRoot(lay, m'.host, m.snaps[k]).tab);
    }
  }

  // ---- where a snapshot is in the list -------------------------------------------

  lemma {:induction false} FirstId(fs: seq<Frozen>, id: string, k: nat)
    requires k <= |fs| && (k < |fs| ==> fs[k].id == id) && forall x: nat | x < k :: fs[x].id != id
    ensures FindId(fs, id) == k
  {
    if k > 0 { FirstId(fs[1..], id, k - 1); }
  }

  lemma {:induction false} FirstName(fs: seq<Frozen>, name: string, k: nat)
    requires k <= |fs| && (k < |fs| ==> fs[k].name == name) && forall x: nat | x < k :: fs[x].name != name
    ensures FindName(fs, name) == k
  {
    if k > 0 { FirstName(fs[1..], name, k - 1); }
  }

  // ---- the flat disk across the snapshot operations ------------------------------

  lemma CreatedFlat(lay: Layout, m: Image, m': Image, sn: Snapshot)
    requires WellFormed(lay) && m'.snaps == m.snaps + [sn]
    requires forall s: nat :: GuestSector(lay, m'.host, m'.l1, s) == GuestSector(lay, m.host, m.l1, s)
    requires forall a: nat, s: nat | a < |m.snaps| ::
               GuestSector(lay, m'.host, SnapRoot(lay, m'.host, m.snaps[a]).tab, s)
               == GuestSector(lay, m.host, SnapRoot(lay, m.host, m.snaps[a]).tab, s)
    requires SnapRoot(lay, m'.host, sn).tab == m'.l1
    ensures FlatOf(lay, m') ==
            FlatOf(lay, m).(frozen := FlatOf(lay, m).frozen + [Frozen(sn.id, sn.name, FlatOf(lay, m).disk)])
  {
    hide GuestSector;
    SameDisk(lay, m.host, m.l1, m'.host, m'.l1);
    forall k: nat | k < |m.snaps|
      ensures FrozenOf(lay, m'.host, m.snaps[k]) == FrozenOf(lay, m.host, m.snaps[k])
    {
      SameDisk(lay, m.host, SnapRoot(lay, m.host, m.snaps[k]).tab, m'.host, SnapRoot(lay, m'.host, m.snaps[k]).tab);
    }
  }

  lemma DeletedFlat(lay: Layout, m: Image, m': Image, k: nat)
    requires WellFormed(lay) && k < |m.snaps|
    requires m'.snaps == m.snaps[..k] + m.snaps[k + 1..] && m'.host == m.host && m'.l1 == m.l1
    ensures var f := FlatOf(lay, m);
            FlatOf(lay, m') == f.(frozen := f.frozen[..k] + f.frozen[k + 1..])
  {
    hide GuestSector, DiskOf;
  }

  lemma RetaggedFlat(lay: Layout, m: Image, m': Image, role: Roles)
    requires WellFormed(lay) && Shaped(lay, m, role) && Retag(lay, m, m')
    ensures FlatOf(lay, m') == FlatOf(lay, m)
  {
    hide GuestSector;
    RetagImage(lay, m, m', role);
    SameDisk(lay, m.host, m.l1, m'.host, m'.l1);
    SameFrozen(lay, m, m');
  }

  function SnapshotIds(snaps: seq<Snapshot>): (ids: seq<string>)
    ensures |ids| == |snaps|
  {
    seq(|snaps|, k requires 0 <= k < |snaps| => snaps[k].id)
  }
}
