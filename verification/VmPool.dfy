/** The pool as one assistant meets it: which VMs carry its bindings' labels, and where its disk hangs in each zone. */
module VmPool {

  /**
   * A VM out of the idle pool. `releasing` is its role once a release was requested, otherwise it is assigned;
   * `attached` says that its assignment got as far as attaching the assistant's disk.
   */
  datatype Label = Label(binding: string, zone: string, releasing: bool, attached: bool)

  /** `disks` maps a zone to the VM that the assistant's disk of that zone hangs on. */
  datatype Pool = Pool(labels: map<string, Label>, disks: map<string, string>)

  const EMPTY := Pool(map[], map[])

  predicate IsAssigned(pool: Pool, vm: string) {
    vm in pool.labels && !pool.labels[vm].releasing
  }

  predicate IsAssignedTo(pool: Pool, vm: string, b: string) {
    IsAssigned(pool, vm) && pool.labels[vm].binding == b
  }

  /** `_ensure_disk_ready_for_binding` finds a VM of this very binding: it is to be adopted. */
  predicate Adopts(pool: Pool, b: string, zone: string) {
    zone in pool.disks && IsAssignedTo(pool, pool.disks[zone], b)
  }

  /** No VM holds the disk, or only one that another binding has let go of; anything else is refused. */
  predicate DiskIsFree(pool: Pool, b: string, zone: string) {
    zone in pool.disks && pool.disks[zone] in pool.labels ==>
      pool.labels[pool.disks[zone]].releasing && pool.labels[pool.disks[zone]].binding != b
  }

  /** An idle VM of the zone. */
  predicate IsIdle(pool: Pool, vm: string, zone: string) {
    vm != "" && vm !in pool.labels && forall z :: z in pool.disks && pool.disks[z] == vm ==> z == zone
  }

  /** What `assign_pool_vm` may answer: the binding's own VM if there is one, otherwise an idle one. */
  predicate MayGive(pool: Pool, b: string, zone: string, vm: string) {
    if Adopts(pool, b, zone) then vm == pool.disks[zone] else DiskIsFree(pool, b, zone) && IsIdle(pool, vm, zone)
  }

  function Give(pool: Pool, b: string, zone: string, vm: string): Pool {
    if Adopts(pool, b, zone) then pool
    else Pool(pool.labels[vm := Label(b, zone, false, true)], pool.disks[zone := vm])
  }

  /** An assignment that raises after it claimed an idle VM, before or after attaching the disk. */
  predicate MayTear(pool: Pool, b: string, zone: string, vm: string) {
    !Adopts(pool, b, zone) && DiskIsFree(pool, b, zone) && IsIdle(pool, vm, zone)
  }

  function Tear(pool: Pool, b: string, zone: string, vm: string, attached: bool): Pool {
    var holds := attached || (zone in pool.disks && pool.disks[zone] == vm);
    Pool(pool.labels[vm := Label(b, zone, false, holds)], if attached then pool.disks[zone := vm] else pool.disks)
  }

  /** `release_pool_vm` by name: only a VM that still carries the binding's label. */
  function Release(pool: Pool, b: string, vm: string): Pool {
    if vm in pool.labels && pool.labels[vm].binding == b
    then pool.(labels := pool.labels[vm := pool.labels[vm].(releasing := true)]) else pool
  }

  /**
   * A VM given outside the requested placement: it is handed back, where its own placement can be read and the
   * release succeeds.
   */
  function Rejected(pool: Pool, b: string, zone: string, vm: string, released: bool): Pool {
    var given := Give(pool, b, zone, vm);
    if released then Release(given, b, vm) else given
  }

  /** The VM leaves the assistant: its release completed, or it was deleted; its disk may or may not be detached. */
  function Remove(pool: Pool, vm: string, detached: bool): Pool {
    Pool(pool.labels - {vm}, if detached then map z | z in pool.disks && pool.disks[z] != vm :: pool.disks[z]
        else pool.disks)
  }

  /** A labelled VM holds only its own zone's disk, and an assigned one whose disk was attached still holds it. */
  ghost predicate PoolOk(pool: Pool) {
    && "" !in pool.labels
    && (forall zone :: zone in pool.disks && pool.disks[zone] in pool.labels ==>
        pool.labels[pool.disks[zone]].zone == zone)
    && (forall vm :: IsAssigned(pool, vm) && pool.labels[vm].attached ==>
          pool.labels[vm].zone in pool.disks && pool.disks[pool.labels[vm].zone] == vm)
    && (forall zone :: zone in pool.disks && IsAssigned(pool, pool.disks[zone]) ==>
        pool.labels[pool.disks[zone]].attached)
  }

  lemma GiveKeeps(pool: Pool, b: string, zone: string, vm: string)
    requires PoolOk(pool) && MayGive(pool, b, zone, vm)
    ensures PoolOk(Give(pool, b, zone, vm)) && IsAssignedTo(Give(pool, b, zone, vm), vm, b)
  {
  }

  lemma RejectedKeeps(pool: Pool, b: string, zone: string, vm: string, released: bool)
    requires PoolOk(pool) && MayGive(pool, b, zone, vm)
    ensures PoolOk(Rejected(pool, b, zone, vm, released))
    ensures vm in Rejected(pool, b, zone, vm, released).labels
    ensures Rejected(pool, b, zone, vm, released).labels[vm].binding == b
    ensures IsAssigned(Rejected(pool, b, zone, vm, released), vm) <==> !released
  {
  }

  lemma TearKeeps(pool: Pool, b: string, zone: string, vm: string, attached: bool)
    requires PoolOk(pool) && MayTear(pool, b, zone, vm)
    ensures PoolOk(Tear(pool, b, zone, vm, attached))
  {
  }

  lemma ReleaseKeeps(pool: Pool, b: string, vm: string)
    requires PoolOk(pool)
    ensures PoolOk(Release(pool, b, vm))
  {
  }

  lemma RemoveKeeps(pool: Pool, vm: string, detached: bool)
    requires PoolOk(pool)
    ensures PoolOk(Remove(pool, vm, detached))
  {
  }

  /** In each zone the assistant has at most one assigned VM with its disk, whatever the bindings. */
  lemma OneDeskPerZone(pool: Pool, u: string, v: string)
    requires PoolOk(pool) && IsAssigned(pool, u) && IsAssigned(pool, v) && pool.labels[u].attached
    requires pool.labels[v].attached
    ensures pool.labels[u].zone == pool.labels[v].zone <==> u == v
  {
  }

  /** The VM is the binding's desk in this zone: its assignment got as far as the assistant's disk. */
  predicate IsDesk(pool: Pool, vm: string, b: string, zone: string) {
    IsAssignedTo(pool, vm, b) && pool.labels[vm].attached && pool.labels[vm].zone == zone
  }

  /** A binding is given a VM it has already exactly if that is its desk there; and then it is given no other. */
  lemma OwnVmIsGivenBack(pool: Pool, b: string, zone: string, vm: string, given: string)
    requires PoolOk(pool) && IsAssignedTo(pool, vm, b)
    ensures MayGive(pool, b, zone, vm) <==> IsDesk(pool, vm, b, zone)
    ensures IsDesk(pool, vm, b, zone) ==>
            (MayGive(pool, b, zone, given) <==> given == vm) && !MayTear(pool, b, zone, given)
                && Give(pool, b, zone, vm) == pool
  {
  }
}
