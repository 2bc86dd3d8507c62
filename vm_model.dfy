/** The virtual machine record: its status enumeration, the lifecycle
    guards derived from the status, its field defaults, its display string
    and its dictionary form. */
module VmModel {
  import opened Wrappers
  import opened Text
  import opened Values

  datatype VMStatus = Pending | Creating | Running | Stopped | Suspended | Error | Deleting | Deleted

  const AllStatuses: seq<VMStatus> := [Pending, Creating, Running, Stopped, Suspended, Error, Deleting, Deleted]

  function MemberName(s: VMStatus): string {
    match s
    case Pending => "PENDING"
    case Creating => "CREATING"
    case Running => "RUNNING"
    case Stopped => "STOPPED"
    case Suspended => "SUSPENDED"
    case Error => "ERROR"
    case Deleting => "DELETING"
    case Deleted => "DELETED"
  }

  /** The string value of a member: `LowerStr` generates it from the
      member's name by lower-casing. */
  function StatusValue(s: VMStatus): string {
    Lower(MemberName(s))
  }

  /** The eight values, which are pairwise distinct. */
  lemma StatusValues()
    ensures StatusValue(Pending) == "pending" && StatusValue(Creating) == "creating"
    ensures StatusValue(Running) == "running" && StatusValue(Stopped) == "stopped"
    ensures StatusValue(Suspended) == "suspended" && StatusValue(Error) == "error"
    ensures StatusValue(Deleting) == "deleting" && StatusValue(Deleted) == "deleted"
    ensures forall s, t :: StatusValue(s) == StatusValue(t) ==> s == t
  {
    forall s: VMStatus ensures StatusValue(s) == StatusLiteral(s) {
      assert Lower(MemberName(s)) == StatusLiteral(s);
    }
  }

  function StatusLiteral(s: VMStatus): string {
    match s
    case Pending => "pending"
    case Creating => "creating"
    case Running => "running"
    case Stopped => "stopped"
    case Suspended => "suspended"
    case Error => "error"
    case Deleting => "deleting"
    case Deleted => "deleted"
  }

  /** `VMStatus(v)`: the member whose value is `v`, if any. */
  function StatusFromValue(v: string): (r: Option<VMStatus>)
    ensures r.Some? ==> StatusValue(r.value) == v
    ensures r.None? ==> forall s :: StatusValue(s) != v
  {
    StatusValues();
    if v == "pending" then Some(Pending)
    else if v == "creating" then Some(Creating)
    else if v == "running" then Some(Running)
    else if v == "stopped" then Some(Stopped)
    else if v == "suspended" then Some(Suspended)
    else if v == "error" then Some(Error)
    else if v == "deleting" then Some(Deleting)
    else if v == "deleted" then Some(Deleted)
    else None
  }

  lemma StatusValueRoundTrip(s: VMStatus)
    ensures StatusFromValue(StatusValue(s)) == Some(s)
  {
    StatusValues();
  }

  // ---------------------------------------------------------------------
  // Lifecycle guards

  predicate IsActive(s: VMStatus) {
    s in [Running, Creating]
  }

  predicate CanStart(s: VMStatus) {
    s in [Stopped, Suspended]
  }

  predicate CanStop(s: VMStatus) {
    s == Running
  }

  predicate CanDelete(s: VMStatus) {
    s !in [Deleting, Deleted]
  }

  lemma GuardsByStatus(s: VMStatus)
    ensures IsActive(s) <==> s == Running || s == Creating
    ensures CanStart(s) <==> s == Stopped || s == Suspended
    ensures CanStop(s) <==> s == Running
    ensures CanDelete(s) <==> !(s == Deleting || s == Deleted)
  {
  }

  /** A machine can never be both startable and stoppable. */
  lemma StartStopExclusive(s: VMStatus)
    ensures !(CanStart(s) && CanStop(s))
  {
  }

  /** A pending, creating or failed machine may only be deleted. */
  lemma OnlyDeleteFrom(s: VMStatus)
    requires s == Pending || s == Creating || s == Error
    ensures !CanStart(s) && !CanStop(s) && CanDelete(s)
  {
  }

  /** Every status falls in exactly one of four classes: startable,
      stoppable, only deletable, or already being deleted. */
  lemma GuardPartition(s: VMStatus)
    ensures CanStart(s) || CanStop(s) || s in [Pending, Creating, Error] || !CanDelete(s)
    ensures (CanStart(s) || CanStop(s)) ==> CanDelete(s)
    ensures IsActive(s) ==> CanDelete(s) && !CanStart(s)
    ensures !CanDelete(s) ==> !CanStart(s) && !CanStop(s) && !IsActive(s)
  {
  }

  // ---------------------------------------------------------------------
  // The record

  datatype VirtualMachine = VirtualMachine(
    id: int,
    vmid: Option<int>,
    node: string,
    name: string,
    memory: int,
    cores: int,
    disk: int,
    sshPort: Option<int>,
    ipAddress: Option<string>,
    status: VMStatus,
    statusMessage: Option<string>,
    ownerId: int,
    createdAt: Option<Timestamp>,
    updatedAt: Option<Timestamp>,
    startedAt: Option<Timestamp>,
    stoppedAt: Option<Timestamp>)

  /** A record saved with only its required fields: every other field takes
      its declared default, and both automatic timestamps are `now`. */
  function NewVirtualMachine(id: int, node: string, name: string, ownerId: int, now: Timestamp): (vm: VirtualMachine)
    ensures vm.status == Pending && vm.memory == 4096 && vm.cores == 4 && vm.disk == 20
    ensures vm.vmid.None? && vm.sshPort.None? && vm.ipAddress.None? && vm.statusMessage.None?
    ensures vm.startedAt.None? && vm.stoppedAt.None?
    ensures vm.createdAt == Some(now) && vm.updatedAt == Some(now)
  {
    VirtualMachine(id, None, node, name, 4096, 4, 20, None, None, Pending, None, ownerId,
                   Some(now), Some(now), None, None)
  }

  /** A new record is pending: it may only be deleted. */
  lemma NewVirtualMachineOnlyDeletable(id: int, node: string, name: string, ownerId: int, now: Timestamp)
    ensures var vm := NewVirtualMachine(id, node, name, ownerId, now);
            !IsActive(vm.status) && !CanStart(vm.status) && !CanStop(vm.status) && CanDelete(vm.status)
  {
  }

  /** `__str__`: `None` is shown for a machine not yet created on the hypervisor. */
  function Display(vm: VirtualMachine): string {
    "VM " + vm.name + " (VMID: " + (if vm.vmid.Some? then IntToString(vm.vmid.value) else "None") + ")"
  }

  /** The display names the machine and shows its hypervisor id, or `None`. */
  lemma DisplayShowsIds(vm: VirtualMachine)
    ensures var d := Display(vm);
            var id := if vm.vmid.Some? then IntToString(vm.vmid.value) else "None";
            && StartsWith(d, "VM " + vm.name + " (VMID: ")
            && d[|d| - |id| - 1..] == id + ")"
  {
    var d := Display(vm);
    var id := if vm.vmid.Some? then IntToString(vm.vmid.value) else "None";
    assert d == ("VM " + vm.name + " (VMID: ") + (id + ")");
  }

  const VmKeys: set<string> := {"id", "vmid", "node", "name", "memory", "cores", "disk", "ssh_port",
                                "ip_address", "status", "status_message", "owner_id",
                                "created_at", "updated_at", "started_at", "stopped_at"}

  /** `to_dict`. */
  function ToDict(vm: VirtualMachine): (d: Doc)
    ensures d.Keys == VmKeys
    ensures d["created_at"] == Null <==> vm.createdAt.None?
    ensures d["updated_at"] == Null <==> vm.updatedAt.None?
    ensures d["started_at"] == Null <==> vm.startedAt.None?
    ensures d["stopped_at"] == Null <==> vm.stoppedAt.None?
  {
    map[
      "id" := Int(vm.id),
      "vmid" := OptInt(vm.vmid),
      "node" := Str(vm.node),
      "name" := Str(vm.name),
      "memory" := Int(vm.memory),
      "cores" := Int(vm.cores),
      "disk" := Int(vm.disk),
      "ssh_port" := OptInt(vm.sshPort),
      "ip_address" := OptStr(vm.ipAddress),
      "status" := Str(StatusValue(vm.status)),
      "status_message" := OptStr(vm.statusMessage),
      "owner_id" := Int(vm.ownerId),
      "created_at" := OptIso(vm.createdAt),
      "updated_at" := OptIso(vm.updatedAt),
      "started_at" := OptIso(vm.startedAt),
      "stopped_at" := OptIso(vm.stoppedAt)
    ]
  }

  /** Reads a record back from its dictionary form. */
  function FromDict(d: Doc): Option<VirtualMachine> {
    if !(VmKeys <= d.Keys) then None
    else
      var id := ReadInt(d["id"]);
      var vmid := ReadOptInt(d["vmid"]);
      var node := ReadStr(d["node"]);
      var name := ReadStr(d["name"]);
      var memory := ReadInt(d["memory"]);
      var cores := ReadInt(d["cores"]);
      var disk := ReadInt(d["disk"]);
      var sshPort := ReadOptInt(d["ssh_port"]);
      var ip := ReadOptStr(d["ip_address"]);
      var status := if d["status"].Str? then StatusFromValue(d["status"].s) else None;
      var message := ReadOptStr(d["status_message"]);
      var owner := ReadInt(d["owner_id"]);
      var created := ReadOptIso(d["created_at"]);
      var updated := ReadOptIso(d["updated_at"]);
      var started := ReadOptIso(d["started_at"]);
      var stopped := ReadOptIso(d["stopped_at"]);
      if id.Some? && vmid.Some? && node.Some? && name.Some? && memory.Some? && cores.Some?
         && disk.Some? && sshPort.Some? && ip.Some? && status.Some? && message.Some? && owner.Some?
         && created.Some? && updated.Some? && started.Some? && stopped.Some?
      then
        Some(VirtualMachine(id.value, vmid.value, node.value, name.value, memory.value, cores.value,
                            disk.value, sshPort.value, ip.value, status.value, message.value, owner.value,
                            created.value, updated.value, started.value, stopped.value))
      else None
  }

  lemma ToDictIdentityFields(vm: VirtualMachine)
    ensures var d := ToDict(vm);
      && d["id"] == Int(vm.id) && d["vmid"] == OptInt(vm.vmid)
      && d["node"] == Str(vm.node) && d["name"] == Str(vm.name)
      && d["memory"] == Int(vm.memory) && d["cores"] == Int(vm.cores) && d["disk"] == Int(vm.disk)
      && d["owner_id"] == Int(vm.ownerId)
  {
  }

  lemma ToDictStateFields(vm: VirtualMachine)
    ensures var d := ToDict(vm);
      && d["ssh_port"] == OptInt(vm.sshPort) && d["ip_address"] == OptStr(vm.ipAddress)
      && d["status"] == Str(StatusValue(vm.status)) && d["status_message"] == OptStr(vm.statusMessage)
      && d["created_at"] == OptIso(vm.createdAt) && d["updated_at"] == OptIso(vm.updatedAt)
      && d["started_at"] == OptIso(vm.startedAt) && d["stopped_at"] == OptIso(vm.stoppedAt)
  {
  }

  /** `to_dict` loses nothing: every field is copied, and each timestamp is
      either its formatted form or `None`. */
  lemma DictRoundTrip(vm: VirtualMachine)
    ensures FromDict(ToDict(vm)) == Some(vm)
  {
    ToDictIdentityFields(vm);
    ToDictStateFields(vm);
    StatusValueRoundTrip(vm.status);
  }
}
