/** The hypervisor gateway: polling a task until it finishes, and cloning a
    machine from a template with configured defaults.

    Each remote request is recorded as an `HvCall` in the order it is made.
    Its outcome comes from a script supplied by the caller; the model does
    not look inside the hypervisor. */
module Proxmox {
  import opened Wrappers
  import opened Text
  import Config

  /** The requests the service makes. */
  datatype HvCall =
    | CloneCall(node: string, templateId: int, newid: int, name: string, full: int)
    | TaskStatusGet(node: string, task: string)
    | ConfigPut(node: string, vmid: int, memory: int, cores: int, onboot: int)
    | ResizePut(node: string, vmid: int, disk: string, size: string)
    | CreatePost(node: string, vmid: int, name: string, memory: int, cores: int,
                 scsihw: string, scsi0: string, net0: string, ostype: string)

  /** The body of a task-status reply; either key may be missing. */
  datatype TaskStatus = TaskStatus(status: Option<string>, exitstatus: Option<string>)

  /** The outcome of one status request: the request raises, or it returns a
      body, which may be `None`. */
  datatype Poll = Raised | Got(body: Option<TaskStatus>)

  /** The poll ends the wait with an exception: the request raised, or the
      reply was `None`, on which `.get` raises. */
  predicate Fails(p: Poll) {
    p.Raised? || p.body.None?
  }

  predicate Stopped(p: Poll) {
    p.Got? && p.body.Some? && p.body.value.status == Some("stopped")
  }

  /** The poll ends the wait, one way or the other. */
  predicate Terminal(p: Poll) {
    Fails(p) || Stopped(p)
  }

  /** The poll ends the wait successfully. */
  predicate Succeeds(p: Poll) {
    Stopped(p) && p.body.value.exitstatus == Some("OK")
  }

  /** A Python value used as a condition: `None` and `0` are false. */
  predicate Truthy(o: Option<int>) {
    o.Some? && o.value != 0
  }

  /** `o or fallback`. */
  function OrElse(o: Option<int>, fallback: int): (r: int)
    ensures Truthy(o) ==> r == o.value
    ensures !Truthy(o) ==> r == fallback
  {
    if Truthy(o) then o.value else fallback
  }

  const DefaultTimeout := 60

  /** The number of polls the loop has room for. */
  function Ceiling(timeout: int): nat {
    if timeout > 0 then timeout else 0
  }

  /** The request `create_vm` sends. */
  function CreateRequest(node: string, vmid: int, name: string, memory: int, cores: int, disk: int): (c: HvCall)
    ensures c.CreatePost? && c.node == node && c.vmid == vmid && c.name == name
    ensures c.memory == memory && c.cores == cores
    ensures StartsWith(c.scsi0, "local-lvm:")
  {
    CreatePost(node, vmid, name, memory, cores, "virtio-scsi-pci", "local-lvm:" + IntToString(disk),
               "virtio,bridge=vmbr0", "l26")
  }

  /** The disk size reads back from the volume `create_vm` asks for. */
  lemma CreateRequestDiskReadsBack(node: string, vmid: int, name: string, memory: int, cores: int, disk: int)
    ensures var v := CreateRequest(node, vmid, name, memory, cores, disk).scsi0;
            |v| > 10 && IsDecimal(v[10..]) && ParseInt(v[10..]) == disk
  {
    var v := CreateRequest(node, vmid, name, memory, cores, disk).scsi0;
    assert v[10..] == IntToString(disk);
    IntToStringRoundTrip(disk);
  }

  /** The request `resize_disk` sends: the size is the number of gigabytes
      followed by `G`. */
  function ResizeRequest(node: string, vmid: int, sizeGb: int): (c: HvCall)
    ensures c.ResizePut? && c.node == node && c.vmid == vmid && c.disk == "scsi0"
    ensures |c.size| >= 2 && c.size[|c.size| - 1] == 'G'
  {
    ResizePut(node, vmid, "scsi0", IntToString(sizeGb) + "G")
  }

  /** The size reads back from the text `resize_disk` sends. */
  lemma ResizeRequestReadsBack(node: string, vmid: int, sizeGb: int)
    ensures var size := ResizeRequest(node, vmid, sizeGb).size;
            IsDecimal(size[..|size| - 1]) && ParseInt(size[..|size| - 1]) == sizeGb
  {
    var size := ResizeRequest(node, vmid, sizeGb).size;
    assert size[..|size| - 1] == IntToString(sizeGb);
    IntToStringRoundTrip(sizeGb);
  }

  /** `waits` are the status requests of one wait on `task` in `node`: at
      most `timeout` of them, every poll but the last leaves the loop
      running, and the loop stopped at a terminal poll or at the ceiling. */
  ghost predicate WaitedOn(waits: seq<HvCall>, node: string, task: string, polls: nat -> Poll, timeout: int) {
    && |waits| <= Ceiling(timeout)
    && (forall k :: 0 <= k < |waits| ==> waits[k] == TaskStatusGet(node, task))
    && (forall j :: 0 <= j < |waits| - 1 ==> !Terminal(polls(j)))
    && ((|waits| > 0 && Terminal(polls(|waits| - 1))) || |waits| == Ceiling(timeout))
  }

  /** A wait ends in success exactly when some poll within the ceiling
      succeeds and no earlier poll ended the wait. */
  lemma WaitSucceedsIff(waits: seq<HvCall>, node: string, task: string, polls: nat -> Poll, timeout: int)
    requires WaitedOn(waits, node, task, polls, timeout)
    ensures (|waits| > 0 && Succeeds(polls(|waits| - 1))) <==>
            exists i :: 0 <= i < timeout && Succeeds(polls(i)) && forall j :: 0 <= j < i ==> !Terminal(polls(j))
  {
    var n := |waits|;
    if n > 0 && Succeeds(polls(n - 1)) {
      assert 0 <= n - 1 < timeout && forall j :: 0 <= j < n - 1 ==> !Terminal(polls(j));
    }
    forall i | 0 <= i < timeout && Succeeds(polls(i)) && (forall j :: 0 <= j < i ==> !Terminal(polls(j)))
      ensures n > 0 && i == n - 1
    {
    }
  }

  class ProxmoxService {
    const settings: Config.Settings
    const node: string

    /** The API client itself is not modelled; the service keeps its node. */
    constructor(settings: Config.Settings)
      ensures this.settings == settings && node == settings.proxmoxNode
    {
      this.settings := settings;
      node := settings.proxmoxNode;
    }

    /** `wait_for_task`: polls the task's status once per attempt, at most
        `timeout` times, sleeping after each poll that does not end the wait.
        `polls(i)` is the outcome of the `i`-th poll. */
    method WaitForTask(task: string, timeout: int, polls: nat -> Poll) returns (ok: bool, calls: seq<HvCall>, sleeps: nat)
      ensures WaitedOn(calls, node, task, polls, timeout)
      ensures ok <==> |calls| > 0 && Succeeds(polls(|calls| - 1))
      ensures sleeps == if |calls| > 0 && Terminal(polls(|calls| - 1)) then |calls| - 1 else |calls|
    {
      calls := [];
      sleeps := 0;
      var i := 0;
      while i < timeout
        invariant 0 <= i <= Ceiling(timeout)
        invariant |calls| == i && sleeps == i
        invariant forall k :: 0 <= k < i ==> calls[k] == TaskStatusGet(node, task)
        invariant forall j :: 0 <= j < i ==> !Terminal(polls(j))
      {
        calls := calls + [TaskStatusGet(node, task)];
        var p := polls(i);
        if Fails(p) {
          ok := false;
          return;
        }
        if p.body.value.status == Some("stopped") {
          ok := p.body.value.exitstatus == Some("OK");
          return;
        }
        sleeps := sleeps + 1;
        i := i + 1;
      }
      ok := false;
    }

    /** `clone_vm`: a falsy template, memory or core count is replaced by the
        configured default; the clone request is followed by a wait on its
        task, then by the configuration request whatever the wait returned,
        then by a resize when `disk` is truthy. The clone reply is the
        result. `cloneReply`, `configRaises` and `resizeRaises` script the
        three requests; an exception propagates as a failure naming the
        request. */
    method CloneVm(vmid: int, name: string, templateId: Option<int>, memory: Option<int>, cores: Option<int>,
                   disk: Option<int>, cloneReply: Option<string>, polls: nat -> Poll,
                   configRaises: bool, resizeRaises: bool)
      returns (r: Result<string, string>, calls: seq<HvCall>)
      ensures |calls| >= 1
      ensures calls[0] == CloneCall(node, OrElse(templateId, settings.templateId), vmid, name, 1)
      ensures cloneReply.None? ==> r == Failure("clone") && |calls| == 1
      ensures cloneReply.Some? ==>
                var resized := !configRaises && Truthy(disk);
                var tail := if resized then 2 else 1;
                |calls| >= 1 + tail &&
                var waits := calls[1..|calls| - tail];
                && WaitedOn(waits, node, cloneReply.value, polls, DefaultTimeout)
                && calls == [calls[0]] + waits
                            + [ConfigPut(node, vmid, OrElse(memory, settings.defaultMemory), OrElse(cores, settings.defaultCores), 0)]
                            + (if resized then [ResizeRequest(node, vmid, disk.value)] else [])
                && r == if configRaises then Failure("config")
                        else if Truthy(disk) && resizeRaises then Failure("resize")
                        else Success(cloneReply.value)
    {
      var template := OrElse(templateId, settings.templateId);
      var mem := OrElse(memory, settings.defaultMemory);
      var cpu := OrElse(cores, settings.defaultCores);
      calls := [CloneCall(node, template, vmid, name, 1)];
      if cloneReply.None? {
        r := Failure("clone");
        return;
      }
      var task := cloneReply.value;
      var _, waits, _ := WaitForTask(task, DefaultTimeout, polls);
      var configured := calls + waits + [ConfigPut(node, vmid, mem, cpu, 0)];
      calls := configured;
      assert calls[1..|calls| - 1] == waits;
      if configRaises {
        r := Failure("config");
        return;
      }
      if Truthy(disk) {
        calls := configured + [ResizeRequest(node, vmid, disk.value)];
        assert calls[1..|calls| - 2] == waits;
        if resizeRaises {
          r := Failure("resize");
          return;
        }
      }
      r := Success(task);
    }
  }
}
