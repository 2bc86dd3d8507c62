/** Facts that hold across modules: configured defaults against request
    bounds and record defaults, the request vocabulary against the
    controller's, and what validation guarantees the hypervisor gateway. */
module Consistency {
  import opened Wrappers
  import opened Text
  import Config
  import Values
  import VmModel
  import VmSchemas
  import PortModel
  import PortSchemas
  import Proxmox
  import Unifi

  /** The default SSH port range lies inside the range a request may ask to
      forward. */
  lemma DefaultSshRangeForwardable(req: Config.Required)
    ensures var s := Config.WithDefaults(req);
            && s.sshPortRangeStart <= s.sshPortRangeEnd
            && PortSchemas.ValidExternalPort(s.sshPortRangeStart)
            && PortSchemas.ValidExternalPort(s.sshPortRangeEnd)
  {
  }

  /** The configured machine sizes are ones a request could ask for, and they
      are the sizes a new machine record takes. */
  lemma DefaultSizesAgree(req: Config.Required, id: int, node: string, name: string, owner: int, now: Values.Timestamp)
    ensures var s := Config.WithDefaults(req);
            var vm := VmModel.NewVirtualMachine(id, node, name, owner, now);
            && VmSchemas.OptInRange(Some(s.defaultMemory), VmSchemas.MinMemory, VmSchemas.MaxMemory)
            && VmSchemas.OptInRange(Some(s.defaultCores), VmSchemas.MinCores, VmSchemas.MaxCores)
            && VmSchemas.OptInRange(Some(s.defaultDisk), VmSchemas.MinDisk, VmSchemas.MaxDisk)
            && vm.memory == s.defaultMemory && vm.cores == s.defaultCores && vm.disk == s.defaultDisk
  {
  }

  /** A request's port defaults are those of a new port-forward record. */
  lemma PortDefaultsAgree(id: int, ext: int, ip: string, vmId: int, now: Values.Timestamp)
    ensures var pf := PortModel.NewPortForward(id, ext, ip, vmId, now);
            pf.internalPort == PortSchemas.DefaultInternalPort && pf.protocol == PortSchemas.DefaultProtocol
  {
  }

  /** The controller service's keyword defaults are the request defaults,
      and a rule posted with them forwards TCP to port 22 and is enabled. */
  lemma ControllerDefaultsAgree(name: string, externalPort: int, internalIp: string)
    ensures Unifi.DefaultInternalPort == PortSchemas.DefaultInternalPort
    ensures Unifi.DefaultProtocol == PortSchemas.DefaultProtocol
    ensures PortSchemas.ValidInternalPort(Unifi.DefaultInternalPort) && PortSchemas.ValidProtocol(Unifi.DefaultProtocol)
    ensures var d := Unifi.BuildRule(name, externalPort, internalIp, Unifi.DefaultInternalPort,
                                     Unifi.DefaultProtocol, Unifi.DefaultEnabled);
            && d["proto"] == Values.Str("tcp") && d["enabled"] == Values.Bool(true)
            && d["fwd_port"].Str? && ParseInt(d["fwd_port"].s) == PortSchemas.DefaultInternalPort
  {
    AcceptedProtocolsTranslate(Unifi.DefaultProtocol);
    Unifi.BuildRulePorts(name, externalPort, internalIp, Unifi.DefaultInternalPort,
                         Unifi.DefaultProtocol, Unifi.DefaultEnabled);
  }

  /** Every protocol a request may name is a key of the controller's
      translation table, so it is never translated by the fallback. */
  lemma AcceptedProtocolsTranslate(p: string)
    requires PortSchemas.ValidProtocol(p)
    ensures Lower(p) == p && p in Unifi.ProtocolTable
    ensures Unifi.Translate(p) == Unifi.ProtocolTable[p]
    ensures p == "tcp" ==> Unifi.Translate(p) == "tcp"
    ensures p == "udp" ==> Unifi.Translate(p) == "udp"
    ensures p == "both" ==> Unifi.Translate(p) == "tcp_udp"
  {
    assert Lower("tcp") == "tcp";
    assert Lower("udp") == "udp";
    assert Lower("both") == "both";
  }

  /** A validated create body never carries a zero size, so a size it gives
      reaches the hypervisor unchanged and an absent one is the configured
      default. */
  lemma ValidatedSizesReachClone(v: VmSchemas.VMCreate, s: Config.Settings)
    requires VmSchemas.ValidateCreate(v).Success?
    ensures v.memory.Some? ==> Proxmox.OrElse(v.memory, s.defaultMemory) == v.memory.value
    ensures v.memory.None? ==> Proxmox.OrElse(v.memory, s.defaultMemory) == s.defaultMemory
    ensures v.cores.Some? ==> Proxmox.OrElse(v.cores, s.defaultCores) == v.cores.value
    ensures v.cores.None? ==> Proxmox.OrElse(v.cores, s.defaultCores) == s.defaultCores
    ensures Proxmox.Truthy(v.disk) <==> v.disk.Some?
  {
  }

  /** A table of records whose ports passed request validation holds at
      most 64512 records, one per forwardable port. */
  lemma ValidatedTableCapacity(t: seq<PortModel.PortForward>)
    requires PortModel.TableValid(t)
    requires forall i :: 0 <= i < |t| ==> PortSchemas.ValidExternalPort(t[i].externalPort)
    ensures |t| <= 64512
  {
    PortModel.CapacityBound(t, PortSchemas.MinExternalPort, PortSchemas.MaxPort + 1);
  }
}
