/** The port-forward record: its defaults, display string, dictionary form
    and the uniqueness constraints its table keeps. */
module PortModel {
  import opened Wrappers
  import opened Text
  import opened Values

  datatype PortForward = PortForward(
    id: int,
    unifiRuleId: Option<string>,
    externalPort: int,
    internalPort: int,
    internalIp: string,
    protocol: string,
    description: Option<string>,
    isActive: bool,
    virtualMachineId: int,
    createdAt: Option<Timestamp>,
    updatedAt: Option<Timestamp>)

  /** A record saved with only its required fields. */
  function NewPortForward(id: int, externalPort: int, internalIp: string, vmId: int, now: Timestamp): (pf: PortForward)
    ensures pf.internalPort == 22 && pf.protocol == "tcp" && pf.isActive
    ensures pf.unifiRuleId.None? && pf.description.None?
    ensures pf.externalPort == externalPort && pf.internalIp == internalIp && pf.virtualMachineId == vmId
  {
    PortForward(id, None, externalPort, 22, internalIp, "tcp", None, true, vmId, Some(now), Some(now))
  }

  const DisplayPrefix := "Port Forward "

  /** `__str__`. */
  function Display(pf: PortForward): string {
    DisplayPrefix + IntToString(pf.externalPort) + " -> " + pf.internalIp + ":" + IntToString(pf.internalPort)
  }

  /** Both ports can be read back from the display string. */
  lemma DisplayReadsBack(pf: PortForward)
    ensures var s := Display(pf);
            var e := IntToString(pf.externalPort);
            var n := IntToString(pf.internalPort);
            && StartsWith(s, DisplayPrefix)
            && |s| >= |DisplayPrefix| + |e| + |n|
            && s[|DisplayPrefix|..|DisplayPrefix| + |e|] == e
            && s[|s| - |n|..] == n
            && IsDecimal(e) && ParseInt(e) == pf.externalPort
            && IsDecimal(n) && ParseInt(n) == pf.internalPort
  {
    var e := IntToString(pf.externalPort);
    var n := IntToString(pf.internalPort);
    var middle := " -> " + pf.internalIp + ":";
    assert Display(pf) == DisplayPrefix + e + middle + n;
    FourPartSlices(DisplayPrefix, e, middle, n);
    IntToStringRoundTrip(pf.externalPort);
    IntToStringRoundTrip(pf.internalPort);
  }

  lemma FourPartSlices(p: string, e: string, m: string, n: string)
    ensures var s := p + e + m + n;
            && StartsWith(s, p)
            && s[|p|..|p| + |e|] == e
            && s[|s| - |n|..] == n
  {
    var s := p + e + m + n;
    assert s[..|p|] == p;
    assert s[|p|..|p| + |e|] == e;
    assert s[|s| - |n|..] == n;
  }

  // ---------------------------------------------------------------------
  // `to_dict`

  const PortKeys: set<string> := {"id", "unifi_rule_id", "external_port", "internal_port", "internal_ip",
                                  "protocol", "description", "is_active", "vm_id", "created_at"}

  /** `to_dict`: `vm_id` is the foreign key and `created_at` is the raw
      datetime, not its text. */
  function ToDict(pf: PortForward): (d: Doc)
    ensures d.Keys == PortKeys
    ensures d["vm_id"] == Int(pf.virtualMachineId)
    ensures d["created_at"] == OptTime(pf.createdAt)
  {
    map[
      "id" := Int(pf.id),
      "unifi_rule_id" := OptStr(pf.unifiRuleId),
      "external_port" := Int(pf.externalPort),
      "internal_port" := Int(pf.internalPort),
      "internal_ip" := Str(pf.internalIp),
      "protocol" := Str(pf.protocol),
      "description" := OptStr(pf.description),
      "is_active" := Bool(pf.isActive),
      "vm_id" := Int(pf.virtualMachineId),
      "created_at" := OptTime(pf.createdAt)
    ]
  }

  /** Reads a record back from its dictionary form; `updated_at` is not part
      of it and comes back as missing. */
  function FromDict(d: Doc): Option<PortForward> {
    if !(PortKeys <= d.Keys) then None
    else
      var id := ReadInt(d["id"]);
      var rule := ReadOptStr(d["unifi_rule_id"]);
      var ext := ReadInt(d["external_port"]);
      var inner := ReadInt(d["internal_port"]);
      var ip := ReadStr(d["internal_ip"]);
      var proto := ReadStr(d["protocol"]);
      var desc := ReadOptStr(d["description"]);
      var active := ReadBool(d["is_active"]);
      var vm := ReadInt(d["vm_id"]);
      var created := ReadOptTime(d["created_at"]);
      if id.Some? && rule.Some? && ext.Some? && inner.Some? && ip.Some? && proto.Some? && desc.Some?
         && active.Some? && vm.Some? && created.Some?
      then
        Some(PortForward(id.value, rule.value, ext.value, inner.value, ip.value, proto.value, desc.value,
                         active.value, vm.value, created.value, None))
      else None
  }

  lemma ToDictFields(pf: PortForward)
    ensures var d := ToDict(pf);
      && d["id"] == Int(pf.id) && d["unifi_rule_id"] == OptStr(pf.unifiRuleId)
      && d["external_port"] == Int(pf.externalPort) && d["internal_port"] == Int(pf.internalPort)
      && d["internal_ip"] == Str(pf.internalIp) && d["protocol"] == Str(pf.protocol)
      && d["description"] == OptStr(pf.description) && d["is_active"] == Bool(pf.isActive)
  {
  }

  /** `to_dict` drops `updated_at` and nothing else. */
  lemma DictRoundTrip(pf: PortForward)
    ensures FromDict(ToDict(pf)) == Some(pf.(updatedAt := None))
  {
    ToDictFields(pf);
  }

  // ---------------------------------------------------------------------
  // Table constraints

  /** `external_port` is unique by itself. */
  ghost predicate ExternalPortsUnique(t: seq<PortForward>) {
    forall i, j :: 0 <= i < j < |t| ==> t[i].externalPort != t[j].externalPort
  }

  /** The declared `(external_port, protocol)` pair constraint. */
  ghost predicate PairsUnique(t: seq<PortForward>) {
    forall i, j :: 0 <= i < j < |t| ==>
      (t[i].externalPort, t[i].protocol) != (t[j].externalPort, t[j].protocol)
  }

  /** `unifi_rule_id` is unique among the records that have one. */
  ghost predicate RuleIdsUnique(t: seq<PortForward>) {
    forall i, j :: 0 <= i < j < |t| && t[i].unifiRuleId.Some? && t[j].unifiRuleId.Some? ==>
      t[i].unifiRuleId != t[j].unifiRuleId
  }

  ghost predicate TableValid(t: seq<PortForward>) {
    ExternalPortsUnique(t) && PairsUnique(t) && RuleIdsUnique(t)
  }

  /** The single-column constraint makes the pair constraint redundant. */
  lemma ExternalUniqueImpliesPairs(t: seq<PortForward>)
    requires ExternalPortsUnique(t)
    ensures PairsUnique(t)
  {
  }

  /** Any number of records may lack a rule id. */
  lemma UnsyncedRecordsCoexist(t: seq<PortForward>)
    requires ExternalPortsUnique(t)
    requires forall i :: 0 <= i < |t| ==> t[i].unifiRuleId.None?
    ensures TableValid(t)
  {
  }

  /** What a new record must avoid so that the table stays valid. */
  ghost predicate CanInsert(t: seq<PortForward>, pf: PortForward) {
    forall i :: 0 <= i < |t| ==>
      t[i].externalPort != pf.externalPort
      && (t[i].unifiRuleId.Some? && pf.unifiRuleId.Some? ==> t[i].unifiRuleId != pf.unifiRuleId)
  }

  lemma InsertKeepsValid(t: seq<PortForward>, pf: PortForward)
    requires TableValid(t)
    ensures TableValid(t + [pf]) <==> CanInsert(t, pf)
  {
    var u := t + [pf];
    if TableValid(u) {
      forall i | 0 <= i < |t|
        ensures t[i].externalPort != pf.externalPort
        ensures t[i].unifiRuleId.Some? && pf.unifiRuleId.Some? ==> t[i].unifiRuleId != pf.unifiRuleId
      {
        assert u[i] == t[i] && u[|t|] == pf;
      }
    }
  }

  function ExternalPorts(t: seq<PortForward>): set<int> {
    set i | 0 <= i < |t| :: t[i].externalPort
  }

  /** The ports of a table are those of all but its last record, plus the
      last record's. */
  lemma ExternalPortsLast(t: seq<PortForward>)
    requires t != []
    ensures ExternalPorts(t) == ExternalPorts(t[..|t| - 1]) + {t[|t| - 1].externalPort}
  {
    var init := t[..|t| - 1];
    forall p | p in ExternalPorts(t) ensures p in ExternalPorts(init) + {t[|t| - 1].externalPort} {
      var i :| 0 <= i < |t| && t[i].externalPort == p;
      if i < |t| - 1 { assert init[i] == t[i]; }
    }
    forall p | p in ExternalPorts(init) ensures p in ExternalPorts(t) {
      var i :| 0 <= i < |init| && init[i].externalPort == p;
      assert t[i] == init[i];
    }
  }

  lemma {:induction false} DistinctPortsCount(t: seq<PortForward>)
    requires ExternalPortsUnique(t)
    ensures |ExternalPorts(t)| == |t|
  {
    if t != [] {
      var last := |t| - 1;
      var init := t[..last];
      assert forall i :: 0 <= i < |init| ==> init[i] == t[i];
      assert ExternalPortsUnique(init);
      DistinctPortsCount(init);
      ExternalPortsLast(t);
      forall p | p in ExternalPorts(init) ensures p != t[last].externalPort {
        var i :| 0 <= i < |init| && init[i].externalPort == p;
        assert t[i].externalPort == p;
      }
    }
  }

  function PortRange(lo: int, hi: int): (r: set<int>)
    ensures forall p :: p in r <==> lo <= p < hi
    decreases hi - lo
  {
    if lo >= hi then {} else PortRange(lo, hi - 1) + {hi - 1}
  }

  lemma {:induction false} PortRangeSize(lo: int, hi: int)
    requires lo <= hi
    ensures |PortRange(lo, hi)| == hi - lo
    decreases hi - lo
  {
    if lo < hi {
      PortRangeSize(lo, hi - 1);
    }
  }

  lemma SubsetCard(a: set<int>, b: set<int>)
    requires a <= b
    ensures |a| <= |b|
  {
    assert b == a + (b - a);
    assert a * (b - a) == {};
  }

  /** A valid table whose ports all lie in `[lo, hi)` holds at most
      `hi - lo` records. */
  lemma CapacityBound(t: seq<PortForward>, lo: int, hi: int)
    requires lo <= hi
    requires TableValid(t)
    requires forall i :: 0 <= i < |t| ==> lo <= t[i].externalPort < hi
    ensures |t| <= hi - lo
  {
    DistinctPortsCount(t);
    PortRangeSize(lo, hi);
    assert ExternalPorts(t) <= PortRange(lo, hi);
    SubsetCard(ExternalPorts(t), PortRange(lo, hi));
  }
}
