/** Request validation for virtual machines: the field constraints of the
    create, update and action bodies. A body is either accepted unchanged or
    rejected with the set of fields that failed, since validation reports
    every failing field rather than stopping at the first. */
module VmSchemas {
  import opened Wrappers

  const MinNameLength := 3
  const MaxNameLength := 100
  const MinMemory := 512
  const MaxMemory := 16384
  const MinCores := 1
  const MaxCores := 8
  const MinDisk := 10
  const MaxDisk := 200

  /** One character of the class `[a-zA-Z0-9-]`. */
  predicate IsNameChar(c: char) {
    ('a' <= c <= 'z') || ('A' <= c <= 'Z') || ('0' <= c <= '9') || c == '-'
  }

  predicate NameCharsOk(n: string) {
    forall i :: 0 <= i < |n| ==> IsNameChar(n[i])
  }

  predicate NameLengthOk(n: string) {
    MinNameLength <= |n| <= MaxNameLength
  }

  /** An optional integer field with inclusive bounds: absence is always accepted. */
  predicate OptInRange(o: Option<int>, lo: int, hi: int) {
    o.None? || lo <= o.value <= hi
  }

  /** `VMCreate` (which is `VMBase`): the name is required, the sizes are optional. */
  datatype VMCreate = VMCreate(name: string, memory: Option<int>, cores: Option<int>, disk: Option<int>)

  /** `VMUpdate`: every field is optional. */
  datatype VMUpdate = VMUpdate(name: Option<string>, memory: Option<int>, cores: Option<int>, disk: Option<int>)

  /** The fields of a body whose sizes are out of range. */
  function SizeErrors(memory: Option<int>, cores: Option<int>, disk: Option<int>): (e: set<string>)
    ensures "memory" in e <==> !OptInRange(memory, 512, 16384)
    ensures "cores" in e <==> !OptInRange(cores, 1, 8)
    ensures "disk" in e <==> !OptInRange(disk, 10, 200)
    ensures e <= {"memory", "cores", "disk"}
  {
    (if OptInRange(memory, MinMemory, MaxMemory) then {} else {"memory"})
    + (if OptInRange(cores, MinCores, MaxCores) then {} else {"cores"})
    + (if OptInRange(disk, MinDisk, MaxDisk) then {} else {"disk"})
  }

  /** Validation of a create body. */
  function ValidateCreate(v: VMCreate): (r: Result<VMCreate, set<string>>)
    ensures r.Success? <==>
              && 3 <= |v.name| <= 100 && NameCharsOk(v.name)
              && OptInRange(v.memory, 512, 16384) && OptInRange(v.cores, 1, 8) && OptInRange(v.disk, 10, 200)
    ensures r.Success? ==> r.value == v
    ensures r.Failure? ==> r.error != {} && r.error <= {"name", "memory", "cores", "disk"}
    ensures r.Failure? ==> ("name" in r.error <==> !(3 <= |v.name| <= 100 && NameCharsOk(v.name)))
    ensures r.Failure? ==> r.error - {"name"} == SizeErrors(v.memory, v.cores, v.disk)
  {
    var errors := (if NameLengthOk(v.name) && NameCharsOk(v.name) then {} else {"name"})
                  + SizeErrors(v.memory, v.cores, v.disk);
    if errors == {} then Success(v) else Failure(errors)
  }

  /** Validation of an update body: the name is checked for its length only. */
  function ValidateUpdate(v: VMUpdate): (r: Result<VMUpdate, set<string>>)
    ensures r.Success? <==>
              && (v.name.None? || 3 <= |v.name.value| <= 100)
              && OptInRange(v.memory, 512, 16384) && OptInRange(v.cores, 1, 8) && OptInRange(v.disk, 10, 200)
    ensures r.Success? ==> r.value == v
    ensures r.Failure? ==> r.error != {} && r.error <= {"name", "memory", "cores", "disk"}
    ensures r.Failure? ==> ("name" in r.error <==> !(v.name.None? || 3 <= |v.name.value| <= 100))
    ensures r.Failure? ==> r.error - {"name"} == SizeErrors(v.memory, v.cores, v.disk)
  {
    var errors := (if v.name.None? || NameLengthOk(v.name.value) then {} else {"name"})
                  + SizeErrors(v.memory, v.cores, v.disk);
    if errors == {} then Success(v) else Failure(errors)
  }

  /** The empty update body is valid: every field may be left out. */
  lemma EmptyUpdateValid()
    ensures ValidateUpdate(VMUpdate(None, None, None, None)) == Success(VMUpdate(None, None, None, None))
  {
  }

  /** Every name a create body accepts an update body accepts too, with the
      same sizes. */
  lemma UpdateLaxerThanCreate(v: VMCreate)
    requires ValidateCreate(v).Success?
    ensures ValidateUpdate(VMUpdate(Some(v.name), v.memory, v.cores, v.disk)).Success?
  {
  }

  /** The converse fails: an update may rename a machine to a name that a
      create body would refuse. */
  lemma UpdateAcceptsNamesCreateRefuses()
    ensures ValidateUpdate(VMUpdate(Some("my vm!"), None, None, None)).Success?
    ensures ValidateCreate(VMCreate("my vm!", None, None, None)).Failure?
  {
    assert !IsNameChar("my vm!"[2]);
  }

  // ---------------------------------------------------------------------
  // `VMAction`

  const Actions: seq<string> := ["start", "stop", "restart", "suspend", "delete"]

  /** The anchored alternation `^(start|stop|restart|suspend|delete)$`,
      tried alternative by alternative. */
  function MatchAction(a: string, alternatives: seq<string>): (r: bool)
    ensures r <==> exists k :: 0 <= k < |alternatives| && alternatives[k] == a
  {
    if alternatives == [] then false
    else a == alternatives[0] || MatchAction(a, alternatives[1..])
  }

  function ValidateAction(a: string): (r: Result<string, set<string>>)
    ensures r.Success? <==> a == "start" || a == "stop" || a == "restart" || a == "suspend" || a == "delete"
    ensures r.Success? ==> r.value == a
    ensures r.Failure? ==> r.error == {"action"}
  {
    if MatchAction(a, Actions) then Success(a) else Failure({"action"})
  }

  /** Every accepted action is a lower-case word of four to seven letters. */
  lemma ActionLetters(a: string)
    ensures ValidateAction(a).Success? ==> 4 <= |a| <= 7 && forall i :: 0 <= i < |a| ==> 'a' <= a[i] <= 'z'
  {
  }

  /** Matching is anchored at both ends: text around an accepted action is
      refused. */
  lemma ActionIsExact(a: string)
    requires ValidateAction(a).Success?
    ensures ValidateAction(a + " ").Failure?
    ensures ValidateAction(" " + a).Failure?
  {
    ActionLetters(a + " ");
    assert (a + " ")[|a|] == ' ';
    ActionLetters(" " + a);
    assert (" " + a)[0] == ' ';
  }
}
