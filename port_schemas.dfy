/** Request validation for port forwards: the field constraints of the create
    and update bodies, with the declared defaults filled in for fields the
    request leaves out. */
module PortSchemas {
  import opened Wrappers
  import opened Text

  const MinExternalPort := 1024
  const MaxPort := 65535
  const DefaultInternalPort := 22
  const DefaultProtocol := "tcp"
  const MaxDescriptionLength := 500

  predicate ValidExternalPort(p: int) {
    MinExternalPort <= p <= MaxPort
  }

  predicate ValidInternalPort(p: int) {
    1 <= p <= MaxPort
  }

  /** The anchored alternation `^(tcp|udp|both)$`. */
  predicate ValidProtocol(p: string) {
    p == "tcp" || p == "udp" || p == "both"
  }

  predicate ValidDescription(d: Option<string>) {
    d.None? || |d.value| <= MaxDescriptionLength
  }

  // ---------------------------------------------------------------------
  // The `internal_ip` pattern

  /** A group of one to three decimal digits. */
  predicate IsOctetText(g: string) {
    1 <= |g| <= 3 && AllDigits(g)
  }

  /** What `IntendedIpPattern`, `^(?:[0-9]{1,3}\.){3}[0-9]{1,3}$`, accepts:
      four groups of one to three digits separated by dots. */
  predicate IsDottedQuad(s: string) {
    var groups := Split(s, '.');
    |groups| == 4 && forall k :: 0 <= k < 4 ==> IsOctetText(groups[k])
  }

  lemma JoinFour(g: seq<string>, sep: char)
    requires |g| == 4
    ensures Join(g, sep) == g[0] + [sep] + g[1] + [sep] + g[2] + [sep] + g[3]
  {
    var j3 := Join(g[3..], sep);
    assert j3 == g[3];
    var j2 := Join(g[2..], sep);
    assert g[2..][1..] == g[3..];
    assert j2 == g[2] + [sep] + j3;
    var j1 := Join(g[1..], sep);
    assert g[1..][1..] == g[2..];
    assert j1 == g[1] + [sep] + j2;
    assert Join(g, sep) == g[0] + [sep] + j1;
  }

  /** Four digit groups joined by dots form a dotted quad, and every dotted
      quad is such a join: the intended pattern accepts exactly these. */
  lemma DottedQuadIsJoin(s: string)
    ensures IsDottedQuad(s) <==>
              exists g: seq<string> :: |g| == 4 && (forall k :: 0 <= k < 4 ==> IsOctetText(g[k])) && s == Join(g, '.')
  {
    if exists g: seq<string> :: |g| == 4 && (forall k :: 0 <= k < 4 ==> IsOctetText(g[k])) && s == Join(g, '.') {
      var g: seq<string> :| |g| == 4 && (forall k :: 0 <= k < 4 ==> IsOctetText(g[k])) && s == Join(g, '.');
      assert forall k :: 0 <= k < 4 ==> '.' !in g[k] by {
        forall k | 0 <= k < 4 ensures '.' !in g[k] {
          assert forall i :: 0 <= i < |g[k]| ==> IsDigit(g[k][i]);
        }
      }
      SplitJoin(g, '.');
    }
  }

  /** A dotted quad is seven to fifteen characters long. */
  lemma DottedQuadLength(s: string)
    requires IsDottedQuad(s)
    ensures 7 <= |s| <= 15
  {
    var g := Split(s, '.');
    JoinFour(g, '.');
  }

  lemma GroupsFormDottedQuad(a: string, b: string, c: string, d: string)
    requires IsOctetText(a) && IsOctetText(b) && IsOctetText(c) && IsOctetText(d)
    ensures IsDottedQuad(a + "." + b + "." + c + "." + d)
  {
    var g := [a, b, c, d];
    JoinFour(g, '.');
    assert Join(g, '.') == a + "." + b + "." + c + "." + d;
    assert forall k :: 0 <= k < 4 ==> IsOctetText(g[k]);
    DottedQuadIsJoin(a + "." + b + "." + c + "." + d);
  }

  // ---------------------------------------------------------------------
  // Compiling a pattern

  /** The regular-expression engines pydantic can compile a field pattern
      with: the `regex` crate, its default, and Python's `re`. */
  datatype Engine = RustRegex | PythonRe

  /** How an engine reads the brackets and groups of `p` from index `i`
      on, with `groups` groups and `classes` character classes open: `\`
      takes the next character literally, `(` opens a group and `)` closes
      the innermost one, `[` opens a class and `]` closes it. Inside a class
      `(` and `)` are literal, and so is `[` for `re`, while the `regex`
      crate opens a nested class there. The pattern compiles when nothing is
      left open and no `)` is unmatched. */
  function Scan(p: string, i: nat, groups: nat, classes: nat, e: Engine): (ok: bool)
    decreases |p| - i
  {
    if i >= |p| then groups == 0 && classes == 0
    else if p[i] == '\\' then i + 1 < |p| && Scan(p, i + 2, groups, classes, e)
    else if classes > 0 then
      if p[i] == ']' then Scan(p, i + 1, groups, classes - 1, e)
      else if p[i] == '[' && e == RustRegex then Scan(p, i + 1, groups, classes + 1, e)
      else Scan(p, i + 1, groups, classes, e)
    else if p[i] == '[' then Scan(p, i + 1, groups, 1, e)
    else if p[i] == '(' then Scan(p, i + 1, groups + 1, 0, e)
    else if p[i] == ')' then groups > 0 && Scan(p, i + 1, groups - 1, 0, e)
    else Scan(p, i + 1, groups, 0, e)
  }

  predicate Compiles(p: string, e: Engine) {
    Scan(p, 0, 0, 0, e)
  }

  /** The schema classes can be built only if every field pattern compiles
      under the engine in use; a pattern that neither engine compiles fails
      whichever is configured. */
  predicate Builds(p: string) {
    Compiles(p, RustRegex) || Compiles(p, PythonRe)
  }

  /** A character that no engine reads as an escape, a bracket or a
      parenthesis. */
  predicate IsPlain(c: char) {
    c != '\\' && c != '[' && c != ']' && c != '(' && c != ')'
  }

  /** Plain characters leave the scan's state as it is. */
  lemma {:induction false} SkipPlain(p: string, i: nat, j: nat, groups: nat, classes: nat, e: Engine)
    requires i <= j <= |p|
    requires forall k :: i <= k < j ==> IsPlain(p[k])
    ensures Scan(p, i, groups, classes, e) == Scan(p, j, groups, classes, e)
    decreases j - i
  {
    if i < j {
      SkipPlain(p, i + 1, j, groups, classes, e);
    }
  }

  /** `internal_ip`'s pattern as the schema writes it. */
  const WrittenIpPattern := "^(?:[0-9{1,3}\\.){3}[0-9]{1,3}$"

  /** The pattern evidently intended, with the class closed before `{1,3}`. */
  const IntendedIpPattern := "^(?:[0-9]{1,3}\\.){3}[0-9]{1,3}$"

  /** The written pattern compiles under neither engine. For `re` the class
      opened at index 4 runs up to the `]` at index 23, swallowing the `)`,
      so the group opened at index 1 is never closed. For the `regex` crate
      the `[` at index 19 opens a nested class, which that `]` closes, and
      the outer class is never closed. */
  lemma WrittenIpPatternDoesNotCompile()
    ensures !Compiles(WrittenIpPattern, PythonRe) && !Compiles(WrittenIpPattern, RustRegex)
    ensures !Builds(WrittenIpPattern)
  {
    WrittenIpPatternLayout();
    UnclosedAfterNestedBracket(WrittenIpPattern, PythonRe);
    UnclosedAfterNestedBracket(WrittenIpPattern, RustRegex);
  }

  /** Where the written pattern's escape, brackets and parentheses sit. */
  lemma WrittenIpPatternLayout()
    ensures |WrittenIpPattern| == 30
    ensures WrittenIpPattern[1] == '(' && WrittenIpPattern[4] == '[' && WrittenIpPattern[13] == '\\'
    ensures WrittenIpPattern[15] == ')' && WrittenIpPattern[19] == '[' && WrittenIpPattern[23] == ']'
    ensures forall k :: 0 <= k < 30 && k !in {1, 4, 13, 14, 15, 19, 23} ==> IsPlain(WrittenIpPattern[k])
  {
  }

  /** A pattern laid out as the written one, whatever its plain characters:
      a group opens, a class opens inside it, an escape and a `)` follow
      inside the class, then a second `[` and the only `]`. */
  lemma UnclosedAfterNestedBracket(p: string, e: Engine)
    requires |p| == 30
    requires p[1] == '(' && p[4] == '[' && p[13] == '\\' && p[15] == ')' && p[19] == '[' && p[23] == ']'
    requires forall k :: 0 <= k < 30 && k !in {1, 4, 13, 14, 15, 19, 23} ==> IsPlain(p[k])
    ensures !Compiles(p, e)
  {
    var nested := if e == RustRegex then 2 else 1;
    SkipPlain(p, 0, 1, 0, 0, e);
    assert Scan(p, 1, 0, 0, e) == Scan(p, 2, 1, 0, e);
    SkipPlain(p, 2, 4, 1, 0, e);
    assert Scan(p, 4, 1, 0, e) == Scan(p, 5, 1, 1, e);
    SkipPlain(p, 5, 13, 1, 1, e);
    assert Scan(p, 13, 1, 1, e) == Scan(p, 15, 1, 1, e);
    assert Scan(p, 15, 1, 1, e) == Scan(p, 16, 1, 1, e);
    SkipPlain(p, 16, 19, 1, 1, e);
    assert Scan(p, 19, 1, 1, e) == Scan(p, 20, 1, nested, e);
    SkipPlain(p, 20, 23, 1, nested, e);
    assert Scan(p, 23, 1, nested, e) == Scan(p, 24, 1, nested - 1, e);
    SkipPlain(p, 24, 30, 1, nested - 1, e);
  }

  /** The intended pattern compiles under both engines. */
  lemma IntendedIpPatternCompiles()
    ensures Compiles(IntendedIpPattern, PythonRe) && Compiles(IntendedIpPattern, RustRegex)
    ensures Builds(IntendedIpPattern)
  {
    IntendedIpPatternLayout();
    BalancedGroupAndClasses(IntendedIpPattern, PythonRe);
    BalancedGroupAndClasses(IntendedIpPattern, RustRegex);
  }

  /** Where the intended pattern's escape, brackets and parentheses sit. */
  lemma IntendedIpPatternLayout()
    ensures |IntendedIpPattern| == 31
    ensures IntendedIpPattern[1] == '(' && IntendedIpPattern[4] == '[' && IntendedIpPattern[8] == ']'
    ensures IntendedIpPattern[14] == '\\' && IntendedIpPattern[16] == ')'
    ensures IntendedIpPattern[20] == '[' && IntendedIpPattern[24] == ']'
    ensures forall k :: 0 <= k < 31 && k !in {1, 4, 8, 14, 15, 16, 20, 24} ==> IsPlain(IntendedIpPattern[k])
  {
  }

  /** A pattern laid out as the intended one: a group holding a closed class
      and an escape, then a second closed class. */
  lemma BalancedGroupAndClasses(p: string, e: Engine)
    requires |p| == 31
    requires p[1] == '(' && p[4] == '[' && p[8] == ']' && p[14] == '\\' && p[16] == ')'
    requires p[20] == '[' && p[24] == ']'
    requires forall k :: 0 <= k < 31 && k !in {1, 4, 8, 14, 15, 16, 20, 24} ==> IsPlain(p[k])
    ensures Compiles(p, e)
  {
    SkipPlain(p, 0, 1, 0, 0, e);
    assert Scan(p, 1, 0, 0, e) == Scan(p, 2, 1, 0, e);
    SkipPlain(p, 2, 4, 1, 0, e);
    assert Scan(p, 4, 1, 0, e) == Scan(p, 5, 1, 1, e);
    SkipPlain(p, 5, 8, 1, 1, e);
    assert Scan(p, 8, 1, 1, e) == Scan(p, 9, 1, 0, e);
    SkipPlain(p, 9, 14, 1, 0, e);
    assert Scan(p, 14, 1, 0, e) == Scan(p, 16, 1, 0, e);
    assert Scan(p, 16, 1, 0, e) == Scan(p, 17, 0, 0, e);
    SkipPlain(p, 17, 20, 0, 0, e);
    assert Scan(p, 20, 0, 0, e) == Scan(p, 21, 0, 1, e);
    SkipPlain(p, 21, 24, 0, 1, e);
    assert Scan(p, 24, 0, 1, e) == Scan(p, 25, 0, 0, e);
    SkipPlain(p, 25, 31, 0, 0, e);
  }

  // ---------------------------------------------------------------------
  // Bodies

  /** A create body as received: `None` marks a field left out. */
  datatype PortForwardInput = PortForwardInput(
    externalPort: int,
    internalPort: Option<int>,
    internalIp: string,
    protocol: Option<string>,
    description: Option<string>,
    vmId: int)

  /** `PortForwardCreate` after validation, with defaults filled in. */
  datatype PortForwardCreate = PortForwardCreate(
    externalPort: int,
    internalPort: int,
    internalIp: string,
    protocol: string,
    description: Option<string>,
    vmId: int)

  /** Validation of a create body. A default is not validated, and needs not
      be (see `DefaultsValid`). */
  function ValidateCreate(v: PortForwardInput): (r: Result<PortForwardCreate, set<string>>)
    ensures r.Success? <==>
              && 1024 <= v.externalPort <= 65535
              && (v.internalPort.None? || 1 <= v.internalPort.value <= 65535)
              && IsDottedQuad(v.internalIp)
              && (v.protocol.None? || v.protocol.value in {"tcp", "udp", "both"})
              && (v.description.None? || |v.description.value| <= 500)
    ensures r.Success? ==>
              && r.value.externalPort == v.externalPort
              && r.value.internalPort == v.internalPort.GetOr(22)
              && r.value.internalIp == v.internalIp
              && r.value.protocol == v.protocol.GetOr("tcp")
              && r.value.description == v.description
              && r.value.vmId == v.vmId
    ensures r.Failure? ==> r.error != {}
    ensures r.Failure? ==> ("external_port" in r.error <==> !(1024 <= v.externalPort <= 65535))
    ensures r.Failure? ==> ("internal_port" in r.error <==> !(v.internalPort.None? || 1 <= v.internalPort.value <= 65535))
    ensures r.Failure? ==> ("internal_ip" in r.error <==> !IsDottedQuad(v.internalIp))
    ensures r.Failure? ==> ("protocol" in r.error <==> !(v.protocol.None? || v.protocol.value in {"tcp", "udp", "both"}))
    ensures r.Failure? ==> ("description" in r.error <==> !(v.description.None? || |v.description.value| <= 500))
    ensures r.Failure? ==> r.error <= {"external_port", "internal_port", "internal_ip", "protocol", "description"}
  {
    var errors :=
      (if ValidExternalPort(v.externalPort) then {} else {"external_port"})
      + (if v.internalPort.None? || ValidInternalPort(v.internalPort.value) then {} else {"internal_port"})
      + (if IsDottedQuad(v.internalIp) then {} else {"internal_ip"})
      + (if v.protocol.None? || ValidProtocol(v.protocol.value) then {} else {"protocol"})
      + (if ValidDescription(v.description) then {} else {"description"});
    if errors != {} then Failure(errors)
    else
      Success(PortForwardCreate(v.externalPort, v.internalPort.GetOr(DefaultInternalPort), v.internalIp,
                                v.protocol.GetOr(DefaultProtocol), v.description, v.vmId))
  }

  /** Why a create body is refused: the schema class could not be built, or
      the named fields failed their constraints. */
  datatype CreateRefusal = SchemaError(pattern: string) | InvalidFields(fields: set<string>)

  /** `PortForwardCreate(**body)` as the module is written. Pydantic compiles
      every field pattern when it builds the class, so a pattern that does
      not compile makes the class definition, and the import of the module,
      raise before any body is seen. The model makes that check first and
      otherwise validates as the corrected schema does. */
  function ValidateCreateAsWritten(v: PortForwardInput): (r: Result<PortForwardCreate, CreateRefusal>)
    ensures (r.Failure? && r.error.SchemaError?) <==> !Builds(WrittenIpPattern)
    ensures r.Success? ==> ValidateCreate(v) == Success(r.value)
  {
    if !Builds(WrittenIpPattern) then Failure(SchemaError(WrittenIpPattern))
    else
      match ValidateCreate(v)
      case Success(c) => Success(c)
      case Failure(fields) => Failure(InvalidFields(fields))
  }

  /** As written, every body is refused with the schema error. */
  lemma CreateAsWrittenRefusesEveryBody(v: PortForwardInput)
    ensures ValidateCreateAsWritten(v) == Failure(SchemaError(WrittenIpPattern))
  {
    WrittenIpPatternDoesNotCompile();
  }

  const SampleAddress := "10.0.0.1"

  lemma SampleAddressIsDottedQuad()
    ensures IsDottedQuad(SampleAddress)
  {
    var ten, zero, one := "10", "0", "1";
    assert IsOctetText(ten) && IsOctetText(zero) && IsOctetText(one);
    GroupsFormDottedQuad(ten, zero, zero, one);
    assert ten + "." + zero + "." + zero + "." + one == SampleAddress;
  }

  /** A body forwarding port 20000 to `10.0.0.1` with the defaults: the
      corrected schema accepts it and the schema as written refuses it. */
  lemma SampleBodyShowsSchemaError(vmId: int)
    ensures var v := PortForwardInput(20000, None, SampleAddress, None, None, vmId);
            ValidateCreate(v).Success? && ValidateCreateAsWritten(v).Failure?
  {
    SampleAddressIsDottedQuad();
    CreateAsWrittenRefusesEveryBody(PortForwardInput(20000, None, SampleAddress, None, None, vmId));
  }

  /** The declared defaults satisfy their own constraints, so a validated body
      always holds an internal port and a protocol that would pass. */
  lemma DefaultsValid()
    ensures ValidInternalPort(DefaultInternalPort) && ValidProtocol(DefaultProtocol)
  {
  }

  /** Every validated body meets every field constraint, defaults included. */
  lemma ValidatedCreateMeetsConstraints(v: PortForwardInput)
    requires ValidateCreate(v).Success?
    ensures var c := ValidateCreate(v).value;
            && ValidExternalPort(c.externalPort) && ValidInternalPort(c.internalPort)
            && IsDottedQuad(c.internalIp) && ValidProtocol(c.protocol) && ValidDescription(c.description)
  {
  }

  /** `PortForwardUpdate`: both fields optional. */
  datatype PortForwardUpdate = PortForwardUpdate(isActive: Option<bool>, description: Option<string>)

  function ValidateUpdate(v: PortForwardUpdate): (r: Result<PortForwardUpdate, set<string>>)
    ensures r.Success? <==> v.description.None? || |v.description.value| <= 500
    ensures r.Success? ==> r.value == v
    ensures r.Failure? ==> r.error == {"description"}
  {
    if ValidDescription(v.description) then Success(v) else Failure({"description"})
  }

  /** The empty update body is valid, and the description limit is the same
      in both bodies. */
  lemma UpdateOptional(d: Option<string>, v: PortForwardInput)
    ensures ValidateUpdate(PortForwardUpdate(None, None)).Success?
    ensures ValidateUpdate(PortForwardUpdate(None, d)).Success? <==> ValidDescription(d)
    ensures ValidateCreate(v).Success? ==> ValidateUpdate(PortForwardUpdate(None, v.description)).Success?
  {
  }
}
