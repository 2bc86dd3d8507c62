/** The loosely typed dictionaries the core builds and exchanges: record
    serialisations (`to_dict`) and controller rule documents. */
module Values {
  import opened Wrappers

  /** An opaque point in time; only its identity matters to the core. */
  datatype Timestamp = Timestamp(micros: int)

  /** A dictionary value. `IsoTime(t)` stands for the text `t.isoformat()`,
      `Time(t)` for the datetime object itself. */
  datatype Value =
    | Null
    | Bool(b: bool)
    | Int(i: int)
    | Str(s: string)
    | IsoTime(t: Timestamp)
    | Time(t: Timestamp)

  /** A flat JSON-like dictionary with string keys. */
  type Doc = map<string, Value>

  function OptInt(o: Option<int>): Value {
    if o.Some? then Int(o.value) else Null
  }

  function OptStr(o: Option<string>): Value {
    if o.Some? then Str(o.value) else Null
  }

  /** `x.isoformat() if x else None`: a datetime is always truthy. */
  function OptIso(o: Option<Timestamp>): Value {
    if o.Some? then IsoTime(o.value) else Null
  }

  function OptTime(o: Option<Timestamp>): Value {
    if o.Some? then Time(o.value) else Null
  }

  // Readers that undo the writers above.

  function ReadInt(v: Value): Option<int> {
    if v.Int? then Some(v.i) else None
  }

  function ReadStr(v: Value): Option<string> {
    if v.Str? then Some(v.s) else None
  }

  function ReadBool(v: Value): Option<bool> {
    if v.Bool? then Some(v.b) else None
  }

  function ReadOptInt(v: Value): Option<Option<int>> {
    if v.Null? then Some(None) else if v.Int? then Some(Some(v.i)) else None
  }

  function ReadOptStr(v: Value): Option<Option<string>> {
    if v.Null? then Some(None) else if v.Str? then Some(Some(v.s)) else None
  }

  function ReadOptIso(v: Value): Option<Option<Timestamp>> {
    if v.Null? then Some(None) else if v.IsoTime? then Some(Some(v.t)) else None
  }

  function ReadOptTime(v: Value): Option<Option<Timestamp>> {
    if v.Null? then Some(None) else if v.Time? then Some(Some(v.t)) else None
  }
}
