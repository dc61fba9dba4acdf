/**
 The log handler (internal/logging/handler.go): Cloud Logging keys, reserved keys, and the trace fields that a
 record made under a span carries at the top level whatever groups are open.

 The JSON handler of log/slog it builds on is modelled by what it writes: an entry is the list of its top-level
 fields, a group without content is left out, and a group with an empty key is written in place of itself.
 */
module LogHandler {
  import opened Common
  import opened Text

  /** Where a record was made. */
  datatype Location = Location(file: string, line: nat, function_: string)

  /** A resolved slog.Value. Rfc3339 and Printed stand for the text of an instant and of any other value. */
  datatype Value =
    | Nothing
    | String(text: string)
    | Bool(flag: bool)
    | Time(nanos: int)
    | Level(level: int)
    | Source(at: Location)
    | Rfc3339(nanos: int)
    | Printed(of: Value)
    | Group(attrs: seq<Attr>)

  datatype Attr = Attr(key: string, value: Value)

  datatype Record = Record(time: Option<int>, level: int, source: Option<Location>, message: string, attrs: seq<Attr>)

  const LEVEL_INFO := 0
  const LEVEL_WARN := 4
  const LEVEL_ERROR := 8
  const LEVEL_CRITICAL := 12

  const CLOUD_LOGGING_PREFIX := "logging.googleapis.com/"
  const RESERVED_PREFIX := "attr_"
  const KEY_TRACE := CLOUD_LOGGING_PREFIX + "trace"
  const KEY_SPAN_ID := CLOUD_LOGGING_PREFIX + "spanId"
  const KEY_TRACE_SAMPLED := CLOUD_LOGGING_PREFIX + "trace_sampled"
  const KEY_SOURCE_LOCATION := CLOUD_LOGGING_PREFIX + "sourceLocation"

  function SeverityOf(level: int): string {
    if level < LEVEL_INFO then "DEBUG"
    else if level < LEVEL_WARN then "INFO"
    else if level < LEVEL_ERROR then "WARNING"
    else if level < LEVEL_CRITICAL then "ERROR"
    else "CRITICAL"
  }

  predicate IsReserved(key: string) {
    CLOUD_LOGGING_PREFIX <= key || key in ["time", "severity", "message", "level", "msg", "source"]
  }

  /** replaceAttr: outside groups the built-in attributes take the keys Cloud Logging reads. */
  function Replace(top: bool, a: Attr): Attr {
    if !top then a
    else if a.key == "time" && a.value.Time? then Attr("time", Rfc3339(a.value.nanos))
    else if a.key == "level" && a.value.Level? then Attr("severity", String(SeverityOf(a.value.level)))
    else if a.key == "msg" then Attr("message", if a.value.String? then a.value else Printed(a.value))
    else if a.key == "source" && a.value.Source? then
      Attr(KEY_SOURCE_LOCATION, Group([Attr("file", String(a.value.at.file)), Attr("line", String(Itoa(a.value.at.line))),
                                       Attr("function", String(a.value.at.function_))]))
    else a
  }

  // ----- What slog's JSON handler writes -----

  /** The fields one attribute becomes, at the top level or inside a group. */
  function Written(top: bool, a: Attr): seq<Attr> {
    if a.value.Group? then
      var fields := WrittenAll(top && a.key == "", a.value.attrs);
      if fields == [] || a.key == "" then fields else [Attr(a.key, Group(fields))]
    else
      var r := Replace(top, a);
      if r == Attr("", Nothing) then [] else [r]
  }

  function WrittenAll(top: bool, attrs: seq<Attr>): seq<Attr> {
    if attrs == [] then [] else Written(top, attrs[0]) + WrittenAll(top, attrs[1..])
  }

  /** A level of open groups with the fields written into it so far. */
  datatype Open = Open(name: string, fields: seq<Attr>)

  /** slog.JSONHandler: whether it writes the call site, and the open groups, outermost first. */
  datatype JsonHandler = JsonHandler(addSource: bool, levels: seq<Open>) {
    predicate Valid() { |levels| > 0 }
    predicate Top() { |levels| == 1 }

    function WithAttrs(attrs: seq<Attr>): JsonHandler
      requires Valid()
    {
      var last := levels[|levels| - 1];
      this.(levels := levels[|levels| - 1 := last.(fields := last.fields + WrittenAll(Top(), attrs))])
    }

    function WithGroup(name: string): JsonHandler {
      this.(levels := levels + [Open(name, [])])
    }

    /** The entry of one record. */
    function Handle(record: Record): seq<Attr>
      requires Valid()
    {
      BuiltIns(addSource, record) + Close(levels, WrittenAll(Top(), record.attrs))
    }
  }

  /** The record's own fields, in slog's order. */
  function BuiltIns(addSource: bool, record: Record): seq<Attr> {
    (if record.time.Some? then Written(true, Attr("time", Time(record.time.value))) else [])
    + Written(true, Attr("level", Level(record.level)))
    + (if addSource && record.source.Some? then Written(true, Attr("source", Source(record.source.value))) else [])
    + Written(true, Attr("msg", String(record.message)))
  }

  function InGroup(name: string, fields: seq<Attr>): seq<Attr> {
    if fields == [] then [] else [Attr(name, Group(fields))]
  }

  /** Close the open groups, innermost first, around what was written last. */
  function Close(levels: seq<Open>, fields: seq<Attr>): seq<Attr>
    requires |levels| > 0
  {
    var last := levels[|levels| - 1];
    if |levels| == 1 then last.fields + fields
    else Close(levels[..|levels| - 1], InGroup(last.name, last.fields + fields))
  }

  // ----- Reserved keys -----

  function RenameReserved(a: Attr): Attr {
    if IsReserved(a.key) then Attr(RESERVED_PREFIX + a.key, a.value) else a
  }

  function Renamed(attrs: seq<Attr>): seq<Attr> {
    seq(|attrs|, i requires 0 <= i < |attrs| => RenameReserved(attrs[i]))
  }

  /** Keeps the list when there is nothing to rename. */
  method RenameReservedAttrs(attrs: seq<Attr>) returns (renamed: seq<Attr>)
    ensures renamed == Renamed(attrs)
  {
    var collides := false;
    for i := 0 to |attrs|
      invariant collides <==> exists j :: 0 <= j < i && IsReserved(attrs[j].key)
    {
      if IsReserved(attrs[i].key) {
        collides := true;
        break;
      }
    }
    if !collides {
      return attrs;
    }
    renamed := [];
    for i := 0 to |attrs|
      invariant renamed == Renamed(attrs)[..i]
    {
      renamed := renamed + [RenameReserved(attrs[i])];
    }
  }

  /** Rebuilds the record only when one of its attributes collides. */
  method RenameReservedRecord(record: Record) returns (renamed: Record)
    ensures renamed == record.(attrs := Renamed(record.attrs))
  {
    var i, collides := 0, false;
    while i < |record.attrs| && !collides
      invariant i <= |record.attrs|
      invariant !collides ==> forall j :: 0 <= j < i ==> !IsReserved(record.attrs[j].key)
    {
      collides := IsReserved(record.attrs[i].key);
      i := i + 1;
    }
    if !collides {
      assert Renamed(record.attrs) == record.attrs;
      return record;
    }
    var attrs := [];
    for j := 0 to |record.attrs|
      invariant attrs == Renamed(record.attrs)[..j]
    {
      attrs := attrs + [RenameReserved(record.attrs[j])];
    }
    return Record(record.time, record.level, record.source, record.message, attrs);
  }

  // ----- The trace handler -----

  datatype Span = Span(traceID: string, spanID: string, sampled: bool)

  /** One call made on the base handler. */
  datatype Op = Attrs(attrs: seq<Attr>) | OpenGroup(name: string)

  function Apply(h: JsonHandler, op: Op): (r: JsonHandler)
    requires h.Valid()
    ensures r.Valid() && r.addSource == h.addSource
  {
    match op
    case Attrs(attrs) => h.WithAttrs(attrs)
    case OpenGroup(name) => h.WithGroup(name)
  }

  function Replayed(h: JsonHandler, ops: seq<Op>): (r: JsonHandler)
    requires h.Valid()
    ensures r.Valid() && r.addSource == h.addSource
  {
    if ops == [] then h else Apply(Replayed(h, ops[..|ops| - 1]), ops[|ops| - 1])
  }

  function Grouped(ops: seq<Op>): bool {
    exists i :: 0 <= i < |ops| && ops[i].OpenGroup?
  }

  function TraceName(projectID: string, traceID: string): string {
    if projectID == "" then traceID else "projects/" + projectID + "/traces/" + traceID
  }

  function TraceFields(projectID: string, span: Span): seq<Attr> {
    [Attr(KEY_TRACE, String(TraceName(projectID, span.traceID))),
     Attr(KEY_SPAN_ID, String(span.spanID)),
     Attr(KEY_TRACE_SAMPLED, Bool(span.sampled))]
  }

  /** The operation a derivation records, if any. */
  function Derived(ops: seq<Op>, call: Op): seq<Op> {
    match call
    case Attrs(attrs) => if attrs == [] then ops else ops + [Attrs(if Grouped(ops) then attrs else Renamed(attrs))]
    case OpenGroup(name) => if name == "" then ops else ops + [call]
  }

  class TraceHandler {
    const base: JsonHandler
    const inner: JsonHandler
    const ops: array<Op>
    const projectID: string
    const grouped: bool

    /** The built handler and the recorded operations agree. */
    ghost predicate Valid()
      reads ops
    {
      base.Valid() && inner == Replayed(base, ops[..]) && (grouped <==> Grouped(ops[..]))
    }

    constructor (base: JsonHandler, ops: array<Op>, projectID: string)
      requires base.Valid()
      ensures Valid() && this.base == base && this.ops == ops && this.projectID == projectID
    {
      var built, open := base, false;
      for i := 0 to ops.Length
        invariant built.Valid() && built == Replayed(base, ops[..i])
        invariant open <==> Grouped(ops[..i])
      {
        assert ops[..i + 1][..i] == ops[..i];
        built := Apply(built, ops[i]);
        open := open || ops[i].OpenGroup?;
        assert Grouped(ops[..i + 1]) <==> Grouped(ops[..i]) || ops[i].OpenGroup? by {
          OneMoreOp(ops[..i], ops[i]);
          assert ops[..i + 1] == ops[..i] + [ops[i]];
        }
      }
      assert ops[..ops.Length] == ops[..];
      this.base, this.inner, this.ops, this.projectID, this.grouped := base, built, ops, projectID, open;
    }

    /** The entry of a record: under a span the operations are replayed over a base that has the trace fields. */
    method Handle(span: Option<Span>, record: Record) returns (entry: seq<Attr>)
      requires Valid()
      ensures entry == EntryOf(base, ops[..], projectID, span, record)
    {
      var renamed := record;
      if !grouped {
        renamed := RenameReservedRecord(record);
      }
      if span.None? {
        return inner.Handle(renamed);
      }
      var handler := base.WithAttrs(TraceFields(projectID, span.value));
      ghost var traced := handler;
      for i := 0 to ops.Length
        invariant handler.Valid() && handler == Replayed(traced, ops[..i])
      {
        assert ops[..i + 1][..i] == ops[..i];
        handler := Apply(handler, ops[i]);
      }
      assert ops[..ops.Length] == ops[..];
      return handler.Handle(renamed);
    }

    /** A derived handler shares nothing that can be changed with the one it is derived from. */
    method WithAttrs(attrs: seq<Attr>) returns (derived: TraceHandler)
      requires Valid()
      ensures derived.Valid() && derived.base == base && derived.projectID == projectID
      ensures derived.ops[..] == Derived(ops[..], Attrs(attrs))
      ensures derived == this || (fresh(derived) && fresh(derived.ops))
    {
      if attrs == [] {
        return this;
      }
      var kept := attrs;
      if !grouped {
        kept := RenameReservedAttrs(attrs);
      }
      var longer := AppendOp(Attrs(kept));
      derived := new TraceHandler(base, longer, projectID);
    }

    method WithGroup(name: string) returns (derived: TraceHandler)
      requires Valid()
      ensures derived.Valid() && derived.base == base && derived.projectID == projectID
      ensures derived.ops[..] == Derived(ops[..], OpenGroup(name))
      ensures derived == this || (fresh(derived) && fresh(derived.ops))
    {
      if name == "" {
        return this;
      }
      var longer := AppendOp(OpenGroup(name));
      derived := new TraceHandler(base, longer, projectID);
    }

    /** A copy with room for one more: the array of this handler is neither changed nor shared. */
    method AppendOp(op: Op) returns (longer: array<Op>)
      ensures fresh(longer) && longer[..] == ops[..] + [op]
    {
      longer := new Op[ops.Length + 1](i => op);
      for i := 0 to ops.Length
        invariant forall j :: 0 <= j < i ==> longer[j] == ops[j]
        invariant longer[ops.Length] == op
      {
        longer[i] := ops[i];
      }
    }
  }

  lemma OneMoreOp(ops: seq<Op>, op: Op)
    ensures Grouped(ops + [op]) <==> Grouped(ops) || op.OpenGroup?
  {
    var longer := ops + [op];
    assert forall i :: 0 <= i < |ops| ==> longer[i] == ops[i];
    assert longer[|ops|] == op;
  }

  /** The entry of a record when these operations are replayed from this start. */
  function EntryFrom(start: JsonHandler, ops: seq<Op>, record: Record): seq<Attr>
    requires start.Valid()
  {
    Replayed(start, ops).Handle(if Grouped(ops) then record else record.(attrs := Renamed(record.attrs)))
  }

  function EntryOf(base: JsonHandler, ops: seq<Op>, projectID: string, span: Option<Span>, record: Record): seq<Attr>
    requires base.Valid()
  {
    EntryFrom(if span.None? then base else base.WithAttrs(TraceFields(projectID, span.value)), ops, record)
  }
}
