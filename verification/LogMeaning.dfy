/** What the log handler of internal/logging/handler.go writes, said without replaying anything. */
module LogMeaning {
  import opened Common
  import opened LogHandler
  import Text

  /** The caller's part of an entry: the attributes and groups of the operations, around the record's own. */
  function Meaning(top: bool, ops: seq<Op>, attrs: seq<Attr>): seq<Attr> {
    if ops == [] then WrittenAll(top, attrs) else
    match ops[0]
    case Attrs(own) => WrittenAll(top, own) + Meaning(top, ops[1..], attrs)
    case OpenGroup(name) => InGroup(name, Meaning(false, ops[1..], attrs))
  }

  lemma {:induction false} ReplayedFrom(h: JsonHandler, ops: seq<Op>)
    requires h.Valid() && ops != []
    ensures Replayed(h, ops) == Replayed(Apply(h, ops[0]), ops[1..])
  {
    if |ops| > 1 {
      ReplayedFrom(h, ops[..|ops| - 1]);
      assert ops[..|ops| - 1][1..] == ops[1..][..|ops| - 2];
    }
  }

  /** Replaying operations and closing the groups they open writes their meaning into the groups open before. */
  lemma {:induction false} ReplayWritesMeaning(h: JsonHandler, ops: seq<Op>, attrs: seq<Attr>)
    requires h.Valid()
    ensures var r := Replayed(h, ops);
            Close(r.levels, WrittenAll(r.Top(), attrs)) == Close(h.levels, Meaning(h.Top(), ops, attrs))
    decreases |ops|
  {
    if ops != [] {
      ReplayedFrom(h, ops);
      ReplayWritesMeaning(Apply(h, ops[0]), ops[1..], attrs);
      FirstOperation(h, ops, attrs);
    }
  }

  lemma FirstOperation(h: JsonHandler, ops: seq<Op>, attrs: seq<Attr>)
    requires h.Valid() && ops != []
    ensures var next := Apply(h, ops[0]);
            Close(next.levels, Meaning(next.Top(), ops[1..], attrs)) == Close(h.levels, Meaning(h.Top(), ops, attrs))
  {
    var rest := Meaning(Apply(h, ops[0]).Top(), ops[1..], attrs);
    match ops[0] {
      case Attrs(own) => CloseAfterAttrs(h, own, rest);
      case OpenGroup(name) => CloseAfterGroup(h, name, rest);
    }
  }

  lemma CloseAfterGroup(h: JsonHandler, name: string, rest: seq<Attr>)
    requires h.Valid()
    ensures Close(h.WithGroup(name).levels, rest) == Close(h.levels, InGroup(name, rest))
  {
    var levels := h.WithGroup(name).levels;
    assert levels[..|levels| - 1] == h.levels;
    assert [] + rest == rest;
  }

  lemma CloseAfterAttrs(h: JsonHandler, own: seq<Attr>, rest: seq<Attr>)
    requires h.Valid()
    ensures Close(h.WithAttrs(own).levels, rest) == Close(h.levels, WrittenAll(h.Top(), own) + rest)
  {
    var levels, levels' := h.levels, h.WithAttrs(own).levels;
    var n := |levels| - 1;
    assert levels'[..n] == levels[..n];
    assert (levels[n].fields + WrittenAll(h.Top(), own)) + rest == levels[n].fields + (WrittenAll(h.Top(), own) + rest);
  }

  /** The handler NewHandler starts from: nothing written, no group open. */
  predicate Fresh(base: JsonHandler) {
    base.levels == [Open("", [])]
  }

  /** What the caller's calls and a record contribute to an entry. */
  function CallerPart(ops: seq<Op>, record: Record): seq<Attr> {
    Meaning(true, ops, if Grouped(ops) then record.attrs else Renamed(record.attrs))
  }

  /** An attribute with a longer key than any built-in one is written as it is. */
  lemma LongKeyIsWritten(a: Attr)
    requires |a.key| > 10 && !a.value.Group?
    ensures Written(true, a) == [a]
  {
  }

  lemma TraceFieldsAreWritten(projectID: string, span: Span)
    ensures WrittenAll(true, TraceFields(projectID, span)) == TraceFields(projectID, span)
  {
    var fields := TraceFields(projectID, span);
    forall i | 0 <= i < 3 ensures Written(true, fields[i]) == [fields[i]] {
      LongKeyIsWritten(fields[i]);
    }
    assert WrittenAll(true, fields[1..][1..][1..]) == [];
    assert WrittenAll(true, fields[1..][1..]) == [fields[2]];
    assert WrittenAll(true, fields[1..]) == [fields[1]] + [fields[2]];
  }

  /**
   The entry written under a span is the entry written without one with exactly the three trace fields added,
   at the top level, between the record's own fields and the caller's part, which is the same in both.
   */
  lemma SpanAddsTraceFields(base: JsonHandler, ops: seq<Op>, projectID: string, span: Span, record: Record)
    requires Fresh(base)
    ensures EntryOf(base, ops, projectID, None, record) == BuiltIns(base.addSource, record) + CallerPart(ops, record)
    ensures EntryOf(base, ops, projectID, Some(span), record) ==
            BuiltIns(base.addSource, record) + TraceFields(projectID, span) + CallerPart(ops, record)
  {
    EntryOver(base, ops, record);
    TracedBase(base, projectID, span);
    EntryOver(base.WithAttrs(TraceFields(projectID, span)), ops, record);
    assert BuiltIns(base.addSource, record) + [] == BuiltIns(base.addSource, record);
  }

  lemma TracedBase(base: JsonHandler, projectID: string, span: Span)
    requires Fresh(base)
    ensures base.WithAttrs(TraceFields(projectID, span)) == JsonHandler(base.addSource, [Open("", TraceFields(projectID, span))])
  {
    TraceFieldsAreWritten(projectID, span);
    assert [] + TraceFields(projectID, span) == TraceFields(projectID, span);
  }

  /** The entry replayed from this start: the record's own fields, what the start had written, the caller's part. */
  lemma EntryOver(start: JsonHandler, ops: seq<Op>, record: Record)
    requires |start.levels| == 1
    ensures EntryFrom(start, ops, record) ==
            BuiltIns(start.addSource, record) + start.levels[0].fields + CallerPart(ops, record)
  {
    BuiltInsIgnoreAttrs(start.addSource, record);
    ReplayedEntry(start, ops, if Grouped(ops) then record else record.(attrs := Renamed(record.attrs)));
  }

  /** The entry of a handler replayed over a base with no group open. */
  lemma ReplayedEntry(base: JsonHandler, ops: seq<Op>, record: Record)
    requires |base.levels| == 1
    ensures Replayed(base, ops).Handle(record) ==
            BuiltIns(base.addSource, record) + base.levels[0].fields + Meaning(true, ops, record.attrs)
  {
    ReplayWritesMeaning(base, ops, record.attrs);
    CloseAtTop(base.levels, Meaning(true, ops, record.attrs));
    var own, fields, part := BuiltIns(base.addSource, record), base.levels[0].fields, Meaning(true, ops, record.attrs);
    assert own + (fields + part) == own + fields + part;
  }

  lemma CloseAtTop(levels: seq<Open>, fields: seq<Attr>)
    requires |levels| == 1
    ensures Close(levels, fields) == levels[0].fields + fields
  {
  }

  lemma BuiltInsIgnoreAttrs(addSource: bool, record: Record)
    ensures BuiltIns(addSource, record.(attrs := Renamed(record.attrs))) == BuiltIns(addSource, record)
  {
  }

  // ----- What the gateway writes of its own -----

  /** The severities by the levels of log/slog. */
  lemma SeverityOfLevel(level: int)
    ensures SeverityOf(level) == "DEBUG" <==> level < 0
    ensures SeverityOf(level) == "INFO" <==> 0 <= level < 4
    ensures SeverityOf(level) == "WARNING" <==> 4 <= level < 8
    ensures SeverityOf(level) == "ERROR" <==> 8 <= level < 12
    ensures SeverityOf(level) == "CRITICAL" <==> 12 <= level
  {
    assert "DEBUG"[0] == 'D' && "INFO"[0] == 'I' && "WARNING"[0] == 'W' && "ERROR"[0] == 'E' && "CRITICAL"[0] == 'C';
  }

  /** The record's own fields, under the keys Cloud Logging reads. */
  lemma OwnFields(addSource: bool, record: Record)
    ensures BuiltIns(addSource, record) ==
            (if record.time.Some? then [Attr("time", Rfc3339(record.time.value))] else [])
            + [Attr("severity", String(SeverityOf(record.level)))]
            + (if addSource && record.source.Some? then
                 [Attr("logging.googleapis.com/sourceLocation",
                       Group([Attr("file", String(record.source.value.file)),
                              Attr("line", String(Text.Itoa(record.source.value.line))),
                              Attr("function", String(record.source.value.function_))]))]
               else [])
            + [Attr("message", String(record.message))]
  {
    assert KEY_SOURCE_LOCATION == "logging.googleapis.com/sourceLocation";
  }

  /** The list has one field under this key, with this value. */
  ghost predicate OnlyField(fields: seq<Attr>, key: string, value: Value) {
    exists i :: 0 <= i < |fields| && fields[i] == Attr(key, value) && forall j :: 0 <= j < |fields| && fields[j].key == key ==> j == i
  }

  lemma TraceKeys()
    ensures KEY_TRACE == "logging.googleapis.com/trace" && |KEY_TRACE| == 28
    ensures KEY_SPAN_ID == "logging.googleapis.com/spanId" && |KEY_SPAN_ID| == 29
    ensures KEY_TRACE_SAMPLED == "logging.googleapis.com/trace_sampled" && |KEY_TRACE_SAMPLED| == 36
  {
  }

  /** None of the record's own keys is as long as one of the trace keys. */
  lemma OwnKeysAreOther(addSource: bool, record: Record)
    ensures forall i :: 0 <= i < |BuiltIns(addSource, record)| ==> |BuiltIns(addSource, record)[i].key| !in {28, 29, 36}
  {
    OwnFields(addSource, record);
    assert |"logging.googleapis.com/sourceLocation"| == 37;
  }

  /**
   Under a span the gateway's part of an entry has exactly one field under each of the three trace keys: the trace
   by its ID, as a resource of the project if there is one, the ID of the span, and whether it is sampled.
   */
  lemma SpanIsNamed(base: JsonHandler, ops: seq<Op>, projectID: string, span: Span, record: Record)
    requires Fresh(base)
    ensures var entry, n := EntryOf(base, ops, projectID, Some(span), record), |BuiltIns(base.addSource, record)| + 3;
            && n <= |entry| && entry[n..] == CallerPart(ops, record)
            && OnlyField(entry[..n], "logging.googleapis.com/trace",
                         String(if projectID == "" then span.traceID else "projects/" + projectID + "/traces/" + span.traceID))
            && OnlyField(entry[..n], "logging.googleapis.com/spanId", String(span.spanID))
            && OnlyField(entry[..n], "logging.googleapis.com/trace_sampled", Bool(span.sampled))
  {
    SpanAddsTraceFields(base, ops, projectID, span, record);
    var own, added, entry := BuiltIns(base.addSource, record), TraceFields(projectID, span), EntryOf(base, ops, projectID, Some(span), record);
    assert entry[..|own| + 3] == own + added && entry[|own| + 3..] == CallerPart(ops, record);
    TraceKeys();
    OwnKeysAreOther(base.addSource, record);
    OnlyAmong(own, added, 0);
    OnlyAmong(own, added, 1);
    OnlyAmong(own, added, 2);
  }

  /** A key that is new to a list, and stands once in another, stands once in both together. */
  lemma OnlyAmong(own: seq<Attr>, added: seq<Attr>, n: nat)
    requires n < |added| && (forall i :: 0 <= i < |own| ==> |own[i].key| != |added[n].key|)
    requires forall i :: 0 <= i < |added| && i != n ==> |added[i].key| != |added[n].key|
    ensures OnlyField(own + added, added[n].key, added[n].value)
  {
    var all := own + added;
    assert all[|own| + n] == added[n];
    forall j | 0 <= j < |all| && all[j].key == added[n].key ensures j == |own| + n {
      if j >= |own| {
        assert all[j] == added[j - |own|];
      }
    }
  }

  // ----- What a sequence of calls writes -----

  /** Inside a group nothing is renamed. */
  function InsideGroup(calls: seq<Op>, attrs: seq<Attr>): seq<Attr>
    decreases |calls|
  {
    if calls == [] then WrittenAll(false, attrs) else
    match calls[0]
    case Attrs(own) => WrittenAll(false, own) + InsideGroup(calls[1..], attrs)
    case OpenGroup(name) =>
      if name == "" then InsideGroup(calls[1..], attrs) else InGroup(name, InsideGroup(calls[1..], attrs))
  }

  /** Outside of groups reserved keys are renamed, of the calls' attributes and of the record's. */
  function OutsideGroups(calls: seq<Op>, attrs: seq<Attr>): seq<Attr>
    decreases |calls|
  {
    if calls == [] then WrittenAll(true, Renamed(attrs)) else
    match calls[0]
    case Attrs(own) => WrittenAll(true, Renamed(own)) + OutsideGroups(calls[1..], attrs)
    case OpenGroup(name) =>
      if name == "" then OutsideGroups(calls[1..], attrs) else InGroup(name, InsideGroup(calls[1..], attrs))
  }

  lemma {:induction false} RecordedInsideGroup(calls: seq<Op>, attrs: seq<Attr>)
    ensures Meaning(false, Recorded(true, calls), attrs) == InsideGroup(calls, attrs)
    decreases |calls|
  {
    if calls != [] {
      var one, tail := RecordedCall(true, calls[0]), Recorded(true, calls[1..]);
      RecordedInsideGroup(calls[1..], attrs);
      if one == [] {
        assert one + tail == tail;
        assert [] + InsideGroup(calls[1..], attrs) == InsideGroup(calls[1..], attrs);
      } else {
        assert (one + tail)[1..] == tail;
      }
    }
  }

  lemma {:induction false} RecordedOutsideGroups(calls: seq<Op>, attrs: seq<Attr>, kept: seq<Attr>)
    requires kept == if OpensGroup(calls) then attrs else Renamed(attrs)
    ensures Meaning(true, Recorded(false, calls), kept) == OutsideGroups(calls, attrs)
    decreases |calls|
  {
    if calls != [] {
      var one, tail := RecordedCall(false, calls[0]), Recorded(Opens(calls[0]), calls[1..]);
      OpensOneMore(calls);
      if Opens(calls[0]) {
        RecordedInsideGroup(calls[1..], attrs);
      } else {
        RecordedOutsideGroups(calls[1..], attrs, kept);
      }
      if one == [] {
        assert one + tail == tail && Renamed([]) == [];
        assert [] + OutsideGroups(calls[1..], attrs) == OutsideGroups(calls[1..], attrs);
      } else {
        assert (one + tail)[1..] == tail;
      }
    }
  }

  /**
   For every sequence of WithAttrs and WithGroup calls and every record, the caller's part of the entry is what the
   calls and the record say, group within group, with reserved keys renamed outside of groups and nothing renamed inside.
   */
  lemma CallsWriteTheirMeaning(calls: seq<Op>, record: Record)
    ensures CallerPart(DerivedAll([], calls), record) == OutsideGroups(calls, record.attrs)
  {
    DerivedIsRecorded([], calls);
    var ops := Recorded(false, calls);
    assert [] + ops == ops;
    GroupedWhenOpened(false, calls);
    RecordedOutsideGroups(calls, record.attrs, if OpensGroup(calls) then record.attrs else Renamed(record.attrs));
  }

  // ----- Reserved keys -----

  /** Reserved are the keys of the built-in fields, before and after they are renamed, and all of Cloud Logging's own. */
  lemma ReservedKeys(key: string)
    ensures IsReserved(key) <==>
            || key in ["time", "severity", "message", "level", "msg", "source"]
            || exists suffix :: key == "logging.googleapis.com/" + suffix
  {
    if CLOUD_LOGGING_PREFIX <= key {
      assert key == "logging.googleapis.com/" + key[|CLOUD_LOGGING_PREFIX|..];
    }
  }

  /** Every key the gateway writes of its own is reserved. */
  lemma GatewayKeysAreReserved(addSource: bool, record: Record, projectID: string, span: Span)
    ensures forall i :: 0 <= i < |BuiltIns(addSource, record)| ==> IsReserved(BuiltIns(addSource, record)[i].key)
    ensures forall i :: 0 <= i < 3 ==> IsReserved(TraceFields(projectID, span)[i].key)
  {
    OwnFields(addSource, record);
    TraceKeys();
    assert CLOUD_LOGGING_PREFIX <= "logging.googleapis.com/sourceLocation";
  }

  /** Unless the calls collide, no field of the caller's stands beside a field of the gateway's with the same key. */
  lemma NothingIsShadowed(base: JsonHandler, calls: seq<Op>, projectID: string, span: Span, record: Record, i: nat, j: nat)
    requires Fresh(base) && !Collides(calls, record.attrs)
    requires var n := |BuiltIns(base.addSource, record)| + 3;
             i < n <= j < |EntryOf(base, DerivedAll([], calls), projectID, Some(span), record)|
    ensures var entry := EntryOf(base, DerivedAll([], calls), projectID, Some(span), record); entry[i].key != entry[j].key
  {
    var ops := DerivedAll([], calls);
    SpanAddsTraceFields(base, ops, projectID, span, record);
    GatewayKeysAreReserved(base.addSource, record, projectID, span);
    ReservedKeyExactlyWhen(calls, record);
    var own, added, part, entry := BuiltIns(base.addSource, record), TraceFields(projectID, span), CallerPart(ops, record),
                                   EntryOf(base, ops, projectID, Some(span), record);
    assert entry[i] == if i < |own| then own[i] else added[i - |own|];
    assert entry[j] == part[j - |own| - 3];
  }


  ghost predicate HasReserved(fields: seq<Attr>) {
    exists i :: 0 <= i < |fields| && IsReserved(fields[i].key)
  }

  lemma HasReservedConcat(a: seq<Attr>, b: seq<Attr>)
    ensures HasReserved(a + b) <==> HasReserved(a) || HasReserved(b)
  {
    var c := a + b;
    assert forall i :: 0 <= i < |a| ==> c[i] == a[i];
    assert forall i :: 0 <= i < |b| ==> c[|a| + i] == b[i];
  }

  lemma PrefixedIsNotReserved(key: string)
    ensures !IsReserved(RESERVED_PREFIX + key)
  {
    assert (RESERVED_PREFIX + key)[0] == 'a';
    assert CLOUD_LOGGING_PREFIX[0] == 'l';
  }

  lemma RenamingTwice(a: Attr)
    ensures !IsReserved(RenameReserved(a).key) && RenameReserved(RenameReserved(a)) == RenameReserved(a)
    ensures RenameReserved(a).value == a.value
    ensures RenameReserved(a).key == if IsReserved(a.key) then "attr_" + a.key else a.key
  {
    PrefixedIsNotReserved(a.key);
  }

  /** Renaming goes attribute by attribute and keeps their order. */
  lemma RenamedOneByOne(attrs: seq<Attr>, i: nat)
    requires i < |attrs|
    ensures |Renamed(attrs)| == |attrs|
    ensures Renamed(attrs)[i] == if IsReserved(attrs[i].key) then Attr("attr_" + attrs[i].key, attrs[i].value) else attrs[i]
  {
    RenamingTwice(attrs[i]);
  }

  /** Rewriting built-in fields neither makes nor loses a reserved key, and leaves every other attribute alone. */
  lemma ReplaceKeepsReservation(top: bool, a: Attr)
    ensures IsReserved(Replace(top, a).key) <==> IsReserved(a.key)
    ensures !IsReserved(a.key) ==> Replace(top, a) == a
  {
    assert CLOUD_LOGGING_PREFIX <= KEY_SOURCE_LOCATION;
  }

  /** The attribute is a group without a name, which slog writes in place. */
  predicate Inlined(a: Attr) {
    a.key == "" && a.value.Group?
  }

  /** An attribute inside an inlined group reaches the top level under a reserved key. */
  ghost predicate Escapes(a: Attr) {
    Inlined(a) && exists i :: 0 <= i < |a.value.attrs| && Surfaces(a.value.attrs[i])
  }

  /** Something is written of the attribute: it is not empty, and a group holds something that is not. */
  predicate HasContent(a: Attr) {
    if a.value.Group? then exists i :: 0 <= i < |a.value.attrs| && HasContent(a.value.attrs[i]) else a != Attr("", Nothing)
  }

  predicate AnyContent(attrs: seq<Attr>) {
    exists i :: 0 <= i < |attrs| && HasContent(attrs[i])
  }

  lemma {:induction false} WrittenWhenContent(top: bool, a: Attr)
    ensures Written(top, a) != [] <==> HasContent(a)
    decreases a, 0
  {
    if a.value.Group? {
      AllWrittenWhenContent(top && a.key == "", a.value.attrs);
    }
  }

  lemma {:induction false} AllWrittenWhenContent(top: bool, attrs: seq<Attr>)
    ensures WrittenAll(top, attrs) != [] <==> AnyContent(attrs)
    decreases attrs, 1
  {
    if attrs != [] {
      WrittenWhenContent(top, attrs[0]);
      AllWrittenWhenContent(top, attrs[1..]);
      assert forall i :: 0 <= i < |attrs| - 1 ==> attrs[1..][i] == attrs[i + 1];
    }
  }

  /** A nested attribute that reaches the top level under a reserved key, itself or through inlined groups. */
  ghost predicate Surfaces(a: Attr) {
    if Inlined(a) then exists i :: 0 <= i < |a.value.attrs| && Surfaces(a.value.attrs[i])
    else IsReserved(a.key) && HasContent(a)
  }

  lemma {:induction false} SurfacesWhenReserved(a: Attr)
    ensures HasReserved(Written(true, a)) <==> Surfaces(a)
    decreases a, 0
  {
    if Inlined(a) {
      SurfacesInList(a.value.attrs);
    } else {
      ReplaceKeepsReservation(true, a);
      WrittenWhenContent(true, a);
      var fields := Written(true, a);
      assert |fields| <= 1;
      assert fields != [] ==> (HasReserved(fields) <==> IsReserved(fields[0].key));
    }
  }

  lemma {:induction false} SurfacesInList(attrs: seq<Attr>)
    ensures HasReserved(WrittenAll(true, attrs)) <==> exists i :: 0 <= i < |attrs| && Surfaces(attrs[i])
    decreases attrs, 1
  {
    if attrs != [] {
      SurfacesWhenReserved(attrs[0]);
      SurfacesInList(attrs[1..]);
      HasReservedConcat(Written(true, attrs[0]), WrittenAll(true, attrs[1..]));
      assert forall i :: 0 <= i < |attrs| - 1 ==> attrs[1..][i] == attrs[i + 1];
    }
  }

  /** After renaming, a top-level list shows a reserved key exactly when an inlined group carries one. */
  lemma RenamedShowsReservedExactlyWhen(attrs: seq<Attr>)
    ensures HasReserved(WrittenAll(true, Renamed(attrs))) <==> exists i :: 0 <= i < |attrs| && Escapes(attrs[i])
  {
    var renamed := Renamed(attrs);
    SurfacesInList(renamed);
    forall i | 0 <= i < |attrs| ensures Surfaces(renamed[i]) <==> Escapes(attrs[i]) {
      RenamingTwice(attrs[i]);
      assert renamed[i] == RenameReserved(attrs[i]);
      assert !IsReserved("") by { assert |CLOUD_LOGGING_PREFIX| > 0; }
    }
  }

  /** The operations a sequence of WithAttrs and WithGroup calls records, from this list on. */
  function DerivedAll(ops: seq<Op>, calls: seq<Op>): seq<Op>
    decreases |calls|
  {
    if calls == [] then ops else DerivedAll(Derived(ops, calls[0]), calls[1..])
  }

  /** The call opens a group. */
  predicate Opens(call: Op) {
    call.OpenGroup? && call.name != ""
  }

  /** What one call records, if anything. */
  function RecordedCall(grouped: bool, call: Op): seq<Op> {
    match call
    case Attrs(attrs) => if attrs == [] then [] else [Attrs(if grouped then attrs else Renamed(attrs))]
    case OpenGroup(name) => if name == "" then [] else [call]
  }

  function Recorded(grouped: bool, calls: seq<Op>): seq<Op>
    decreases |calls|
  {
    if calls == [] then [] else RecordedCall(grouped, calls[0]) + Recorded(grouped || Opens(calls[0]), calls[1..])
  }

  lemma {:induction false} DerivedIsRecorded(ops: seq<Op>, calls: seq<Op>)
    ensures DerivedAll(ops, calls) == ops + Recorded(Grouped(ops), calls)
    decreases |calls|
  {
    if calls != [] {
      DerivedIsRecorded(Derived(ops, calls[0]), calls[1..]);
      RecordedAfter(ops, calls[0], calls[1..]);
    }
  }

  lemma RecordedAfter(ops: seq<Op>, call: Op, rest: seq<Op>)
    ensures var next := Derived(ops, call);
            next + Recorded(Grouped(next), rest) ==
            ops + (RecordedCall(Grouped(ops), call) + Recorded(Grouped(ops) || Opens(call), rest))
  {
    CallIsRecorded(ops, call);
    Regrouped(ops, RecordedCall(Grouped(ops), call), Recorded(Grouped(ops) || Opens(call), rest));
  }

  lemma Regrouped(a: seq<Op>, b: seq<Op>, c: seq<Op>)
    ensures (a + b) + c == a + (b + c)
  {
  }

  lemma CallIsRecorded(ops: seq<Op>, call: Op)
    ensures Derived(ops, call) == ops + RecordedCall(Grouped(ops), call)
    ensures Grouped(Derived(ops, call)) <==> Grouped(ops) || Opens(call)
  {
    var one := RecordedCall(Grouped(ops), call);
    if one == [] {
      assert ops + one == ops;
    } else {
      OneMoreOp(ops, one[0]);
    }
  }

  /** Something is written of the record's attributes or of those of one of the calls. */
  predicate CallsHaveContent(calls: seq<Op>, attrs: seq<Attr>) {
    AnyContent(attrs) || exists i :: 0 <= i < |calls| && calls[i].Attrs? && AnyContent(calls[i].attrs)
  }

  lemma {:induction false} GroupWrittenWhenContent(calls: seq<Op>, attrs: seq<Attr>)
    ensures Meaning(false, Recorded(true, calls), attrs) != [] <==> CallsHaveContent(calls, attrs)
    decreases |calls|
  {
    if calls == [] {
      AllWrittenWhenContent(false, attrs);
    } else {
      var rest := calls[1..];
      assert forall i :: 0 <= i < |rest| ==> rest[i] == calls[i + 1];
      var recorded, tail := Recorded(true, calls), Recorded(true, rest);
      GroupWrittenWhenContent(rest, attrs);
      if recorded != tail {
        assert recorded[1..] == tail;
      }
      if calls[0].Attrs? {
        AllWrittenWhenContent(false, calls[0].attrs);
      }
    }
  }

  /**
   The caller's calls put a reserved key at the top level of an entry: an attribute escapes through an inlined
   group before any group is open, or the first group opened has a reserved name and is not empty.
   */
  ghost predicate Collides(calls: seq<Op>, attrs: seq<Attr>) {
    if calls == [] then exists i :: 0 <= i < |attrs| && Escapes(attrs[i]) else
    match calls[0]
    case Attrs(own) => (exists i :: 0 <= i < |own| && Escapes(own[i])) || Collides(calls[1..], attrs)
    case OpenGroup(name) =>
      if name == "" then Collides(calls[1..], attrs)
      else IsReserved(name) && CallsHaveContent(calls[1..], attrs)
  }

  ghost predicate OpensGroup(calls: seq<Op>) {
    exists i :: 0 <= i < |calls| && Opens(calls[i])
  }

  lemma OpensOneMore(calls: seq<Op>)
    requires calls != []
    ensures OpensGroup(calls) <==> Opens(calls[0]) || OpensGroup(calls[1..])
  {
    assert forall i :: 0 <= i < |calls| - 1 ==> calls[1..][i] == calls[i + 1];
  }

  lemma GroupedConcat(a: seq<Op>, b: seq<Op>)
    ensures Grouped(a + b) <==> Grouped(a) || Grouped(b)
  {
    var all := a + b;
    assert forall i :: 0 <= i < |a| ==> all[i] == a[i];
    assert forall i :: 0 <= i < |b| ==> all[|a| + i] == b[i];
  }

  lemma {:induction false} GroupedWhenOpened(grouped: bool, calls: seq<Op>)
    ensures Grouped(Recorded(grouped, calls)) <==> OpensGroup(calls)
    decreases |calls|
  {
    if calls != [] {
      var one, now := RecordedCall(grouped, calls[0]), grouped || Opens(calls[0]);
      OpensOneMore(calls);
      GroupedWhenOpened(now, calls[1..]);
      GroupedConcat(one, Recorded(now, calls[1..]));
      assert Grouped(one) <==> Opens(calls[0]) by {
        if one != [] {
          assert one[0].OpenGroup? <==> calls[0].OpenGroup?;
        }
      }
    }
  }

  lemma GroupShowsReserved(name: string, ops: seq<Op>, attrs: seq<Attr>)
    ensures HasReserved(Meaning(true, [OpenGroup(name)] + ops, attrs)) <==> IsReserved(name) && Meaning(false, ops, attrs) != []
  {
    var all, content := [OpenGroup(name)] + ops, Meaning(false, ops, attrs);
    assert all[1..] == ops;
    assert Meaning(true, all, attrs) == InGroup(name, content);
    if content != [] {
      assert InGroup(name, content)[0].key == name;
    }
  }

  lemma {:induction false} MeaningShowsReserved(calls: seq<Op>, attrs: seq<Attr>, kept: seq<Attr>)
    requires kept == if OpensGroup(calls) then attrs else Renamed(attrs)
    ensures HasReserved(Meaning(true, Recorded(false, calls), kept)) <==> Collides(calls, attrs)
    decreases |calls|
  {
    if calls == [] {
      RenamedShowsReservedExactlyWhen(attrs);
    } else {
      var rest := calls[1..];
      assert forall i :: 0 <= i < |rest| ==> rest[i] == calls[i + 1];
      var recorded, tail := Recorded(false, calls), Recorded(false, rest);
      if calls[0].Attrs? {
        assert OpensGroup(rest) == OpensGroup(calls);
        MeaningShowsReserved(rest, attrs, kept);
        if calls[0].attrs == [] {
          assert recorded == tail;
        } else {
          assert recorded[1..] == tail;
          RenamedShowsReservedExactlyWhen(calls[0].attrs);
          HasReservedConcat(WrittenAll(true, recorded[0].attrs), Meaning(true, tail, kept));
        }
      } else if calls[0].name == "" {
        assert recorded == tail;
        assert OpensGroup(rest) == OpensGroup(calls);
        MeaningShowsReserved(rest, attrs, kept);
      } else {
        assert OpensGroup(calls);
        assert recorded == [calls[0]] + Recorded(true, rest);
        GroupWrittenWhenContent(rest, attrs);
        GroupShowsReserved(calls[0].name, Recorded(true, rest), attrs);
      }
    }
  }

  /**
   For every sequence of WithAttrs and WithGroup calls and every record, the caller's part of the entry has a
   reserved key at the top level exactly when the calls collide.
   */
  lemma ReservedKeyExactlyWhen(calls: seq<Op>, record: Record)
    ensures HasReserved(CallerPart(DerivedAll([], calls), record)) <==> Collides(calls, record.attrs)
  {
    DerivedIsRecorded([], calls);
    var ops := Recorded(false, calls);
    assert [] + ops == ops;
    GroupedWhenOpened(false, calls);
    MeaningShowsReserved(calls, record.attrs, if OpensGroup(calls) then record.attrs else Renamed(record.attrs));
  }

  /** No inlined groups and no group with a reserved name: nothing of the caller's takes a reserved key. */
  lemma {:induction false} PlainCallsNeverCollide(calls: seq<Op>, attrs: seq<Attr>)
    requires forall i :: 0 <= i < |attrs| ==> !Inlined(attrs[i])
    requires forall i :: 0 <= i < |calls| && calls[i].OpenGroup? ==> !IsReserved(calls[i].name)
    requires forall i, j :: 0 <= i < |calls| && calls[i].Attrs? && 0 <= j < |calls[i].attrs| ==> !Inlined(calls[i].attrs[j])
    ensures !Collides(calls, attrs)
    decreases |calls|
  {
    if calls != [] {
      assert forall i :: 0 <= i < |calls| - 1 ==> calls[1..][i] == calls[i + 1];
      PlainCallsNeverCollide(calls[1..], attrs);
    }
  }

  /** The two exceptions are real: WithGroup("time"), and an attribute "time" in a group without a name. */
  lemma ReservedKeysGetThrough(text: string)
    ensures Collides([OpenGroup("time")], [Attr("k", String(text))])
    ensures Collides([], [Attr("", Group([Attr("time", String(text))]))])
  {
    var attr, inner := Attr("k", String(text)), Attr("time", String(text));
    assert HasContent([attr][0]) && AnyContent([attr]);
    var group := Attr("", Group([inner]));
    assert group.value.attrs[0] == inner && Surfaces(inner);
    assert Escapes([group][0]);
  }
}
