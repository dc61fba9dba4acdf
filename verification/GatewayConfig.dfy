/** The text formats of the environment configuration (internal/config/config.go): published keys, ports, listeners. */
module GatewayConfig {
  import opened Common
  import opened Text

  // ----- Published verification keys: kid=path,kid=path,... -----

  datatype KeyFile = KeyFile(id: string, path: string)
  datatype KeyError = NotInForm | EmptyKeyID | EmptyPath | DuplicateKeyID

  function ParsePublishedKey(entry: string): Result<KeyFile, KeyError> {
    match Cut(entry, '=')
    case None => Err(NotInForm)
    case Some((id, path)) =>
      if id == "" then Err(EmptyKeyID) else if path == "" then Err(EmptyPath) else Ok(KeyFile(id, path))
  }

  /** The documented form of one key and of a list of keys. */
  function WriteKey(key: KeyFile): string {
    key.id + "=" + key.path
  }

  function WriteKeys(keys: seq<KeyFile>): string {
    Join(seq(|keys|, i requires 0 <= i < |keys| => WriteKey(keys[i])), ',')
  }

  /** The lists of keys the form can carry next to this signing key. */
  ghost predicate Listable(keys: seq<KeyFile>, signingKeyID: string) {
    && (forall i :: 0 <= i < |keys| ==> Writable(keys[i]) && keys[i].id != signingKeyID)
    && (forall i, j :: 0 <= i < j < |keys| ==> keys[i].id != keys[j].id)
  }

  ghost predicate Writable(key: KeyFile) {
    key.id != "" && ',' !in key.id && '=' !in key.id && key.path != "" && ',' !in key.path
  }

  /** Entry n cannot be used: it is not of the form, or its kid is taken by the signing key or an earlier entry. */
  ghost predicate Faulty(entries: seq<string>, signingKeyID: string, n: nat)
    requires n < |entries|
  {
    var key := ParsePublishedKey(entries[n]);
    || key.Err?
    || key.value.id == signingKeyID
    || ReadBefore(entries, n, key.value.id)
  }

  /** One of the first n entries is a key with this kid. */
  ghost predicate ReadBefore(entries: seq<string>, n: nat, id: string)
    requires n <= |entries|
  {
    exists m :: 0 <= m < n && ParsePublishedKey(entries[m]).Ok? && ParsePublishedKey(entries[m]).value.id == id
  }

  method ParsePublishedKeys(raw: string, signingKeyID: string) returns (parsed: Result<seq<KeyFile>, seq<KeyError>>)
    ensures parsed.Ok? ==> Listable(parsed.value, signingKeyID) && WriteKeys(parsed.value) == raw
    ensures forall keys :: Listable(keys, signingKeyID) && WriteKeys(keys) == raw ==> parsed == Ok(keys)
  {
    if raw == "" {
      NothingWritten(signingKeyID);
      return Ok([]);
    }
    var entries := Split(raw, ',');
    var keys: seq<KeyFile> := [];
    var seen := if signingKeyID != "" then {signingKeyID} else {};
    var errs: seq<KeyError> := [];
    for i := 0 to |entries|
      invariant forall id :: id in seen && id != signingKeyID ==> ReadBefore(entries, i, id)
      invariant errs == [] ==> |keys| == i && Taken(keys, signingKeyID, seen)
      invariant errs == [] ==> forall m :: 0 <= m < i ==> ParsePublishedKey(entries[m]) == Ok(keys[m])
      invariant errs == [] ==> Listed(keys, signingKeyID)
      invariant errs != [] ==> exists n :: 0 <= n < i && Faulty(entries, signingKeyID, n)
    {
      var key := ParsePublishedKey(entries[i]);
      if key.Err? {
        assert Faulty(entries, signingKeyID, i);
        errs := errs + [key.error];
      } else if key.value.id in seen {
        assert Faulty(entries, signingKeyID, i);
        errs := errs + [DuplicateKeyID];
      } else {
        seen := seen + {key.value.id};
        keys := keys + [key.value];
      }
    }
    if errs != [] {
      FaultyIsNotWritten(raw, entries, signingKeyID);
      return Err(errs);
    }
    ParsedIsWritten(raw, entries, keys, signingKeyID);
    return Ok(keys);
  }

  /** The kids in use. */
  ghost predicate Taken(keys: seq<KeyFile>, signingKeyID: string, seen: set<string>) {
    && (signingKeyID != "" ==> signingKeyID in seen)
    && forall i :: 0 <= i < |keys| ==> keys[i].id in seen
  }

  ghost predicate Listed(keys: seq<KeyFile>, signingKeyID: string) {
    && (forall i :: 0 <= i < |keys| ==> keys[i].id != signingKeyID)
    && (forall i, j :: 0 <= i < j < |keys| ==> keys[i].id != keys[j].id)
  }

  lemma NothingWritten(signingKeyID: string)
    ensures Listable([], signingKeyID) && WriteKeys([]) == ""
    ensures forall keys :: Listable(keys, signingKeyID) && WriteKeys(keys) == "" ==> keys == []
  {
    forall keys | Listable(keys, signingKeyID) && keys != [] ensures WriteKeys(keys) != "" {
      assert WriteKey(keys[0]) != "";
    }
  }

  /** Reading one written key gives it back. */
  lemma ParseOfWriteKey(key: KeyFile)
    requires key.id != "" && '=' !in key.id && key.path != ""
    ensures ParsePublishedKey(WriteKey(key)) == Ok(key)
  {
    CutOf(key.id, key.path, '=');
  }

  lemma WriteOfParseKey(entry: string)
    requires ParsePublishedKey(entry).Ok?
    ensures WriteKey(ParsePublishedKey(entry).value) == entry
    ensures ',' !in entry ==> Writable(ParsePublishedKey(entry).value)
  {
    JoinOfCut(entry, '=');
  }

  lemma SplitOfWriteKeys(keys: seq<KeyFile>, signingKeyID: string)
    requires keys != [] && Listable(keys, signingKeyID)
    ensures var entries := Split(WriteKeys(keys), ',');
            |entries| == |keys| && forall i :: 0 <= i < |keys| ==> entries[i] == WriteKey(keys[i])
  {
    SplitOfJoin(seq(|keys|, i requires 0 <= i < |keys| => WriteKey(keys[i])), ',');
  }

  lemma FaultyIsNotWritten(raw: string, entries: seq<string>, signingKeyID: string)
    requires raw != "" && entries == Split(raw, ',')
    requires exists n :: 0 <= n < |entries| && Faulty(entries, signingKeyID, n)
    ensures forall keys :: !(Listable(keys, signingKeyID) && WriteKeys(keys) == raw)
  {
    var n :| 0 <= n < |entries| && Faulty(entries, signingKeyID, n);
    forall keys | Listable(keys, signingKeyID) && keys != [] ensures WriteKeys(keys) != raw {
      SplitOfWriteKeys(keys, signingKeyID);
      forall i | 0 <= i < |keys| ensures ParsePublishedKey(WriteKey(keys[i])) == Ok(keys[i]) {
        ParseOfWriteKey(keys[i]);
      }
    }
  }

  lemma ParsedIsWritten(raw: string, entries: seq<string>, keys: seq<KeyFile>, signingKeyID: string)
    requires raw != "" && entries == Split(raw, ',') && |keys| == |entries|
    requires forall i :: 0 <= i < |entries| ==> ParsePublishedKey(entries[i]) == Ok(keys[i])
    requires Listed(keys, signingKeyID)
    ensures Listable(keys, signingKeyID) && WriteKeys(keys) == raw
    ensures forall other :: Listable(other, signingKeyID) && WriteKeys(other) == raw ==> other == keys
  {
    JoinOfSplit(raw, ',');
    forall i | 0 <= i < |keys| ensures WriteKey(keys[i]) == entries[i] && Writable(keys[i]) {
      WriteOfParseKey(entries[i]);
    }
    assert seq(|keys|, i requires 0 <= i < |keys| => WriteKey(keys[i])) == entries;
    forall other | Listable(other, signingKeyID) && WriteKeys(other) == raw ensures other == keys {
      SplitOfWriteKeys(other, signingKeyID);
      forall i | 0 <= i < |other| ensures other[i] == keys[i] {
        ParseOfWriteKey(other[i]);
      }
    }
  }

  // ----- Ports -----

  const MAX_PORT := 65535

  function ParsePort(raw: string): Option<string> {
    var port := Atoi(raw);
    if raw == "" || port.None? || port.value < 1 || port.value > MAX_PORT || Itoa(port.value) != raw then None else Some(raw)
  }

  /** A text is the canonical decimal of this port number: digits without a leading zero. */
  ghost predicate PortText(raw: string, n: int) {
    1 <= n <= 65535 && raw != "" && AllDigits(raw) && raw[0] != '0' && Decimal(raw) == n
  }

  lemma PortTextIsItoa(raw: string, n: nat)
    requires 1 <= n <= 65535
    ensures PortText(raw, n) <==> raw == Itoa(n)
  {
    ItoaExactly(raw, n);
    ItoaIsCanonical(n);
  }

  /** A port is accepted exactly when it is the canonical decimal of a number in range, and is kept as it is. */
  lemma PortIsCanonical(raw: string)
    ensures ParsePort(raw).Some? <==> exists n :: PortText(raw, n)
    ensures ParsePort(raw).Some? ==> ParsePort(raw) == Some(raw)
  {
    if n :| PortText(raw, n) {
      PortTextIsItoa(raw, n);
      assert IsDigit(raw[0]);
      assert Atoi(raw) == Some(n);
    }
    if ParsePort(raw).Some? {
      PortTextIsItoa(raw, Atoi(raw).value);
    }
  }

  /** Equal port texts are equal port numbers and the other way round. */
  lemma SamePortText(n: nat, m: nat)
    ensures Itoa(n) == Itoa(m) <==> n == m
  {
    DecimalOfItoa(n);
    DecimalOfItoa(m);
  }

  // ----- Listeners -----

  datatype Inbound = Public | Internal
  datatype Listener = Listener(inbound: Inbound, port: string)
  datatype ListenerError = RetiredVariable(name: string) | InvalidPort(name: string) | SamePort
    | MustNotBeSet(name: string) | InvalidMode

  const RETIRED := ["SERVER_ADDR", "TOLO_WORKLOAD_AUTH_MODE", "TOLO_GATEWAY_ROLE", "TOLO_GATEWAY_WORKLOAD_PORT"]
  const PUBLIC_PORT := "TOLO_GATEWAY_PUBLIC_PORT"
  const INTERNAL_PORT := "TOLO_GATEWAY_INTERNAL_PORT"
  const PORT := "PORT"

  function PortError(name: string, getenv: string -> string): seq<ListenerError> {
    if ParsePort(getenv(name)).None? then [InvalidPort(name)] else []
  }

  function MustBeUnset(name: string, getenv: string -> string): seq<ListenerError> {
    if getenv(name) != "" then [MustNotBeSet(name)] else []
  }

  method ParseListeners(getenv: string -> string, mode: string) returns (parsed: Result<seq<Listener>, seq<ListenerError>>)
    ensures parsed.Ok? <==> Accepted(getenv, mode)
    ensures parsed.Ok? ==> parsed.value == match mode
                                           case "split" => [Listener(Public, getenv(PUBLIC_PORT)), Listener(Internal, getenv(INTERNAL_PORT))]
                                           case "public" => [Listener(Public, getenv(PORT))]
                                           case _ => [Listener(Internal, getenv(PORT))]
  {
    var errs: seq<ListenerError> := [];
    for i := 0 to |RETIRED|
      invariant errs == [] <==> forall j :: 0 <= j < i ==> getenv(RETIRED[j]) == ""
    {
      if getenv(RETIRED[i]) != "" {
        errs := errs + [RetiredVariable(RETIRED[i])];
      }
    }
    var listeners := [];
    if mode == "split" {
      var public, internal := ParsePort(getenv(PUBLIC_PORT)), ParsePort(getenv(INTERNAL_PORT));
      errs := errs + PortError(PUBLIC_PORT, getenv) + PortError(INTERNAL_PORT, getenv);
      if public.Some? && internal.Some? && public.value == internal.value {
        errs := errs + [SamePort];
      }
      listeners := [Listener(Public, getenv(PUBLIC_PORT)), Listener(Internal, getenv(INTERNAL_PORT))];
      SplitPorts(getenv(PUBLIC_PORT), getenv(INTERNAL_PORT));
    } else if mode == "public" || mode == "internal" {
      errs := errs + MustBeUnset(PUBLIC_PORT, getenv) + MustBeUnset(INTERNAL_PORT, getenv) + PortError(PORT, getenv);
      listeners := [Listener(if mode == "public" then Public else Internal, getenv(PORT))];
      PortIsCanonical(getenv(PORT));
    } else {
      errs := errs + [InvalidMode];
    }
    if errs != [] {
      return Err(errs);
    }
    return Ok(listeners);
  }

  /** Two canonical ports that are different numbers. */
  ghost predicate DifferentPorts(a: string, b: string) {
    exists n, m :: PortText(a, n) && PortText(b, m) && n != m
  }

  lemma SplitPorts(a: string, b: string)
    ensures ParsePort(a).Some? && ParsePort(b).Some? && a != b <==> DifferentPorts(a, b)
  {
    PortIsCanonical(a);
    PortIsCanonical(b);
    if ParsePort(a).Some? && ParsePort(b).Some? && a != b {
      var n :| PortText(a, n);
      var m :| PortText(b, m);
    }
    if DifferentPorts(a, b) {
      var n, m :| PortText(a, n) && PortText(b, m) && n != m;
    }
  }

  /** What an operator must set: the ports of the chosen mode and nothing that belongs to another or a retired one. */
  ghost predicate Accepted(getenv: string -> string, mode: string) {
    && (forall i :: 0 <= i < |RETIRED| ==> getenv(RETIRED[i]) == "")
    && if mode == "split" then DifferentPorts(getenv(PUBLIC_PORT), getenv(INTERNAL_PORT)) else
       && (mode == "public" || mode == "internal")
       && getenv(PUBLIC_PORT) == "" && getenv(INTERNAL_PORT) == ""
       && exists n :: PortText(getenv(PORT), n)
  }
}
