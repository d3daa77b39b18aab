/** The hybrid-link module: reading the existing links, the first-match
    existence check, and the create and delete operations with their
    dispatch on `state`. The session is the request-to-response map of
    `Http`; `update_changed_flag` is recorded as the call it receives, and
    `gen_args` is a parameter. */
module HvcLinks {
  import opened Outcomes
  import opened Json
  import opened Http

  // ---------------------------------------------------------------------
  // Module parameters

  /** The declared type of one module parameter. */
  datatype ArgType = StrArg | BoolArg | ListArg | ChoiceArg(choices: seq<string>)

  /** The argument specification: every parameter the module declares. */
  const ArgumentTypes: map<string, ArgType> := map[
    "vcenter_hostname" := StrArg,
    "vcenter_username" := StrArg,
    "vcenter_password" := StrArg,
    "vcenter_certs" := BoolArg,
    "username" := StrArg,
    "state" := ChoiceArg(["create", "delete"]),
    "ssl_thumbprint" := StrArg,
    "psc_hostname" := StrArg,
    "port" := StrArg,
    "password" := StrArg,
    "link" := StrArg,
    "domain_name" := StrArg,
    "admin_groups" := ListArg
  ]

  /** A value the automation engine lets through for a declared type:
      None (not given), or a value of that type, within the choices. */
  predicate Conforms(v: Json, t: ArgType) {
    v.JNull? ||
    match t
    case StrArg => v.JStr?
    case BoolArg => v.JBool?
    case ListArg => v.JList?
    case ChoiceArg(choices) => v.JStr? && v.s in choices
  }

  predicate ArgumentsValid(p: map<string, Json>) {
    && p.Keys == ArgumentTypes.Keys
    && forall k :: k in p ==> Conforms(p[k], ArgumentTypes[k])
  }

  /** The parameter mapping after validation by the automation engine: every
      declared key is present, each with None or a value of its type. */
  type Params = p: map<string, Json> | ArgumentsValid(p)
    witness map k | k in ArgumentTypes.Keys :: JNull

  /** `params.get(k)`, with None for an undeclared key. */
  function ParamGet(params: Params, k: string): Json {
    if k in params then params[k] else JNull
  }

  /** `"{k}".format(**params)` for a string-typed parameter. */
  function Format(params: Params, k: string): string
    requires k in ArgumentTypes && ArgumentTypes[k] == StrArg
  {
    match params[k]
    case JStr(s) => s
    case _ => "None"
  }

  /** The collection URL of the hybrid links. */
  function Url(params: Params): string {
    "https://" + Format(params, "vcenter_hostname") + "/rest/hvc/links"
  }

  /** The parameters `_create` copies into the request body, in order. */
  const AcceptedFields: seq<string> :=
    ["admin_groups", "domain_name", "password", "port", "psc_hostname", "ssl_thumbprint", "username"]

  /** The fields that decide whether a link already exists. */
  const UnicityKeys: seq<string> := ["bus", "pci_slot_number"]

  /** The parameters that go into the query string of the delete URL. */
  const InQueryParameter: seq<string> := []

  /** What the module hands to `update_changed_flag`. */
  datatype ChangedFlagCall = UpdateChangedFlag(body: Json, status: int, operation: string)

  // ---------------------------------------------------------------------
  // Reading links

  /** `get_device_info`: fetch `url/key`, take the `"value"` dict of the
      reply and stamp `_key` onto it. A key that is not a string cannot be
      appended to the URL, so nothing is sent. */
  function DeviceInfo(server: Server, url: string, key: Json): (r: Exchange<Fields>)
    ensures !key.JStr? ==> r == Exchange(Err(TypeError), [])
    ensures key.JStr? ==> r.sent == [HttpGet(url + "/" + key.s)]
    ensures r.result.Ok? ==> key.JStr? && Lookup(r.result.value, "_key") == Some(key)
    ensures key.JStr? ==>
      var payload := Payload(server, HttpGet(url + "/" + key.s));
      && (payload.Err? ==> r.result == Err(payload.error))
      && (payload.Ok? && !payload.value.JObject? ==> r.result == Err(TypeError))
      && (payload.Ok? && payload.value.JObject? ==>
            && r.result.Ok?
            && Lookup(r.result.value, "_key") == Some(key)
            && (forall k :: k != "_key" ==> Lookup(r.result.value, k) == Lookup(payload.value.fields, k)))
    ensures key.JStr? && HttpGet(url + "/" + key.s) in server ==>
      var resp := server[HttpGet(url + "/" + key.s)];
      resp.body.Some? && resp.body.value.JObject? && "value" !in Keys(resp.body.value.fields) ==>
        r.result == Err(KeyError("value"))
  {
    if !key.JStr? then Exchange(Err(TypeError), [])
    else
      var req := HttpGet(url + "/" + key.s);
      var entry := Payload(server, req);
      Exchange(
        if entry.Err? then Err(entry.error)
        else if entry.value.JObject? then Ok(SetField(entry.value.fields, "_key", key))
        else Err(TypeError),
        [req])
  }

  /** The abbreviated entries of the list reply: what iterating over its
      `"value"` walks through. */
  function Listing(server: Server, url: string): Result<seq<Json>> {
    var devices :- Payload(server, HttpGet(url));
    Iterate(devices)
  }

  /** The detail fetches of `list_devices` for the abbreviated entries
      `devices`, one after the other, stopping at the first failure. */
  function Details(server: Server, url: string, devices: seq<Json>): Exchange<seq<Fields>>
    decreases |devices|
  {
    if devices == [] then Exchange(Ok([]), [])
    else
      var before := Details(server, url, devices[..|devices| - 1]);
      if before.result.Err? then before
      else
        var id := FirstValue(devices[|devices| - 1]);
        if id.Err? then Exchange(Err(id.error), before.sent)
        else
          var info := DeviceInfo(server, url, id.value);
          Exchange(
            if info.result.Err? then Err(info.result.error)
            else Ok(before.result.value + [info.result.value]),
            before.sent + info.sent)
  }

  /** A failed prefix of the detail fetches is the outcome of all of them. */
  lemma {:induction false} DetailsStopAtFailure(server: Server, url: string, devices: seq<Json>, n: nat)
    requires n <= |devices|
    requires Details(server, url, devices[..n]).result.Err?
    ensures Details(server, url, devices) == Details(server, url, devices[..n])
  {
    if n == |devices| {
      assert devices[..n] == devices;
    } else {
      var init := devices[..|devices| - 1];
      assert init[..n] == devices[..n];
      DetailsStopAtFailure(server, url, init, n);
    }
  }

  /** `list_devices` as a value: the list request, then the detail fetches. */
  function ListOutcome(server: Server, url: string): Exchange<seq<Fields>> {
    match Listing(server, url)
    case Err(e) => Exchange(Err(e), [HttpGet(url)])
    case Ok(devices) =>
      var details := Details(server, url, devices);
      Exchange(details.result, [HttpGet(url)] + details.sent)
  }

  /** `list_devices`: list the links, then fetch each one's details in list
      order, taking its identifier as the first value of its entry. */
  method ListDevices(server: Server, params: Params) returns (r: Result<seq<Fields>>, sent: seq<Request>)
    ensures Exchange(r, sent) == ListOutcome(server, Url(params))
  {
    var url := Url(params);
    sent := [HttpGet(url)];
    var listing := Listing(server, url);
    if listing.Err? {
      r := Err(listing.error);
      return;
    }
    var devices := listing.value;
    var entries: seq<Fields> := [];
    ghost var detailSent: seq<Request> := [];
    var i := 0;
    while i < |devices|
      invariant 0 <= i <= |devices|
      invariant sent == [HttpGet(url)] + detailSent
      invariant Details(server, url, devices[..i]) == Exchange(Ok(entries), detailSent)
    {
      assert devices[..i + 1][..i] == devices[..i];
      var id := FirstValue(devices[i]);
      if id.Err? {
        DetailsStopAtFailure(server, url, devices, i + 1);
        r := Err(id.error);
        return;
      }
      var info := DeviceInfo(server, url, id.value);
      sent := sent + info.sent;
      detailSent := detailSent + info.sent;
      if info.result.Err? {
        DetailsStopAtFailure(server, url, devices, i + 1);
        r := Err(info.result.error);
        return;
      }
      entries := entries + [info.result.value];
      i := i + 1;
    }
    assert devices[..i] == devices;
    r := Ok(entries);
  }

  // ---------------------------------------------------------------------
  // Existence check

  /** `device.get(k)`. */
  function EntryGet(entry: Fields, k: string): Json {
    match Lookup(entry, k)
    case Some(v) => v
    case None => JNull
  }

  /** Unicity key `k` rules `entry` out: the parameter is given and the
      entry's value differs from it. */
  predicate Disqualifies(entry: Fields, params: Params, k: string) {
    ParamGet(params, k) != JNull && !PyEquals(EntryGet(entry, k), ParamGet(params, k))
  }

  /** No unicity key rules `entry` out. */
  predicate Matches(entry: Fields, params: Params, keys: seq<string>) {
    forall m :: 0 <= m < |keys| ==> !Disqualifies(entry, params, keys[m])
  }

  /** The first entry that matches, if any. */
  function FirstMatch(entries: seq<Fields>, params: Params, keys: seq<string>): Option<Fields> {
    if entries == [] then None
    else if Matches(entries[0], params, keys) then Some(entries[0])
    else FirstMatch(entries[1..], params, keys)
  }

  /** `exists` as a value. */
  function ExistsOutcome(server: Server, params: Params): Exchange<Option<Fields>> {
    var listed := ListOutcome(server, Url(params));
    Exchange(
      match listed.result
      case Err(e) => Err(e)
      case Ok(entries) => Ok(FirstMatch(entries, params, UnicityKeys)),
      listed.sent)
  }

  /** `exists`: scan the listed links and return the first one that no
      unicity key rules out; the inner loop stops at the first key that
      does (the `break`), and only a completed inner loop returns. */
  method Exists(server: Server, params: Params) returns (r: Result<Option<Fields>>, sent: seq<Request>)
    ensures Exchange(r, sent) == ExistsOutcome(server, params)
  {
    var listed;
    listed, sent := ListDevices(server, params);
    if listed.Err? {
      r := Err(listed.error);
      return;
    }
    var devices := listed.value;
    var i := 0;
    while i < |devices|
      invariant 0 <= i <= |devices|
      invariant FirstMatch(devices, params, UnicityKeys) == FirstMatch(devices[i..], params, UnicityKeys)
    {
      var device := devices[i];
      var broke := false;
      var j := 0;
      while j < |UnicityKeys|
        invariant 0 <= j <= |UnicityKeys|
        invariant broke ==> !Matches(device, params, UnicityKeys)
        invariant !broke ==> forall m :: 0 <= m < j ==> !Disqualifies(device, params, UnicityKeys[m])
      {
        var k := UnicityKeys[j];
        if ParamGet(params, k) != JNull && !PyEquals(EntryGet(device, k), ParamGet(params, k)) {
          broke := true;
          break;
        }
        j := j + 1;
      }
      if !broke {
        r := Ok(Some(device));
        return;
      }
      assert devices[i..][1..] == devices[i + 1..];
      i := i + 1;
    }
    r := Ok(None);
  }

  // ---------------------------------------------------------------------
  // Create

  /** The `spec` dict `_create` builds from the parameters `names`: each one
      whose value is truthy, with that value. */
  function SpecFields(params: Params, names: seq<string>): Fields
    requires forall n :: n in names ==> n in ArgumentTypes
  {
    if names == [] then []
    else
      var spec := SpecFields(params, names[..|names| - 1]);
      var n := names[|names| - 1];
      if Truthy(params[n]) then SetField(spec, n, params[n]) else spec
  }

  /** The POST that `_create` sends. */
  function CreateRequest(params: Params): Request {
    HttpPost(Url(params), JObject([("spec", JObject(SpecFields(params, AcceptedFields)))]))
  }

  /** The accepted creation statuses. */
  predicate CreatedStatus(status: int) {
    status == 200 || status == 201
  }

  /** The identifier in a creation reply: the first value of `"value"` when
      that is a dict, `"value"` itself otherwise. */
  function CreatedId(body: Json): Result<Json> {
    var v :- Subscript(body, "value");
    if v.JObject? then FirstValue(v) else Ok(v)
  }

  /** `_create` from the POST on, as a value. */
  function PostOutcome(server: Server, params: Params): Exchange<ChangedFlagCall> {
    var post := CreateRequest(params);
    match Send(server, post)
    case Err(e) => Exchange(Err(e), [post])
    case Ok(resp) =>
      match GuardedBody(resp)
      case Err(e) => Exchange(Err(e), [post])
      case Ok(body) =>
        if !CreatedStatus(resp.status) then
          Exchange(Ok(UpdateChangedFlag(body, resp.status, "create")), [post])
        else
          match Contains(body, "value")
          case Err(e) => Exchange(Err(e), [post])
          case Ok(hasValue) =>
            if !hasValue then
              Exchange(Ok(UpdateChangedFlag(body, resp.status, "create")), [post])
            else
              match CreatedId(body)
              case Err(e) => Exchange(Err(e), [post])
              case Ok(id) =>
                var info := DeviceInfo(server, Url(params), id);
                Exchange(
                  match info.result
                  case Err(e) => Err(e)
                  case Ok(entry) => Ok(UpdateChangedFlag(JObject([("value", JObject(entry))]), resp.status, "create")),
                  [post] + info.sent)
  }

  /** `_create` as a value. */
  function CreateOutcome(server: Server, params: Params): Exchange<ChangedFlagCall> {
    var found := ExistsOutcome(server, params);
    match found.result
    case Err(e) => Exchange(Err(e), found.sent)
    case Ok(existing) =>
      if existing.Some? && Truthy(JObject(existing.value)) then
        Exchange(Ok(UpdateChangedFlag(JObject([("value", JObject(existing.value))]), 200, "get")), found.sent)
      else
        var posted := PostOutcome(server, params);
        Exchange(posted.result, found.sent + posted.sent)
  }

  /** One more name in the prefix adds at most that field to `spec`. */
  lemma SpecFieldsExtend(params: Params, names: seq<string>, i: nat)
    requires forall n :: n in names ==> n in ArgumentTypes
    requires i < |names|
    ensures SpecFields(params, names[..i + 1])
         == if Truthy(params[names[i]]) then SetField(SpecFields(params, names[..i]), names[i], params[names[i]])
            else SpecFields(params, names[..i])
  {
    assert names[..i + 1][..i] == names[..i];
  }

  /** The loop of `_create` that copies each truthy accepted field into
      `spec`, in the order of the accepted fields. */
  method BuildSpec(params: Params) returns (spec: Fields)
    ensures spec == SpecFields(params, AcceptedFields)
  {
    spec := [];
    var i := 0;
    while i < |AcceptedFields|
      invariant 0 <= i <= |AcceptedFields|
      invariant spec == SpecFields(params, AcceptedFields[..i])
    {
      var name := AcceptedFields[i];
      SpecFieldsExtend(params, AcceptedFields, i);
      if Truthy(params[name]) {
        spec := SetField(spec, name, params[name]);
      }
      i := i + 1;
    }
    assert AcceptedFields[..i] == AcceptedFields;
  }

  /** `_create`: report an existing match unchanged; otherwise POST the
      truthy accepted fields and, on a 200 or 201 reply carrying `"value"`,
      replace the reply by the freshly fetched entry. */
  method CreateLink(server: Server, params: Params) returns (r: Result<ChangedFlagCall>, sent: seq<Request>)
    ensures Exchange(r, sent) == CreateOutcome(server, params)
  {
    var existing;
    existing, sent := Exists(server, params);
    ghost var found := sent;
    if existing.Err? {
      r := Err(existing.error);
      return;
    }
    if existing.value.Some? && Truthy(JObject(existing.value.value)) {
      r := Ok(UpdateChangedFlag(JObject([("value", JObject(existing.value.value))]), 200, "get"));
      return;
    }
    ghost var posted := PostOutcome(server, params);
    assert CreateOutcome(server, params) == Exchange(posted.result, found + posted.sent);
    var spec := BuildSpec(params);
    var url := Url(params);
    var post := HttpPost(url, JObject([("spec", JObject(spec))]));
    assert post == CreateRequest(params);
    sent := sent + [post];
    var response := Send(server, post);
    if response.Err? {
      r := Err(response.error);
      return;
    }
    var resp := response.value;
    var json := GuardedBody(resp);
    if json.Err? {
      r := Err(json.error);
      return;
    }
    var body := json.value;
    if CreatedStatus(resp.status) {
      var hasValue := Contains(body, "value");
      if hasValue.Err? {
        r := Err(hasValue.error);
        return;
      }
      if hasValue.value {
        var id := CreatedId(body);
        if id.Err? {
          r := Err(id.error);
          return;
        }
        var info := DeviceInfo(server, url, id.value);
        sent := sent + info.sent;
        if info.result.Err? {
          r := Err(info.result.error);
          return;
        }
        body := JObject([("value", JObject(info.result.value))]);
      }
    }
    r := Ok(UpdateChangedFlag(body, resp.status, "create"));
  }

  // ---------------------------------------------------------------------
  // Delete and dispatch

  /** `_delete`: DELETE the link's URL, with the query suffix `gen_args`
      builds, and hand the guarded body to `update_changed_flag`. */
  function DeleteLink(server: Server, params: Params, genArgs: (Params, seq<string>) -> string): (r: Exchange<ChangedFlagCall>)
    ensures r.sent == [HttpDelete(Url(params) + "/" + Format(params, "link") + genArgs(params, InQueryParameter))]
    ensures r.sent[0] !in server ==> r.result == Err(TransportError)
    ensures r.sent[0] in server ==>
      var resp := server[r.sent[0]];
      && (resp.contentType.None? ==> r.result == Ok(UpdateChangedFlag(JObject([]), resp.status, "delete")))
      && (resp.contentType == Some(JsonContentType) && resp.body.Some? ==>
            r.result == Ok(UpdateChangedFlag(resp.body.value, resp.status, "delete")))
      && (resp.contentType == Some(JsonContentType) && resp.body.None? ==> r.result == Err(JsonDecodeError))
      && (resp.contentType.Some? && resp.contentType != Some(JsonContentType) ==> r.result == Err(UnboundLocalError))
  {
    var url := "https://" + Format(params, "vcenter_hostname") + "/rest/hvc/links/" + Format(params, "link")
      + genArgs(params, InQueryParameter);
    var req := HttpDelete(url);
    assert url == Url(params) + "/" + Format(params, "link") + genArgs(params, InQueryParameter) by {
      var host, link, suffix := Format(params, "vcenter_hostname"), Format(params, "link"), genArgs(params, InQueryParameter);
      assert "/rest/hvc/links/" == "/rest/hvc/links" + "/";
      calc {
        url;
        "https://" + host + ("/rest/hvc/links" + "/") + link + suffix;
        ("https://" + host + "/rest/hvc/links") + "/" + link + suffix;
      }
    }
    Exchange(
      match Send(server, req)
      case Err(e) => Err(e)
      case Ok(resp) =>
        match GuardedBody(resp)
        case Err(e) => Err(e)
        case Ok(body) => Ok(UpdateChangedFlag(body, resp.status, "delete")),
      [req])
  }

  /** The handlers `state` can select. */
  datatype State = Create | Delete

  /** `globals()["_" + state]`: concatenating None fails with TypeError.
      Any other string is outside the declared choices and cannot occur; it
      is mapped to the KeyError of a name missing from the module's globals,
      though a few strings (`"_name__"`) name a global that is no handler and
      would fail only when called. */
  function Dispatch(params: Params): (r: Result<State>)
    ensures r == Ok(Create) <==> params["state"] == JStr("create")
    ensures r == Ok(Delete) <==> params["state"] == JStr("delete")
    ensures r.Err? <==> params["state"] == JNull
    ensures r.Err? ==> r.error == TypeError
  {
    match params["state"]
    case JStr(s) =>
      if s == "create" then Ok(Create)
      else if s == "delete" then Ok(Delete)
      else Err(KeyError("_" + s))
    case _ => Err(TypeError)
  }

  /** `entry_point`: run the handler `state` selects. */
  method EntryPoint(server: Server, params: Params, genArgs: (Params, seq<string>) -> string)
    returns (r: Result<ChangedFlagCall>, sent: seq<Request>)
    ensures params["state"] == JStr("create") ==> Exchange(r, sent) == CreateOutcome(server, params)
    ensures params["state"] == JStr("delete") ==> Exchange(r, sent) == DeleteLink(server, params, genArgs)
    ensures params["state"] == JNull ==> r == Err(TypeError) && sent == []
  {
    var handler := Dispatch(params);
    match handler
    case Err(e) =>
      r, sent := Err(e), [];
    case Ok(Create) =>
      r, sent := CreateLink(server, params);
    case Ok(Delete) =>
      var deleted := DeleteLink(server, params, genArgs);
      r, sent := deleted.result, deleted.sent;
  }
}
