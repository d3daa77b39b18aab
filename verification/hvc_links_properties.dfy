/** What the hybrid-link module promises: list completeness and order, the
    first-match rule of the existence check, the idempotent short-circuit
    of create, the exact request body, and the handling of the create reply. */
module HvcLinksProperties {
  import opened Outcomes
  import opened Json
  import opened Http
  import opened HvcLinks

  // ---------------------------------------------------------------------
  // URL

  /** The collection URL is `https://`, the `vcenter_hostname` parameter
      verbatim (`None` when it is unset) and `/rest/hvc/links`; the host can
      be read back from the URL. */
  lemma UrlParts(params: Params)
    ensures var u := Url(params);
      && |u| >= 23 && u[..8] == "https://" && u[|u| - 15..] == "/rest/hvc/links"
      && (params["vcenter_hostname"].JStr? ==> u[8..|u| - 15] == params["vcenter_hostname"].s)
      && (params["vcenter_hostname"] == JNull ==> u == "https://None/rest/hvc/links")
  {
    var host := Format(params, "vcenter_hostname");
    assert Url(params) == "https://" + host + "/rest/hvc/links";
    ConcatParts("https://", host, "/rest/hvc/links");
    if params["vcenter_hostname"] == JNull {
      NoneUrl();
    }
  }

  /** The three parts of a concatenation can be read back by slicing. */
  lemma ConcatParts(a: string, b: string, c: string)
    ensures var s := a + b + c;
      && |s| == |a| + |b| + |c|
      && s[..|a|] == a && s[|s| - |c|..] == c && s[|a|..|s| - |c|] == b
  {
  }

  /** The collection URL of an unset host. */
  lemma NoneUrl()
    ensures "https://" + "None" + "/rest/hvc/links" == "https://None/rest/hvc/links"
  {
  }

  // ---------------------------------------------------------------------
  // Listing

  /** The detail fetches only ever send GET requests. */
  lemma {:induction false} DetailsOnlyGet(server: Server, url: string, devices: seq<Json>)
    ensures forall q :: q in Details(server, url, devices).sent ==> q.HttpGet?
    decreases |devices|
  {
    if devices != [] {
      DetailsOnlyGet(server, url, devices[..|devices| - 1]);
    }
  }

  /** Abbreviated entry `device` was turned into `entry` by the request
      `req`: its identifier is its first value, a string; `req` fetched
      `url/identifier`; and `entry` is that detail stamped with it. */
  predicate FetchedAs(server: Server, url: string, device: Json, req: Request, entry: Fields) {
    && FirstValue(device).Ok?
    && FirstValue(device).value.JStr?
    && req == HttpGet(url + "/" + FirstValue(device).value.s)
    && DeviceInfo(server, url, FirstValue(device).value).result == Ok(entry)
    && Lookup(entry, "_key") == Some(FirstValue(device).value)
  }

  /** Successful detail fetches give one entry per abbreviated entry, in
      order, entry i fetched by request i from abbreviated entry i. */
  lemma {:induction false} DetailsComplete(server: Server, url: string, devices: seq<Json>)
    requires Details(server, url, devices).result.Ok?
    ensures var d := Details(server, url, devices);
      && |d.result.value| == |devices|
      && |d.sent| == |devices|
      && forall i :: 0 <= i < |devices| ==> FetchedAs(server, url, devices[i], d.sent[i], d.result.value[i])
    decreases |devices|
  {
    if devices != [] {
      var init := devices[..|devices| - 1];
      DetailsLastFetch(server, url, devices);
      DetailsComplete(server, url, init);
      var before := Details(server, url, init);
      var d := Details(server, url, devices);
      FetchedAppend((device, req, entry) => FetchedAs(server, url, device, req, entry),
                    devices, d.sent, d.result.value, before.sent, before.result.value);
    }
  }

  /** The last abbreviated entry adds one request and one entry, fetched
      from it, after those of the entries before it. */
  lemma DetailsLastFetch(server: Server, url: string, devices: seq<Json>)
    requires devices != []
    requires Details(server, url, devices).result.Ok?
    ensures var before := Details(server, url, devices[..|devices| - 1]);
      var d := Details(server, url, devices);
      && before.result.Ok?
      && d.sent != [] && d.result.value != []
      && d.sent == before.sent + [d.sent[|d.sent| - 1]]
      && d.result.value == before.result.value + [d.result.value[|d.result.value| - 1]]
      && FetchedAs(server, url, devices[|devices| - 1], d.sent[|d.sent| - 1], d.result.value[|d.result.value| - 1])
  {
    var id := FirstValue(devices[|devices| - 1]);
    assert id.Ok?;
    var info := DeviceInfo(server, url, id.value);
    assert info.result.Ok?;
    assert FetchedAs(server, url, devices[|devices| - 1], info.sent[0], info.result.value);
  }

  /** One more fetched entry extends an index-by-index correspondence `P`
      between abbreviated entries, requests and entries. */
  lemma FetchedAppend(P: (Json, Request, Fields) -> bool, devices: seq<Json>, sent: seq<Request>, entries: seq<Fields>,
                      sentBefore: seq<Request>, entriesBefore: seq<Fields>)
    requires devices != [] && sent != [] && entries != []
    requires |sentBefore| == |devices| - 1 == |entriesBefore|
    requires sent == sentBefore + [sent[|sent| - 1]]
    requires entries == entriesBefore + [entries[|entries| - 1]]
    requires forall i :: 0 <= i < |devices| - 1 ==> P(devices[..|devices| - 1][i], sentBefore[i], entriesBefore[i])
    requires P(devices[|devices| - 1], sent[|sent| - 1], entries[|entries| - 1])
    ensures |sent| == |devices| == |entries|
    ensures forall i :: 0 <= i < |devices| ==> P(devices[i], sent[i], entries[i])
  {
    forall i | 0 <= i < |devices|
      ensures P(devices[i], sent[i], entries[i])
    {
      if i < |devices| - 1 {
        assert devices[..|devices| - 1][i] == devices[i] && sentBefore[i] == sent[i] && entriesBefore[i] == entries[i];
      }
    }
  }

  /** A successful listing is the list request followed by the detail
      fetches of the abbreviated entries. */
  lemma ListingSucceeded(server: Server, url: string)
    requires ListOutcome(server, url).result.Ok?
    ensures Listing(server, url).Ok?
    ensures var d := Details(server, url, Listing(server, url).value);
      ListOutcome(server, url) == Exchange(d.result, [HttpGet(url)] + d.sent)
  {
  }

  /** `list_devices` sends the list request and then, in list order, one
      detail request per abbreviated entry; it returns one entry per
      abbreviated entry, each stamped with that entry's first value. */
  lemma ListDevicesComplete(server: Server, url: string)
    requires ListOutcome(server, url).result.Ok?
    ensures Listing(server, url).Ok?
    ensures var devices := Listing(server, url).value;
      var out := ListOutcome(server, url);
      && |out.result.value| == |devices|
      && |out.sent| == |devices| + 1
      && out.sent[0] == HttpGet(url)
      && var fetches := out.sent[1..];
         forall i :: 0 <= i < |devices| ==> FetchedAs(server, url, devices[i], fetches[i], out.result.value[i])
  {
    ListingSucceeded(server, url);
    var devices := Listing(server, url).value;
    DetailsComplete(server, url, devices);
    var d := Details(server, url, devices);
    assert ([HttpGet(url)] + d.sent)[1..] == d.sent;
  }

  /** Every entry `list_devices` returns is a non-empty dict: it has `_key`. */
  lemma ListedEntriesHaveKey(server: Server, url: string)
    requires ListOutcome(server, url).result.Ok?
    ensures forall e :: e in ListOutcome(server, url).result.value ==> "_key" in Keys(e) && Truthy(JObject(e))
  {
    var devices := Listing(server, url).value;
    DetailsComplete(server, url, devices);
    var d := Details(server, url, devices);
    assert ListOutcome(server, url).result == d.result;
    var entries := d.result.value;
    forall e | e in entries ensures "_key" in Keys(e) && Truthy(JObject(e)) {
      var i :| 0 <= i < |entries| && entries[i] == e;
      assert FetchedAs(server, url, devices[i], d.sent[i], entries[i]);
      assert Lookup(entries[i], "_key").Some?;
    }
  }

  /** `list_devices` sends nothing but GET requests. */
  lemma ListOnlyGet(server: Server, url: string)
    ensures forall q :: q in ListOutcome(server, url).sent ==> q.HttpGet?
  {
    if Listing(server, url).Ok? {
      DetailsOnlyGet(server, url, Listing(server, url).value);
    }
  }

  /** A list reply without `"value"` makes the listing fail with that key. */
  lemma ListWithoutValueFails(server: Server, url: string)
    requires HttpGet(url) in server
    requires server[HttpGet(url)].body.Some? && server[HttpGet(url)].body.value.JObject?
    requires "value" !in Keys(server[HttpGet(url)].body.value.fields)
    ensures ListOutcome(server, url) == Exchange(Err(KeyError("value")), [HttpGet(url)])
  {
  }

  // ---------------------------------------------------------------------
  // Existence check

  /** `FirstMatch` is the first matching entry in list order, and None
      exactly when no entry matches. */
  lemma {:induction false} FirstMatchIsFirst(entries: seq<Fields>, params: Params, keys: seq<string>)
    ensures FirstMatch(entries, params, keys).None? <==>
      forall i :: 0 <= i < |entries| ==> !Matches(entries[i], params, keys)
    ensures FirstMatch(entries, params, keys).Some? ==>
      exists i :: 0 <= i < |entries|
        && entries[i] == FirstMatch(entries, params, keys).value
        && Matches(entries[i], params, keys)
        && forall j :: 0 <= j < i ==> !Matches(entries[j], params, keys)
  {
    if entries != [] && !Matches(entries[0], params, keys) {
      var rest := entries[1..];
      FirstMatchIsFirst(rest, params, keys);
      if FirstMatch(rest, params, keys).Some? {
        var i :| 0 <= i < |rest|
          && rest[i] == FirstMatch(rest, params, keys).value
          && Matches(rest[i], params, keys)
          && forall j :: 0 <= j < i ==> !Matches(rest[j], params, keys);
        assert entries[i + 1] == rest[i];
        forall j | 0 <= j < i + 1 ensures !Matches(entries[j], params, keys) {
          if j > 0 { assert entries[j] == rest[j - 1]; }
        }
      } else {
        forall i | 0 <= i < |entries| ensures !Matches(entries[i], params, keys) {
          if i > 0 { assert entries[i] == rest[i - 1]; }
        }
      }
    }
  }

  /** Neither unicity key is a parameter of this module, so no key ever
      rules a link out. */
  lemma EveryLinkMatches(entry: Fields, params: Params)
    ensures Matches(entry, params, UnicityKeys)
  {
    assert "bus" !in ArgumentTypes && "pci_slot_number" !in ArgumentTypes;
    forall m | 0 <= m < |UnicityKeys| ensures !Disqualifies(entry, params, UnicityKeys[m]) {
      assert ParamGet(params, UnicityKeys[m]) == JNull;
    }
  }

  /** So `exists` reports the first listed link when there is one, and None
      when the list is empty. */
  lemma ExistsReturnsFirstListed(server: Server, params: Params)
    ensures var listed := ListOutcome(server, Url(params));
      ExistsOutcome(server, params) == Exchange(
        match listed.result
        case Err(e) => Err(e)
        case Ok(entries) => Ok(if entries == [] then None else Some(entries[0])),
        listed.sent)
  {
    var listed := ListOutcome(server, Url(params));
    if listed.result.Ok? && listed.result.value != [] {
      EveryLinkMatches(listed.result.value[0], params);
    }
  }

  // ---------------------------------------------------------------------
  // Create

  /** The `spec` dict holds exactly the named parameters whose value is
      truthy, each with its value unchanged; None, "", [] and False (and
      0, {}) are left out. */
  lemma {:induction false} SpecFieldsExact(params: Params, names: seq<string>)
    requires forall n :: n in names ==> n in ArgumentTypes
    ensures forall k ::
              Lookup(SpecFields(params, names), k) == if k in names && Truthy(params[k]) then Some(params[k]) else None
  {
    if names != [] {
      var init := names[..|names| - 1];
      var n := names[|names| - 1];
      SpecFieldsExact(params, init);
      assert forall k :: k in names <==> k in init || k == n;
    }
  }

  /** When `exists` finds a link, `_create` sends no POST: it reports the
      link as read with status 200, after the list and detail GETs only. */
  lemma CreateReportsExistingMatch(server: Server, params: Params, e: Fields)
    requires ExistsOutcome(server, params).result == Ok(Some(e))
    ensures CreateOutcome(server, params) ==
      Exchange(Ok(UpdateChangedFlag(JObject([("value", JObject(e))]), 200, "get")), ExistsOutcome(server, params).sent)
    ensures forall q :: q in CreateOutcome(server, params).sent ==> q.HttpGet?
  {
    var url := Url(params);
    var entries := ListOutcome(server, url).result.value;
    FirstMatchIsFirst(entries, params, UnicityKeys);
    ListedEntriesHaveKey(server, url);
    assert e in entries;
    ListOnlyGet(server, url);
  }

  /** Whenever any link is listed, whatever its fields, create is skipped:
      the unicity keys are not module parameters, so the first listed link
      is reported unchanged and only GETs are sent. */
  lemma CreateSkippedWhenAnyLinkListed(server: Server, params: Params)
    requires ListOutcome(server, Url(params)).result.Ok?
    requires ListOutcome(server, Url(params)).result.value != []
    ensures var first := ListOutcome(server, Url(params)).result.value[0];
      CreateOutcome(server, params) ==
        Exchange(Ok(UpdateChangedFlag(JObject([("value", JObject(first))]), 200, "get")),
                 ListOutcome(server, Url(params)).sent)
    ensures forall q :: q in CreateOutcome(server, params).sent ==> q.HttpGet?
  {
    ExistsReturnsFirstListed(server, params);
    CreateReportsExistingMatch(server, params, ListOutcome(server, Url(params)).result.value[0]);
  }

  /** With no match, `_create` sends, after the listing, exactly one POST to
      the collection URL whose body is `{"spec": S}`, S holding exactly the
      truthy accepted fields. */
  lemma CreatePostsTruthyFields(server: Server, params: Params)
    requires ExistsOutcome(server, params).result == Ok(None)
    ensures var found := ExistsOutcome(server, params).sent;
      var out := CreateOutcome(server, params);
      && |out.sent| > |found|
      && out.sent[..|found|] == found
      && out.sent[|found|] == CreateRequest(params)
      && forall q :: q in out.sent[|found| + 1..] ==> q.HttpGet?
    ensures CreateRequest(params).HttpPost?
    ensures CreateRequest(params).url == Url(params)
    ensures CreateRequest(params).body == JObject([("spec", JObject(SpecFields(params, AcceptedFields)))])
    ensures forall k ::
              Lookup(SpecFields(params, AcceptedFields), k) ==
                if k in AcceptedFields && Truthy(params[k]) then Some(params[k]) else None
  {
    SpecFieldsExact(params, AcceptedFields);
    CreateAfterNoMatch(server, params);
    PostStageSends(server, params);
    var found := ExistsOutcome(server, params).sent;
    var posted := PostOutcome(server, params);
    var out := CreateOutcome(server, params);
    assert out.sent[..|found|] == found;
    assert out.sent[|found|..] == posted.sent;
    assert out.sent[|found| + 1..] == posted.sent[1..];
  }

  /** The POST stage sends the POST first and only GETs after it. */
  lemma PostStageSends(server: Server, params: Params)
    ensures var sent := PostOutcome(server, params).sent;
      && sent != [] && sent[0] == CreateRequest(params)
      && forall q :: q in sent[1..] ==> q.HttpGet?
  {
    var sent := PostOutcome(server, params).sent;
    assert sent[0] == CreateRequest(params);
  }

  /** When the existence check fails, `_create` ends with that error and
      never posts: it has sent the listing's GETs and nothing else. */
  lemma CreateFailsWhenListingFails(server: Server, params: Params)
    requires ExistsOutcome(server, params).result.Err?
    ensures CreateOutcome(server, params) ==
      Exchange(Err(ExistsOutcome(server, params).result.error), ExistsOutcome(server, params).sent)
    ensures forall q :: q in CreateOutcome(server, params).sent ==> q.HttpGet?
  {
    ListOnlyGet(server, Url(params));
  }

  /** A POST that gets no response ends `_create` with the transport error,
      after the listing's requests and the POST. */
  lemma CreatePostUnanswered(server: Server, params: Params)
    requires ExistsOutcome(server, params).result == Ok(None)
    requires CreateRequest(params) !in server
    ensures CreateOutcome(server, params) ==
      Exchange(Err(TransportError), ExistsOutcome(server, params).sent + [CreateRequest(params)])
  {
    CreateAfterNoMatch(server, params);
  }

  /** How `_create` turns the POST reply into its result when no link
      matched: a missing Content-Type reads as `{}`; another Content-Type
      leaves the body unassigned; a JSON header on a body that does not
      decode fails; a status other than 200/201 passes the body through;
      at 200/201, a body without `"value"` passes through, a body `"value"
      in` rejects or that cannot be subscripted with `"value"` fails with
      TypeError, an empty dict under `"value"` fails with IndexError, and
      otherwise the identifier in `"value"` is fetched and the fetched entry,
      stamped with it, becomes the body. */
  lemma CreateReplyCases(server: Server, params: Params)
    requires ExistsOutcome(server, params).result == Ok(None)
    requires CreateRequest(params) in server
    ensures var resp := server[CreateRequest(params)];
      var result := CreateOutcome(server, params).result;
      && (resp.contentType.None? ==> result == Ok(UpdateChangedFlag(JObject([]), resp.status, "create")))
      && (resp.contentType.Some? && resp.contentType != Some(JsonContentType) ==> result == Err(UnboundLocalError))
      && (resp.contentType == Some(JsonContentType) && resp.body.Some? && !CreatedStatus(resp.status) ==>
            result == Ok(UpdateChangedFlag(resp.body.value, resp.status, "create")))
      && (resp.contentType == Some(JsonContentType) && resp.body.Some? && CreatedStatus(resp.status)
          && !HasValueKey(resp.body.value) && !ValueKeyRejected(resp.body.value) ==>
            result == Ok(UpdateChangedFlag(resp.body.value, resp.status, "create")))
    ensures var resp := server[CreateRequest(params)];
      var out := CreateOutcome(server, params);
      var found := ExistsOutcome(server, params).sent;
      && (resp.contentType == Some(JsonContentType) && resp.body.None? ==>
            out == Exchange(Err(JsonDecodeError), found + [CreateRequest(params)]))
      && (resp.contentType == Some(JsonContentType) && resp.body.Some? && CreatedStatus(resp.status)
          && ValueKeyRejected(resp.body.value) ==>
            out == Exchange(Err(TypeError), found + [CreateRequest(params)]))
      && (resp.contentType == Some(JsonContentType) && resp.body.Some? && resp.body.value.JObject?
          && CreatedStatus(resp.status) && Lookup(resp.body.value.fields, "value") == Some(JObject([])) ==>
            out == Exchange(Err(IndexError), found + [CreateRequest(params)]))
    ensures var resp := server[CreateRequest(params)];
      var out := CreateOutcome(server, params);
      resp.contentType == Some(JsonContentType) && resp.body.Some? && CreatedStatus(resp.status)
      && resp.body.value.JObject? && "value" in Keys(resp.body.value.fields) && CreatedId(resp.body.value).Ok? ==>
        var id := CreatedId(resp.body.value).value;
        var info := DeviceInfo(server, Url(params), id);
        && out.sent == ExistsOutcome(server, params).sent + [CreateRequest(params)] + info.sent
        && (info.result.Ok? ==>
              && out.result == Ok(UpdateChangedFlag(JObject([("value", JObject(info.result.value))]), resp.status, "create"))
              && Lookup(info.result.value, "_key") == Some(id))
        && (info.result.Err? ==> out.result == Err(info.result.error))
  {
    CreateAfterNoMatch(server, params);
    PostReplyPassesBody(server, params);
    PostReplyFails(server, params);
    PostReplyFetchesCreated(server, params);
  }

  /** `"value" in body` holds: a key of a dict, an item of a list, a
      substring of a string. */
  predicate HasValueKey(body: Json) {
    match body
    case JObject(f) => "value" in Keys(f)
    case JList(items) => JStr("value") in items
    case JStr(s) => IsSubstring("value", s)
    case _ => false
  }

  /** A body on which `"value" in body` raises TypeError (None, a bool or a
      number), or that holds `"value"` but cannot be subscripted with it (a
      list or a string). */
  predicate ValueKeyRejected(body: Json) {
    || body.JNull? || body.JBool? || body.JInt?
    || ((body.JList? || body.JStr?) && HasValueKey(body))
  }

  /** With no match, `_create` is the listing followed by the POST stage. */
  lemma CreateAfterNoMatch(server: Server, params: Params)
    requires ExistsOutcome(server, params).result == Ok(None)
    ensures var found := ExistsOutcome(server, params).sent;
      var posted := PostOutcome(server, params);
      CreateOutcome(server, params) == Exchange(posted.result, found + posted.sent)
  {
  }

  /** The replies whose body the POST stage hands on as it is. */
  lemma PostReplyPassesBody(server: Server, params: Params)
    requires CreateRequest(params) in server
    ensures var resp := server[CreateRequest(params)];
      var result := PostOutcome(server, params).result;
      && (resp.contentType.None? ==> result == Ok(UpdateChangedFlag(JObject([]), resp.status, "create")))
      && (resp.contentType.Some? && resp.contentType != Some(JsonContentType) ==> result == Err(UnboundLocalError))
      && (resp.contentType == Some(JsonContentType) && resp.body.Some? && !CreatedStatus(resp.status) ==>
            result == Ok(UpdateChangedFlag(resp.body.value, resp.status, "create")))
      && (resp.contentType == Some(JsonContentType) && resp.body.Some? && CreatedStatus(resp.status)
          && !HasValueKey(resp.body.value) && !ValueKeyRejected(resp.body.value) ==>
            result == Ok(UpdateChangedFlag(resp.body.value, resp.status, "create")))
  {
  }

  /** The replies that make the POST stage fail, after the POST alone. */
  lemma PostReplyFails(server: Server, params: Params)
    requires CreateRequest(params) in server
    ensures var resp := server[CreateRequest(params)];
      var out := PostOutcome(server, params);
      && (resp.contentType == Some(JsonContentType) && resp.body.None? ==>
            out == Exchange(Err(JsonDecodeError), [CreateRequest(params)]))
      && (resp.contentType == Some(JsonContentType) && resp.body.Some? && CreatedStatus(resp.status)
          && ValueKeyRejected(resp.body.value) ==>
            out == Exchange(Err(TypeError), [CreateRequest(params)]))
      && (resp.contentType == Some(JsonContentType) && resp.body.Some? && resp.body.value.JObject?
          && CreatedStatus(resp.status) && Lookup(resp.body.value.fields, "value") == Some(JObject([])) ==>
            out == Exchange(Err(IndexError), [CreateRequest(params)]))
  {
  }

  /** The replies whose `"value"` names the created link, which the POST
      stage then fetches. */
  lemma PostReplyFetchesCreated(server: Server, params: Params)
    requires CreateRequest(params) in server
    ensures var resp := server[CreateRequest(params)];
      var out := PostOutcome(server, params);
      resp.contentType == Some(JsonContentType) && resp.body.Some? && CreatedStatus(resp.status)
      && resp.body.value.JObject? && "value" in Keys(resp.body.value.fields) && CreatedId(resp.body.value).Ok? ==>
        var id := CreatedId(resp.body.value).value;
        var info := DeviceInfo(server, Url(params), id);
        && out.sent == [CreateRequest(params)] + info.sent
        && (info.result.Ok? ==>
              && out.result == Ok(UpdateChangedFlag(JObject([("value", JObject(info.result.value))]), resp.status, "create"))
              && Lookup(info.result.value, "_key") == Some(id))
        && (info.result.Err? ==> out.result == Err(info.result.error))
  {
  }

  /** The identifier of a created link is the first value of `"value"` when
      that is a dict, and `"value"` itself otherwise. */
  lemma CreatedIdCases(body: Fields, v: Json)
    requires Lookup(body, "value") == Some(v)
    ensures v.JObject? && v.fields != [] ==> CreatedId(JObject(body)) == Ok(v.fields[0].1)
    ensures v.JObject? && v.fields == [] ==> CreatedId(JObject(body)) == Err(IndexError)
    ensures !v.JObject? ==> CreatedId(JObject(body)) == Ok(v)
  {
  }

  // ---------------------------------------------------------------------
  // Order of the request body

  /** The pairs of the truthy parameters among `names`, in the order of
      `names`, built by concatenation alone. */
  function TruthyPairs(params: Params, names: seq<string>): Fields
    requires forall n :: n in names ==> n in ArgumentTypes
  {
    if names == [] then []
    else
      var n := names[|names| - 1];
      TruthyPairs(params, names[..|names| - 1]) + (if Truthy(params[n]) then [(n, params[n])] else [])
  }

  /** Every key of `TruthyPairs` is one of the names. */
  lemma {:induction false} TruthyPairsKeys(params: Params, names: seq<string>)
    requires forall n :: n in names ==> n in ArgumentTypes
    ensures forall k :: k in Keys(TruthyPairs(params, names)) ==> k in names
  {
    if names != [] {
      var init, n := names[..|names| - 1], names[|names| - 1];
      TruthyPairsKeys(params, init);
      var before := TruthyPairs(params, init);
      var tail: Fields := if Truthy(params[n]) then [(n, params[n])] else [];
      forall k | k in Keys(before + tail) ensures k in names {
        var i :| 0 <= i < |before + tail| && Keys(before + tail)[i] == k;
        if i < |before| {
          assert Keys(before)[i] == k;
          assert k in Keys(before) && k in init;
          var j :| 0 <= j < |init| && init[j] == k;
          assert names[j] == k;
        } else {
          assert k == n;
        }
      }
    }
  }

  /** For distinct names, the `spec` dict lists the truthy parameters in the
      order of the names: each assignment adds a key not yet present, so it
      goes last. */
  lemma {:induction false} SpecFieldsInOrder(params: Params, names: seq<string>)
    requires forall n :: n in names ==> n in ArgumentTypes
    requires forall i, j :: 0 <= i < j < |names| ==> names[i] != names[j]
    ensures SpecFields(params, names) == TruthyPairs(params, names)
  {
    if names != [] {
      var init, n := names[..|names| - 1], names[|names| - 1];
      SpecFieldsInOrder(params, init);
      if Truthy(params[n]) {
        TruthyPairsKeys(params, init);
        forall i | 0 <= i < |init| ensures init[i] != n {
          assert init[i] == names[i];
        }
        SetFieldAppends(TruthyPairs(params, init), n, params[n]);
      } else {
        assert TruthyPairs(params, init) + [] == TruthyPairs(params, init);
      }
    }
  }

  /** The create body lists the truthy accepted fields in accepted-field
      order. */
  lemma CreateBodyInOrder(params: Params)
    ensures SpecFields(params, AcceptedFields) == TruthyPairs(params, AcceptedFields)
  {
    SpecFieldsInOrder(params, AcceptedFields);
  }

  /** Given only a domain name, a password and a user name, the request body
      holds exactly those three, in the order of the accepted fields. */
  lemma TypicalCreateBody(params: Params)
    requires Truthy(params["domain_name"]) && Truthy(params["password"]) && Truthy(params["username"])
    requires !Truthy(params["admin_groups"]) && !Truthy(params["port"])
    requires !Truthy(params["psc_hostname"]) && !Truthy(params["ssl_thumbprint"])
    ensures SpecFields(params, AcceptedFields) ==
      [("domain_name", params["domain_name"]), ("password", params["password"]), ("username", params["username"])]
  {
    CreateBodyInOrder(params);
    TypicalCreatePairs(params);
  }

  /** The truthy pairs of such a creation, in accepted-field order. */
  lemma TypicalCreatePairs(params: Params)
    requires Truthy(params["domain_name"]) && Truthy(params["password"]) && Truthy(params["username"])
    requires !Truthy(params["admin_groups"]) && !Truthy(params["port"])
    requires !Truthy(params["psc_hostname"]) && !Truthy(params["ssl_thumbprint"])
    ensures TruthyPairs(params, AcceptedFields) ==
      [("domain_name", params["domain_name"]), ("password", params["password"]), ("username", params["username"])]
  {
    TypicalCreateBodyStart(params);
    var d, pw, u := ("domain_name", params["domain_name"]), ("password", params["password"]), ("username", params["username"]);
    var a := AcceptedFields;
    assert a[..4][..3] == a[..3];
    assert a[..5][..4] == a[..4] && a[..6][..5] == a[..5] && a[..7][..6] == a[..6] && a[..7] == a;
    assert TruthyPairs(params, a[..4]) == [d, pw];
    assert TruthyPairs(params, a[..5]) == [d, pw];
    assert TruthyPairs(params, a[..6]) == [d, pw];
    assert TruthyPairs(params, a) == [d, pw, u];
  }

  /** The first three accepted fields of such a creation give two pairs. */
  lemma TypicalCreateBodyStart(params: Params)
    requires Truthy(params["domain_name"]) && Truthy(params["password"])
    requires !Truthy(params["admin_groups"])
    ensures TruthyPairs(params, AcceptedFields[..3]) ==
      [("domain_name", params["domain_name"]), ("password", params["password"])]
  {
    var d := ("domain_name", params["domain_name"]);
    var a := AcceptedFields;
    assert a[..1][..0] == [] && a[..2][..1] == a[..1] && a[..3][..2] == a[..2];
    assert TruthyPairs(params, a[..1]) == [];
    assert TruthyPairs(params, a[..2]) == [d];
  }
}
