# Hybrid-link management module, modelled in Dafny

This project models `plugins/modules/hvc_links.py` of the VMware REST
collection for Ansible. That module manages the hybrid links of a vCenter
(`/rest/hvc/links`). It can:

- create a link, unless one is already listed, in which case it reports that
  link unchanged;
- delete a link by its identifier.

It reads the links through the REST API: one GET lists them and one GET per
link fetches its details.

The model is organised as follows:

- `outcomes.dfy`: `Option`, a failure-compatible `Result`, and the Python
  exceptions that can escape the module (`KeyError`, `TypeError`,
  `AttributeError`, `IndexError`, `UnboundLocalError`, a JSON decode error
  and a transport failure).
- `json.dfy`: decoded JSON values as Python holds them.
  - A dict is an ordered sequence of pairs, because the module takes "the
    first value" of a dict.
  - The Python operations the module applies are modelled on these values:
    truthiness, `==`, `in`, `d[k]`, `d[k] = v`, `d.get(k)`, iteration and
    `list(d.values())[0]`.
- `http.dfy`: the authenticated session, as a fixed map from request to
  response. Every operation returns its result together with the requests
  it sent, in order.
  - `GuardedBody` models the `Content-Type` guard of `_create` and
    `_delete`.
- `hvc_links.dfy`: the module itself.
  - `get_device_info`, `list_devices`, `exists`, `url`, `_create`,
    `_delete` and `entry_point`.
  - The loops of `list_devices`, `exists` and `_create` are methods with
    loop invariants. Each is proved equal to a function of the server and
    the parameters.
  - The module parameters are the subset type `Params`, the values the
    automation engine's argument validation lets through.
- `hvc_links_properties.dfy`: what the module promises, stated about those
  functions.
  - Listing: completeness and order.
  - Existence check: the first-match rule, and the consequence that the
    first listed link always matches.
  - Create: the short-circuit that keeps it idempotent, and the exact
    request body.
  - The handling of every kind of create reply.

Four behaviours of the code are easy to miss, and the model keeps them:

- **Unicity keys.** The existence check compares the unicity keys
  `bus` and `pci_slot_number`, which the code fixes rather than takes from
  the caller.
  - Neither is a parameter of this module, so no listed link is ever ruled
    out.
  - `exists` therefore returns the first listed link (`EveryLinkMatches`).
- **Which fields are sent.** The create body keeps a field when its value
  is *truthy*, not merely non-null. An empty string, an empty list and
  `False` are also left out (`SpecFieldsExact`).
- **Content-Type.** A reply without a `Content-Type` header reads as `{}`.
  A header equal to `application/json` reads the JSON body. Any other
  header leaves the body variable unassigned, and the module fails with
  `UnboundLocalError`. The reply is not treated as empty.
- **Existing link in create.** The short-circuit tests the truthiness of
  the link `exists` found. A listed link always carries `_key`, so it is
  truthy.

## Model

| member | source | states |
|---|---|---|
| Json.Lookup | plugins/modules/hvc_links.py:171 | `d.get(k)` is None exactly when `k` is not a key, and otherwise a value stored under `k` |
| Json.SetField | plugins/modules/hvc_links.py:150 | after `d[k] = v`, `k` maps to `v` and every other key keeps its value |
| Json.SetFieldKeepsKeys | plugins/modules/hvc_links.py:150 | assigning a key the dict already has leaves the key order unchanged |
| Json.SetFieldAppends | plugins/modules/hvc_links.py:215 | assigning a new key appends exactly that pair at the end, which fixes the order of the create body |
| Http.GuardedBody | plugins/modules/hvc_links.py:218-222 | the Content-Type guard: no header reads as `{}`; `application/json` reads the decoded body, or fails with a decode error; any other header leaves the body unassigned, giving UnboundLocalError |
| HvcLinksProperties.UrlParts | plugins/modules/hvc_links.py:189-190 | the collection URL is `https://`, then the `vcenter_hostname` parameter verbatim (`None` when unset), then `/rest/hvc/links`; the host can be read back from the URL |
| HvcLinks.DeviceInfo | plugins/modules/hvc_links.py:146-151 | one GET to `url/key`; a non-string key fails with TypeError before anything is sent; the reply's `"value"` dict is returned stamped with `_key` = key and otherwise unchanged; a missing `"value"` gives KeyError, a non-dict gives TypeError, and transport or decode errors pass through |
| HvcLinks.ListDevices | plugins/modules/hvc_links.py:154-163 | the loop returns exactly the list-then-detail outcome (`ListOutcome`): results and requests, stopping at the first failure |
| HvcLinks.Exists | plugins/modules/hvc_links.py:166-174 | the nested loop with its `break`/`else` returns the first listed entry that no given unicity key rules out, or None, after the listing's requests |
| HvcLinks.BuildSpec | plugins/modules/hvc_links.py:212-215 | the loop builds the `spec` dict of the truthy accepted fields, in accepted-field order |
| HvcLinks.CreateLink | plugins/modules/hvc_links.py:198-233 | `_create` returns, and sends, exactly `CreateOutcome`: the existence check, then the short-circuit or the POST, then the reply handling |
| HvcLinks.DeleteLink | plugins/modules/hvc_links.py:236-246 | exactly one DELETE to `…/rest/hvc/links/<link>` followed by the `gen_args` suffix; no header gives `{}`; a JSON header gives the body or a decode error; any other header gives UnboundLocalError; transport failure passes through |
| HvcLinks.Dispatch | plugins/modules/hvc_links.py:193-194 | state `create` selects `_create` and state `delete` selects `_delete`, in both directions; a missing state fails with TypeError and is the only failure |
| HvcLinks.EntryPoint | plugins/modules/hvc_links.py:193-195 | the selected handler's outcome is returned unchanged; with no state, nothing is sent |
| HvcLinksProperties.DetailsOnlyGet | plugins/modules/hvc_links.py:160-162 | the detail fetches send only GETs |
| HvcLinksProperties.DetailsComplete | plugins/modules/hvc_links.py:160-162 | successful detail fetches give one request and one entry per abbreviated entry, entry i fetched from `url/<first value of entry i>` and stamped with it |
| HvcLinksProperties.ListDevicesComplete | plugins/modules/hvc_links.py:154-163 | a successful listing sends the list GET first, then one detail GET per listed entry in list order, and returns exactly N entries, entry i carrying `_key` = the first value of abbreviated entry i |
| HvcLinksProperties.ListedEntriesHaveKey | plugins/modules/hvc_links.py:146-162 | every listed entry carries `_key` and is therefore truthy |
| HvcLinksProperties.ListOnlyGet | plugins/modules/hvc_links.py:157-162 | listing sends only GETs, whatever the server replies |
| HvcLinksProperties.ListWithoutValueFails | plugins/modules/hvc_links.py:158-159 | a list reply without `"value"` fails with KeyError("value") after the single list GET |
| HvcLinksProperties.FirstMatchIsFirst | plugins/modules/hvc_links.py:169-174 | the existence check answers None exactly when no entry matches, and otherwise the entry at the lowest matching index |
| HvcLinksProperties.EveryLinkMatches | plugins/modules/hvc_links.py:167-172 | with the fixed unicity keys, which are not module parameters, every entry matches |
| HvcLinksProperties.ExistsReturnsFirstListed | plugins/modules/hvc_links.py:166-174 | `exists` returns the first listed link, None for an empty list, and the listing's error otherwise |
| HvcLinksProperties.SpecFieldsExact | plugins/modules/hvc_links.py:212-215 | the `spec` dict holds exactly the named parameters whose value is truthy, each with its own value |
| HvcLinksProperties.CreateReportsExistingMatch | plugins/modules/hvc_links.py:208-211 | when a link is found, create reports it as `{"value": link}` with status 200 and operation "get", sending only the existence check's GETs |
| HvcLinksProperties.CreateSkippedWhenAnyLinkListed | plugins/modules/hvc_links.py:208-211 | whenever a link is already listed, create sends no POST and reports the first listed link unchanged |
| HvcLinksProperties.CreateFailsWhenListingFails | plugins/modules/hvc_links.py:208-209 | when the existence check fails, create ends with that same error and posts nothing: only the listing's GETs were sent |
| HvcLinksProperties.CreatePostUnanswered | plugins/modules/hvc_links.py:216-217 | a POST that gets no response ends create with the transport error, after the listing's requests and the POST |
| HvcLinksProperties.CreatePostsTruthyFields | plugins/modules/hvc_links.py:212-217 | with no match, after the listing create sends exactly one POST to the collection URL with body `{"spec": S}`, S holding exactly the truthy accepted fields; only GETs follow it |
| HvcLinksProperties.CreateReplyCases | plugins/modules/hvc_links.py:217-233 | every kind of POST reply: no header gives `{}`; another header gives UnboundLocalError; a JSON header on a body that does not decode gives a decode error; a status other than 200/201 passes the body through; at 200/201, a body without `"value"` passes through, a None, bool or number body, or a list or string holding `"value"`, gives TypeError, an empty dict under `"value"` gives IndexError, and otherwise the created link is fetched and reported stamped with its identifier, or the fetch error is returned |
| HvcLinksProperties.PostReplyPassesBody | plugins/modules/hvc_links.py:218-227 | the replies whose body goes to `update_changed_flag` as it is, including list and string bodies without `"value"` at 200/201 |
| HvcLinksProperties.PostReplyFails | plugins/modules/hvc_links.py:218-231 | the replies that make the create fail after the POST alone: an undecodable JSON body, a body `"value" in` rejects or that cannot be subscripted with `"value"` (TypeError), and an empty dict under `"value"` (IndexError) |
| HvcLinksProperties.PostReplyFetchesCreated | plugins/modules/hvc_links.py:223-233 | the replies naming the created link: one POST then one detail GET, and the fetched entry is reported |
| HvcLinksProperties.CreatedIdCases | plugins/modules/hvc_links.py:228-231 | the created identifier is the first value of `"value"` when that is a dict (IndexError when it is empty), and `"value"` itself otherwise |
| HvcLinksProperties.SpecFieldsInOrder | plugins/modules/hvc_links.py:212-215 | for distinct names, the `spec` dict equals the pairs of the truthy names in the order of the names, defined by concatenation alone |
| HvcLinksProperties.CreateBodyInOrder | plugins/modules/hvc_links.py:199-215 | the create body lists the truthy accepted fields in accepted-field order |
| HvcLinksProperties.TypicalCreateBody | plugins/modules/hvc_links.py:199-215 | given only a domain name, a password and a user name, the body is exactly those three pairs, in accepted-field order |

## Left out

- `plugins/modules/vcenter_host_info.py` is not part of this model.
- Real HTTP and TLS are left out. Session opening (`open_session`), `main`,
  `AnsibleModule`, `exit_json` and the asyncio event loop are left out as well.
- The server is a fixed map from request to response. A link created by one
  call does not appear in the next listing, so "a second create reports no
  change" cannot be stated across two calls. It is stated per call instead
  (`CreateSkippedWhenAnyLinkListed`).
- `update_changed_flag` lives in shared code that is not part of this model.
  Its call is recorded as the value `UpdateChangedFlag(body, status,
  operation)`, not evaluated.
- `gen_args` lives in shared code that is not part of this model. It is a
  function parameter of `DeleteLink` and `EntryPoint`.
- `prepare_argument_spec` is modelled only as the domain of `Params`. The
  other argument-spec metadata is left out, because the automation engine
  consumes it before the module runs: fallbacks, `no_log` and
  `operationIds`.
- A `state` value outside the declared choices cannot occur, because
  `Params` excludes it.
  - `Dispatch` maps such a string to the KeyError of a missing global. A
    few such strings (`"_name__"`) name a global that is not a handler, and
    Python would fail only when calling it, with TypeError.
  - No lemma is stated about it.
- A string parameter is inserted into a URL as its text, and None as
  `"None"`. Other Python types cannot reach a URL, because `Params`
  excludes them.
- A `JObject` value may repeat a key, which no decoded Python dict does. On
  such a value `Lookup` and `FirstValue` take the first pair, while
  `json.loads` keeps the last value at the first key's position. The model
  does not exclude such replies.
- JSON floats are not modelled. Decoded numbers are integers.
- A body that is not JSON is modelled as an absent decoded body, which
  gives `JsonDecodeError`. aiohttp's own content-type check inside
  `resp.json()` is not modelled separately.
- `open_session` and the request timeout are not modelled. A failure to
  get any response is the single error `TransportError`.
