/**
 * The LemList API client: the constructor's option merge, the request descriptors the public
 * methods build (verb, path with query string, body, response schema), and the private
 * `request` that sends one descriptor and wraps the outcome in a result envelope.
 *
 * The network call and the response schema validation are parameters of `Request`; the
 * browser functions the client relies on (`btoa`, `JSON.stringify`, `Date.prototype.toISOString`,
 * `URLSearchParams`) are the specification functions of the modules imported here.
 */
module LemList {
  import opened Wrappers
  import opened LemListTypes
  import Json
  import Text
  import Base64
  import IsoDate
  import FormUrlEncoded

  type Pair = FormUrlEncoded.Pair

  // ----- Client configuration -----

  const DefaultBaseUrl: string := "https://api.lemlist.com/api"

  /** A property of an options object: left out, present with the value `undefined`, or a string. */
  datatype Property = Missing | Undefined | Present(text: string)

  /** `LemListAPIOptions`. */
  datatype ClientOptions = ClientOptions(baseUrl: Property)

  const DefaultOptions: ClientOptions := ClientOptions(Present(DefaultBaseUrl))

  /** `{ ...base, ...over }`: a property `over` has, even as `undefined`, replaces that of `base`. */
  function Spread(base: ClientOptions, over: ClientOptions): ClientOptions {
    ClientOptions(if over.baseUrl.Missing? then base.baseUrl else over.baseUrl)
  }

  /** A `LemListAPI` instance: the API key and the merged options, both fixed at construction. */
  datatype Client = Client(apiKey: string, options: ClientOptions)

  /**
   * `new LemListAPI(apiKey, options)`; None stands for the options argument left out, which
   * takes the default options as its default value.
   */
  function NewClient(apiKey: string, options: Option<ClientOptions>): (c: Client)
    ensures c.apiKey == apiKey
    ensures !c.options.baseUrl.Missing?
    ensures options.None? ==> c.options == DefaultOptions
    ensures options.Some? && options.value.baseUrl.Missing? ==> c.options == DefaultOptions
    ensures options.Some? && !options.value.baseUrl.Missing? ==> c.options == options.value
  {
    Client(apiKey, Spread(DefaultOptions, options.GetOr(DefaultOptions)))
  }

  /** `${p}` in a template literal: a string stands for itself, `undefined` for "undefined". */
  function TemplateText(p: Property): string {
    if p.Present? then p.text else "undefined"
  }

  /** The URL a request for `path` is sent to. */
  function TargetUrl(c: Client, path: string): string {
    TemplateText(c.options.baseUrl) + path
  }

  /**
   * The target is the supplied base URL followed by the path; without a supplied base URL it is
   * the default one; an explicit `baseUrl: undefined` leaves the text "undefined" in front.
   */
  lemma TargetUrlOfNewClient(apiKey: string, options: Option<ClientOptions>, path: string)
    ensures options.None? ==> TargetUrl(NewClient(apiKey, options), path) == DefaultBaseUrl + path
    ensures options.Some? ==> (TargetUrl(NewClient(apiKey, options), path) ==
      match options.value.baseUrl
      case Missing => DefaultBaseUrl + path
      case Undefined => "undefined" + path
      case Present(url) => url + path)
  {
  }

  // ----- Request descriptors -----

  datatype Verb = Get | Post | Patch | Put | Delete

  function VerbName(v: Verb): string {
    match v
    case Get => "GET"
    case Post => "POST"
    case Patch => "PATCH"
    case Put => "PUT"
    case Delete => "DELETE"
  }

  /** The arguments a public method passes to `request`. */
  datatype Call = Call(verb: Verb, path: string, body: Option<Json.Value>, schema: Schema)

  /** The path made of `segments`, each one after a slash. */
  function SlashPath(segments: seq<string>): (p: string)
    ensures segments != [] ==> |p| > 0 && p[0] == '/'
  {
    if segments == [] then "" else "/" + segments[0] + SlashPath(segments[1..])
  }

  lemma SlashPathCons(segment: string, rest: seq<string>)
    ensures SlashPath([segment] + rest) == "/" + segment + SlashPath(rest)
  {
    assert ([segment] + rest)[1..] == rest;
  }

  lemma SlashPath2(a: string, b: string)
    ensures SlashPath([a, b]) == "/" + a + "/" + b
  {
    SlashPathCons(a, [b]);
    SlashPathCons(b, []);
  }

  lemma SlashPath3(a: string, b: string, c: string)
    ensures SlashPath([a, b, c]) == "/" + a + "/" + b + ("/" + c)
  {
    SlashPathCons(a, [b, c]);
    SlashPathCons(b, [c]);
    SlashPathCons(c, []);
  }

  lemma SlashPath4(a: string, b: string, c: string, d: string)
    ensures SlashPath([a, b, c, d]) == "/" + a + "/" + b + ("/" + c + "/" + d)
  {
    SlashPathCons(a, [b, c, d]);
    SlashPathCons(b, [c, d]);
    SlashPath2(c, d);
  }

  lemma SlashPath5(a: string, b: string, c: string, d: string, e: string)
    ensures SlashPath([a, b, c, d, e]) == "/" + a + "/" + b + ("/" + c + "/") + d + ("/" + e)
  {
    SlashPathCons(a, [b, c, d, e]);
    SlashPathCons(b, [c, d, e]);
    SlashPath3(c, d, e);
  }

  lemma SlashPath6(a: string, b: string, c: string, d: string, e: string, f: string)
    ensures SlashPath([a, b, c, d, e, f]) == "/" + a + "/" + b + ("/" + c + "/") + d + ("/" + e + "/") + f
  {
    SlashPathCons(a, [b, c, d, e, f]);
    SlashPathCons(b, [c, d, e, f]);
    SlashPathCons(c, [d, e, f]);
    SlashPathCons(d, [e, f]);
    SlashPath2(e, f);
  }

  // The literal pieces of the path templates, each split at its slashes; kept apart from the
  // builders so that each builder's proof only rearranges concatenations.

  lemma UsersPiece()
    ensures "/users/" == "/" + "users" + "/"
  {
  }

  lemma HooksPiece()
    ensures "/hooks/" == "/" + "hooks" + "/"
  {
  }

  lemma CampaignsPiece()
    ensures "/campaigns/" == "/" + "campaigns" + "/"
  {
  }

  lemma ExportPiece()
    ensures "/export/" == "/" + "export" + "/"
  {
  }

  lemma EmailPiece()
    ensures "/email/" == "/" + "email" + "/"
  {
  }

  lemma StatusPiece()
    ensures "/status" == "/" + "status"
  {
  }

  lemma PausePiece()
    ensures "/pause" == "/" + "pause"
  {
  }

  lemma ExportStartPiece()
    ensures "/export/start" == "/" + "export" + "/" + "start"
  {
  }

  lemma {:induction false} SlashPathJoin(segments: seq<string>)
    requires segments != []
    ensures SlashPath(segments) == ['/'] + Text.Join(segments, '/')
  {
    if |segments| == 1 {
      assert SlashPath(segments[1..]) == "";
    } else {
      SlashPathJoin(segments[1..]);
    }
  }

  /** A path built from segments free of slashes splits back into those segments. */
  lemma SlashPathSplit(segments: seq<string>)
    requires segments != []
    requires forall k | 0 <= k < |segments| :: '/' !in segments[k]
    ensures Text.Split(SlashPath(segments), '/') == [""] + segments
  {
    var parts := [""] + segments;
    assert parts[1..] == segments;
    assert Text.Join(parts, '/') == "" + ['/'] + Text.Join(segments, '/');
    SlashPathJoin(segments);
    assert forall k | 0 <= k < |parts| :: '/' !in parts[k] by {
      forall k | 0 <= k < |parts| ensures '/' !in parts[k] {
        if k > 0 { assert parts[k] == segments[k - 1]; }
      }
    }
    Text.SplitJoin(parts, '/');
  }

  // ----- Path-only methods -----

  function GetCampaign(campaignId: string): (c: Call)
    ensures c.verb == Get && c.body == None && c.schema == CampaignDetail
    ensures c.path == SlashPath(["campaigns", campaignId])
  {
    SlashPath2("campaigns", campaignId);
    CampaignsPiece();
    Call(Get, "/campaigns/" + campaignId, None, CampaignDetail)
  }

  function UpdateCampaign(campaignId: string, data: UpdateCampaignData): (c: Call)
    ensures c.verb == Patch && c.schema == UpdatedCampaign
    ensures c.body == Some(UpdateCampaignJson(data))
    ensures c.path == SlashPath(["campaigns", campaignId])
  {
    SlashPath2("campaigns", campaignId);
    CampaignsPiece();
    Call(Patch, "/campaigns/" + campaignId, Some(UpdateCampaignJson(data)), UpdatedCampaign)
  }

  function PauseCampaign(campaignId: string): (c: Call)
    ensures c.verb == Post && c.body == None && c.schema == PausedCampaign
    ensures c.path == SlashPath(["campaigns", campaignId, "pause"])
  {
    SlashPath3("campaigns", campaignId, "pause");
    CampaignsPiece();
    PausePiece();
    Call(Post, "/campaigns/" + campaignId + "/pause", None, PausedCampaign)
  }

  function CreateCampaign(data: CreateCampaignRequest): (c: Call)
    ensures c.verb == Post && c.schema == CreatedCampaign
    ensures c.body == Some(CreateCampaignJson(data))
    ensures c.path == SlashPath(["campaigns"])
  {
    Call(Post, "/campaigns", Some(CreateCampaignJson(data)), CreatedCampaign)
  }

  function StartCampaignExport(campaignId: string): (c: Call)
    ensures c.verb == Get && c.body == None && c.schema == ExportStarted
    ensures c.path == SlashPath(["campaigns", campaignId, "export", "start"])
  {
    SlashPath4("campaigns", campaignId, "export", "start");
    CampaignsPiece();
    ExportStartPiece();
    Call(Get, "/campaigns/" + campaignId + "/export/start", None, ExportStarted)
  }

  function GetCampaignExportStatus(campaignId: string, exportId: string): (c: Call)
    ensures c.verb == Get && c.body == None && c.schema == ExportStatus
    ensures c.path == SlashPath(["campaigns", campaignId, "export", exportId, "status"])
  {
    SlashPath5("campaigns", campaignId, "export", exportId, "status");
    CampaignsPiece();
    ExportPiece();
    StatusPiece();
    Call(Get, "/campaigns/" + campaignId + "/export/" + exportId + "/status", None, ExportStatus)
  }

  function SetExportEmail(campaignId: string, exportId: string, email: string): (c: Call)
    ensures c.verb == Put && c.body == None && c.schema == ExportEmailSet
    ensures c.path == SlashPath(["campaigns", campaignId, "export", exportId, "email", email])
  {
    SlashPath6("campaigns", campaignId, "export", exportId, "email", email);
    CampaignsPiece();
    ExportPiece();
    EmailPiece();
    Call(Put, "/campaigns/" + campaignId + "/export/" + exportId + "/email/" + email, None, ExportEmailSet)
  }

  /**
   * Identifiers go into the path verbatim, so one with a slash can stand for several: two
   * different argument triples of `setExportEmail` ask for the same path.
   */
  lemma SetExportEmailAmbiguous()
    ensures SetExportEmail("c", "e/email/m", "x").path == SetExportEmail("c", "e", "m/email/x").path
  {
  }

  function GetTeam(): (c: Call)
    ensures c.verb == Get && c.body == None && c.schema == TeamInfo
    ensures c.path == SlashPath(["team"])
  {
    Call(Get, "/team", None, TeamInfo)
  }

  function GetTeamSenders(): (c: Call)
    ensures c.verb == Get && c.body == None && c.schema == TeamSenders
    ensures c.path == SlashPath(["team", "senders"])
  {
    Call(Get, "/team/senders", None, TeamSenders)
  }

  function GetTeamCredits(): (c: Call)
    ensures c.verb == Get && c.body == None && c.schema == TeamCredits
    ensures c.path == SlashPath(["team", "credits"])
  {
    Call(Get, "/team/credits", None, TeamCredits)
  }

  function GetUser(userId: string): (c: Call)
    ensures c.verb == Get && c.body == None && c.schema == UserInfo
    ensures c.path == SlashPath(["users", userId])
  {
    SlashPath2("users", userId);
    UsersPiece();
    Call(Get, "/users/" + userId, None, UserInfo)
  }

  function GetWebhooks(): (c: Call)
    ensures c.verb == Get && c.body == None && c.schema == Webhooks
    ensures c.path == SlashPath(["hooks"])
  {
    Call(Get, "/hooks", None, Webhooks)
  }

  function DeleteWebhook(hookId: string): (c: Call)
    ensures c.verb == Delete && c.body == None && c.schema == DeletedWebhook
    ensures c.path == SlashPath(["hooks", hookId])
  {
    SlashPath2("hooks", hookId);
    HooksPiece();
    Call(Delete, "/hooks/" + hookId, None, DeletedWebhook)
  }

  // ----- Query strings -----

  /** The tuple `if (value) queryParams.set(key, value)` appends to a list without `key`. */
  function Entry(key: string, value: Option<string>): seq<Pair> {
    if value.Some? then [(key, value.value)] else []
  }

  /** The list made by setting each distinct key to its value in turn, skipping absent values. */
  function Entries(keys: seq<string>, values: seq<Option<string>>): seq<Pair>
    requires |keys| == |values|
  {
    if keys == [] then [] else Entry(keys[0], values[0]) + Entries(keys[1..], values[1..])
  }

  /** The keys whose value is present, in their order. */
  function PresentKeys(keys: seq<string>, values: seq<Option<string>>): (ks: seq<string>)
    requires |keys| == |values|
    ensures forall k | k in ks :: k in keys
  {
    if keys == [] then []
    else (if values[0].Some? then [keys[0]] else []) + PresentKeys(keys[1..], values[1..])
  }

  predicate Distinct(keys: seq<string>) {
    forall i, j | 0 <= i < j < |keys| :: keys[i] != keys[j]
  }

  lemma {:induction false} EntriesAppend(keys1: seq<string>, keys2: seq<string>, values1: seq<Option<string>>, values2: seq<Option<string>>)
    requires |keys1| == |values1| && |keys2| == |values2|
    ensures Entries(keys1 + keys2, values1 + values2) == Entries(keys1, values1) + Entries(keys2, values2)
  {
    if keys1 == [] {
      assert keys1 + keys2 == keys2 && values1 + values2 == values2;
    } else {
      assert (keys1 + keys2)[1..] == keys1[1..] + keys2;
      assert (values1 + values2)[1..] == values1[1..] + values2;
      EntriesAppend(keys1[1..], keys2, values1[1..], values2);
    }
  }

  lemma EntriesSingle(key: string, value: Option<string>)
    ensures Entries([key], [value]) == Entry(key, value)
  {
    assert [key][1..] == [] && [value][1..] == [];
  }

  lemma {:induction false} NamesAppend(a: seq<Pair>, b: seq<Pair>)
    ensures FormUrlEncoded.Names(a + b) == FormUrlEncoded.Names(a) + FormUrlEncoded.Names(b)
  {
  }

  lemma {:induction false} LookupAppend(a: seq<Pair>, b: seq<Pair>, name: string)
    ensures FormUrlEncoded.Lookup(a + b, name) ==
      if FormUrlEncoded.Lookup(a, name).Some? then FormUrlEncoded.Lookup(a, name) else FormUrlEncoded.Lookup(b, name)
  {
    if a != [] {
      assert (a + b)[1..] == a[1..] + b;
      LookupAppend(a[1..], b, name);
    } else {
      assert a + b == b;
    }
  }

  lemma {:induction false} EntriesNames(keys: seq<string>, values: seq<Option<string>>)
    requires |keys| == |values|
    ensures FormUrlEncoded.Names(Entries(keys, values)) == PresentKeys(keys, values)
  {
    if keys != [] {
      EntriesNames(keys[1..], values[1..]);
      NamesAppend(Entry(keys[0], values[0]), Entries(keys[1..], values[1..]));
    }
  }

  lemma {:induction false} EntriesLookupAbsent(keys: seq<string>, values: seq<Option<string>>, name: string)
    requires |keys| == |values| && name !in keys
    ensures FormUrlEncoded.Lookup(Entries(keys, values), name) == None
  {
    if keys != [] {
      EntriesLookupAbsent(keys[1..], values[1..], name);
      LookupAppend(Entry(keys[0], values[0]), Entries(keys[1..], values[1..]), name);
    }
  }

  lemma {:induction false} EntriesLookup(keys: seq<string>, values: seq<Option<string>>, i: nat)
    requires |keys| == |values| && Distinct(keys) && i < |keys|
    ensures FormUrlEncoded.Lookup(Entries(keys, values), keys[i]) == values[i]
  {
    LookupAppend(Entry(keys[0], values[0]), Entries(keys[1..], values[1..]), keys[i]);
    if i == 0 {
      if values[0].None? {
        EntriesLookupAbsent(keys[1..], values[1..], keys[0]);
      }
    } else {
      EntriesLookup(keys[1..], values[1..], i - 1);
    }
  }

  /**
   * What a list built by `Entries` holds: exactly the keys with a value, in the given order,
   * and each key looked up gives its value, or nothing when it was skipped.
   */
  lemma EntriesMeaning(keys: seq<string>, values: seq<Option<string>>)
    requires |keys| == |values| && Distinct(keys)
    ensures FormUrlEncoded.Names(Entries(keys, values)) == PresentKeys(keys, values)
    ensures forall i | 0 <= i < |keys| :: FormUrlEncoded.Lookup(Entries(keys, values), keys[i]) == values[i]
  {
    EntriesNames(keys, values);
    forall i | 0 <= i < |keys|
      ensures FormUrlEncoded.Lookup(Entries(keys, values), keys[i]) == values[i]
    {
      EntriesLookup(keys, values, i);
    }
  }

  lemma EntriesFrontPair(keys: seq<string>, values: seq<Option<string>>)
    requires |keys| == |values| >= 2 && values[0].Some? && values[1].Some?
    ensures Entries(keys, values) == [(keys[0], values[0].value), (keys[1], values[1].value)] + Entries(keys[2..], values[2..])
  {
    assert keys[1..][1..] == keys[2..] && values[1..][1..] == values[2..];
  }

  /** Two present values at the front are the first two tuples. */
  lemma EntriesPresentPair(keys: seq<string>, values: seq<Option<string>>)
    requires |keys| == |values| >= 2 && values[0].Some? && values[1].Some?
    ensures Entries(keys, values) == [(keys[0], values[0].value), (keys[1], values[1].value)] + Entries(keys[2..], values[2..])
    ensures FormUrlEncoded.Names(Entries(keys, values)) == [keys[0], keys[1]] + PresentKeys(keys[2..], values[2..])
  {
    EntriesFrontPair(keys, values);
    EntriesNames(keys[2..], values[2..]);
    NamesAppend([(keys[0], values[0].value), (keys[1], values[1].value)], Entries(keys[2..], values[2..]));
  }

  /** With every value absent, nothing is set. */
  lemma {:induction false} EntriesNone(keys: seq<string>, values: seq<Option<string>>)
    requires |keys| == |values| && forall i | 0 <= i < |values| :: values[i].None?
    ensures Entries(keys, values) == []
  {
    if keys != [] {
      EntriesNone(keys[1..], values[1..]);
    }
  }

  /** The query keys the methods set, each standing for its literal name. */
  datatype QueryKey =
    | OffsetKey | LimitKey | VersionKey | PageKey | SortbyKey | SortOrderKey | StatusKey
    | StartDateKey | EndDateKey | SendUserKey | AbSelectedKey | ChannelsKey
    | CampaignIdKey | IsFirstKey | ZapIdKey

  function KeyName(k: QueryKey): string {
    match k
    case OffsetKey => "offset"
    case LimitKey => "limit"
    case VersionKey => "version"
    case PageKey => "page"
    case SortbyKey => "sortby"
    case SortOrderKey => "sortOrder"
    case StatusKey => "status"
    case StartDateKey => "startDate"
    case EndDateKey => "endDate"
    case SendUserKey => "sendUser"
    case AbSelectedKey => "ABSelected"
    case ChannelsKey => "channels"
    case CampaignIdKey => "campaignId"
    case IsFirstKey => "isFirst"
    case ZapIdKey => "zapId"
  }

  function KeyNames(keys: seq<QueryKey>): (names: seq<string>)
    ensures |names| == |keys| && forall i | 0 <= i < |keys| :: names[i] == KeyName(keys[i])
  {
    seq(|keys|, i requires 0 <= i < |keys| => KeyName(keys[i]))
  }

  /**
   * The run of `if (value) queryParams.set(name, value)` statements of a builder, over its
   * table of distinct names and the values it computes for them: a fresh list receives the
   * present values, each under its name, in the table's order.
   */
  method SetPresent(queryParams: FormUrlEncoded.UrlSearchParams, names: seq<string>, values: seq<Option<string>>)
    requires |names| == |values| && Distinct(names)
    requires queryParams.list == []
    modifies queryParams
    ensures queryParams.list == Entries(names, values)
  {
    for i := 0 to |names|
      invariant queryParams.list == Entries(names[..i], values[..i])
    {
      var name, value := names[i], values[i];
      assert names[..i + 1] == names[..i] + [name] && values[..i + 1] == values[..i] + [value];
      assert name !in names[..i];
      EntriesNames(names[..i], values[..i]);
      EntriesAppend(names[..i], [name], values[..i], [value]);
      EntriesSingle(name, value);
      if value.Some? {
        queryParams.Set(name, value.value);
      }
    }
    assert names[..|names|] == names && values[..|values|] == values;
  }

  /** The query keys of each method have distinct names. */
  lemma CampaignsKeysDistinct()
    ensures Distinct(KeyNames(CampaignsKeys))
  {
    assert KeyNames(CampaignsKeys) == ["offset", "limit", "version", "page", "sortby", "sortOrder", "status"];
  }

  lemma StatsKeysDistinct()
    ensures Distinct(KeyNames(StatsKeys))
  {
    assert KeyNames(StatsKeys) == ["startDate", "endDate", "sendUser", "ABSelected", "channels"];
  }

  lemma WebhookKeysDistinct()
    ensures Distinct(KeyNames(WebhookKeys))
  {
    assert KeyNames(WebhookKeys) == ["campaignId", "isFirst", "zapId"];
  }

  /** A number parameter as `if (n) ... n.toString()` passes it: left out when absent or zero. */
  function NumberParam(n: Option<int>): (r: Option<string>)
    ensures r.Some? <==> n.Some? && n.value != 0
    ensures r.Some? ==> Text.IsIntegerText(r.value) && Text.ReadInteger(r.value) == n.value
  {
    if n.Some? && n.value != 0 then
      Text.IntegerTextRoundTrip(n.value);
      Some(Text.IntegerText(n.value))
    else None
  }

  /** A string parameter under `if (s)`: left out when absent or empty. */
  function TextParam(s: Option<string>): (r: Option<string>)
    ensures r.Some? <==> s.Some? && s.value != ""
    ensures r.Some? ==> r.value == s.value
  {
    if s.Some? && s.value != "" then s else None
  }

  /** A literal-union parameter: every literal is a non-empty string, so it is set when present. */
  function Literal<T>(v: Option<T>, text: T -> string): Option<string> {
    if v.Some? then Some(text(v.value)) else None
  }

  function BoolText(b: bool): string {
    if b then "true" else "false"
  }

  // ----- getCampaigns -----

  const CampaignsKeys: seq<QueryKey> := [OffsetKey, LimitKey, VersionKey, PageKey, SortbyKey, SortOrderKey, StatusKey]

  function CampaignsValues(p: GetCampaignsParams): (vs: seq<Option<string>>)
    ensures |vs| == |CampaignsKeys|
  {
    [NumberParam(p.offset), NumberParam(p.limit), Literal(p.version, VersionText), NumberParam(p.page),
     Literal(p.sortby, SortByText), Literal(p.sortOrder, SortOrderText), Literal(p.status, StatusText)]
  }

  /** The query list of the campaign listing. */
  function CampaignsQuery(p: GetCampaignsParams): seq<Pair> {
    Entries(KeyNames(CampaignsKeys), CampaignsValues(p))
  }

  /**
   * `getCampaigns(params)`: without params the path is `/campaigns`; with a params object it
   * is `/campaigns?` and the serialized query, even when that is empty.
   */
  method GetCampaigns(params: Option<GetCampaignsParams>) returns (call: Call)
    ensures call.verb == Get && call.body == None && call.schema == MinimalCampaigns
    ensures params.None? ==> call.path == "/campaigns"
    ensures params.Some? ==> call.path == "/campaigns?" + FormUrlEncoded.Serialize(CampaignsQuery(params.value))
  {
    var uri := "/campaigns";
    if params.Some? {
      var p := params.value;
      var queryParams := new FormUrlEncoded.UrlSearchParams();
      CampaignsKeysDistinct();
      SetPresent(queryParams, KeyNames(CampaignsKeys), CampaignsValues(p));
      var queryString := queryParams.ToString();
      assert "/campaigns" + "?" == "/campaigns?";
      uri := uri + "?" + queryString;
    }
    call := Call(Get, uri, None, MinimalCampaigns);
  }

  /**
   * The campaign listing's query holds the keys offset, limit, version, page, sortby,
   * sortOrder and status, in that order, each only when its value is truthy, and the
   * serialized query parses back to it.
   */
  lemma CampaignsQueryNames(p: GetCampaignsParams)
    ensures FormUrlEncoded.Names(CampaignsQuery(p)) == PresentKeys(KeyNames(CampaignsKeys), CampaignsValues(p))
    ensures FormUrlEncoded.ParseQuery(FormUrlEncoded.Serialize(CampaignsQuery(p))) == Some(CampaignsQuery(p))
  {
    EntriesNames(KeyNames(CampaignsKeys), CampaignsValues(p));
    FormUrlEncoded.SerializeRoundTrip(CampaignsQuery(p));
  }

  /**
   * Each key of the campaign listing's query reads back to the value given: a zero or
   * absent number, and an absent literal, are not there.
   */
  lemma CampaignsQueryLookup(p: GetCampaignsParams)
    ensures FormUrlEncoded.Lookup(CampaignsQuery(p), "offset") == NumberParam(p.offset)
    ensures FormUrlEncoded.Lookup(CampaignsQuery(p), "limit") == NumberParam(p.limit)
    ensures FormUrlEncoded.Lookup(CampaignsQuery(p), "version") == Literal(p.version, VersionText)
    ensures FormUrlEncoded.Lookup(CampaignsQuery(p), "page") == NumberParam(p.page)
    ensures FormUrlEncoded.Lookup(CampaignsQuery(p), "sortby") == Literal(p.sortby, SortByText)
    ensures FormUrlEncoded.Lookup(CampaignsQuery(p), "sortOrder") == Literal(p.sortOrder, SortOrderText)
    ensures FormUrlEncoded.Lookup(CampaignsQuery(p), "status") == Literal(p.status, StatusText)
  {
    CampaignsKeysDistinct();
    var ks, vs := KeyNames(CampaignsKeys), CampaignsValues(p);
    assert ks[0] == "offset" && ks[1] == "limit" && ks[2] == "version" && ks[3] == "page";
    assert ks[4] == "sortby" && ks[5] == "sortOrder" && ks[6] == "status";
    EntriesLookup(ks, vs, 0);
    EntriesLookup(ks, vs, 1);
    EntriesLookup(ks, vs, 2);
    EntriesLookup(ks, vs, 3);
    EntriesLookup(ks, vs, 4);
    EntriesLookup(ks, vs, 5);
    EntriesLookup(ks, vs, 6);
  }

  /** An empty params object leaves the query empty, so the path ends in a bare `?`. */
  lemma CampaignsNoKeys()
    ensures FormUrlEncoded.Serialize(CampaignsQuery(GetCampaignsParams(None, None, None, None, None, None, None))) == ""
  {
    EntriesNone(KeyNames(CampaignsKeys), CampaignsValues(GetCampaignsParams(None, None, None, None, None, None, None)));
  }

  // ----- getCampaignStats -----

  const StatsKeys: seq<QueryKey> := [StartDateKey, EndDateKey, SendUserKey, AbSelectedKey, ChannelsKey]

  function StatsValues(p: GetCampaignStatsParams): (vs: seq<Option<string>>)
    ensures |vs| == |StatsKeys|
  {
    [IsoDate.ToIsoString(p.startDate), IsoDate.ToIsoString(p.endDate), TextParam(p.sendUser),
     Literal(p.abSelected, AbVariantText), TextParam(p.channels)]
  }

  /** The query list of the campaign statistics. */
  function StatsQuery(p: GetCampaignStatsParams): seq<Pair> {
    Entries(KeyNames(StatsKeys), StatsValues(p))
  }

  /** The statistics path with its query string. */
  function StatsPath(campaignId: string, p: GetCampaignStatsParams): string {
    "/v2/campaigns/" + campaignId + "/stats?" + FormUrlEncoded.Serialize(StatsQuery(p))
  }

  /**
   * `getCampaignStats(campaignId, params)`: None where `toISOString` throws a `RangeError`
   * because a date is invalid; otherwise the statistics path with its query.
   */
  method GetCampaignStats(campaignId: string, params: GetCampaignStatsParams) returns (call: Option<Call>)
    ensures call.None? <==> params.startDate.InvalidDate? || params.endDate.InvalidDate?
    ensures call.Some? ==> call.value == Call(Get, StatsPath(campaignId, params), None, CampaignStats)
  {
    var startDate := IsoDate.ToIsoString(params.startDate);
    if startDate.None? {
      return None;
    }
    var endDate := IsoDate.ToIsoString(params.endDate);
    if endDate.None? {
      return None;
    }
    var queryParams := new FormUrlEncoded.UrlSearchParams();
    StatsKeysDistinct();
    SetPresent(queryParams, KeyNames(StatsKeys),
               [startDate, endDate, TextParam(params.sendUser), Literal(params.abSelected, AbVariantText), TextParam(params.channels)]);
    var queryString := queryParams.ToString();
    call := Some(Call(Get, "/v2/campaigns/" + campaignId + "/stats?" + queryString, None, CampaignStats));
  }

  /**
   * For valid dates the statistics query starts with startDate and endDate, whose values read
   * back to the dates given; sendUser, ABSelected and channels follow in that order, each only
   * when truthy.
   */
  lemma StatsQueryDates(p: GetCampaignStatsParams)
    requires p.startDate.UtcDate? && p.endDate.UtcDate?
    ensures |StatsQuery(p)| >= 2
    ensures StatsQuery(p)[0].0 == "startDate" && IsoDate.ReadIsoString(StatsQuery(p)[0].1) == Some(p.startDate)
    ensures StatsQuery(p)[1].0 == "endDate" && IsoDate.ReadIsoString(StatsQuery(p)[1].1) == Some(p.endDate)
    ensures StatsQuery(p)[2..] == Entries(KeyNames(StatsKeys)[2..], StatsValues(p)[2..])
    ensures FormUrlEncoded.Names(StatsQuery(p)) ==
      ["startDate", "endDate"] + PresentKeys(KeyNames(StatsKeys)[2..], StatsValues(p)[2..])
  {
    var ks, vs := KeyNames(StatsKeys), StatsValues(p);
    assert ks[0] == "startDate" && ks[1] == "endDate";
    EntriesPresentPair(ks, vs);
    IsoDate.ReadToIsoString(p.startDate);
    IsoDate.ReadToIsoString(p.endDate);
  }

  /** sendUser, ABSelected and channels read back to the values given, absent when falsy. */
  lemma StatsQueryLookup(p: GetCampaignStatsParams)
    ensures FormUrlEncoded.Lookup(StatsQuery(p), "sendUser") == TextParam(p.sendUser)
    ensures FormUrlEncoded.Lookup(StatsQuery(p), "ABSelected") == Literal(p.abSelected, AbVariantText)
    ensures FormUrlEncoded.Lookup(StatsQuery(p), "channels") == TextParam(p.channels)
  {
    StatsKeysDistinct();
    var ks, vs := KeyNames(StatsKeys), StatsValues(p);
    assert ks[2] == "sendUser" && ks[3] == "ABSelected" && ks[4] == "channels";
    EntriesLookup(ks, vs, 2);
    EntriesLookup(ks, vs, 3);
    EntriesLookup(ks, vs, 4);
  }

  // ----- getCampaignReports -----

  /** The query list of the campaign reports: one key with the identifiers joined by commas. */
  function ReportsQuery(p: GetCampaignReportsParams): seq<Pair> {
    [("campaignIds", Text.Join(p.campaignIds, ','))]
  }

  method GetCampaignReports(params: GetCampaignReportsParams) returns (call: Call)
    ensures call == Call(Get, "/campaigns/reports?" + FormUrlEncoded.Serialize(ReportsQuery(params)), None, CampaignReports)
  {
    var queryParams := new FormUrlEncoded.UrlSearchParams();
    queryParams.Set("campaignIds", Text.Join(params.campaignIds, ','));
    var queryString := queryParams.ToString();
    call := Call(Get, "/campaigns/reports?" + queryString, None, CampaignReports);
  }

  /**
   * The reports query has the single key campaignIds, whose value is the identifiers joined by
   * commas (empty for no identifier), and its serialization parses back to it.
   */
  lemma ReportsQueryShape(p: GetCampaignReportsParams)
    ensures FormUrlEncoded.Names(ReportsQuery(p)) == ["campaignIds"]
    ensures FormUrlEncoded.Lookup(ReportsQuery(p), "campaignIds") == Some(Text.Join(p.campaignIds, ','))
    ensures p.campaignIds == [] ==> FormUrlEncoded.Lookup(ReportsQuery(p), "campaignIds") == Some("")
    ensures FormUrlEncoded.ParseQuery(FormUrlEncoded.Serialize(ReportsQuery(p))) == Some(ReportsQuery(p))
  {
    FormUrlEncoded.SerializeRoundTrip(ReportsQuery(p));
  }

  /**
   * Splitting the campaignIds value at the commas gives the identifiers back in their order
   * when there is at least one and none holds a comma.
   */
  lemma ReportsQueryMeaning(p: GetCampaignReportsParams)
    requires p.campaignIds != []
    requires forall k | 0 <= k < |p.campaignIds| :: ',' !in p.campaignIds[k]
    ensures Text.Split(FormUrlEncoded.Lookup(ReportsQuery(p), "campaignIds").value, ',') == p.campaignIds
  {
    Text.SplitJoin(p.campaignIds, ',');
  }

  /** Identifiers are joined verbatim, so one holding a comma reads as two. */
  lemma ReportsQueryAmbiguous()
    ensures ReportsQuery(GetCampaignReportsParams(["a,b"])) == ReportsQuery(GetCampaignReportsParams(["a", "b"]))
  {
    assert ["a", "b"][1..] == ["b"];
    assert Text.Join(["a", "b"], ',') == "a" + [','] + "b" == "a,b";
  }

  // ----- createWebhook -----

  const WebhookKeys: seq<QueryKey> := [CampaignIdKey, IsFirstKey, ZapIdKey]

  /** `isFirst` is tested against `undefined` rather than for truthiness, so `false` is kept. */
  function IsFirstParam(b: Option<bool>): (r: Option<string>)
    ensures r.Some? <==> b.Some?
    ensures r.Some? ==> (r.value == "true" <==> b.value)
  {
    if b.Some? then Some(BoolText(b.value)) else None
  }

  function WebhookValues(p: CreateWebhookParams): (vs: seq<Option<string>>)
    ensures |vs| == |WebhookKeys|
  {
    [TextParam(p.campaignId), IsFirstParam(p.isFirst), TextParam(p.zapId)]
  }

  /** The query list of webhook creation. */
  function WebhookQuery(p: CreateWebhookParams): seq<Pair> {
    Entries(KeyNames(WebhookKeys), WebhookValues(p))
  }

  /**
   * `createWebhook(data, params)`: the body is the request object; a `?` and the query are
   * added only when params are given and the query string is not empty.
   */
  method CreateWebhook(data: CreateWebhookRequest, params: Option<CreateWebhookParams>) returns (call: Call)
    ensures call.verb == Post && call.schema == CreatedWebhook
    ensures call.body == Some(CreateWebhookJson(data))
    ensures params.None? ==> call.path == "/hooks"
    ensures params.Some? ==> (call.path ==
      if WebhookQuery(params.value) == [] then "/hooks"
      else "/hooks?" + FormUrlEncoded.Serialize(WebhookQuery(params.value)))
  {
    var uri := "/hooks";
    if params.Some? {
      var p := params.value;
      var queryParams := new FormUrlEncoded.UrlSearchParams();
      WebhookKeysDistinct();
      SetPresent(queryParams, KeyNames(WebhookKeys), WebhookValues(p));
      var queryString := queryParams.ToString();
      FormUrlEncoded.SerializeEmpty(queryParams.list);
      if queryString != "" {
        assert "/hooks" + "?" == "/hooks?";
        uri := uri + "?" + queryString;
      }
    }
    call := Call(Post, uri, Some(CreateWebhookJson(data)), CreatedWebhook);
  }

  /**
   * The webhook query holds campaignId, isFirst and zapId in that order; campaignId and zapId
   * only when truthy, isFirst whenever it is given, `false` as the text "false".
   */
  lemma WebhookQueryMeaning(p: CreateWebhookParams)
    ensures FormUrlEncoded.Names(WebhookQuery(p)) == PresentKeys(KeyNames(WebhookKeys), WebhookValues(p))
    ensures FormUrlEncoded.Lookup(WebhookQuery(p), "campaignId") == TextParam(p.campaignId)
    ensures FormUrlEncoded.Lookup(WebhookQuery(p), "zapId") == TextParam(p.zapId)
    ensures p.isFirst == Some(false) ==> FormUrlEncoded.Lookup(WebhookQuery(p), "isFirst") == Some("false")
    ensures p.isFirst == Some(true) ==> FormUrlEncoded.Lookup(WebhookQuery(p), "isFirst") == Some("true")
    ensures p.isFirst == None ==> FormUrlEncoded.Lookup(WebhookQuery(p), "isFirst") == None
  {
    WebhookKeysDistinct();
    var ks, vs := KeyNames(WebhookKeys), WebhookValues(p);
    EntriesMeaning(ks, vs);
    assert ks[0] == "campaignId" && ks[1] == "isFirst" && ks[2] == "zapId";
  }

  /**
   * With campaignId and zapId falsy or absent and isFirst undefined, the query is empty and the
   * path is `/hooks`; `isFirst: false` is not falsy here and still gives `?isFirst=false`.
   */
  lemma WebhookNoKeys(p: CreateWebhookParams)
    requires TextParam(p.campaignId).None? && p.isFirst.None? && TextParam(p.zapId).None?
    ensures WebhookQuery(p) == []
  {
    EntriesNone(KeyNames(WebhookKeys), WebhookValues(p));
  }

  // ----- request -----

  /** The `RequestInit` passed to `fetch`. */
  datatype FetchInit = FetchInit(verb: string, headers: seq<Pair>, body: Option<string>)

  /** The response body as `response.json()` settles. */
  datatype BodyOutcome = NotJson(reason: string) | JsonBody(value: Json.Value)

  /** What `fetch` settles to: a rejection, or a response with its status and body. */
  datatype FetchOutcome = NetworkError(reason: string) | Responded(status: int, body: BodyOutcome)

  /** What `v.parse` does with the data: the parsed output, or the issues it throws. */
  datatype Validation<T> = Valid(output: T) | Invalid(issues: seq<string>)

  /** The errors the envelope can record, one per step that can throw. */
  datatype Failure =
    | InvalidCharacterError
    | TransportError(reason: string)
    | DecodeError(reason: string)
    | ValidationError(issues: seq<string>)
    | RangeError

  /** `Result<T>`: the success flag, the data and the error, the last two possibly undefined. */
  datatype Result<T> = Result(success: bool, data: Option<T>, error: Option<Failure>)

  /** How the promise `request` returns settles. */
  datatype Settled<T> = Fulfilled(result: Result<T>) | Rejected(reason: Failure)

  /** The `Authorization` header value: Basic credentials with an empty user-id and the key as password. */
  function Authorization(apiKey: string): Option<string> {
    var token := Base64.Btoa(":" + apiKey);
    if token.Some? then Some("Basic " + token.value) else None
  }

  function Headers(authorization: string): seq<Pair> {
    [("Content-Type", "application/json"), ("Authorization", authorization)]
  }

  /** The serialized body `fetch` gets: only for a truthy body. */
  function AttachedBody(body: Option<Json.Value>): Option<string> {
    if body.Some? && Json.Truthy(body.value) then Some(Json.Stringify(body.value)) else None
  }

  /** The `RequestInit` of a call, or None where building the header throws. */
  function FetchOptions(client: Client, call: Call): Option<FetchInit> {
    var authorization := Authorization(client.apiKey);
    if authorization.Some? then Some(FetchInit(VerbName(call.verb), Headers(authorization.value), AttachedBody(call.body)))
    else None
  }

  /** `fetchOptions` built as `request` builds it: the headers first, then the body when it is truthy. */
  method BuildFetchOptions(client: Client, call: Call) returns (built: Option<FetchInit>)
    ensures built == FetchOptions(client, call)
  {
    var token := Base64.Btoa(":" + client.apiKey);
    if token.None? {
      return None;
    }
    var fetchOptions := FetchInit(VerbName(call.verb), Headers("Basic " + token.value), None);
    if call.body.Some? && Json.Truthy(call.body.value) {
      fetchOptions := fetchOptions.(body := Some(Json.Stringify(call.body.value)));
    }
    built := Some(fetchOptions);
  }

  /**
   * The header is there exactly when every character of the key is at most U+00FF, and then it
   * is "Basic " followed by the base64 form of the bytes of ":" and the key, as section 2 of
   * RFC 7617 lays out the credentials with an empty user-id.
   */
  lemma AuthorizationCredentials(apiKey: string)
    ensures Authorization(apiKey).Some? <==> Base64.IsBinaryString(apiKey)
    ensures Authorization(apiKey).Some? ==>
      var a := Authorization(apiKey).value;
      |a| >= 6 && a[..6] == "Basic " && Base64.Decode(a[6..]) == Some([0x3A] + Base64.Latin1(apiKey))
  {
    var s := ":" + apiKey;
    assert forall i | 0 <= i < |apiKey| :: s[i + 1] == apiKey[i];
    if Base64.IsBinaryString(apiKey) {
      assert Base64.IsBinaryString(s);
      assert Base64.Latin1(s) == [0x3A] + Base64.Latin1(apiKey);
      var a := Authorization(apiKey).value;
      assert a[6..] == Base64.Btoa(s).value;
    } else {
      var i :| 0 <= i < |apiKey| && apiKey[i] as int >= 0x100;
      assert s[i + 1] as int >= 0x100;
    }
  }

  /**
   * Every request sent carries the JSON content type and the API key's header, uses the
   * call's verb, and has a body exactly when the call's body is truthy, one that parses back
   * to that body.
   */
  lemma FetchOptionsMeaning(client: Client, call: Call)
    requires FetchOptions(client, call).Some?
    ensures var init := FetchOptions(client, call).value;
      init.verb == VerbName(call.verb)
      && init.headers == [("Content-Type", "application/json"), ("Authorization", Authorization(client.apiKey).value)]
      && (init.body.Some? <==> call.body.Some? && Json.Truthy(call.body.value))
      && (init.body.Some? ==> Json.Parse(init.body.value) == call.body)
  {
    if call.body.Some? {
      Json.ParseStringify(call.body.value);
    }
  }

  /** The bodies the public methods send are objects, so they are always attached. */
  lemma BodiesAttached(client: Client, campaignId: string, u: UpdateCampaignData, c: CreateCampaignRequest, w: CreateWebhookRequest)
    ensures AttachedBody(UpdateCampaign(campaignId, u).body) == Some(Json.Stringify(UpdateCampaignJson(u)))
    ensures AttachedBody(CreateCampaign(c).body) == Some(Json.Stringify(CreateCampaignJson(c)))
    ensures AttachedBody(Some(CreateWebhookJson(w))) == Some(Json.Stringify(CreateWebhookJson(w)))
  {
    ObjectAttached(UpdateCampaignJson(u).members);
    ObjectAttached(CreateCampaignJson(c).members);
    ObjectAttached(CreateWebhookJson(w).members);
  }

  /** Every object is truthy, so an object body is always attached. */
  lemma ObjectAttached(ms: seq<Json.Member>)
    ensures AttachedBody(Some(Json.Object(ms))) == Some(Json.Stringify(Json.Object(ms)))
  {
  }

  /**
   * The envelope the try block leaves: success with the parsed data when the response came,
   * its body was JSON and the schema accepted it; otherwise no data and the error of the step
   * that threw.
   */
  function Envelope<T>(outcome: FetchOutcome, schema: Schema, validate: (Schema, Json.Value) -> Validation<T>): (r: Result<T>)
    ensures r.success <==> outcome.Responded? && outcome.body.JsonBody? && validate(schema, outcome.body.value).Valid?
    ensures r.success ==> r.data == Some(validate(schema, outcome.body.value).output) && r.error.None?
    ensures !r.success ==> r.data.None? && r.error.Some?
    ensures outcome.NetworkError? ==> r.error == Some(TransportError(outcome.reason))
    ensures outcome.Responded? && outcome.body.NotJson? ==> r.error == Some(DecodeError(outcome.body.reason))
    ensures outcome.Responded? && outcome.body.JsonBody? && validate(schema, outcome.body.value).Invalid? ==>
      r.error == Some(ValidationError(validate(schema, outcome.body.value).issues))
  {
    match outcome
    case NetworkError(reason) => Result(false, None, Some(TransportError(reason)))
    case Responded(_, NotJson(reason)) => Result(false, None, Some(DecodeError(reason)))
    case Responded(_, JsonBody(value)) =>
      match validate(schema, value)
      case Valid(output) => Result(true, Some(output), None)
      case Invalid(issues) => Result(false, None, Some(ValidationError(issues)))
  }

  /** The status code is never read: an error status with a body the schema accepts is a success. */
  lemma EnvelopeIgnoresStatus<T>(s1: int, s2: int, body: BodyOutcome, schema: Schema, validate: (Schema, Json.Value) -> Validation<T>)
    ensures Envelope(Responded(s1, body), schema, validate) == Envelope(Responded(s2, body), schema, validate)
  {
  }

  /** The try/catch of `request`: the result, initially unsuccessful, updated step by step. */
  method Attempt<T>(url: string, init: FetchInit, schema: Schema,
                    fetch: (string, FetchInit) -> FetchOutcome,
                    validate: (Schema, Json.Value) -> Validation<T>) returns (result: Result<T>)
    ensures result == Envelope(fetch(url, init), schema, validate)
  {
    result := Result(false, None, None);
    var response := fetch(url, init);
    if response.NetworkError? {
      result := result.(error := Some(TransportError(response.reason)));
      return;
    }
    if response.body.NotJson? {
      result := result.(error := Some(DecodeError(response.body.reason)));
      return;
    }
    var parsedData := validate(schema, response.body.value);
    if parsedData.Invalid? {
      result := result.(error := Some(ValidationError(parsedData.issues)));
      return;
    }
    result := result.(success := true);
    result := result.(data := Some(parsedData.output));
  }

  /**
   * `request` as written: the header is built before the try block, so a key `btoa` cannot
   * encode makes the returned promise reject instead of fulfilling with an error result.
   */
  method RequestAsWritten<T>(client: Client, call: Call,
                             fetch: (string, FetchInit) -> FetchOutcome,
                             validate: (Schema, Json.Value) -> Validation<T>) returns (settled: Settled<T>)
    ensures settled.Rejected? <==> FetchOptions(client, call).None?
    ensures settled.Rejected? ==> settled.reason == InvalidCharacterError
    ensures settled.Fulfilled? ==>
      settled.result == Envelope(fetch(TargetUrl(client, call.path), FetchOptions(client, call).value), call.schema, validate)
  {
    var fetchOptions := BuildFetchOptions(client, call);
    if fetchOptions.None? {
      return Rejected(InvalidCharacterError);
    }
    var result := Attempt(TargetUrl(client, call.path), fetchOptions.value, call.schema, fetch, validate);
    settled := Fulfilled(result);
  }

  /** An API key with a character above U+00FF: `request` rejects for every call. */
  lemma NonLatin1KeyRejects(call: Call)
    ensures FetchOptions(NewClient("\U{0100}", None), call).None?
  {
    var s := ":" + "\U{0100}";
    assert s[1] as int == 0x100;
  }

  /**
   * `request` with the header built inside the try block: it always fulfils, and a key `btoa`
   * cannot encode is recorded as the error of an unsuccessful result.
   */
  method Request<T>(client: Client, call: Call,
                    fetch: (string, FetchInit) -> FetchOutcome,
                    validate: (Schema, Json.Value) -> Validation<T>) returns (settled: Settled<T>)
    ensures settled.Fulfilled?
    ensures FetchOptions(client, call).None? ==> settled.result == Result(false, None, Some(InvalidCharacterError))
    ensures FetchOptions(client, call).Some? ==>
      settled.result == Envelope(fetch(TargetUrl(client, call.path), FetchOptions(client, call).value), call.schema, validate)
  {
    var result: Result<T> := Result(false, None, None);
    var fetchOptions := BuildFetchOptions(client, call);
    if fetchOptions.None? {
      result := result.(error := Some(InvalidCharacterError));
      return Fulfilled(result);
    }
    result := Attempt(TargetUrl(client, call.path), fetchOptions.value, call.schema, fetch, validate);
    settled := Fulfilled(result);
  }

  /**
   * `getCampaignStats` with the dates converted inside the error handling of `request`, as its
   * `Promise<Result>` type promises: an invalid date gives an unsuccessful result carrying the
   * `RangeError` instead of a synchronous throw; valid dates give the corrected request of the
   * statistics call.
   */
  method CampaignStatsRequest<T>(client: Client, campaignId: string, params: GetCampaignStatsParams,
                                 fetch: (string, FetchInit) -> FetchOutcome,
                                 validate: (Schema, Json.Value) -> Validation<T>) returns (settled: Settled<T>)
    ensures settled.Fulfilled?
    ensures params.startDate.InvalidDate? || params.endDate.InvalidDate? ==>
      settled.result == Result(false, None, Some(RangeError))
    ensures params.startDate.UtcDate? && params.endDate.UtcDate? ==>
      var call := Call(Get, StatsPath(campaignId, params), None, CampaignStats);
      settled.result ==
        if FetchOptions(client, call).None? then Result(false, None, Some(InvalidCharacterError))
        else Envelope(fetch(TargetUrl(client, call.path), FetchOptions(client, call).value), CampaignStats, validate)
  {
    var call := GetCampaignStats(campaignId, params);
    if call.None? {
      return Fulfilled(Result(false, None, Some(RangeError)));
    }
    settled := Request(client, call.value, fetch, validate);
  }

  /** Whatever the key and the outcome, the corrected result has data exactly when it succeeded and an error exactly when it failed. */
  lemma RequestEnvelopeInvariant<T>(client: Client, call: Call, outcome: FetchOutcome, validate: (Schema, Json.Value) -> Validation<T>)
    ensures var r := if FetchOptions(client, call).Some? then Envelope(outcome, call.schema, validate)
                     else Result(false, None, Some(InvalidCharacterError));
      (r.success <==> r.data.Some?) && (r.success <==> r.error.None?)
  {
  }
}
