/**
 * The parameter and request-body types of the LemList client: query parameters with their
 * literal sets, the JSON bodies sent with PATCH and POST requests, and the names of the
 * response schemas the responses are validated against.
 */
module LemListTypes {
  import opened Wrappers
  import Json
  import IsoDate

  /** `version?: "v2"` of the campaign listing. */
  datatype CampaignsVersion = V2

  /** `sortby?: "createdAt"`. */
  datatype SortBy = CreatedAt

  /** `sortOrder?: "asc" | "desc"`. */
  datatype SortOrder = Asc | Desc

  /** `status?` of the campaign listing. */
  datatype CampaignStatus = Running | Draft | Archived | Paused | Ended | Errors

  /** `ABSelected?: "A" | "B"` of the campaign statistics. */
  datatype AbVariant = A | B

  function VersionText(v: CampaignsVersion): (s: string)
    ensures |s| > 0
  {
    "v2"
  }

  function SortByText(v: SortBy): (s: string)
    ensures |s| > 0
  {
    "createdAt"
  }

  function SortOrderText(v: SortOrder): (s: string)
    ensures |s| > 0
  {
    match v
    case Asc => "asc"
    case Desc => "desc"
  }

  function StatusText(v: CampaignStatus): (s: string)
    ensures |s| > 0
  {
    match v
    case Running => "running"
    case Draft => "draft"
    case Archived => "archived"
    case Paused => "paused"
    case Ended => "ended"
    case Errors => "errors"
  }

  function AbVariantText(v: AbVariant): (s: string)
    ensures |s| > 0
  {
    match v
    case A => "A"
    case B => "B"
  }

  /** The event types a webhook can subscribe to. */
  datatype WebhookEventType =
    | Contacted | Hooked | Attracted | Warmed | Interested | Skipped | NotInterested
    | EmailsSent | EmailsOpened | EmailsClicked | EmailsReplied | EmailsBounced
    | EmailsSendFailed | EmailsFailed | EmailsUnsubscribed | EmailsInterested | EmailsNotInterested
    | LinkedinInterested | LinkedinNotInterested | LinkedinSent | LinkedinReplied
    | LinkedinInviteAccepted
    | CustomDomainErrors | ConnectionIssue | SendLimitReached | LemwarmPaused | CampaignComplete

  function EventTypeText(t: WebhookEventType): (s: string)
    ensures |s| > 0
  {
    match t
    case Contacted => "contacted"
    case Hooked => "hooked"
    case Attracted => "attracted"
    case Warmed => "warmed"
    case Interested => "interested"
    case Skipped => "skipped"
    case NotInterested => "notInterested"
    case EmailsSent => "emailsSent"
    case EmailsOpened => "emailsOpened"
    case EmailsClicked => "emailsClicked"
    case EmailsReplied => "emailsReplied"
    case EmailsBounced => "emailsBounced"
    case EmailsSendFailed => "emailsSendFailed"
    case EmailsFailed => "emailsFailed"
    case EmailsUnsubscribed => "emailsUnsubscribed"
    case EmailsInterested => "emailsInterested"
    case EmailsNotInterested => "emailsNotInterested"
    case LinkedinInterested => "linkedinInterested"
    case LinkedinNotInterested => "linkedinNotInterested"
    case LinkedinSent => "linkedinSent"
    case LinkedinReplied => "linkedinReplied"
    case LinkedinInviteAccepted => "linkedinInviteAccepted"
    case CustomDomainErrors => "customDomainErrors"
    case ConnectionIssue => "connectionIssue"
    case SendLimitReached => "sendLimitReached"
    case LemwarmPaused => "lemwarmPaused"
    case CampaignComplete => "campaignComplete"
  }

  /** The optional query parameters of the campaign listing; None is an absent property. */
  datatype GetCampaignsParams = GetCampaignsParams(
    offset: Option<int>,
    limit: Option<int>,
    version: Option<CampaignsVersion>,
    page: Option<int>,
    sortby: Option<SortBy>,
    sortOrder: Option<SortOrder>,
    status: Option<CampaignStatus>)

  /** The query parameters of the campaign statistics: a date range and optional filters. */
  datatype GetCampaignStatsParams = GetCampaignStatsParams(
    startDate: IsoDate.Date,
    endDate: IsoDate.Date,
    sendUser: Option<string>,
    abSelected: Option<AbVariant>,
    channels: Option<string>)

  /** The campaigns whose reports are asked for. */
  datatype GetCampaignReportsParams = GetCampaignReportsParams(campaignIds: seq<string>)

  /** The optional query parameters of webhook creation. */
  datatype CreateWebhookParams = CreateWebhookParams(
    campaignId: Option<string>,
    isFirst: Option<bool>,
    zapId: Option<string>)

  /** The settings a campaign update may change; None is a property left out. */
  datatype UpdateCampaignData = UpdateCampaignData(
    name: Option<string>,
    stopOnEmailReplied: Option<bool>,
    stopOnMeetingBooked: Option<bool>,
    stopOnLinkClicked: Option<bool>,
    leadsPausedByInterest: Option<bool>,
    opportunityReplied: Option<bool>,
    opportunityClicked: Option<bool>,
    autoLeadInterest: Option<bool>,
    disableTrackOpen: Option<bool>,
    disableTrackClick: Option<bool>,
    disableTrackReply: Option<bool>,
    stopOnLinkClickedFilter: Option<string>)

  datatype CreateCampaignRequest = CreateCampaignRequest(name: string)

  datatype CreateWebhookRequest = CreateWebhookRequest(targetUrl: string, eventType: Option<WebhookEventType>)

  /** The response schemas, one per endpoint; what each accepts is not part of this model. */
  datatype Schema =
    | MinimalCampaigns | CampaignDetail | UpdatedCampaign | PausedCampaign | CreatedCampaign
    | CampaignStats | ExportStarted | ExportStatus | ExportEmailSet | CampaignReports
    | TeamInfo | TeamSenders | TeamCredits | UserInfo | Webhooks | CreatedWebhook | DeletedWebhook

  /** A property of a body object: its key and, unless it is `undefined`, its JSON value. */
  type Field = (string, Option<Json.Value>)

  function StringField(key: string, value: Option<string>): Field {
    (key, if value.Some? then Some(Json.String(value.value)) else None)
  }

  function BoolField(key: string, value: Option<bool>): Field {
    (key, if value.Some? then Some(Json.Bool(value.value)) else None)
  }

  /** The members `JSON.stringify` writes for an object: one per defined property, in order. */
  function Members(fs: seq<Field>): seq<Json.Member> {
    if fs == [] then []
    else (if fs[0].1.Some? then [Json.Member(fs[0].0, fs[0].1.value)] else []) + Members(fs[1..])
  }

  /** The keys of the properties that are defined, in order. */
  function DefinedKeys(fs: seq<Field>): (ks: seq<string>)
    ensures forall k | k in ks :: exists i | 0 <= i < |fs| :: fs[i].0 == k && fs[i].1.Some?
  {
    if fs == [] then []
    else
      var rest := DefinedKeys(fs[1..]);
      assert forall k | k in rest :: exists i | 0 <= i < |fs| :: fs[i].0 == k && fs[i].1.Some? by {
        forall k | k in rest ensures exists i | 0 <= i < |fs| :: fs[i].0 == k && fs[i].1.Some? {
          var i :| 0 <= i < |fs[1..]| && fs[1..][i].0 == k && fs[1..][i].1.Some?;
          assert fs[i + 1] == fs[1..][i];
        }
      }
      (if fs[0].1.Some? then [fs[0].0] else []) + rest
  }

  /** The keys of the members of a JSON object, in order. */
  function Keys(ms: seq<Json.Member>): (ks: seq<string>)
    ensures |ks| == |ms| && forall i | 0 <= i < |ms| :: ks[i] == ms[i].key
  {
    if ms == [] then [] else [ms[0].key] + Keys(ms[1..])
  }

  lemma {:induction false} KeysAppend(a: seq<Json.Member>, b: seq<Json.Member>)
    ensures Keys(a + b) == Keys(a) + Keys(b)
  {
  }

  lemma {:induction false} MembersKeys(fs: seq<Field>)
    ensures Keys(Members(fs)) == DefinedKeys(fs)
  {
    if fs != [] {
      MembersKeys(fs[1..]);
      KeysAppend(if fs[0].1.Some? then [Json.Member(fs[0].0, fs[0].1.value)] else [], Members(fs[1..]));
    }
  }

  lemma {:induction false} MembersSound(fs: seq<Field>)
    ensures forall m | m in Members(fs) :: (m.key, Some(m.value)) in fs
  {
    if fs != [] {
      MembersSound(fs[1..]);
      assert forall f | f in fs[1..] :: f in fs;
    }
  }

  lemma {:induction false} MembersComplete(fs: seq<Field>)
    ensures forall f | f in fs && f.1.Some? :: Json.Member(f.0, f.1.value) in Members(fs)
  {
    if fs != [] {
      MembersComplete(fs[1..]);
      assert fs == [fs[0]] + fs[1..];
    }
  }

  lemma {:induction false} MembersEmpty(fs: seq<Field>)
    ensures Members(fs) == [] <==> forall i | 0 <= i < |fs| :: fs[i].1.None?
  {
    if fs != [] {
      MembersEmpty(fs[1..]);
      assert forall i | 1 <= i < |fs| :: fs[i] == fs[1..][i - 1];
    }
  }

  /**
   * The object written for a list of properties: its keys are the defined ones, in order; each
   * member is a defined property with its value, and each defined property is a member.
   */
  lemma MembersMeaning(fs: seq<Field>)
    ensures Keys(Members(fs)) == DefinedKeys(fs)
    ensures forall m | m in Members(fs) :: (m.key, Some(m.value)) in fs
    ensures forall f | f in fs && f.1.Some? :: Json.Member(f.0, f.1.value) in Members(fs)
    ensures Members(fs) == [] <==> forall i | 0 <= i < |fs| :: fs[i].1.None?
  {
    MembersKeys(fs);
    MembersSound(fs);
    MembersComplete(fs);
    MembersEmpty(fs);
  }

  /** The properties of an update in declaration order. */
  function UpdateCampaignFields(d: UpdateCampaignData): seq<Field> {
    [StringField("name", d.name),
     BoolField("stopOnEmailReplied", d.stopOnEmailReplied),
     BoolField("stopOnMeetingBooked", d.stopOnMeetingBooked),
     BoolField("stopOnLinkClicked", d.stopOnLinkClicked),
     BoolField("leadsPausedByInterest", d.leadsPausedByInterest),
     BoolField("opportunityReplied", d.opportunityReplied),
     BoolField("opportunityClicked", d.opportunityClicked),
     BoolField("autoLeadInterest", d.autoLeadInterest),
     BoolField("disableTrackOpen", d.disableTrackOpen),
     BoolField("disableTrackClick", d.disableTrackClick),
     BoolField("disableTrackReply", d.disableTrackReply),
     StringField("stopOnLinkClickedFilter", d.stopOnLinkClickedFilter)]
  }

  /** The object an update sends; `JSON.stringify` leaves out the properties that are `undefined`. */
  function UpdateCampaignJson(d: UpdateCampaignData): Json.Value {
    Json.Object(Members(UpdateCampaignFields(d)))
  }

  function CreateCampaignJson(d: CreateCampaignRequest): Json.Value {
    Json.Object(Members([StringField("name", Some(d.name))]))
  }

  function CreateWebhookJson(d: CreateWebhookRequest): Json.Value {
    Json.Object(Members([StringField("targetUrl", Some(d.targetUrl)),
                         StringField("type", if d.eventType.Some? then Some(EventTypeText(d.eventType.value)) else None)]))
  }

  /**
   * The update body holds exactly the properties that are present, in declaration order, each
   * with its value.
   */
  lemma UpdateCampaignJsonMeaning(d: UpdateCampaignData)
    ensures var ms, fs := UpdateCampaignJson(d).members, UpdateCampaignFields(d);
      Keys(ms) == DefinedKeys(fs)
      && (forall m | m in ms :: (m.key, Some(m.value)) in fs)
      && (forall f | f in fs && f.1.Some? :: Json.Member(f.0, f.1.value) in ms)
  {
    MembersMeaning(UpdateCampaignFields(d));
  }

  /** An update with no property present is the only one whose fields are all undefined. */
  lemma UpdateCampaignFieldsNone(d: UpdateCampaignData)
    ensures (forall i | 0 <= i < |UpdateCampaignFields(d)| :: UpdateCampaignFields(d)[i].1.None?) <==>
      d == UpdateCampaignData(None, None, None, None, None, None, None, None, None, None, None, None)
  {
    var fs := UpdateCampaignFields(d);
    assert fs[0].1.None? <==> d.name.None?;
    assert fs[1].1.None? <==> d.stopOnEmailReplied.None?;
    assert fs[2].1.None? <==> d.stopOnMeetingBooked.None?;
    assert fs[3].1.None? <==> d.stopOnLinkClicked.None?;
    assert fs[4].1.None? <==> d.leadsPausedByInterest.None?;
    assert fs[5].1.None? <==> d.opportunityReplied.None?;
    assert fs[6].1.None? <==> d.opportunityClicked.None?;
    assert fs[7].1.None? <==> d.autoLeadInterest.None?;
    assert fs[8].1.None? <==> d.disableTrackOpen.None?;
    assert fs[9].1.None? <==> d.disableTrackClick.None?;
    assert fs[10].1.None? <==> d.disableTrackReply.None?;
    assert fs[11].1.None? <==> d.stopOnLinkClickedFilter.None?;
  }

  /** With no property present the body is `{}`, and only then. */
  lemma UpdateCampaignJsonEmpty(d: UpdateCampaignData)
    ensures UpdateCampaignJson(d) == Json.Object([]) <==>
      d == UpdateCampaignData(None, None, None, None, None, None, None, None, None, None, None, None)
  {
    MembersMeaning(UpdateCampaignFields(d));
    UpdateCampaignFieldsNone(d);
  }
}
