/**
 * The request logic of src/server.js: the `/webhook` handler, which resolves
 * an identifier and a normalised profile record from an untyped JSON body
 * and writes it into the in-memory `RECORDS` map, and the overview handler,
 * which looks a record up and applies fixed fallbacks before templating.
 */
module Server {
  import opened Wrappers
  import opened JsCore
  import opened HtmlEscape

  /** A parsed JSON body: property name to value. Absent properties read as `undefined`. */
  type Payload = map<string, JsValue>

  function Get(body: Payload, key: string): JsValue {
    if key in body then body[key] else Undefined
  }

  /** `body[k0] || body[k1] || ...`, stopped at the first truthy property. */
  function FirstTruthy(body: Payload, keys: seq<string>): (r: Option<JsValue>)
    ensures r.Some? ==> Truthy(r.value)
    ensures r.None? <==> forall i :: 0 <= i < |keys| ==> !Truthy(Get(body, keys[i]))
  {
    if keys == [] then None
    else if Truthy(Get(body, keys[0])) then Some(Get(body, keys[0]))
    else FirstTruthy(body, keys[1..])
  }

  /** The first truthy alias wins: no earlier alias is truthy, and its value is the result. */
  lemma {:induction false} FirstTruthyIsEarliest(body: Payload, keys: seq<string>, i: nat)
    requires i < |keys| && Truthy(Get(body, keys[i]))
    requires forall j :: 0 <= j < i ==> !Truthy(Get(body, keys[j]))
    ensures FirstTruthy(body, keys) == Some(Get(body, keys[i]))
  {
    if i > 0 {
      FirstTruthyIsEarliest(body, keys[1..], i - 1);
    }
  }

  /** Conversely, a result always comes from some alias with only falsy ones before it. */
  lemma {:induction false} FirstTruthyHasPosition(body: Payload, keys: seq<string>)
    requires FirstTruthy(body, keys).Some?
    ensures exists i :: 0 <= i < |keys| && FirstTruthy(body, keys) == Some(Get(body, keys[i]))
                        && forall j :: 0 <= j < i ==> !Truthy(Get(body, keys[j]))
  {
    if !Truthy(Get(body, keys[0])) {
      FirstTruthyHasPosition(body, keys[1..]);
      var i :| 0 <= i < |keys[1..]| && FirstTruthy(body, keys[1..]) == Some(Get(body, keys[1..][i]))
               && forall j :: 0 <= j < i ==> !Truthy(Get(body, keys[1..][j]));
      assert forall j :: 0 <= j < i + 1 ==> !Truthy(Get(body, keys[j])) by {
        forall j | 0 <= j < i + 1 ensures !Truthy(Get(body, keys[j])) {
          if j > 0 { assert keys[j] == keys[1..][j - 1]; }
        }
      }
      assert keys[i + 1] == keys[1..][i];
    } else {
      assert FirstTruthy(body, keys) == Some(Get(body, keys[0]));
    }
  }

  /** `a || b || ... || null`. */
  function OrNull(o: Option<JsValue>): JsValue {
    o.GetOr(Null)
  }

  // The alias lists the webhook tries, in order.
  const UidKeys: seq<string> := ["uid", "UID", "record_uid", "recordUID", "recordId", "id"]
  const AvatarKeys: seq<string> := ["avatarUrl", "avatar", "profilePic", "photoUrl"]
  const BackgroundKeys: seq<string> := ["backgroundInfo", "background", "bio"]
  const EmailKeys: seq<string> := ["email", "primaryEmail"]
  const FirstNameKeys: seq<string> := ["firstName", "first_name"]
  const LastNameKeys: seq<string> := ["lastName", "last_name"]

  /** One stored profile, as the webhook builds it. Absent fields are `Null`. */
  datatype Record = Record(
    avatarUrl: JsValue,
    backgroundInfo: JsValue,
    email: JsValue,
    firstName: JsValue,
    lastName: JsValue,
    name: JsValue,
    uid: string,
    updatedAt: string)

  /** The identifier of a webhook body: the first truthy of the six aliases, if any. */
  function ResolveUid(body: Payload): (r: Option<JsValue>)
    ensures r.None? <==> forall k :: k in UidKeys ==> !Truthy(Get(body, k))
    ensures Truthy(Get(body, "uid")) ==> r == Some(Get(body, "uid"))
    ensures r.Some? ==> Truthy(r.value)
  {
    var r := FirstTruthy(body, UidKeys);
    assert forall k :: k in UidKeys ==> exists i :: 0 <= i < |UidKeys| && UidKeys[i] == k;
    r
  }

  /** The alias order is the one the handler writes: `uid`, `UID`, `record_uid`, `recordUID`, `recordId`, `id`. */
  lemma UidPrecedence(body: Payload, i: nat)
    requires i < |UidKeys| && Truthy(Get(body, UidKeys[i]))
    requires forall j :: 0 <= j < i ==> !Truthy(Get(body, UidKeys[j]))
    ensures ResolveUid(body) == Some(Get(body, UidKeys[i]))
  {
    FirstTruthyIsEarliest(body, UidKeys, i);
  }

  /**
   * `name || [first, last].filter(Boolean).join(' ') || fallback`: the
   * display name rule shared by the webhook (fallback `null`) and the
   * overview (fallback `'Unknown'`).
   */
  function NameOr(name: JsValue, first: JsValue, last: JsValue, fallback: JsValue): (r: JsValue)
    ensures Truthy(name) ==> r == name
    ensures !Truthy(name) && (Truthy(first) || Truthy(last)) ==> r == Str(JoinTruthy(first, last))
    ensures !Truthy(name) && !Truthy(first) && !Truthy(last) ==> r == fallback
  {
    Or(name, Or(Str(JoinTruthy(first, last)), fallback))
  }

  /** The record the webhook stores for `body` under the key `uid` at time `now`. */
  function NormalizeRecord(body: Payload, uid: string, now: string): (r: Record)
    ensures r.uid == uid && r.updatedAt == now
    ensures r.avatarUrl == OrNull(FirstTruthy(body, AvatarKeys))
    ensures r.backgroundInfo == OrNull(FirstTruthy(body, BackgroundKeys))
    ensures r.email == OrNull(FirstTruthy(body, EmailKeys))
    ensures r.firstName == OrNull(FirstTruthy(body, FirstNameKeys))
    ensures r.lastName == OrNull(FirstTruthy(body, LastNameKeys))
    ensures Truthy(Get(body, "name")) ==> r.name == Get(body, "name")
    ensures (!Truthy(Get(body, "name")) && (Truthy(r.firstName) || Truthy(r.lastName)))
              ==> r.name == Str(JoinTruthy(r.firstName, r.lastName))
    ensures !Truthy(Get(body, "name")) && !Truthy(r.firstName) && !Truthy(r.lastName) ==> r.name == Null
    ensures WellFormed(r)
  {
    var first := OrNull(FirstTruthy(body, FirstNameKeys));
    var last := OrNull(FirstTruthy(body, LastNameKeys));
    Record(
      avatarUrl := OrNull(FirstTruthy(body, AvatarKeys)),
      backgroundInfo := OrNull(FirstTruthy(body, BackgroundKeys)),
      email := OrNull(FirstTruthy(body, EmailKeys)),
      firstName := first,
      lastName := last,
      name := NameOr(Get(body, "name"), first, last, Null),
      uid := uid,
      updatedAt := now)
  }

  /** Every optional field of a stored record is either truthy or `null`, never another falsy value. */
  predicate WellFormed(r: Record) {
    && (Truthy(r.avatarUrl) || r.avatarUrl == Null)
    && (Truthy(r.backgroundInfo) || r.backgroundInfo == Null)
    && (Truthy(r.email) || r.email == Null)
    && (Truthy(r.firstName) || r.firstName == Null)
    && (Truthy(r.lastName) || r.lastName == Null)
    && (Truthy(r.name) || r.name == Null)
  }

  /** The webhook's JSON reply. */
  datatype WebhookReply = Accepted(uid: string) | Rejected(error: string) {
    function Status(): int {
      if Accepted? then 200 else 400
    }
  }

  const MissingUidMessage := "Missing uid"
  const NoRecordMessage := "No record found for this uid (in-memory storage)."
  const DefaultAvatar := "https://images.unsplash.com/photo-1524504388940-b1c1722653e1?auto=format&fit=crop&w=900&q=80"

  /** The values the overview template interpolates, already coerced to strings. */
  datatype ProfileView = ProfileView(
    name: string,
    email: string,
    backgroundInfo: string,
    avatarUrl: string,
    lastEvent: string,
    lastUpdated: string,
    uid: string)

  /** The overview handler's reply: a 400 or 404 text body, or the profile page. */
  datatype OverviewReply = MissingUid | NoRecord | Page(view: ProfileView) {
    function Status(): int {
      match this
      case MissingUid => 400
      case NoRecord => 404
      case Page(_) => 200
    }

    function Text(): string
      requires !Page?
    {
      if MissingUid? then MissingUidMessage else NoRecordMessage
    }
  }

  /**
   * The fallbacks of the overview handler for a found record: name from the
   * record, else first and last name, else `'Unknown'`; email else `'N/A'`;
   * background else empty; avatar else the fixed default picture; last
   * update else the current time. `eventId` is the random placeholder id.
   */
  function ViewOf(rec: Record, uid: string, eventId: string, now: string): (v: ProfileView)
    ensures v.uid == uid && v.lastEvent == eventId
    ensures v.name != "" && v.email != "" && v.avatarUrl != ""
    ensures Truthy(rec.name) ==> v.name == ToJsString(rec.name)
    ensures (!Truthy(rec.name) && (Truthy(rec.firstName) || Truthy(rec.lastName)))
              ==> v.name == JoinTruthy(rec.firstName, rec.lastName)
    ensures !Truthy(rec.name) && !Truthy(rec.firstName) && !Truthy(rec.lastName) ==> v.name == "Unknown"
    ensures v.email == if Truthy(rec.email) then ToJsString(rec.email) else "N/A"
    ensures v.backgroundInfo == if Truthy(rec.backgroundInfo) then ToJsString(rec.backgroundInfo) else ""
    ensures v.avatarUrl == if Truthy(rec.avatarUrl) then ToJsString(rec.avatarUrl) else DefaultAvatar
    ensures v.lastUpdated == if rec.updatedAt != "" then rec.updatedAt else now
  {
    var name := NameOr(rec.name, rec.firstName, rec.lastName, Str("Unknown"));
    ProfileView(
      name := ToJsString(name),
      email := ToJsString(Or(rec.email, Str("N/A"))),
      backgroundInfo := ToJsString(Or(rec.backgroundInfo, Str(""))),
      avatarUrl := ToJsString(Or(rec.avatarUrl, Str(DefaultAvatar))),
      lastEvent := eventId,
      lastUpdated := if rec.updatedAt != "" then rec.updatedAt else now,
      uid := uid)
  }

  /**
   * The record-derived values the page template embeds, in page order: name,
   * email, last event, last update, identifier, avatar URL and the
   * background as `backgroundInfo || 'N/A'`.
   */
  function TemplateFields(v: ProfileView): seq<string> {
    [v.name, v.email, v.lastEvent, v.lastUpdated, v.uid, v.avatarUrl,
     if v.backgroundInfo != "" then v.backgroundInfo else "N/A"]
  }

  /**
   * The text the template interpolates: each field through escapeHtml. None
   * of it can open a tag or leave an attribute value, and decoding the
   * entities shows each field exactly as stored.
   */
  function InterpolatedText(v: ProfileView): (texts: seq<string>)
    ensures |texts| == |TemplateFields(v)| == 7
    ensures forall i :: 0 <= i < |texts| ==> MarkupFree(texts[i]) && AmpersandsAreEntities(texts[i])
    ensures forall i :: 0 <= i < |texts| ==> Unescape(texts[i]) == TemplateFields(v)[i]
  {
    EscapeFields(TemplateFields(v))
  }

  /** Each field passed through escapeHtml. */
  function EscapeFields(raw: seq<string>): (texts: seq<string>)
    ensures |texts| == |raw|
    ensures forall i :: 0 <= i < |texts| ==> MarkupFree(texts[i]) && AmpersandsAreEntities(texts[i])
    ensures forall i :: 0 <= i < |texts| ==> Unescape(texts[i]) == raw[i]
  {
    if raw == [] then []
    else
      EscapeHtmlSafe(raw[0]);
      UnescapeEscapeHtml(raw[0]);
      [EscapeHtml(raw[0])] + EscapeFields(raw[1..])
  }

  /**
   * Ingestion followed by display: the overview of a freshly normalised
   * record shows the payload's own name (or its first and last names), email,
   * background and avatar when it had them, and the fallbacks otherwise.
   */
  lemma ViewShowsPayload(body: Payload, uid: string, now: string, eventId: string, later: string)
    ensures var v := ViewOf(NormalizeRecord(body, uid, now), uid, eventId, later);
      && (Truthy(Get(body, "name")) ==> v.name == ToJsString(Get(body, "name")))
      && (FirstTruthy(body, EmailKeys).Some? ==> v.email == ToJsString(FirstTruthy(body, EmailKeys).value))
      && (FirstTruthy(body, EmailKeys).None? ==> v.email == "N/A")
      && (FirstTruthy(body, AvatarKeys).Some? ==> v.avatarUrl == ToJsString(FirstTruthy(body, AvatarKeys).value))
      && (FirstTruthy(body, AvatarKeys).None? ==> v.avatarUrl == DefaultAvatar)
      && ((!Truthy(Get(body, "name")) && (FirstTruthy(body, FirstNameKeys).Some? || FirstTruthy(body, LastNameKeys).Some?))
            ==> v.name == JoinTruthy(OrNull(FirstTruthy(body, FirstNameKeys)), OrNull(FirstTruthy(body, LastNameKeys))))
      && ((!Truthy(Get(body, "name")) && FirstTruthy(body, FirstNameKeys).None? && FirstTruthy(body, LastNameKeys).None?)
            ==> v.name == "Unknown")
      && (FirstTruthy(body, BackgroundKeys).Some? ==> v.backgroundInfo == ToJsString(FirstTruthy(body, BackgroundKeys).value))
      && (FirstTruthy(body, BackgroundKeys).None? ==> v.backgroundInfo == "")
      && (now != "" ==> v.lastUpdated == now)
  {
    var r := NormalizeRecord(body, uid, now);
    if !Truthy(Get(body, "name")) && (Truthy(r.firstName) || Truthy(r.lastName)) {
      var j := JoinTruthy(r.firstName, r.lastName);
      assert r.name == Str(j) && j != "";
    }
  }

  /** The in-memory `RECORDS` map: identifier to the latest record written for it. */
  class RecordStore {
    var records: map<string, Record>

    constructor()
      ensures records == map[]
    {
      records := map[];
    }

    /**
     * `POST /webhook`. `body` is the parsed JSON body (`req.body || {}`);
     * `now` is the processing time stamp. Without a truthy identifier the
     * store is left alone; otherwise the normalised record replaces whatever
     * was stored under `String(uid)`, and no other key changes.
     */
    method Webhook(body: Option<Payload>, now: string) returns (reply: WebhookReply)
      modifies this
      ensures var p := body.GetOr(map[]);
        && (ResolveUid(p).None? ==> reply == Rejected(MissingUidMessage) && records == old(records))
        && (ResolveUid(p).Some? ==>
              && reply == Accepted(ToJsString(ResolveUid(p).value))
              && records == old(records)[reply.uid := NormalizeRecord(p, reply.uid, now)])
      ensures reply.Status() == 400 <==> reply.Rejected?
      ensures reply.Accepted? ==> reply.uid in records && records[reply.uid].uid == reply.uid
      ensures forall k :: k in old(records) && (reply.Rejected? || k != reply.uid) ==> k in records && records[k] == old(records)[k]
    {
      var p := body.GetOr(map[]);
      var uid := ResolveUid(p);
      if uid.None? {
        return Rejected(MissingUidMessage);
      }
      var key := ToJsString(uid.value);
      var record := NormalizeRecord(p, key, now);
      records := records[key := record];
      reply := Accepted(key);
    }

    /**
     * `GET /va-starter-track/:uid/overview`. The path parameter is trimmed
     * before the lookup; `eventId` is the random placeholder event id and
     * `now` the time used when a record carries no update stamp.
     */
    function Overview(rawUid: string, eventId: string, now: string): (r: OverviewReply)
      reads this
      ensures r.Status() == 400 <==> Trim(rawUid) == ""
      ensures r.Status() == 404 <==> Trim(rawUid) != "" && Trim(rawUid) !in records
      ensures r.Status() == 200 <==> Trim(rawUid) != "" && Trim(rawUid) in records
      ensures r.Page? ==> r.view == ViewOf(records[Trim(rawUid)], Trim(rawUid), eventId, now)
      ensures !r.Page? ==> r.Text() == if Trim(rawUid) == "" then MissingUidMessage else NoRecordMessage
    {
      var uid := Trim(rawUid);
      if uid == "" then MissingUid
      else if uid !in records then NoRecord
      else Page(ViewOf(records[uid], uid, eventId, now))
    }
  }

  /**
   * A webhook followed by an overview request for the identifier `requested`,
   * on a fresh store: a rejected webhook stores nothing, so no identifier
   * finds a page; an accepted one is found exactly by the requests whose
   * trimmed identifier is the reported key, and the page shows the stored
   * record. A key with white space at its ends is stored untrimmed, so no
   * request can reach it.
   */
  method WebhookThenOverview(body: Payload, now: string, requested: string, eventId: string, later: string)
    returns (reply: WebhookReply, page: OverviewReply)
    ensures reply.Rejected? <==> ResolveUid(body).None?
    ensures reply.Rejected? ==> !page.Page?
    ensures reply.Accepted? ==> (page.Page? <==> Trim(requested) == reply.uid)
    ensures page.Page? ==> reply.Accepted? && page == Page(ViewOf(NormalizeRecord(body, reply.uid, now), reply.uid, eventId, later))
    ensures reply.Accepted? && !IsTrimmed(reply.uid) ==> !page.Page?
    ensures reply.Accepted? && IsTrimmed(reply.uid) && requested == reply.uid ==> page.Page?
  {
    var store := new RecordStore();
    reply := store.Webhook(Some(body), now);
    if reply.Rejected? {
      assert store.records == map[];
      page := store.Overview(requested, eventId, later);
      return;
    }
    var key := reply.uid;
    var rec := NormalizeRecord(body, key, now);
    assert store.records == map[key := rec];
    TruthyNonEmpty(ResolveUid(body).value);
    assert key != "";
    page := store.Overview(requested, eventId, later);
    if IsTrimmed(key) && requested == key {
      TrimOfTrimmed(key);
      assert Trim(requested) == key;
    }
  }
}
