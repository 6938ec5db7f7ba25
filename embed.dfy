/**
 * The decisions of the browser embed script src/embed.js: which service
 * origin to talk to, which client identifier the page carries, how a
 * `data-path` becomes a destination under the client's page, and what a click
 * on a `[data-path]` / `[data-url]` element does. DOM lookups arrive as
 * `Option<string>` values; the effects (the event POST, the navigation, the
 * update of `window.Lentax`, the bound click listener) are recorded in the
 * fields of a `Page` object.
 */
module Embed {
  import opened Wrappers
  import opened JsCore
  import opened UriEncoding

  const ProductionOrigin := "https://va-starter-track-proposal-tracker-production.up.railway.app"
  const PagePrefix := "/va-starter-track/p/"
  const EventPrefix := "/va-starter-track/e/"
  const LabelLimit: nat := 120

  /** `window.Lentax`, reduced to the two properties the script reads and writes. */
  datatype Lentax = Lentax(railwayOrigin: JsValue, clientUID: JsValue)

  // ---------------------------------------------------------------------------
  // getRailwayOrigin
  // ---------------------------------------------------------------------------

  /** `s.replace(/\/+$/, "")`: drops the run of `/` at the end, if any. */
  function StripTrailingSlashes(s: string): (r: string)
    ensures r <= s
    ensures r == [] || r[|r| - 1] != '/'
    ensures forall i :: |r| <= i < |s| ==> s[i] == '/'
  {
    if s != [] && s[|s| - 1] == '/' then StripTrailingSlashes(s[..|s| - 1]) else s
  }

  /** `window.Lentax && window.Lentax.railwayOrigin` holds. */
  predicate HasOriginOverride(lentax: Option<Lentax>) {
    lentax.Some? && Truthy(lentax.value.railwayOrigin)
  }

  /**
   * `getRailwayOrigin()`: the override from `window.Lentax.railwayOrigin`
   * when it is set, the production URL otherwise, without trailing `/`.
   */
  function RailwayOrigin(lentax: Option<Lentax>): (r: string)
    ensures r == [] || r[|r| - 1] != '/'
    ensures !HasOriginOverride(lentax) ==> r == ProductionOrigin
    ensures HasOriginOverride(lentax) ==>
      var o := ToJsString(lentax.value.railwayOrigin);
      r <= o && forall i :: |r| <= i < |o| ==> o[i] == '/'
  {
    var fromWindow := if HasOriginOverride(lentax) then ToJsString(lentax.value.railwayOrigin) else "";
    var origin := if fromWindow != "" then fromWindow else ProductionOrigin;
    StripTrailingSlashes(origin)
  }

  /**
   * Feeding a computed origin back in as the override (as `init` does by
   * storing it on `window.Lentax`) gives the same origin again, unless it
   * was empty.
   */
  lemma RailwayOriginStable(lentax: Option<Lentax>, clientUID: JsValue)
    requires RailwayOrigin(lentax) != ""
    ensures RailwayOrigin(Some(Lentax(Str(RailwayOrigin(lentax)), clientUID))) == RailwayOrigin(lentax)
  {
  }

  /** An override made only of slashes strips down to the empty origin, not to the production URL. */
  lemma SlashOnlyOverride(clientUID: JsValue)
    ensures RailwayOrigin(Some(Lentax(Str("/"), clientUID))) == ""
  {
  }

  // ---------------------------------------------------------------------------
  // getClientUID
  // ---------------------------------------------------------------------------

  /** `uid && String(uid).trim()` for an attribute value: present and not blank. */
  predicate Usable(attr: Option<string>) {
    attr.Some? && attr.value != "" && Trim(attr.value) != ""
  }

  /** `window.Lentax && window.Lentax.clientUID && String(window.Lentax.clientUID).trim()`. */
  predicate WindowUidUsable(lentax: Option<Lentax>) {
    lentax.Some? && Truthy(lentax.value.clientUID) && Trim(ToJsString(lentax.value.clientUID)) != ""
  }

  /**
   * `getClientUID()`. `metaAttr` is `data-clientuid` of the
   * `#lentax-proposal-meta` element, `anyAttr` that of the first element
   * carrying the attribute (`None` when the element or the attribute is
   * missing). The first usable source wins, trimmed.
   */
  function ClientUID(metaAttr: Option<string>, anyAttr: Option<string>, lentax: Option<Lentax>): (r: string)
    ensures Usable(metaAttr) ==> r == Trim(metaAttr.value)
    ensures !Usable(metaAttr) && Usable(anyAttr) ==> r == Trim(anyAttr.value)
    ensures (!Usable(metaAttr) && !Usable(anyAttr) && WindowUidUsable(lentax))
              ==> r == Trim(ToJsString(lentax.value.clientUID))
    ensures r == "" <==> !Usable(metaAttr) && !Usable(anyAttr) && !WindowUidUsable(lentax)
    ensures IsTrimmed(r)
  {
    if Usable(metaAttr) then TrimSpec(metaAttr.value); Trim(metaAttr.value)
    else if Usable(anyAttr) then TrimSpec(anyAttr.value); Trim(anyAttr.value)
    else if WindowUidUsable(lentax) then
      TrimSpec(ToJsString(lentax.value.clientUID)); Trim(ToJsString(lentax.value.clientUID))
    else ""
  }

  // ---------------------------------------------------------------------------
  // buildBase, normalizePath
  // ---------------------------------------------------------------------------

  /**
   * `buildBase(origin, clientUID)`: the client's page under the origin. The
   * encoded identifier holds no `/`, so it stays one path segment.
   */
  function BuildBase(origin: string, clientUID: string): (r: string)
    ensures origin + PagePrefix <= r
    ensures r[|origin| + |PagePrefix|..] == EncodeURIComponent(clientUID)
    ensures '/' !in r[|origin| + |PagePrefix|..]
  {
    var enc := EncodeURIComponent(clientUID);
    EncodedHasNoDelimiters(clientUID);
    var r := origin + PagePrefix + enc;
    assert r[|origin| + |PagePrefix|..] == enc;
    r
  }

  /** An identifier of unreserved characters appears in the URL as it is. */
  lemma BuildBasePlain(origin: string, clientUID: string)
    requires forall i :: 0 <= i < |clientUID| ==> Unreserved(clientUID[i])
    ensures BuildBase(origin, clientUID) == origin + PagePrefix + clientUID
  {
    EncodeUnreservedIdentity(clientUID);
  }

  /**
   * `normalizePath(path)`: empty for a missing or blank attribute, otherwise
   * the trimmed value with a leading `/` added when it has none.
   */
  function NormalizePath(path: Option<string>): (r: string)
    ensures r == "" <==> path.None? || Trim(path.value) == ""
    ensures r != "" ==> r[0] == '/' && IsTrimmed(r)
    ensures r != "" && Trim(path.value)[0] == '/' ==> r == Trim(path.value)
    ensures r != "" && Trim(path.value)[0] != '/' ==> r == "/" + Trim(path.value)
  {
    if path.None? || path.value == "" then ""
    else
      var p := Trim(path.value);
      TrimSpec(path.value);
      if p == "" then ""
      else if p[0] != '/' then "/" + p
      else p
  }

  /** Normalising a normalised path changes nothing. */
  lemma NormalizePathIdempotent(path: Option<string>)
    ensures NormalizePath(Some(NormalizePath(path))) == NormalizePath(path)
  {
    var r := NormalizePath(path);
    if r != "" {
      TrimOfTrimmed(r);
    }
  }

  /** The part of `s` before its first `/`. */
  function UpToSlash(s: string): (r: string)
    ensures r <= s
    ensures '/' !in r
  {
    if s == [] || s[0] == '/' then [] else [s[0]] + UpToSlash(s[1..])
  }

  lemma {:induction false} UpToSlashOfSegment(seg: string, rest: string)
    requires '/' !in seg
    requires rest == [] || rest[0] == '/'
    ensures UpToSlash(seg + rest) == seg
  {
    if seg == [] {
      assert seg + rest == rest;
    } else {
      assert (seg + rest)[1..] == seg[1..] + rest;
      assert '/' !in seg[1..] by { assert seg == [seg[0]] + seg[1..]; }
      UpToSlashOfSegment(seg[1..], rest);
    }
  }

  /**
   * Whatever `data-path` says, the URL string assigned to `location.href`
   * starts with the client's page prefix and its segment after that prefix
   * is the encoded identifier. This is a fact about the string; how the
   * browser later resolves `.` and `..` segments in it is not modelled.
   */
  lemma PathStaysUnderClient(origin: string, clientUID: string, path: Option<string>)
    ensures var href := BuildBase(origin, clientUID) + NormalizePath(path);
      && origin + PagePrefix <= href
      && UpToSlash(href[|origin| + |PagePrefix|..]) == EncodeURIComponent(clientUID)
  {
    var base := BuildBase(origin, clientUID);
    var p := NormalizePath(path);
    var n := |origin| + |PagePrefix|;
    DropFromConcat(base, p, n);
    UpToSlashOfSegment(base[n..], p);
  }

  lemma DropFromConcat(a: string, b: string, n: nat)
    requires n <= |a|
    ensures (a + b)[n..] == a[n..] + b
  {
  }

  // ---------------------------------------------------------------------------
  // onNavClick
  // ---------------------------------------------------------------------------

  /**
   * The element `closest("[data-path],[data-url]")` found: its `data-url`,
   * `data-path` and `data-label` attributes (`None` when absent) and its
   * text content.
   */
  datatype NavTarget = NavTarget(dataUrl: Option<string>, dataPath: Option<string>, dataLabel: Option<string>, textContent: string)

  /** Where a click goes: an absolute URL or a path under the client's page. */
  datatype Destination = ToUrl(url: string) | ToPath(path: string)

  /** The body of the `click` event: `{clientUID, label, url}` or `{clientUID, label, path}`. */
  datatype ClickPayload = ClickPayload(clientUID: string, labelText: string, dest: Destination)

  /** What the click handler does: nothing, or post the event and navigate to `href`. */
  datatype ClickDecision = Ignore | Follow(payload: ClickPayload, href: string)

  /**
   * `target.getAttribute("data-label") || target.textContent || ""`: a
   * non-empty label wins, then non-empty text, then nothing.
   */
  function LabelSource(t: NavTarget): (r: string)
    ensures t.dataLabel.Some? && t.dataLabel.value != "" ==> r == t.dataLabel.value
    ensures (t.dataLabel.None? || t.dataLabel.value == "") ==> r == t.textContent
    ensures r == "" <==> (t.dataLabel.None? || t.dataLabel.value == "") && t.textContent == ""
  {
    if t.dataLabel.Some? && t.dataLabel.value != "" then t.dataLabel.value
    else if t.textContent != "" then t.textContent
    else ""
  }

  /** The label sent with a click: the trimmed source, cut to 120 characters. */
  function ClickLabel(t: NavTarget): (r: string)
    ensures |r| <= LabelLimit
    ensures r <= Trim(LabelSource(t))
    ensures |r| == if |Trim(LabelSource(t))| <= LabelLimit then |Trim(LabelSource(t))| else LabelLimit
    ensures |Trim(LabelSource(t))| <= LabelLimit ==> r == Trim(LabelSource(t))
  {
    SliceTo(Trim(LabelSource(t)), LabelLimit)
  }

  /**
   * `onNavClick(e, origin, clientUID)`. A usable `data-url` wins and is
   * followed as it is (trimmed); otherwise a non-empty normalised
   * `data-path` is followed under the client's page; otherwise the click is
   * left to the browser and no event is posted.
   */
  function DecideClick(origin: string, clientUID: string, target: Option<NavTarget>): (d: ClickDecision)
    ensures target.None? ==> d == Ignore
    ensures target.Some? ==>
      (d.Follow? <==> Usable(target.value.dataUrl) || NormalizePath(target.value.dataPath) != "")
    ensures d.Follow? ==> d.payload.clientUID == clientUID && d.payload.labelText == ClickLabel(target.value)
    ensures target.Some? && Usable(target.value.dataUrl) ==>
      d.Follow? && d.payload.dest == ToUrl(Trim(target.value.dataUrl.value)) && d.href == Trim(target.value.dataUrl.value)
    ensures (target.Some? && !Usable(target.value.dataUrl) && NormalizePath(target.value.dataPath) != "") ==>
      var p := NormalizePath(target.value.dataPath);
      d.Follow? && d.payload.dest == ToPath(p) && d.href == BuildBase(origin, clientUID) + p
  {
    if target.None? then Ignore
    else
      var t := target.value;
      var text := ClickLabel(t);
      if Usable(t.dataUrl) then
        var url := Trim(t.dataUrl.value);
        Follow(ClickPayload(clientUID, text, ToUrl(url)), url)
      else
        var p := NormalizePath(t.dataPath);
        if p == "" then Ignore
        else Follow(ClickPayload(clientUID, text, ToPath(p)), BuildBase(origin, clientUID) + p)
  }

  // ---------------------------------------------------------------------------
  // postEvent and init: recorded effects
  // ---------------------------------------------------------------------------

  /** The body of a posted event. */
  datatype EventBody = ViewBody(clientUID: string, page: string) | ClickBody(click: ClickPayload)

  /** One `postEvent` call: the URL it posts to and the body it sends. */
  datatype Event = Event(url: string, body: EventBody)

  /**
   * `origin + "/va-starter-track/e/" + encodeURIComponent(eventName)`: the
   * event name is one path segment after the event prefix, with no `/`, `?`
   * or `#` of its own.
   */
  function EventUrl(origin: string, eventName: string): (r: string)
    ensures origin + EventPrefix <= r
    ensures r[|origin| + |EventPrefix|..] == EncodeURIComponent(eventName)
    ensures var name := r[|origin| + |EventPrefix|..]; '/' !in name && '?' !in name && '#' !in name
  {
    var enc := EncodeURIComponent(eventName);
    EncodedHasNoDelimiters(eventName);
    var r := origin + EventPrefix + enc;
    assert r[|origin| + |EventPrefix|..] == enc;
    r
  }

  /** The two event names need no escaping, so the event URLs are written out plainly. */
  lemma EventUrls(origin: string)
    ensures EventUrl(origin, "view") == origin + "/va-starter-track/e/view"
    ensures EventUrl(origin, "click") == origin + "/va-starter-track/e/click"
  {
    EncodeUnreservedIdentity("view");
    EncodeUnreservedIdentity("click");
  }

  /** The click listener `init` binds, with the origin and identifier it closed over. */
  datatype Listener = Listener(origin: string, clientUID: string)

  /** The browser state the script touches. */
  class Page {
    var lentax: Option<Lentax>
    var href: string
    var posted: seq<Event>
    var listener: Option<Listener>

    constructor(lentax: Option<Lentax>, href: string)
      ensures this.lentax == lentax && this.href == href
      ensures posted == [] && listener == None
    {
      this.lentax := lentax;
      this.href := href;
      posted := [];
      listener := None;
    }

    /**
     * `init()`, run once per page load. Without a client identifier nothing
     * happens at all; otherwise `window.Lentax` records the identifier and
     * the origin, one `view` event is posted and the click listener is bound.
     */
    method Init(metaAttr: Option<string>, anyAttr: Option<string>)
      requires listener.None?
      modifies this
      ensures href == old(href)
      ensures var origin := RailwayOrigin(old(lentax));
        var uid := ClientUID(metaAttr, anyAttr, old(lentax));
        && (uid == "" ==> lentax == old(lentax) && posted == old(posted) && listener == None)
        && (uid != "" ==>
              && lentax == Some(Lentax(Str(origin), Str(uid)))
              && posted == old(posted) + [Event(EventUrl(origin, "view"), ViewBody(uid, "proposal"))]
              && listener == Some(Listener(origin, uid)))
    {
      var origin := RailwayOrigin(lentax);
      var uid := ClientUID(metaAttr, anyAttr, lentax);
      if uid == "" {
        return;
      }
      lentax := Some(Lentax(Str(origin), Str(uid)));
      posted := posted + [Event(EventUrl(origin, "view"), ViewBody(uid, "proposal"))];
      listener := Some(Listener(origin, uid));
    }

    /**
     * A click anywhere in the document; `target` is the nearest element with
     * `data-path` or `data-url`, if any. Returns whether the default action
     * was prevented.
     */
    method Click(target: Option<NavTarget>) returns (prevented: bool)
      modifies this
      ensures lentax == old(lentax) && listener == old(listener)
      ensures listener.None? ==> !prevented && posted == old(posted) && href == old(href)
      ensures listener.Some? ==>
        var d := DecideClick(listener.value.origin, listener.value.clientUID, target);
        && prevented == d.Follow?
        && (d.Ignore? ==> posted == old(posted) && href == old(href))
        && (d.Follow? ==>
              && posted == old(posted) + [Event(EventUrl(listener.value.origin, "click"), ClickBody(d.payload))]
              && href == d.href)
    {
      prevented := false;
      if listener.None? {
        return;
      }
      var l := listener.value;
      var d := DecideClick(l.origin, l.clientUID, target);
      if d.Follow? {
        prevented := true;
        posted := posted + [Event(EventUrl(l.origin, "click"), ClickBody(d.payload))];
        href := d.href;
      }
    }
  }

  /**
   * A page without any usable client identifier (no usable attribute, no
   * usable `window.Lentax.clientUID`): after `init`, a click on a
   * link-like element posts nothing and does not navigate.
   */
  method NoUidNoRouting(metaAttr: Option<string>, anyAttr: Option<string>, lentax: Option<Lentax>,
                        href: string, target: Option<NavTarget>)
    returns (events: seq<Event>, location: string, prevented: bool)
    requires !Usable(metaAttr) && !Usable(anyAttr) && !WindowUidUsable(lentax)
    ensures events == [] && location == href && !prevented
  {
    var page := new Page(lentax, href);
    page.Init(metaAttr, anyAttr);
    prevented := page.Click(target);
    events, location := page.posted, page.href;
  }
}
