/**
 * The transmission payload, first as typed records and then rendered as the
 * nested array the builder returns. Rendering fixes the key names and their
 * order and leaves out every key whose section is absent or empty.
 */
module Payload {
  import opened Wrappers
  import opened Json
  import opened Addresses
  import opened Message

  datatype RecipientAddress = RecipientAddress(email: string, name: Option<string>, headerTo: Option<string>)

  datatype Recipient = Recipient(
    address: RecipientAddress,
    tags: Option<seq<string>>,
    metadata: Option<Fields>,
    substitutionData: Option<Fields>)

  datatype EncodedAttachment = EncodedAttachment(contentType: string, filename: string, data: string)

  datatype Content = Content(
    subject: string,
    from: Option<Address>,
    replyTo: Option<string>,
    html: Option<string>,
    text: string,
    headers: seq<string>,
    attachments: seq<EncodedAttachment>)

  datatype Payload = Payload(
    recipients: seq<Recipient>,
    content: Content,
    campaignId: string,
    metadata: Fields,
    substitutionData: Fields,
    options: seq<SendOption>)

  /** The pair `key => v` when the value is present, nothing otherwise. */
  function Optional(key: string, v: Option<Value>): (r: Fields)
    ensures Keys(r) == if v.Some? then [key] else []
    ensures Get(r, key) == v
  {
    match v
    case Some(x) => [(key, x)]
    case None => []
  }

  function OptionalStr(key: string, v: Option<string>): (r: Fields)
    ensures Keys(r) == if v.Some? then [key] else []
    ensures Get(r, key).Some? <==> v.Some?
    ensures v.Some? ==> Get(r, key) == Some(Str(v.value))
  {
    Optional(key, if v.Some? then Some(Str(v.value)) else None)
  }

  function RenderAddress(a: RecipientAddress): (r: Value)
  {
    Obj([("email", Str(a.email))] + OptionalStr("name", a.name) + OptionalStr("header_to", a.headerTo))
  }

  function RenderRecipient(rc: Recipient): (r: Value)
  {
    Obj([("address", RenderAddress(rc.address))]
        + Optional("tags", if rc.tags.Some? then Some(Strings(rc.tags.value)) else None)
        + Optional("metadata", if rc.metadata.Some? then Some(Obj(rc.metadata.value)) else None)
        + Optional("substitution_data", if rc.substitutionData.Some? then Some(Obj(rc.substitutionData.value)) else None))
  }

  /** The sender: the bare email when it has no name, `{email, name}` when it has one. */
  function RenderSender(a: Address): (r: Value)
    ensures a.name.None? ==> r == Str(a.email)
    ensures a.name.Some? ==> r.Obj? && Keys(r.fields) == ["email", "name"]
    ensures a.name.Some? ==> Get(r.fields, "email") == Some(Str(a.email)) && Get(r.fields, "name") == Some(Str(a.name.value))
  {
    match a.name
    case None => Str(a.email)
    case Some(n) => Obj([("email", Str(a.email)), ("name", Str(n))])
  }

  function RenderAttachment(at: EncodedAttachment): Value
  {
    Obj([("type", Str(at.contentType)), ("name", Str(at.filename)), ("data", Str(at.data))])
  }

  function RenderContent(c: Content): (r: Fields)
  {
    [("subject", Str(c.subject))]
    + Optional("from", if c.from.Some? then Some(RenderSender(c.from.value)) else None)
    + OptionalStr("reply_to", c.replyTo)
    + OptionalStr("html", c.html)
    + [("text", Str(c.text))]
    + Optional("headers", if c.headers != [] then Some(Strings(c.headers)) else None)
    + Optional("attachments", if c.attachments != [] then Some(RenderAttachments(c.attachments)) else None)
  }

  function RenderAttachments(ats: seq<EncodedAttachment>): (r: Value)
    ensures r.List? && |r.items| == |ats|
    ensures forall i :: 0 <= i < |ats| ==> r.items[i] == RenderAttachment(ats[i])
  {
    List(seq(|ats|, i requires 0 <= i < |ats| => RenderAttachment(ats[i])))
  }

  function OptionName(o: SendOption): string
  {
    match o
    case OpenTracking(_) => "open_tracking"
    case ClickTracking(_) => "click_tracking"
    case Transactional(_) => "transactional"
    case Sandbox(_) => "sandbox"
    case SkipSuppression(_) => "skip_suppression"
    case InlineCss(_) => "inline_css"
    case IpPool(_) => "ip_pool"
  }

  function OptionValue(o: SendOption): Value
  {
    match o
    case IpPool(pool) => Str(pool)
    case OpenTracking(on) => Bool(on)
    case ClickTracking(on) => Bool(on)
    case Transactional(on) => Bool(on)
    case Sandbox(on) => Bool(on)
    case SkipSuppression(on) => Bool(on)
    case InlineCss(on) => Bool(on)
  }

  function RenderOptions(os: seq<SendOption>): (r: Fields)
    ensures |r| == |os|
    ensures forall i :: 0 <= i < |os| ==> r[i] == (OptionName(os[i]), OptionValue(os[i]))
  {
    seq(|os|, i requires 0 <= i < |os| => (OptionName(os[i]), OptionValue(os[i])))
  }

  /** The recipient list: one rendered entry per recipient, in order. */
  function RenderRecipients(rs: seq<Recipient>): (r: Value)
    ensures r.List? && |r.items| == |rs|
    ensures forall i :: 0 <= i < |rs| ==> r.items[i] == RenderRecipient(rs[i])
  {
    List(seq(|rs|, i requires 0 <= i < |rs| => RenderRecipient(rs[i])))
  }

  /** The whole payload, keys in the order recipients, content, campaign_id, metadata, substitution_data, options. */
  function Render(p: Payload): (r: Value)
  {
    Obj([("recipients", RenderRecipients(p.recipients)),
         ("content", Obj(RenderContent(p.content)))]
        + Optional("campaign_id", if p.campaignId != "" then Some(Str(p.campaignId)) else None)
        + Optional("metadata", if p.metadata != [] then Some(Obj(p.metadata)) else None)
        + Optional("substitution_data", if p.substitutionData != [] then Some(Obj(p.substitutionData)) else None)
        + Optional("options", if p.options != [] then Some(Obj(RenderOptions(p.options))) else None))
  }

  /** The keys of the rendered content, in order: the optional ones appear only when set. */
  lemma ContentKeys(c: Content)
    ensures Keys(RenderContent(c)) ==
      ["subject"] + (if c.from.Some? then ["from"] else []) + (if c.replyTo.Some? then ["reply_to"] else [])
      + (if c.html.Some? then ["html"] else []) + ["text"] + (if c.headers != [] then ["headers"] else [])
      + (if c.attachments != [] then ["attachments"] else [])
  {
    var s0 := [("subject", Str(c.subject))];
    var s1 := Optional("from", if c.from.Some? then Some(RenderSender(c.from.value)) else None);
    var s2 := OptionalStr("reply_to", c.replyTo);
    var s3 := OptionalStr("html", c.html);
    var s4 := [("text", Str(c.text))];
    var s5 := Optional("headers", if c.headers != [] then Some(Strings(c.headers)) else None);
    var s6 := Optional("attachments", if c.attachments != [] then Some(RenderAttachments(c.attachments)) else None);
    assert RenderContent(c) == s0 + s1 + s2 + s3 + s4 + s5 + s6;
    KeysAppend(s0, s1);
    KeysAppend(s0 + s1, s2);
    KeysAppend(s0 + s1 + s2, s3);
    KeysAppend(s0 + s1 + s2 + s3, s4);
    KeysAppend(s0 + s1 + s2 + s3 + s4, s5);
    KeysAppend(s0 + s1 + s2 + s3 + s4 + s5, s6);
    assert Keys(s0) == ["subject"] && Keys(s4) == ["text"];
  }

  /** Which of the content keys are present, given which optional sections are set. */
  lemma ContentKeyPresence(from: bool, replyTo: bool, html: bool, headers: bool, attachments: bool)
    ensures var keys := ["subject"] + (if from then ["from"] else []) + (if replyTo then ["reply_to"] else [])
      + (if html then ["html"] else []) + ["text"] + (if headers then ["headers"] else [])
      + (if attachments then ["attachments"] else []);
      && "subject" in keys && "text" in keys
      && ("from" in keys <==> from) && ("reply_to" in keys <==> replyTo) && ("html" in keys <==> html)
      && ("headers" in keys <==> headers) && ("attachments" in keys <==> attachments)
  {
    assert "from"[0] != "html"[0] && "from"[0] != "text"[0] && "html"[0] != "text"[0];
    assert "subject"[0] != "headers"[0];
  }

  /** What the rendered content carries under each key. */
  lemma ContentValues(c: Content)
    ensures ("subject", Str(c.subject)) in RenderContent(c)
    ensures ("text", Str(c.text)) in RenderContent(c)
    ensures c.from.Some? ==> ("from", RenderSender(c.from.value)) in RenderContent(c)
    ensures c.replyTo.Some? ==> ("reply_to", Str(c.replyTo.value)) in RenderContent(c)
    ensures c.html.Some? ==> ("html", Str(c.html.value)) in RenderContent(c)
    ensures c.headers != [] ==> ("headers", Strings(c.headers)) in RenderContent(c)
    ensures c.attachments != [] ==> ("attachments", RenderAttachments(c.attachments)) in RenderContent(c)
  {
  }

  /** The keys of a rendered recipient address: email, then name and header_to when set. */
  lemma AddressKeys(a: RecipientAddress)
    ensures RenderAddress(a).Obj?
    ensures Keys(RenderAddress(a).fields) ==
      ["email"] + (if a.name.Some? then ["name"] else []) + (if a.headerTo.Some? then ["header_to"] else [])
  {
    var s0 := [("email", Str(a.email))];
    var s1 := OptionalStr("name", a.name);
    var s2 := OptionalStr("header_to", a.headerTo);
    KeysAppend(s0, s1);
    KeysAppend(s0 + s1, s2);
    assert Keys(s0) == ["email"];
  }

  /** The keys of a rendered recipient: address, then tags, metadata and substitution_data when set. */
  lemma RecipientKeys(rc: Recipient)
    ensures RenderRecipient(rc).Obj?
    ensures Keys(RenderRecipient(rc).fields) ==
      ["address"] + (if rc.tags.Some? then ["tags"] else []) + (if rc.metadata.Some? then ["metadata"] else [])
      + (if rc.substitutionData.Some? then ["substitution_data"] else [])
  {
    var s0 := [("address", RenderAddress(rc.address))];
    var s1 := Optional("tags", if rc.tags.Some? then Some(Strings(rc.tags.value)) else None);
    var s2 := Optional("metadata", if rc.metadata.Some? then Some(Obj(rc.metadata.value)) else None);
    var s3 := Optional("substitution_data", if rc.substitutionData.Some? then Some(Obj(rc.substitutionData.value)) else None);
    KeysAppend(s0, s1);
    KeysAppend(s0 + s1, s2);
    KeysAppend(s0 + s1 + s2, s3);
    assert Keys(s0) == ["address"];
  }

  /** The top-level keys: recipients and content always, the others only when non-empty. */
  lemma PayloadKeys(p: Payload)
    ensures Render(p).Obj?
    ensures Keys(Render(p).fields) ==
      ["recipients", "content"] + (if p.campaignId != "" then ["campaign_id"] else [])
      + (if p.metadata != [] then ["metadata"] else []) + (if p.substitutionData != [] then ["substitution_data"] else [])
      + (if p.options != [] then ["options"] else [])
  {
    var s0 := [("recipients", RenderRecipients(p.recipients)),
               ("content", Obj(RenderContent(p.content)))];
    var s1 := Optional("campaign_id", if p.campaignId != "" then Some(Str(p.campaignId)) else None);
    var s2 := Optional("metadata", if p.metadata != [] then Some(Obj(p.metadata)) else None);
    var s3 := Optional("substitution_data", if p.substitutionData != [] then Some(Obj(p.substitutionData)) else None);
    var s4 := Optional("options", if p.options != [] then Some(Obj(RenderOptions(p.options))) else None);
    KeysAppend(s0, s1);
    KeysAppend(s0 + s1, s2);
    KeysAppend(s0 + s1 + s2, s3);
    KeysAppend(s0 + s1 + s2 + s3, s4);
    assert Keys(s0) == ["recipients", "content"];
  }

  /** A payload with no campaign, no shared data and no options has only recipients and content. */
  lemma BareKeys(p: Payload)
    requires p.campaignId == "" && p.metadata == [] && p.substitutionData == [] && p.options == []
    ensures Render(p).Obj? && Keys(Render(p).fields) == ["recipients", "content"]
  {
    PayloadKeys(p);
    assert ["recipients", "content"] + [] + [] + [] + [] == ["recipients", "content"];
  }

  /** What the rendered payload carries under each top-level key. */
  lemma PayloadValues(p: Payload)
    ensures Render(p).Obj?
    ensures Get(Render(p).fields, "recipients") == Some(RenderRecipients(p.recipients))
    ensures ("content", Obj(RenderContent(p.content))) in Render(p).fields
    ensures p.campaignId != "" ==> ("campaign_id", Str(p.campaignId)) in Render(p).fields
    ensures p.metadata != [] ==> ("metadata", Obj(p.metadata)) in Render(p).fields
    ensures p.substitutionData != [] ==> ("substitution_data", Obj(p.substitutionData)) in Render(p).fields
    ensures p.options != [] ==> ("options", Obj(RenderOptions(p.options))) in Render(p).fields
  {
  }
}
