/**
 * The payload builder: a message in, the transmission payload out, or the
 * exception raised for a message that has no recipient to show.
 */
module PayloadBuilder {
  import opened Wrappers
  import opened Json
  import opened Addresses
  import opened Message
  import opened Payload
  import Placeholder
  import Base64

  const NoRecipientError := "Cannot send message without a recipient address"

  /** The options an extended message sends when its options were never set. */
  const DefaultOptions := [Transactional(true), InlineCss(true)]

  /** The data stored for `email` under an exact key match, if any. */
  function Lookup<V>(m: map<string, V>, email: string): (r: Option<V>)
    ensures r.Some? <==> email in m
    ensures r.Some? ==> r.value == m[email]
  {
    if email in m then Some(m[email]) else None
  }

  /** One recipient entry: its address and the per-recipient data kept for its email. */
  function MakeRecipient(a: Address, headerTo: Option<string>, ext: Option<Extension>): (r: Recipient)
    ensures r.address == RecipientAddress(a.email, a.name, headerTo)
  {
    match ext
    case None => Recipient(RecipientAddress(a.email, a.name, headerTo), None, None, None)
    case Some(x) =>
      Recipient(RecipientAddress(a.email, a.name, headerTo),
                Lookup(x.tags, a.email), Lookup(x.recipientMetadata, a.email), Lookup(x.recipientSubstitutionData, a.email))
  }

  function Group(addresses: seq<Address>, headerTo: Option<string>, ext: Option<Extension>): (r: seq<Recipient>)
    ensures |r| == |addresses|
    ensures forall i :: 0 <= i < |r| ==> r[i] == MakeRecipient(addresses[i], headerTo, ext)
  {
    seq(|addresses|, i requires 0 <= i < |addresses| => MakeRecipient(addresses[i], headerTo, ext))
  }

  /** The address a blind copy shows as its "To": the first to address, if there is one. */
  function HeaderTo(to: seq<Address>): Option<string>
  {
    if to == [] then None else Some(to[0].email)
  }

  /** Every to address, then every cc address, then every bcc address. */
  function AllAddresses(m: Message): seq<Address>
  {
    Normalize(m.to) + Normalize(m.cc) + Normalize(m.bcc)
  }

  function Recipients(m: Message): seq<Recipient>
  {
    var to := Normalize(m.to);
    Group(to, None, m.extension) + Group(Normalize(m.cc), None, m.extension)
      + Group(Normalize(m.bcc), HeaderTo(to), m.extension)
  }

  /** A custom header as one header field line, `Name: Value`. */
  function FormatHeader(h: Header): (r: string)
    ensures |r| == |h.name| + 2 + |h.value|
    ensures r[..|h.name|] == h.name && r[|h.name|..|h.name| + 2] == ": " && r[|h.name| + 2..] == h.value
  {
    h.name + ": " + h.value
  }

  function EncodeAttachment(at: Attachment): EncodedAttachment
  {
    EncodedAttachment(at.contentType, at.filename, Base64.Encode(at.body))
  }

  /** The first mailbox of a single-address field. */
  function FirstAddress(input: Option<AddressInput>): Option<Address>
  {
    match input
    case None => None
    case Some(i) => var xs := Normalize(i); if xs == [] then None else Some(xs[0])
  }

  function BuildContent(m: Message): Content
  {
    var replyTo := FirstAddress(m.replyTo);
    Content(
      Placeholder.Convert(m.subject),
      FirstAddress(m.from),
      if replyTo.Some? then Some(replyTo.value.email) else None,
      if m.html.Some? then Some(Placeholder.Convert(m.html.value)) else None,
      Placeholder.Convert(m.text.GetOr("")),
      seq(|m.headers|, i requires 0 <= i < |m.headers| => FormatHeader(m.headers[i])),
      seq(|m.attachments|, i requires 0 <= i < |m.attachments| => EncodeAttachment(m.attachments[i])))
  }

  /** The options sent: none for a plain message, the defaults unless the extended message set its own. */
  function SendOptions(m: Message): seq<SendOption>
  {
    match m.extension
    case None => []
    case Some(x) => x.options.GetOr(DefaultOptions)
  }

  /** The typed payload of a message, whether or not it may be sent. */
  function PayloadOf(m: Message): Payload
  {
    var ext := m.extension.GetOr(NoExtension);
    Payload(Recipients(m), BuildContent(m), ext.campaignId, ext.metadata, ext.substitutionData, SendOptions(m))
  }

  /** A message may be sent when it has a to or a cc address. */
  predicate HasVisibleRecipient(m: Message)
  {
    Normalize(m.to) != [] || Normalize(m.cc) != []
  }

  /** The builder: the rendered payload, or the no-recipient exception. */
  function BuildPayload(m: Message): (r: Result<Value, string>)
    ensures r.Failure? <==> !HasVisibleRecipient(m)
    ensures r.Failure? ==> r.error == NoRecipientError
  {
    if !HasVisibleRecipient(m) then Failure(NoRecipientError) else Success(Render(PayloadOf(m)))
  }

  /** The three groups, concatenated, have one entry per address, in order, with that address's email and name. */
  lemma GroupsInOrder(xs: seq<Address>, ys: seq<Address>, zs: seq<Address>, headerTo: Option<string>, ext: Option<Extension>)
    ensures var r := Group(xs, None, ext) + Group(ys, None, ext) + Group(zs, headerTo, ext);
      && |r| == |xs + ys + zs|
      && forall i :: 0 <= i < |r| ==> r[i].address.email == (xs + ys + zs)[i].email && r[i].address.name == (xs + ys + zs)[i].name
  {
    var r := Group(xs, None, ext) + Group(ys, None, ext) + Group(zs, headerTo, ext);
    var all := xs + ys + zs;
    forall i | 0 <= i < |r|
      ensures r[i].address.email == all[i].email && r[i].address.name == all[i].name
    {
      if i < |xs| {
        assert r[i] == Group(xs, None, ext)[i] && all[i] == xs[i];
      } else if i < |xs| + |ys| {
        assert r[i] == Group(ys, None, ext)[i - |xs|] && all[i] == ys[i - |xs|];
      } else {
        assert r[i] == Group(zs, headerTo, ext)[i - |xs| - |ys|] && all[i] == zs[i - |xs| - |ys|];
      }
    }
  }

  /** One entry per address, in the order all to, then all cc, then all bcc, each with its own email and name. */
  lemma RecipientsInOrder(m: Message)
    ensures |Recipients(m)| == |AllAddresses(m)|
    ensures forall i :: 0 <= i < |Recipients(m)| ==>
      Recipients(m)[i].address.email == AllAddresses(m)[i].email && Recipients(m)[i].address.name == AllAddresses(m)[i].name
  {
    var to := Normalize(m.to);
    GroupsInOrder(to, Normalize(m.cc), Normalize(m.bcc), HeaderTo(to), m.extension);
  }

  /** Exactly the bcc entries carry header_to, and only when there is a to address; it is the first to email. */
  lemma HeaderToOnlyOnBcc(m: Message)
    ensures forall i :: 0 <= i < |Recipients(m)| ==>
      (Recipients(m)[i].address.headerTo.Some? <==>
         Normalize(m.to) != [] && i >= |Normalize(m.to)| + |Normalize(m.cc)|)
    ensures forall i :: 0 <= i < |Recipients(m)| && Recipients(m)[i].address.headerTo.Some? ==>
      Recipients(m)[i].address.headerTo.value == Normalize(m.to)[0].email
  {
  }

  /**
   * The entry carries tags, metadata and substitution data exactly when the
   * message is extended and has data under `email`, and then that data.
   */
  predicate CarriesDataOf(rc: Recipient, email: string, ext: Option<Extension>)
  {
    && (rc.tags.Some? <==> ext.Some? && email in ext.value.tags)
    && (rc.tags.Some? ==> rc.tags.value == ext.value.tags[email])
    && (rc.metadata.Some? <==> ext.Some? && email in ext.value.recipientMetadata)
    && (rc.metadata.Some? ==> rc.metadata.value == ext.value.recipientMetadata[email])
    && (rc.substitutionData.Some? <==> ext.Some? && email in ext.value.recipientSubstitutionData)
    && (rc.substitutionData.Some? ==> rc.substitutionData.value == ext.value.recipientSubstitutionData[email])
  }

  lemma GroupsCarryData(xs: seq<Address>, ys: seq<Address>, zs: seq<Address>, headerTo: Option<string>, ext: Option<Extension>)
    ensures var r := Group(xs, None, ext) + Group(ys, None, ext) + Group(zs, headerTo, ext);
      && |r| == |xs + ys + zs|
      && forall i :: 0 <= i < |r| ==> CarriesDataOf(r[i], (xs + ys + zs)[i].email, ext)
  {
    var r := Group(xs, None, ext) + Group(ys, None, ext) + Group(zs, headerTo, ext);
    var all := xs + ys + zs;
    forall i | 0 <= i < |r|
      ensures CarriesDataOf(r[i], all[i].email, ext)
    {
      if i < |xs| {
        assert r[i] == Group(xs, None, ext)[i] && all[i] == xs[i];
      } else if i < |xs| + |ys| {
        assert r[i] == Group(ys, None, ext)[i - |xs|] && all[i] == ys[i - |xs|];
      } else {
        assert r[i] == Group(zs, headerTo, ext)[i - |xs| - |ys|] && all[i] == zs[i - |xs| - |ys|];
      }
    }
  }

  /** Per-recipient tags, metadata and substitution data go only to the entry whose email is their key. */
  lemma PerRecipientData(m: Message)
    ensures |Recipients(m)| == |AllAddresses(m)|
    ensures forall i :: 0 <= i < |Recipients(m)| ==> CarriesDataOf(Recipients(m)[i], AllAddresses(m)[i].email, m.extension)
  {
    var to := Normalize(m.to);
    GroupsCarryData(to, Normalize(m.cc), Normalize(m.bcc), HeaderTo(to), m.extension);
  }

  /**
   * The built payload's recipient list is the rendering of Recipients(m),
   * entry by entry, so what RecipientsInOrder, HeaderToOnlyOnBcc and
   * PerRecipientData prove of Recipients(m) holds of the payload sent.
   */
  lemma RecipientsRendered(m: Message)
    requires HasVisibleRecipient(m)
    ensures BuildPayload(m).Success? && BuildPayload(m).value.Obj?
    ensures Get(BuildPayload(m).value.fields, "recipients") == Some(RenderRecipients(Recipients(m)))
    ensures |RenderRecipients(Recipients(m)).items| == |AllAddresses(m)|
    ensures forall i :: 0 <= i < |AllAddresses(m)| ==>
      RenderRecipients(Recipients(m)).items[i] == RenderRecipient(Recipients(m)[i])
  {
    PayloadValues(PayloadOf(m));
    RecipientsInOrder(m);
  }

  /** In the payload sent, an entry's address has a header_to key exactly when the entry is a blind copy and there is a to address. */
  lemma HeaderToRendered(m: Message, i: int)
    requires 0 <= i < |Recipients(m)|
    ensures var entry := RenderRecipient(Recipients(m)[i]);
      && entry.Obj? && entry.fields[0] == ("address", RenderAddress(Recipients(m)[i].address))
      && ("header_to" in Keys(RenderAddress(Recipients(m)[i].address).fields) <==>
            Normalize(m.to) != [] && i >= |Normalize(m.to)| + |Normalize(m.cc)|)
  {
    HeaderToOnlyOnBcc(m);
    AddressKeys(Recipients(m)[i].address);
  }

  /**
   * The sender is the bare email without a name and `{email, name}` with one;
   * reply_to is always the bare email, even when a name was given.
   */
  lemma SenderForms(m: Message, email: string, name: Option<string>)
    ensures m.from == Some(Single(email, name)) ==>
      ("from", if name.Some? then Obj([("email", Str(email)), ("name", Str(name.value))]) else Str(email))
        in RenderContent(BuildContent(m))
    ensures m.replyTo == Some(Single(email, name)) ==> ("reply_to", Str(email)) in RenderContent(BuildContent(m))
    ensures m.replyTo.None? ==> "reply_to" !in Keys(RenderContent(BuildContent(m)))
  {
    var c := BuildContent(m);
    ContentValues(c);
    if m.from == Some(Single(email, name)) {
      assert c.from == Some(Address(email, name));
    }
    if m.replyTo == Some(Single(email, name)) {
      assert c.replyTo == Some(email);
    }
    if m.replyTo.None? {
      ContentKeys(c);
      ContentKeyPresence(c.from.Some?, false, c.html.Some?, c.headers != [], c.attachments != []);
    }
  }

  /** Giving the addresses in another form that normalises the same way yields the same payload. */
  lemma AddressFormsAgree(m1: Message, m2: Message)
    requires m1.(from := m2.from, replyTo := m2.replyTo, to := m2.to, cc := m2.cc, bcc := m2.bcc) == m2
    requires FirstAddress(m1.from) == FirstAddress(m2.from) && FirstAddress(m1.replyTo) == FirstAddress(m2.replyTo)
    requires Normalize(m1.to) == Normalize(m2.to) && Normalize(m1.cc) == Normalize(m2.cc)
    requires Normalize(m1.bcc) == Normalize(m2.bcc)
    ensures BuildPayload(m1) == BuildPayload(m2)
  {
  }

  /**
   * Content: a missing text part becomes the empty string, html is there
   * only when the message has an html body, and the three texts have
   * their placeholders rewritten and nothing else changed.
   */
  lemma ContentText(m: Message)
    ensures var c := BuildContent(m);
      && (m.text.None? ==> c.text == "")
      && (c.html.Some? <==> m.html.Some?)
      && (Placeholder.NoPlaceholder(m.subject) ==> c.subject == m.subject)
      && (m.text.Some? && Placeholder.NoPlaceholder(m.text.value) ==> c.text == m.text.value)
      && (m.html.Some? && Placeholder.NoPlaceholder(m.html.value) ==> c.html.value == m.html.value)
  {
    Placeholder.ConvertUnchanged(m.subject);
    Placeholder.ConvertUnchanged(m.text.GetOr(""));
    if m.html.Some? {
      Placeholder.ConvertUnchanged(m.html.value);
    }
  }

  /**
   * The rendered content always has subject and text; html, headers and
   * attachments only when the message has an html body, custom headers or
   * attachments.
   */
  lemma ContentPresence(m: Message)
    ensures var keys := Keys(RenderContent(BuildContent(m)));
      && "subject" in keys && "text" in keys
      && ("html" in keys <==> m.html.Some?)
      && ("headers" in keys <==> m.headers != [])
      && ("attachments" in keys <==> m.attachments != [])
  {
    var c := BuildContent(m);
    ContentKeys(c);
    ContentKeyPresence(c.from.Some?, c.replyTo.Some?, c.html.Some?, c.headers != [], c.attachments != []);
    assert c.html.Some? <==> m.html.Some?;
    assert c.headers != [] <==> m.headers != [];
    assert c.attachments != [] <==> m.attachments != [];
  }

  /**
   * Custom headers become `Name: Value` lines in order; attachments keep their
   * type and name, in order, and their data decodes back to their bytes.
   */
  lemma HeadersAndAttachments(m: Message)
    ensures var c := BuildContent(m);
      && |c.headers| == |m.headers|
      && (forall i :: 0 <= i < |m.headers| ==> c.headers[i] == m.headers[i].name + ": " + m.headers[i].value)
      && |c.attachments| == |m.attachments|
      && (forall i :: 0 <= i < |m.attachments| ==>
            && c.attachments[i].contentType == m.attachments[i].contentType
            && c.attachments[i].filename == m.attachments[i].filename
            && Base64.Decode(c.attachments[i].data) == Some(m.attachments[i].body))
  {
    var c := BuildContent(m);
    forall i | 0 <= i < |m.attachments|
      ensures Base64.Decode(c.attachments[i].data) == Some(m.attachments[i].body)
    {
      Base64.DecodeEncode(m.attachments[i].body);
    }
  }

  /**
   * Options: a plain message sends none; an extended message sends
   * `{transactional: true, inline_css: true}` unless its options were set, in
   * which case exactly the options given are sent, in order. The campaign,
   * metadata and substitution data pass through unchanged.
   */
  lemma OptionsAndPassThrough(m: Message)
    requires HasVisibleRecipient(m)
    ensures BuildPayload(m).Success? && BuildPayload(m).value.Obj?
    ensures var fields := BuildPayload(m).value.fields;
      && (m.extension.None? ==> Keys(fields) == ["recipients", "content"])
      && (m.extension.Some? && m.extension.value.options.None? ==>
            ("options", Obj([("transactional", Bool(true)), ("inline_css", Bool(true))])) in fields)
      && (m.extension.Some? && m.extension.value.options.Some? && m.extension.value.options.value != [] ==>
            ("options", Obj(RenderOptions(m.extension.value.options.value))) in fields)
      && (m.extension.Some? && m.extension.value.campaignId != "" ==>
            ("campaign_id", Str(m.extension.value.campaignId)) in fields)
      && (m.extension.Some? && m.extension.value.metadata != [] ==>
            ("metadata", Obj(m.extension.value.metadata)) in fields)
      && (m.extension.Some? && m.extension.value.substitutionData != [] ==>
            ("substitution_data", Obj(m.extension.value.substitutionData)) in fields)
  {
    var p := PayloadOf(m);
    assert BuildPayload(m) == Success(Render(p));
    PayloadValues(p);
    match m.extension
    case None =>
      BareKeys(p);
    case Some(x) =>
      if x.options.None? {
        DefaultOptionsRendered();
      }
  }

  lemma DefaultOptionsRendered()
    ensures RenderOptions(DefaultOptions) == [("transactional", Bool(true)), ("inline_css", Bool(true))]
  {
  }

  /** A message with no address at all is refused with the no-recipient exception. */
  lemma NoRecipientRejected(m: Message)
    requires Normalize(m.to) == [] && Normalize(m.cc) == [] && Normalize(m.bcc) == []
    ensures BuildPayload(m) == Failure(NoRecipientError)
  {
  }

  /** Blind copies alone do not make a message sendable. */
  lemma BccOnlyRejected(m: Message)
    requires Normalize(m.to) == [] && Normalize(m.cc) == [] && Normalize(m.bcc) != []
    ensures BuildPayload(m) == Failure(NoRecipientError)
  {
  }
}
