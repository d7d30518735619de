/**
 * The builder's test cases as lemmas over arbitrary strings: a message of the
 * test's shape and the exact payload (or the exception) it produces.
 */
module Scenarios {
  import opened Wrappers
  import opened Json
  import opened Addresses
  import opened Message
  import opened Payload
  import opened PayloadBuilder
  import Placeholder

  const Me := "me@domain.com"
  const John := "john@doe.com"
  const Jane := "jane@doe.com"
  const Jake := "jake@doe.com"
  const NoReply := "noreply@domain.com"
  const Subject := "Hello there!"
  const Body := "This is a special message just for you."

  /** A bare array entry normalises to one mailbox without a name. */
  lemma OneBare(email: string)
    ensures Normalize(Listed([Bare(email)])) == [Address(email, None)]
  {
    SingleFormsAgree(email, None);
  }

  /**
   * A payload without campaign or shared data renders as its recipients, its
   * content and, when there are any, its options.
   */
  lemma RenderBare(p: Payload, recipients: seq<Value>)
    requires p.campaignId == "" && p.metadata == [] && p.substitutionData == []
    requires |recipients| == |p.recipients|
    requires forall i :: 0 <= i < |p.recipients| ==> RenderRecipient(p.recipients[i]) == recipients[i]
    ensures Render(p) == Obj([("recipients", List(recipients)), ("content", Obj(RenderContent(p.content)))]
      + (if p.options == [] then [] else [("options", Obj(RenderOptions(p.options)))]))
  {
    var rs := RenderRecipients(p.recipients).items;
    assert rs == recipients;
    var head := [("recipients", List(rs)), ("content", Obj(RenderContent(p.content)))];
    assert head + [] + [] + [] == head;
  }

  /** A payload with the default options and no campaign or shared data. */
  lemma RenderWithDefaults(p: Payload, recipients: seq<Value>, content: Fields)
    requires p.campaignId == "" && p.metadata == [] && p.substitutionData == [] && p.options == DefaultOptions
    requires |recipients| == |p.recipients|
    requires forall i :: 0 <= i < |p.recipients| ==> RenderRecipient(p.recipients[i]) == recipients[i]
    requires RenderContent(p.content) == content
    ensures Render(p) == Obj([("recipients", List(recipients)), ("content", Obj(content)),
                              ("options", Obj([("transactional", Bool(true)), ("inline_css", Bool(true))]))])
  {
    RenderBare(p, recipients);
    DefaultOptionsRendered();
    var head := [("recipients", List(recipients)), ("content", Obj(content))];
    assert head + [("options", Obj(RenderOptions(p.options)))] == [head[0], head[1], ("options", Obj(RenderOptions(p.options)))];
  }

  /** A recipient without per-recipient data renders as its address alone. */
  lemma AddressOnly(email: string, name: Option<string>, headerTo: Option<string>)
    ensures RenderRecipient(Recipient(RecipientAddress(email, name, headerTo), None, None, None))
         == Obj([("address", Obj([("email", Str(email))]
              + (if name.Some? then [("name", Str(name.value))] else [])
              + (if headerTo.Some? then [("header_to", Str(headerTo.value))] else [])))])
  {
    var head := [("address", RenderAddress(RecipientAddress(email, name, headerTo)))];
    assert head + [] + [] + [] == head;
  }

  /** Three recipients render, one by one, as three expected entries. */
  lemma ThreeRendered(rs: seq<Recipient>, entries: seq<Value>)
    requires |rs| == 3 && |entries| == 3
    requires RenderRecipient(rs[0]) == entries[0] && RenderRecipient(rs[1]) == entries[1]
    requires RenderRecipient(rs[2]) == entries[2]
    ensures forall i :: 0 <= i < |rs| ==> RenderRecipient(rs[i]) == entries[i]
  {
  }

  /** A message from `me` to `john` with a subject and a plain-text body. */
  function PlainMessage(me: string, john: string, subject: string, body: string, extended: bool): Message
  {
    Blank(extended).(from := Some(Single(me, None)), to := Listed([Bare(john)]), subject := subject, text := Some(body))
  }

  /** The rendered content of that message: subject, sender and text. */
  lemma PlainContent(me: string, john: string, subject: string, body: string, extended: bool)
    requires '*' !in subject && '*' !in body
    ensures RenderContent(BuildContent(PlainMessage(me, john, subject, body, extended)))
         == [("subject", Str(subject)), ("from", Str(me)), ("text", Str(body))]
  {
    Placeholder.ConvertWithoutAsterisk(subject);
    Placeholder.ConvertWithoutAsterisk(body);
  }

  /** A plain message to one address: one recipient, subject, sender, text, and no options. */
  lemma PlainSwiftMessage(me: string, john: string, subject: string, body: string)
    requires '*' !in subject && '*' !in body
    ensures BuildPayload(PlainMessage(me, john, subject, body, false)) == Success(Obj([
      ("recipients", List([Obj([("address", Obj([("email", Str(john))]))])])),
      ("content", Obj([("subject", Str(subject)), ("from", Str(me)), ("text", Str(body))]))]))
  {
    var m := PlainMessage(me, john, subject, body, false);
    OneBare(john);
    var p := PayloadOf(m);
    assert p.recipients == [Recipient(RecipientAddress(john, None, None), None, None, None)];
    PlainContent(me, john, subject, body, false);
    AddressOnly(john, None, None);
    assert [("email", Str(john))] + [] + [] == [("email", Str(john))];
    RenderBare(p, [Obj([("address", Obj([("email", Str(john))]))])]);
    assert [("recipients", List([Obj([("address", Obj([("email", Str(john))]))])])),
            ("content", Obj([("subject", Str(subject)), ("from", Str(me)), ("text", Str(body))]))] + []
        == [("recipients", List([Obj([("address", Obj([("email", Str(john))]))])])),
            ("content", Obj([("subject", Str(subject)), ("from", Str(me)), ("text", Str(body))]))];
  }

  /** The same message, extended: the same payload plus the default options. */
  lemma ExtendedMessageDefaults(me: string, john: string, subject: string, body: string)
    requires '*' !in subject && '*' !in body
    ensures BuildPayload(PlainMessage(me, john, subject, body, true)) == Success(Obj([
      ("recipients", List([Obj([("address", Obj([("email", Str(john))]))])])),
      ("content", Obj([("subject", Str(subject)), ("from", Str(me)), ("text", Str(body))])),
      ("options", Obj([("transactional", Bool(true)), ("inline_css", Bool(true))]))]))
  {
    var m := PlainMessage(me, john, subject, body, true);
    OneBare(john);
    var p := PayloadOf(m);
    assert p.recipients == [Recipient(RecipientAddress(john, None, None), None, None, None)];
    assert p.options == DefaultOptions;
    PlainContent(me, john, subject, body, true);
    AddressOnly(john, None, None);
    assert [("email", Str(john))] + [] + [] == [("email", Str(john))];
    RenderWithDefaults(p, [Obj([("address", Obj([("email", Str(john))]))])],
      [("subject", Str(subject)), ("from", Str(me)), ("text", Str(body))]);
  }

  /** An extended message with only its address fields set. */
  function AddressMessage(from: AddressInput, replyTo: AddressInput, to: AddressInput, cc: AddressInput, bcc: AddressInput): Message
  {
    Blank(true).(from := Some(from), replyTo := Some(replyTo), to := to, cc := cc, bcc := bcc)
  }

  /** The expected JSON of a recipient without per-recipient data. */
  function RecipientJson(email: string, name: Option<string>, headerTo: Option<string>): Value
  {
    Obj([("address", Obj([("email", Str(email))]
      + (if name.Some? then [("name", Str(name.value))] else [])
      + (if headerTo.Some? then [("header_to", Str(headerTo.value))] else [])))])
  }

  /** The expected JSON of a sender: the bare email, or email and name. */
  function SenderJson(email: string, name: Option<string>): Value
  {
    if name.Some? then Obj([("email", Str(email)), ("name", Str(name.value))]) else Str(email)
  }

  /** The content of a message with no subject, no body and no extras, but a sender and a reply-to address. */
  lemma AddressOnlyContent(me: string, meName: Option<string>, noreply: string)
    ensures RenderContent(Content("", Some(Address(me, meName)), Some(noreply), None, "", [], []))
         == [("subject", Str("")), ("from", SenderJson(me, meName)), ("reply_to", Str(noreply)), ("text", Str(""))]
  {
    var items := [("subject", Str("")), ("from", SenderJson(me, meName)), ("reply_to", Str(noreply)), ("text", Str(""))];
    assert [items[0]] + [items[1]] + [items[2]] + [] + [items[3]] + [] + [] == items;
  }

  /**
   * Addresses given as strings, each with or without a name: to, cc and bcc
   * in that order, header_to on the bcc entry, the sender with its name when
   * it has one, reply_to as the bare email, empty subject and text, and the
   * default options.
   */
  lemma StringForm(me: string, meName: Option<string>, noreply: string, noreplyName: Option<string>,
                   john: string, johnName: Option<string>, jane: string, janeName: Option<string>,
                   jake: string, jakeName: Option<string>)
    ensures BuildPayload(AddressMessage(Single(me, meName), Single(noreply, noreplyName),
                                        Single(john, johnName), Single(jane, janeName), Single(jake, jakeName)))
      == Success(Obj([
        ("recipients", List([RecipientJson(john, johnName, None), RecipientJson(jane, janeName, None),
                             RecipientJson(jake, jakeName, Some(john))])),
        ("content", Obj([("subject", Str("")), ("from", SenderJson(me, meName)), ("reply_to", Str(noreply)), ("text", Str(""))])),
        ("options", Obj([("transactional", Bool(true)), ("inline_css", Bool(true))]))]))
  {
    var m := AddressMessage(Single(me, meName), Single(noreply, noreplyName),
                            Single(john, johnName), Single(jane, janeName), Single(jake, jakeName));
    var p := PayloadOf(m);
    StringFormPayload(me, meName, noreply, noreplyName, john, johnName, jane, janeName, jake, jakeName);
    AddressOnly(john, johnName, None);
    AddressOnly(jane, janeName, None);
    AddressOnly(jake, jakeName, Some(john));
    var recipients := [RecipientJson(john, johnName, None), RecipientJson(jane, janeName, None),
                       RecipientJson(jake, jakeName, Some(john))];
    ThreeRendered(p.recipients, recipients);
    AddressOnlyContent(me, meName, noreply);
    RenderWithDefaults(p, recipients,
      [("subject", Str("")), ("from", SenderJson(me, meName)), ("reply_to", Str(noreply)), ("text", Str(""))]);
  }

  /** The typed payload of the string-form message. */
  lemma StringFormPayload(me: string, meName: Option<string>, noreply: string, noreplyName: Option<string>,
                          john: string, johnName: Option<string>, jane: string, janeName: Option<string>,
                          jake: string, jakeName: Option<string>)
    ensures var m := AddressMessage(Single(me, meName), Single(noreply, noreplyName),
                                    Single(john, johnName), Single(jane, janeName), Single(jake, jakeName));
      && HasVisibleRecipient(m)
      && PayloadOf(m) == Payload([Recipient(RecipientAddress(john, johnName, None), None, None, None),
                                  Recipient(RecipientAddress(jane, janeName, None), None, None, None),
                                  Recipient(RecipientAddress(jake, jakeName, Some(john)), None, None, None)],
                                 Content("", Some(Address(me, meName)), Some(noreply), None, "", [], []),
                                 "", [], [], DefaultOptions)
  {
  }

  /** Giving each address as a one-element array, with or without a name, yields the same payload as the string form. */
  lemma ArrayForm(me: string, meName: Option<string>, noreply: string, noreplyName: Option<string>,
                  john: string, johnName: Option<string>, jane: string, janeName: Option<string>,
                  jake: string, jakeName: Option<string>)
    ensures BuildPayload(AddressMessage(Listed([EntryOf(me, meName)]), Listed([EntryOf(noreply, noreplyName)]),
                                        Listed([EntryOf(john, johnName)]), Listed([EntryOf(jane, janeName)]),
                                        Listed([EntryOf(jake, jakeName)])))
         == BuildPayload(AddressMessage(Single(me, meName), Single(noreply, noreplyName),
                                        Single(john, johnName), Single(jane, janeName), Single(jake, jakeName)))
  {
    SingleFormsAgree(me, meName);
    SingleFormsAgree(noreply, noreplyName);
    SingleFormsAgree(john, johnName);
    SingleFormsAgree(jane, janeName);
    SingleFormsAgree(jake, jakeName);
    AddressFormsAgree(
      AddressMessage(Listed([EntryOf(me, meName)]), Listed([EntryOf(noreply, noreplyName)]),
                     Listed([EntryOf(john, johnName)]), Listed([EntryOf(jane, janeName)]), Listed([EntryOf(jake, jakeName)])),
      AddressMessage(Single(me, meName), Single(noreply, noreplyName),
                     Single(john, johnName), Single(jane, janeName), Single(jake, jakeName)));
  }

  /** A text with one placeholder `*|name|*` between two texts without asterisks. */
  function WithPlaceholder(before: string, name: string, after: string): string
  {
    before + "*|" + name + "|*" + after
  }

  /** The same text with the placeholder in the `{{name}}` form. */
  function WithMergeTag(before: string, name: string, after: string): string
  {
    before + "{{" + name + "}}" + after
  }

  lemma RewriteOne(before: string, name: string, after: string)
    requires '*' !in before && '*' !in after && |name| > 0 && '|' !in name
    ensures Placeholder.Convert(WithPlaceholder(before, name, after)) == WithMergeTag(before, name, after)
  {
    Placeholder.AsteriskFreeStartsNoToken(before, "*|" + name + "|*" + after);
    Placeholder.ConvertToken(before, name, after);
    Placeholder.ConvertWithoutAsterisk(after);
  }

  /** An extended message from `me` to `john` with a subject, an html body and a text part. */
  function TaggedMessage(me: string, john: string, subject: string, html: string, text: string): Message
  {
    Blank(true).(from := Some(Single(me, None)), to := Listed([Bare(john)]), subject := subject, html := Some(html), text := Some(text))
  }

  lemma TaggedPayload(me: string, john: string, subject: string, html: string, text: string)
    ensures var m := TaggedMessage(me, john, subject, html, text);
      && HasVisibleRecipient(m)
      && PayloadOf(m) == Payload([Recipient(RecipientAddress(john, None, None), None, None, None)],
                                 Content(Placeholder.Convert(subject), Some(Address(me, None)), None,
                                         Some(Placeholder.Convert(html)), Placeholder.Convert(text), [], []),
                                 "", [], [], DefaultOptions)
  {
    OneBare(john);
  }

  /**
   * A placeholder `*|NAME|*` in the subject, the html body and the text part
   * becomes `{{NAME}}` in each; nothing else in them changes.
   */
  lemma PlaceholdersRewritten(me: string, john: string, name: string,
                              s1: string, s2: string, h1: string, h2: string, t1: string, t2: string)
    requires |name| > 0 && '|' !in name
    requires '*' !in s1 && '*' !in s2 && '*' !in h1 && '*' !in h2 && '*' !in t1 && '*' !in t2
    ensures BuildPayload(TaggedMessage(me, john, WithPlaceholder(s1, name, s2), WithPlaceholder(h1, name, h2),
                                       WithPlaceholder(t1, name, t2)))
      == Success(Obj([
        ("recipients", List([RecipientJson(john, None, None)])),
        ("content", Obj([("subject", Str(WithMergeTag(s1, name, s2))), ("from", Str(me)),
                         ("html", Str(WithMergeTag(h1, name, h2))), ("text", Str(WithMergeTag(t1, name, t2)))])),
        ("options", Obj([("transactional", Bool(true)), ("inline_css", Bool(true))]))]))
  {
    var subject, html, text := WithPlaceholder(s1, name, s2), WithPlaceholder(h1, name, h2), WithPlaceholder(t1, name, t2);
    var m := TaggedMessage(me, john, subject, html, text);
    var p := PayloadOf(m);
    TaggedPayload(me, john, subject, html, text);
    RewriteOne(s1, name, s2);
    RewriteOne(h1, name, h2);
    RewriteOne(t1, name, t2);
    AddressOnly(john, None, None);
    TaggedContent(WithMergeTag(s1, name, s2), me, WithMergeTag(h1, name, h2), WithMergeTag(t1, name, t2));
    RenderWithDefaults(p, [RecipientJson(john, None, None)],
      [("subject", Str(WithMergeTag(s1, name, s2))), ("from", Str(me)),
       ("html", Str(WithMergeTag(h1, name, h2))), ("text", Str(WithMergeTag(t1, name, t2)))]);
  }

  lemma TaggedContent(subject: string, me: string, html: string, text: string)
    ensures RenderContent(Content(subject, Some(Address(me, None)), None, Some(html), text, [], []))
         == [("subject", Str(subject)), ("from", Str(me)), ("html", Str(html)), ("text", Str(text))]
  {
    var items := [("subject", Str(subject)), ("from", Str(me)), ("html", Str(html)), ("text", Str(text))];
    assert [items[0]] + [items[1]] + [] + [items[2]] + [items[3]] + [] + [] == items;
  }

  /** A message with no address is refused with the no-recipient exception, whatever its sender. */
  lemma SenderOnlyRejected(me: string)
    ensures BuildPayload(Blank(true).(from := Some(Single(me, None)))) == Failure(NoRecipientError)
  {
    NoRecipientRejected(Blank(true).(from := Some(Single(me, None))));
  }

  /** The per-recipient data of the full message: entries for two of the three addresses. */
  function FullExtension(john: string, jane: string, campaign: string,
                         johnTags: seq<string>, janeTags: seq<string>, metadata: Fields,
                         johnMeta: Fields, janeMeta: Fields, subst: Fields, johnSubst: Fields, janeSubst: Fields,
                         options: seq<SendOption>): Extension
  {
    Extension(campaign, map[john := johnTags, jane := janeTags], metadata, map[john := johnMeta, jane := janeMeta],
              subst, map[john := johnSubst, jane := janeSubst], Some(options))
  }

  /** Every field of an extended message set: named addresses in array form, three bodies, a header, an attachment. */
  function FullMessage(me: string, noreply: string, john: string, jane: string, jake: string,
                       subject: string, html: string, text: string, header: Header, attachment: Attachment,
                       ext: Extension): Message
  {
    Message(Some(Single(me, Some("Me"))), Some(Single(noreply, Some("No Reply"))),
            Listed([Named(john, "John")]), Listed([Named(jane, "Jane")]), Listed([Named(jake, "Jake")]),
            subject, Some(html), Some(text), [header], [attachment], Some(ext))
  }

  lemma FullPayload(me: string, noreply: string, john: string, jane: string, jake: string,
                    subject: string, html: string, text: string, header: Header, attachment: Attachment,
                    ext: Extension)
    requires jake != john && jake != jane && john != jane
    requires ext.tags.Keys == ext.recipientMetadata.Keys == ext.recipientSubstitutionData.Keys == {john, jane}
    requires ext.options.Some?
    requires '*' !in subject && '*' !in html && '*' !in text
    ensures var m := FullMessage(me, noreply, john, jane, jake, subject, html, text, header, attachment, ext);
      && HasVisibleRecipient(m)
      && PayloadOf(m) == Payload(
        [Recipient(RecipientAddress(john, Some("John"), None),
                   Some(ext.tags[john]), Some(ext.recipientMetadata[john]), Some(ext.recipientSubstitutionData[john])),
         Recipient(RecipientAddress(jane, Some("Jane"), None),
                   Some(ext.tags[jane]), Some(ext.recipientMetadata[jane]), Some(ext.recipientSubstitutionData[jane])),
         Recipient(RecipientAddress(jake, Some("Jake"), Some(john)), None, None, None)],
        Content(subject, Some(Address(me, Some("Me"))), Some(noreply), Some(html), text,
                [header.name + ": " + header.value],
                [EncodedAttachment(attachment.contentType, attachment.filename, Base64.Encode(attachment.body))]),
        ext.campaignId, ext.metadata, ext.substitutionData, ext.options.value)
  {
    FullRecipients(me, noreply, john, jane, jake, subject, html, text, header, attachment, ext);
    FullContent(me, noreply, john, jane, jake, subject, html, text, header, attachment, ext);
  }

  lemma FullRecipients(me: string, noreply: string, john: string, jane: string, jake: string,
                       subject: string, html: string, text: string, header: Header, attachment: Attachment,
                       ext: Extension)
    requires jake != john && jake != jane && john != jane
    requires ext.tags.Keys == ext.recipientMetadata.Keys == ext.recipientSubstitutionData.Keys == {john, jane}
    ensures var m := FullMessage(me, noreply, john, jane, jake, subject, html, text, header, attachment, ext);
      && Normalize(m.to) != []
      && Recipients(m) ==
        [Recipient(RecipientAddress(john, Some("John"), None),
                   Some(ext.tags[john]), Some(ext.recipientMetadata[john]), Some(ext.recipientSubstitutionData[john])),
         Recipient(RecipientAddress(jane, Some("Jane"), None),
                   Some(ext.tags[jane]), Some(ext.recipientMetadata[jane]), Some(ext.recipientSubstitutionData[jane])),
         Recipient(RecipientAddress(jake, Some("Jake"), Some(john)), None, None, None)]
  {
    SingleFormsAgree(john, Some("John"));
    SingleFormsAgree(jane, Some("Jane"));
    SingleFormsAgree(jake, Some("Jake"));
  }

  lemma FullContent(me: string, noreply: string, john: string, jane: string, jake: string,
                    subject: string, html: string, text: string, header: Header, attachment: Attachment,
                    ext: Extension)
    requires '*' !in subject && '*' !in html && '*' !in text
    ensures BuildContent(FullMessage(me, noreply, john, jane, jake, subject, html, text, header, attachment, ext))
      == Content(subject, Some(Address(me, Some("Me"))), Some(noreply), Some(html), text,
                 [header.name + ": " + header.value],
                 [EncodedAttachment(attachment.contentType, attachment.filename, Base64.Encode(attachment.body))])
  {
    Placeholder.ConvertWithoutAsterisk(subject);
    Placeholder.ConvertWithoutAsterisk(html);
    Placeholder.ConvertWithoutAsterisk(text);
  }

  /** A named recipient with tags, metadata and substitution data of its own. */
  function DataRecipientJson(email: string, name: string, tags: seq<string>, meta: Fields, subst: Fields): Value
  {
    Obj([("address", Obj([("email", Str(email)), ("name", Str(name))])), ("tags", Strings(tags)),
         ("metadata", Obj(meta)), ("substitution_data", Obj(subst))])
  }

  lemma DataRecipient(email: string, name: string, tags: seq<string>, meta: Fields, subst: Fields)
    ensures RenderRecipient(Recipient(RecipientAddress(email, Some(name), None), Some(tags), Some(meta), Some(subst)))
         == DataRecipientJson(email, name, tags, meta, subst)
  {
    var a := [("email", Str(email)), ("name", Str(name))];
    assert [a[0]] + [a[1]] + [] == a;
    var r := [("address", Obj(a)), ("tags", Strings(tags)), ("metadata", Obj(meta)), ("substitution_data", Obj(subst))];
    assert [r[0]] + [r[1]] + [r[2]] + [r[3]] == r;
  }

  /** A payload with every top-level section set. */
  lemma RenderAll(p: Payload, recipients: seq<Value>, content: Fields)
    requires p.campaignId != "" && p.metadata != [] && p.substitutionData != [] && p.options != []
    requires |recipients| == |p.recipients|
    requires forall i :: 0 <= i < |p.recipients| ==> RenderRecipient(p.recipients[i]) == recipients[i]
    requires RenderContent(p.content) == content
    ensures Render(p) == Obj([("recipients", List(recipients)), ("content", Obj(content)),
                              ("campaign_id", Str(p.campaignId)), ("metadata", Obj(p.metadata)),
                              ("substitution_data", Obj(p.substitutionData)), ("options", Obj(RenderOptions(p.options)))])
  {
    var rs := RenderRecipients(p.recipients).items;
    assert rs == recipients;
    var all := [("recipients", List(rs)), ("content", Obj(content)),
                ("campaign_id", Str(p.campaignId)), ("metadata", Obj(p.metadata)),
                ("substitution_data", Obj(p.substitutionData)), ("options", Obj(RenderOptions(p.options)))];
    assert [all[0], all[1]] + [all[2]] + [all[3]] + [all[4]] + [all[5]] == all;
  }

  /** The rendered content with every section present. */
  lemma FullContentJson(c: Content)
    requires c.from.Some? && c.from.value.name.Some? && c.replyTo.Some? && c.html.Some?
    requires c.headers != [] && c.attachments != []
    ensures RenderContent(c) == [
      ("subject", Str(c.subject)),
      ("from", Obj([("email", Str(c.from.value.email)), ("name", Str(c.from.value.name.value))])),
      ("reply_to", Str(c.replyTo.value)), ("html", Str(c.html.value)), ("text", Str(c.text)),
      ("headers", Strings(c.headers)), ("attachments", RenderAttachments(c.attachments))]
  {
    var all := [
      ("subject", Str(c.subject)),
      ("from", Obj([("email", Str(c.from.value.email)), ("name", Str(c.from.value.name.value))])),
      ("reply_to", Str(c.replyTo.value)), ("html", Str(c.html.value)), ("text", Str(c.text)),
      ("headers", Strings(c.headers)), ("attachments", RenderAttachments(c.attachments))];
    assert [all[0]] + [all[1]] + [all[2]] + [all[3]] + [all[4]] + [all[5]] + [all[6]] == all;
  }

  /**
   * The full message: each named recipient in order with its own tags,
   * metadata and substitution data, the blind copy with header_to only; the
   * sender with its name, reply_to as the bare email, html and text, the
   * custom header as a `Name: Value` line, the attachment base64-encoded;
   * then the campaign, metadata, substitution data and the options as set.
   */
  lemma FullMessageRendered(me: string, noreply: string, john: string, jane: string, jake: string,
                            subject: string, html: string, text: string, header: Header, attachment: Attachment,
                            ext: Extension)
    requires jake != john && jake != jane && john != jane
    requires ext.tags.Keys == ext.recipientMetadata.Keys == ext.recipientSubstitutionData.Keys == {john, jane}
    requires ext.options.Some? && ext.options.value != []
    requires ext.campaignId != "" && ext.metadata != [] && ext.substitutionData != []
    requires '*' !in subject && '*' !in html && '*' !in text
    ensures BuildPayload(FullMessage(me, noreply, john, jane, jake, subject, html, text, header, attachment, ext))
      == Success(Obj([
        ("recipients", List([
          DataRecipientJson(john, "John", ext.tags[john], ext.recipientMetadata[john], ext.recipientSubstitutionData[john]),
          DataRecipientJson(jane, "Jane", ext.tags[jane], ext.recipientMetadata[jane], ext.recipientSubstitutionData[jane]),
          RecipientJson(jake, Some("Jake"), Some(john))])),
        ("content", Obj([
          ("subject", Str(subject)), ("from", Obj([("email", Str(me)), ("name", Str("Me"))])),
          ("reply_to", Str(noreply)), ("html", Str(html)), ("text", Str(text)),
          ("headers", List([Str(header.name + ": " + header.value)])),
          ("attachments", List([Obj([("type", Str(attachment.contentType)), ("name", Str(attachment.filename)),
                                     ("data", Str(Base64.Encode(attachment.body)))])]))])),
        ("campaign_id", Str(ext.campaignId)), ("metadata", Obj(ext.metadata)),
        ("substitution_data", Obj(ext.substitutionData)), ("options", Obj(RenderOptions(ext.options.value)))]))
  {
    FullPayload(me, noreply, john, jane, jake, subject, html, text, header, attachment, ext);
    FullRendered(me, noreply, john, jane, jake, subject, html, text, header, attachment, ext);
  }

  /** The typed payload of the full message, rendered. */
  lemma FullRendered(me: string, noreply: string, john: string, jane: string, jake: string,
                     subject: string, html: string, text: string, header: Header, attachment: Attachment,
                     ext: Extension)
    requires ext.options.Some? && ext.options.value != []
    requires ext.campaignId != "" && ext.metadata != [] && ext.substitutionData != []
    requires john in ext.tags && john in ext.recipientMetadata && john in ext.recipientSubstitutionData
    requires jane in ext.tags && jane in ext.recipientMetadata && jane in ext.recipientSubstitutionData
    ensures Render(Payload(
        [Recipient(RecipientAddress(john, Some("John"), None),
                   Some(ext.tags[john]), Some(ext.recipientMetadata[john]), Some(ext.recipientSubstitutionData[john])),
         Recipient(RecipientAddress(jane, Some("Jane"), None),
                   Some(ext.tags[jane]), Some(ext.recipientMetadata[jane]), Some(ext.recipientSubstitutionData[jane])),
         Recipient(RecipientAddress(jake, Some("Jake"), Some(john)), None, None, None)],
        Content(subject, Some(Address(me, Some("Me"))), Some(noreply), Some(html), text,
                [header.name + ": " + header.value],
                [EncodedAttachment(attachment.contentType, attachment.filename, Base64.Encode(attachment.body))]),
        ext.campaignId, ext.metadata, ext.substitutionData, ext.options.value))
      == Obj([
        ("recipients", List([
          DataRecipientJson(john, "John", ext.tags[john], ext.recipientMetadata[john], ext.recipientSubstitutionData[john]),
          DataRecipientJson(jane, "Jane", ext.tags[jane], ext.recipientMetadata[jane], ext.recipientSubstitutionData[jane]),
          RecipientJson(jake, Some("Jake"), Some(john))])),
        ("content", Obj([
          ("subject", Str(subject)), ("from", Obj([("email", Str(me)), ("name", Str("Me"))])),
          ("reply_to", Str(noreply)), ("html", Str(html)), ("text", Str(text)),
          ("headers", List([Str(header.name + ": " + header.value)])),
          ("attachments", List([Obj([("type", Str(attachment.contentType)), ("name", Str(attachment.filename)),
                                     ("data", Str(Base64.Encode(attachment.body)))])]))])),
        ("campaign_id", Str(ext.campaignId)), ("metadata", Obj(ext.metadata)),
        ("substitution_data", Obj(ext.substitutionData)), ("options", Obj(RenderOptions(ext.options.value)))])
  {
    var encoded := EncodedAttachment(attachment.contentType, attachment.filename, Base64.Encode(attachment.body));
    var c := Content(subject, Some(Address(me, Some("Me"))), Some(noreply), Some(html), text,
                     [header.name + ": " + header.value], [encoded]);
    DataRecipient(john, "John", ext.tags[john], ext.recipientMetadata[john], ext.recipientSubstitutionData[john]);
    DataRecipient(jane, "Jane", ext.tags[jane], ext.recipientMetadata[jane], ext.recipientSubstitutionData[jane]);
    AddressOnly(jake, Some("Jake"), Some(john));
    FullContentJson(c);
    OneLine(header.name + ": " + header.value);
    OneAttachment(encoded);
    var p := Payload(
        [Recipient(RecipientAddress(john, Some("John"), None),
                   Some(ext.tags[john]), Some(ext.recipientMetadata[john]), Some(ext.recipientSubstitutionData[john])),
         Recipient(RecipientAddress(jane, Some("Jane"), None),
                   Some(ext.tags[jane]), Some(ext.recipientMetadata[jane]), Some(ext.recipientSubstitutionData[jane])),
         Recipient(RecipientAddress(jake, Some("Jake"), Some(john)), None, None, None)],
        c, ext.campaignId, ext.metadata, ext.substitutionData, ext.options.value);
    var recipients :=
      [DataRecipientJson(john, "John", ext.tags[john], ext.recipientMetadata[john], ext.recipientSubstitutionData[john]),
       DataRecipientJson(jane, "Jane", ext.tags[jane], ext.recipientMetadata[jane], ext.recipientSubstitutionData[jane]),
       RecipientJson(jake, Some("Jake"), Some(john))];
    ThreeRendered(p.recipients, recipients);
    RenderAll(p, recipients, RenderContent(c));
  }

  /** The seven options of the full message, each under its own key with its own value, in the order set. */
  lemma FullOptions(pool: string)
    ensures RenderOptions([OpenTracking(false), ClickTracking(false), Transactional(false), Sandbox(true),
                           SkipSuppression(true), InlineCss(false), IpPool(pool)])
         == [("open_tracking", Bool(false)), ("click_tracking", Bool(false)), ("transactional", Bool(false)),
             ("sandbox", Bool(true)), ("skip_suppression", Bool(true)), ("inline_css", Bool(false)), ("ip_pool", Str(pool))]
  {
  }

  lemma OneLine(line: string)
    ensures Strings([line]) == List([Str(line)])
  {
  }

  lemma OneAttachment(at: EncodedAttachment)
    ensures RenderAttachments([at]) == List([RenderAttachment(at)])
  {
  }

  /** The bytes of the text "Some text in a file.", written as six groups of three and a tail of two. */
  const FileBytes: seq<Base64.byte> :=
    [83, 111, 109] + ([101, 32, 116] + ([101, 120, 116] + ([32, 105, 110] + ([32, 97, 32] + ([102, 105, 108] + [101, 46])))))

  /** The text "U29tZSB0ZXh0IGluIGEgZmlsZS4=", written as its seven quads. */
  const FileText: string := "U29t" + ("ZSB0" + ("ZXh0" + ("IGlu" + ("IGEg" + ("Zmls" + "ZS4=")))))

  lemma Block0()
    ensures Base64.Encode([83, 111, 109]) == "U29t"
  {
    Base64.EncodeCons([83, 111, 109]);
  }

  lemma Block1()
    ensures Base64.Encode([101, 32, 116]) == "ZSB0"
  {
    Base64.EncodeCons([101, 32, 116]);
  }

  lemma Block2()
    ensures Base64.Encode([101, 120, 116]) == "ZXh0"
  {
    Base64.EncodeCons([101, 120, 116]);
  }

  lemma Block3()
    ensures Base64.Encode([32, 105, 110]) == "IGlu"
  {
    Base64.EncodeCons([32, 105, 110]);
  }

  lemma Block4()
    ensures Base64.Encode([32, 97, 32]) == "IGEg"
  {
    Base64.EncodeCons([32, 97, 32]);
  }

  lemma Block5()
    ensures Base64.Encode([102, 105, 108]) == "Zmls"
  {
    Base64.EncodeCons([102, 105, 108]);
  }

  /** Six full groups and a tail encode to the concatenation of their encodings. */
  lemma EncodeGroups(g0: seq<Base64.byte>, g1: seq<Base64.byte>, g2: seq<Base64.byte>,
                     g3: seq<Base64.byte>, g4: seq<Base64.byte>, g5: seq<Base64.byte>, rest: seq<Base64.byte>)
    requires |g0| == |g1| == |g2| == |g3| == |g4| == |g5| == 3
    ensures Base64.Encode(g0 + (g1 + (g2 + (g3 + (g4 + (g5 + rest)))))) == Base64.Encode(g0) + (Base64.Encode(g1) + (Base64.Encode(g2) + (Base64.Encode(g3)
                              + (Base64.Encode(g4) + (Base64.Encode(g5) + Base64.Encode(rest))))))
  {
    Base64.EncodeAppend(g5, rest);
    Base64.EncodeAppend(g4, g5 + rest);
    Base64.EncodeAppend(g3, g4 + (g5 + rest));
    Base64.EncodeAppend(g2, g3 + (g4 + (g5 + rest)));
    Base64.EncodeAppend(g1, g2 + (g3 + (g4 + (g5 + rest))));
    Base64.EncodeAppend(g0, g1 + (g2 + (g3 + (g4 + (g5 + rest)))));
  }

  lemma Tail()
    ensures Base64.Encode([101, 46]) == "ZS4="
  {
  }

  lemma EncodeFileBytes()
    ensures Base64.Encode(FileBytes) == FileText
  {
    EncodeGroups([83, 111, 109], [101, 32, 116], [101, 120, 116], [32, 105, 110], [32, 97, 32], [102, 105, 108], [101, 46]);
    Block0(); Block1(); Block2(); Block3(); Block4(); Block5(); Tail();
  }

  /** The attachment of the full message is sent as this base64 text, which decodes back to its bytes. */
  lemma FileEncoding()
    ensures Base64.Encode(FileBytes) == FileText
    ensures Base64.Decode(FileText) == Some(FileBytes)
  {
    EncodeFileBytes();
    Base64.DecodeEncode(FileBytes);
  }

  lemma ExtendedMessageDefaultsExample()
    ensures BuildPayload(PlainMessage(Me, John, Subject, Body, true)) == Success(Obj([
      ("recipients", List([Obj([("address", Obj([("email", Str(John))]))])])),
      ("content", Obj([("subject", Str(Subject)), ("from", Str(Me)), ("text", Str(Body))])),
      ("options", Obj([("transactional", Bool(true)), ("inline_css", Bool(true))]))]))
  {
    ExtendedMessageDefaults(Me, John, Subject, Body);
  }

  lemma PlainSwiftMessageExample()
    ensures BuildPayload(PlainMessage(Me, John, Subject, Body, false)) == Success(Obj([
      ("recipients", List([Obj([("address", Obj([("email", Str(John))]))])])),
      ("content", Obj([("subject", Str(Subject)), ("from", Str(Me)), ("text", Str(Body))]))]))
  {
    PlainSwiftMessage(Me, John, Subject, Body);
  }
}
