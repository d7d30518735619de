/**
 * The message the builder reads: a plain Swift message, or the extended
 * message that adds the transmission fields (campaign, tags, metadata,
 * substitution data, options). Only what the builder reads is kept.
 */
module Message {
  import opened Wrappers
  import opened Addresses
  import Json
  import Base64

  /** A custom header line, beyond the structural headers the other fields stand for. */
  datatype Header = Header(name: string, value: string)

  datatype Attachment = Attachment(contentType: string, filename: string, body: seq<Base64.byte>)

  /** The recognised transmission options, each with its value. */
  datatype SendOption =
    | OpenTracking(on: bool)
    | ClickTracking(on: bool)
    | Transactional(on: bool)
    | Sandbox(on: bool)
    | SkipSuppression(on: bool)
    | InlineCss(on: bool)
    | IpPool(pool: string)

  /** The fields only the extended message carries; per-recipient data is keyed by exact email. */
  datatype Extension = Extension(
    campaignId: string,
    tags: map<string, seq<string>>,
    metadata: Json.Fields,
    recipientMetadata: map<string, Json.Fields>,
    substitutionData: Json.Fields,
    recipientSubstitutionData: map<string, Json.Fields>,
    options: Option<seq<SendOption>>)

  /** An extended message on which none of the extended setters was called. */
  const NoExtension := Extension("", map[], [], map[], [], map[], None)

  datatype Message = Message(
    from: Option<AddressInput>,
    replyTo: Option<AddressInput>,
    to: AddressInput,
    cc: AddressInput,
    bcc: AddressInput,
    subject: string,
    html: Option<string>,
    text: Option<string>,
    headers: seq<Header>,
    attachments: seq<Attachment>,
    extension: Option<Extension>)

  /** A fresh message with nothing set: extended, or a plain Swift message. */
  function Blank(extended: bool): (m: Message)
    ensures m.extension.Some? <==> extended
    ensures Normalize(m.to) == [] && Normalize(m.cc) == [] && Normalize(m.bcc) == []
  {
    Message(None, None, Listed([]), Listed([]), Listed([]), "", None, None, [], [],
            if extended then Some(NoExtension) else None)
  }
}
