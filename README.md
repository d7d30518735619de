# SparkPost payload builder, modelled in Dafny

This project models the payload builder of the SparkPost transport for
Swift Mailer. The builder reads an email message and returns the request
body of SparkPost's transmission API. Given a message with no recipient
address, it throws the exception "Cannot send message without a recipient
address" instead. The model also rejects a message with only bcc addresses;
see the `PayloadBuilder.BccOnlyRejected` line under "## Left out".

The behaviour modelled is the behaviour fixed by the builder's test suite,
`tests/PayloadBuilderTest.php`. Eight of its nine tests compare one exact
payload, and the ninth expects the no-recipient exception. The model is
pure: functions over datatypes, with lemmas.

- `Wrappers` holds `Option` and `Result`.
- `Json` is the payload tree. A keyed level is an ordered list of
  `(key, value)` pairs, because the tests compare key order too.
- `Addresses` covers the two forms of an address field and how they
  normalise into a list of mailboxes. One form is an email with an optional
  name. The other is an array of bare emails and `email => name` pairs.
  A repeated email keeps its first position and its last name.
- `Message` is the message the builder reads. It has a sender, a reply-to
  address, to, cc and bcc, a subject, an html body, a text body, custom
  headers and attachments. An extended message also carries a campaign,
  global and per-recipient data, and options.
- `Placeholder` rewrites every `*|NAME|*` merge tag to `{{NAME}}`. Each tag
  is the shortest one that closes, and a tag may hold any character.
- `Base64` is the base64 encoding of attachment bytes, as defined in
  section 4 of RFC 4648. It comes with the canonical decoder as its partner.
- `Payload` holds the typed payload and its rendering to the tree. Empty
  optional sections are left out.
- `PayloadBuilder` holds the builder itself, `BuildPayload`, and the
  properties the tests fix.
- `Scenarios` restates each test as a lemma about `BuildPayload`. Each one
  is stated over arbitrary strings, and two are also instantiated with the
  tests' own strings.

## Model

| member | source | states |
|---|---|---|
| Addresses.ToAddress | tests/PayloadBuilderTest.php:287-291 | an array entry keeps its email; it has a name exactly when it was an `email => name` pair |
| Addresses.Find | tests/PayloadBuilderTest.php:255-259 | the position found holds the email; there is no position exactly when the email is absent |
| Addresses.Put | tests/PayloadBuilderTest.php:287-291 | assigning `mailboxes[email] = name` keeps emails distinct, replaces only the entry with that email, and appends a new email at the end |
| Addresses.Collect | tests/PayloadBuilderTest.php:255-259 | the mailbox list of an array never repeats an email |
| Addresses.CollectEmails | tests/PayloadBuilderTest.php:255-259 | the mailbox list holds exactly the emails the array mentions |
| Addresses.CollectNames | tests/PayloadBuilderTest.php:287-291 | each mailbox carries the name given by the last entry for its email |
| Addresses.CollectAppendsNew | tests/PayloadBuilderTest.php:255-259 | an entry with a new email is appended as the last mailbox |
| Addresses.CollectKeepsDistinctEntries | tests/PayloadBuilderTest.php:287-291 | when no email repeats, the array keeps every entry in its order |
| Addresses.Normalize | tests/PayloadBuilderTest.php:190-195 | a normalised address field never repeats an email |
| Addresses.EntryOf | tests/PayloadBuilderTest.php:287-291 | the array entry for an email and an optional name normalises to that email and name |
| Addresses.SingleFormsAgree | tests/PayloadBuilderTest.php:252-311 | one address as a string, with or without a name, normalises like the one-element array |
| Json.Strings | tests/PayloadBuilderTest.php:159-161 | a list of strings becomes a tree list of the same length, holding the same strings in order |
| Message.Blank | tests/PayloadBuilderTest.php:351-354 | a fresh message has no to, cc or bcc address; it is extended exactly when created as an extended message |
| Placeholder.FindClose | tests/PayloadBuilderTest.php:321-326 | finds the nearest closing pipe-asterisk at or after the start position, and there is none before it |
| Placeholder.TokenAt | tests/PayloadBuilderTest.php:321-326 | a tag is found exactly when the text starts with asterisk-pipe and some closing pipe-asterisk follows at least one character later; the one found is the shortest |
| Placeholder.Convert | tests/PayloadBuilderTest.php:321-336 | the rewrite keeps the length of the text |
| Placeholder.ConvertChangesOnlyDelimiters | tests/PayloadBuilderTest.php:321-336 | every character that changes was an asterisk or a pipe and became a brace |
| Placeholder.ConvertUnchanged | tests/PayloadBuilderTest.php:321-336 | a text is left unchanged exactly when it contains no tag |
| Placeholder.TokenIsChanged | tests/PayloadBuilderTest.php:321-333 | a text that starts with a tag is changed |
| Placeholder.TokenOfName | tests/PayloadBuilderTest.php:321-333 | a tag around a name without pipes is found with exactly the name's length |
| Placeholder.ConvertLeadingToken | tests/PayloadBuilderTest.php:321-333 | a leading tag becomes `{{NAME}}`, and the rest is rewritten on its own |
| Placeholder.ConvertLeadingChar | tests/PayloadBuilderTest.php:321-333 | a leading character other than an asterisk is copied |
| Placeholder.ConvertPrefix | tests/PayloadBuilderTest.php:321-336 | a prefix at none of whose positions a tag starts is copied unchanged, stray asterisks and pipes included, and the rest is rewritten on its own |
| Placeholder.ConvertWithoutAsterisk | tests/PayloadBuilderTest.php:45-46 | a text without asterisks is unchanged |
| Placeholder.ConvertToken | tests/PayloadBuilderTest.php:321-336 | a tag after a prefix in which no tag starts becomes `{{NAME}}` in place; the prefix is unchanged and the rest is rewritten on its own |
| Placeholder.AsteriskFreeStartsNoToken | tests/PayloadBuilderTest.php:321-336 | no tag starts at any position of a text without asterisks, whatever follows it |
| Placeholder.StrayAsteriskKept | tests/PayloadBuilderTest.php:321-336 | an asterisk right before a tag opens no tag and is kept, while the tag after it becomes `{{NAME}}` |
| Base64.Index | tests/PayloadBuilderTest.php:163 | a character with an index is the alphabet character of that index |
| Base64.IndexOfChar | tests/PayloadBuilderTest.php:163 | every alphabet character maps back to its index |
| Base64.EncodeAppend | tests/PayloadBuilderTest.php:163 | bytes that fill whole groups of three encode independently of what follows them |
| Base64.EncodedLength | tests/PayloadBuilderTest.php:163 | every started group of three bytes becomes four characters |
| Base64.EncodeAlphabet | tests/PayloadBuilderTest.php:163 | the encoding uses only alphabet characters and `=` |
| Base64.SplitThenJoin | tests/PayloadBuilderTest.php:163 | three bytes split into four sextets join back to the same bytes |
| Base64.JoinThenSplit | tests/PayloadBuilderTest.php:163 | four sextets joined into bytes split back to the same sextets, and likewise for the padded forms |
| Base64.DecodeEncodeOne | tests/PayloadBuilderTest.php:163 | a final single byte, padded with `==`, decodes back to that byte |
| Base64.DecodeEncodeTwo | tests/PayloadBuilderTest.php:163 | two final bytes, padded with `=`, decode back to those bytes |
| Base64.DecodeEncode | tests/PayloadBuilderTest.php:163 | decoding the encoding of any bytes gives those bytes back |
| Base64.EncodeDecode | tests/PayloadBuilderTest.php:163 | encoding what a text decodes to gives that text back |
| Base64.EncodingIsBijective | tests/PayloadBuilderTest.php:163 | a text decodes to some bytes exactly when it is their encoding |
| Payload.Optional | tests/PayloadBuilderTest.php:48-57 | the only key is the given one, present exactly when the value is, and looking it up gives back the value |
| Payload.OptionalStr | tests/PayloadBuilderTest.php:48-57 | the only key is the given one, present exactly when the string is, and looking it up gives that string |
| Payload.RenderSender | tests/PayloadBuilderTest.php:235-238 | a sender without a name is its bare email; with a name it has exactly the keys email and name, holding the email and the name |
| Payload.RenderAttachments | tests/PayloadBuilderTest.php:162-164 | attachments become one `{type, name, data}` each, in order |
| Payload.RenderOptions | tests/PayloadBuilderTest.php:169-177 | each option appears once, in the order given, under its own key and with its own value |
| Payload.ContentKeys | tests/PayloadBuilderTest.php:153-165 | the content keys come in the order subject, from, reply_to, html, text, headers, attachments, each optional one only when set |
| Payload.ContentKeyPresence | tests/PayloadBuilderTest.php:203-208 | subject and text are always present; each optional content key is present exactly when its section is set |
| Payload.ContentValues | tests/PayloadBuilderTest.php:153-165 | each content key carries its own section's value |
| Payload.AddressKeys | tests/PayloadBuilderTest.php:199-201 | a recipient address has email, then name only when one was given, then header_to only when set |
| Payload.RecipientKeys | tests/PayloadBuilderTest.php:137-151 | a recipient has its address, then tags, metadata and substitution_data only when it has them |
| Payload.PayloadKeys | tests/PayloadBuilderTest.php:135-177 | the top-level keys are recipients and content, then campaign_id, metadata, substitution_data and options, each only when non-empty |
| Payload.BareKeys | tests/PayloadBuilderTest.php:48-57 | a payload with no campaign, shared data or options has only recipients and content |
| Payload.RenderRecipients | tests/PayloadBuilderTest.php:136-152 | one rendered entry per recipient, in order |
| Payload.PayloadValues | tests/PayloadBuilderTest.php:135-177 | each top-level key, recipients included, carries its own section's value |
| PayloadBuilder.Lookup | tests/PayloadBuilderTest.php:115-122 | per-recipient data is found exactly when its key is the email, and it is the data stored there |
| PayloadBuilder.MakeRecipient | tests/PayloadBuilderTest.php:136-151 | a recipient entry's address is the mailbox's email and name with the given header_to |
| PayloadBuilder.Group | tests/PayloadBuilderTest.php:197-202 | one recipient entry per mailbox, in the mailboxes' order |
| PayloadBuilder.FormatHeader | tests/PayloadBuilderTest.php:159-161 | a custom header line is the name, then `: `, then the value |
| PayloadBuilder.BuildPayload | tests/PayloadBuilderTest.php:346-357 | the builder fails exactly when the message has no to or cc address, and then with the no-recipient message |
| PayloadBuilder.GroupsInOrder | tests/PayloadBuilderTest.php:197-202 | three groups joined give one entry per address, in order, each with that address's email and name |
| PayloadBuilder.RecipientsInOrder | tests/PayloadBuilderTest.php:229-234 | the recipients are every to, then every cc, then every bcc address, each with its own email and name |
| PayloadBuilder.HeaderToOnlyOnBcc | tests/PayloadBuilderTest.php:197-202 | an entry has header_to exactly when it is a bcc entry and there is a to address; header_to is the first to email |
| PayloadBuilder.RecipientsRendered | tests/PayloadBuilderTest.php:136-152 | the payload's recipients list is the rendering of the recipient entries, one per address, in order, so the recipient lemmas hold of the payload |
| PayloadBuilder.HeaderToRendered | tests/PayloadBuilderTest.php:150 | in the payload, an entry's address has a header_to key exactly when it is a blind copy and there is a to address |
| PayloadBuilder.GroupsCarryData | tests/PayloadBuilderTest.php:136-151 | each entry of the three joined groups carries the per-recipient data of its own email, and only that |
| PayloadBuilder.PerRecipientData | tests/PayloadBuilderTest.php:136-151 | tags, metadata and substitution data appear on an entry exactly when they are stored under its email, and they are that data |
| PayloadBuilder.SenderForms | tests/PayloadBuilderTest.php:235-238 | from is the bare email without a name and `{email, name}` with one; reply_to is always the bare email, and is absent when unset |
| PayloadBuilder.AddressFormsAgree | tests/PayloadBuilderTest.php:284-311 | two messages that differ only in address forms that normalise alike give the same result |
| PayloadBuilder.ContentText | tests/PayloadBuilderTest.php:203-208 | a missing text part becomes the empty string; html is present exactly when set; texts without tags pass through unchanged |
| PayloadBuilder.ContentPresence | tests/PayloadBuilderTest.php:153-165 | subject and text are always present; html, headers and attachments exactly when the message has them |
| PayloadBuilder.HeadersAndAttachments | tests/PayloadBuilderTest.php:159-164 | headers become `Name: Value` lines in order; attachments keep type and name in order, and their data decodes back to their bytes |
| PayloadBuilder.OptionsAndPassThrough | tests/PayloadBuilderTest.php:166-177 | a plain message has only recipients and content; an extended one gets the default options, or exactly the options set; the campaign and shared data pass through |
| PayloadBuilder.DefaultOptionsRendered | tests/PayloadBuilderTest.php:84-87 | the default options render as transactional true, then inline_css true |
| PayloadBuilder.NoRecipientRejected | tests/PayloadBuilderTest.php:351-357 | a message with no address at all fails with the no-recipient message |
| PayloadBuilder.BccOnlyRejected | tests/PayloadBuilderTest.php:346-357 | a message with only blind copies also fails with the no-recipient message |
| Scenarios.OneBare | tests/PayloadBuilderTest.php:257 | a one-element array of a bare email is one mailbox without a name |
| Scenarios.RenderBare | tests/PayloadBuilderTest.php:48-57 | a payload without campaign or shared data renders as recipients, content and, when present, options |
| Scenarios.RenderWithDefaults | tests/PayloadBuilderTest.php:75-88 | such a payload with the default options renders as recipients, content, then the two default options |
| Scenarios.AddressOnly | tests/PayloadBuilderTest.php:199-201 | a recipient without data renders as its address alone |
| Scenarios.PlainContent | tests/PayloadBuilderTest.php:52-56 | the plain message's content is subject, from and text, in that order |
| Scenarios.PlainSwiftMessage | tests/PayloadBuilderTest.php:40-62 | a plain Swift message to one address renders its recipient and content, with no options |
| Scenarios.PlainSwiftMessageExample | tests/PayloadBuilderTest.php:42-57 | the first test's message gives exactly its expected payload |
| Scenarios.ExtendedMessageDefaults | tests/PayloadBuilderTest.php:67-93 | the same message, extended, renders the same payload plus the default options |
| Scenarios.ExtendedMessageDefaultsExample | tests/PayloadBuilderTest.php:69-88 | the second test's message gives exactly its expected payload |
| Scenarios.AddressOnlyContent | tests/PayloadBuilderTest.php:203-208 | a message with only addresses has an empty subject and text, its sender, and reply_to as the bare email |
| Scenarios.StringFormPayload | tests/PayloadBuilderTest.php:188-215 | the string-form message builds to three plain recipients, the bcc one with header_to, and the default options |
| Scenarios.StringForm | tests/PayloadBuilderTest.php:220-247 | string-form addresses, with or without names, render as the expected payload |
| Scenarios.ArrayForm | tests/PayloadBuilderTest.php:252-311 | one-element array addresses, with or without names, give the same payload as the string form |
| Scenarios.RewriteOne | tests/PayloadBuilderTest.php:321-333 | one tag between texts without asterisks becomes `{{NAME}}` and nothing else changes |
| Scenarios.TaggedPayload | tests/PayloadBuilderTest.php:316-339 | the tagged message's subject, html and text are rewritten and it gets the default options |
| Scenarios.TaggedContent | tests/PayloadBuilderTest.php:332-337 | the tagged message's content is subject, from, html and text, in that order |
| Scenarios.PlaceholdersRewritten | tests/PayloadBuilderTest.php:316-344 | a tag in the subject, the html and the text becomes `{{NAME}}` in each, in the expected payload |
| Scenarios.SenderOnlyRejected | tests/PayloadBuilderTest.php:351-357 | a message with only a sender fails with the no-recipient message |
| Scenarios.FullRecipients | tests/PayloadBuilderTest.php:136-151 | the full message's recipients are the two named ones with their data, then the bcc with header_to only |
| Scenarios.FullContent | tests/PayloadBuilderTest.php:153-165 | the full message's content has every section, the header as one line and the attachment encoded |
| Scenarios.FullPayload | tests/PayloadBuilderTest.php:98-178 | the full message builds to those recipients and content, with the campaign, shared data and options as set |
| Scenarios.DataRecipient | tests/PayloadBuilderTest.php:137-142 | a named recipient with data renders as address, tags, metadata and substitution_data |
| Scenarios.RenderAll | tests/PayloadBuilderTest.php:135-178 | a payload with every section renders with the six top-level keys in order |
| Scenarios.FullContentJson | tests/PayloadBuilderTest.php:153-165 | content with every section renders with the seven content keys in order |
| Scenarios.FullRendered | tests/PayloadBuilderTest.php:135-178 | the full message's typed payload renders as the expected tree |
| Scenarios.FullMessageRendered | tests/PayloadBuilderTest.php:98-183 | the full message gives the expected payload |
| Scenarios.FullOptions | tests/PayloadBuilderTest.php:123-133 | the seven options set render under their own keys, in the order set |
| Scenarios.OneLine | tests/PayloadBuilderTest.php:159-161 | one header line renders as a one-element list |
| Scenarios.OneAttachment | tests/PayloadBuilderTest.php:162-164 | one attachment renders as a one-element list |
| Scenarios.EncodeGroups | tests/PayloadBuilderTest.php:163 | six groups and a tail encode to the concatenation of their encodings |
| Scenarios.EncodeFileBytes | tests/PayloadBuilderTest.php:163 | the bytes of "Some text in a file." encode to the expected text |
| Scenarios.FileEncoding | tests/PayloadBuilderTest.php:111-163 | the attachment's bytes encode to the expected text, and that text decodes back to them |

## Left out

- Swift Mailer's message object is left out: MIME part construction, header parsing and the fluent setters. The model reads the message as a datatype in which the setters' effect is already recorded.
- JSON serialisation and the HTTP request that submits the payload are left out, because both are I/O.
- Email addresses are not validated, and the builder does not validate them either.
- The builder's implementation file is not part of this model. The behaviour is taken from the test suite. Where the tests are silent, the choices below are the model's own.
- Strings are sequences of characters, and attachment bodies are sequences of bytes. Character encodings are not modelled.
- An associative array is modelled as an ordered list of pairs where its order is part of the result. Per-recipient data is modelled as a map keyed by exact email.
- PayloadBuilder.BccOnlyRejected: the tests only reject a message with no address at all. Rejecting a message with only bcc addresses is the model's own choice. Blind copies alone give no address to show in the `header_to` field.
- The tests do not fix these cases. The model's own choices are:
  - `header_to` is left out when there is no to address;
  - `options` is left out when an explicit empty list is set;
  - `from` is left out when no sender is set;
  - `reply_to` uses the first mailbox of its field;
  - `from` likewise uses only the first mailbox of a From field with several addresses;
  - an extended message that sets some options sends exactly those options; they replace the two defaults rather than being merged with them (the one test that sets options sets all seven, so it cannot tell the two apart);
  - a message with an html body and no text part gets `text: ""`;
  - an email given both as to and as cc gives two recipient entries; duplicates are only merged within one field;
  - per-recipient `tags`, `metadata` and `substitution_data` are sent whenever the email is a key of the map, even when the value stored there is empty;
  - a tag may span a line break;
  - an email repeated within one address field keeps its first position and takes the name of its last entry (no test repeats an email within a field).
- Repeated keys in the input are not excluded: an options list that names the same option twice, or metadata with a repeated key, renders as a keyed level with that key twice, which the associative arrays of the source cannot hold.
- The scenario lemmas are stated over arbitrary strings, not only over the tests' own strings. Only the first two tests and the attachment's encoding are also stated with the literal strings. The others follow by instantiating the general lemma.
