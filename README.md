# porkbun dynamic-DNS client — verified model

This project models the core of a small dynamic-DNS client for the porkbun
DNS provider, and proves properties of that model in Dafny 4.11.

- `src/lib.rs` is the client library. It covers the wire vocabulary (the
  envelope `status` and the twelve record types), the derived JSON
  deserializers of the response structs, and the one rule every endpoint
  applies to a response:
  - a text that does not read as the endpoint's envelope becomes
    `MalformedApi`, carrying the text;
  - `SUCCESS` returns the payload;
  - `ERROR` returns `Api{message}`.
  The library also covers the key file, kept verbatim next to the two keys
  read from it, and the requests each endpoint posts (URL and body).
- `ddns/src/main.rs` is the driver.
  - `matches_previous_ipv4` finds the first fetched A record named after the
    target and compares its address with the observed one.
  - `main` turns that answer into no write, one edit or one create, and an
    exit code.

Files and modules:

- `wrappers.dfy` (`Wrappers`): Option and Result.
- `wire.dfy` (`Wire`): `Status`, `RecordType`, their literal names, IPv4
  addresses (four bytes), 32-bit ids.
- `serde.dfy` (`Serde`): JSON values as the JSON reader produces them, and the
  field rules of the derived deserializers. A plain field is required. A
  `#[serde(default)]` field takes its default only when absent. An `Option`
  field reads absent or `null` as `None`. Unknown fields are ignored.
- `porkbun.dfy` (`Porkbun`): the library's errors, records, envelope rule,
  client, requests and per-endpoint results.
- `ddns.dfy` (`Ddns`): target-name choice, first match, the reconciliation
  answer, and the driver as a function from the results of its library calls
  to the calls it makes and its exit code.

Foreign code is taken as function parameters: the JSON text reader
(`JsonReader`), the `Ipv4Addr` text reader (`AddrReader`) and the address's
`Display` text (`showAddr`). A network round trip is a `Reply`: the text that
came back, or a transport failure. The key file's content is an
`Option<string>`, where `None` means it could not be read.

An `ERROR` response without a `message` member is not malformed: every
response struct declares `message` with `#[serde(default)]`
(`src/lib.rs:174-175`), so such a response gives `Api{message: ""}`
(`Porkbun.ErrorWithoutMessage`). The driver handles IPv4 only. It exits
with 1 when the keys cannot be opened, when the ping fails or returns no
address, or when the one write it attempts fails. A failed record fetch is
logged and exits with 0.

## Model

| member | source | states |
|---|---|---|
| Wire.ParseStatus | src/lib.rs:32-38 | only "SUCCESS" and "ERROR" read as a status, and a status read from a string has that string as its name |
| Wire.StatusRoundTrip | src/lib.rs:32-38 | a status encodes (`StatusName`, the serialize side of the rename literals) to "SUCCESS" or "ERROR" and reads back as itself |
| Wire.StatusNameInjective | src/lib.rs:32-38 | the two statuses have different names |
| Wire.ParseRecordType | src/lib.rs:40-66 | a string reads as a record type only if it is that type's literal name; a string that is no type's name reads as nothing |
| Wire.RecordTypeRoundTrip | src/lib.rs:40-66 | each of the twelve record types reads back from its wire name (`TypeName`, the serialize side of the rename literals, also used for the create body's `type`) |
| Wire.TypeNameInjective | src/lib.rs:40-66 | two record types have the same wire name exactly when they are the same type |
| Wire.TwelveDistinctNames | src/lib.rs:40-66 | the twelve types, in declaration order, have pairwise different names |
| Wire.AllRecordTypesComplete | src/lib.rs:40-66 | the declaration-order list holds every record type and has twelve entries |
| Serde.RequiredString | src/lib.rs:69-78 | a plain `String` field reads only when present and a string, and yields that string |
| Serde.DefaultString | src/lib.rs:132-133 | a `#[serde(default)]` message is "" when absent, the string when it is one, and rejected otherwise (null included) |
| Serde.OptionalString | src/lib.rs:77 | an `Option<String>` field is `None` when absent or null, the string when a string, rejected otherwise |
| Serde.OptionalU32 | src/lib.rs:280 | the create response's `id` is `None` when absent or null, the number when it fits in 32 bits, rejected otherwise |
| Serde.ReadStatus | src/lib.rs:131 | the `status` field reads exactly when it is present and one of the two literals, and names the status read |
| Serde.ReadRecordType | src/lib.rs:72-73 | a record's `type` reads exactly when it is the string name of some record type, and yields that type |
| Serde.ReadIpv4 | src/lib.rs:84-85 | an address value reads exactly when it is a string the address reader accepts |
| Serde.OptionalIpv4 | src/lib.rs:134-135 | `yourIp` is `None` when absent or null; otherwise it gives `Some` of the address it reads as, and is rejected when it reads as none |
| Serde.ReadAll | src/lib.rs:176-177 | an array reads exactly when every element reads, and then gives the elements' values in order, same length |
| Serde.DefaultList | src/lib.rs:222-223 | a `#[serde(default)]` record list is [] when absent; when present it must be an array, and then it is exactly that array read element by element |
| Porkbun.ReadDnsRecord | src/lib.rs:68-78 | a record reads exactly when the value is an object whose `id`, `name`, `content`, `ttl` and `prio` are strings, whose `type` names a record type, and whose `notes` is absent, null or a string; each field is the member as read |
| Porkbun.ReadIpv4Record | src/lib.rs:80-89 | an A record reads exactly when the value is an object whose `id`, `name`, `ttl` and `prio` are strings, whose `content` reads as an address, and whose `notes` is absent, null or a string; each field is the member as read |
| Porkbun.ReadEnvelope | src/lib.rs:171-178 | an envelope reads exactly when the value is an object whose status, message and payload fields all read; it keeps the payload and message as read |
| Porkbun.Respond | src/lib.rs:148-157 | the result is Ok, an Api error, or `MalformedApi` carrying the raw text; malformed exactly when the envelope does not read; Ok exactly on SUCCESS |
| Porkbun.UnreadableIsMalformed | src/lib.rs:148-149 | text that is not JSON gives `MalformedApi` with the text unchanged |
| Porkbun.UnknownStatusIsMalformed | src/lib.rs:148-149 | a missing status, or any status besides the two literals, gives `MalformedApi` with the text |
| Porkbun.SuccessGivesPayload | src/lib.rs:152-153 | a SUCCESS envelope gives `Ok` of the payload as read |
| Porkbun.ErrorGivesMessage | src/lib.rs:154-156 | an ERROR envelope gives `Api` with the provider's message verbatim |
| Porkbun.ErrorWithoutMessage | src/lib.rs:174-175 | an ERROR envelope without `message` gives `Api("")`, not a malformed response |
| Porkbun.ErrorWithBadPayloadIsMalformed | src/lib.rs:236-237 | a payload field that does not read makes even an ERROR response malformed |
| Porkbun.ReplyObject | src/lib.rs:148 | a reply has top-level members exactly when a text came back and reads as a JSON object, and they are that object's members |
| Porkbun.Exchange | src/lib.rs:140-157 | a transport failure is `Request`; a received text goes through the envelope rule; the result is Ok exactly when the reply is an object with status SUCCESS, a readable message and a readable payload, and then it is that payload |
| Porkbun.ReadKeys | src/lib.rs:104-110 | the key file reads exactly when it is an object with string `apikey` and `secretapikey`, and yields those two strings |
| Porkbun.OpenKeys | src/lib.rs:112-120 | an unreadable file is `Io`; a client keeps the file text verbatim and the keys it holds are those in that text; otherwise the error is `Json` |
| Porkbun.NameTypeUrl | src/lib.rs:341-344 | the URL starts with `.../{endpoint}/{domain}/A/` and the rest is the subdomain verbatim, or nothing |
| Porkbun.BuildNameTypeUrl | src/lib.rs:211-215 | building the URL in place gives the fixed prefix, followed by the subdomain when there is one |
| Porkbun.NameTypeUrlDeterminesSubdomain | src/lib.rs:211-215 | for one endpoint and domain, two URLs are equal exactly when the subdomains are, counting no subdomain as "" |
| Porkbun.NameTypeUrlDeterminesDomain | src/lib.rs:211-212 | for domains without a slash, equal URLs mean equal domains and subdomains |
| Porkbun.PingIpv4Request | src/lib.rs:127-143 | the ping posts the key file text verbatim to `https://api-ipv4.porkbun.com/api/json/v3/ping` |
| Porkbun.FetchRecordsRequest | src/lib.rs:180-187 | the fetch-all posts the key file text verbatim to `.../dns/retrieve/` followed by the domain, unescaped |
| Porkbun.FetchIpv4RecordsRequest | src/lib.rs:211-231 | the A-record fetch posts the key file text verbatim to `.../dns/retrieveByNameType/{domain}/A/` followed by the subdomain, if any |
| Porkbun.CreateRecordRequest | src/lib.rs:262-297 | the create posts to `.../dns/create/` followed by the domain, with a body of seven members: the client's two keys, and name, type name, content, ttl and prio unchanged, `None` as null |
| Porkbun.EditIpv4AddressRequest | src/lib.rs:324-356 | the edit posts to `.../dns/editByNameType/{domain}/A/` and the subdomain, if any, with a body of four members: the client's two keys, type "A", and the address's text as content |
| Porkbun.ReadOnlyCallsReplayKeyFile | src/lib.rs:140-143 | the ping and both fetch requests send as their body exactly the key file text the client was opened from |
| Porkbun.PingIpv4Result | src/lib.rs:126-158 | a transport failure is `Request`; Ok exactly when the reply is a SUCCESS object with a readable message and a `yourIp` that is absent, null or an address, and then it is that optional address |
| Porkbun.FetchRecordsResult | src/lib.rs:170-203 | a transport failure is `Request`; Ok exactly when the reply is a SUCCESS object with a readable message and `records` absent or an array of readable records, and then it is those records |
| Porkbun.FetchIpv4RecordsResult | src/lib.rs:206-247 | a transport failure is `Request`; Ok exactly when the reply is a SUCCESS object with a readable message and `records` absent or an array of readable A records, and then it is those records |
| Porkbun.CreateRecordResult | src/lib.rs:275-311 | a transport failure is `Request`; Ok exactly when the reply is a SUCCESS object with a readable message and an `id` that is absent, null or a 32-bit number, and then it is that optional id |
| Porkbun.EditIpv4AddressResult | src/lib.rs:334-370 | a transport failure is `Request`; a received text goes through the envelope rule with no payload field, so text that is not a readable envelope is `MalformedApi` of that text; Ok exactly when the reply is a SUCCESS object with a readable message; ERROR with a readable message gives `Api` of it; any other failure on a received text is `MalformedApi` of that text |
| Porkbun.EditIgnoresOtherMembers | src/lib.rs:334-339 | an edit's result depends only on `status` and `message`: Ok on SUCCESS, `Api(message)` on ERROR, whatever other members the reply has |
| Porkbun.PingWithAddress | src/lib.rs:152-153 | a SUCCESS ping whose `yourIp` reads as an address gives `Ok(Some(address))` |
| Porkbun.PingWithoutAddress | src/lib.rs:152-153 | a SUCCESS ping with no `yourIp` gives `Ok(None)` |
| Porkbun.FetchWithoutRecords | src/lib.rs:222-223 | a SUCCESS fetch with no `records` gives the empty list, for both fetches |
| Porkbun.FetchIpv4RecordsReads | src/lib.rs:218-242 | a SUCCESS A-record fetch whose `records` elements each read as a record gives exactly those records, in order |
| Porkbun.FetchedRecordsMirrorArray | src/lib.rs:170-198 | fetched records match the `records` array one to one, in order, each record being exactly what its element reads as |
| Porkbun.CreateReturnsId | src/lib.rs:306-307 | a SUCCESS create with a 32-bit `id` returns that id |
| Ddns.TargetName | ddns/src/main.rs:35-38 | the target is the subdomain when one is given, else the domain |
| Ddns.FindNamed | ddns/src/main.rs:40 | finds nothing exactly when no record has the name; otherwise the position of a record with that name, before which none has it |
| Ddns.FindNamedIsFirstOfNamed | ddns/src/main.rs:40 | against a filter of all records with the name: nothing found exactly when the filter is empty, else the filter's first element |
| Ddns.FindNamedIgnoresLater | ddns/src/main.rs:40 | appending records after a match does not change what is found |
| Ddns.MatchesPreviousIpv4 | ddns/src/main.rs:28-49 | a fetch error is passed on unchanged; otherwise the answer is `None` exactly when no record's name equals the target |
| Ddns.FirstNamedDecides | ddns/src/main.rs:40-45 | with the first record named after the target at i, the answer is `Some(records[i].address == address)` |
| Ddns.LaterDuplicatesIgnored | ddns/src/main.rs:40-45 | once a record matches, records added after the list do not change the answer |
| Ddns.NoSuffixMatching | ddns/src/main.rs:40 | the target "www.example.com" does not match a record named "example.com" |
| Ddns.ReconcileExamples | ddns/src/main.rs:40-48 | the same address gives Some(true), a different one Some(false), an empty list None |
| Ddns.RunOnce | ddns/src/main.rs:51-104 | once the command line has parsed, the exit code is 0 or 1, and a write is only ever the third and last call |
| Ddns.KeyFileFailureExitsOne | ddns/src/main.rs:56-59 | a key-file failure exits 1 before any call |
| Ddns.PingFailureExitsOne | ddns/src/main.rs:60-66 | a failed ping, or one without an address, exits 1 after the ping alone, with no fetch |
| Ddns.FetchFailureExitsZero | ddns/src/main.rs:100-102 | a failed fetch makes no write and exits 0 |
| Ddns.UnchangedWritesNothing | ddns/src/main.rs:69-74 | a matching published address makes no write and exits 0 |
| Ddns.StaleIsEdited | ddns/src/main.rs:75-84 | a different published address makes exactly one edit, with the observed address; exit 1 exactly when it fails |
| Ddns.AbsentIsCreated | ddns/src/main.rs:85-99 | no record for the target makes exactly one create: type A, name the subdomain, content the address text, no ttl or prio; exit 1 exactly when it fails |
| Ddns.ExitCodeOne | ddns/src/main.rs:51-104 | exit 1 exactly when the keys, the ping or the address are missing, or the one write attempted fails |
| Ddns.WriteCarriesObservedAddress | ddns/src/main.rs:76-92 | whichever write is made posts the observed address's text as content, with type "A" and the client's keys, an edit to the configured domain and subdomain's name-type URL and a create to the configured domain's create URL |

## Left out

- HTTP transport (reqwest's `send` and `text`): network I/O. A request is the value that would be posted. A reply is the text received, or a transport failure.
- JSON lexing and parsing (serde_json): foreign code. It is a parameter that yields a JSON value or nothing. Objects are maps, so a member name occurs at most once. The derived deserializers reject a text that repeats a declared field (`status`, `message`, the payload field, a record field) but ignore repeated unknown members; one reader parameter cannot express both, so repeated members are not modelled. Numbers are integers; floating-point numbers are not modelled.
- serde also accepts a struct given as a JSON array (positional form) and a unit enum variant given as `{"SUCCESS": null}`. The model reads only the object form and the string form.
- The `serde_json::Error` values inside `Json` and `MalformedApi`, and the foreign errors inside `Io` and `Request`: only the error kind, and the response text, are kept.
- Serializing a request body to JSON text: a body is its list of members in field order. The `Json` error that `to_string` could raise is not modelled.
- Reading the key file from disk: file I/O. The model takes its content, or `None` when it cannot be read.
- `Ipv4Addr` parsing and `Display`: standard-library formatting. Both are parameters.
- Ddns.MatchesPreviousIpv4: takes the result of the A-record fetch as an argument instead of making the call. `Ddns.RunOnce` records the fetch call, with domain and subdomain, in its trace.
- `tracing` log lines, `thiserror` message texts and the `silent` flag: they only affect log output.
- clap argument parsing (`Cli::parse()`): the model starts from the parsed domain and subdomain (`Config`). A command line clap rejects ends the process with clap's own status (2, or 0 for `--help` and `--version`) before any modelled step.
- IPv6 handling and counting failures over several address families: the code has neither.
