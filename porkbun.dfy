/**
  The porkbun client library: its error kinds, the one rule by which every
  endpoint turns a response envelope into a result, the credentials a client
  holds, and, per endpoint, the request it sends and the result it makes of
  the reply. Sending and receiving are network I/O and are not modelled: a
  request is the value that would be posted, and a reply is the text that came
  back or a transport failure.
*/
module Porkbun {
  import opened Wrappers
  import opened Wire
  import opened Serde

  /** The library's error kinds; the foreign error objects inside `Io`,
      `Request` and `Json` are not modelled. */
  datatype Error =
    | Io
    | Request
    | Json
    | Api(message: string)
    | MalformedApi(response: string)

  /** Every record of a domain, of any type. */
  datatype DnsRecord = DnsRecord(
    id: string, name: string, ty: RecordType, content: string,
    ttl: string, prio: string, notes: Option<string>)

  /** An A record, whose `content` is read as an IPv4 address. */
  datatype Ipv4Record = Ipv4Record(
    id: string, name: string, address: Ipv4Addr,
    ttl: string, prio: string, notes: Option<string>)

  /** A record object: `id`, `name`, `content`, `ttl` and `prio` are strings,
      `type` is one of the twelve names, `notes` is absent, null or a string;
      other members are ignored. */
  function ReadDnsRecord(v: JsonValue): (r: Option<DnsRecord>)
    ensures r.Some? <==>
      && v.Object?
      && RequiredString(v.members, "id").Some?
      && RequiredString(v.members, "name").Some?
      && "type" in v.members && ReadRecordType(v.members["type"]).Some?
      && RequiredString(v.members, "content").Some?
      && RequiredString(v.members, "ttl").Some?
      && RequiredString(v.members, "prio").Some?
      && OptionalString(v.members, "notes").Some?
    ensures r.Some? ==>
      var m := v.members;
      && Some(r.value.id) == RequiredString(m, "id")
      && Some(r.value.name) == RequiredString(m, "name")
      && Some(r.value.ty) == ReadRecordType(m["type"])
      && Some(r.value.content) == RequiredString(m, "content")
      && Some(r.value.ttl) == RequiredString(m, "ttl")
      && Some(r.value.prio) == RequiredString(m, "prio")
      && Some(r.value.notes) == OptionalString(m, "notes")
  {
    match v
    case Object(m) =>
      var ty := if "type" in m then ReadRecordType(m["type"]) else None;
      (match (RequiredString(m, "id"), RequiredString(m, "name"), ty, RequiredString(m, "content"),
              RequiredString(m, "ttl"), RequiredString(m, "prio"), OptionalString(m, "notes"))
       case (Some(id), Some(name), Some(t), Some(content), Some(ttl), Some(prio), Some(notes)) =>
         Some(DnsRecord(id, name, t, content, ttl, prio, notes))
       case _ => None)
    case _ => None
  }

  /** An A-record object: as a record object, but `content` must read as an
      IPv4 address and there is no `type` member to read. */
  function ReadIpv4Record(v: JsonValue, readAddr: AddrReader): (r: Option<Ipv4Record>)
    ensures r.Some? <==>
      && v.Object?
      && RequiredString(v.members, "id").Some?
      && RequiredString(v.members, "name").Some?
      && "content" in v.members && ReadIpv4(v.members["content"], readAddr).Some?
      && RequiredString(v.members, "ttl").Some?
      && RequiredString(v.members, "prio").Some?
      && OptionalString(v.members, "notes").Some?
    ensures r.Some? ==>
      var m := v.members;
      && Some(r.value.id) == RequiredString(m, "id")
      && Some(r.value.name) == RequiredString(m, "name")
      && Some(r.value.address) == ReadIpv4(m["content"], readAddr)
      && Some(r.value.ttl) == RequiredString(m, "ttl")
      && Some(r.value.prio) == RequiredString(m, "prio")
      && Some(r.value.notes) == OptionalString(m, "notes")
  {
    match v
    case Object(m) =>
      var address := if "content" in m then ReadIpv4(m["content"], readAddr) else None;
      (match (RequiredString(m, "id"), RequiredString(m, "name"), address,
              RequiredString(m, "ttl"), RequiredString(m, "prio"), OptionalString(m, "notes"))
       case (Some(id), Some(name), Some(a), Some(ttl), Some(prio), Some(notes)) =>
         Some(Ipv4Record(id, name, a, ttl, prio, notes))
       case _ => None)
    case _ => None
  }

  // ---------------------------------------------------------------------
  // The response envelope and the shared status-to-result rule
  // ---------------------------------------------------------------------

  /** A decoded response: `status`, `message` (defaulted to ""), and the
      endpoint's payload field. */
  datatype Envelope<P> = Envelope(status: Status, message: string, payload: P)

  /** The derived deserializer of an endpoint's response struct; `payload`
      reads the endpoint's own payload field from the object's members. */
  function ReadEnvelope<P>(v: JsonValue, payload: Members -> Option<P>): (r: Option<Envelope<P>>)
    ensures r.Some? <==> v.Object? && ReadStatus(v.members).Some? && DefaultString(v.members, "message").Some? && payload(v.members).Some?
    ensures r.Some? ==> r.value.payload == payload(v.members).value && r.value.message == DefaultString(v.members, "message").value
    ensures r.Some? ==> v.members["status"] == Str(StatusName(r.value.status))
  {
    match v
    case Object(m) =>
      (match (ReadStatus(m), DefaultString(m, "message"), payload(m))
       case (Some(s), Some(msg), Some(p)) => Some(Envelope(s, msg, p))
       case _ => None)
    case _ => None
  }

  /** The envelope of a response text, if the text reads as one. */
  function Parse<P>(text: string, readJson: JsonReader, payload: Members -> Option<P>): Option<Envelope<P>>
  {
    match readJson(text)
    case Some(v) => ReadEnvelope(v, payload)
    case None => None
  }

  /** The rule every endpoint applies to its response text: a text that does
      not read as the endpoint's envelope is `MalformedApi` carrying the text;
      otherwise SUCCESS gives the payload and ERROR gives the message. */
  function Respond<P>(text: string, readJson: JsonReader, payload: Members -> Option<P>): (r: Result<P, Error>)
    ensures r.Ok? || r.error.Api? || r.error == MalformedApi(text)
    ensures r == Err(MalformedApi(text)) <==> Parse(text, readJson, payload).None?
    ensures r.Ok? <==> Parse(text, readJson, payload).Some? && Parse(text, readJson, payload).value.status == Success
  {
    match Parse(text, readJson, payload)
    case None => Err(MalformedApi(text))
    case Some(e) =>
      match e.status
      case Success => Ok(e.payload)
      case Error => Err(Api(e.message))
  }

  /** Text that is not JSON at all is malformed, and the error keeps the text. */
  lemma UnreadableIsMalformed<P>(text: string, readJson: JsonReader, payload: Members -> Option<P>)
    requires readJson(text).None?
    ensures Respond(text, readJson, payload) == Err(MalformedApi(text))
  {
  }

  /** A missing status, or any status other than the two literals, is malformed. */
  lemma UnknownStatusIsMalformed<P>(text: string, readJson: JsonReader, payload: Members -> Option<P>, m: Members)
    requires readJson(text) == Some(Object(m))
    requires "status" !in m || m["status"] !in {Str("SUCCESS"), Str("ERROR")}
    ensures Respond(text, readJson, payload) == Err(MalformedApi(text))
  {
  }

  /** SUCCESS returns the payload field as read, unchanged. */
  lemma SuccessGivesPayload<P>(text: string, readJson: JsonReader, payload: Members -> Option<P>, m: Members, p: P)
    requires readJson(text) == Some(Object(m))
    requires "status" in m && m["status"] == Str("SUCCESS")
    requires "message" !in m || m["message"].Str?
    requires payload(m) == Some(p)
    ensures Respond(text, readJson, payload) == Ok(p)
  {
  }

  /** ERROR returns the provider's message verbatim, whatever the payload was. */
  lemma ErrorGivesMessage<P>(text: string, readJson: JsonReader, payload: Members -> Option<P>, m: Members, msg: string)
    requires readJson(text) == Some(Object(m))
    requires "status" in m && m["status"] == Str("ERROR")
    requires "message" in m && m["message"] == Str(msg)
    requires payload(m).Some?
    ensures Respond(text, readJson, payload) == Err(Api(msg))
  {
  }

  /** ERROR without a `message` member is an API error with the empty message,
      not a malformed response. */
  lemma ErrorWithoutMessage<P>(text: string, readJson: JsonReader, payload: Members -> Option<P>, m: Members)
    requires readJson(text) == Some(Object(m))
    requires "status" in m && m["status"] == Str("ERROR")
    requires "message" !in m
    requires payload(m).Some?
    ensures Respond(text, readJson, payload) == Err(Api(""))
  {
  }

  /** The payload field is read even on ERROR: one that does not read makes the
      whole response malformed. */
  lemma ErrorWithBadPayloadIsMalformed<P>(text: string, readJson: JsonReader, payload: Members -> Option<P>, m: Members)
    requires readJson(text) == Some(Object(m))
    requires payload(m).None?
    ensures Respond(text, readJson, payload) == Err(MalformedApi(text))
  {
  }

  /** What came back from one POST. */
  datatype Reply = Received(text: string) | TransportFailed

  /** The members of the reply's top-level object, when a text came back and
      reads as a JSON object. */
  function ReplyObject(reply: Reply, readJson: JsonReader): (r: Option<Members>)
    ensures r.Some? <==> reply.Received? && readJson(reply.text).Some? && readJson(reply.text).value.Object?
    ensures r.Some? ==> readJson(reply.text) == Some(Object(r.value))
  {
    match reply
    case TransportFailed => None
    case Received(text) =>
      match readJson(text)
      case Some(Object(m)) => Some(m)
      case _ => None
  }

  /** The reply is an object whose status is SUCCESS and whose message, if
      present, is a string. */
  predicate Succeeded(reply: Reply, readJson: JsonReader)
  {
    && ReplyObject(reply, readJson).Some?
    && ReadStatus(ReplyObject(reply, readJson).value) == Some(Success)
    && DefaultString(ReplyObject(reply, readJson).value, "message").Some?
  }

  /** One round trip: a transport failure is `Request`, a received text goes
      through the envelope rule. */
  function Exchange<P>(reply: Reply, readJson: JsonReader, payload: Members -> Option<P>): (r: Result<P, Error>)
    ensures reply.TransportFailed? <==> r == Err(Request)
    ensures reply.Received? ==> r == Respond(reply.text, readJson, payload)
    ensures r.Ok? <==> Succeeded(reply, readJson) && payload(ReplyObject(reply, readJson).value).Some?
    ensures r.Ok? ==> Some(r.value) == payload(ReplyObject(reply, readJson).value)
  {
    match reply
    case TransportFailed => Err(Request)
    case Received(text) => Respond(text, readJson, payload)
  }

  // ---------------------------------------------------------------------
  // Credentials
  // ---------------------------------------------------------------------

  /** A client: the key file's text, kept verbatim, and the two keys read
      from it. The HTTP transport it also holds is not modelled. */
  datatype Client = Client(keyFile: string, secretApiKey: string, apiKey: string)

  /** The key file read as JSON: an object with string members `apikey` and
      `secretapikey` (other members are ignored). */
  function ReadKeys(v: JsonValue): (r: Option<(string, string)>)
    ensures r.Some? <==> v.Object? && RequiredString(v.members, "apikey").Some? && RequiredString(v.members, "secretapikey").Some?
    ensures r.Some? ==> v.members["apikey"] == Str(r.value.0) && v.members["secretapikey"] == Str(r.value.1)
  {
    match v
    case Object(m) =>
      (match (RequiredString(m, "apikey"), RequiredString(m, "secretapikey"))
       case (Some(api), Some(secret)) => Some((api, secret))
       case _ => None)
    case _ => None
  }

  /** Opens a key file; `file` is its text, or `None` when it could not be read. */
  function OpenKeys(file: Option<string>, readJson: JsonReader): (r: Result<Client, Error>)
    ensures file.None? <==> r == Err(Io)
    ensures r.Ok? ==> file == Some(r.value.keyFile)
    ensures r.Ok? ==> readJson(r.value.keyFile).Some? && ReadKeys(readJson(r.value.keyFile).value) == Some((r.value.apiKey, r.value.secretApiKey))
    ensures file.Some? && r.Err? ==> r == Err(Json) && (readJson(file.value).None? || ReadKeys(readJson(file.value).value).None?)
  {
    match file
    case None => Err(Io)
    case Some(text) =>
      match readJson(text)
      case None => Err(Json)
      case Some(v) =>
        match ReadKeys(v)
        case None => Err(Json)
        case Some((api, secret)) => Ok(Client(text, secret, api))
  }

  // ---------------------------------------------------------------------
  // Requests
  // ---------------------------------------------------------------------

  /** A request body: the key file's text replayed as is, or a serialized
      struct given as its members in field order. */
  datatype Body = Verbatim(text: string) | Fields(fields: seq<(string, JsonValue)>)

  datatype Request = Post(url: string, body: Body)

  const PingIpv4Url: string := "https://api-ipv4.porkbun.com/api/json/v3/ping"
  const DnsApi: string := "https://api.porkbun.com/api/json/v3/dns/"
  const RetrieveByNameType: string := "retrieveByNameType"
  const EditByNameType: string := "editByNameType"

  function RetrieveUrl(domain: string): string
  {
    DnsApi + "retrieve/" + domain
  }

  function CreateUrl(domain: string): string
  {
    DnsApi + "create/" + domain
  }

  /** `{DnsApi}{endpoint}/{domain}/A/`, the fixed part of a name-type URL. */
  function NameTypePrefix(endpoint: string, domain: string): string
  {
    DnsApi + endpoint + "/" + domain + "/A/"
  }

  /** A name-type URL: the prefix, then the subdomain verbatim (unescaped),
      or nothing when there is none. */
  function NameTypeUrl(endpoint: string, domain: string, subdomain: Option<string>): (url: string)
    ensures var p := NameTypePrefix(endpoint, domain);
      |p| <= |url| && url[..|p|] == p && url[|p|..] == subdomain.GetOr("")
  {
    NameTypePrefix(endpoint, domain) + subdomain.GetOr("")
  }

  /** Builds a name-type URL the way the library does: format the prefix, then
      push the subdomain onto it in place. */
  method BuildNameTypeUrl(endpoint: string, domain: string, subdomain: Option<string>) returns (url: string)
    ensures url == NameTypeUrl(endpoint, domain, subdomain)
    ensures subdomain.None? ==> url == NameTypePrefix(endpoint, domain)
    ensures subdomain.Some? ==> url == NameTypePrefix(endpoint, domain) + subdomain.value
  {
    url := DnsApi + endpoint + "/" + domain + "/A/";
    if subdomain.Some? {
      url := url + subdomain.value;
    }
  }

  /** For one endpoint and domain, two URLs agree exactly when the subdomains
      do, with no subdomain and the empty subdomain giving the same URL. */
  lemma {:induction false} NameTypeUrlDeterminesSubdomain(endpoint: string, domain: string, s1: Option<string>, s2: Option<string>)
    ensures NameTypeUrl(endpoint, domain, s1) == NameTypeUrl(endpoint, domain, s2) <==> s1.GetOr("") == s2.GetOr("")
  {
    var p := NameTypePrefix(endpoint, domain);
    var u1, u2 := NameTypeUrl(endpoint, domain, s1), NameTypeUrl(endpoint, domain, s2);
    if u1 == u2 {
      assert s1.GetOr("") == u1[|p|..] == u2[|p|..] == s2.GetOr("");
    }
  }

  /** Domains without a slash are told apart by their name-type URLs. */
  lemma {:induction false} NameTypeUrlDeterminesDomain(endpoint: string, d1: string, d2: string, s1: Option<string>, s2: Option<string>)
    requires '/' !in d1 && '/' !in d2
    requires NameTypeUrl(endpoint, d1, s1) == NameTypeUrl(endpoint, d2, s2)
    ensures d1 == d2 && s1.GetOr("") == s2.GetOr("")
  {
    var head := DnsApi + endpoint + "/";
    var x1, x2 := "A/" + s1.GetOr(""), "A/" + s2.GetOr("");
    var t1, t2 := d1 + "/" + x1, d2 + "/" + x2;
    var u := NameTypeUrl(endpoint, d1, s1);
    assert u == head + t1 by {
      assert d1 + "/A/" + s1.GetOr("") == t1;
    }
    assert u == head + t2 by {
      assert d2 + "/A/" + s2.GetOr("") == t2;
    }
    assert t1 == u[|head|..] == t2;
    SlashDelimited(d1, d2, x1, x2);
    NameTypeUrlDeterminesSubdomain(endpoint, d1, s1, s2);
  }

  /** A slash-free word followed by a slash is determined by the whole text. */
  lemma SlashDelimited(d1: string, d2: string, x1: string, x2: string)
    requires '/' !in d1 && '/' !in d2
    requires d1 + "/" + x1 == d2 + "/" + x2
    ensures d1 == d2
  {
    var t := d1 + "/" + x1;
    assert t == d2 + "/" + x2;
    assert t[|d1|] == '/' && t[|d2|] == '/';
    assert forall k :: 0 <= k < |d1| ==> t[k] == d1[k];
    assert forall k :: 0 <= k < |d2| ==> t[k] == d2[k];
    assert |d1| == |d2|;
    assert d1 == t[..|d1|] && d2 == t[..|d2|];
  }

  /** An optional string member: `None` serializes as `null`. */
  function OptStr(o: Option<string>): JsonValue
  {
    match o
    case Some(s) => Str(s)
    case None => Null
  }

  /** The value of the first member named `key`. */
  function Field(fields: seq<(string, JsonValue)>, key: string): Option<JsonValue>
    decreases |fields|
  {
    if fields == [] then None
    else if fields[0].0 == key then Some(fields[0].1)
    else Field(fields[1..], key)
  }

  /** A member whose name no earlier member has is what `Field` finds. */
  lemma {:induction false} FieldAt(fields: seq<(string, JsonValue)>, i: nat)
    requires i < |fields|
    requires forall j :: 0 <= j < i ==> fields[j].0 != fields[i].0
    ensures Field(fields, fields[i].0) == Some(fields[i].1)
    decreases i
  {
    if i > 0 {
      assert fields[0].0 != fields[i].0;
      FieldAt(fields[1..], i - 1);
    }
  }

  /** In a body whose member names are pairwise distinct, `Field` finds each member. */
  lemma FieldsDistinct(fields: seq<(string, JsonValue)>)
    requires forall i, j :: 0 <= i < j < |fields| ==> fields[i].0 != fields[j].0
    ensures forall i :: 0 <= i < |fields| ==> Field(fields, fields[i].0) == Some(fields[i].1)
  {
    forall i | 0 <= i < |fields|
      ensures Field(fields, fields[i].0) == Some(fields[i].1)
    {
      FieldAt(fields, i);
    }
  }

  /** The two key members every constructed body starts with. */
  function KeyFields(c: Client): seq<(string, JsonValue)>
  {
    [("secretapikey", Str(c.secretApiKey)), ("apikey", Str(c.apiKey))]
  }

  function PingIpv4Request(c: Client): (r: Request)
    ensures r.url == "https://api-ipv4.porkbun.com/api/json/v3/ping"
    ensures r.body == Verbatim(c.keyFile)
  {
    Post(PingIpv4Url, Verbatim(c.keyFile))
  }

  function FetchRecordsRequest(c: Client, domain: string): (r: Request)
    ensures r.url == "https://api.porkbun.com/api/json/v3/dns/retrieve/" + domain
    ensures r.body == Verbatim(c.keyFile)
  {
    assert DnsApi + "retrieve/" == "https://api.porkbun.com/api/json/v3/dns/retrieve/";
    Post(RetrieveUrl(domain), Verbatim(c.keyFile))
  }

  function FetchIpv4RecordsRequest(c: Client, domain: string, subdomain: Option<string>): (r: Request)
    ensures r.url == "https://api.porkbun.com/api/json/v3/dns/retrieveByNameType/" + domain + "/A/" + subdomain.GetOr("")
    ensures r.body == Verbatim(c.keyFile)
  {
    assert DnsApi + RetrieveByNameType + "/" == "https://api.porkbun.com/api/json/v3/dns/retrieveByNameType/";
    Post(NameTypeUrl(RetrieveByNameType, domain, subdomain), Verbatim(c.keyFile))
  }

  /** The create body: the client's two keys, then every argument unchanged in
      field order, `None` as null. */
  function CreateRecordRequest(c: Client, domain: string, name: Option<string>, ty: RecordType,
                               content: string, ttl: Option<string>, prio: Option<string>): (r: Request)
    ensures r.url == "https://api.porkbun.com/api/json/v3/dns/create/" + domain
    ensures r.body.Fields? && |r.body.fields| == 7
    ensures var fs := r.body.fields;
      && Field(fs, "secretapikey") == Some(Str(c.secretApiKey))
      && Field(fs, "apikey") == Some(Str(c.apiKey))
      && Field(fs, "name") == Some(OptStr(name))
      && Field(fs, "type") == Some(Str(TypeName(ty)))
      && Field(fs, "content") == Some(Str(content))
      && Field(fs, "ttl") == Some(OptStr(ttl))
      && Field(fs, "prio") == Some(OptStr(prio))
  {
    assert DnsApi + "create/" == "https://api.porkbun.com/api/json/v3/dns/create/";
    var fs := KeyFields(c) + [
      ("name", OptStr(name)), ("type", Str(TypeName(ty))), ("content", Str(content)),
      ("ttl", OptStr(ttl)), ("prio", OptStr(prio))];
    assert fs[0].0 == "secretapikey" && fs[1].0 == "apikey" && fs[2].0 == "name" && fs[3].0 == "type"
        && fs[4].0 == "content" && fs[5].0 == "ttl" && fs[6].0 == "prio";
    FieldsDistinct(fs);
    Post(CreateUrl(domain), Fields(fs))
  }

  /** The edit body: the client's two keys, type "A", and the address's text
      form as `content`; `showAddr` is that text form (its `Display`). */
  function EditIpv4AddressRequest(c: Client, domain: string, subdomain: Option<string>,
                                  address: Ipv4Addr, showAddr: Ipv4Addr -> string): (r: Request)
    ensures r.url == "https://api.porkbun.com/api/json/v3/dns/editByNameType/" + domain + "/A/" + subdomain.GetOr("")
    ensures r.body.Fields? && |r.body.fields| == 4
    ensures var fs := r.body.fields;
      && Field(fs, "secretapikey") == Some(Str(c.secretApiKey))
      && Field(fs, "apikey") == Some(Str(c.apiKey))
      && Field(fs, "type") == Some(Str("A"))
      && Field(fs, "content") == Some(Str(showAddr(address)))
  {
    assert DnsApi + EditByNameType + "/" == "https://api.porkbun.com/api/json/v3/dns/editByNameType/";
    var fs := KeyFields(c) + [("type", Str("A")), ("content", Str(showAddr(address)))];
    assert fs[0].0 == "secretapikey" && fs[1].0 == "apikey" && fs[2].0 == "type" && fs[3].0 == "content";
    FieldsDistinct(fs);
    Post(NameTypeUrl(EditByNameType, domain, subdomain), Fields(fs))
  }

  /** Ping and both fetches send the key file's text exactly as it was read. */
  lemma ReadOnlyCallsReplayKeyFile(file: string, readJson: JsonReader, c: Client, domain: string, subdomain: Option<string>)
    requires OpenKeys(Some(file), readJson) == Ok(c)
    ensures PingIpv4Request(c).body == Verbatim(file)
    ensures FetchRecordsRequest(c, domain).body == Verbatim(file)
    ensures FetchIpv4RecordsRequest(c, domain, subdomain).body == Verbatim(file)
  {
  }

  // ---------------------------------------------------------------------
  // Results of each endpoint
  // ---------------------------------------------------------------------

  /** The `yourIp` payload of the ping response. */
  function PingPayload(readAddr: AddrReader): Members -> Option<Option<Ipv4Addr>>
  {
    m => OptionalIpv4(m, "yourIp", readAddr)
  }

  /** The `records` payload of the fetch-all response. */
  const DnsRecordsPayload: Members -> Option<seq<DnsRecord>> :=
    m => DefaultList(m, "records", ReadDnsRecord)

  function Ipv4RecordReader(readAddr: AddrReader): JsonValue -> Option<Ipv4Record>
  {
    v => ReadIpv4Record(v, readAddr)
  }

  /** The `records` payload of the A-record fetch response. */
  function Ipv4RecordsPayload(readAddr: AddrReader): Members -> Option<seq<Ipv4Record>>
  {
    m => DefaultList(m, "records", Ipv4RecordReader(readAddr))
  }

  /** The `id` payload of the create response. */
  const IdPayload: Members -> Option<Option<U32>> := m => OptionalU32(m, "id")

  /** The edit response has no payload field: any object reads as `()`. */
  const NoPayload: Members -> Option<()> := m => Some(())

  /** `ping_ipv4`'s result from its reply. */
  function PingIpv4Result(reply: Reply, readJson: JsonReader, readAddr: AddrReader): (r: Result<Option<Ipv4Addr>, Error>)
    ensures reply.TransportFailed? ==> r == Err(Request)
    ensures reply.Received? ==> r == Respond(reply.text, readJson, PingPayload(readAddr))
    ensures r.Ok? <==> Succeeded(reply, readJson) && OptionalIpv4(ReplyObject(reply, readJson).value, "yourIp", readAddr).Some?
    ensures r.Ok? ==> Some(r.value) == OptionalIpv4(ReplyObject(reply, readJson).value, "yourIp", readAddr)
  {
    Exchange(reply, readJson, PingPayload(readAddr))
  }

  /** `fetch_records`'s result from its reply. */
  function FetchRecordsResult(reply: Reply, readJson: JsonReader): (r: Result<seq<DnsRecord>, Error>)
    ensures reply.TransportFailed? ==> r == Err(Request)
    ensures reply.Received? ==> r == Respond(reply.text, readJson, DnsRecordsPayload)
    ensures r.Ok? <==> Succeeded(reply, readJson) && DefaultList(ReplyObject(reply, readJson).value, "records", ReadDnsRecord).Some?
    ensures r.Ok? ==> Some(r.value) == DefaultList(ReplyObject(reply, readJson).value, "records", ReadDnsRecord)
  {
    Exchange(reply, readJson, DnsRecordsPayload)
  }

  /** `fetch_ipv4_records`'s result from its reply. */
  function FetchIpv4RecordsResult(reply: Reply, readJson: JsonReader, readAddr: AddrReader): (r: Result<seq<Ipv4Record>, Error>)
    ensures reply.TransportFailed? ==> r == Err(Request)
    ensures reply.Received? ==> r == Respond(reply.text, readJson, Ipv4RecordsPayload(readAddr))
    ensures r.Ok? <==> Succeeded(reply, readJson) && DefaultList(ReplyObject(reply, readJson).value, "records", Ipv4RecordReader(readAddr)).Some?
    ensures r.Ok? ==> Some(r.value) == DefaultList(ReplyObject(reply, readJson).value, "records", Ipv4RecordReader(readAddr))
  {
    Exchange(reply, readJson, Ipv4RecordsPayload(readAddr))
  }

  /** `create_record`'s result from its reply. */
  function CreateRecordResult(reply: Reply, readJson: JsonReader): (r: Result<Option<U32>, Error>)
    ensures reply.TransportFailed? ==> r == Err(Request)
    ensures reply.Received? ==> r == Respond(reply.text, readJson, IdPayload)
    ensures r.Ok? <==> Succeeded(reply, readJson) && OptionalU32(ReplyObject(reply, readJson).value, "id").Some?
    ensures r.Ok? ==> Some(r.value) == OptionalU32(ReplyObject(reply, readJson).value, "id")
  {
    Exchange(reply, readJson, IdPayload)
  }

  /** `edit_ipv4_address`'s result from its reply: with no payload field, only
      `status` and `message` matter. */
  function EditIpv4AddressResult(reply: Reply, readJson: JsonReader): (r: Result<(), Error>)
    ensures reply.TransportFailed? ==> r == Err(Request)
    ensures reply.Received? ==> r == Respond(reply.text, readJson, NoPayload)
    ensures r.Ok? <==> Succeeded(reply, readJson)
    ensures ReplyObject(reply, readJson).Some? ==>
      var m := ReplyObject(reply, readJson).value;
      ReadStatus(m) == Some(Error) && DefaultString(m, "message").Some? ==> r == Err(Api(DefaultString(m, "message").value))
    ensures reply.Received? && r.Err? && !r.error.Api? ==> r == Err(MalformedApi(reply.text))
  {
    Exchange(reply, readJson, NoPayload)
  }

  /** Two edit replies whose objects agree on `status` and `message` give the
      same result, whatever other members they carry. */
  lemma EditIgnoresOtherMembers(t1: string, t2: string, readJson: JsonReader, m1: Members, m2: Members)
    requires readJson(t1) == Some(Object(m1)) && readJson(t2) == Some(Object(m2))
    requires ReadStatus(m1).Some? && ReadStatus(m1) == ReadStatus(m2)
    requires DefaultString(m1, "message").Some? && DefaultString(m1, "message") == DefaultString(m2, "message")
    ensures EditIpv4AddressResult(Received(t1), readJson) == EditIpv4AddressResult(Received(t2), readJson)
    ensures EditIpv4AddressResult(Received(t1), readJson)
         == if ReadStatus(m1) == Some(Success) then Ok(()) else Err(Api(DefaultString(m1, "message").value))
  {
  }

  /** A SUCCESS ping without `yourIp` is `Ok(None)`. */
  lemma PingWithoutAddress(text: string, readJson: JsonReader, readAddr: AddrReader, m: Members)
    requires readJson(text) == Some(Object(m))
    requires "status" in m && m["status"] == Str("SUCCESS")
    requires "message" !in m || m["message"].Str?
    requires "yourIp" !in m
    ensures PingIpv4Result(Received(text), readJson, readAddr) == Ok(None)
  {
  }

  /** A SUCCESS ping whose `yourIp` reads as an address gives that address. */
  lemma PingWithAddress(text: string, readJson: JsonReader, readAddr: AddrReader, m: Members, a: Ipv4Addr)
    requires readJson(text) == Some(Object(m))
    requires "status" in m && m["status"] == Str("SUCCESS")
    requires "message" !in m || m["message"].Str?
    requires "yourIp" in m && m["yourIp"].Str? && readAddr(m["yourIp"].s) == Some(a)
    ensures PingIpv4Result(Received(text), readJson, readAddr) == Ok(Some(a))
  {
  }

  /** A SUCCESS fetch without `records` is the empty list. */
  lemma FetchWithoutRecords(text: string, readJson: JsonReader, readAddr: AddrReader, m: Members)
    requires readJson(text) == Some(Object(m))
    requires "status" in m && m["status"] == Str("SUCCESS")
    requires "message" !in m || m["message"].Str?
    requires "records" !in m
    ensures FetchIpv4RecordsResult(Received(text), readJson, readAddr) == Ok([])
    ensures FetchRecordsResult(Received(text), readJson) == Ok([])
  {
  }

  /** A SUCCESS A-record fetch whose `records` array reads element by element
      gives exactly those records, in order. */
  lemma FetchIpv4RecordsReads(text: string, readJson: JsonReader, readAddr: AddrReader, m: Members, rs: seq<Ipv4Record>)
    requires readJson(text) == Some(Object(m))
    requires "status" in m && m["status"] == Str("SUCCESS")
    requires "message" !in m || m["message"].Str?
    requires "records" in m && m["records"].Array?
    requires |rs| == |m["records"].items|
    requires forall i :: 0 <= i < |rs| ==> ReadIpv4Record(m["records"].items[i], readAddr) == Some(rs[i])
    ensures FetchIpv4RecordsResult(Received(text), readJson, readAddr) == Ok(rs)
  {
    var xs := m["records"].items;
    var item := Ipv4RecordReader(readAddr);
    assert forall i :: 0 <= i < |xs| ==> item(xs[i]) == Some(rs[i]);
    var got := ReadAll(xs, item);
    assert got.Some? && |got.value| == |rs|;
    assert forall i :: 0 <= i < |rs| ==> got.value[i] == rs[i];
    assert got.value == rs;
  }

  /** Fetched records are the `records` array read element by element, in
      order, each record being exactly what its element reads as. */
  lemma FetchedRecordsMirrorArray(text: string, readJson: JsonReader, m: Members, rs: seq<DnsRecord>)
    requires readJson(text) == Some(Object(m))
    requires "records" in m
    requires FetchRecordsResult(Received(text), readJson) == Ok(rs)
    ensures m["records"].Array? && |rs| == |m["records"].items|
    ensures forall i :: 0 <= i < |rs| ==> ReadDnsRecord(m["records"].items[i]) == Some(rs[i])
  {
  }

  /** A SUCCESS create returns the `id` member when it is a 32-bit number. */
  lemma CreateReturnsId(text: string, readJson: JsonReader, m: Members, id: U32)
    requires readJson(text) == Some(Object(m))
    requires "status" in m && m["status"] == Str("SUCCESS")
    requires "message" !in m || m["message"].Str?
    requires "id" in m && m["id"] == Number(id as int)
    ensures CreateRecordResult(Received(text), readJson) == Ok(Some(id))
  {
  }
}
