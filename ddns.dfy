/**
  The `ddns` driver: it asks the provider which IPv4 address it sees, compares
  it with the A record currently published for the configured name, and then
  does nothing, edits that record, or creates one. Each library call is
  represented by the result the library returns for it, so the driver is a
  function from those results to the calls it makes and its exit code.
*/
module Ddns {
  import opened Wrappers
  import opened Wire
  import opened Serde
  import opened Porkbun

  /** The command line: the domain and the optional subdomain. The key-file
      path and the `silent` flag are not modelled. */
  datatype Config = Config(domain: string, subdomain: Option<string>)

  /** The record name to look for: the subdomain when given, else the domain. */
  function TargetName(cfg: Config): (name: string)
    ensures cfg.subdomain.Some? ==> name == cfg.subdomain.value
    ensures cfg.subdomain.None? ==> name == cfg.domain
  {
    cfg.subdomain.GetOr(cfg.domain)
  }

  /** The position of the first record named exactly `name` (the element the
      iterator's `find` yields), or `None` when no record has that name. */
  function FindNamed(records: seq<Ipv4Record>, name: string): (r: Option<nat>)
    ensures r.None? <==> forall i :: 0 <= i < |records| ==> records[i].name != name
    ensures r.Some? ==> r.value < |records| && records[r.value].name == name
    ensures r.Some? ==> forall j :: 0 <= j < r.value ==> records[j].name != name
    decreases |records|
  {
    if records == [] then None
    else if records[0].name == name then Some(0)
    else
      match FindNamed(records[1..], name)
      case None =>
        assert forall i :: 1 <= i < |records| ==> records[i] == records[1..][i - 1];
        None
      case Some(k) =>
        assert records[k + 1] == records[1..][k];
        assert forall j :: 1 <= j < k + 1 ==> records[j] == records[1..][j - 1];
        Some(k + 1)
  }

  /** Reference definition: every record named `name`, in order. */
  function Named(records: seq<Ipv4Record>, name: string): seq<Ipv4Record>
    decreases |records|
  {
    if records == [] then []
    else if records[0].name == name then [records[0]] + Named(records[1..], name)
    else Named(records[1..], name)
  }

  /** `FindNamed` finds nothing exactly when no record is named `name`, and
      otherwise finds the first of the records so named. */
  lemma {:induction false} FindNamedIsFirstOfNamed(records: seq<Ipv4Record>, name: string)
    ensures FindNamed(records, name).None? <==> Named(records, name) == []
    ensures FindNamed(records, name).Some? ==> records[FindNamed(records, name).value] == Named(records, name)[0]
    decreases |records|
  {
    if records != [] {
      FindNamedIsFirstOfNamed(records[1..], name);
    }
  }

  /** Records after the first match do not change what is found. */
  lemma {:induction false} FindNamedIgnoresLater(records: seq<Ipv4Record>, later: seq<Ipv4Record>, name: string)
    requires FindNamed(records, name).Some?
    ensures FindNamed(records + later, name) == FindNamed(records, name)
    decreases |records|
  {
    if records[0].name != name {
      assert (records + later)[1..] == records[1..] + later;
      FindNamedIgnoresLater(records[1..], later, name);
    }
  }

  /** `matches_previous_ipv4`, given what the A-record fetch returned: the fetch
      error, or whether the first record named after the target carries the
      observed address (`None` when there is no such record). */
  function MatchesPreviousIpv4(fetched: Result<seq<Ipv4Record>, Error>, cfg: Config, address: Ipv4Addr): (r: Result<Option<bool>, Error>)
    ensures fetched.Err? <==> r.Err?
    ensures fetched.Err? ==> r.error == fetched.error
    ensures fetched.Ok? ==> (r.value.None? <==> forall i :: 0 <= i < |fetched.value| ==> fetched.value[i].name != TargetName(cfg))
  {
    match fetched
    case Err(e) => Err(e)
    case Ok(records) =>
      match FindNamed(records, TargetName(cfg))
      case None => Ok(None)
      case Some(i) => Ok(Some(records[i].address == address))
  }

  /** With a first record named after the target at position `i`, the answer
      is whether that record's address equals the observed one. */
  lemma FirstNamedDecides(records: seq<Ipv4Record>, cfg: Config, address: Ipv4Addr, i: nat)
    requires i < |records| && records[i].name == TargetName(cfg)
    requires forall j :: 0 <= j < i ==> records[j].name != TargetName(cfg)
    ensures MatchesPreviousIpv4(Ok(records), cfg, address) == Ok(Some(records[i].address == address))
  {
    var k := FindNamed(records, TargetName(cfg)).value;
    assert !(k < i) && !(i < k);
  }

  /** Duplicates after the first matching record have no effect. */
  lemma LaterDuplicatesIgnored(records: seq<Ipv4Record>, later: seq<Ipv4Record>, cfg: Config, address: Ipv4Addr)
    requires exists i :: 0 <= i < |records| && records[i].name == TargetName(cfg)
    ensures MatchesPreviousIpv4(Ok(records + later), cfg, address) == MatchesPreviousIpv4(Ok(records), cfg, address)
  {
    FindNamedIgnoresLater(records, later, TargetName(cfg));
  }

  /** Names match exactly: a subdomain-qualified target does not match a
      record for the bare domain. */
  lemma NoSuffixMatching(address: Ipv4Addr, published: Ipv4Addr)
    ensures var rec := Ipv4Record("1", "example.com", published, "600", "0", None);
      MatchesPreviousIpv4(Ok([rec]), Config("example.com", Some("www.example.com")), address) == Ok(None)
  {
    var rec := Ipv4Record("1", "example.com", published, "600", "0", None);
    assert "example.com" != "www.example.com" by {
      assert |"example.com"| != |"www.example.com"|;
    }
  }

  /** The three outcomes on one published record for the bare domain. */
  lemma ReconcileExamples()
    ensures var cfg := Config("example.com", None);
      var rec := Ipv4Record("1", "example.com", Ipv4Addr(1, 2, 3, 4), "600", "0", None);
      && MatchesPreviousIpv4(Ok([rec]), cfg, Ipv4Addr(1, 2, 3, 4)) == Ok(Some(true))
      && MatchesPreviousIpv4(Ok([rec]), cfg, Ipv4Addr(5, 6, 7, 8)) == Ok(Some(false))
      && MatchesPreviousIpv4(Ok([]), cfg, Ipv4Addr(1, 2, 3, 4)) == Ok(None)
  {
  }

  // ---------------------------------------------------------------------
  // The driver
  // ---------------------------------------------------------------------

  /** A network call the driver makes, with the arguments it passes. */
  datatype Call =
    | PingIpv4
    | FetchIpv4Records(domain: string, subdomain: Option<string>)
    | EditIpv4Address(domain: string, subdomain: Option<string>, address: Ipv4Addr)
    | CreateRecord(domain: string, name: Option<string>, ty: RecordType, content: string,
                   ttl: Option<string>, prio: Option<string>)
  {
    predicate IsWrite() { EditIpv4Address? || CreateRecord? }
  }

  /** The calls made, in order, and the process exit code. */
  datatype Run = Run(calls: seq<Call>, exitCode: int)

  /** `main`. Each result argument is what the library returns for that call
      if it is made: `keys` for the key file, `pinged` for the IPv4 ping,
      `fetched` for the A-record fetch, `edited` and `created` for the writes.
      `showAddr` is the address's text form. */
  function RunOnce(cfg: Config, keys: Result<Client, Error>, pinged: Result<Option<Ipv4Addr>, Error>,
                fetched: Result<seq<Ipv4Record>, Error>, edited: Result<(), Error>,
                created: Result<Option<U32>, Error>, showAddr: Ipv4Addr -> string): (run: Run)
    ensures run.exitCode == 0 || run.exitCode == 1
    ensures forall i :: 0 <= i < |run.calls| && run.calls[i].IsWrite() ==> i == |run.calls| - 1 == 2
  {
    if keys.Err? then Run([], 1)
    else if pinged.Err? then Run([PingIpv4], 1)
    else if pinged.value.None? then Run([PingIpv4], 1)
    else
      var ip := pinged.value.value;
      var looked := [PingIpv4, FetchIpv4Records(cfg.domain, cfg.subdomain)];
      match MatchesPreviousIpv4(fetched, cfg, ip)
      case Ok(Some(true)) => Run(looked, 0)
      case Ok(Some(false)) =>
        Run(looked + [EditIpv4Address(cfg.domain, cfg.subdomain, ip)], if edited.Err? then 1 else 0)
      case Ok(None) =>
        Run(looked + [CreateRecord(cfg.domain, cfg.subdomain, A, showAddr(ip), None, None)],
            if created.Err? then 1 else 0)
      case Err(_) => Run(looked, 0)
  }

  /** A key file that cannot be opened ends the run with 1 before any call. */
  lemma KeyFileFailureExitsOne(cfg: Config, keys: Result<Client, Error>, pinged: Result<Option<Ipv4Addr>, Error>,
                               fetched: Result<seq<Ipv4Record>, Error>, edited: Result<(), Error>,
                               created: Result<Option<U32>, Error>, showAddr: Ipv4Addr -> string)
    requires keys.Err?
    ensures RunOnce(cfg, keys, pinged, fetched, edited, created, showAddr) == Run([], 1)
  {
  }

  /** A failed ping, or a ping without an address, ends the run with 1 and
      nothing is fetched. */
  lemma PingFailureExitsOne(cfg: Config, keys: Result<Client, Error>, pinged: Result<Option<Ipv4Addr>, Error>,
                            fetched: Result<seq<Ipv4Record>, Error>, edited: Result<(), Error>,
                            created: Result<Option<U32>, Error>, showAddr: Ipv4Addr -> string)
    requires keys.Ok?
    requires pinged.Err? || pinged == Ok(None)
    ensures RunOnce(cfg, keys, pinged, fetched, edited, created, showAddr) == Run([PingIpv4], 1)
  {
  }

  /** A failed record fetch is only reported: no write, exit code 0. */
  lemma FetchFailureExitsZero(cfg: Config, keys: Result<Client, Error>, ip: Ipv4Addr, e: Error,
                              edited: Result<(), Error>, created: Result<Option<U32>, Error>,
                              showAddr: Ipv4Addr -> string)
    requires keys.Ok?
    ensures RunOnce(cfg, keys, Ok(Some(ip)), Err(e), edited, created, showAddr)
         == Run([PingIpv4, FetchIpv4Records(cfg.domain, cfg.subdomain)], 0)
  {
  }

  /** A published address equal to the observed one: no write, exit code 0. */
  lemma UnchangedWritesNothing(cfg: Config, keys: Result<Client, Error>, ip: Ipv4Addr,
                               records: seq<Ipv4Record>, i: nat, edited: Result<(), Error>,
                               created: Result<Option<U32>, Error>, showAddr: Ipv4Addr -> string)
    requires keys.Ok?
    requires i < |records| && records[i].name == TargetName(cfg) && records[i].address == ip
    requires forall j :: 0 <= j < i ==> records[j].name != TargetName(cfg)
    ensures RunOnce(cfg, keys, Ok(Some(ip)), Ok(records), edited, created, showAddr)
         == Run([PingIpv4, FetchIpv4Records(cfg.domain, cfg.subdomain)], 0)
  {
    FirstNamedDecides(records, cfg, ip, i);
  }

  /** A published address that differs: exactly one edit, with the observed
      address; exit code 1 exactly when the edit fails. */
  lemma StaleIsEdited(cfg: Config, keys: Result<Client, Error>, ip: Ipv4Addr,
                      records: seq<Ipv4Record>, i: nat, edited: Result<(), Error>,
                      created: Result<Option<U32>, Error>, showAddr: Ipv4Addr -> string)
    requires keys.Ok?
    requires i < |records| && records[i].name == TargetName(cfg) && records[i].address != ip
    requires forall j :: 0 <= j < i ==> records[j].name != TargetName(cfg)
    ensures RunOnce(cfg, keys, Ok(Some(ip)), Ok(records), edited, created, showAddr)
         == Run([PingIpv4, FetchIpv4Records(cfg.domain, cfg.subdomain), EditIpv4Address(cfg.domain, cfg.subdomain, ip)],
                if edited.Err? then 1 else 0)
  {
    FirstNamedDecides(records, cfg, ip, i);
  }

  /** No record named after the target: exactly one create of an A record
      named after the subdomain, holding the address's text, with the
      provider's default ttl and priority; exit code 1 exactly when it fails. */
  lemma AbsentIsCreated(cfg: Config, keys: Result<Client, Error>, ip: Ipv4Addr,
                        records: seq<Ipv4Record>, edited: Result<(), Error>,
                        created: Result<Option<U32>, Error>, showAddr: Ipv4Addr -> string)
    requires keys.Ok?
    requires forall j :: 0 <= j < |records| ==> records[j].name != TargetName(cfg)
    ensures RunOnce(cfg, keys, Ok(Some(ip)), Ok(records), edited, created, showAddr)
         == Run([PingIpv4, FetchIpv4Records(cfg.domain, cfg.subdomain),
                 CreateRecord(cfg.domain, cfg.subdomain, A, showAddr(ip), None, None)],
                if created.Err? then 1 else 0)
  {
  }

  /** The exit code is 1 exactly when opening the keys fails, the ping fails
      or yields no address, or the one write that was attempted fails. */
  lemma ExitCodeOne(cfg: Config, keys: Result<Client, Error>, pinged: Result<Option<Ipv4Addr>, Error>,
                    fetched: Result<seq<Ipv4Record>, Error>, edited: Result<(), Error>,
                    created: Result<Option<U32>, Error>, showAddr: Ipv4Addr -> string)
    ensures var run := RunOnce(cfg, keys, pinged, fetched, edited, created, showAddr);
      run.exitCode == 1 <==>
        || keys.Err? || pinged.Err? || pinged == Ok(None)
        || (exists i :: 0 <= i < |run.calls| && run.calls[i].EditIpv4Address? && edited.Err?)
        || (exists i :: 0 <= i < |run.calls| && run.calls[i].CreateRecord? && created.Err?)
  {
    var run := RunOnce(cfg, keys, pinged, fetched, edited, created, showAddr);
    if |run.calls| == 3 {
      assert run.calls[2].IsWrite();
    }
  }

  /** The request a call sends, for the client `c`. */
  function RequestOf(c: Client, call: Call, showAddr: Ipv4Addr -> string): Request
  {
    match call
    case PingIpv4 => PingIpv4Request(c)
    case FetchIpv4Records(domain, subdomain) => FetchIpv4RecordsRequest(c, domain, subdomain)
    case EditIpv4Address(domain, subdomain, address) => EditIpv4AddressRequest(c, domain, subdomain, address, showAddr)
    case CreateRecord(domain, name, ty, content, ttl, prio) => CreateRecordRequest(c, domain, name, ty, content, ttl, prio)
  }

  /** Whichever write the driver makes, it posts the observed address's text
      as `content`, with type "A" and the client's keys: an edit to the
      name-type URL of the configured domain and subdomain, a create to the
      create URL of the configured domain. */
  lemma WriteCarriesObservedAddress(cfg: Config, c: Client, ip: Ipv4Addr, fetched: Result<seq<Ipv4Record>, Error>,
                                    edited: Result<(), Error>, created: Result<Option<U32>, Error>,
                                    showAddr: Ipv4Addr -> string)
    ensures var run := RunOnce(cfg, Ok(c), Ok(Some(ip)), fetched, edited, created, showAddr);
      forall i :: 0 <= i < |run.calls| && run.calls[i].IsWrite() ==>
        var req := RequestOf(c, run.calls[i], showAddr);
        var fs := req.body.fields;
        && req.url == (if run.calls[i].EditIpv4Address?
                       then "https://api.porkbun.com/api/json/v3/dns/editByNameType/" + cfg.domain + "/A/" + cfg.subdomain.GetOr("")
                       else "https://api.porkbun.com/api/json/v3/dns/create/" + cfg.domain)
        && Field(fs, "content") == Some(Str(showAddr(ip)))
        && Field(fs, "type") == Some(Str("A"))
        && Field(fs, "apikey") == Some(Str(c.apiKey))
        && Field(fs, "secretapikey") == Some(Str(c.secretApiKey))
  {
    var run := RunOnce(cfg, Ok(c), Ok(Some(ip)), fetched, edited, created, showAddr);
    if |run.calls| == 3 {
      assert run.calls[2].IsWrite();
    }
  }
}
