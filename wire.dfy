/**
  The wire vocabulary of the porkbun JSON protocol: the envelope status, the
  twelve DNS record types and their literal names, and the fixed-width values
  (IPv4 addresses, 32-bit record ids) that travel in requests and responses.
*/
module Wire {
  import opened Wrappers

  /** `status` of every response envelope. */
  datatype Status = Success | Error

  function StatusName(s: Status): string
  {
    match s
    case Success => "SUCCESS"
    case Error => "ERROR"
  }

  /** Reads a status literal; every other string is rejected. */
  function ParseStatus(w: string): (r: Option<Status>)
    ensures r.Some? <==> w == "SUCCESS" || w == "ERROR"
    ensures r.Some? ==> StatusName(r.value) == w
  {
    if w == "SUCCESS" then Some(Success)
    else if w == "ERROR" then Some(Error)
    else None
  }

  lemma StatusRoundTrip(s: Status)
    ensures ParseStatus(StatusName(s)) == Some(s)
    ensures StatusName(s) == "SUCCESS" || StatusName(s) == "ERROR"
  {
  }

  lemma StatusNameInjective(s: Status, t: Status)
    ensures StatusName(s) == StatusName(t) <==> s == t
  {
  }

  /** Record types the provider knows, in declaration order. */
  datatype RecordType = A | Mx | Cname | Alias | Txt | Ns | Aaaa | Srv | Tlsa | Caa | Https | Svcb

  function TypeName(t: RecordType): string
  {
    match t
    case A => "A"
    case Mx => "MX"
    case Cname => "CNAME"
    case Alias => "ALIAS"
    case Txt => "TXT"
    case Ns => "NS"
    case Aaaa => "AAAA"
    case Srv => "SRV"
    case Tlsa => "TLSA"
    case Caa => "CAA"
    case Https => "HTTPS"
    case Svcb => "SVCB"
  }

  /** Every variant, once each, in declaration order. */
  const AllRecordTypes: seq<RecordType> :=
    [A, Mx, Cname, Alias, Txt, Ns, Aaaa, Srv, Tlsa, Caa, Https, Svcb]

  /** Reads a record-type literal: exact, case-sensitive match on the twelve names. */
  function ParseRecordType(w: string): (r: Option<RecordType>)
    ensures r.Some? ==> TypeName(r.value) == w
    ensures r.None? ==> forall t :: TypeName(t) != w
  {
    match w
    case "A" => Some(A)
    case "MX" => Some(Mx)
    case "CNAME" => Some(Cname)
    case "ALIAS" => Some(Alias)
    case "TXT" => Some(Txt)
    case "NS" => Some(Ns)
    case "AAAA" => Some(Aaaa)
    case "SRV" => Some(Srv)
    case "TLSA" => Some(Tlsa)
    case "CAA" => Some(Caa)
    case "HTTPS" => Some(Https)
    case "SVCB" => Some(Svcb)
    case _ => None
  }

  lemma RecordTypeRoundTrip(t: RecordType)
    ensures ParseRecordType(TypeName(t)) == Some(t)
  {
  }

  /** Distinct variants have distinct wire names. */
  lemma TypeNameInjective(s: RecordType, t: RecordType)
    ensures TypeName(s) == TypeName(t) <==> s == t
  {
    RecordTypeRoundTrip(s);
    RecordTypeRoundTrip(t);
  }

  lemma AllRecordTypesComplete(t: RecordType)
    ensures t in AllRecordTypes
    ensures |AllRecordTypes| == 12
  {
  }

  /** The wire names of the twelve variants are twelve different strings. */
  lemma TwelveDistinctNames(i: nat, j: nat)
    requires i < j < |AllRecordTypes|
    ensures TypeName(AllRecordTypes[i]) != TypeName(AllRecordTypes[j])
  {
    TypeNameInjective(AllRecordTypes[i], AllRecordTypes[j]);
  }

  newtype Byte = b: int | 0 <= b < 0x100

  /** An IPv4 address: four octets, compared by value. */
  datatype Ipv4Addr = Ipv4Addr(o0: Byte, o1: Byte, o2: Byte, o3: Byte)

  /** A record id as the provider returns it from a create call. */
  newtype U32 = n: int | 0 <= n < 0x1_0000_0000
}
