/**
  JSON values as the JSON reader hands them over, and the field rules that
  serde's derived `Deserialize` applies to the structs of the client library:
  a plain field must be present with the right shape, a `#[serde(default)]`
  field falls back to its default only when it is absent, an `Option` field
  reads an absent field or `null` as `None`, and unknown fields are ignored.
  The text-to-value reader itself is foreign code and appears only as a
  function parameter (`JsonReader`).
*/
module Serde {
  import opened Wrappers
  import opened Wire

  /** An object is a map from member name to value; numbers are integers. */
  datatype JsonValue =
    | Null
    | Bool(b: bool)
    | Number(n: int)
    | Str(s: string)
    | Array(items: seq<JsonValue>)
    | Object(members: map<string, JsonValue>)

  /** The foreign JSON text reader: `None` when the text is not JSON. */
  type JsonReader = string -> Option<JsonValue>

  /** The foreign `Ipv4Addr` text reader: `None` when the text is not an address. */
  type AddrReader = string -> Option<Ipv4Addr>

  type Members = map<string, JsonValue>

  /** A required `String` field. */
  function RequiredString(m: Members, key: string): (r: Option<string>)
    ensures r.Some? <==> key in m && m[key].Str?
    ensures r.Some? ==> m[key] == Str(r.value)
  {
    if key in m && m[key].Str? then Some(m[key].s) else None
  }

  /** A `#[serde(default)]` `String` field: "" when absent, but `null` is rejected. */
  function DefaultString(m: Members, key: string): (r: Option<string>)
    ensures key !in m ==> r == Some("")
    ensures key in m ==> (r.Some? <==> m[key].Str?)
    ensures key in m && r.Some? ==> m[key] == Str(r.value)
  {
    if key !in m then Some("")
    else if m[key].Str? then Some(m[key].s)
    else None
  }

  /** An `Option<String>` field: absent or `null` is `None`. */
  function OptionalString(m: Members, key: string): (r: Option<Option<string>>)
    ensures r == Some(None) <==> key !in m || m[key] == Null
    ensures r.Some? && r.value.Some? <==> key in m && m[key].Str?
    ensures r.Some? && r.value.Some? ==> m[key] == Str(r.value.value)
  {
    if key !in m || m[key] == Null then Some(None)
    else if m[key].Str? then Some(Some(m[key].s))
    else None
  }

  /** An `Option<u32>` field: an integer outside 0 .. 2^32-1 is rejected. */
  function OptionalU32(m: Members, key: string): (r: Option<Option<U32>>)
    ensures r == Some(None) <==> key !in m || m[key] == Null
    ensures r.Some? && r.value.Some? <==> key in m && m[key].Number? && 0 <= m[key].n < 0x1_0000_0000
    ensures r.Some? && r.value.Some? ==> m[key] == Number(r.value.value as int)
  {
    if key !in m || m[key] == Null then Some(None)
    else if m[key].Number? && 0 <= m[key].n < 0x1_0000_0000 then Some(Some(m[key].n as U32))
    else None
  }

  /** The `status` field: required, and one of the two status literals. */
  function ReadStatus(m: Members): (r: Option<Status>)
    ensures r.Some? <==> "status" in m && m["status"] in {Str("SUCCESS"), Str("ERROR")}
    ensures r.Some? ==> m["status"] == Str(StatusName(r.value))
  {
    if "status" in m && m["status"].Str? then ParseStatus(m["status"].s) else None
  }

  /** A `RecordType` value: one of the twelve literal names. */
  function ReadRecordType(v: JsonValue): (r: Option<RecordType>)
    ensures r.Some? ==> v == Str(TypeName(r.value))
    ensures (exists t :: v == Str(TypeName(t))) ==> r.Some?
  {
    if v.Str? then
      var r := ParseRecordType(v.s);
      assert r.None? ==> forall t :: v != Str(TypeName(t));
      r
    else None
  }

  /** An `Ipv4Addr` value: a string the address reader accepts. */
  function ReadIpv4(v: JsonValue, readAddr: AddrReader): (r: Option<Ipv4Addr>)
    ensures r.Some? <==> v.Str? && readAddr(v.s).Some?
    ensures r.Some? ==> readAddr(v.s) == r
  {
    if v.Str? then readAddr(v.s) else None
  }

  /** An `Option<Ipv4Addr>` field. */
  function OptionalIpv4(m: Members, key: string, readAddr: AddrReader): (r: Option<Option<Ipv4Addr>>)
    ensures r == Some(None) <==> key !in m || m[key] == Null
    ensures r.Some? && r.value.Some? ==> key in m && ReadIpv4(m[key], readAddr) == r.value
    ensures key in m && m[key] != Null && ReadIpv4(m[key], readAddr).Some? ==> r == Some(ReadIpv4(m[key], readAddr))
    ensures key in m && m[key] != Null && ReadIpv4(m[key], readAddr).None? ==> r.None?
  {
    if key !in m || m[key] == Null then Some(None)
    else match ReadIpv4(m[key], readAddr)
      case Some(a) => Some(Some(a))
      case None => None
  }

  /** A JSON array read element by element: one bad element rejects the whole array. */
  function ReadAll<T>(xs: seq<JsonValue>, item: JsonValue -> Option<T>): (r: Option<seq<T>>)
    ensures r.Some? <==> forall i :: 0 <= i < |xs| ==> item(xs[i]).Some?
    ensures r.Some? ==> |r.value| == |xs| && forall i :: 0 <= i < |xs| ==> item(xs[i]) == Some(r.value[i])
    decreases |xs|
  {
    if xs == [] then Some([])
    else match (item(xs[0]), ReadAll(xs[1..], item))
      case (Some(x), Some(rest)) =>
        assert forall i :: 1 <= i < |xs| ==> xs[i] == xs[1..][i - 1];
        Some([x] + rest)
      case (None, _) => None
      case (_, None) =>
        assert forall i :: 0 <= i < |xs| - 1 ==> xs[1..][i] == xs[i + 1];
        None
  }

  /** A `#[serde(default)]` `Vec` field: [] when absent, but `null` is rejected. */
  function DefaultList<T>(m: Members, key: string, item: JsonValue -> Option<T>): (r: Option<seq<T>>)
    ensures key !in m ==> r == Some([])
    ensures key in m && r.Some? ==> m[key].Array? && ReadAll(m[key].items, item) == r
    ensures key in m && m[key].Array? ==> r == ReadAll(m[key].items, item)
  {
    if key !in m then Some([])
    else if m[key].Array? then ReadAll(m[key].items, item)
    else None
  }
}
