/**
 * The protocol value that requests, replies and log records share.
 * The byte codec that reads and writes these values is not part of this
 * model; a value is what the codec decodes from, or encodes to, the wire.
 */
module Resp {

  /** One variant per `typ` tag the server builds: "string", "error", "bulk", "null", "array". */
  datatype Value =
    | SimpleString(str: string)
    | Error(str: string)
    | Bulk(bulk: string)
    | Null
    | Array(items: seq<Value>)

  /**
   * Reading the `bulk` field of a value. Only bulk strings carry one; every
   * other variant has Go's zero value there, the empty string.
   */
  function BulkOf(v: Value): string {
    if v.Bulk? then v.bulk else ""
  }

  /** A flat array of bulk strings, the shape of acknowledgements and pushed messages. */
  function BulkArray(items: seq<string>): (v: Value)
    ensures v.Array? && |v.items| == |items|
    ensures forall i :: 0 <= i < |items| ==> v.items[i] == Bulk(items[i])
  {
    Array(seq(|items|, i requires 0 <= i < |items| => Bulk(items[i])))
  }
}
