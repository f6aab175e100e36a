/**
 * The append-only log. The file is seen record by record: each record is
 * either a value the codec decodes, or a stretch it cannot decode (left by
 * an earlier process, a torn write or a foreign file). The outcomes of the
 * file system calls are parameters of the methods.
 */
module AppendOnlyFile {
  import opened Wrappers
  import opened Resp

  /** One record of the log as the decoder meets it. */
  datatype Record = Decoded(value: Value) | Undecodable(reason: string)

  /** The records a sequence of appended values leaves in the file. */
  function AsRecords(vs: seq<Value>): (rs: seq<Record>)
    ensures |rs| == |vs|
    ensures forall i :: 0 <= i < |vs| ==> rs[i] == Decoded(vs[i])
  {
    seq(|vs|, i requires 0 <= i < |vs| => Decoded(vs[i]))
  }

  /**
   * Where reading stops: the position of the first record that does not
   * decode, or the end of the log.
   */
  function FirstUndecodable(rs: seq<Record>): (k: nat)
    ensures k <= |rs|
    ensures forall i :: 0 <= i < k ==> rs[i].Decoded?
    ensures k < |rs| ==> rs[k].Undecodable?
    decreases |rs|
  {
    if rs == [] || rs[0].Undecodable? then 0 else 1 + FirstUndecodable(rs[1..])
  }

  /** The values a full read of the log hands to its callback, in log order. */
  function Readable(rs: seq<Record>): (vs: seq<Value>)
    ensures |vs| == FirstUndecodable(rs)
    ensures forall i :: 0 <= i < |vs| ==> rs[i] == Decoded(vs[i])
  {
    var k := FirstUndecodable(rs);
    seq(k, i requires 0 <= i < k => rs[i].value)
  }

  /**
   * Values appended after a log that reads to its end are read back after
   * everything the log already held; a log with a bad record hides them.
   */
  lemma {:induction false} ReadableAfterAppend(rs: seq<Record>, vs: seq<Value>)
    ensures FirstUndecodable(rs) == |rs| ==> Readable(rs + AsRecords(vs)) == Readable(rs) + vs
    ensures FirstUndecodable(rs) < |rs| ==> Readable(rs + AsRecords(vs)) == Readable(rs)
  {
    var k := FirstUndecodable(rs);
    FirstUndecodableOfAppend(rs, AsRecords(vs));
    if k == |rs| {
      assert FirstUndecodable(AsRecords(vs)) == |vs| by {
        NoUndecodableIsEnd(AsRecords(vs));
      }
    }
  }

  lemma {:induction false} FirstUndecodableOfAppend(rs: seq<Record>, more: seq<Record>)
    ensures FirstUndecodable(rs) < |rs| ==> FirstUndecodable(rs + more) == FirstUndecodable(rs)
    ensures FirstUndecodable(rs) == |rs| ==> FirstUndecodable(rs + more) == |rs| + FirstUndecodable(more)
    decreases |rs|
  {
    if rs != [] {
      assert (rs + more)[1..] == rs[1..] + more;
      FirstUndecodableOfAppend(rs[1..], more);
    } else {
      assert rs + more == more;
    }
  }

  lemma NoUndecodableIsEnd(rs: seq<Record>)
    requires forall i :: 0 <= i < |rs| ==> rs[i].Decoded?
    ensures FirstUndecodable(rs) == |rs|
  {
  }

  /**
   * What one write of `value` leaves at the end of the log: the record when
   * the write succeeds; after a failed write either nothing or, when part
   * of the record reached the file, a stretch the decoder rejects.
   */
  function Written(value: Value, writeErr: Option<string>, torn: Option<string>): seq<Record> {
    if writeErr.None? then [Decoded(value)]
    else if torn.Some? then [Undecodable(torn.value)]
    else []
  }

  /**
   * A torn record hides everything appended after it: a read hands over
   * no more than it did before the torn write.
   */
  lemma {:induction false} TornWriteHidesLater(rs: seq<Record>, reason: string, later: seq<Record>)
    ensures Readable(rs + [Undecodable(reason)] + later) == Readable(rs)
  {
    var torn := [Undecodable(reason)] + later;
    assert rs + [Undecodable(reason)] + later == rs + torn;
    assert FirstUndecodable(torn) == 0;
    FirstUndecodableOfAppend(rs, torn);
  }

  /** The log file, opened for reading and appending without truncation. */
  class Aof {
    var records: seq<Record>

    /** Opening the file keeps whatever an earlier process appended. */
    constructor Open(existing: seq<Record>)
      ensures records == existing
    {
      records := existing;
    }

    /**
     * `Write`: append one record and sync the file. A failed write is
     * returned without syncing; it may still have put part of the record
     * in the file (`torn` is then the decoder's error on that part).
     * Otherwise the result of the sync is returned.
     */
    method Write(value: Value, writeErr: Option<string>, syncErr: Option<string>, torn: Option<string>)
      returns (err: Option<string>)
      modifies this
      ensures writeErr.Some? ==> err == writeErr
      ensures writeErr.None? ==> err == syncErr
      ensures records == old(records) + Written(value, writeErr, torn)
    {
      if writeErr.Some? {
        if torn.Some? {
          records := records + [Undecodable(torn.value)];
        }
        return writeErr;
      }
      records := records + [Decoded(value)];
      return syncErr;
    }

    /**
     * `Read`: decode the log from its start, handing every decoded value
     * over in order. Reading stops cleanly at the end of the log and with
     * the decoder's error at the first record that does not decode.
     */
    method Read() returns (delivered: seq<Value>, err: Option<string>)
      ensures delivered == Readable(records)
      ensures err.None? <==> forall i :: 0 <= i < |records| ==> records[i].Decoded?
      ensures err.Some? ==> exists k :: 0 <= k < |records| && records[k] == Undecodable(err.value)
                                       && |delivered| == k
    {
      delivered := [];
      var i := 0;
      while i < |records|
        invariant 0 <= i <= |records|
        invariant forall j :: 0 <= j < i ==> records[j].Decoded?
        invariant |delivered| == i
        invariant forall j :: 0 <= j < i ==> records[j] == Decoded(delivered[j])
      {
        match records[i]
        case Undecodable(reason) =>
          assert FirstUndecodable(records) == i by {
            FirstUndecodableIs(records, i);
          }
          return delivered, Some(reason);
        case Decoded(v) =>
          delivered := delivered + [v];
          i := i + 1;
      }
      assert FirstUndecodable(records) == i by {
        NoUndecodableIsEnd(records);
      }
      return delivered, None;
    }
  }

  lemma {:induction false} FirstUndecodableIs(rs: seq<Record>, k: nat)
    requires k < |rs| && rs[k].Undecodable?
    requires forall j :: 0 <= j < k ==> rs[j].Decoded?
    ensures FirstUndecodable(rs) == k
    decreases k
  {
    if k > 0 {
      FirstUndecodableIs(rs[1..], k - 1);
    }
  }
}
