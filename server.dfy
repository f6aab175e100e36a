/**
 * The request loop of a connection and the start-up replay of the log.
 *
 * A request is classified on its upper-cased command name; a handler's
 * result decides whether the request is appended to the log. `Live` folds
 * that step over a run of requests, `Replay` folds the replay callback over
 * a log, and `ReplayRebuildsLive` shows that the two meet: replaying what a
 * run appended rebuilds the keyspaces the run left behind.
 */
module Server {
  import opened Wrappers
  import opened Resp
  import opened Handler
  import opened AppendOnlyFile

  /**
   * Upper-casing one character. Besides ASCII letters, the only characters
   * whose upper case is an ASCII letter are the dotless i and the long s.
   */
  function UpperChar(c: char): char {
    if 'a' <= c <= 'z' then (c as int - 32) as char
    else if c == '\U{0131}' then 'I'
    else if c == '\U{017F}' then 'S'
    else c
  }

  /** Upper-casing a command name, character by character. */
  function Upper(s: string): (u: string)
    ensures |u| == |s|
    ensures forall i :: 0 <= i < |s| ==> u[i] == UpperChar(s[i])
  {
    seq(|s|, i requires 0 <= i < |s| => UpperChar(s[i]))
  }

  /** Upper-casing an upper-cased name changes nothing more. */
  lemma UpperIdempotent(s: string)
    ensures Upper(Upper(s)) == Upper(s)
  {
    assert forall i :: 0 <= i < |s| ==> UpperChar(UpperChar(s[i])) == UpperChar(s[i]);
  }

  /** A request the loop acts on: a non-empty array. */
  predicate IsRequest(v: Value) {
    v.Array? && |v.items| > 0
  }

  /** The upper-cased name of a request's command. */
  function CommandName(req: Value): string
    requires IsRequest(req)
  {
    Upper(BulkOf(req.items[0]))
  }

  /** What the connection loop does with one request. */
  datatype Action =
    | Ignore                                 // not an array, or an empty one
    | ToSubscription(channels: seq<Value>)   // SUBSCRIBE leaves the command path
    | Unknown                                // no handler under this name
    | Run(command: Command, args: seq<Value>)

  function Classify(req: Value): (a: Action)
    ensures a == Ignore <==> !IsRequest(req)
    ensures a.ToSubscription? <==> a != Ignore && CommandName(req) == "SUBSCRIBE"
    ensures a.ToSubscription? ==> a.channels == req.items[1..]
    ensures a.Unknown? <==> a != Ignore && CommandName(req) != "SUBSCRIBE" && Lookup(CommandName(req)).None?
    ensures a.Run? ==> a != Ignore && Lookup(CommandName(req)) == Some(a.command) && a.args == req.items[1..]
  {
    if !req.Array? || |req.items| == 0 then Ignore
    else
      var command := CommandName(req);
      if command == "SUBSCRIBE" then ToSubscription(req.items[1..])
      else match Lookup(command)
        case None => Unknown
        case Some(c) => Run(c, req.items[1..])
  }

  /** The command names whose successful requests are appended to the log. */
  predicate IsLoggedName(name: string) {
    name == "SET" || name == "HSET" || name == "DEL"
  }

  /**
   * One request of a live connection: the keyspaces afterwards and the
   * records it appends to the log (when the log accepts every write).
   */
  function LiveStep(ks: Keyspaces, req: Value): (r: (Keyspaces, seq<Value>))
    ensures r.1 == [] || r.1 == [req]
    ensures r.1 == [req] <==>
      Classify(req).Run? && IsLoggedName(CommandName(req)) && ArityOk(Classify(req).command, |Classify(req).args|)
    ensures r.1 == [req] ==> Classify(req).command in {Set, HSet}
    ensures r.1 == [] ==> r.0 == ks
    ensures Classify(req).Run? ==> r.0 == Effect(ks, Classify(req).command, Classify(req).args)
  {
    match Classify(req)
    case Run(c, args) =>
      (Effect(ks, c, args), if IsLoggedName(Name(c)) && ArityOk(c, |args|) then [req] else [])
    case _ => (ks, [])
  }

  /** A run of requests: the keyspaces it leaves and everything it appends, in order. */
  function Live(ks: Keyspaces, reqs: seq<Value>): (r: (Keyspaces, seq<Value>))
    ensures |r.1| <= |reqs|
    ensures forall i :: 0 <= i < |r.1| ==> IsRequest(r.1[i]) && IsLoggedName(CommandName(r.1[i]))
    decreases |reqs|
  {
    if reqs == [] then (ks, [])
    else
      var (before, log) := Live(ks, reqs[..|reqs| - 1]);
      var (after, appended) := LiveStep(before, reqs[|reqs| - 1]);
      (after, log + appended)
  }

  /**
   * The replay callback on one record: an unknown name is skipped, any
   * other name runs its handler. A record that is not a non-empty array
   * makes the callback index an empty array, which aborts the process.
   */
  function ReplayRecord(ks: Keyspaces, rec: Value): (r: Option<Keyspaces>)
    ensures r.None? <==> !IsRequest(rec)
    ensures r.Some? ==> r.value == LiveStep(ks, rec).0
  {
    if !rec.Array? || |rec.items| == 0 then None
    else match Lookup(CommandName(rec))
      case None => Some(ks)
      case Some(c) => Some(Effect(ks, c, rec.items[1..]))
  }

  /** Replaying a log record by record; None when a record aborts the replay. */
  function Replay(ks: Keyspaces, log: seq<Value>): (r: Option<Keyspaces>)
    ensures r.None? <==> exists i :: 0 <= i < |log| && !IsRequest(log[i])
    decreases |log|
  {
    if log == [] then Some(ks)
    else
      var prefix := log[..|log| - 1];
      assert forall i :: 0 <= i < |prefix| ==> prefix[i] == log[i];
      match Replay(ks, prefix)
      case None => None
      case Some(before) => ReplayRecord(before, log[|log| - 1])
  }

  /** Continuing a replay from where an earlier one stopped. */
  function ReplayFrom(start: Option<Keyspaces>, log: seq<Value>): Option<Keyspaces> {
    match start
    case None => None
    case Some(ks) => Replay(ks, log)
  }

  /** Replaying two logs one after the other is replaying their concatenation. */
  lemma {:induction false} ReplayAppend(ks: Keyspaces, a: seq<Value>, b: seq<Value>)
    ensures Replay(ks, a + b) == ReplayFrom(Replay(ks, a), b)
    decreases |b|
  {
    if b == [] {
      assert a + b == a;
    } else {
      var b' := b[..|b| - 1];
      assert (a + b)[..|a + b| - 1] == a + b';
      ReplayAppend(ks, a, b');
    }
  }

  /** The records of one live step replay to the state that step left. */
  lemma StepReplays(ks: Keyspaces, req: Value)
    ensures Replay(ks, LiveStep(ks, req).1) == Some(LiveStep(ks, req).0)
  {
    var (after, appended) := LiveStep(ks, req);
    if appended == [req] {
      assert [req][..0] == [];
    }
  }

  /**
   * Replaying, from the keyspaces a run started with, the records the run
   * appended yields the keyspaces the run left behind.
   */
  lemma {:induction false} ReplayRebuildsLive(ks: Keyspaces, reqs: seq<Value>)
    ensures Replay(ks, Live(ks, reqs).1) == Some(Live(ks, reqs).0)
    decreases |reqs|
  {
    if reqs != [] {
      var (before, log) := Live(ks, reqs[..|reqs| - 1]);
      var (after, appended) := LiveStep(before, reqs[|reqs| - 1]);
      ReplayRebuildsLive(ks, reqs[..|reqs| - 1]);
      ReplayAppend(ks, log, appended);
      StepReplays(before, reqs[|reqs| - 1]);
    }
  }

  /**
   * After a restart the log holds what earlier processes appended followed
   * by what this run appended; replaying it from empty keyspaces yields the
   * keyspaces this run ended with.
   */
  lemma RestartRecovers(existing: seq<Value>, ks0: Keyspaces, reqs: seq<Value>)
    requires Replay(Empty, existing) == Some(ks0)
    ensures Replay(Empty, existing + Live(ks0, reqs).1) == Some(Live(ks0, reqs).0)
  {
    ReplayAppend(Empty, existing, Live(ks0, reqs).1);
    ReplayRebuildsLive(ks0, reqs);
  }

  /**
   * The same through the log file: when every record of the file decodes,
   * a restart reads back the old records and this run's, and rebuilds the
   * keyspaces this run ended with.
   */
  lemma RestartFromFile(existing: seq<Record>, ks0: Keyspaces, reqs: seq<Value>)
    requires FirstUndecodable(existing) == |existing|
    requires Replay(Empty, Readable(existing)) == Some(ks0)
    ensures Replay(Empty, Readable(existing + AsRecords(Live(ks0, reqs).1))) == Some(Live(ks0, reqs).0)
  {
    ReadableAfterAppend(existing, Live(ks0, reqs).1);
    RestartRecovers(Readable(existing), ks0, reqs);
  }

  /** On a live connection a command name reaches the same handler whatever its case. */
  lemma CaseInsensitiveLive(name: string, args: seq<Value>)
    ensures Classify(Array([Bulk(name)] + args)) == Classify(Array([Bulk(Upper(name))] + args))
  {
    UpperIdempotent(name);
    assert ([Bulk(name)] + args)[1..] == args;
    assert ([Bulk(Upper(name))] + args)[1..] == args;
  }

  /** On replay a logged command name reaches the same handler whatever its case. */
  lemma CaseInsensitiveReplay(ks: Keyspaces, name: string, args: seq<Value>)
    ensures ReplayRecord(ks, Array([Bulk(name)] + args)) == ReplayRecord(ks, Array([Bulk(Upper(name))] + args))
  {
    UpperIdempotent(name);
    assert ([Bulk(name)] + args)[1..] == args;
    assert ([Bulk(Upper(name))] + args)[1..] == args;
  }

  /** What the connection loop sends back for one request. */
  datatype Response =
    | NoResponse
    | Subscribing(channels: seq<Value>)
    | Reply(value: Value)

  /**
   * The response to `req` while the keyspaces are `ks`: nothing for a
   * request that is not a non-empty array, a hand-over for SUBSCRIBE, an
   * empty simple string for an unknown command, and otherwise exactly the
   * handler's result.
   */
  ghost predicate IsResponse(ks: Keyspaces, req: Value, out: Response) {
    match Classify(req)
    case Ignore => out == NoResponse
    case ToSubscription(channels) => out == Subscribing(channels)
    case Unknown => out == Reply(SimpleString(""))
    case Run(c, args) => out.Reply? && IsReply(ks, c, args, out.value)
  }

  /**
   * One iteration of the connection loop. The outcome of the log write is
   * a parameter; its error is not reported to the client.
   */
  method HandleRequest(store: Store, aof: Aof, req: Value,
                       writeErr: Option<string>, syncErr: Option<string>, torn: Option<string>)
    returns (out: Response)
    modifies store, aof
    ensures store.State() == LiveStep(old(store.State()), req).0
    ensures aof.records == old(aof.records) +
      (if LiveStep(old(store.State()), req).1 == [] then [] else Written(req, writeErr, torn))
    ensures IsResponse(old(store.State()), req, out)
    ensures out == NoResponse <==> !IsRequest(req)
  {
    if !req.Array? || |req.items| == 0 {
      return NoResponse;
    }
    var command := Upper(BulkOf(req.items[0]));
    var args := req.items[1..];
    if command == "SUBSCRIBE" {
      return Subscribing(args);
    }
    var handler := Lookup(command);
    if handler.None? {
      return Reply(SimpleString(""));
    }
    ghost var before := store.State();
    var result := store.Dispatch(handler.value, args);
    ErrorIffWrongArity(before, handler.value, args, result);
    if (command == "SET" || command == "HSET" || command == "DEL") && !result.Error? {
      var ignored := aof.Write(req, writeErr, syncErr, torn);
    }
    return Reply(result);
  }

  /**
   * The connection loop over the requests read from one connection, each
   * log write succeeding.
   */
  method HandleConnection(store: Store, aof: Aof, reqs: seq<Value>) returns (outs: seq<Response>)
    modifies store, aof
    ensures store.State() == Live(old(store.State()), reqs).0
    ensures aof.records == old(aof.records) + AsRecords(Live(old(store.State()), reqs).1)
    ensures RespondsInTurn(old(store.State()), reqs, outs)
  {
    ghost var ks0 := store.State();
    ghost var records0 := aof.records;
    outs := [];
    var i := 0;
    while i < |reqs|
      invariant 0 <= i <= |reqs|
      invariant store.State() == Live(ks0, reqs[..i]).0
      invariant aof.records == records0 + AsRecords(Live(ks0, reqs[..i]).1)
      invariant RespondsInTurn(ks0, reqs[..i], outs)
    {
      ghost var ks := store.State();
      ghost var records := aof.records;
      var out := HandleRequest(store, aof, reqs[i], None, None, None);
      ConnectionStep(ks0, reqs, i, records0, ks, records, outs, store.State(), aof.records, out);
      outs := outs + [out];
      i := i + 1;
    }
    assert reqs[..i] == reqs;
  }

  /** One turn of the connection loop keeps the loop's invariant. */
  lemma ConnectionStep(ks0: Keyspaces, reqs: seq<Value>, i: nat, records0: seq<Record>,
                       ks: Keyspaces, records: seq<Record>, outs: seq<Response>,
                       ks': Keyspaces, records': seq<Record>, out: Response)
    requires i < |reqs|
    requires ks == Live(ks0, reqs[..i]).0
    requires records == records0 + AsRecords(Live(ks0, reqs[..i]).1)
    requires RespondsInTurn(ks0, reqs[..i], outs)
    requires ks' == LiveStep(ks, reqs[i]).0
    requires records' == records + (if LiveStep(ks, reqs[i]).1 == [] then [] else Written(reqs[i], None, None))
    requires IsResponse(ks, reqs[i], out)
    ensures ks' == Live(ks0, reqs[..i + 1]).0
    ensures records' == records0 + AsRecords(Live(ks0, reqs[..i + 1]).1)
    ensures RespondsInTurn(ks0, reqs[..i + 1], outs + [out])
  {
    var log := Live(ks0, reqs[..i]).1;
    var step := LiveStep(ks, reqs[i]);
    assert (if step.1 == [] then [] else Written(reqs[i], None, None)) == AsRecords(step.1);
    LiveExtend(ks0, reqs, i);
    AsRecordsAppend(log, step.1);
    RespondsInTurnExtend(ks0, reqs, i, outs, out);
  }

  /**
   * `outs` answers the requests `reqs` one by one, each in the keyspaces
   * left by the requests before it.
   */
  ghost predicate RespondsInTurn(ks: Keyspaces, reqs: seq<Value>, outs: seq<Response>) {
    |outs| == |reqs| && forall j :: 0 <= j < |reqs| ==> IsResponse(Live(ks, reqs[..j]).0, reqs[j], outs[j])
  }

  lemma RespondsInTurnExtend(ks: Keyspaces, reqs: seq<Value>, i: nat, outs: seq<Response>, out: Response)
    requires i < |reqs|
    requires RespondsInTurn(ks, reqs[..i], outs)
    requires IsResponse(Live(ks, reqs[..i]).0, reqs[i], out)
    ensures RespondsInTurn(ks, reqs[..i + 1], outs + [out])
  {
    forall j | 0 <= j < i + 1
      ensures IsResponse(Live(ks, reqs[..i + 1][..j]).0, reqs[..i + 1][j], (outs + [out])[j])
    {
      if j < i {
        assert reqs[..i + 1][..j] == reqs[..i][..j];
      } else {
        assert reqs[..i + 1][..j] == reqs[..i];
      }
    }
  }

  lemma ReplayExtend(ks: Keyspaces, log: seq<Value>, i: nat, before: Keyspaces)
    requires i < |log| && Replay(ks, log[..i]) == Some(before)
    ensures Replay(ks, log[..i + 1]) == ReplayRecord(before, log[i])
  {
    assert log[..i + 1][..i] == log[..i];
  }

  lemma ReplayStaysAborted(ks: Keyspaces, log: seq<Value>, i: nat)
    requires i <= |log| && Replay(ks, log[..i]) == None
    ensures Replay(ks, log) == None
  {
    ReplayAppend(ks, log[..i], log[i..]);
    assert log[..i] + log[i..] == log;
  }

  lemma LiveExtend(ks: Keyspaces, reqs: seq<Value>, i: nat)
    requires i < |reqs|
    ensures var (before, log) := Live(ks, reqs[..i]);
      Live(ks, reqs[..i + 1]) == (LiveStep(before, reqs[i]).0, log + LiveStep(before, reqs[i]).1)
  {
    assert reqs[..i + 1][..i] == reqs[..i];
  }

  lemma AsRecordsAppend(a: seq<Value>, b: seq<Value>)
    ensures AsRecords(a + b) == AsRecords(a) + AsRecords(b)
  {
  }

  /**
   * The replay callback applied to each value the log hands over, in order.
   * Returns true when a record aborts the replay.
   */
  method ReplayInto(store: Store, delivered: seq<Value>) returns (aborted: bool)
    modifies store
    ensures aborted <==> Replay(old(store.State()), delivered).None?
    ensures !aborted ==> Replay(old(store.State()), delivered) == Some(store.State())
  {
    ghost var ks0 := store.State();
    var i := 0;
    while i < |delivered|
      invariant 0 <= i <= |delivered|
      invariant Replay(ks0, delivered[..i]) == Some(store.State())
    {
      var value := delivered[i];
      ReplayExtend(ks0, delivered, i, store.State());
      if !value.Array? || |value.items| == 0 {
        ReplayStaysAborted(ks0, delivered, i + 1);
        return true;
      }
      var command := Upper(BulkOf(value.items[0]));
      var args := value.items[1..];
      var handler := Lookup(command);
      if handler.Some? {
        var ignored := store.Dispatch(handler.value, args);
      }
      assert Replay(ks0, delivered[..i + 1]) == Some(store.State());
      i := i + 1;
    }
    assert delivered[..i] == delivered;
    return false;
  }

  /**
   * Start-up: open the log without truncating it, read it and replay what
   * it hands over into empty keyspaces. The read error is not acted upon.
   */
  method Start(existing: seq<Record>) returns (store: Store, aof: Aof, aborted: bool)
    ensures fresh(store) && fresh(aof)
    ensures aof.records == existing
    ensures aborted <==> Replay(Empty, Readable(existing)).None?
    ensures !aborted ==> Replay(Empty, Readable(existing)) == Some(store.State())
  {
    aof := new Aof.Open(existing);
    var delivered, err := aof.Read();
    store := new Store();
    aborted := ReplayInto(store, delivered);
  }
}
