/**
 * The command engine: two keyspaces and the table of handlers that read
 * and update them.
 *
 * The specification of every handler is given on values (`Keyspaces`):
 * `IsReply` says which replies a handler may give and `Effect` what the
 * keyspaces become. The class `Store` holds the live maps and updates them
 * in place, each method proved against that specification.
 */
module Handler {
  import opened Wrappers
  import opened Resp

  /** The string keyspace (`SETs`) and the hash keyspace (`HSETs`). */
  datatype Keyspaces = Keyspaces(sets: map<string, string>, hsets: map<string, map<string, string>>)

  /** Both keyspaces as the process starts. */
  const Empty := Keyspaces(map[], map[])

  /** The handlers of the dispatch table. */
  datatype Command = Ping | Get | Set | HSet | HGet | HGetAll

  /** The table key under which a handler is registered. */
  function Name(c: Command): string {
    match c
    case Ping => "PING"
    case Get => "GET"
    case Set => "SET"
    case HSet => "HSET"
    case HGet => "HGET"
    case HGetAll => "HGETALL"
  }

  /** Looking a command name up in the dispatch table. */
  function Lookup(name: string): (r: Option<Command>)
    ensures r.Some? <==> name in {"PING", "GET", "SET", "HSET", "HGET", "HGETALL"}
    ensures r.Some? ==> Name(r.value) == name
  {
    if name == "PING" then Some(Ping)
    else if name == "GET" then Some(Get)
    else if name == "SET" then Some(Set)
    else if name == "HSET" then Some(HSet)
    else if name == "HGET" then Some(HGet)
    else if name == "HGETALL" then Some(HGetAll)
    else None
  }

  /** Every handler is reachable under its own name, and only under it. */
  lemma LookupName(c: Command, name: string)
    ensures Lookup(Name(c)) == Some(c)
    ensures Lookup(name) == Some(c) <==> name == Name(c)
  {
  }

  /** The argument counts a handler accepts; `ping` ignores extra arguments. */
  predicate ArityOk(c: Command, n: nat) {
    match c
    case Ping => true
    case Get => n == 1
    case Set => n == 2
    case HSet => n == 3
    case HGet => n == 2
    case HGetAll => n == 1
  }

  /** The error a handler returns for a wrong argument count. */
  function WrongArity(c: Command): Value {
    var name := match c
      case Ping => "ping"
      case Get => "get"
      case Set => "set"
      case HSet => "hset"
      case HGet => "hget"
      case HGetAll => "hgetall";
    Error("ERR wrong number of arguments for '" + name + "' command")
  }

  /** `ping`: PONG without arguments, otherwise an echo of the first argument. */
  function PingReply(args: seq<Value>): (r: Value)
    ensures r.SimpleString?
    ensures |args| == 0 ==> r.str == "PONG"
    ensures |args| > 0 ==> r.str == BulkOf(args[0])
  {
    if |args| == 0 then SimpleString("PONG") else SimpleString(BulkOf(args[0]))
  }

  /** Reading a key: its value as a bulk string, or null when it is absent. */
  function Fetch(m: map<string, string>, key: string): Value {
    if key in m then Bulk(m[key]) else Null
  }

  /** The (field, value) pairs of a flat array that alternates fields and values. */
  function Pairs(r: seq<Value>): seq<(string, string)>
    decreases |r|
  {
    if |r| < 2 then [] else [(BulkOf(r[0]), BulkOf(r[1]))] + Pairs(r[2..])
  }

  /**
   * `r` lists the hash `m`: 2 * |m| bulk strings alternating field and
   * value, whose pairs are exactly the entries of `m`, in any order.
   */
  ghost predicate IsListing(r: seq<Value>, m: map<string, string>) {
    && |r| == 2 * |m|
    && (forall i :: 0 <= i < |r| ==> r[i].Bulk?)
    && (set p | p in Pairs(r)) == m.Items
  }

  /** The replies handler `c` may give to `args` while the keyspaces are `ks`. */
  ghost predicate IsReply(ks: Keyspaces, c: Command, args: seq<Value>, r: Value) {
    if !ArityOk(c, |args|) then r == WrongArity(c)
    else match c
      case Ping => r == PingReply(args)
      case Set => r == SimpleString("OK")
      case HSet => r == SimpleString("OK")
      case Get => r == Fetch(ks.sets, BulkOf(args[0]))
      case HGet =>
        var h := BulkOf(args[0]);
        r == (if h in ks.hsets then Fetch(ks.hsets[h], BulkOf(args[1])) else Null)
      case HGetAll =>
        var h := BulkOf(args[0]);
        if h in ks.hsets then r.Array? && IsListing(r.items, ks.hsets[h]) else r == Null
  }

  /**
   * The keyspaces after handler `c` has run on `args`: SET stores the value
   * under the key, HSET stores the value under the field of the hash
   * (creating the hash when it is new); every other handler, and every call
   * with a wrong argument count, changes nothing.
   */
  function Effect(ks: Keyspaces, c: Command, args: seq<Value>): (r: Keyspaces)
    ensures !ArityOk(c, |args|) || c !in {Set, HSet} ==> r == ks
    ensures c == Set && |args| == 2 ==>
      var key := BulkOf(args[0]);
      && r.hsets == ks.hsets
      && r.sets.Keys == ks.sets.Keys + {key}
      && r.sets[key] == BulkOf(args[1])
      && (forall k :: k in ks.sets && k != key ==> r.sets[k] == ks.sets[k])
    ensures c == HSet && |args| == 3 ==>
      var h, field := BulkOf(args[0]), BulkOf(args[1]);
      && r.sets == ks.sets
      && r.hsets.Keys == ks.hsets.Keys + {h}
      && (forall k :: k in ks.hsets && k != h ==> r.hsets[k] == ks.hsets[k])
      && r.hsets[h].Keys == (if h in ks.hsets then ks.hsets[h].Keys else {}) + {field}
      && r.hsets[h][field] == BulkOf(args[2])
      && (forall f :: h in ks.hsets && f in ks.hsets[h] && f != field ==> r.hsets[h][f] == ks.hsets[h][f])
  {
    if !ArityOk(c, |args|) then ks
    else match c
      case Set => ks.(sets := ks.sets[BulkOf(args[0]) := BulkOf(args[1])])
      case HSet =>
        var h := BulkOf(args[0]);
        var hash := if h in ks.hsets then ks.hsets[h] else map[];
        ks.(hsets := ks.hsets[h := hash[BulkOf(args[1]) := BulkOf(args[2])]])
      case _ => ks
  }

  /** A handler's reply is an error exactly when the argument count is wrong. */
  lemma ErrorIffWrongArity(ks: Keyspaces, c: Command, args: seq<Value>, r: Value)
    requires IsReply(ks, c, args, r)
    ensures r.Error? <==> !ArityOk(c, |args|)
  {
  }

  /** SET then GET on the same key reads the value back. */
  lemma SetThenGet(ks: Keyspaces, key: Value, value: Value, r: Value)
    requires IsReply(Effect(ks, Set, [key, value]), Get, [key], r)
    ensures r == Bulk(BulkOf(value))
  {
  }

  /** HSET then HGET on the same hash and field reads the value back. */
  lemma HSetThenHGet(ks: Keyspaces, h: Value, field: Value, value: Value, r: Value)
    requires IsReply(Effect(ks, HSet, [h, field, value]), HGet, [h, field], r)
    ensures r == Bulk(BulkOf(value))
  {
  }

  lemma {:induction false} PairsAppend(r: seq<Value>, a: Value, b: Value)
    requires |r| % 2 == 0
    ensures Pairs(r + [a, b]) == Pairs(r) + [(BulkOf(a), BulkOf(b))]
    decreases |r|
  {
    if |r| == 0 {
      assert r + [a, b] == [a, b];
    } else {
      assert (r + [a, b])[2..] == r[2..] + [a, b];
      PairsAppend(r[2..], a, b);
    }
  }

  lemma {:induction false} PairsLength(r: seq<Value>)
    ensures |Pairs(r)| == |r| / 2
    decreases |r|
  {
    if |r| >= 2 {
      PairsLength(r[2..]);
    }
  }

  /**
   * A listing has no repeated field: its pairs, read in order, name every
   * field of the hash exactly once.
   */
  lemma ListingFieldsDistinct(r: seq<Value>, m: map<string, string>, i: nat, j: nat)
    requires IsListing(r, m)
    requires i < j < |Pairs(r)|
    ensures Pairs(r)[i].0 != Pairs(r)[j].0
  {
    var ps := Pairs(r);
    PairsLength(r);
    assert |m.Items| == |m|;
    NoRepeatWhenSetIsFull(ps, i, j);
    assert ps[i] in m.Items && ps[j] in m.Items;
  }

  /** A sequence whose set of elements is as large as the sequence repeats nothing. */
  lemma NoRepeatWhenSetIsFull<T>(ps: seq<T>, i: nat, j: nat)
    requires |set p | p in ps| == |ps|
    requires i < j < |ps|
    ensures ps[i] != ps[j]
  {
    if ps[i] == ps[j] {
      SeqWithRepeatHasSmallerSet(ps, i, j);
    }
  }

  lemma {:induction false} SeqWithRepeatHasSmallerSet<T>(ps: seq<T>, i: nat, j: nat)
    requires i < j < |ps| && ps[i] == ps[j]
    ensures |set p | p in ps| < |ps|
  {
    var rest := ps[..j] + ps[j + 1..];
    assert ps == ps[..j] + [ps[j]] + ps[j + 1..];
    assert (set p | p in ps) == (set p | p in rest) by {
      assert ps[j] == rest[i];
    }
    SetOfSeqAtMostLength(rest);
  }

  lemma {:induction false} SetOfSeqAtMostLength<T>(ps: seq<T>)
    ensures |set p | p in ps| <= |ps|
    decreases |ps|
  {
    if ps != [] {
      SetOfSeqAtMostLength(ps[1..]);
      assert (set p | p in ps) == (set p | p in ps[1..]) + {ps[0]};
    }
  }

  lemma ListingGrows(r: seq<Value>, m: map<string, string>, done: set<string>, k: string)
    requires |r| % 2 == 0 && done <= m.Keys && k in m && k !in done
    requires (set p | p in Pairs(r)) == (set f | f in done :: (f, m[f]))
    ensures (set p | p in Pairs(r + [Bulk(k), Bulk(m[k])])) == (set f | f in done + {k} :: (f, m[f]))
  {
    PairsAppend(r, Bulk(k), Bulk(m[k]));
    assert (set p | p in Pairs(r) + [(k, m[k])]) == (set p | p in Pairs(r)) + {(k, m[k])};
    assert (set f | f in done + {k} :: (f, m[f])) == (set f | f in done :: (f, m[f])) + {(k, m[k])};
  }

  lemma ItemsByKeys(m: map<string, string>)
    ensures (set k | k in m :: (k, m[k])) == m.Items
  {
    forall p | p in m.Items
      ensures p in (set k | k in m :: (k, m[k]))
    {
      assert p.0 in m && m[p.0] == p.1;
    }
  }

  /**
   * The live keyspaces. The source keeps them in package-level maps; here
   * they are the fields of one object that every handler works on.
   */
  class Store {
    var sets: map<string, string>
    var hsets: map<string, map<string, string>>

    function State(): Keyspaces
      reads this
    {
      Keyspaces(sets, hsets)
    }

    constructor ()
      ensures State() == Empty
    {
      sets := map[];
      hsets := map[];
    }

    /** `set`: store the value under the key, overwriting any old value. */
    method Set(args: seq<Value>) returns (r: Value)
      modifies this
      ensures IsReply(old(State()), Command.Set, args, r)
      ensures State() == Effect(old(State()), Command.Set, args)
    {
      if |args| != 2 {
        return WrongArity(Command.Set);
      }
      var key := BulkOf(args[0]);
      var value := BulkOf(args[1]);
      sets := sets[key := value];
      return SimpleString("OK");
    }

    /** `get`: the value stored under the key, or null. */
    method Get(args: seq<Value>) returns (r: Value)
      ensures IsReply(State(), Command.Get, args, r)
    {
      if |args| != 1 {
        return WrongArity(Command.Get);
      }
      var key := BulkOf(args[0]);
      if key !in sets {
        return Null;
      }
      return Bulk(sets[key]);
    }

    /** `hset`: store the value under the field of the hash, creating the hash if it is new. */
    method HSet(args: seq<Value>) returns (r: Value)
      modifies this
      ensures IsReply(old(State()), Command.HSet, args, r)
      ensures State() == Effect(old(State()), Command.HSet, args)
    {
      if |args| != 3 {
        return WrongArity(Command.HSet);
      }
      var hashKey := BulkOf(args[0]);
      var key := BulkOf(args[1]);
      var value := BulkOf(args[2]);
      if hashKey !in hsets {
        hsets := hsets[hashKey := map[]];
      }
      hsets := hsets[hashKey := hsets[hashKey][key := value]];
      return SimpleString("OK");
    }

    /** `hget`: the value under the field of the hash, or null when either is missing. */
    method HGet(args: seq<Value>) returns (r: Value)
      ensures IsReply(State(), Command.HGet, args, r)
    {
      if |args| != 2 {
        return WrongArity(Command.HGet);
      }
      var hash := BulkOf(args[0]);
      var key := BulkOf(args[1]);
      if hash !in hsets || key !in hsets[hash] {
        return Null;
      }
      return Bulk(hsets[hash][key]);
    }

    /** `hgetall`: every field of the hash followed by its value, or null for an absent hash. */
    method HGetAll(args: seq<Value>) returns (r: Value)
      ensures IsReply(State(), Command.HGetAll, args, r)
    {
      if |args| != 1 {
        return WrongArity(Command.HGetAll);
      }
      var hashKey := BulkOf(args[0]);
      if hashKey !in hsets {
        return Null;
      }
      var hash := hsets[hashKey];
      var result: seq<Value> := [];
      var done: set<string> := {};
      var remaining := hash.Keys;
      while remaining != {}
        invariant remaining !! done && remaining + done == hash.Keys
        invariant |result| == 2 * |done|
        invariant forall i :: 0 <= i < |result| ==> result[i].Bulk?
        invariant (set p | p in Pairs(result)) == (set k | k in done :: (k, hash[k]))
        decreases remaining
      {
        var k :| k in remaining;
        ListingGrows(result, hash, done, k);
        result := result + [Bulk(k), Bulk(hash[k])];
        done := done + {k};
        remaining := remaining - {k};
      }
      assert done == hash.Keys;
      ItemsByKeys(hash);
      return Array(result);
    }

    /** Calling the handler `c` of the dispatch table. */
    method Dispatch(c: Command, args: seq<Value>) returns (r: Value)
      modifies this
      ensures IsReply(old(State()), c, args, r)
      ensures State() == Effect(old(State()), c, args)
    {
      match c
      case Ping => r := PingReply(args);
      case Get => r := Get(args);
      case Set => r := Set(args);
      case HSet => r := HSet(args);
      case HGet => r := HGet(args);
      case HGetAll => r := HGetAll(args);
    }
  }
}
