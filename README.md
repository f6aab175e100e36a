# Go-redis core in Dafny

This project models the core of a small Redis clone written in Go. It covers four parts.

- **The command engine** (`handler.go`). It has two keyspaces: `SETs` maps a key to a string, and `HSETs` maps a key to a hash of fields. A dispatch table holds the handlers `ping`, `get`, `set`, `hset`, `hget` and `hgetall`. Each handler checks its argument count, then reads or updates the maps.
- **The request loop** (`main.go`). `handleConnection` drops requests that are not non-empty arrays. It upper-cases the command name and hands SUBSCRIBE to the subscription path. An unknown name gets an empty simple string. Any other name runs its handler, and a successful SET, HSET or DEL is appended to the log. At start-up, `main` replays the log through the same handlers.
- **The append-only log** (`aof.go`). `Write` appends a record and syncs the file. `Read` decodes the file from its start and hands every record to a callback, in order.
- **The publish/subscribe broker** (`pubsub.go`). For every channel it keeps the subscribed connections, each with a mailbox that buffers up to 100 messages. It also keeps the most recent quit signal of each subscribed connection. Unsubscribing from any one channel closes and forgets that signal, even while the connection stays subscribed to other channels. `Subscribe`, `Unsubscribe` and `Publish` update these maps. A delivery task drains each mailbox.

Files and modules:

- `resp.dfy` (`Resp`): the protocol value, a tagged union with one variant per `typ` tag the server builds. `BulkOf` reads the `bulk` field, which is `""` for every variant except a bulk string.
- `handler.dfy` (`Handler`): the handler specification on values, and the class `Store` that holds the live maps. `IsReply` says which replies a handler may give. `Effect` says what the keyspaces become.
- `aof.dfy` (`AppendOnlyFile`): the log as a sequence of records. Each record either decodes to a value or does not decode.
- `server.dfy` (`Server`): request classification, one live step (`LiveStep`) and its fold over a run (`Live`), and the replay callback (`ReplayRecord`) and its fold over a log (`Replay`). It also holds the methods for the connection loop, the replay and start-up. The central lemma is `ReplayRebuildsLive`. It says that replaying, from the keyspaces a run started with, the records the run appended rebuilds the keyspaces the run left. `RestartRecovers` and `RestartFromFile` extend this to a log that already held records from earlier processes.
- `pubsub.dfy` (`PubSub`): the registry as nested maps, with pure functions for each operation and the class `PubSubManager` whose methods are proved against them. `WellFormed` is the registry invariant: no channel is kept without subscribers, and no mailbox holds more than 100 messages.
- `wrappers.dfy` (`Wrappers`): `Option`.

The code departs from the behaviour Redis documents for these commands, and the model follows the code:

- There is no DEL handler and no COMMAND handler in the dispatch table. DEL and COMMAND are therefore unknown commands: they get `""` and change nothing. The DEL test in the logging condition can never hold.
- PING accepts any number of arguments and ignores all but the first.
- The error returned by the log write is discarded by the request loop. The client still gets the handler's result. A failed write can leave part of a record in the file, and the next start-up read then stops there and loses every later record.
- The error returned by the start-up read is discarded. The server starts with whatever was replayed before the first record that does not decode.
- After handing SUBSCRIBE on, the request loop goes on reading requests from the connection.

## Model

| member | source | states |
|---|---|---|
| `Handler.Lookup` | handler.go:14-21 | The table answers exactly the names PING, GET, SET, HSET, HGET and HGETALL. Each name gets the handler registered under it. |
| `Handler.IsReply` | handler.go:7-107 | A wrong argument count gets the handler's arity error. Otherwise PING replies as `PingReply`, SET and HSET reply OK, and GET and HGET reply with the stored value as a bulk string or null when it is missing. HGETALL replies null for a missing hash, or else an array listing the hash's pairs in any order. |
| `Handler.LookupName` | handler.go:14-21 | Every handler is found under its own name and under no other name. |
| `Handler.PingReply` | handler.go:7-12 | With no arguments the reply is the simple string PONG. Otherwise it is a simple string holding the first argument's bulk; further arguments are ignored. |
| `Handler.Effect` | handler.go:26-68 | SET maps the key to the value, keeps every other key and leaves the hash keyspace alone. HSET creates the hash if it is new and sets the field. It keeps the other fields, the other hashes and the string keyspace. Every other handler, and every call with a wrong argument count, leaves both keyspaces unchanged. |
| `Handler.ErrorIffWrongArity` | handler.go:26-107 | A handler's reply is an error exactly when its argument count is wrong. |
| `Handler.SetThenGet` | handler.go:30-48 | GET after SET on the same key returns the stored value as a bulk string. |
| `Handler.HSetThenHGet` | handler.go:58-84 | HGET after HSET on the same hash and field returns the stored value as a bulk string. |
| `Handler.ListingFieldsDistinct` | handler.go:101-107 | An HGETALL listing, whose pairs are exactly the hash's entries and whose length is twice the field count, names no field twice. |
| `Handler.Store.constructor` | handler.go:23-51 | Both keyspaces start empty. |
| `Handler.Store.Set` | handler.go:26-36 | With a wrong argument count it replies with the `set` arity error. Otherwise it replies OK. The new keyspaces are `Effect` of the old ones. |
| `Handler.Store.Get` | handler.go:38-49 | The reply is the arity error, the stored value as a bulk string, or null for an absent key. The keyspaces are only read. |
| `Handler.Store.HSet` | handler.go:54-68 | It replies with the arity error or OK. The new keyspaces are `Effect` of the old ones, so an empty hash is created first for a new hash key. |
| `Handler.Store.HGet` | handler.go:70-85 | The reply is the arity error, null when the hash or the field is missing, or the value as a bulk string. |
| `Handler.Store.HGetAll` | handler.go:87-107 | The reply is the arity error, or null for an absent hash. Otherwise it is an array of 2 x fields bulk strings that alternate field and value, whose pairs are exactly the hash's entries, in any order. |
| `Handler.Store.Dispatch` | handler.go:14-21 | Calling the handler of a table entry gives one of that handler's replies and its `Effect` on the keyspaces. |
| `AppendOnlyFile.FirstUndecodable` | aof.go:64-73 | Reading stops at the first record that does not decode, or at the end of the log. Every record before that point decodes. |
| `AppendOnlyFile.Readable` | aof.go:60-76 | A read hands over exactly the decoded records before the stopping point, in log order. |
| `AppendOnlyFile.ReadableAfterAppend` | aof.go:25 | The log is never truncated. If the old log reads to its end, a read hands over the old records followed by the appended ones. Otherwise the appended records stay hidden behind the first bad record. |
| `AppendOnlyFile.Aof.Open` | aof.go:25 | Opening the file keeps every record already in it. |
| `AppendOnlyFile.Aof.Write` | aof.go:50-58 | If the write fails, that error is returned without syncing. The log then either is unchanged or ends in the part of the record that reached the file, which does not decode. Otherwise exactly one record, the value, is added at the end, earlier records are kept, and the sync result is returned. |
| `AppendOnlyFile.TornWriteHidesLater` | aof.go:53 | After a failed write leaves part of a record in the log, a read hands over only what it handed over before that write. Every record appended later is lost to it. |
| `AppendOnlyFile.Aof.Read` | aof.go:60-76 | The values handed over are the decoded records in log order, up to the first record that does not decode. There is no error exactly when every record decodes. Otherwise the error is that record's, and nothing after it is handed over. The log is not changed. |
| `Server.Upper` | main.go:24 | The upper-cased name has the same length, and each character is upper-cased on its own. |
| `Server.UpperIdempotent` | main.go:65 | Upper-casing an already upper-cased command name changes nothing. |
| `Server.CaseInsensitiveLive` | main.go:65-76 | On a connection, a command name and its upper-cased form lead to the same outcome: ignore, subscribe, unknown, or the same handler with the same arguments. |
| `Server.CaseInsensitiveReplay` | main.go:24-31 | On replay, a command name and its upper-cased form rebuild the same keyspaces. |
| `Server.Classify` | main.go:59-76 | A request that is not a non-empty array is ignored. Otherwise an upper-cased SUBSCRIBE goes to the subscription path with the remaining elements. A name missing from the table is unknown. Any other name runs its handler with the elements after the name. |
| `Server.LiveStep` | main.go:78-82 | A request is appended to the log exactly when it runs a handler, its upper-cased name is SET, HSET or DEL, and its argument count is right, so its reply is not an error. Only SET and HSET are ever appended. A request that is not appended leaves the keyspaces unchanged. |
| `Server.Live` | main.go:48-86 | A run of requests appends no more records than it has requests. Every record it appends is a request whose name is SET, HSET or DEL. |
| `Server.ReplayRecord` | main.go:23-32 | A record that is not a non-empty array aborts the replay. Any other record leaves the keyspaces that the same request would leave on a live connection. |
| `Server.Replay` | main.go:23-32 | Replaying a log aborts exactly when one of its records is not a non-empty array. |
| `Server.ReplayAppend` | main.go:23-32 | Replaying two logs one after the other is the same as replaying their concatenation. |
| `Server.StepReplays` | main.go:78-82 | Replaying what one live request appended rebuilds the keyspaces that request left. |
| `Server.ReplayRebuildsLive` | main.go:23-32 | Replaying the records a run of requests appended, from the keyspaces the run started with, yields exactly the keyspaces the run ended with. |
| `Server.RestartRecovers` | main.go:17-32 | If an earlier log replays from empty keyspaces to the state a run started from, then that log plus the run's records replays to the state the run ended with. |
| `Server.RestartFromFile` | main.go:17-32 | The same through the log file: when every old record decodes, a restart reads the old and new records back and rebuilds the run's final keyspaces. |
| `Server.HandleRequest` | main.go:59-84 | Ignored requests get no response. SUBSCRIBE is handed on with its channels. An unknown name gets the simple string `""`. Otherwise the response is exactly the handler's reply, whatever the log write did. The keyspaces become `LiveStep`'s. When `LiveStep` logs the request, the log grows by what the write leaves: the request, nothing, or a torn record. |
| `Server.HandleConnection` | main.go:48-86 | Over a connection's requests, the keyspaces and the log become those of `Live`. There is one response per request, and each is the response `HandleRequest` promises in the keyspaces left by the requests before it. |
| `Server.ReplayInto` | main.go:23-32 | Applying the replay callback to the values read, in order, leaves the keyspaces `Replay` gives. It reports an abort exactly when a record is not a non-empty array. |
| `Server.Start` | main.go:17-32 | Start-up opens the log unchanged, reads it, and replays what was read into empty keyspaces. The read error is ignored. |
| `PubSub.WellFormed` | pubsub.go:27-72 | Every channel in the registry has at least one subscriber, because unsubscribing deletes a channel once it is empty. Every mailbox holds at most 100 messages, the buffer size. |
| `PubSub.Subscribed` | pubsub.go:27-33 | The channel gets a subscriber map if it had none. The connection gets a new, empty mailbox there, replacing any earlier one. Other subscribers and other channels are unchanged. |
| `PubSub.Unsubscribed` | pubsub.go:66-72 | The connection leaves only the named channel, and the channel is deleted if no subscriber is left. Other channels are unchanged. An unknown channel changes nothing. |
| `PubSub.UnsubscribedAll` | pubsub.go:57-64 | The connection leaves every channel. Channels it was the last subscriber of are deleted. Every other subscriber keeps its mailbox. |
| `PubSub.Offer` | pubsub.go:90-94 | Offering a message keeps the waiting messages in order. It adds the message at the end exactly when fewer than 100 are waiting, and drops it otherwise, so a mailbox never grows beyond 100. |
| `PubSub.Published` | pubsub.go:85-95 | Every subscriber of the channel is offered the message: it is appended to a mailbox holding fewer than 100 messages and dropped for a full one. Other channels are untouched, and a channel without subscribers is a no-op. |
| `PubSub.Taken` | pubsub.go:111 | A delivery takes the oldest message of one mailbox. Every other mailbox is kept. |
| `PubSub.SubscribedKeepsWellFormed` | pubsub.go:27-33 | `Subscribe` keeps the registry invariant. |
| `PubSub.UnsubscribedKeepsWellFormed` | pubsub.go:66-72 | Unsubscribing from one channel keeps the registry invariant. |
| `PubSub.UnsubscribedAllKeepsWellFormed` | pubsub.go:57-64 | Unsubscribing from all channels keeps the registry invariant. |
| `PubSub.PublishedKeepsWellFormed` | pubsub.go:89-94 | `Publish` keeps the registry invariant, so no mailbox grows beyond 100 messages. |
| `PubSub.TakenKeepsWellFormed` | pubsub.go:111 | A delivery keeps the registry invariant. |
| `PubSub.UndrainedMailboxKeepsOldest` | pubsub.go:31 | If nobody drains a mailbox, it keeps the messages published to it, in publish order, until it holds 100, and drops every later one. |
| `PubSub.MailboxIsQueue` | pubsub.go:89-111 | A publish puts the message behind those already waiting, or drops it if the mailbox is full. A delivery then takes the oldest one first. |
| `PubSub.SubscribeThenPublish` | pubsub.go:31-32 | A message published after a subscription is the only one waiting in the new mailbox. |
| `PubSub.UnsubscribedReceivesNothing` | pubsub.go:57-72 | After unsubscribing from one channel or from all of them, no later publish reaches the connection there. |
| `PubSub.PubSubManager.constructor` | pubsub.go:16-21 | The broker starts with no channels and no quit signals. |
| `PubSub.PubSubManager.Subscribe` | pubsub.go:23-51 | The registry becomes `Subscribed`. The connection's quit signal is recorded or overwritten. The acknowledgement is the bulk array ["subscribe", channel, "1"]. The invariant is kept. |
| `PubSub.PubSubManager.Unsubscribe` | pubsub.go:53-82 | With `""` the registry becomes `UnsubscribedAll`, otherwise `Unsubscribed` of that channel. Afterwards the connection has no quit-signal entry, and the signal it had is closed. |
| `PubSub.PubSubManager.Publish` | pubsub.go:85-96 | The registry becomes `Published`. Quit signals are unchanged. The invariant is kept. |
| `PubSub.PubSubManager.Deliver` | pubsub.go:109-134 | If the task's quit signal is closed and the scheduler picks it, or no message waits, the task stops and nothing changes. With no message and no closed signal, it waits. Otherwise it takes the oldest message and writes ["message", channel, msg]. A failed write then unsubscribes the connection from all channels. |

## Left out

- The RESP byte codec (`Marshal`, the reader and the writer) is not part of this model. Values are modelled as a datatype and log records as values or undecodable stretches, not as bytes.
- TCP listening and accepting, reading requests from a connection and writing responses to it are I/O. A connection is the sequence of requests read from it, and a response is the value that would be written.
- Locks and goroutines are left out: the read/write mutexes, the delivery goroutine and its `select`, and the background sync goroutine of the log. So are the two lock defects of the source, `get` never releasing its lock and `hgetall` iterating its hash after unlocking.
- Creating the data directory, opening and closing the log file, and `fsync` durability are left out. A write or sync outcome is a parameter of `Write`.
- The file offset is not modelled. After a read that stops at an undecodable record, the source's next write lands at the reader's offset rather than at the end of the file. The model always appends at the end.
- `handleSubscription` is not part of this model. SUBSCRIBE is classified and handed on with its arguments.
- `fmt.Println` logging is left out.
- Go's map iteration order is left out. The HGETALL reply is specified up to the order of its pairs, and `Publish` and `Unsubscribe` visit keys in an arbitrary order.
- `strings.ToUpper` is modelled for ASCII letters and for the two other characters whose upper case is an ASCII letter: dotless i maps to `I`, and long s maps to `S`. Other characters are kept as they are. Command names are ASCII, so lookups come out the same.
- Closing a quit signal is recorded as set membership. The panic that Go raises when a signal is closed twice is not modelled. That happens whenever a signal that is already closed is registered again, by the same or another connection, and then closed.
- AppendOnlyFile.Aof.Write: the part of a record that a failed write leaves is modelled as one record the decoder rejects. The real decoder reads those bytes together with whatever follows them, and it may instead misread the later records.
- Server.ReplayRebuildsLive: it covers one serial run of requests. Connections run concurrently in the source, and the handler call (main.go:78) and the log write (main.go:81) are not one atomic step. Two connections setting the same key can log in the opposite order to the one in which they changed the keyspace, and a replay then rebuilds the other value.
- Server.HandleConnection: every log write on the connection is taken to succeed. A single request with a failing write or sync is covered by `Server.HandleRequest`.
- PubSub.PubSubManager.Deliver: a task drains the mailbox currently registered for its connection and channel. In the source, a task keeps its own buffer after that buffer is removed or replaced. It may still deliver messages left in it if the scheduler picks them before the quit signal. The model does not capture that.
