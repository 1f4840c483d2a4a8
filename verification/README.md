# Verified model of the lierc API's concurrent and destructive parts

This project models the parts of the IRC back end whose correctness depends on
more than one function: the move of a connection between two liercd instances,
the event-stream server, the codecs, the account state machine, the destructive
and paced admin commands, the replay of a connection's state to a new stream,
and the normal form of a connection's settings. `dafny verify dfyconfig.toml`
checks all of it.

Where the source computes a value, the model has functions. Where it changes
state, the model has a class or a method with loops, each proved against a
specification (a function of the old state, or a protocol step), and the
properties are lemmas about that specification.

| file | models |
|---|---|
| `Move.dfy`, `MoveOne.dfy` | `moveOne` beside any number of `FindOrRecreate` runs, as a transition system, and both as straight-line code that refines it |
| `Routing.dfy` | which instance a request path reaches |
| `Registry.dfy`, `Server.dfy`, `StreamProtocol.dfy` | the stream registry as a value, as mutable state, and under every interleaving of handlers, replays, deliveries, pings and shutdown |
| `LogTable.dfy` | the newest message id from two index probes |
| `Utf8.dfy`, `ConfigEncoding.dfy` | UTF-8 (section 3 of RFC 3629), undoing a second encoding over JSON trees, and the compare-and-set that saves the repair |
| `Storable.dfy` | the Storable hash parser and the byte layout it inverts |
| `Ids.dfy` | hexadecimal to base 62 |
| `Cidr.dfy` | the address check by bytes and mask, and the ranges it amounts to |
| `Accounts.dfy`, `Auth.dfy` | account rows under concurrent requests, and the handlers as they run |
| `Deletion.dfy`, `DeleteUsers.dfy` | destroy, settle, delete, sweep, against a database that keeps growing |
| `Pacing.dfy` | the paced loops of the admin commands |
| `Replay.dfy` | the six-phase event list |
| `ConnConfig.dfy`, `Patterns.dfy` | `Clean`, its rules, and the regular expressions they are written as |
| `Wrappers.dfy`, `Arithmetic.dfy` | helpers |

Concurrency is interleaving of atomic steps: a critical section, a channel
operation, one database statement or transaction, or one request to liercd. What
the environment answers (liercd's statuses, database errors, clocks, what other
processes do in between) is an input, so a theorem about every run is a theorem
about every such answer.

## What turned out not to hold

- The design of the second liercd
  (`docs/superpowers/specs/2026-11-03-liercd-next-design.md:16-17`) says a
  connection runs on exactly one instance at a time. It can run on both, and
  `MoveProtocol.BothRunIff` says exactly when, in every run and at every point of
  it: each end runs it because it did at first, or the mover created it there, or a
  create landed there that was looked up on that end's side of `SetLiercd`, and
  nothing has stopped it there since. Two runs show it.
  `MoveProtocol.StaleCreateRunsOnBoth` ends with both running after the move has
  reported success: a create looked up before `SetLiercd` lands after the second
  destroy. `MoveProtocol.OverlapRunsOnBoth` has both running before the second
  destroy, although each routed request is delivered right after its lookup.
- What such atomic routing does rule out is the first of these:
  `MoveProtocol.SourceRunsIffStaleCreate` says exactly when the source runs after the
  second destroy has been answered, and `MoveProtocol.AtomicRoutingNeverStale` that it
  then never does.
- A confirmed password reset can be undone by a login that began before it: the
  login read the legacy password, and its upgrade is stored without a condition.
  `AccountProtocol.ResetUndone` is such a run, and `AccountProtocol.ResetReplacedIff`
  lists every statement that replaces a reset.
- A user's connection that is added after `deleteUsers` listed theirs is deleted
  with the user's rows but never destroyed: `DeleteUsers.AddedAfterListing` is such a
  run. `DeleteUsers.DeleteUsers` proves that this is the only way, for users given
  once: of the connections it deletes, those destroyed are exactly those that were
  there when their user was listed.
- A string that was encoded more than twice is still undoable after its repair:
  one run undoes one layer, and `ConfigEncoding.LeftUndoableIff` says exactly when a
  second would find another.
- A failed commit is reported as "nothing deleted", but the answer to a commit can
  be lost after it took effect, as in `Deletion.LostReply`. The deletion theorems
  count such a transaction among those that took effect.
- `Clean` accepts some host names with a line break in them, since each label is
  matched with a `$` that also matches before a final newline.
  `ConnConfig.SomeHostBreaks` and `ConnConfig.HostBreaksIff` say which.
- `FromHex` of a negative number is the empty string, unlike any other input that
  is not a hexadecimal number. `Ids.FromHex` states this case.

## Model

| member | source | states |
|---|---|---|
| MoveProtocol.SourceRunsIffStaleCreate | internal/lctl/move_connection.go:85-119 | in every interleaving, once the second source destroy has answered 200 or 404, the source runs the connection if and only if a create was looked up before `SetLiercd`, landed after that destroy, and was not dropped since |
| MoveProtocol.RunsIff | internal/lctl/move_connection.go:74-118 | at every point of every run, an instance runs the connection exactly when it did at first, or a routed create or the mover's took effect there, and no drop or effective destroy has come there since |
| MoveProtocol.BothRunIff | docs/superpowers/specs/2026-11-03-liercd-next-design.md:16-17 | both run the connection exactly when each end has its own such reason, creates on the old one being looked up before `SetLiercd` took effect and creates on the target after it |
| MoveProtocol.LookupSide | internal/liercd/liercd.go:77-99 | a create is routed to the instance the column first named until `SetLiercd` takes effect, answered or not, and to the target from then on |
| MoveProtocol.AtomicRoutingNeverStale | internal/liercd/liercd.go:77-99 | if every routed create is delivered right after its column lookup, the source never runs again after the second destroy |
| MoveProtocol.StaleCreateRunsOnBoth | docs/superpowers/specs/2026-11-03-liercd-next-design.md:16-17 | the promise of exactly one running instance fails: a run of a successful move that ends with both running |
| MoveProtocol.OverlapRunsOnBoth | docs/superpowers/specs/2026-11-03-liercd-next-design.md:16-17 | it fails before the second destroy too, with each routed request delivered right after its lookup |
| MoveProtocol.ResultIsTruthful | internal/lctl/move_connection.go:42-119 | whatever `moveOne` returns, in every run: the column, the exact requests it sent and their answers agree with that result |
| MoveProtocol.OutcomeIff | internal/lctl/move_connection.go:42-119 | in every run, moveOne has ended with a result exactly when some step of its own ended it so: the result is exact, not only truthful |
| MoveProtocol.RefusedIff | internal/lctl/move_connection.go:42-88 | a move is refused exactly when a lookup fails, the column names the target or no instance, next is an end and has no host, the target's status is answered other than 404, or the first destroy isn't answered 200 or 404 |
| MoveProtocol.SourceIs | internal/liercd/liercd.go:104-117 | past the refusals the source is main for "" and "main", next for "next", and never the target |
| MoveProtocol.DestroysFound | internal/lctl/move_connection.go:85-112 | what moveOne remembers of its two destroys is whether the source was running as each arrived |
| MoveProtocol.MoverInvHolds | internal/lctl/move_connection.go:42-119 | at each point of `moveOne` the column and the requests so far are the ones that point implies, whatever the streams do |
| MoveProtocol.StartedMeansCreated | internal/lctl/move_connection.go:110-118 | `(true, nil)` only after a create on the target was answered 200, with the column naming the target and the target running at that moment |
| MoveProtocol.NeverBothWithoutRecreate | internal/lctl/move_connection.go:66-118 | as long as no recreate lands, the two instances never both run the connection |
| MoveProtocol.LookupOf | internal/liercd/liercd.go:120-145 | a routed create on its way names the instance the column named at its lookup, and has not been delivered since |
| MoveProtocol.StreamSteps | internal/liercd/liercd.go:161-194 | what FindOrRecreate does after each answer: done with a status of 200 or no answer, else a create, and after one answered 200 a last status that decides |
| MoveProtocol.StreamRoutes | internal/liercd/liercd.go:77-99 | and before each: no connection ends it, and a request goes to the instance that the column names as it is looked up, if that has a host |
| MoveProtocol.AfterRecording | internal/lctl/move_connection.go:85-92 | from `SetLiercd` on the column names the target for good |
| MoveOne.Deployment.MoveOne | internal/lctl/move_connection.go:42-119 | the straight-line code, with other processes acting between its statements, runs exactly these statements in this order as far as it gets; some step of the run ends it with the result, and the result is truthful |
| MoveOne.Deployment.DestroyOn | internal/lctl/move_connection.go:123-135 | problem for anything but 200 or 404, found exactly for 200, and the protocol's step |
| MoveOne.Deployment.SetLiercd | internal/db/db.go:148-157 | the column takes the target's stored name, unless the statement failed without effect |
| MoveOne.Deployment.FindOrRecreate | internal/liercd/liercd.go:161-194 | its own steps are the config, a status, a create and a status, in this order and as far as it gets; each is a protocol step of that stream, and it succeeds only if the instance the column names runs the connection as it ends |
| MoveOne.Deployment.Do | internal/liercd/liercd.go:120-146 | a routed request is a column lookup and then a delivery to the instance the column named, whatever other streams do between: its answer is that instance's, and a create that takes effect leaves it running |
| Routing.TrimSlash | internal/liercd/liercd.go:148-153 | drops the leading slashes and nothing else |
| Routing.RoutedByColumn | internal/liercd/liercd.go:77-99 | a path with any number of leading slashes reaches main or next exactly if the column of the connection it starts with says so, and next has a host |
| Routing.Destination | internal/liercd/liercd.go:120-126 | the instance a request is sent to is that of its trimmed path |
| Registry.OfferEachValid | internal/stream/writer.go:46-62 | offering a timely event keeps the queue bound, the offered order, and pings dominating what is before them |
| Registry.DeliverValid | internal/stream/server.go:247-254 | raising the latest id before offering keeps every ping at least every id before it |
| Registry.RegisterValid | internal/stream/server.go:189-199 | a new stream is registered, stopped already if the server is closed, and the invariant kept |
| Registry.CloseStreamsValid | internal/stream/server.go:178-187 | after closing, every registered stream is stopped |
| Registry.DeliverReachesOwner | internal/stream/server.go:247-254 | a delivery offers its event exactly once to each registered stream of the owner and to no other; the stream it finds full is stopped and deregistered |
| Registry.DeregisterTwice | internal/stream/server.go:201-213 | deregistering again changes nothing |
| Registry.OfferAllProgress | internal/stream/server.go:142-150 | offering to streams one at a time, in any order, is offering to all at once |
| Server.Stream.Offer | internal/stream/writer.go:46-62 | queues without blocking; a full queue stops the stream and reports false, a stopped one ignores the event |
| Server.Server.OfferLocked | internal/stream/server.go:168-172 | the offer and the drop of a slow client are one registry operation |
| Server.Server.DeregisterLocked | internal/stream/server.go:207-213 | the two-level map and the latest ids are updated together as the registry says |
| Server.Server.ServePing | internal/stream/server.go:114-126 | a wake ping reaches only the asking user's own stream |
| Server.Server.PingAll | internal/stream/server.go:142-150 | the nested loops over users and streams are the registry's one operation |
| Server.Server.Deliver | internal/stream/server.go:217-255 | nothing for an event without an owner, otherwise the registry's delivery |
| Server.Server.Register | internal/stream/server.go:189-199 | adds the stream under its user, stopped at once after shutdown |
| Server.Server.Seed | internal/stream/writer.go:133-137 | raises the user's latest id only while the user has a stream |
| Server.Server.CloseStreams | internal/stream/server.go:178-187 | marks the server closed and stops every registered stream |
| StreamProtocol.RunInv | internal/stream/writer.go:102-174 | the registry's invariant and what each handler relies on hold after every interleaving |
| StreamProtocol.LatestIsGreatest | internal/stream/server.go:158-164 | in every run, a user's latest id is the greatest of the message ids delivered and the database answers raised since the first of their present streams registered, or 0, and is kept only while above 0 |
| StreamProtocol.AnswersAreGiven | internal/stream/writer.go:128-137 | an answer that a handler raises to is one that the database gave it |
| StreamProtocol.AsksIff | internal/stream/writer.go:122-129 | a handler asks the database exactly when no id above 0 is known for its user |
| StreamProtocol.PingsDominate | internal/stream/server.go:152-172 | in every run: the queue is within its bound, taken and queued events are a prefix of those offered, and each ping's id is at least every message id and ping before it |
| StreamProtocol.OfferedAreDelivered | internal/stream/server.go:142-255 | in every run, a stream is offered exactly the messages delivered to its owner while it was registered and the pings meant for it then, each with the greatest id known at the time: each once, in order, and nothing else |
| StreamProtocol.WrittenThenQueued | internal/stream/writer.go:158-173 | until the loop ends, events written followed by those queued are the first events offered, in order |
| StreamProtocol.HandshakeCovers | internal/stream/writer.go:122-145 | the handshake ping carries the greatest id known for its user, which for a registered stream is at least the queried id and every message id delivered since it registered |
| StreamProtocol.WritesAfterDone | internal/stream/writer.go:158-173 | once stopped, a stream's loop writes at most what is queued plus one replay event already past its check, and the stream stays stopped |
| StreamProtocol.CleanupNeverBlocks | internal/stream/writer.go:66-78 | with the stream stopped, a replay goroutine still pushing gives up at its next step, and the cleanup's wait then ends |
| StreamProtocol.GoneForGood | internal/stream/writer.go:107-113 | a stream its cleanup has deregistered is never registered again |
| StreamProtocol.ShutdownStopsAll | internal/stream/server.go:178-199 | after `CloseStreams`, every registered stream is stopped, those opened later included |
| LogTable.ProbesCoverUser | internal/db/db.go:126-136 | the greater of the two probes is the maximum over all the user's rows, 0 for none |
| LogTable.LatestIsMaximum | internal/db/db.go:126-136 | it is at least every id of the user's and is one of them, or 0 |
| Utf8.DecodeIsInverse | internal/lctl/fix_config_encoding.go:181-187 | decoding accepts exactly the encodings of scalar-value texts |
| ConfigEncoding.UndoDoubleUTF8 | internal/lctl/fix_config_encoding.go:172-188 | the byte loop computes the undoing, and says no otherwise |
| ConfigEncoding.UndoneIsInverse | internal/lctl/fix_config_encoding.go:168-188 | the undoing of a text is another exactly when that one has a non-ASCII character and its double encoding is the text |
| ConfigEncoding.UndoneIsShorter | internal/lctl/fix_config_encoding.go:168-188 | every undoing has strictly fewer characters, so repeating it ends |
| ConfigEncoding.RepairValue | internal/lctl/fix_config_encoding.go:149-166 | the walk over objects and lists gives the repaired tree and reports each string it changed |
| ConfigEncoding.RepairUndoesDoubling | internal/lctl/fix_config_encoding.go:149-166 | repairing a tree all of whose non-ASCII string values were double-encoded gives the tree back |
| ConfigEncoding.RepairReplaces | internal/lctl/fix_config_encoding.go:149-166 | shape, keys and everything but the reported strings are kept, and the reports are exactly the changed strings |
| ConfigEncoding.ReplacesOnce | internal/lctl/fix_config_encoding.go:149-166 | a tree has one repair: the strings that are double encodings of a text that isn't plain ASCII, all of them and nothing else, are replaced by that text |
| ConfigEncoding.ReportsIff | internal/lctl/fix_config_encoding.go:74-80 | something is reported exactly when some string value is such a double encoding |
| ConfigEncoding.LeftUndoableIff | internal/lctl/fix_config_encoding.go:151-155 | one repair undoes one encoding: what it leaves can be undone again exactly when the string was encoded three times |
| ConfigEncoding.SavedAsMeant | internal/lctl/fix_config_encoding.go:89-97 | a config whose strings were all encoded twice is saved as it was meant |
| ConfigEncoding.DoubledNeedsRepair | internal/lctl/fix_config_encoding.go:74-77 | and it is one that is repaired, whenever encoding twice changed anything |
| ConfigEncoding.Configs.UpdateIfUnchanged | internal/lctl/fix_config_encoding.go:89-106 | writes only over the very text that was read |
| ConfigEncoding.FixAll | internal/lctl/fix_config_encoding.go:62-145 | for each config that is an object with a string to repair, in order: saves the encoding of its one repair exactly if the row still holds the text read, and counts it fixed or skipped; every write replaces the text its repair was computed from, and respects every edit before it |
| ConfigEncoding.NoEditOverwritten | internal/lctl/fix_config_encoding.go:89-106 | whenever the fixer writes, each earlier edit of that row left the very text the repair was computed from, or a write after it put that text back |
| Storable.DecodeHash | internal/storable/storable.go:22-60 | the parsing loop accepts exactly what the format's reader accepts, and gives its hash |
| Storable.GuardIsSafe | internal/storable/storable.go:30-36 | the size check refuses nothing the loop would accept |
| Storable.ParseIsInverse | internal/testenv/perlcookie.go:16-29 | parsing gives a list of entries exactly when the bytes are its encoding, for every list, length form and minor version |
| Storable.CookieLayout | internal/testenv/perlcookie.go:16-29 | the session cookie of a logged-in user, byte for byte |
| Storable.ValueLayout | internal/storable/storable.go:62-89 | each form of a value: its opcode, its length in one byte or four, and its bytes |
| Storable.LastEntryWins | internal/storable/storable.go:38-59 | the hash holds each key's last value |
| Storable.HashHasOnlyEntries | internal/storable/storable.go:38-59 | the hash has no key that is not an entry's |
| Ids.FromHex | internal/ids/ids.go:16-33 | the divide loop and the reversal give the same number in base 62 without leading zeros, "0" for zero and what is not a number |
| Ids.NumberConverts | internal/ids/ids.go:16-33 | a positive number gets its base-62 digits without a leading zero, and a negative one nothing |
| Ids.SignedHex | internal/ids/ids.go:17-21 | what is read as a number: hexadecimal digits, at least one, after an optional sign |
| Ids.HexPlaces | internal/ids/ids.go:19-21 | hexadecimal is a place notation, each digit its place in the alphabet |
| Ids.PrefixedHex | internal/ids/ids.go:17 | an 0x or 0X before a number changes nothing |
| Ids.ReverseInPlace | internal/ids/ids.go:29-31 | the swaps reverse the array |
| Ids.SameIdIffSameNumber | internal/ids/ids.go:16-33 | two strings of hexadecimal digits get the same id exactly when they are the same number |
| Ids.OneForm | internal/ids/ids.go:13-33 | a number has one base-62 form without leading zeros |
| Ids.IdsAreShort | internal/ids/ids.go:15-33 | at most 32 hexadecimal digits give at most 22 characters |
| Cidr.InPrefixIffSameNetwork | lib/API/ConnectionConfig.pm:176-183 | the byte-and-mask test holds exactly when address and network are equal after dropping the low bits, for every length and prefix |
| Cidr.MaskIs | lib/API/ConnectionConfig.pm:181 | the mask keeps exactly a byte's leading bits |
| Cidr.BlockedIp | lib/API/ConnectionConfig.pm:185-200 | blocks what is not an address, and otherwise exactly the listed ranges of numbers; a mapped IPv4 address gets its IPv4 verdict, any other IPv6 address none of the IPv4 ranges |
| Cidr.ListIsRanges | lib/API/ConnectionConfig.pm:156-168 | some entry of the list catches an address exactly when its number is in a range of its family |
| Cidr.RefusedDotted | lib/API/ConnectionConfig.pm:156-164 | what the IPv4 ranges are, by the bytes of an address |
| Cidr.RefusedByBytes | lib/API/ConnectionConfig.pm:161-163 | what the IPv6 ranges are, by the bytes of an address |
| Cidr.MappedIff | lib/API/ConnectionConfig.pm:190-194 | the mapped prefix marks exactly ::ffff:0:0/96, and the last four bytes are the low 32 bits |
| AccountProtocol.RunInv | lib/API/Controller/Auth.pm:233-408 | the invariant of the account rows holds in every run of every number of requests |
| AccountProtocol.ResetOncePerPair | lib/API/Controller/Auth.pm:391-408 | no two confirmed resets of a user replaced the same stored pair |
| AccountProtocol.FirstOncePerUser | lib/API/Controller/Auth.pm:258-264 | at most one request ever sees a user's first verification |
| AccountProtocol.NetworkOncePerUser | lib/API/Controller/Auth.pm:269-277 | the default network is added at most once for each user |
| AccountProtocol.EmailsAreApart | lib/API/Controller/Auth.pm:285-305 | successive verification emails to a user, the signup one included, are more than 60 s apart |
| AccountProtocol.StaysVerified | lib/API/Controller/Auth.pm:258-264 | whoever verified or reset stays verified |
| AccountProtocol.ResetReplacedIff | lib/API/DB.pm:121-139 | in every run, a stored reset is replaced exactly by another reset issued against it, an upgrade that began before it, the operator's `lctl reset`, or the user's deletion |
| AccountProtocol.ReplacedIff | internal/lctl/reset.go:52-53 | the same of one statement, the operator's unconditional one among them |
| AccountProtocol.ResetUndone | lib/API/Controller/Auth.pm:74-90 | a run in which a login with the old password undoes a confirmed reset |
| Auth.Database.SetPasswordHash | lib/API/DB.pm:121-128 | stores the hash and drops the legacy password, whatever is there |
| Auth.Database.ReplacePasswordHash | lib/API/DB.pm:130-139 | changes the row only if both stored values are the given ones, and counts it |
| Auth.Database.MarkVerified | lib/API/Controller/Auth.pm:258-264 | two statements with others between: the user ends verified, and true means this request saw the first verification |
| Auth.Database.Verify | lib/API/Controller/Auth.pm:233-253 | yes exactly for a valid token, whose user is then verified; the statements run are exactly these, and a signup's first verification leaves its user with a network |
| Auth.Database.ResetConfirm | lib/API/Controller/Auth.pm:367-412 | yes exactly if the token is valid, the transaction commits, and the pair the token was checked against is still stored when it begins; then this request has replaced it, with the user verified, and otherwise it has changed nothing |
| Auth.Database.ResendVerify | lib/API/Controller/Auth.pm:285-305 | one more email exactly if the user waits for a first verification and the last was sent over 60 s ago, and then every earlier one is over 60 s old |
| Auth.Database.Login | lib/API/Controller/Auth.pm:63-91 | the first row the password fits logs in, none if it fits none; a legacy row ends with this request's hash, and nothing else is changed |
| Deletion.Database.DestroyAndDelete | internal/lctl/check_connections.go:173-225 | of the connections whose destroy answered 200 or 404 and whose transaction took effect, no log, seen, private or connection row that was there is left, and no other row is missing, all after every destroy and the finished wait; no log row is left; deleted and skipped add up to the ids |
| Deletion.Database.DeleteEach | internal/lctl/check_connections.go:196-213 | one transaction per ready connection until cancelled; a failed one keeps its rows and is counted skipped |
| Deletion.AcceptedIff | internal/lctl/check_connections.go:251-262 | a connection is ready exactly when some listed destroy of it was accepted |
| Deletion.LostReply | internal/lctl/check_connections.go:201-206 | a run that reports nothing deleted and one skipped, although the rows are gone |
| Deletion.SweepsAgreeIff | internal/lctl/delete_users.go:172-183 | sweeping only newer log rows leaves what sweeping all leaves exactly when whatever is left is newer |
| DeleteUsers.DeleteUsers | internal/lctl/delete_users.go:54-204 | every user there at the start is found; of those all of whose listed connections answered 200 or 404 and whose transaction took effect, no row of the user's own or of the listed connections that was there is left in any of the seven tables, and no other row is missing, all after every destroy and any wait; what was destroyed is exactly what was listed, asked about and accepted, so with nobody given twice a deleted connection was destroyed exactly if it was there when its user was listed; each sweep leaves what sweeping everything would, and no log row from before the sweeps is left; deleted and skipped add up to the ids |
| DeleteUsers.DestroyUsers | internal/lctl/delete_users.go:131-149 | a user is ready exactly if no connection of theirs was refused, and asking stops at the first refusal |
| DeleteUsers.SweepUsers | internal/lctl/delete_users.go:172-183 | with only newer log rows left by the transactions, every sweep above the last log id leaves what sweeping everything leaves, and nothing logged before the sweeps began remains |
| DeleteUsers.DeleteReady | internal/lctl/delete_users.go:158-170 | one transaction per ready user until cancelled; what is left of a deleted user's log came after the last log id, whatever others insert |
| DeleteUsers.ReadyDestroyed | internal/lctl/delete_users.go:135-149 | every connection of a ready user was asked about and accepted |
| DeleteUsers.DestroyedIffAsked | internal/lctl/delete_users.go:131-149 | a connection is destroyed exactly if it was listed, asked about and accepted, with all those before it in its user's list |
| DeleteUsers.AddedAfterListing | internal/lctl/delete_users.go:192-204 | a run that deletes a connection added after the listing without ever destroying it |
| DeleteUsers.LastLogId | internal/lctl/delete_users.go:126-129 | the newest log id, 0 for an empty log |
| Pacing.Columns.MoveConnections | internal/lctl/move_connections.go:94-118 | stopping at i leaves the first i on the target and those after i untouched; never more than a batch between pauses, each pause after a full batch, none after the last |
| Pacing.MoveLeavesColumn | internal/lctl/move_connection.go:42-119 | every run of one move leaves the column its result implies |
| Pacing.PausesCount | internal/lctl/move_connections.go:111-117 | a paced run has started a batch for every pause, plus those since |
| Pacing.Revive | internal/lctl/revive.go:91-125 | tries exactly those not running, in order, counts the ones that failed, and with k tries pauses (k-1)/batch times, never before the first or after the last |
| Pacing.NotRunningIff | internal/lctl/revive.go:96-99 | the connections to start are those that didn't answer 200, each once and in order |
| Pacing.WaitForInstance | internal/lctl/revive.go:130-147 | at most ceil(wait/2s)+1 probes and less than wait+2s asleep; success exactly if the last probe was answered; giving up only after all of them |
| Pacing.DormantOn | internal/lctl/move_connections.go:137-159 | those that answer 404, in order, with the rest counted; an error exactly if something else was answered |
| Replay.Run | internal/stream/replay.go:89-192 | nothing is pushed if any status failed, otherwise a prefix of the event list that ends only where the stream refused |
| Replay.AboutOneConnection | internal/stream/replay.go:130-186 | the list's events about one connection are the list for that connection alone |
| Replay.EachOnItsOwn | internal/stream/replay.go:130-141 | with distinct ids, each connection has its own replay, and an unregistered one only CREATE and perhaps CONNECT |
| Replay.PhasesInOrder | internal/stream/replay.go:130-186 | no event comes before one of an earlier phase |
| Replay.ConnectsSay | internal/stream/replay.go:126-136 | what every connection says first: CREATE with its nick and its alias or host, and CONNECT if it is connected |
| Replay.WelcomesSay | internal/stream/replay.go:137-147 | the welcome, and the supported features and capabilities if there are any |
| Replay.ChannelSays | internal/stream/replay.go:148-185 | what a channel says in each phase, parameter by parameter |
| Replay.JoinedBySpaces | internal/stream/replay.go:78-84 | values joined into one parameter stand in order, with a space between two |
| Replay.ChannelsInOrder | internal/stream/replay.go:148-185 | a connection's channels speak one after the other, in order |
| Replay.EventsInOrder | internal/stream/replay.go:121-185 | in each phase the connections speak one after the other, in order |
| Replay.ChunksCover | internal/stream/replay.go:170-175 | the chunks have 1 to 50 nicks, number ceil(n/50) and concatenate to the list |
| Replay.NamesEndOnce | internal/stream/replay.go:164-178 | a channel with nicks gets its 353s and then exactly one 366 |
| Replay.PushNames | internal/stream/replay.go:164-178 | using up the nicks fifty at a time gives those events; no nicks field, none |
| ConnConfig.Clean | internal/connconfig/connconfig.go:158-279 | the settings cut to known keys and normalised, or the first problem in the order the fields are checked |
| ConnConfig.AcceptedIff | internal/connconfig/connconfig.go:158-279 | exactly these settings are accepted, field by field |
| ConnConfig.AcceptedBecome | internal/connconfig/connconfig.go:169-278 | what each accepted setting becomes: texts trimmed but for the password, blank optional ones left out, lists without blanks, flags false unless true |
| ConnConfig.CleanIsIdempotent | internal/connconfig/connconfig.go:158-279 | an accepted result, fed back, is accepted unchanged |
| ConnConfig.FixedIffNormal | internal/connconfig/connconfig.go:158-279 | settings come back unchanged exactly when they are in normal form |
| ConnConfig.AcceptedIsNormal | internal/connconfig/connconfig.go:73-109 | accepted text but the password, and every list item, is trimmed, not blank and by its rule, with no unknown key |
| ConnConfig.OnlyKnownKeysMatter | internal/connconfig/connconfig.go:167-278 | settings that agree on the known keys, null counting as missing, have the same outcome |
| ConnConfig.NickIsPattern | internal/connconfig/connconfig.go:54 | the nick rule is its regular expression and the forbidden characters |
| ConnConfig.UserIsPattern | internal/connconfig/connconfig.go:56 | the user name rule is its regular expression |
| ConnConfig.ChannelIsPattern | internal/connconfig/connconfig.go:57 | the channel rule is its regular expression, Perl's `$` included |
| ConnConfig.AliasIsPattern | internal/connconfig/connconfig.go:58 | the alias rule is its regular expression |
| ConnConfig.LabelIsPattern | internal/connconfig/connconfig.go:61 | the label rule is its regular expression |
| ConnConfig.NumericIsPattern | internal/connconfig/connconfig.go:62 | a numeric last label is what its regular expression says |
| ConnConfig.Ipv4Is | internal/connconfig/connconfig.go:123-134 | an IPv4 literal is four numbers of one to three digits, none above 255, with dots between |
| ConnConfig.HostIs | internal/connconfig/connconfig.go:136-153 | any other host is at most 253 characters of labels with dots between, the last not a number |
| ConnConfig.ReservedAre | internal/connconfig/connconfig.go:45-51 | the reserved nicks, compared folded |
| ConnConfig.ValidHost | internal/connconfig/connconfig.go:123-153 | the label loop accepts exactly the hosts of the rule |
| ConnConfig.SplitIsCut | internal/connconfig/connconfig.go:143 | the labels are the host cut at its dots: none contains one, and joined with dots they are the host |
| ConnConfig.HostBreaksIff | internal/connconfig/connconfig.go:61-62 | an accepted host contains a line break exactly when a label before its last ends in one |
| ConnConfig.SomeHostBreaks | internal/connconfig/connconfig.go:136-153 | such a host is accepted |
| ConnConfig.ListItems | internal/connconfig/connconfig.go:88-109 | the trimmed, non-blank items in order, or nothing for what is not a list of strings |
| ConnConfig.KeptTogether | internal/connconfig/connconfig.go:99-107 | a list's items keep their order, each trimmed, blanks dropped |
| ConnConfig.TrimTrims | internal/connconfig/connconfig.go:73 | trimming takes only the spaces around a text, leaves nothing to trim, and leaves trimmed text alone |

## Left out

- MoveOne.Deployment.MoveOne: the connection's row is not deleted, and no second move of it runs, while it is moved.
- MoveOne.Deployment.FindOrRecreate: runs among other streams and liercd's drops; a mover beside it is in the protocol alone. The status body it returns is not modelled, only whether it returns one.
- AccountProtocol.ResetReplacedIff: `lctl reset` names its user by email, of which there is one whatever the case.
- AccountProtocol.NetworkOncePerUser: counts only the network a first verification earns; a user can add the same network themselves.
- AccountProtocol.EmailsAreApart: is about the times the database records; that its clock does not go back is assumed, and so is a fresh salt in every new hash.
- Auth.Database.Verify: tokens are a given predicate on the row; signatures, bcrypt, sessions and sending mail are not part of this model.
- Deletion.Database.DestroyAndDelete: others insert rows but delete none, and a log row is visible as soon as its serial id is given out. Always with the tables its callers pass.
- DeleteUsers.DeleteUsers: likewise; the order in which a user's connections are listed is not modelled, nor the dry run.
- Pacing.Columns.MoveConnections: takes each move's result as given; what a result says of the column is Pacing.MoveLeavesColumn.
- Pacing.DormantOn: the query that lists the connections of an instance, and the limit on them, are inputs.
- ConfigEncoding.RepairValue: works on values, so the assignments into shared maps and slices and their aliasing are not modelled.
- Replay.Run: the goroutines that fetch the statuses are a function from connection to status; times of events are left out.
- ConnConfig.Clean: takes decoded JSON. Folding, character classes and the rounding of a number to a float are given tables, of which only that floats hold port numbers exactly is assumed.
- Cidr.BlockedIp: `inet_pton` is a given function; the default network's exemption is not modelled.
- Server.Stream.Offer: the check of `done` and the send are one step. Only the stream's own handler can stop it between them, and it has left its loop by then.
- Server.Server.Deliver: the owner lookup and the reading of MessageId from the message are inputs.
- HTTP and its deadlines, NSQ, database connections, JSON text, floating point times, printed wording and flag parsing.
- `saveChannels`, which overwrites concurrent edits and promises nothing (internal/stream/replay.go:196-238).
- That Go and Perl accept the same nicks; they differ in a nick's first character.
- The Go copy of the address check, configuration loading, listing and statistics commands, and the remaining Perl controllers, which would add only easy members.
