# ssh-bbs, modelled and proved in Dafny

ssh-bbs is a terminal chat and bulletin board behind an SSH gateway. `src/gateway.c` takes an SSH
password logon, trades the password for a one-time key at the session server and starts `bbs.js` with that
key; `server.js` keeps the sessions, the keys, the password database and the board; the programs under
`client/` follow the server's messages and show them. This project models those parts and proves what
they promise, over every input and every run.

`dafny verify dfyconfig.toml` checks it with Dafny 4.11.

## How the model is built

**The server twice.** `Machine` is `server.js` as a state machine: one step for each event its loop can
handle, which is a line of a data chunk, `end`, `error`, the reading of a record and the callback of
`db.get`, the storing of a record and the callback of `db.put`, the key timer. Callbacks that have not run
are part of the state, so a sequence of events is any interleaving of handlers and callbacks, and
`Machine.Run` ranges over all of them. `Server` is the program as it is written, a class with the global
variables as fields and one method for each function and handler, its loops included; each method is
proved to change the fields exactly as the state machine's function of that name says. `EventLoop` is the
loop around it: for whatever happens it calls the handler that was registered, on the socket its closure
captured, and `EventLoop.Serve` proves that the program started afresh is always in the state `Machine.Run`
reaches by the same events. What is proved of runs of the state machine is thereby proved of the program.

**A history and its readings.** Every state carries the log of what was observable so far: keys issued,
logins, ends of sessions, timers, the lock taken and released, passwords verified, records overwritten.
`History` reads off a log who has a session and since when, which keys are outstanding, which timers wait,
who holds the lock and what is in the password table, and says when an entry may follow a log
(`Lawful`). `Tracking` proves that in every run the state is exactly what its log says and the log is
lawful; the statements about keys, timers, the lock and passwords are then about logs.

**Clients and channels.** `ClientProgram` is the client's receive loop; `Convergence` joins the server and
any number of clients by one first-in first-out channel in each direction. A client does what
`client/client.js` does with a message; besides that it may say anything at any time, or stop reading.

| file | models |
|---|---|
| `Protocol.dfy` | messages and board records |
| `Text.dfy`, `Json.dfy`, `Decimal.dfy` | split, join and newline framing; `JSON.parse` and `JSON.stringify`; numbers as digits |
| `KeyGen.dfy` | `generateKey` |
| `Registry.dfy` | sockets and `clients`: login, kill, broadcast, lookup, user list |
| `Board.dfy` | threads: create, post, delete, the sorted listing |
| `History.dfy`, `Machine.dfy` | the log and its readings; the state machine |
| `Sessions.dfy`, `Tracking.dfy` | how one step moves the registry; state and log agree in every run |
| `Promises.dfy`, `Unlocking.dfy` | what the server promises of every run; the lock is given back |
| `Answers.dfy` | what each event is answered with, in so many words, and that nothing else is ever said |
| `Server.dfy`, `EventLoop.dfy` | `server.js` as a class, and the loop that calls its handlers: a refinement of the state machine |
| `Witnesses.dfy` | runs in which the exceptions named below happen |
| `Streams.dfy`, `ClientProgram.dfy`, `Convergence.dfy` | joins and quits as an account of the roster; the client; roster convergence |
| `Chat.dfy`, `BoardView.dfy` | `client/chat.js` and `client/boards.js` |
| `Gateway.dfy`, `Logon.dfy`, `Handoff.dfy` | `src/gateway.c`; the logon line it pastes together; the key's way through three processes |

## Results that are not what one might expect

- `Promises.ChangeCanMissItsRecord`: `changePassword` reads `socket.username` again in the callback of
  `db.get`. When the session ends between the request and that callback, the name is `false` by then and the
  new hash is filed under `false`. `Promises.PasswordChangesCompareAndSwap` gives the exact condition under
  which the record overwritten is the record verified.
- `Witnesses.DebugNeedsNoPassword`: the key `debug` logs anybody in as DEBUG-OPER, without a password and as
  often as asked (`server.js` lines 125 to 127; `Promises.DebugLogsIn` uses it). What is said of issued keys
  is said of every other key.
- `Promises.StrandedExactly`: a session can be listed in `clients` on a destroyed socket. The lemma names
  the only two ways, `Witnesses.LogonStrands` and `Witnesses.DestroyedLogsIn` are runs of each, and claims
  about what clients are shown are made for sessions that can be written to.
- `Promises.PrivateReachesOldest`: a private message is addressed to the oldest session of its target even
  if that one is stranded. `Witnesses.MessageLost` is a run in which it then reaches nobody although the
  target has a second, live session, and the sender is told nothing.
- `Promises.KillRevokesReissued`: `delete keys[socket.key]` in `kill` takes away an outstanding key
  exactly when the session's own key has been issued anew since its login and not been removed since.
  `Witnesses.DepartureRevokes` is such a run.
- `Logon.LogonReadBack`: `getkey` pastes the credentials into JSON unescaped. The server reads back what was
  typed exactly when neither has a quote, a backslash or a control character in it; `Logon.LogonMisread` says
  what it reads in a family of other cases. `Handoff.KeyHandoff` is proved under that condition.
- `KeyGen.ChunkRange`: the sum `1 + Math.random()` is rounded, so the largest double below 1 gives a chunk of
  131072, above the range the code suggests. The key still has 64 characters.
- `Text.CutIsHarmless`: neither receive loop keeps a partial line, so a chunk boundary is harmless exactly
  beside a newline.
- `BoardView.ListInOrder`: `setThreads` reads the clock once for each row, so its rows are in order of urgency
  at all times exactly when the expiries of neighbours are at least that drift apart; `BoardView.TickSplitsTie`
  is a listing that is not.
- `Gateway.TeardownReadsWrittenRc`: an `rc` that was never written is read exactly when the last `fork`
  failed and `kill(-1, 0)` fails; `Gateway.UnwrittenRcIsSent` is a session in which it is sent.
- The comment above `formatRemainingTime` puts cyan at up to one day and blue at up to four; its code makes
  cyan everything from one hour to under two days and blue two to under five days. The code is followed.
- The guard `n > SENDBUF_SIZE` in `getkey` can never fire (`Gateway.CredentialsFit`).
- `docs/PROTOCOL.md` spells the field of a password request `currnet`; the code reads `current`. It says a
  `join` is about another user; the code also sends a session its own. The code is followed.

## Model

| member | source | states |
|---|---|---|
| Convergence.RostersConverge | client/client.js:18-59 | In every run of server and clients, a live session with nothing in flight to or from it shows exactly the names now logged in, each with the number of its sessions |
| Convergence.NextConverges | server.js:177-189 | Whatever happens next, a live session has a join or quit to read, or has its request for the list queued, or the newest list sent to it (or its view) is the roster |
| Convergence.RostersSettle | client/client.js:43-59 | From any point, with anything else going on that logs nobody in or out: each message of the connection taken brings it exactly one step nearer to rest and each message written to it one step away; while steps are left one can be taken, and it is at rest exactly when none is left, showing the roster |
| Convergence.RostersSettleTogether | client/client.js:43-59 | The same for all live connections at once: with anything else going on that logs nobody in or out, the work they have between them falls by one with each message any of them takes and rises by one with each message written to one of them; while any is left one of them can take something, and at the very moment none is left all are at rest and every one shows the roster |
| Convergence.WorkShrinks | client/client.js:84-93 | Each message taken leaves exactly one unit of that work less, and the session, the roster and the invariant as they are |
| Convergence.AsideAdds | server.js:255-269 | Whatever others do meanwhile short of logging in or out adds to that work exactly the number of messages written to the connection, none of which is about who is logged in |
| Streams.StreamIsRoster | server.js:388-411 | Over any stretch of any run in which a session stays live, for every nick: sessions before, plus joins received (its own login included), minus quits received, are sessions now |
| Streams.StepBalanced | server.js:135-141 | The same account balances over every single step, the login itself included |
| Promises.RegistryInOrder | server.js:130-135 | After every run, `clients` holds each authenticated socket once and no other, strictly in the order of the logins that opened the sessions, each with that login's name and key |
| Promises.PrivateReachesOldest | server.js:259-269 | For an online target: the message appears in the output of exactly one socket if and only if the oldest session of the target is on a socket that can be written to, and then on that socket under the sender's name; otherwise no output changes, whatever other sessions the target has |
| Promises.PrivateIsAddressed | server.js:428-434 | A private message is addressed to the oldest session of its target, and without any session an error to the sender; what is addressed to a destroyed socket reaches nobody |
| Witnesses.MessageLost | server.js:259-269 | A run after which a message from bob to a user with a live session reaches nobody, because that user's older session is stranded |
| Promises.PublicReachesOthers | server.js:255-257 | A public message reaches every other session whose socket can be written to, exactly once, and no other socket |
| Promises.BoardReplyReachesSender | server.js:272-340 | A board reply goes to its sender alone, if its socket can be written to; a listing is each stored thread once, soonest expiry first |
| Promises.StrandedExactly | server.js:143-160 | A session becomes listed but unwritable in exactly two ways: the answer to an earlier password logon arrives on its socket, or a destroyed socket logs in |
| Witnesses.LogonStrands | server.js:143-160 | A run of the first kind: a connection logs in with a key while its password logon is being looked up |
| Witnesses.DestroyedLogsIn | server.js:171-174 | A run of the second kind: a later line of the chunk that had the connection destroyed presents a key |
| Promises.KeysServeTheirUsers | server.js:124-160 | In every run, for every key other than `debug`: logins with it, plus one if it is outstanding, never exceed its issues, and an authenticated socket that used it carries the user it was last issued to, earned by a matching password; a socket that used `debug` carries DEBUG-OPER; outstanding keys have 64 characters and `debug` is never one |
| Witnesses.DebugNeedsNoPassword | server.js:125-142 | The key `debug` is the exception: it is never issued, and a connection that presents it is logged in as DEBUG-OPER without a password |
| Promises.TimersSpareOnlyTheOnline | server.js:157-167 | In every run an outstanding key, and any key that logs someone in, either has its timer pending or its user had a session when the timer fired |
| Promises.KillRevokesNothing | server.js:402-405 | With fresh keys, ending any connection leaves the outstanding keys unchanged |
| Promises.KillRevokesReissued | server.js:402-416 | Without freshness: it removes one if and only if the socket is logged in and the key of that session has been issued anew since its login and neither used, ended nor timed out since that issue |
| Witnesses.DepartureRevokes | server.js:402-405 | A run in which alice's key is generated again for bob, and the end of alice's connection takes it from him |
| Promises.LockDiscipline | server.js:20-31 | In every run the lock file exists exactly while one operation is in flight, never two; every release undoes the acquisition just before it; between two acquisitions the first is released |
| Unlocking.LockIsReleased | server.js:68-103 | From any acquisition on, in any interleaving, each of the operation's own callbacks brings its release nearer, four are enough, and until then one is always due |
| Unlocking.OthersWait | server.js:20-24 | While an operation holds the lock no other event, logons and password requests included, changes the database, the lock or the operation |
| Unlocking.OwnStep | server.js:78-102 | The operation's next callback moves it on or ends it with the lock file gone and the release recorded, on every error path too |
| Promises.PasswordChangesCompareAndSwap | server.js:78-103 | In every run each overwrite follows a verification by the same operation; the record overwritten is the record verified if the socket's name was the same at request and check; the verified record is replaced by the new hash in that case and left as it was in the other |
| Promises.ChangeCanMissItsRecord | server.js:78-95 | A concrete run in which the new hash is filed under `false` and the user's own record stays |
| Promises.BoardHistory | server.js:200-228 | Over any stretch of any run: threads are filed under their own ids below the next id, change only by messages at the end, no id ever names a second thread, and a thread disappears only by the delete command of a session of its creator |
| Promises.BoardHistoryFromStart | server.js:110-112 | The same between any two moments of any run from the start of the server |
| Promises.IdsAreConsecutive | server.js:110-112 | In every run thread ids are given out one after the other from 1, one for each thread filed and none for anything else |
| Promises.BoardStep | server.js:295-340 | One event leaves the board alone or is one board command by a logged-in user that appends that user's post, files one thread under the next id, or removes a thread of that user by its id |
| Promises.SentMessagesAreHandled | server.js:349-358 | However a client's messages are cut into chunks at message boundaries, whatever happens between the chunks and whatever the clock says at each message, the server handles exactly those messages, each once and in order |
| Answers.StepSaysOnly | server.js:121-341 | Whatever the event, outputs only grow, and only by replies of the kind that event calls for, with these names, bodies and notices |
| Answers.NotesComeFromSessions | server.js:255-269 | A public or private note is only ever written in the step that handles that very message of a session, under its user's name |
| Answers.StrangersAreTurnedAway | server.js:143-174 | A connection that is not logged in and sends anything but a logon or a key that is accepted, or a logon while the lock file exists, is destroyed; nobody is told anything, and keys, timers, board, database, log and all other connections stay as they are |
| Answers.SomeRequestsAreIgnored | server.js:230-341 | A logged-in user's key, logon, unknown request or message to nobody changes nothing at all |
| Answers.StatusIsAnswered | server.js:191-198 | The asker alone is told the whole seconds since the start and the number of sessions |
| Answers.LogonIsAnswered | server.js:29-44 | The key is written, filed and given a timer if and only if the record was found and the password matches it; otherwise nobody is told anything and the keys stay; in both cases the lock is given back and the connection destroyed |
| Answers.TimerOutcome | server.js:161-167 | The key goes if its user has no session and stays if there is one; nobody is told |
| Answers.ChangeIsAsked | server.js:62-76 | Which of three notices refuses a change for which cause, the bound of eight characters included, with nothing else happening; without a cause the lock is taken and the record of the socket's user read |
| Answers.ChangeIsChecked | server.js:78-95 | Which notice refuses it once the record is read, with the lock given back; otherwise the new hash is to be stored under the name the socket carries now |
| Answers.ChangeIsAnswered | server.js:95-102 | A fault is told as one and success as `Password changed.`, to the user who asked alone, and the lock is given back |
| Answers.ChangedMeansStored | server.js:95-101 | `Password changed.` is only ever written in the step that reports a stored record, and the table then holds the new hash under the name it was stored for |
| Answers.DatabaseSteps | server.js:95 | A read finds the user's record, or none for an error or a missing one; a write stores that hash under that name; nothing else changes |
| Tracking.TracksStep | server.js:343-380 | Every event keeps registry, keys, timers, lock and table equal to what the log says, and the log lawful |
| Tracking.Reachable | server.js:11-15 | That agreement holds after every sequence of events from the start of the server |
| Tracking.FindsOldest | server.js:428-434 | The socket found by name is that of the oldest open session of that name |
| Tracking.NameMatches | server.js:132 | The name a socket carries is that of the session the log says is open on it |
| Sessions.StepMoves | server.js:121-142 | Every step opens a connection, admits exactly one socket, ends exactly one session, sends one list, or leaves sessions and roster notices alone; which one is decided by the event and state before it |
| Sessions.MemberFrame | server.js:235-341 | What a logged-in user's message cannot touch: only `quit` removes a key, only `password` touches the database, only board commands the board |
| History.OutstandingIffIssued | server.js:157-164 | A key is accepted if and only if nothing has used, ended or timed it out since it was last issued, and then for the user of that issue |
| History.LoginsWithinIssues | server.js:129-134 | At most one login for each time a key was issued, counting the key while it is outstanding, for every key but `debug` |
| History.LoginIdentity | server.js:129-132 | Whoever logs in with a key other than `debug` is the user the key was last issued to, unused since |
| History.IssueIsEarned | server.js:33-43 | A key is issued only as the end of a logon of that user on that connection whose password matched the stored record |
| History.TimerWaitsOrRan | server.js:161-167 | An issued key's timer is still to fire or has fired, for that key and user |
| History.TimerSpares | server.js:163-166 | An outstanding key's timer has not fired or found the user online |
| History.OpenKeyIsSpent | server.js:132-134 | With fresh keys no open session's key is outstanding |
| History.OpenKeyReissued | server.js:157-158 | An open session's key that is outstanding was generated again after its login |
| History.HeldSince | server.js:26 | The lock is never taken twice; its holder took it with the last lock entry |
| History.LockAlternates | server.js:29-31 | Acquisitions and releases alternate, each release by the operation that acquired |
| History.ChangeIsCompareAndSwap | server.js:86-95 | On every lawful log, an overwrite is tied to its verification, with the exact condition for it to be a compare-and-swap |
| History.ReplayOrdered | server.js:135 | Open sessions stand in strictly increasing login order, each at the entry that opened it |
| Registry.WriteAllReaches | server.js:394-399 | The broadcast loop writes to each listed socket that can be written to, the sender's excepted, exactly once and to no other |
| Registry.FindFromFirst | server.js:428-434 | The search answers the first listed socket of that name, and none if and only if there is none |
| Registry.WithoutMembers | server.js:418-426 | Removal takes out that socket and no other |
| Registry.TallyCounts | server.js:182-187 | The user list has exactly the names logged in, with their number of sessions |
| Registry.TallyIsMultiset | server.js:177-189 | Two rosters give the same list if and only if they are the same multiset of names |
| Registry.LoginArrives | server.js:129-142 | A login sends the newcomer its name, its own join and the status, in that order, and every other session one join, as far as their sockets can be written to |
| Registry.DropDeparts | server.js:402-416 | Ending a session tells it nothing and every remaining session that can be written to exactly one quit with its name |
| Registry.DropQuiet | server.js:402-416 | Ending a connection that is not logged in changes no session and tells nobody |
| KeyGen.GenerateKey | server.js:114-119 | The accumulating loop computes the key of its sixteen draws |
| KeyGen.ChunkRange | server.js:117 | Rounding of the sum to a double included, each chunk lies in [65536, 131072], the last only for draws within half a step of 1, and has exactly four base-36 digits |
| KeyGen.ChunkBits | server.js:117 | Rounding to even, multiplying and rounding down leave exactly the sixteen leading bits of the draw plus half a step |
| KeyGen.BitsExact | server.js:117 | For draws that 1 + d represents exactly, those are the draw's own sixteen leading bits |
| KeyGen.KeyWidth | server.js:114-119 | Every key is 64 lower-case alphanumeric characters |
| KeyGen.KeyInjective | server.js:114-119 | Two sequences of draws give the same key if and only if they agree on the bits of every chunk |
| Board.ListingOrder | server.js:272-284 | The listing is a permutation of all stored threads, nondecreasing in created + ttl whatever the clock reading |
| Board.ServeOutcome | server.js:286-340 | Exactly when each board command succeeds and the whole board and reply it then leaves, every field of a new thread included; a refused command changes nothing |
| Board.ServeRefusals | server.js:286-340 | Which refusal is told for which cause, word for word |
| Board.ServeEvolves | server.js:295-340 | What one board command may do to stored threads, and that ids stay in place |
| Board.ByRemainingConsistent | server.js:278-282 | The comparator is consistent, so the engine's sort is bound by its contract |
| Board.TopicsBelowMembers | server.js:273-276 | The collecting loop finds every stored thread exactly once |
| EventLoop.Serve | server.js:343-381 | The program from its start, calling the registered handler for everything that happens, whole chunks and single callbacks in any order, is in the state the machine reaches by those events, and that state is what its log says |
| EventLoop.Handle | server.js:343-380 | For every event the handler called, on the socket its closure captured, takes the machine's step |
| EventLoop.AnchoredFromStart | server.js:149-167 | In every run, every callback still to run was set up on a connection that exists, so each handler can be called on its socket |
| Server.SessionServer.Broadcast | server.js:388-400 | The loop over `clients` has the effect of the registry's broadcast |
| Server.SessionServer.RemoveSocket | server.js:418-426 | `indexOf` and `splice` take the socket's entry out of `clients`, and say whether it was there |
| Server.SessionServer.GetSocketByUsername | server.js:428-434 | The search loop finds the first entry of that name or nothing |
| Server.SessionServer.Kill | server.js:402-416 | The handler's effect on all variables is the state machine's `Kill` |
| Server.SessionServer.SendUsers | server.js:177-189 | The counting loop sends the tally of the listed names |
| Server.SessionServer.PresentKey | server.js:124-147 | A key is taken and its user admitted, or the socket destroyed |
| Server.SessionServer.HandleNew | server.js:121-175 | The three branches for a socket that is not logged in |
| Server.SessionServer.ChangePassword | server.js:62-78 | The refusals in order, or the lock taken and a read started |
| Server.SessionServer.CollectTopics | server.js:272-276 | The loop over `threads` collects the topics in ascending id order |
| Server.SessionServer.CreateNewThread | server.js:200-216 | The thread or nothing, and the next id used up only with a thread |
| Server.SessionServer.PostMessage | server.js:218-228 | One post at the end of that thread and nothing else, unless the text is empty |
| Server.SessionServer.ServeBoard | server.js:272-340 | The board commands change `threads` and `nextThreadID` and answer as `Board.Serve` says |
| Server.SessionServer.HandleMessage | server.js:230-341 | The whole dispatch is the state machine's |
| Server.SessionServer.OnData | server.js:349-369 | The loop over a chunk's lines is the run of the non-empty lines in order, each at its own clock reading; a line that throws kills the session and the rest is still handled |
| Server.SessionServer.OnLogonRead | server.js:29-44 | The lock is released, then the password decides between a key and destruction |
| Server.SessionServer.OnChangeRead | server.js:78-95 | Both refusals release the lock; otherwise a write under the socket's present name starts |
| Server.SessionServer.OnPut | server.js:95-102 | The lock is released, then the outcome reported |
| Server.SessionServer.OnKeyTimer | server.js:161-167 | The key is dropped unless its user has a session |
| ClientProgram.Client.HandleMessage | client/client.js:9-71 | A message changes name and list and asks for the list as the client's transition says |
| ClientProgram.Client.OnData | client/client.js:84-100 | The loop over a chunk's lines takes exactly the messages in it, in order |
| ClientProgram.Client.constructor | client/client.js:73-82 | A client starts with an empty view and presents its key |
| ClientProgram.TookNewest | client/client.js:18-59 | After any messages the client shows the newest list among them and has asked once for each join or quit and for nothing else |
| ClientProgram.TookName | client/client.js:13-16 | After any messages the client goes by the name in the newest `user` message among them |
| ClientProgram.DecodeWhatWasSent | server.js:383-386 | Messages sent by the server and received whole are decoded to exactly those messages |
| Text.FramingRoundTrip | client/client.js:107-110 | `send` then split and skip-empty gives exactly the messages sent |
| Text.FramingInChunks | server.js:349-358 | The same for every division of the stream into chunks at message boundaries |
| Text.CutIsHarmless | client/client.js:84-89 | Cutting a stream in two changes what is received if and only if the cut is not beside a newline |
| Json.ParseStringify | server.js:383-386 | `JSON.parse` undoes `JSON.stringify` on every object of strings, escapes included |
| Json.NothingMayFollow | server.js:357 | What is parsed is the whole text: only white space may follow the value |
| Json.StringifyNoControls | server.js:383-384 | What `JSON.stringify` writes has no raw control character in it, so no newline |
| Json.ThreeTexts | server.js:357 | An object costs at least the names, texts, escapes and punctuation of any three of its string properties |
| Logon.MessagesRoundTrip | client/client.js:107-110 | Messages of strings, stringified and framed by `send`, are received as lines that parse to exactly those messages |
| Text.JoinSplit | client/chat.js:63 | Joining what was split gives the text back |
| Text.SplitConcat | client/chat.js:84 | Splitting a concatenation fuses the pieces that meet |
| Chat.MsgRoundTrip | client/chat.js:59-66 | A line sends this text to this nick if and only if it is `/msg nick text`, runs of spaces in the text included |
| Chat.PasswdRoundTrip | client/chat.js:75-81 | A line requests this change if and only if it is `/passwd` with these two words |
| Chat.LinesDispatch | client/chat.js:83-98 | In terms of the text: exactly the lines whose first word is `/users`, `/quit` or `/help` ask for the list, ask to quit and show the help; exactly those with `/msg` or `/passwd` and the wrong number of words show its usage; exactly those with none of the five are no command; nothing else is ever sent |
| Chat.TypedReachesOldest | client/chat.js:83-98 | `/msg nick text` typed by a logged-in user puts exactly that text before the oldest session of that nick and nobody else, if and only if that session can be written to |
| Chat.CandidatesAre | client/chat.js:239-246 | The candidates for completion are exactly the commands the text begins, once each |
| Chat.CompletionIsUnique | client/chat.js:239-251 | Completion fills in a command if and only if the text is a beginning of one longer than the slash; what it fills in is dispatched |
| Chat.ChatView.HandleCommand | client/chat.js:83-98 | Split, shift and dispatch have the outcome and the request sent that the line calls for |
| Chat.ChatView.CompleteCommand | client/chat.js:230-257 | The draining loop finds exactly the commands the text begins, and fills in a single one |
| Chat.ChatView.UpdateUsers | client/chat.js:294-307 | One row for each user in order, counts above one shown, the client's own row selected or else the first |
| Chat.RowShowsUser | client/chat.js:300-302 | Read back from a row of the user list: the name, and the number of sessions unless that is one |
| BoardView.FormatRemainingTime | client/boards.js:17-46 | The step-by-step divisions and branches give the label of the remaining time |
| BoardView.Decomposition | client/boards.js:22-29 | Whole seconds left = ((days * 24 + hours) * 60 + minutes) * 60 + seconds, each part in range |
| BoardView.LabelUnderestimates | client/boards.js:17-46 | The label is the true time rounded down to the last unit shown, in the colour of its band, EXPIRED exactly when nothing is left |
| BoardView.LabelReads | client/boards.js:17-46 | Read back from the printed text: EXPIRED exactly when nothing is left; else days and hours, hours and minutes, or minutes and seconds, in that order, each rounded down, in the colour red, cyan, blue or green of the time's band |
| BoardView.UrgencyMonotone | client/boards.js:32-45 | Less time left is never less urgent |
| BoardView.ListingInUrgencyOrder | client/boards.js:153-163 | Server listing and client rows composed: at any one clock reading the rows run from most to least urgent |
| BoardView.DriftWithinGap | client/boards.js:159-162 | With a clock read for each row, two rows are in order at every time if and only if their expiries are at least the drift apart |
| BoardView.ListInOrder | client/boards.js:153-163 | A whole list of rows, each with its own clock reading, is in order of urgency at every time if and only if every gap between the expiries of neighbours is at least the drift of the clock between them |
| BoardView.TickSplitsTie | client/boards.js:159-162 | A listing of two threads that expire together whose first row shows red and whose second shows expired, because the clock ticks in between |
| BoardView.RowRoundTrip | client/boards.js:135-142 | Selecting a thread's row asks for that thread, whatever its title and label |
| BoardView.SetThreads | client/boards.js:153-168 | The loop builds one row for each thread, in order |
| BoardView.RowsShow | client/boards.js:158-163 | Read back from the text of each row: its thread's id, the label of created + ttl minus the clock reading, and the title, whatever characters that has |
| BoardView.RowShows | client/boards.js:158-162 | The same for one row, and that the time shown is created + ttl minus the clock reading |
| Decimal.DecRoundTrip | client/boards.js:142 | Reading back a printed number gives the number, and it is printed in digits |
| Gateway.SessionKeepsItsPromises | src/gateway.c:257-396 | Through a whole session, whatever libssh and the kernel answer: at most 100 authentication polls, each allowed, passed exactly when logged on without a failed poll; no child before that; once passed, at most one child, its output registered at most once, the exit status sent that child's, a child not reaped killed, and a child reaped or a fork failed when the loop is left with the channel open |
| Gateway.LogonKeepsItsPromises | src/gateway.c:317-330 | The logon from the fresh structures, passed or not, with the three reasons for giving up |
| Gateway.AuthLoopBounded | src/gateway.c:317-330 | Every poll happens with fewer than three refusals and the logon incomplete; passing means authenticated with a channel; giving up means three refusals, a hundred polls or a failed one |
| Gateway.AuthLoopFails | src/gateway.c:325-328 | The loop is passed if and only if the session ends up logged on and none of its polls failed |
| Gateway.ThreeRefusalsEndTheLogon | src/gateway.c:317-330 | In terms of the callbacks alone: before each of at most 100 polls fewer than three logons had been refused and none let in with a channel opened; it is passed only after both, and given up only after three refusals, a hundred polls or a failed one |
| Gateway.PollsAccount | src/gateway.c:205-225 | After any polls: the attempts counted are exactly the logons refused, authenticated holds exactly if one was let in, the channel is the one opened last, the key buffer holds the answer to the last logon if that was let in and zeros if not |
| Gateway.MainLoopSound | src/gateway.c:335-367 | Any number of turns keep one child at most, registration after its start and once, `rc` written only by reaping it; leaving with the channel open means it is reaped or a fork failed |
| Gateway.TurnOutcome | src/gateway.c:335-367 | Exactly when the loop goes on after a turn: while the channel is open and no fork has failed and no child has exited; a child that exits while the channel is open is reaped in that turn and its status written to `rc` |
| Gateway.ChildHasItsTerminal | src/gateway.c:122-162 | In any session that starts a program: it was forked by a shell request, its input and output are the master end of the pty last opened before that, its argument is the key of the last logon before that, and that master end is what is registered |
| Gateway.TeardownReadsWrittenRc | src/gateway.c:379-387 | `rc` is read unwritten exactly when the last fork failed and `kill(-1, 0)` fails; else the status is sent exactly when the child exited and was reaped (section 6.10 of RFC 4254); a started child is reaped or sent SIGKILL |
| Gateway.UnwrittenRcIsSent | src/gateway.c:379-382 | A session in which the fork fails and nothing can be signalled: what the unwritten `rc` holds is sent as exit status |
| Gateway.CredentialsFit | src/gateway.c:174-181 | Accepted credentials always fit the send buffer whole |
| Logon.LogonReadBack | src/gateway.c:172-181 | The server reads the credentials typed from the line `getkey` pastes together if and only if neither has a quote, a backslash or a control character in it |
| Logon.LogonMisread | src/gateway.c:172-179 | A whole family where it reads another name, since of two properties of one name the later counts |
| Logon.AliceAsksForBob | src/gateway.c:174-179 | One of them that passes the length checks |
| Logon.CredentialsInOneLine | server.js:351-355 | The line is handled as the one line it is if and only if no credential has a newline in it |
| Gateway.Session.GetKey | src/gateway.c:164-202 | The key buffer is filled, with its NUL, exactly for acceptable credentials and an answer of 64 bytes, and otherwise not touched |
| Gateway.Session.AuthPasswordFunction | src/gateway.c:205-218 | The key is cleared first; success authenticates, a refusal is counted |
| Gateway.Session.ExecPtyFunction | src/gateway.c:122-144 | A fork starts a child with the key as argument and its output on the pty, or leaves pid at -1 |
| Gateway.Session.ShellRequestFunction | src/gateway.c:146-162 | No second child while one is recorded, none without a pty |
| Gateway.Session.Authenticate | src/gateway.c:317-330 | The polling loop has the outcome of the specified loop |
| Gateway.Session.TakeTurn | src/gateway.c:335-367 | One turn, with its short-circuit test, has the specified effect |
| Gateway.Session.AddOutputs | src/gateway.c:347-365 | The child's output is registered and the event recorded |
| Gateway.Session.WaitPidNoHang | src/gateway.c:366-367 | `rc` is written exactly when an exited child is reaped |
| Gateway.Session.Serve | src/gateway.c:335-367 | The whole loop has the effect of the specified one |
| Gateway.Session.HandleSession | src/gateway.c:257-396 | Both loops and teardown in sequence, teardown only after the logon passed |
| Handoff.KeyHandoff | server.js:124-160 | For credentials in which JSON would escape nothing: a key the server writes to the gateway's connection was earned with exactly these credentials, passes the length checks, reaches the program whole and, if keys are fresh, serves at most one login in whatever follows, that user's |
| Handoff.KeyLetsIn | server.js:124-147 | If keys are fresh, a connection that presents that key at any later time is logged in as the user who typed the credentials if and only if the key has been neither used nor timed out since its issue; otherwise it is destroyed |
| Handoff.GatewayAsksForItsUser | src/gateway.c:172-191 | Under that condition the only logon the gateway's connection ever starts at the server is of the user and password typed |
| Handoff.GatewayPassesKeyOn | src/gateway.c:192-197 | A well-formed answer authenticates, and the program is started with exactly that key, which `bbs.js` accepts |
| Handoff.CTextWhole | src/gateway.c:136 | The argument read up to NUL is the whole key |
| Handoff.RunKeepsKeys | server.js:157-159 | In every run each raw key written to a connection was issued to that connection |

## Left out

Assumed or taken as inputs:

- Parsing of messages: the server's and the client's parser are parameters, so a line that throws is any line; `Json` models `JSON.parse` and `JSON.stringify` themselves, and `Handoff.KeyHandoff` asks of the parser that it reads logons as `Json.Parse` does. Fields are strings or integers as the protocol gives them, and a field that a message lacks counts as empty or zero; a `type` that is equal to a string only after conversion is not part of the model.
- An escape that names half of a surrogate pair is read as U+FFFD, because a character of the model is a whole code point.
- Random draws are any real numbers in [0, 1), all doubles among them; the rounding of `1 + Math.random()` is modelled, and the product with 65536 is exact in binary64.
- Names inherited from `Object.prototype`, such as `constructor`, as keys, users or commands: maps here hold what was put into them.
- bcrypt's comparison and hashes, random draws, clock readings (one for each message handled) and the start time are parameters; uptime is computed with exact division.
- The engine's sort is any function that keeps the contract of sections 23.1.3.30 and 23.1.3.30.1 of ECMA-262; the order of threads with equal expiry is left open.
- A thread's ttl is an integer; text that `parseInt` cannot read, which passes the test `ttl<1`, is not part of the model. The server never enforces ttl, so nothing is claimed about expiry beyond the listing.
- Strings are sequences of code units; byte lengths and character encodings are not modelled.
- Writes to a destroyed socket are dropped. Further lines and events on a destroyed socket are allowed at any time, which is more than the runtime does.
- Lists and threads are values held in the class's fields; the source reaches a thread only through `threads`, so no aliasing is lost.
- Freshness of generated keys is an assumption only where a statement names it (`Fresh`).

Deliberately narrower:

- Convergence.RostersConverge: for sessions whose socket can be written to; a stranded session is shown nothing more, and `Promises.StrandedExactly` says how one comes about.
- Convergence.RostersSettle: progress, here and in RostersSettleTogether, is for a stretch in which nobody logs in or out and the connections send only their requests for the list; while others come and go there is no moment at which it must be at rest.
- Streams.StreamIsRoster: for sessions that stay live over the stretch, for the same reason.
- Handoff.KeyHandoff: for credentials in which JSON would escape nothing, the condition that `Logon.LogonReadBack` shows to be exact; it assumes that the gateway's connection carries what `getkey` writes and nothing else, whole, and that the 64 bytes arrive in one `recvfrom`.
- Chat.ChatView.UpdateUsers: takes the entries in the order of the message; the engine's order of object keys is not modelled.
- BoardView.RowRoundTrip: for ids that are not negative, as every stored id is.

Not modelled:

- Failing file-system calls on the lock file, failure to open the database, and `add-user.js`, which takes the lock in another process by two separate system calls.
- Key exchange, the accept loop, signal handling, window sizes, the copying of terminal data, the closing of descriptors and the last five seconds of waiting in `src/gateway.c`; reuse of process numbers.
- Failure of `ssh_event_add_fd`: its closing of the channel is covered only by the channel being open or not at the end of a turn, which is an input.
- Authentication requests after success (section 5.1 of RFC 4252): the model follows the callback, which would clear the key; no claim rests on it.
- Chat echo lines, logging, `setThreadContents` (empty in the source), the widgets, `client/tabmenu.js`, `client/statusbar.js` and the wiring in `bbs.js` beyond its length check: user interface only.
