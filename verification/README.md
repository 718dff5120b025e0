# Entrance, verified

Entrance is a display manager. One root daemon runs an X server and a greeter process for each
seat, authenticates logins through PAM, starts user sessions, and talks to the greeters over a
socket on which every message goes to everyone. This project models the parts of it that keep
state or protocols, and proves what they keep over whole runs.

| modules | what they are about |
|---|---|
| `SeatSpec`, `SeatDaemon` | the life of the seats: X servers, greeters, recorded sessions, and the heap records and callbacks behind them |
| `PamSpec`, `Pam` | one PAM transaction per seat, and every library call on it |
| `LoginSpec`, `Login` | an authentication request, from the transaction to the forked session |
| `GreeterSpec`, `Greeter`, `Protocol`, `Hub` | the greeters, the daemon, and the channels between them |
| `Catalogue`, `EndToEnd` | the session list, and what a choice made in a greeter makes the daemon run |
| `HistorySpec`, `History`, `Stringshare` | two overlapping lists of login records over counted strings, and their file |
| `Strtok`, `XserverArgs`, `Naming`, `Text`, `Lists` | argument vectors, display and file names, cookies, decimal text, searching a list |
| `Lockfile` | at most one daemon at a time |

How it is put together. A `...Spec` module holds values: states, steps, monitors that read a log
of actions alone, and the lemmas about every run. The module beside it holds the code as classes
with the source's fields and loops; each method's contract equates the new state with a
specification function of the old one, so the lemmas apply to the code. Where the source
allocates and frees, the heap is a field: a record can be read or freed only while it is live, so
each such access in a verified method is a proof that it is neither stale nor freed already.
What PAM, the kernel and the file system answer are parameters, unconstrained unless stated.

What the main results say:

* Seats. In any run, the X server of a seat is told to stop and reaped before the next is forked,
  a recorded session has ended before its X server is killed, and a greeter is started only on a
  seat with no greeter and no recorded session, although one signal calls every seat's start
  callback. Any sequence of
  what the event loop hands over is such a run, and after it every seat owns exactly its records
  and callbacks.
* PAM. Any sequence of wrapper calls, whatever the library answers, keeps the handles started
  minus the handles ended equal to the seats that hold one; no seat has two and none is ended twice.
* Login. A session is started only after an authenticate and an account check that succeeded, in
  the same request, on that seat's one live handle, and as the user it names; a denial is answered
  only when the seat has no live handle, with the text of that request; hidden prompts get that
  request's password, and nothing else is answered. A request is granted exactly when both results
  are a success, and then, with an account, a command and a fork, its session is started.
* Protocol. For any number of greeters: waiting, having a callback and having exactly that one
  registered are the same; a waiting greeter is owed an answer; channels are segments of one log;
  counts of requests and answers balance; a list of users is never handled before the list of
  sessions; a setup reaches every greeter that stays connected; every request was typed at its own
  greeter; one grant ends every greeter that is connected.
* Session choice. What a greeter asks for is one entry of the catalogue, and the daemon runs that
  entry's command, on the greeter's seat and after giving the library the password typed there and
  no other; the catalogue is what the three directories say, whatever ties insertion breaks.
* History. The list refines a map; the users offered to greeters follow it through shared records
  and only through them; shutdown frees every record and returns every string reference, unless
  one user of the history was accepted twice; and the next start reads the final history back
  exactly when something was written or nothing erased.

Places where the code does not do what one might expect, each with the exact condition:

* A failed `pam_open_session` is reported as success: what the caller is told is right exactly
  when the credentials were refused or the open itself succeeded
  (`PamSpec.FailedOpenReportsSuccess`).
* A connection gets only answers to its own requests exactly when no other connection's request
  was handled since it was accepted (`Protocol.OwnAnswersExactly`); otherwise another seat's
  answer can end its waiting (`Protocol.AnswersAreShared`), and runs to that point exist exactly
  when sessions are enabled and one has a name (`Protocol.SharingPossible`).
* Two seats share a display exactly when both display numbers have four digits or more and start
  with the same four (`Naming.DisplaysShared`).
* Daemons exclude each other exactly when they are launched by the installed path
  (`Lockfile.ExclusionExactly`).
* Shutdown comes to a record that it has freed exactly when a user of the saved history was
  accepted twice (`History.SharedTwice`, `History.Daemon.Life`).
* What was saved differs from the final history exactly when sessions were erased and nothing was
  written (`HistorySpec.ErasureIsLost`).
* A break is missing from the text of a denial exactly when its first part has at most one
  character and there is a second (`PamSpec.CollectJoins`).

Assumptions. `fork` and spawning a greeter succeed in the seat machine; `waitpid` fails only with
ECHILD; messages for a seat are handled only while its greeter is running; PAM calls on a null
handle fail; the library converses only while it authenticates and while it checks the account (in
sequences of wrapper calls, at any time); the logins of the saved history are distinct; desktop
files have names; the history file can be opened. The password file is split with `strtok_r`, which
joins empty fields; the model does the same, so no field has to be present.

## Model

| member | source | states |
|---|---|---|
| SeatSpec.EveryActionAllowed | src/daemon/entrance.c:132-165 | In every run from start-up, every process action is one the log before it allows: fork of an X server only when the seat's old one was told to stop and is reaped, kill only when the recorded session has ended, a greeter only on a seat with neither greeter nor recorded session |
| SeatSpec.NeverTwo | src/daemon/entrance.c:243-317 | At every moment of every run a seat has at most one live X server and at most one live greeter |
| SeatSpec.RecordedSessionHasGreeter | src/daemon/entrance_session.c:256-259 | Between events a seat with a recorded session pid has a live greeter |
| SeatSpec.KilledBeforeForked | src/daemon/entrance.c:143-149 | In every run, a new X server of a seat comes only after the one before it was sent its signal |
| SeatSpec.ToldBeforeReaped | src/daemon/entrance.c:243-253 | In the exit of a greeter whose X server is live, the signal to that server comes before it is reaped |
| SeatSpec.ExitDoes | src/daemon/entrance.c:132-165 | The actions of a greeter exit in order: session waited for, X server told to stop, reaped, a new one forked, which is then the only live one |
| SeatSpec.LoginForks | src/daemon/entrance_session.c:256-264 | A login forks one new process, recorded as that seat's session; nothing else changes |
| SeatSpec.ReadyServes | src/daemon/entrance.c:319-390 | After X is ready each seat tried has exactly one greeter, the one it had or a new one, and no other seat gets or loses one |
| SeatSpec.VanishForgets | src/daemon/entrance.c:294-304 | A process that vanishes is gone and no seat changes |
| SeatSpec.BootServes | src/daemon/entrance.c:477-498 | Start-up gives every seat one live X server, and no greeter and no session |
| SeatSpec.StepKeeps | src/daemon/entrance.c:132-165 | Each event (X ready for all seats in any order, login, greeter exit, a process vanishing) keeps the agreement of seats and log, and that recorded sessions have greeters |
| SeatSpec.SafeNeverTwo | src/daemon/entrance.c:243-253 | Allowed actions alone exclude two live X servers or greeters on a seat |
| SeatSpec.BootTracks | src/daemon/entrance.c:488-489 | Start-up with any number of seats satisfies the invariant |
| SeatDaemon.ResourceBalance | src/daemon/entrance.c:132-182 | Between events each seat has one X record, one X-ready callback and one session record under its own names, three callbacks exactly when it has a client record, and there is no other record and no other callback |
| SeatDaemon.Daemon.WaitpidNohang | src/daemon/entrance.c:283-291 | What a non-blocking wait may report about a child, a stranger or a process that is gone |
| SeatDaemon.Daemon.ProcExists | src/daemon/entrance.c:296-304 | Polling /proc sees a process until it has ended and been reaped |
| SeatDaemon.Daemon.Waitpid | src/daemon/entrance.c:248-252 | A blocking wait reports a stop, a continuation or the end of a child, and fails otherwise |
| SeatDaemon.Daemon.SessionWait | src/daemon/entrance.c:265-317 | Returns only when the recorded session has been reaped or has left /proc; nothing else changes |
| SeatDaemon.Daemon.KillAndWait | src/daemon/entrance.c:243-253 | The X server is sent its signal and has been reaped on return, through any number of stop and continue reports |
| SeatDaemon.Daemon.XserverShutdown | src/daemon/entrance_xserver.c:157-163 | Frees exactly the seat's X record and unregisters exactly its callback |
| SeatDaemon.Daemon.SessionShutdown | src/daemon/entrance_session.c:359-370 | Frees exactly the seat's session record |
| SeatDaemon.Daemon.ClientHandlersDel | src/daemon/entrance.c:175-182 | Unregisters every callback of the seat's client record and empties its list |
| SeatDaemon.Daemon.EntranceSessionStart | src/daemon/entrance_session.c:348-357 | A new session record with no session recorded |
| SeatDaemon.Daemon.XserverStart | src/daemon/entrance_xserver.c:137-155 | A new X record, a new process and one X-ready callback |
| SeatDaemon.Daemon.EntranceXserverStart | src/daemon/entrance.c:500-519 | Session record, X record and server under the names that the seat number gives |
| SeatDaemon.Daemon.NewClient | src/daemon/entrance.c:332-390 | A new client record with exactly three callbacks and a running greeter |
| SeatDaemon.Daemon.GiveGreeter | src/daemon/entrance.c:332-390 | A seat without a client record gets one, as the abstract start does |
| SeatDaemon.Daemon.StartClient | src/daemon/entrance.c:319-390 | Gives the seat a greeter unless it has one, as the abstract start does |
| SeatDaemon.Daemon.FreeClient | src/daemon/entrance.c:151-153 | Callbacks, record and pointer are gone, and nothing else |
| SeatDaemon.Daemon.ReleaseSeat | src/daemon/entrance.c:143-153 | Waits for the session, stops the X server, frees every record of the seat, in this order |
| SeatDaemon.Daemon.RestartSeat | src/daemon/entrance.c:142-156 | The restart of a seat is the abstract greeter-exit step and keeps all records in order |
| SeatDaemon.Daemon.ClientDel | src/daemon/entrance.c:132-165 | Another greeter's exit is passed on with nothing changed; the seat's own restarts it |
| SeatDaemon.Daemon.ExeDelEvent | src/daemon/entrance.c:132-165 | An exit event restarts exactly the seat whose greeter it was, if any |
| SeatDaemon.Daemon.XserverStarted | src/daemon/entrance_xserver.c:118-127 | The X-ready callback starts a greeter for its own seat only |
| SeatDaemon.Daemon.SignalUserEvent | src/daemon/entrance_xserver.c:118-127 | One signal runs the callbacks of all seats; afterwards each has a greeter and none got a second |
| SeatDaemon.Daemon.RecordSession | src/daemon/entrance_session.c:256-259 | The forked session's pid replaces the one recorded for the seat |
| SeatDaemon.Daemon.ProcessVanishes | src/daemon/entrance.c:294-304 | A process ending and being reaped elsewhere disturbs no seat |
| SeatDaemon.Daemon.BootSeat | src/daemon/entrance.c:488-489 | Starting one more seat is one more step of the abstract start-up |
| SeatDaemon.Daemon.React | src/daemon/entrance_xserver.c:118-127 | Whatever the event loop hands over is the matching step of the abstract machine, or nothing when it concerns no seat; after a signal every seat has a greeter |
| SeatDaemon.Daemon.Run | src/daemon/entrance.c:132-165 | Any sequence of incidents is a run of the abstract machine, incident by incident |
| SeatDaemon.Serve | src/daemon/entrance.c:477-498 | Start-up and any sequence of incidents make a run from start-up, with as many records and callbacks afterwards as seats and greeters ask for |
| SeatDaemon.Daemon.constructor | src/daemon/entrance.c:477-489 | Start-up reaches the abstract machine's start state with all records in order |
| PamSpec.Balance | src/daemon/entrance_pam.c:117-244 | After any sequence of wrapper calls with any answers: every call was on NULL or a live handle, and handles started minus ended is the number of seats holding one |
| PamSpec.OneHandlePerSeat | src/daemon/entrance_pam.c:176-202 | The live handles started for a seat are exactly the one its record holds |
| PamSpec.DoCalls | src/daemon/entrance_pam.c:74-244 | Each wrapper makes its own library call on the seat's handle with what it was given |
| PamSpec.CallByCall | src/daemon/entrance_pam.c:117-244 | A run makes its calls one after the other, and what is logged stays logged |
| PamSpec.EndedOnce | src/daemon/entrance_pam.c:146-154 | In a safe log no handle is ended twice |
| PamSpec.LiveCount | src/daemon/entrance_pam.c:146-154 | In a safe log handles started minus handles ended is the number of live handles |
| PamSpec.DoKeeps | src/daemon/entrance_pam.c:117-244 | Each wrapper keeps: the live handles are those in the records, each in the record of its own seat |
| PamSpec.AfterStartKeeps | src/daemon/entrance_pam.c:176-202 | Starting ends an old handle first, and leaves the new handle in the record even when setting an item fails |
| PamSpec.SessionOpenKeeps | src/daemon/entrance_pam.c:117-131 | Opening keeps the balance on every error path |
| PamSpec.FailedOpenReportsSuccess | src/daemon/entrance_pam.c:117-131 | For every record with a handle and all answers: a reported success means an opened session if and only if the credentials were refused or the open succeeded; otherwise the record is marked as opened and its transaction is over |
| PamSpec.FailedOpenWitness | src/daemon/entrance_pam.c:124-130 | One such open |
| Pam.Pams.ResultCheck | src/daemon/entrance_pam.c:25-72 | Zero exactly for success |
| Pam.Pams.Start | src/daemon/entrance_pam.c:176-202 | State and calls of a start, with every failure |
| Pam.Pams.End | src/daemon/entrance_pam.c:146-154 | The handle is ended, NULL too, and forgotten |
| PamSpec.CollectJoins | src/daemon/entrance_pam.c:98-103 | The text is all informative messages in order with a break between each two, if and only if there is at most one or the first is longer than one character |
| PamSpec.StartCalls | src/daemon/entrance_pam.c:176-202 | The library calls of a start in order with all their arguments: the old handle ended with its last result, the new one started for the user, its terminal and then its remote user set; nothing without a terminal |
| PamSpec.EndCalls | src/daemon/entrance_pam.c:146-154 | Ending is one call with the last result; the handle and the text collected are gone, and no other seat's record changes |
| PamSpec.AuthenticateCalls | src/daemon/entrance_pam.c:156-167 | The calls and conversations of an authentication in order; the account check only after a success |
| PamSpec.RepliesExact | src/daemon/entrance_pam.c:86-97 | A hidden prompt gets the password, every other message gets nothing |
| PamSpec.SessionOpenCalls | src/daemon/entrance_pam.c:117-131 | Credentials are established, then the session opened; when it cannot be, they are deleted and the handle ended |
| PamSpec.SessionCloseCalls | src/daemon/entrance_pam.c:133-144 | Closing deletes credentials exactly when the session was open or could not be closed, and ends the handle exactly when they could not be deleted |
| PamSpec.LookupCalls | src/daemon/entrance_pam.c:217-244 | Looking up the user and putting a variable are one call each; a failure ends the handle with that result |
| PamSpec.EnvTextWhole | src/daemon/entrance_pam.c:231-244 | The text put is name, sign and value, whole exactly when it has at most 1023 characters |
| Pam.Pams.Conv | src/daemon/entrance_pam.c:74-109 | One reply per message: the seat's password to a hidden prompt, nothing to any other; the informative texts are collected |
| Pam.Pams.Authenticate | src/daemon/entrance_pam.c:156-167 | Zero exactly when the authenticate and then the account check succeed; no account check after a failed authenticate; the library may converse during both |
| Pam.Pams.SessionOpen | src/daemon/entrance_pam.c:117-131 | Zero exactly when setting the credentials succeeds, which is right exactly when they fail or the open succeeds; calls and record as written |
| Pam.Pams.SessionClose | src/daemon/entrance_pam.c:133-144 | Credentials are deleted when the session was open or closing failed; a failure ends the handle |
| Pam.Pams.ItemSet | src/daemon/entrance_pam.c:204-215 | A failure is reported and leaves the handle alone |
| Pam.Pams.ItemGetUser | src/daemon/entrance_pam.c:217-229 | A failure ends the handle and gives nothing |
| Pam.Pams.EnvSet | src/daemon/entrance_pam.c:231-244 | Nothing happens without a name and a value; otherwise the text, cut to its buffer, is put; a failure ends the handle |
| LoginSpec.EveryRunAuthenticated | src/daemon/entrance_server.c:104-120 | In any run of requests, before a session starts there are, in the same request and on one handle of that seat that is its only live one, a start, a successful authenticate, a successful account check, and a look-up naming the user |
| LoginSpec.EveryDenialEnds | src/daemon/entrance_server.c:121-134 | In any run, no denial is answered while the seat has a live handle, and its text is what was collected for that seat since the request came in |
| LoginSpec.EveryReplyOwn | src/daemon/entrance_pam.c:86-97 | In any run, whatever the library asks while it authenticates or checks the account, every hidden prompt is answered with the password that came with the request being handled, for the seat that made it, and nothing else is answered |
| LoginSpec.DeniedText | src/daemon/entrance_server.c:124-128 | The text of a denial is exactly what the library said during this request, in both calls |
| LoginSpec.AuthKeeps | src/daemon/entrance_server.c:104-137 | One request with any answers keeps the balance and the monitors, and a denied one leaves no handle |
| LoginSpec.AnsweredOnce | src/daemon/entrance_server.c:104-137 | Each request is answered exactly once, last, with the verdict |
| LoginSpec.RunAnswersAll | src/daemon/entrance_server.c:98-137 | A run of requests answers each of them once |
| LoginSpec.RequestCalls | src/daemon/entrance_session.c:390-428 | Every request begins with the transaction of its own seat: started for its login on the seat's terminal, then the verdict's calls with its password |
| LoginSpec.RequestEnds | src/daemon/entrance_session.c:464-495 | How every request ends: granted exactly when both results are a success; when also the user named has an account, the history is asked with the session of the request, and with a command and a fork the chosen command runs, X or Wayland, before the answer |
| LoginSpec.LaunchesExactly | src/daemon/entrance_session.c:464-495 | The last thing before the answer is a session process exactly when the request is granted and has an account, a command and a fork |
| LoginSpec.KnownWitnessed | src/daemon/entrance_pam.c:156-167 | The monitor's last phase means the four calls in order on one handle, not ended since |
| Login.Server.Authenticate | src/daemon/entrance_session.c:390-428 | Start and authenticate on the seat's terminal; the start's own result is ignored |
| Login.Server.SessionOpen | src/daemon/entrance_session.c:430-462 | The account of the transaction's user, or nothing |
| Login.Server.SessionRun | src/daemon/entrance_session.c:256-264 | The parent records the pid of a fork that succeeded, for this seat only |
| Login.Server.SessionLogin | src/daemon/entrance_session.c:464-495 | History check, command, and session, with every early return |
| Login.Server.ReadAuth | src/daemon/entrance_server.c:98-137 | The whole request as the specification has it; a denial leaves the seat with no handle |
| GreeterSpec.PickFromList | src/bin/entrance_login.c:263-282 | A choice comes from the list, exists unless the list is empty, and is the named session when the list has it |
| GreeterSpec.DoKeeps | src/bin/entrance_login.c:62-95 | User actions keep the handshake and the choice; a request is sent only with waiting set, naming a session of the list |
| GreeterSpec.SubmitSends | src/bin/entrance_login.c:62-95 | A request is sent if and only if there is a login, a password when one is required, and a chosen session with a name; it carries the greeter's seat, login and password as typed, and the chosen name |
| GreeterSpec.ClickChooses | src/bin/entrance_login.c:228-233 | A click chooses the session clicked; editing takes the error away |
| GreeterSpec.GuessChooses | src/bin/entrance_login.c:207-226 | A guess chooses the remembered session of the first user of that login when the list has it, else the first of the list |
| GreeterSpec.ReactKeeps | src/bin/entrance_connect.c:78-133 | Messages keep the handshake and the choice; only an answer ends the waiting, and it always does; list, users, settings, error and leaving each change with their message alone |
| Greeter.Client.SetSession | src/bin/entrance_login.c:263-282 | The search finds the first session of the name, else the head, else none |
| Greeter.Client.XsessionGuess | src/bin/entrance_login.c:207-226 | The session of the first user of that login |
| Greeter.Client.XsessionsSet | src/bin/entrance_gui.c:483-494 | The list is replaced and its head chosen |
| Greeter.Client.UsersSet | src/bin/entrance_gui.c:400-460 | The users are replaced and, when configured, the first one's session guessed |
| Greeter.Client.AuthCb | src/bin/entrance_login.c:235-261 | A waiting form stops waiting and unregisters; any other ignores the answer |
| Greeter.Client.ConnectAuth | src/bin/entrance_connect.c:62-76 | Walking the callbacks while they unregister themselves reaches the specified state |
| Greeter.Client.ReadCb | src/bin/entrance_connect.c:78-133 | Each message has its effect and no other |
| Greeter.Client.CheckAuth | src/bin/entrance_login.c:62-95 | Each missing field stops the request; otherwise waiting is set, one callback is registered and the request sent |
| Greeter.Client.AuthCbAdd | src/bin/entrance_connect.c:171-181 | A new callback at the end of the list |
| Protocol.WaitingIsOwed | src/bin/entrance_login.c:90-94 | In every reachable state waiting, a non-null callback, and that one callback registered are equivalent, and a waiting greeter has its request queued or an answer queued to it |
| Protocol.SegmentOfLog | src/daemon/entrance_server.c:153-162 | Delivered and queued messages are a contiguous segment of the daemon's log, from the connection on |
| Protocol.CountsBalance | src/daemon/entrance_server.c:104-137 | Answers in the log equal requests handled; each connection received or is owed exactly those since it began; requests sent are those done and then those queued, in order |
| Protocol.OneAnswerEach | src/daemon/entrance_server.c:104-137 | Handling a request adds exactly one answer, last, to every connection's queue |
| Protocol.UsersFindSessions | src/daemon/entrance_server.c:33-56 | With sessions enabled a greeter about to handle users already holds the whole session list, and then chooses the first user's session when the list has it |
| Protocol.RequestsNameSessions | src/bin/entrance_login.c:83-93 | Every request handled names a session of the daemon's list, with a non-empty name; with sessions disabled there are none |
| Protocol.OwnAnswersExactly | src/daemon/entrance_server.c:153-162 | In every run, a connection received or is owed only answers to its own requests if and only if no other connection's request was handled since it was accepted |
| Protocol.AnswersAreShared | src/bin/entrance_login.c:235-261 | The answer to another seat's request ends a greeter's waiting while its own request is still queued |
| Protocol.RunToBothAsk | src/bin/entrance_login.c:62-95 | A run from start-up to two greeters that both wait, one with nothing left to read, for any list with a named session |
| Protocol.SharingPossible | src/bin/entrance_login.c:83-93 | Such a state can be reached if and only if sessions are enabled and one of them has a name |
| Protocol.LeavesOnGrant | src/bin/entrance_connect.c:62-76 | In every reachable state a greeter has left if and only if a grant, to any seat, was delivered to it |
| Protocol.GrantEndsAll | src/bin/entrance_connect.c:74-75 | After one granted request, in any run from there, every greeter connected then and still connected has left once all that is queued to it is delivered |
| Protocol.HandledFromItsSeat | src/bin/entrance_connect.c:144-158 | A request that is handled carries the seat of the greeter it came from |
| Protocol.GreeterOfItsSeat | src/bin/entrance_connect.c:144-158 | In every run the greeter of a connection carries the seat that the connection was accepted for |
| Protocol.RequestsAreTyped | src/bin/entrance_login.c:62-95 | In every run, each request queued or handled was submitted earlier on its own connection, with that login and password, at the greeter of that seat, with that session chosen |
| Protocol.KnowsWhatItWasTold | src/bin/entrance_connect.c:78-133 | In every reachable state a greeter's users are those of the last list delivered to it, and its settings the daemon's from the time it is told |
| Protocol.SetupSends | src/daemon/entrance_server.c:19-63 | A setup adds its list of users and no other to the log, and the sessions and the settings when they are enabled |
| Protocol.SetupReaches | src/daemon/entrance_server.c:19-63 | In every run from a setup on, each connection that stood then and still stands is delivered that list of users, the sessions and the settings, once what the setup queued is delivered, and then has the daemon's settings |
| Protocol.OneSetupEach | src/daemon/entrance_server.c:19-63 | In every run each connection accepted brings one setup: one is to come exactly when fewer were done than connections accepted |
| Protocol.DisconnectForgets | src/daemon/entrance_server.c:77-83 | A connection that ends takes only its own queues with it |
| Protocol.StepKeeps | src/daemon/entrance_server.c:19-63 | Every event, connection and disconnection included, keeps the invariant behind these |
| Hub.Server.WriteCb | src/daemon/entrance_server.c:153-162 | One message is appended to every client's queue, once each |
| Hub.Server.ServerAdd | src/daemon/entrance_server.c:19-63 | A connection sends the whole setup burst, in order, to every client |
| Hub.BroadcastSends | src/daemon/entrance_server.c:153-162 | The protocol's broadcast is that loop's effect on the queues |
| Catalogue.ScanResult | src/daemon/entrance_session.c:571-652 | After any sequence of files: sorted without case, no name twice, and for each name exactly the first file with a command, Wayland exactly when its path says so |
| Catalogue.ScanKeeps | src/daemon/entrance_session.c:599-645 | One more file keeps the catalogue the one of the files so far |
| Catalogue.CatalogueSays | src/daemon/entrance_session.c:599-645 | Every entry is a scanned file's name, command, icon and kind, and every file with a command has its name listed |
| Catalogue.CaseOrder | src/daemon/entrance_session.c:647-651 | The order of the list, read off the first place where two names differ, case aside |
| Catalogue.SessionList.SortedInsert | src/daemon/entrance_session.c:638-640 | The entry goes to a place that keeps the order |
| Catalogue.SessionList.ScanFile | src/daemon/entrance_session.c:599-645 | Unreadable files, known names and files without a command change nothing |
| Catalogue.SessionList.Scan | src/daemon/entrance_session.c:580-597 | A directory's names, each looked up under its path in the buffer, extend the catalogue of the files before; what is no directory adds nothing |
| Catalogue.SessionList.DesktopsInit | src/daemon/entrance_session.c:571-578 | Start-up's list is the catalogue of the three directories in order |
| Catalogue.EarlierDirectoryWins | src/daemon/entrance_session.c:571-578 | Of files with one name, /etc/X11/Sessions goes before /usr/share/xsessions, and that before /usr/share/wayland-sessions |
| Catalogue.FileOfName | src/daemon/entrance_session.c:580-597 | A name of a directory stands for what is under its whole path, when that fits the buffer |
| Catalogue.FlagOfFile | src/daemon/entrance_session.c:592-622 | A file is taken for a Wayland session if and only if it is in that directory or its own name says so |
| Catalogue.WaylandEntries | src/daemon/entrance_session.c:571-622 | In start-up's list exactly the entries whose file came from the Wayland directory carry the flag, when no file name says so itself |
| Catalogue.SessionList.FindCommand | src/daemon/entrance_session.c:513-557 | The first entry's command, else the first start-up script there is, else nothing |
| Catalogue.FallbackOrder | src/daemon/entrance_session.c:528-556 | Without an entry: ~/.xinitrc, then ~/.Xsession, then the system's xinitrc, then nothing |
| Catalogue.SessionList.IsWayland | src/daemon/entrance_session.c:497-511 | The first entry's flag, else false |
| Catalogue.SessionList.Resolve | src/daemon/entrance_session.c:480-491 | Command and kind of a choice are those the scanned files give it |
| Catalogue.ChosenMeans | src/daemon/entrance_session.c:497-557 | On a scanned list, resolving by list and resolving by files agree for every name |
| EndToEnd.HandledRequestResolves | src/daemon/entrance_session.c:513-557 | In every run, a handled request names exactly one entry and gets its command and kind, those of the first scanned file of the name |
| EndToEnd.OnlyListedNamesResolve | src/daemon/entrance_session.c:518-556 | A name gets a catalogue entry if and only if it is listed; any other gets only the fallback with nothing of the catalogue in it |
| EndToEnd.EverythingBelongs | src/daemon/entrance_server.c:104-137 | All that a request makes the daemon do is for its seat: the transaction and its items for its login and terminal, hidden prompts answered with its password, the history asked for its session, the chosen command for the user the library names, the answer as the two results say |
| EndToEnd.RequestLaunchesFirstFile | src/daemon/entrance_session.c:480-491 | From a greeter's request to the process: on its seat, the command and kind of the first file of the name |
| EndToEnd.TypedAtTheGreeter | src/daemon/entrance_server.c:109-111 | From the moment a user submits a login and a password to the library: the request handled is for the greeter's seat, its transaction for the login typed, and every hidden prompt gets the password typed |
| HistorySpec.RunRefines | src/daemon/entrance_history.c:162-200 | Over any run of checks the list is the map the checks update; logins stay distinct, places stable, unnamed entries unchanged |
| HistorySpec.AfterRefines | src/daemon/entrance_history.c:162-200 | One check on the list is one update of the map |
| HistorySpec.NewLogin | src/daemon/entrance_history.c:189-199 | An unknown login is added at the end with the session asked for, and the history is to be written |
| HistorySpec.DirtiesExactly | src/daemon/entrance_history.c:162-200 | A check asks for writing exactly when it adds an entry or changes a session to another, and not when it erases one |
| HistorySpec.RunRecalls | src/daemon/entrance_history.c:173-188 | An entry's session after a run depends on that user's requests alone: lost for good after a null one, else the last |
| HistorySpec.KeptIsFinal | src/daemon/entrance_history.c:139-160 | The next start reads the final history if and only if the flag is set or no check erased a session |
| HistorySpec.CleanRun | src/daemon/entrance_history.c:173-198 | With the flag clear, the history differs from the one read exactly when a session was erased, and only by erased sessions |
| HistorySpec.NamedRunIsKept | src/daemon/entrance_history.c:139-160 | With a session in every request, a clear flag means an unchanged history, and the final one is always read back |
| HistorySpec.ErasureIsLost | src/daemon/entrance_history.c:175-179 | The saved history differs from the final one if and only if a session was erased and nothing was written; it is then the old one, and only erased sessions differ |
| HistorySpec.ErasureWitness | src/daemon/entrance_history.c:175-179 | One such run: a single null request |
| HistorySpec.OfferedAfterRun | src/daemon/entrance_history.c:248-281 | What an accepted user is offered after any run |
| Stringshare.AddThenDel | src/daemon/entrance_history.c:244-258 | A temporary reference leaves the pool exactly as it was |
| Stringshare.SamePointer | src/daemon/entrance_history.c:202-214 | Interned strings are equal if and only if their pointers are |
| History.MoreUsers | src/daemon/entrance_history.c:248-281 | One more user is on the list with a record that is there already exactly when an earlier user shares it |
| History.SharedTwice | src/daemon/entrance_history.c:248-281 | The users' list holds no record twice if and only if no user of the history is accepted twice |
| History.TwiceAccepted | src/daemon/entrance_history.c:234-243 | A history and two lines of a password file where one is |
| History.FreedTwice | src/daemon/entrance_history.c:287-304 | A record that is not live when the loop reaches it was on the list before, and has been freed there |
| History.UsersOffered | src/daemon/entrance_history.c:248-281 | The user list shows, in order, the history's entry for users it had at start-up and a separate empty one for the others |
| History.Unlisted | src/daemon/entrance_history.c:283-306 | Taking a record off the history and freeing it leaves a history of live records, and the two lists still hold every record |
| History.ParseLine | src/daemon/entrance_history.c:234-243 | Three tokenizer calls find the first and third token of the line, and accept ids from 1000 to 65533 |
| History.UserLine | src/daemon/entrance_history.c:234-243 | A line with a name, a password and a decimal id is accepted with that name if and only if the id is from 1000 to 65533, whatever follows |
| History.ShortLine | src/daemon/entrance_history.c:234-243 | A line with fewer than three tokens is not accepted |
| History.AcceptedSplit | src/daemon/entrance_history.c:232-243 | The accepted names of a file are those of its lines, in order |
| History.Daemon.Read | src/daemon/entrance_history.c:121-138 | The list read shows whole records, field by field, as the file holds them, each string counted |
| History.Daemon.Match | src/daemon/entrance_history.c:202-214 | Comparing pointers finds the first record whose login is equal as a string |
| History.Daemon.ScanUsers | src/daemon/entrance_history.c:232-243 | The accepted names in order, one reference each |
| History.Daemon.Enlist | src/daemon/entrance_history.c:241-242 | One more name is interned, with one reference |
| History.Daemon.UserRecord | src/daemon/entrance_history.c:248-257 | The history's own record when it has the login, else a new one |
| History.Daemon.ClearImage | src/daemon/entrance_history.c:263-268 | The picture's path is cleared exactly when its file is gone, its reference returned, and nothing else changes |
| History.Daemon.ClearBackground | src/daemon/entrance_history.c:270-275 | The same for the background |
| History.Daemon.AddUser | src/daemon/entrance_history.c:244-280 | One more user is listed, the temporary reference returned, and no listed path leads nowhere |
| History.Daemon.UserInit | src/daemon/entrance_history.c:216-281 | For any password file: afterwards the users are the accepted ones in order, none with a path that leads nowhere, the history is as read, no temporary reference is left, and no record is listed twice if and only if no user of the history was accepted twice |
| History.Daemon.Check | src/daemon/entrance_history.c:162-200 | List and flag after a check are the specified ones; every reference stays counted |
| History.Daemon.Search | src/daemon/entrance_history.c:168-172 | Comparing strings finds the first record of the login |
| History.Daemon.Remember | src/daemon/entrance_history.c:173-187 | The found entry changes as specified, and the flag is set exactly when a session was replaced by another |
| History.Daemon.SetSession | src/daemon/entrance_history.c:177-185 | One entry shows the new session, the old string's reference is returned |
| History.Daemon.HistoryGet | src/daemon/entrance_history.c:95-99 | The users are shown the current history session through the shared records |
| History.Daemon.Write | src/daemon/entrance_history.c:139-160 | The file holds the current history, every field of every record, exactly when the flag asks for it, else what it held |
| History.Daemon.FreeLogin | src/daemon/entrance_history.c:290-304 | The record is freed and its six references returned |
| History.Daemon.UserShutdown | src/daemon/entrance_history.c:283-306 | Each record is taken off the history list and freed; the loop comes to a freed record if and only if the list held one twice |
| History.Daemon.HistoryShutdown | src/daemon/entrance_history.c:101-119 | The file is saved first; unless a user of the history was accepted twice, no record is left and the pool has only the references of others |
| History.Daemon.Life | src/daemon/entrance_history.c:67-119 | From start-up through any run of checks to shutdown, for any password file: the users shown and the file saved are as specified; a freed record is reached if and only if a user of the saved history is accepted twice, and otherwise all references are returned and no record is left |
| Lockfile.MutualExclusion | src/daemon/entrance.c:545-596 | In every run with crashes, failed writes, stale files and reused pids, at most one daemon holds the lock and the file names it |
| Lockfile.ExclusionExactly | src/daemon/entrance.c:585-592 | Daemons launched under one name exclude each other in all runs if and only if it is the installed path |
| Lockfile.OtherNameBreaksExclusion | src/daemon/entrance.c:585-592 | Under every other name there is a run in which two daemons hold the lock |
| Lockfile.StaleLockRecycled | src/daemon/entrance.c:590-595 | A lock naming no other live daemon does not block |
| Lockfile.LeavingFrees | src/daemon/entrance.c:641-646 | After the holder leaves the file is gone and the next daemon takes the lock; a file that could not be removed names a process that is gone |
| Lockfile.RefusedExits | src/daemon/entrance.c:779-780 | After trying, a daemon holds the lock or is gone, and no other daemon gained it |
| Lockfile.RefusedExactly | src/daemon/entrance.c:521-596 | The lock is refused if and only if the file names another process launched by the installed path, or the write fails; the file is then what it was, or empty when it was opened and not written |
| Lockfile.NamesFirstLine | src/daemon/entrance.c:565-568 | A file names the number on its first line, whatever follows, and an empty first line names zero |
| Lockfile.NamedWhatWasWritten | src/daemon/entrance.c:533-567 | The number printed to the file is the number read back |
| Lockfile.LockHost.LockCreate | src/daemon/entrance.c:521-543 | The file after success and after each failure |
| Lockfile.LockHost.LockGet | src/daemon/entrance.c:545-596 | File and verdict for no file, own number, a live daemon's and anything else |
| Lockfile.LockHost.Start | src/daemon/entrance.c:779-780 | A daemon without the lock exits |
| Lockfile.LockHost.Leave | src/daemon/entrance.c:641-646 | The holder removes the file and ends |
| Strtok.StrtokCuts | src/daemon/entrance_xserver.c:83-90 | A call cuts out the first token in place and saves where the others follow; earlier tokens are untouched |
| Strtok.CutKeepsToken | src/daemon/entrance_xserver.c:84-89 | A token handed out keeps its text through later calls |
| Strtok.TokensOfJoin | src/daemon/entrance_xserver.c:53-58 | Tokenizing undoes joining words with the delimiter |
| Strtok.DelimiterSkipped | src/daemon/entrance_xserver.c:53-58 | A delimiter in front changes no token, so adjacent delimiters count as one |
| Strtok.TokensAreWords | src/daemon/entrance_xserver.c:53-58 | No token is empty or contains the delimiter or a NUL |
| XserverArgs.NextToken | src/daemon/entrance_xserver.c:83-89 | The call on the array is the specified cut, in place |
| XserverArgs.CountTokens | src/daemon/entrance_xserver.c:51-59 | The counting pass counts the tokens |
| XserverArgs.FillTokens | src/daemon/entrance_xserver.c:83-90 | The filling pass stays in bounds and fills the same tokens in order |
| XserverArgs.BuildArgs | src/daemon/entrance_xserver.c:51-98 | The vector is the path, display, seat and VT followed by all tokens and one NULL, or the path and NULL when there are none |
| XserverArgs.Bare | src/daemon/entrance_xserver.c:92-98 | Without tokens the vector is the path alone |
| XserverArgs.Layout | src/daemon/entrance_xserver.c:76-82 | The slots of a launch one by one: path, display, "-seat", seat name, VT, then each token |
| Naming.DisplaysShared | src/daemon/entrance.c:508-511 | Two seats share a truncated display if and only if both display numbers have four digits or more and start with the same four |
| Naming.DisplayInjective | src/daemon/entrance.c:508-511 | So up to 9999 for base and seat together, displays of different seats differ |
| Naming.DisplayCollision | src/daemon/entrance.c:508-511 | Two seats that share one |
| Naming.DisplayWhole | src/daemon/entrance.c:508-511 | Up to two digits the display is the whole number and its tenth |
| Naming.DisplayReads | src/daemon/entrance.c:508-510 | Only the first five characters of the configured display count, and an empty one counts as zero |
| Naming.VtsDiffer | src/daemon/entrance.c:511 | Terminals follow one another from the configured one, so two seats share one only if they are the same seat |
| Naming.XauthWhole | src/daemon/entrance_session.c:324-329 | The file name comes out untruncated if and only if it fits the second bound |
| Naming.XauthInjective | src/daemon/entrance_session.c:324-329 | File names that fit differ between seats |
| Naming.CookieHoldsWords | src/daemon/entrance_session.c:303-320 | The low sixteen bits of every random number can be read back from its four cookie digits |
| Naming.DigitsLowFirst | src/daemon/entrance_session.c:313-319 | The four digits of a word, lowest first |
| Naming.PutWord | src/daemon/entrance_session.c:313-319 | A word's four digits go to its four places |
| Naming.MakeCookie | src/daemon/entrance_session.c:295-320 | The buffer holds 32 digits of the eight words and a NUL |
| Text.AtoiUndoesDecimal | src/daemon/entrance.c:566-567 | `atoi` undoes the decimal print, whatever text without a leading digit follows |
| Text.AtoiSigned | src/daemon/entrance_history.c:238-240 | The same behind a sign |
| Text.AtoiNothing | src/daemon/entrance_history.c:238-240 | Text that begins with no blank, sign or digit counts as zero |
| Text.ContainsMeans | src/daemon/entrance_session.c:620-622 | The search finds a text exactly when the whole is something, then the text, then something |

## Left out

- EFL, ecore_con, Edje themes, widgets, image scans, keyboard, logind, configuration files: plumbing around the parts modelled.
- Eet encoding: taken as an identity on the fields it is given; a data file that cannot be opened is not modelled.
- Autologin, Xephyr mode and the signal path: they follow other rules than the seat machine and are separate modes.
- Failing `fork`, `calloc`, `strdup` and greeter spawn on the seat side; a failing session fork is in `Login`.
- Reuse of process numbers in the seat machine; it is in `Lockfile`.
- Builds without PAM.
- The child's side of a session (environment, working directory, log file) and its own copy of the PAM handle.
- SeatDaemon.ResourceBalance: counts records and callbacks; the display strings and cookies that records point to are values here.
- SeatDaemon.Daemon.XserverShutdown: the reference to the display string that it drops is not counted.
- SeatDaemon.Daemon.SessionShutdown: the display and cookie strings that it frees are not counted.
- SeatDaemon.Daemon.EntranceSessionStart: the cookie and the xauth file it also makes are in `Naming` only.
- SeatDaemon.Daemon.NewClient: a home directory that cannot be opened or locked, which ends the main loop, and a greeter that does not start.
- SeatDaemon.Daemon.GiveGreeter: the same.
- SeatDaemon.Daemon.StartClient: the same.
- Who frees the `login` string, the password copies and the PAM records, and the icon and background lists of users.
- Floating-point rounding in display names: numbers are kept in tenths, which one printed decimal shows.
- Naming.XauthWhole: configured paths so long that the size arithmetic would wrap below zero are excluded, because the result is then not a bounded print at all.
- History.ParseLine: lines longer than the read buffer, which the source reads in pieces, and ids beyond the range of `int`.
- Lockfile: the interval between reading and writing the file inside one call; each call is one step.
- The PID and ACTION messages of a greeter: one sets a number nothing here reads, the other runs a configured command.
- Several monitors on one greeter: they share one login form, which is on the primary screen.
- Greeter.Client.ReadCb: the wallpaper, theme and login-box settings of a configuration message, which nothing here depends on.
- SeatDaemon.Daemon.KillAndWait: the pause between two waits.
