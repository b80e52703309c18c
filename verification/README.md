# A verified model of the IRC server

This project models an IRC server written in C++, together with the byte layers beneath it and the bot that
talks to it, and proves what the server keeps over every run.

## What is modelled

* **The server as a state machine.** `State.Core` holds the clients by descriptor (descriptors are reused),
  the poll list and the channels by name; each channel holds three lists of client references. The steps
  (`EventLoop.Step`) are accept, read of any chunk, write of any partial length, the socket errors and the
  reap; a read runs any number of commands. Dereferencing a freed client or channel sets `fault`, so "no
  stale reference" is the theorem that `fault` is never set.
* **Framing and output queueing** on both sides: `EventLoop` and `Clients` for the server, `BotPeer` for the
  bot, with the limits 512, 4096, 8192 and 65536 and partial reads and writes.
* **The MODE interpreter** (`Modes`), with its sign, its argument cursor and its compressed announcement.
* **The message parser** (`Parsing`), against a printer for section 2.3.1 of RFC 2812.

The behaviour is written twice. The modules above give it as functions on values, which is what the theorems
speak about. `ClientObject`, `ChannelObject`, `ServerObject` and `BotObject` give it in the program's own form:
objects with fields updated in place, maps of objects that are inserted into and erased from, and the
program's loops. Every method of these classes is proved to have exactly the effect of the corresponding
function (`ensures Shared() == F(old(Shared()), ...)`), and `ServerObject.IrcServer.Serve` carries this to
whole runs, so that the invariant of all runs holds of the object.

Some fields are history and influence nothing: which replies were issued to a client, which messages were
accepted and which bytes were taken by the socket; the serial number of a channel object, the member count
when its limit was last written, and the invitations and guarded joins per client. They state properties over
time (exactly-once welcomes, conservation of output, frozen channels, admission accounts) as invariants.

The server's state never depends on how replies are spelled except through their length and validity, so the
encoding is a field `wire` of the state and what is proved of runs holds for every encoding.
`Replies.Wire` is the program's own.

## Where to start reading

| file | what it holds |
|---|---|
| `Runs.dfy` | what holds in every reachable state, spelled out |
| `Lines.dfy`, `Framing.dfy` | every line does exactly what its command word says; every stream of bytes, however cut, is exactly its lines |
| `Effects.dfy`, `Arrivals.dfy`, `ModeEffects.dfy`, `ModeRequests.dfy` | the commands as effects: who hears what, what changes, and that nothing else does; what a MODE request asks for, and that it is carried out |
| `Passwords.dfy`, `Output.dfy`, `SocketSteps.dfy` | the password over runs; the output queue over runs; accepting, and the ends of a connection |
| `Announcement.dfy`, `QueryRestore.dfy` | the MODE announcement is a faithful delta; the 324 answer restores the settings |
| `Chunking.dfy`, `BotPeer.dfy`, `Greeting.dfy` | framing in, delivery out, and the peer's understanding of it |
| `Reaping.dfy`, `LeaveAll.dfy`, `FanOut.dfy`, `Membership.dfy` | exact effects: reap, JOIN 0, recipients, JOIN, KICK, INVITE, PRIVMSG |
| `Parsing.dfy`, `Relays.dfy`, `BotReplies.dfy` | the parser round trips; what each server line says to its receiver; how the bot answers |
| `Alphabets.dfy` | nicknames, usernames, channel names and the casemapping, character by character |
| `Shortfalls.dfy`, `Witnesses.dfy` | what does not hold: the exact condition under which it does, and concrete states where it does not |
| `ReadBack.dfy`, `ModeLines.dfy`, `QueryLine.dfy`, `KeyLists.dfy` | MODE and JOIN on the wire: when a line reads back as what was said |
| `Lifecycle.dfy` | one connection along a run: how it registers, and that it never returns to service |
| `Invariant.dfy`, `CommandProofs.dfy`, `ModeProofs.dfy`, `EventProofs.dfy` | the inductive invariant and its preservation by every step |
| `ServerObject.dfy`, `LoopSteps.dfy`, `ClientObject.dfy`, `ChannelObject.dfy`, `BotObject.dfy` | the program in its own imperative form |

`dafny verify dfyconfig.toml` checks the whole project.

## Model

| member | source | states |
|---|---|---|
| EventProofs.RunOk | src/server/Server.cpp:230-291 | the whole invariant (sessions, nicknames, channel lists, poll list, bounds, buffers) is kept by every possible sequence of steps from any state that has it, and channels without operators stay frozen along it |
| EventProofs.NextOk | src/server/Server.cpp:252-286 | each single event (accept, read, write, socket error, reap) keeps the invariant |
| EventProofs.StartOk | src/server/Server.cpp:111-119 | the state after start-up has the invariant, so every reachable state has it |
| EventProofs.ProcessLineSound | src/server/Server.cpp:506-574 | any clean line of any served client, whatever command it holds, keeps the invariant, dereferences nothing freed and grants no authority its sender lacked |
| Lines.LineExact | src/server/Server.cpp:506-574 | any clean line of any served client takes the server from one state to the next by exactly what its command word says: the answers to CAP LS, PING and unknown words, QUIT, the two registration gates, and the effect of each of the nine commands, with who hears what and nothing else changed |
| Lines.WrittenExact | src/parser/Parser.cpp:6-63 | a well-formed message written on the wire does what the message says |
| Framing.LinesArrive | src/client/Client.cpp:175-231 | clean lines of at most 512 bytes with their CRLF or LF, followed by the beginning of another and cut into reads in any way, are handed over without their ends, exactly, in order, up to the first that stops the client; the state is what they make it and the beginning stays buffered |
| Framing.BadPieceKills | src/client/Client.cpp:203-228 | after such lines, bytes up to a newline that are over 512 with it or hold a NUL or an inner CR hand over nothing more and kill the client, whatever follows and whatever the cuts |
| Framing.NextPieceExact | src/client/Client.cpp:197-231 | the bytes up to the next newline become a line, without one final CR, if and only if they fit 512 bytes and hold no NUL or inner CR |
| Framing.BytesDone | src/server/Server.cpp:413-462 | from bytes to effects: consecutive reads of fitting lines take the server from state to state by exactly what each line says |
| ModeRequests.RequestCarriedOut | src/commands/ModeCommand.cpp:84-253 | for every change request: each flag ends with the sign of its last letter, the key and limit are what the k and l letters with their arguments leave, each client is operator exactly as the last o naming it says, arguments go to k, o and +l in order, the issuer is told exactly the complaints in order, the announcement holds exactly the letters that counted with their arguments, and nothing else changes |
| ModeEffects.ModeIsDone | src/commands/ModeCommand.cpp:14-259 | MODE in full: ignored targets, refusals, the query, the first foreign letter, or a request carried out and announced once to every member if any letter counted |
| Effects.PassEffect | src/commands/Pass.cpp:18-48 | PASS: 462 once accepted, 461 without parameter, accepted exactly with the password, else counted and told 464, closing at the third |
| Effects.NickEffect | src/commands/Nick.cpp:41-82 | NICK: 431, 432, 433 exactly when another live client is called so; otherwise taken, announced from the old name to the changer and its sharers, or welcomed |
| Effects.UserEffect | src/commands/User.cpp:33-67 | USER: 462, 461, 468, or the username taken and the welcome if that completes the registration |
| Arrivals.JoinEffect | src/commands/Join.cpp:58-240 | JOIN: every listed channel in order, each with the key in its place: refused for the first reason, left alone, founded or entered; or every channel left, each departure heard by its members |
| Arrivals.JoinAnnounced | src/commands/Join.cpp:194-238 | after a newcomer entered, every other member hears of it once, the newcomer hears its arrival, a new channel's modes, the topic if any, the member list and its end, and nobody else hears anything |
| Arrivals.RosterIs | src/commands/Join.cpp:218-235 | the member list is one entry per member in order, the nickname after an at sign exactly for operators, one space between entries |
| Effects.KickEffect | src/commands/Kick.cpp:30-96 | KICK: every pair in order, each judged on the state the ones before it left: the first obstacle told to the issuer, or the member called so told with the others and removed |
| Effects.InviteEffect | src/commands/InviteCommand.cpp:13-64 | INVITE: the first obstacle told to the issuer, or the client called so invited, 341 to the issuer and the invitation to it |
| Effects.TopicEffect | src/commands/TopicCommand.cpp:15-67 | TOPIC: the refusals, the query, or the topic changed and every member told |
| Effects.PrivmsgEffect | src/commands/PrivmsgCommand.cpp:48-119 | PRIVMSG: every target in order, each reaching the other members or the one client called so with the second parameter as text, or an error to the sender |
| Passwords.PassExact | src/commands/Pass.cpp:25-47 | what PASS does to flag, count, closing and replies, and to nothing else |
| Passwords.LineSettles | src/server/Server.cpp:550-564 | any line turns the flag on if and only if it is a PASS whose first parameter is the password, byte for byte, and raises the count exactly for a PASS with another non-empty one before that |
| Passwords.RunSettles | src/commands/Pass.cpp:35-47 | over any run: the flag is on if and only if it was or one of the lines handed over is that PASS, and the count grows by exactly the wrong ones before it |
| Passwords.SinceAccept | src/commands/Pass.cpp:18-48 | since its acceptance, a connection has its password accepted if and only if it handed over the right PASS line |
| Output.WriteExact | src/server/Server.cpp:477-501 | a write moves exactly its bytes from the head of the queue to the socket and changes nothing else |
| Output.OnlyWritesSend | src/client/Client.cpp:246-259 | no other event sends a byte |
| Output.SentIsTaken | src/server/Server.cpp:465-502 | over any run what the socket has taken grows by exactly the bytes of its effective writes, and is always the beginning of the accepted messages |
| Output.DrainedIsReaped | src/server/Server.cpp:577-593 | a closing client is removed by the next reap if and only if it is dead or its writes have taken everything it was still owed |
| Output.RefreshExact | src/server/Server.cpp:294-328 | input is asked for if and only if the client is not closing, output if and only if something is queued; the throw exactly for a descriptor without a client |
| SocketSteps.AcceptExact | src/server/Server.cpp:349-393 | a connection is taken on exactly below 512 clients and 128 live ones of its address, as a client without anything, last in the poll list |
| SocketSteps.EndsExact | src/server/Server.cpp:423-499 | an end of input closes a served client; failed receives and sends, a send of nothing and socket errors strike a living one dead; otherwise nothing changes |
| SocketSteps.BuffersKept | src/server/Server.cpp:596-655 | no event but a client's own read touches its buffered input |
| Relays.RelayUnderstood | src/commands/PrivmsgCommand.cpp:71-79 | every message passed on (PRIVMSG, KICK, TOPIC, INVITE, NICK, QUIT, JOIN, PART) parses at its receiver to exactly sender, command, target and text if and only if its targets can stand between spaces |
| Relays.NumericUnderstood | src/commands/Kick.cpp:63-85 | a numeric parses at its receiver to number, arguments and explanation if and only if its arguments can stand between spaces |
| Relays.AnswerUnderstood | src/commands/Join.cpp:208-237 | the welcome, the topic, the member list and PONG parse at their receiver to what they are meant to say if and only if their words can stand between spaces |
| BotReplies.WelcomeAnswered | src/bot/Bot.cpp:179-183 | the welcome of any registration makes the bot join its channel, or throw if the line cannot be sent |
| BotReplies.WrongPasswordEnds | src/bot/Bot.cpp:187-188 | the server's 464 ends the bot, whatever name it is addressed by |
| BotReplies.TakenNicknameEnds | src/bot/Bot.cpp:185-186 | so does its 433 |
| BotReplies.PieceCut | src/bot/Bot.cpp:116-143 | from any sender: the bytes up to a newline are a line, without one final CR, exactly if they fit 512 bytes and hold no NUL or inner CR; 512 bytes without a newline are too many |
| BotReplies.PingAnswered | src/bot/Bot.cpp:173-177 | a PING is answered with its own token |
| Alphabets.NicknamesSpelled | src/commands/Nick.cpp:9-27 | a nickname is valid exactly with one to nine characters of the two alphabets |
| Alphabets.UsernamesSpelled | src/commands/User.cpp:9-20 | a username is valid exactly with one to 32 bytes and none of the six forbidden |
| Alphabets.ChannelNamesSpelled | src/commands/Join.cpp:29-55 | a channel name is valid exactly with one to 50 bytes, # or & first, no space, comma or BEL |
| Alphabets.CasemapExactly | src/server/Server.cpp:88-108 | two names are one exactly when they agree position by position up to the case of letters and the four pairs of brackets, bars and tildes |
| Runs.ReferencesLive | src/channel/Channel.cpp:35-108 | in every reachable state nothing freed was dereferenced; every list of every channel holds connected clients without duplicates, operators are members, members are registered, the invited are not members |
| Runs.NicknamesUnique | src/server/Server.cpp:689-704 | in every reachable state two live clients never share a casemapped nickname, so the first match of the scan is the only one |
| Runs.RegistrationSound | src/commands/Nick.cpp:68-81 | a nickname or username implies an accepted password; 001 was issued exactly once to each registered client and to nobody else; at most three wrong passwords, the third ends service |
| Runs.PassNeverRegisters | src/commands/Pass.cpp:18-48 | an accepted password never completes a registration by itself |
| Runs.OnlyNickAndUserRegister | src/server/Server.cpp:506-574 | if any step from any reachable state leaves a client registered that was not, it was a read of that client and one of the lines handed over is the NICK or USER that completed it |
| Runs.StoppedStaysStopped | src/server/Server.cpp:423-461 | over every continuation of every run, while its connection is there, a closing or dead client stays so, its buffered input stays unread, and the run without anything it sends is possible and ends in the same state |
| Runs.ReceiveBuffersBounded | src/client/Client.cpp:175-231 | between reads a served client has at most 4095 bytes buffered, none of them a newline |
| Runs.ServerBounds | src/server/Server.cpp:349-381 | at most 512 clients, at most 128 live clients of one address, at most 65536 bytes queued; bytes taken plus bytes queued are exactly the accepted messages, all of them valid |
| Runs.EndToEnd | src/client/Client.cpp:73-93 | in every reachable state, for any partial writes and any chunking at the peer, the peer's lines are exactly the bodies of the first accepted messages and its framing never faults |
| Runs.EverythingArrives | src/bot/Bot.cpp:194-221 | once all is sent and received, the peer's lines are all the accepted messages in order if and only if processing none but perhaps the last throws, and it is still receiving if and only if none does |
| Runs.JoinsUnderstood | src/commands/Join.cpp:194-195 | in every reachable state the JOIN line of any member of any channel is valid and the bot recovers exactly nickname and channel from it |
| Runs.AuthorityNeedsAuthority | src/commands/ModeCommand.cpp:221-245 | after any line, a channel has a new operator or a changed setting only if its sender was an operator of that object before or the line created the object |
| Runs.OrphanedChannelFrozen | src/commands/ModeCommand.cpp:62-66 | a channel object without operators has none, and the same four settings, at the end of every continuation of every run |
| Runs.AdmissionAccounts | src/commands/Join.cpp:158-191 | in every reachable state members never exceed the larger of the limit and the count when it was set, and a client's joins through an invite-only door never outnumber its invitations |
| Runs.KeySurvivesJoin | src/commands/Join.cpp:12-26 | any key a reachable channel can have passes JOIN's comma split unchanged and then is not refused |
| Runs.AnnouncementsExact | src/server/Server.cpp:615-635 | QUIT, NICK and channel broadcasts reach exactly the clients they should, each once, and nobody else |
| EventProofs.LoopHeadPolls | src/server/Server.cpp:294-328 | at every loop head the poll list is the listening descriptor and each client once, the throw is unreachable and every entry asks for some event |
| EventProofs.ReceiveBound | src/client/Client.cpp:175-195 | the 8192-byte capacity never rejects a chunk; the bound on the residue is kept |
| EventProofs.LargeResidueFatal | src/client/Client.cpp:184-211 | a residue of 512 bytes or more makes the next non-empty read kill the client without handing over a line |
| EventProofs.AcceptInheritsNothing | src/server/Server.cpp:383-396 | a connection on a reused descriptor has no membership, operator status, invitation, buffered data or registration |
| EventProofs.DisconnectSound | src/server/Server.cpp:596-655 | one disconnect keeps the invariant and removes the client from map, poll list and every channel list |
| EventProofs.DrainSound | src/server/Server.cpp:453-461 | the extract-and-process loop keeps the invariant on any buffer |
| Chunking.FeedAgrees | src/server/Server.cpp:446-461 | for any stream and any cut into reads, the lines handed over are the stream's lines up to the first that is oversized, has a forbidden byte or stops the client, and the state is what they produce, up to the framing layer's own kill |
| Chunking.ChunkingIndependence | src/client/Client.cpp:175-231 | two cuts of one stream hand over the same lines, those of the reference |
| Chunking.ReadsAreFed | src/server/Server.cpp:413-462 | those consecutive reads are what a run of read steps does, to the state, to the buffers and in the lines handed over |
| Announcement.ModeAnnouncementFaithful | src/commands/ModeCommand.cpp:84-259 | for every change request the announced text and arguments, replayed on the old channel, give exactly its new flags, key, limit and operators, using each argument once; signs strictly alternate and each is followed by a letter; every member is sent it once |
| QueryRestore.QueryRestoresSettings | src/commands/ModeCommand.cpp:33-60 | the 324 text and arguments of any reachable channel, fed to the interpreter on a channel with clear settings, restore its settings and are announced as the same text |
| Reaping.ReapExact | src/server/Server.cpp:577-655 | exactly the dead and the closing-and-drained go, from map, poll list and all channel lists; each survivor gains one QUIT per registered victim it shared a channel with, in order, and nothing else |
| LeaveAll.LeaveAllExact | src/commands/Join.cpp:66-97 | JOIN 0 leaves the client in no channel, deletes exactly the channels it was alone in, changes nobody else's status and never touches a deleted channel |
| FanOut.QuitRecipientsExact | src/server/Server.cpp:613-632 | the QUIT recipients are exactly the other clients sharing a channel, each once |
| FanOut.NickRecipientsExact | src/server/Server.cpp:709-735 | the NICK recipients are exactly the changer, first, and those sharing a channel, each once |
| FanOut.BroadcastExact | src/channel/Channel.cpp:76-87 | broadcastMessage sends once to each member but the sender and touches no other client |
| Membership.AdmissionExact | src/commands/Join.cpp:140-191 | a newcomer enters an existing channel if and only if key, invitation and room allow it; then it is last member, no operator, its invitation spent, all else equal |
| Membership.FoundingExact | src/commands/Join.cpp:124-184 | a JOIN founds a channel exactly when the name is valid and no channel has that very name; the founder is sole member and operator |
| Membership.KickExact | src/commands/Kick.cpp:56-95 | the target loses membership and operator status in that channel, and everyone in it is told once, if and only if the issuer operates it and the target is in it |
| Membership.NoAuthorityNoKicks | src/commands/Kick.cpp:48-79 | authority is read anew per pair: once the issuer operates none of the named channels, with one channel for all or with paired lists, the rest of the list changes nothing |
| Membership.KickedHasNoAuthority | src/commands/Kick.cpp:69-94 | whoever is kicked, the issuer included, can kick nobody from that channel afterwards |
| Membership.KickEmpties | src/commands/Kick.cpp:91-94 | a kick leaves the channel in the map, and empty exactly when its only member kicks itself |
| Membership.CaseDistinctExactly | src/server/Server.cpp:738-747 | a JOIN keeps channel names distinct up to casemapping if and only if it does not found one beside another that differs in case only |
| Membership.InviteExact | src/commands/InviteCommand.cpp:13-64 | the target becomes invited, all else equal, if and only if the inviter is a member, the target is not, and an invite-only channel is operated by the inviter |
| Membership.SayExact | src/commands/PrivmsgCommand.cpp:48-119 | a channel message reaches every other member once, a private one its one addressee, and an error only the sender |
| Parsing.PrintParseExact | src/parser/Parser.cpp:6-63 | a message with a command survives printing and parsing if and only if it is well formed |
| Parsing.PrintParse | src/parser/Parser.cpp:22-35 | every well-formed message, its last parameter printed as trailing, parses back to itself |
| Parsing.ParsePrintParse | src/parser/Parser.cpp:35-61 | for every line with no whitespace but the space and a command, parse, print, parse is parse |
| Parsing.ParamBytes | src/parser/Parser.cpp:6-63 | every byte of every parameter is a byte of the line |
| Parsing.ParseClean | src/parser/Parser.cpp:6-63 | a line without NUL, CR and LF has parameters without them |
| Parsing.ParseLine | src/parser/Parser.cpp:6-63 | the cursor and push loop computes the parse the round trips are about |
| BotPeer.ReceiveDelivers | src/bot/Bot.cpp:116-143 | from any prefix of a stream of valid messages, in any chunks, the bot's lines are exactly the bodies received in full, up to the first that makes it throw; it never faults on size, control bytes or capacity |
| BotPeer.PrefixDelivers | src/bot/Bot.cpp:194-221 | the same when the sender has sent some bytes and still queues the others |
| BotPeer.AllReceived | src/bot/Bot.cpp:194-221 | when every byte is in and nothing threw, the lines are all the bodies |
| BotPeer.AllReceivedExactly | src/bot/Bot.cpp:194-221 | when every byte is in, the lines are all the bodies if and only if processing none but perhaps the last throws |
| Greeting.JoinUnderstood | src/bot/Bot.cpp:146-191 | from any registered client's JOIN of any valid channel the bot recovers nickname and channel, mistakes it for nothing else, and its greeting passes its own checks |
| Greeting.JoinWireValid | src/client/Client.cpp:19-34 | that JOIN line is a valid outbound message |
| Shortfalls.QueuedExactly | src/client/Client.cpp:73-93 | a reply is queued exactly when the client is served, the line is valid and it fits; one that does not fit kills; the rest vanish |
| Shortfalls.RosterDelivered | src/commands/Join.cpp:218-237 | the 353 line is a sendable message exactly when its three texts have at most 493 bytes together |
| Shortfalls.SurvivorDies | src/server/Server.cpp:577-635 | a client left after a reap is dead exactly when it was served and the QUIT lines it was owed did not fit its queue |
| Shortfalls.DisconnectEmpties | src/server/Server.cpp:638-642 | a disconnect leaves every channel in the map, empty exactly when nobody else was in it |
| ModeLines.ModeLineReadsBack | src/commands/ModeCommand.cpp:255-258 | the announcement line of any request in any reachable state parses to its mode text and arguments if and only if the channel's name has no blank and every announced argument is a non-empty word without blanks or leading colon |
| ModeLines.PlainRequestReadsBack | src/commands/ModeCommand.cpp:84-253 | if the request's own arguments are such words, so is everything announced |
| ReadBack.ReadsBackExactly | src/parser/Parser.cpp:6-63 | any line of words parses to the message it spells if and only if every argument is such a word |
| QueryLine.QueryLineRestores | src/commands/ModeCommand.cpp:33-60 | the 324 answer of any reachable channel, sent back as a MODE line by an operator of a channel with clear settings, restores them if and only if there was nothing to set or name and key can stand between spaces |
| KeyLists.ListsSplit | src/commands/Join.cpp:12-26 | comma-joined names of reachable channels split into themselves; their comma-joined keys do if and only if every channel has one |
| KeyLists.JoinLineReadsBack | src/parser/Parser.cpp:6-63 | a JOIN line of names and keys parses to the two lists if and only if both can stand between spaces |
| KeyLists.KeysSurviveJoinLine | src/commands/Join.cpp:99-156 | then each channel is tried with its own key and none refuses the client for it |
| Witnesses.KickLeavesEmpty | src/commands/Kick.cpp:91-94 | at a concrete state, a self-kick leaves an empty channel |
| Witnesses.DisconnectLeavesEmpty | src/server/Server.cpp:638-642 | at a concrete state, a disconnect leaves an empty channel |
| Witnesses.CaseVariantsCoexist | src/server/Server.cpp:738-747 | at a concrete state, JOIN of #C founds it beside #c |
| Witnesses.ColonKeyEaten | src/commands/ModeCommand.cpp:137-145 | at a concrete state, `MODE #c +k ::x` sets and announces ":x", and the announcement does not read back |
| Witnesses.ColonKeyReadAs | src/commands/ModeCommand.cpp:255-258 | that announcement reads as key "x" |
| Witnesses.EmptyKeyLost | src/commands/ModeCommand.cpp:137-145 | at a concrete state, an empty key is announced, sets nothing and does not read back |
| Witnesses.RosterDropped | src/commands/Join.cpp:218-237 | at a concrete state with fifty members, no member's 353 line is a valid message |
| Witnesses.SurvivorIsDead | src/server/Server.cpp:577-635 | at a concrete state, a client that was alive before a reap and is kept by it is dead after it |
| Clients.QueueKeepsOutput | src/client/Client.cpp:73-93 | conservation of output: sendMessage keeps sent plus queued equal to the accepted messages, within the bound |
| Clients.ConsumeKeepsOutput | src/client/Client.cpp:246-259 | conservation of output under partial writes, each moving exactly its bytes |
| Commands.AdmitOk | src/commands/Join.cpp:180-191 | admission keeps the lists duplicate-free, the limit bound and the invitation account |
| CommandProofs.PassSound | src/commands/Pass.cpp:18-48 | PASS keeps the invariant, the attempt bound included |
| CommandProofs.NickSound | src/commands/Nick.cpp:41-82 | NICK keeps the invariant, unique nicknames and exactly-once welcome included |
| CommandProofs.UserSound | src/commands/User.cpp:33-67 | USER keeps the invariant |
| CommandProofs.JoinSound | src/commands/Join.cpp:58-240 | JOIN keeps the invariant and grants authority only over channels it founds |
| CommandProofs.KickSound | src/commands/Kick.cpp:30-96 | KICK keeps the invariant and needs authority |
| CommandProofs.InviteSound | src/commands/InviteCommand.cpp:13-64 | INVITE keeps the invariant, the invited disjoint from the members |
| CommandProofs.TopicSound | src/commands/TopicCommand.cpp:15-67 | TOPIC keeps the invariant |
| CommandProofs.PrivmsgSound | src/commands/PrivmsgCommand.cpp:48-119 | PRIVMSG keeps the invariant |
| ModeProofs.ModeSound | src/commands/ModeCommand.cpp:14-259 | MODE keeps the invariant: keys without space, tab or comma, limits within an int, operators that are members |
| Text.DigitsRoundTrip | src/commands/ModeCommand.cpp:43-47 | a decimal text of a limit reads back as the limit |
| Text.Tokenise | src/commands/Join.cpp:12-26 | the split loop yields the maximal non-empty pieces |
| Text.ToIrcLowerCase | src/server/Server.cpp:88-108 | the in-place loop computes the casemapping |
| ClientObject.IsValidOutboundMessage | src/client/Client.cpp:19-34 | the byte loop accepts exactly the messages of at most 512 bytes ending in CRLF with no other control byte |
| ClientObject.IsValidNickname | src/commands/Nick.cpp:9-27 | the character loop accepts exactly the valid nicknames |
| ClientObject.IsValidUsername | src/commands/User.cpp:9-20 | the character loop accepts exactly the valid usernames |
| ClientObject.IsValidChannelName | src/commands/Join.cpp:29-55 | the character loop accepts exactly the valid channel names |
| ClientObject.Connection.constructor | src/client/Client.cpp:37-44 | a new connection has nothing |
| ClientObject.Connection.SendMessage | src/client/Client.cpp:73-93 | the fields change as the specification's sendMessage, the receive buffer not at all |
| ClientObject.Connection.AppendToRecvBuffer | src/client/Client.cpp:175-194 | the buffer and the answer are those of the specification |
| ClientObject.Connection.ExtractLine | src/client/Client.cpp:197-231 | the buffer loses exactly the line's bytes; a bad line kills the client instead |
| ClientObject.Connection.ConsumeSendBuffer | src/client/Client.cpp:246-259 | the queue loses exactly the bytes sent |
| ClientObject.Connection.MarkDead | src/client/Client.cpp:262-272 | the first reason stays |
| ClientObject.Connection.MarkClosing | src/client/Client.cpp:280-288 | no effect on a dead or closing client |
| ClientObject.Connection.RecordFailedPassAttempt | src/client/Client.cpp:162-167 | a saturating counter |
| ChannelObject.Room.AddMember | src/channel/Channel.cpp:35-41 | appended unless present |
| ChannelObject.Room.RemoveMember | src/channel/Channel.cpp:43-55 | find and erase, operator status with it |
| ChannelObject.Room.AddOperator | src/channel/Channel.cpp:57-64 | appended unless present |
| ChannelObject.Room.RemoveOperator | src/channel/Channel.cpp:66-74 | find and erase |
| ChannelObject.Room.AddInvited | src/channel/Channel.cpp:96-101 | appended unless present, and counted |
| ChannelObject.Room.RemoveInvited | src/channel/Channel.cpp:103-108 | find and erase |
| ServerObject.IrcServer.constructor | src/server/Server.cpp:111-119 | the object starts as the start state |
| ServerObject.IrcServer.Serve | src/server/Server.cpp:230-291 | any possible sequence of events leaves the object in the state the run theorems speak of, with the invariant |
| ServerObject.IrcServer.Perform | src/server/Server.cpp:252-286 | one event does what the state machine's step does |
| ServerObject.IrcServer.RefreshPollEvents | src/server/Server.cpp:294-328 | the loop computes the events asked for, or the throw |
| ServerObject.IrcServer.AcceptNewClient | src/server/Server.cpp:331-410 | both limits, then a fresh client object in map and poll list |
| ServerObject.IrcServer.CountClientsFromIp | src/server/Server.cpp:668-680 | the loop counts the live clients of the address |
| ServerObject.IrcServer.HandleClientRead | src/server/Server.cpp:413-462 | append, then the extract-and-process loop: exactly one read step |
| ServerObject.IrcServer.HandleReadEnd | src/server/Server.cpp:429-433 | an end of input starts closing |
| ServerObject.IrcServer.HandleReadError | src/server/Server.cpp:435-444 | a failed recv kills |
| ServerObject.IrcServer.HandleClientWrite | src/server/Server.cpp:465-502 | a partial write takes exactly its bytes; zero bytes kill |
| ServerObject.IrcServer.HandleWriteError | src/server/Server.cpp:483-492 | a failed send kills |
| ServerObject.IrcServer.ProcessLine | src/server/Server.cpp:506-574 | built-in commands, the two registration gates, dispatch |
| ServerObject.IrcServer.ReapDeadClients | src/server/Server.cpp:577-593 | both passes, the dead collected in map order |
| ServerObject.IrcServer.DisconnectClient | src/server/Server.cpp:596-655 | QUIT to the recipients, then the client leaves every list, the poll list and the map |
| ServerObject.IrcServer.FindClientByNick | src/server/Server.cpp:689-704 | the scan in map order |
| ServerObject.IrcServer.BroadcastNicknameChange | src/server/Server.cpp:709-735 | the recipient scan and the sends |
| ServerObject.IrcServer.Broadcast | src/channel/Channel.cpp:76-87 | one sendMessage per member but the sender, in order |
| ServerObject.IrcServer.RemoveChannel | src/server/Server.cpp:765-776 | exactly that entry leaves the map |
| ServerObject.IrcServer.FoundChannel | src/server/Server.cpp:750-763 | a fresh channel object enters the map, with its founder |
| ServerObject.IrcServer.Pass | src/commands/Pass.cpp:18-48 | password, attempt counter and closing flag change in place as specified |
| ServerObject.IrcServer.Nick | src/commands/Nick.cpp:41-82 | checks, collision lookup, change, announcement or welcome |
| ServerObject.IrcServer.User | src/commands/User.cpp:33-67 | checks, change, welcome |
| ServerObject.IrcServer.Join | src/commands/Join.cpp:58-240 | JOIN 0 over its snapshot, or the channel and key lists |
| ServerObject.IrcServer.JoinList | src/commands/Join.cpp:107-239 | the loop over channels, missing keys empty |
| ServerObject.IrcServer.JoinOne | src/commands/Join.cpp:124-238 | one channel: validity, founding, admission, announcements |
| ServerObject.IrcServer.LeaveEach | src/commands/Join.cpp:68-95 | the loop over the snapshot while the real map shrinks |
| ServerObject.IrcServer.NamesList | src/commands/Join.cpp:218-235 | the list-building loop |
| ServerObject.IrcServer.Kick | src/commands/Kick.cpp:30-96 | paired lists or one channel for all |
| ServerObject.IrcServer.KickOne | src/commands/Kick.cpp:58-94 | one pair: the four refusals, or told and removed |
| ServerObject.IrcServer.Invite | src/commands/InviteCommand.cpp:13-64 | the refusals in order, or recorded and both told |
| ServerObject.IrcServer.Topic | src/commands/TopicCommand.cpp:15-67 | query, refusals, change and announcement |
| ServerObject.IrcServer.Privmsg | src/commands/PrivmsgCommand.cpp:48-119 | the loop over targets |
| ServerObject.IrcServer.Mode | src/commands/ModeCommand.cpp:14-259 | query, refusals, unknown-letter scan, interpreter |
| ServerObject.IrcServer.InterpretModes | src/commands/ModeCommand.cpp:84-253 | the interpreter's loop, with its six variables, changes the channel and builds the announcement as specified |
| ServerObject.IrcServer.ModeCharacter | src/commands/ModeCommand.cpp:92-252 | one character of it |
| BotObject.Bot.SendLine | src/bot/Bot.cpp:85-113 | whatever each send takes, the bytes sent are the line and CRLF, or nothing when refused |
| BotObject.Bot.ExtractLine | src/bot/Bot.cpp:116-143 | the cut and the buffer left |
| BotObject.Bot.GreetJoinedUser | src/bot/Bot.cpp:146-168 | says the greeting exactly when the specification does |
| BotObject.Bot.ProcessLine | src/bot/Bot.cpp:171-191 | says, throws or is silent as specified |
| BotObject.Bot.ReceiveMessages | src/bot/Bot.cpp:194-221 | both loops: lines, buffer and status are those the delivery theorems speak of |

## Left out

- Socket, signal, `poll`, `fcntl` and `getaddrinfo` calls: their results are the parameters of the steps (a descriptor not in use, 1 to 4096 bytes read, at most the queued bytes taken).
- Order of events within one `poll` round: steps may come in any order, which allows every order the loop produces and more; a reap is likewise possible at any point.
- `bytesRead` or `bytesSent` with EAGAIN, EWOULDBLOCK or EINTR: such calls change nothing and are not steps.
- Logging, `main.cpp` of both programs, destructors, shutdown, the rollback of `acceptNewClient` after an allocation failure, and rejected connections after `fcntl` or `inet_ntop` failures.
- The catch around a command: no modelled command throws, so it has nothing to do here.
- `std::map` iteration is modelled by the ascending enumerations of module Ordering, objects by their map keys: a client is referred to by its descriptor, a channel by its name and serial number.
- Text is a sequence of characters, one per byte; `toupper`, `isalpha` and `isspace` are those of the C locale.
- `std::atoi` beyond int range, undefined in C, is modelled as the saturating-then-truncating result of a 64-bit glibc (`Text.Atoi`); no theorem depends on it except that limits stay within an int.
- `MODE` with an empty first parameter reads `target[0]` of an empty string; it is treated as not a channel.
- Chunking.ChunkingIndependence: is about consecutive reads of one client, since other clients' commands can change what its lines mean; the two cuts may differ in whether the framing layer has already killed the client, because the check for a missing newline depends on the cut.
- Announcement.ModeAnnouncementFaithful: reads operator nicknames as the clients they named before the command, and the arguments as a list; ModeLines.ModeLineReadsBack says when the line itself reads back as that list.
- An accepted `+k` with an empty key is announced although the channel stays without a key, and a key with a leading colon is announced in a form that reads back without it (Witnesses.EmptyKeyLost, Witnesses.ColonKeyReadAs); the code is modelled as it is.
- Channels may be empty (Membership.KickEmpties, Shortfalls.DisconnectEmpties), and two channel names may differ in case only (Membership.CaseDistinctExactly): the server keeps no such invariant and none is stated.
- A comment in `createChannel` (src/server/Server.cpp:752-753) asks for channel quotas and for deletion after the last member leaves; the code has no quota and deletes only in JOIN 0. A comment in `findChannel` (src/server/Server.cpp:740-741) asks for casemapped keys; the code passes and compares names byte for byte. The model follows the code.
- BotObject.Bot: the bot's connection set-up and failed sends and recvs; a failed call ends the bot.
- CAP and PING beyond their single reply, and the exact text of `strerror` messages, which are parameters.
