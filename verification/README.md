# GNU inetutils: models of its protocol cores, with proofs

A Dafny 4.11 model of the parts of GNU inetutils whose correctness spans whole
runs: the telnet ENCRYPT negotiation with its two stream ciphers, the rcp
sender and receiver, the double-buffered netascii files of TFTP, the ASCII
transfers and reply parser of FTP, the template interpreter of ifconfig, the
ICMP checksum codec with ping's duplicate table, inetd's accounting of sockets
and children, telnet's authentication retries, and the column layout of ls.

    dafny verify dfyconfig.toml

checks everything. I/O is byte sequences: what a process will read is an
argument or a field, what it writes is appended to a field or a trace. The
block cipher, the random source, the clock, descriptors and process ids given
by the system, and the faults of a file system are parameters, so the theorems
hold for all of them.

## How it is organised

| files | models |
|---|---|
| `Cipher`, `Telnet`, `TelnetWire` | the ciphers, handlers and wire format of `libtelnet/encrypt.c` and `libtelnet/enc_des.c`, as functions |
| `TelnetSession`, `TelnetMoves`, `TelnetSystem`, `TelnetSingle`, `TelnetRuns`, `TelnetCrossing` | two endpoints: the invariant, its steps, whole runs, and the run that breaks it |
| `TelnetSafety`, `TelnetStarts`, `TelnetRules` | one endpoint against any peer |
| `TelnetProgress`, `TelnetStage`, `TelnetSettles` | the negotiation gets through: one endpoint, and two |
| `TelnetProcess`, `TelnetSender`, `TelnetReceiver`, `TelnetHandlers`, `TelnetLive` | the running programs |
| `TelnetBuffer` | the output buffer of `telnetd/utility.c` |
| `Rcp`, `RcpText` | `rcp/rcp.c`: the two ends as functions, and the text of their records |
| `RcpRecord` | one record: what it leaves behind and what is said, with any faults |
| `RcpTalk`, `RcpLink`, `RcpAnswers`, `RcpSession`, `RcpUnread`, `RcpTree` | the conversation, its interleavings, its answers, and the tree it merges with what is there |
| `RcpDeadlock`, `RcpExamples` | transfers that do not end, and the smallest that go wrong |
| `RcpLoops`, `RcpProcess`, `RcpTransfer` | the running processes |
| `Tftp` (modules `Netascii`, `Tftp`), `TftpWire` | `libinetutils/tftpsubs.c`, and what netascii is on the wire |
| `FtpAscii`, `FtpWire`, `FtpReply`, `FtpReplies` | `ftp/ftp.c`, `ftpd/ftpd.c` |
| `Template`, `Printif`, `Builtin`, `Reports` | `ifconfig/printif.c`, `ifconfig/options.c`, and what each built-in format prints |
| `Icmp` | `libicmp/icmp_cksum.c`, `libicmp/icmp_echo.c` |
| `Ping` | `ping/libping.c`, `ping/ping.h` |
| `Inetd` | `inetd/inetd.c` |
| `Auth` | `libtelnet/auth.c` |
| `Listing` | `libls/print.c` |
| `Octets`, `Wrappers` | bytes, decimal numbers and a little arithmetic, `Option` |

**telnet.** `Telnet` gives every handler as a function of one endpoint, down to
the bytes written. Two endpoints are joined by two byte streams, and a step is
one endpoint reading one byte, obeying a command, or having the session key
installed. The invariant compares the sender with the receiver *as it will be
once it has read everything in flight*; every step of every interleaving keeps
it, so the receiver's registers equal the sender's and the messages read are the
messages sent, encrypted or not, over any number of START/END cycles.
`TelnetSafety` drops the assumption of an honest peer. `TelnetSettles` says that
two ends that nobody stops do get to encryption: whatever the interleaving, when
everything under way has been read each cipher that was asked for is in use, and
everything can be read. In the running programs
each static variable is a field, and each direction of each cipher a record with
its `str_output` and `str_feed` arrays and its index; a ghost field holds what
they mean. The handlers there are steps on the way to `TelnetHandlers.Session`'s
`Receive`, `InstallKey` and `Obey`, from which `TelnetLive` builds two programs
that talk to each other; what is proved of runs of the functions holds of them.
There a write is encrypted at once. `TelnetBuffer` is the buffer of telnetd, in
which bytes wait unencrypted until a flush or a change of cipher, with the
system taking as many as it likes at each flush: the bytes that leave are the
same.

**rcp.** Each end is a function of all the bytes it will receive. `RcpTalk`
writes the conversation down once and shows that each end, run alone on the
other's bytes, holds exactly its side of it, with any pattern of failures.
`RcpLink` plays the two traces against each other over channels where writes are
never held up and reads block. `RcpAnswers` says which answers are under way,
and `RcpSession` puts these together for whole transfers. `RcpProcess` has the
procedures, with their loops over buffers and their steps on the file system,
and `RcpTransfer` runs one on what the other writes. `RcpRecord` says of each
record, with any faults and whatever was at its place, what the file or directory
is afterwards, and `RcpTree` what becomes of a whole tree where parts of it
exist already. `RcpDeadlock` has the
transfers in which an answer too many leaves each end waiting for the other.

**TFTP.** `Buffers` is the pair of buffers with the conversion flags. The
reading invariant ties the buffered, the half-converted and the unread bytes to
the encoded file; the writing invariant ties the file written so far, its
pending carriage return and the pending buffer to the payloads accepted.
`TftpWire` says byte by byte what the encoding is, which streams are encodings,
what decoding makes of any stream, and that pairs cut by the end of a block are
continued in the next.

**FTP.** The sending, receiving and skipping loops of client and server are
proved against one set of functions, so that client and server agree. The reply
scanner is a byte-by-byte automaton; where it stops is then characterised by
whole lines, for every input.

**ifconfig.** `Template` is a syntax tree with a value; `Printif` is the scanner
over the text, with its quiet mode, proved to print that value and to stop at
the end of the text it was given. `Reports` gives the value for the built-in
formats: the lines printed for an interface, told from which values the system
has and which of them are set.

**inetd.** Beside the sockets and children, a history of starts goes with each
service: the counter counts the last of them, and a service is stopped exactly
when it is started too often within an interval.

Where the code and its comments or the property one would expect disagree, the
model follows the code, and the exact condition is proved:

- OFB64 does not meet the equation V0 = DES(iV) of its comment, because the
  vector is never loaded into the feed register (`Cipher.OfbMeetsCommentIff`;
  `Cipher.OfbDepartsFromComment`: on first use for every vector but zero, if
  the block function is injective); both ends depart from it alike.
- START carries no cipher type, and the receiver uses that of the last vector
  it received. Starting another type puts the ends out of sync
  (`TelnetRuns.StartKeepsSyncIff`). A run from the start that does so is given
  by `TelnetCrossing.OutOfSyncRun`; no run does exactly when neither end can
  decrypt both types (`TelnetCrossing.AlwaysInSyncIff`), and with any types no
  run does in which the users do not change the type of their output
  (`TelnetRuns.SessionStaysInSync`).
- A receiver of rcp that cannot set the mode of a file or the times of a
  directory answers once more than the sender waits for
  (`RcpSession.RcpAnswersMatchIff`). Exactly then the two ends can get out of
  step (`RcpSession.RcpNeverStuckIff`). For a file sent on its own the last
  answer is left unread (`RcpUnread.RcpLeavesUnreadIff`); in a directory it is
  taken for the answer to the next file, and the transfer can hang for good
  (`RcpDeadlock.RcpDeadlock`). One answer at a time is under way except then and
  where an empty file cannot be truncated (`RcpSession.RcpTwoAnswersIff`).
  `RcpExamples` has an instance of each.
- An ASCII transfer is not the identity on files with NUL after CR
  (`FtpAscii.TransferIsIdentityIff`).
- A one-line reply whose text has a line feed in it, as `fatal` sends, is not
  taken whole (`FtpReplies.OneLineExactIff`).
- ICMP decoding rejects one of the two checksums that RFC 1071 allows for some
  messages (`Icmp.AcceptsIffSumIsOnes`).
- ping can count more replies as received than requests as sent, after a failed
  send (`Ping.Ping.Run` says exactly when, `Ping.ReceivedExceedsSent` is such a
  run).
- `close_sep` on an entry with a running waited child, and only there, breaks
  the accounts of inetd (`Inetd.CloseKeepsIff`, `Inetd.Server.CloseSep`);
  `Inetd.ClosedWhileWaiting` ends with nsock at -1.

## Model

| member | source | states |
|---|---|---|
| `Cipher.ByteRoundTrip` | libtelnet/enc_des.c:661-711 | decrypting one encrypted byte gives the byte back and leaves the receiver with the sender's registers, for CFB64 and OFB64 and every block function |
| `Cipher.RoundTrip` | libtelnet/enc_des.c:642-796 | decryption inverts encryption on all data from equal registers, and the registers are equal again afterwards |
| `Cipher.EncSplit` | libtelnet/enc_des.c:642-672 | ciphertext and registers do not depend on how the data is cut into calls |
| `Cipher.PeekIsInvisible` | libtelnet/enc_des.c:681-711 | after at least one byte, decrypt, back up one, decrypt leaves the same registers and byte as the second decrypt alone |
| `Cipher.MeetsBlockEquations` | libtelnet/enc_des.c:620-672 | byte-wise output equals the block equations On = Dn ^ Vn with the register's next block, for data of any length |
| `Cipher.CfbMeetsComment` | libtelnet/enc_des.c:620-640 | from a fresh vector CFB64 is exactly V0 = DES(iV), On = Dn ^ Vn, V(n+1) = DES(On) |
| `Cipher.OfbMeetsCommentIff` | libtelnet/enc_des.c:713-757 | OFB64 meets V0 = DES(iV) on all data if and only if the old feed register has the vector's block image |
| `Cipher.OfbDepartsFromComment` | libtelnet/enc_des.c:590-604 | on first use, for every block function injective under the key and every vector but zero, the OFB64 comment fails on some data |
| `Cipher.KeyRestarts` | libtelnet/enc_des.c:606-618 | with a new key the stream meets the block equations from the vector stored before, or for OFB64 from the feed register |
| `TelnetWire.ParsesBack` | telnetd/state.c:162-400 | reading the bytes of any message, IACs doubled, from the idle state completes exactly that message at its last byte and no other before |
| `TelnetWire.DrainMsg` | telnetd/state.c:162-400 | a receiver with the sender's registers that reads the bytes of a message, encrypted or not, ends with the message handled and the sender's new registers |
| `TelnetMoves.MoveSendIv` | libtelnet/enc_des.c:219-263 | sending a new vector keeps the two-party invariant |
| `TelnetMoves.MoveFbStart` | libtelnet/enc_des.c:195-264 | every outcome of fb64_start (already sent, no key yet, no randomness, vector sent) keeps the invariant |
| `TelnetMoves.MoveStartOutput` | libtelnet/encrypt.c:885-943 | encrypt_start_output keeps the invariant unless it starts a type other than that of the last vector |
| `TelnetMoves.MoveEnd` | libtelnet/encrypt.c:945-964 | encrypt_send_end keeps the invariant: END itself is still encrypted |
| `TelnetMoves.MoveIvOk` | libtelnet/enc_des.c:400-407 | taking IV_OK for a vector under way makes the sender's registers those the receiver set from the vector |
| `TelnetMoves.MoveSupport` | libtelnet/encrypt.c:523-563 | handling the peer's SUPPORT keeps the invariant, unless it starts a type other than that of the last vector |
| `TelnetMoves.MoveReply` | libtelnet/encrypt.c:616-666 | handling the answer to a vector under way, with the key id and start that follow, keeps the invariant, with the same exception |
| `TelnetMoves.MoveDecKeyid` | libtelnet/encrypt.c:787-835 | handling DEC_KEYID, with the start it may trigger, keeps the invariant, with the same exception |
| `TelnetMoves.MoveRequestStart` | libtelnet/encrypt.c:756-768 | handling REQUEST-START keeps the invariant, with the same exception |
| `TelnetMoves.MoveFbSession` | libtelnet/enc_des.c:445-485 | installing the session key, with the start it may release, keeps the invariant |
| `TelnetSystem.ReadByte` | libtelnet/enc_des.c:674-711 | one byte read keeps the invariant, with the vector or answer it completes in hand, and the message completed is one the peer honestly sent |
| `TelnetSystem.MoveRead` | telnetd/state.c:162-400 | reading a byte, with all that the completed message makes the endpoint write, keeps the invariant in both directions |
| `TelnetSystem.MoveObey` | libtelnet/encrypt.c:292-420 | every user command keeps the invariant |
| `TelnetSystem.MoveAct` | libtelnet/encrypt.c:523-964 | every enabled action of either end keeps the invariant |
| `TelnetSingle.SingleActs` | libtelnet/encrypt.c:523-964 | an end whose user keeps to its cipher type, or whose peer can decrypt no other, negotiates and starts that one type only, whatever it reads, is given or is told to do |
| `TelnetRuns.RunKeepsInv` | libtelnet/encrypt.c:523-964 | the invariant holds after every run in which each start is for the type of the last vector |
| `TelnetRuns.RunNeverCrosses` | libtelnet/encrypt.c:885-943 | every run is such a run if each user keeps to its type or has no choice |
| `TelnetRuns.SessionStaysInSync` | libtelnet/encrypt.c:565-964 | two honest endpoints with one valid key, every interleaving, every command but a change of type where the peer can decrypt both: what the receiver will have read is exactly what was sent, and its decrypting registers are the sender's |
| `TelnetRuns.UncrossedStaysInSync` | libtelnet/encrypt.c:565-964 | the same for every command, as long as each start is for the type of the last vector |
| `TelnetRuns.StartKeepsSyncIff` | libtelnet/encrypt.c:671-709 | from any invariant state a START of a negotiated type keeps the ends in sync if and only if it is the type of the last vector sent |
| `TelnetRuns.VectorNotInUse` | libtelnet/enc_des.c:400-407 | in every invariant state, when IV_OK makes the sender load a vector its type is not the one encrypting |
| `TelnetRuns.KeyNotInUse` | libtelnet/enc_des.c:445-485 | in every invariant state, a type whose key is still to be installed is not the one encrypting |
| `TelnetCrossing.OutOfSyncRun` | libtelnet/encrypt.c:885-936 | for every block function, key and choice of types of which the receiver can decrypt both, a run from the start after which that direction is out of sync |
| `TelnetCrossing.AlwaysInSyncIff` | libtelnet/encrypt.c:671-709 | all runs from the start leave both directions in sync if and only if neither end can decrypt both types |
| `TelnetSafety.VectorSent` | libtelnet/enc_des.c:219-263 | a vector counted as accepted was sent, is the newest, and its IV_OK came after it with no failure since |
| `TelnetSafety.KeyidAccepted` | libtelnet/enc_des.c:507-527 | a key id counted as accepted was key id 0, with no failure since |
| `TelnetSafety.FeedSafe` | libtelnet/encrypt.c:523-964 | the safety invariant of the outgoing half survives any sequence of arriving bytes, commands and keys |
| `TelnetSafety.StartNeedsNegotiation` | libtelnet/encrypt.c:885-936 | against any peer, START for a type is sent only after a vector was sent under a valid key, IV_OK arrived after it and key id 0 was accepted, none of them undone by a failure; the stream's vector is the one sent |
| `TelnetSafety.OutputNeedsStart` | libtelnet/encrypt.c:925-936 | the cipher is installed only by such a START |
| `TelnetStarts.FeedPaired` | libtelnet/encrypt.c:885-936 | in every run the vectors and STARTs in the history are those written, one for one and in order |
| `TelnetStarts.EmittedStartNeedsNegotiation` | libtelnet/encrypt.c:885-936 | against any peer, a START among the bytes written comes after the IS message with the vector its cipher starts from, sent under a valid key, with IV_OK and key id 0 accepted in between and not undone by a failure |
| `TelnetProgress.SupportBegins` | libtelnet/encrypt.c:523-563 | the peer's SUPPORT makes the first common type the type in use, and its vector is sent, or held back until the key is there |
| `TelnetProgress.ReplyGoing` | libtelnet/encrypt.c:616-666 | IV_OK is answered with key id 0 |
| `TelnetProgress.ConfirmedStarts` | libtelnet/encrypt.c:787-835 | when key id 0 is confirmed after IV_OK and automatic start is set, START is the next message and the cipher is installed |
| `TelnetProgress.RequestGoing` | libtelnet/encrypt.c:756-768 | REQUEST-START starts the cipher if all is agreed and otherwise sends nothing |
| `TelnetProgress.RequestIdle` | libtelnet/encrypt.c:756-768 | before a type is picked, a server that is asked to start sets automatic start, and a client does nothing |
| `TelnetProgress.KeyGoing` | libtelnet/enc_des.c:445-485 | the session key releases a vector that was held back, and only then |
| `TelnetStage.MsgStep` | libtelnet/encrypt.c:523-835 | each message of an honest peer takes an endpoint to its next stage, told from what it has sent and seen, with at most one lighter message in answer |
| `TelnetStage.AutoKept` | libtelnet/encrypt.c:756-768 | automatic start is never given up towards an honest peer, and REQUEST-START before SUPPORT sets it at a server |
| `TelnetSettles.NegotiationStarts` | libtelnet/encrypt.c:523-964 | two honest ends, every interleaving, no command that stops or changes anything: once all is read, each direction with a common type, its key, SUPPORT sent and start asked for (by its sender, or by a client of a server) is encrypted with the first common type at both ends |
| `TelnetSettles.ReadOut` | libtelnet/encrypt.c:523-964 | with the keys there, reading whatever there is comes to an end, whichever end is read first |
| `TelnetSettles.GoesThrough` | libtelnet/encrypt.c:523-964 | from every state of such a run there is a way to encryption in every direction that was asked for |
| `TelnetRules.CommandSays` | libtelnet/encrypt.c:335-421 | the message of each command, and that stopping output leaves it in clear after END |
| `TelnetRules.OfferSays` | libtelnet/encrypt.c:457-473 | SUPPORT is sent once with the types that can be decrypted, after REQUEST-START if a client decrypts automatically |
| `TelnetRules.StopsWhenAsked` | libtelnet/encrypt.c:744-754 | a request to stop is obeyed: END is the last message and output is in clear |
| `TelnetRules.RefusalGivesUp` | libtelnet/enc_des.c:384-443 | after any answer but IV_OK the type has failed and automatic start is off |
| `TelnetRules.OtherKeyid` | libtelnet/encrypt.c:787-835 | a key id other than the one sent is taken over if it is 0 and otherwise dropped, and the answer says which |
| `TelnetRules.NoKeyid` | libtelnet/encrypt.c:787-835 | without a usable type, or for an empty key id, the key id is withdrawn |
| `TelnetRules.BadVector` | libtelnet/enc_des.c:288-382 | a vector of the wrong length is answered IV_BAD and the type has failed |
| `TelnetRules.UnknownVector` | libtelnet/encrypt.c:565-614 | a vector for a type that cannot be decrypted is not answered |
| `TelnetRules.StartAndEnd` | libtelnet/encrypt.c:671-743 | START installs the type in use or is answered with a request to stop; END removes it |
| `TelnetRules.KeyidAnswer` | libtelnet/encrypt.c:787-835 | of key ids only 0 is accepted, and the answer says so unless it was there already |
| `TelnetProcess.StInfo.Encrypt` | libtelnet/enc_des.c:642-672 | the buffer and the register arrays, changed in place, become what the cipher function says |
| `TelnetProcess.StInfo.Decrypt` | libtelnet/enc_des.c:693-711 | one byte decrypted in place of the registers |
| `TelnetProcess.StInfo.BackUpOne` | libtelnet/enc_des.c:681-691 | one byte given back |
| `TelnetProcess.StInfo.SetIv` | libtelnet/enc_des.c:590-604 | the vector is loaded; the feed register keeps its contents |
| `TelnetProcess.StInfo.SetKey` | libtelnet/enc_des.c:606-618 | the key is stored and the stream restarts from the stored vector |
| `TelnetProcess.SubBytes` | libtelnet/encrypt.c:854-861 | the copying loops write the suboption with every IAC doubled |
| `TelnetSender.Sender.NetWrite` | telnetd/utility.c:1552-1567 | bytes written go through the installed cipher's registers, which advance: what the buffer of `TelnetBuffer` amounts to |
| `TelnetBuffer.PutIsNetWrite` | telnetd/utility.c:1552-1567 | encrypting at every write, as the buffer is compared with, is how the functions of the two-party system write messages |
| `TelnetBuffer.NetBuffer.Seal` | telnetd/utility.c:1558-1567 | the bytes from nclearto or nbackp on are encrypted in place, and all of the buffer counts as encrypted |
| `TelnetBuffer.NetBuffer.Flush` | telnetd/utility.c:564-620 | however many bytes the system takes, those still owed are what encrypting at every write leaves; the buffer starts afresh exactly when all were taken |
| `TelnetBuffer.NetBuffer.Write` | telnetd/utility.c:208-226 | data goes in unencrypted if and only if it fits, at once or after a flush that empties the buffer; otherwise it is dropped whole |
| `TelnetBuffer.NetBuffer.Switch` | libtelnet/encrypt.c:925-936 | after net_encrypt the cipher may be changed or taken out: what was written before leaves in the old mode |
| `TelnetBuffer.NetBuffer.Finish` | telnetd/utility.c:564-620 | once the system has taken everything, the bytes gone are exactly those of encrypting at every write |
| `TelnetBuffer.NetBuffer.Run` | telnetd/utility.c:208-620 | the same after any writes, flushes taking any number of bytes, changes of cipher, vectors and keys for types not in use; no write that the buffer could hold fails if the system takes all it is offered |
| `TelnetSender.Sender.StartCipher` | libtelnet/enc_des.c:195-264 | the variables of the outgoing half come to mean what the function of fb64_start says, in all four outcomes |
| `TelnetSender.Sender.ScanLoop` | libtelnet/encrypt.c:537-550 | the loop collects the usable types and picks the first |
| `TelnetSender.Sender.DecKeyid` | libtelnet/encrypt.c:787-835 | the variables after all four cases of encrypt_keyid for the outgoing half; `TelnetProgress.ConfirmedStarts` says that a confirmed key id starts the cipher |
| `TelnetReceiver.Receiver.DecryptByte` | libtelnet/enc_des.c:693-711 | one byte decrypted in the registers of the installed type, the other type's untouched |
| `TelnetHandlers.Session.Is` | libtelnet/encrypt.c:565-614 | the variables of the incoming half, and everything written in answer, in order |
| `TelnetHandlers.Session.EncKeyid` | libtelnet/encrypt.c:787-835 | the variables of the incoming half, and the DEC_KEYID written |
| `TelnetHandlers.Session.Dispatch` | telnetd/state.c:1517-1559 | every ENCRYPT suboption reaches its handler |
| `TelnetHandlers.Session.Receive` | telnetd/state.c:162-400 | one byte read makes of all variables what the step function of the two-party system says |
| `TelnetHandlers.Session.SendSupport` | libtelnet/encrypt.c:457-473 | REQUEST-START first where asked for, SUPPORT once |
| `TelnetLive.Converse` | libtelnet/encrypt.c:523-964 | two programs that take any sequence of steps end in the state the run of the functions ends in |
| `TelnetLive.Talk` | libtelnet/encrypt.c:523-964 | two programs started and run, by any interleaving in which each user keeps to its type or has no choice, are in sync in both directions |
| `TelnetLive.Negotiate` | libtelnet/encrypt.c:523-964 | two programs started, set to start automatically and run to where all is read hold the ciphers asked for in their variables |
| `RcpText.MakeBack` | rcp/rcp.c:764-785 | a C or D record parses back to its mode, size and name, whatever the name contains |
| `RcpText.StampBack` | rcp/rcp.c:726-746 | a T record parses back to its four numbers |
| `RcpTalk.SourceTalks` | rcp/rcp.c:489-656 | fed the receiver's answers, source and rsource write exactly the sender's side of the conversation and use up exactly those answers, for every tree and every fault |
| `RcpTalk.SinkTalks` | rcp/rcp.c:658-947 | fed the sender's bytes, sink gives exactly the receiver's answers, leaves the file system described, and has read exactly those bytes |
| `RcpLink.AnyInterleaving` | rcp/rcp.c:994-1027 | over channels where writes never wait and reads block, two traces that can be completed in some order cannot get stuck in any order |
| `RcpAnswers.AlignedAlways` | rcp/rcp.c:994-1027 | in every interleaving the bytes on their way to the sender are the next answers it waits for, whole and in order |
| `RcpAnswers.PacedAlways` | rcp/rcp.c:838-942 | a receiver that reads something the sender wrote after the last answer before it gives the next never has two answers under way |
| `RcpSession.RcpLockStep` | rcp/rcp.c:489-947 | for any tree and any pattern of faults each end, on what the other writes, holds its side of the conversation to the end; the receiver gives a counted number of answers too many, and if none the sender's reads are its answers one by one and both can run to their ends |
| `RcpSession.RcpAnswersMatchIff` | rcp/rcp.c:795-942 | the receiver answers exactly what the sender waits for if and only if no accepted file has a mode that must be changed and cannot be and no directory has times that cannot be set |
| `RcpSession.RcpNeverStuckIff` | rcp/rcp.c:551-578 | in every interleaving of what the two ends say and hear, however far they got, both can go on to their ends and the answers under way are those waited for next, if and only if the receiver gives no answer too many |
| `RcpSession.RcpTwoAnswersIff` | rcp/rcp.c:843-895 | two answers can be under way at once if and only if some file without data is accepted and cannot be truncated, or the receiver gives an answer too many |
| `RcpUnread.RcpLeavesUnreadIff` | rcp/rcp.c:896-910 | for a file sent on its own, the sender leaves an answer unread if and only if the file is accepted and its mode must be changed and cannot be |
| `RcpDeadlock.RcpDeadlock` | rcp/rcp.c:489-947 | a directory in a directory in which the first thing draws an error too many and a file of more than four bytes follows: the sender skips the file and waits for an answer, the receiver waits for data, and each has read all that the other wrote |
| `RcpExamples.AnswerTooMany` | rcp/rcp.c:896-903 | a read-only file whose mode cannot be set is answered once too often |
| `RcpExamples.TwoAnswers` | rcp/rcp.c:892-895 | an empty file that cannot be truncated has two answers under way, though all are waited for |
| `RcpExamples.Deadlocked` | rcp/rcp.c:838-942 | a transfer of two small files that hangs |
| `RcpTree.NodeArrives` | rcp/rcp.c:658-947 | without faults a file or directory is merged with what is at its place: contents replaced, modes and other entries kept unless -p gives new ones, and nothing else changes but the date of the directory it is made in |
| `RcpTree.DirArrives` | rcp/rcp.c:795-836 | a new directory, or one with -p, ends with the mode and times announced although its children were written after it was made; one that was there keeps its mode |
| `RcpTree.KidsArrive` | rcp/rcp.c:582-656 | all children of a directory arrive, none disturbing another, and the directory is dated exactly if one of them is new |
| `RcpTree.RcpMergesTree` | rcp/rcp.c:489-947 | for every clean tree and every target with no directory in the way of a file and no file in the way of a directory, the receiver, on what the sender writes when it hears the receiver's answers, merges the tree with what is there |
| `RcpTree.RcpRebuildsTree` | rcp/rcp.c:489-947 | in a fresh place that is the tree itself with contents, and with -p modes and times |
| `RcpRecord.FileRecord` | rcp/rcp.c:838-942 | an accepted C record whose data all comes, with any faults and whatever was there: each byte of the file afterwards, its mode and its times, and no other path changes but the date of its directory |
| `RcpRecord.ExactlyTheData` | rcp/rcp.c:870-896 | if nothing fails to be written or truncated the content is exactly the data |
| `RcpRecord.FileAnswers` | rcp/rcp.c:838-942 | what is answered: the acceptance, an error at once for truncating and for the mode, and at the end an error or the acceptance of the data |
| `RcpRecord.Refused` | rcp/rcp.c:838-844 | a file that cannot be opened is answered with an error, changes nothing and leaves its data unread |
| `RcpRecord.Dropped` | rcp/rcp.c:861-868 | of a connection that breaks off the full buffers are in the file, and the process ends |
| `RcpRecord.DirRecord` | rcp/rcp.c:795-836 | a directory made or found is there before its contents, and gets its times and mode after them |
| `RcpRecord.RecordRead` | rcp/rcp.c:697-746 | complaints, E, T and malformed records |
| `RcpRecord.FileSaid` | rcp/rcp.c:489-580 | the sender of a file writes its record, its bytes and then a complaint if and only if they could not all be read |
| `RcpRecord.ModeBits` | rcp/rcp.c:838-911 | what masking and adding write permission do to each digit of a mode |
| `RcpLoops.BlockSent` | rcp/rcp.c:551-571 | what each block of a file sends: its own bytes before a failed read, what the buffer holds from it on |
| `RcpLoops.PouredMore` | rcp/rcp.c:870-891 | writing piece after piece at the file's offset is writing all of them over its start, as far as there is room |
| `RcpProcess.Peer.GetResponse` | rcp/rcp.c:994-1027 | response with its line loop: true, false or the process ends |
| `RcpProcess.Peer.SendStamp` | rcp/rcp.c:463-487 | the T record and its answer |
| `RcpProcess.Peer.SendLoop` | rcp/rcp.c:551-573 | exactly as many bytes as announced are written whatever reads fail, the file's own up to the failure |
| `RcpProcess.Peer.SendNode` | rcp/rcp.c:489-580 | source for one name, its data sent by that loop, writes and reads what the function says |
| `RcpProcess.Peer.SendKids` | rcp/rcp.c:632-651 | the loop over a directory |
| `RcpProcess.Peer.ReceiveLoop` | rcp/rcp.c:851-891 | exactly the announced bytes are read in whatever pieces they come and written in buffers, as far as there is room; a dropped connection leaves the full buffers in the file |
| `RcpProcess.Peer.FinishFile` | rcp/rcp.c:892-911 | truncation, mode and the sender's status, in order, with what is said of each failure; what they leave is in `RcpRecord.FileRecord` |
| `RcpProcess.Peer.DateFile` | rcp/rcp.c:912-942 | times and the final answer, and which time stamp stays pending |
| `RcpProcess.Peer.ReceiveFile` | rcp/rcp.c:838-942 | opening, the loop and these steps together make of the connection and the file system what the function says |
| `RcpProcess.Peer.RunSink` | rcp/rcp.c:658-947 | sink from its first answer on |
| `RcpProcess.Peer.Step` | rcp/rcp.c:697-836 | one record of sink |
| `RcpProcess.Peer.ReceiveDir` | rcp/rcp.c:795-836 | one directory record with everything below it |
| `RcpTransfer.CopyTree` | rcp/rcp.c:489-947 | both processes, with buffers of any size and reads of any length, run to their ends, the sender on the answers it waits for and the receiver on the sender's bytes; the receiver writes exactly those answers if and only if it gives none too many, and a clean tree is merged with what is there |
| `Netascii.RoundTrip` | libinetutils/tftpsubs.c:156-251 | decoding the encoded form of any file appends exactly that file to what was written before |
| `TftpWire.EncodeAt` | libinetutils/tftpsubs.c:128-182 | byte by byte a LF of the file is CR LF on the wire, a CR is CR NUL and the rest is as it is, and there is nothing more |
| `TftpWire.PairedIsEncoded` | libinetutils/tftpsubs.c:200-251 | the streams in which every CR has a LF or NUL after it and every LF a CR before it are exactly the encodings, each of the file it decodes to |
| `TftpWire.DecodeAt` | libinetutils/tftpsubs.c:200-251 | of any stream exactly the bytes other than a CR before LF and a NUL after CR get into the file, in order |
| `TftpWire.BlocksPaired` | libinetutils/tftpsubs.c:112-182 | in the blocks handed out the same holds of each CR and LF, also where a pair is cut by the end of a block |
| `TftpWire.SentAt` | libinetutils/tftpsubs.c:112-182 | in which block and where each byte of the file is sent, converted or not |
| `Tftp.TakeIsPrefix` | libinetutils/tftpsubs.c:156-181 | the conversion loop produces the next bytes of the encoded file whatever its flags carry; the encoding itself is in `TftpWire.EncodeAt` |
| `Tftp.ChunkAt` | libinetutils/tftpsubs.c:112-126 | the blocks are consecutive SEGSIZE pieces of the encoded file and only the last is short |
| `Tftp.Buffers.Reader` | libinetutils/tftpsubs.c:94-104 | after rw_init the first buffer is primed and the reading invariant holds |
| `Tftp.Buffers.ReadAhead` | libinetutils/tftpsubs.c:134-182 | a free buffer is filled with the next block; a full one is left alone |
| `Tftp.Buffers.ReadAheadBetween` | libinetutils/tftpsubs.c:134-182 | a read_ahead put in anywhere keeps the reading invariant |
| `Tftp.Buffers.Readit` | libinetutils/tftpsubs.c:112-126 | never sees a free buffer and returns the next block of the encoded file |
| `Tftp.Buffers.Writer` | libinetutils/tftpsubs.c:94-104 | the writing invariant after rw_init |
| `Tftp.Buffers.WriteBehind` | libinetutils/tftpsubs.c:206-251 | a pending buffer is decoded onto the file, with the carriage return left over from the block before |
| `Tftp.Buffers.WriteBehindBetween` | libinetutils/tftpsubs.c:206-251 | a write_behind put in anywhere keeps the writing invariant and leaves nothing pending |
| `Tftp.Buffers.Writeit` | libinetutils/tftpsubs.c:188-198 | the payload is accepted: what is flushed and what is pending are all the payloads accepted, in order |
| `Tftp.Transfer` | libinetutils/tftpsubs.c:94-251 | any file sent block by block and written with one final write_behind arrives byte for byte, whatever extra read_ahead and write_behind calls are made |
| `FtpAscii.ClientSend` | ftp/ftp.c:739-761 | sends every line feed as CR LF and counts the bytes sent |
| `FtpAscii.ServerSend` | ftpd/ftpd.c:1209-1219 | sends the same bytes and counts those of the file |
| `FtpAscii.ClientReceive` | ftp/ftp.c:1035-1065 | writes the data without CRs before line feeds (unless told to keep them) and NULs after CRs; counts every byte read; counts line feeds without a CR |
| `FtpAscii.ServerReceive` | ftpd/ftpd.c:1326-1346 | writes and warns alike; counts only bytes not read after a CR |
| `FtpWire.SendAt` | ftp/ftp.c:739-761 | byte by byte a line feed goes out as CR LF and the rest as it is, and there is nothing more |
| `FtpWire.ReceivedAt` | ftp/ftp.c:1035-1065 | of any stream exactly the bytes other than a NUL after CR and, unless kept, a CR before a line feed are written, in order |
| `FtpWire.CountsAre` | ftpd/ftpd.c:1326-1346 | the bare line feeds are those without a CR before them, and the server's count leaves out the bytes after a CR |
| `FtpAscii.TransferDropsNuls` | ftp/ftp.c:1035-1065 | received after sent is the file without the NULs that follow a CR, and no line feed is bare |
| `FtpAscii.TransferIsIdentityIff` | ftpd/ftpd.c:1326-1346 | a transfer is the identity if and only if the file has no CR followed by NUL |
| `FtpAscii.Upload` | ftp/ftp.c:739-761 | client loop into server loop: the file without those NULs, no warning |
| `FtpAscii.Download` | ftpd/ftpd.c:1209-1219 | server loop into client loop: the same, and the count is what was sent |
| `FtpAscii.ServerSkip` | ftpd/ftpd.c:882-902 | stops after the fewest file bytes whose sent form reaches the offset, and fails exactly when the file is too short for it |
| `FtpAscii.ClientSkip` | ftp/ftp.c:1012-1034 | stops at the same place of the local file |
| `FtpAscii.SameStop` | ftp/ftp.c:1019-1026 | files with a common prefix that reaches the offset have one stopping place |
| `FtpAscii.ResumedDownload` | ftp/ftp.c:1012-1065 | both ends skip the same bytes and the finished file is the remote one if the part sent has no CR NUL; while something was missing, only then |
| `FtpReply.StripGivesData` | ftp/ftp.c:419-438 | wherever whole telnet commands stand between data bytes, what is left without them is the data |
| `FtpReply.AnswersAreRefusals` | ftp/ftp.c:419-438 | wherever whole commands stand, what has to be written is the refusal of each option named, in order |
| `FtpReply.Control.Negotiate` | ftp/ftp.c:419-438 | one command is consumed; WILL and WONT are answered with DONT and DO and DONT with WONT for the same option, and nothing else is answered |
| `FtpReply.Control.TakeByte` | ftp/ftp.c:439-490 | one byte changes the scanner's variables as the automaton says |
| `FtpReply.Control.ScanReply` | ftp/ftp.c:414-498 | the scan ends where the automaton ends on the input without telnet commands |
| `FtpReply.Control.GetReply` | ftp/ftp.c:400-513 | result, code, address text, last line and what is left of the input depend only on the input without telnet commands; end of input gives 221 or 421; exactly the telnet commands read are answered |
| `FtpReplies.LineScanned` | ftp/ftp.c:460-490 | what a whole line leaves in the variables: code, continuation, first byte, stored text |
| `FtpReplies.ReplyEnds` | ftp/ftp.c:493-512 | for every input: the reply ends after the first line unless a hyphen follows its code, else after the first later line with that code and no hyphen, and otherwise never |
| `FtpReplies.ReplyReadBack` | ftpd/ftpd.c:1483-1521 | any lreply lines and their closing reply are consumed exactly, whatever follows, and give the code and its first digit |
| `FtpReplies.OneLineExactIff` | ftpd/ftpd.c:1475-1501 | a one-line reply is consumed exactly if and only if its text has no line feed |
| `FtpReplies.ReadReplies` | ftp/ftp.c:400-513 | over a whole session with telnet commands anywhere, call number i returns the code of reply number i and keeps its last line: three digits, a space, the text |
| `FtpReplies.CommasScanBack` | ftp/ftp.c:1170-1176 | numbers printed with commas scan back |
| `FtpReplies.PassiveAddressRecovered` | ftpd/ftpd.c:1755-1761 | the client gets the six bytes of the address and port that the server printed |
| `Template.RankDoesNotMatter` | ifconfig/printif.c:377-400 | the value of a template does not depend on the rank that bounds its named formats |
| `Builtin.TreeText` | ifconfig/options.c:63-123 | the text of each of the seven built-in templates is the formats it names and the text of its body, in order |
| `Builtin.FieldText` | ifconfig/options.c:83-116 | the text of an optional field, in the formats that resemble other systems |
| `Builtin.RowText` | ifconfig/options.c:70-81 | the text of an optional row of the GNU format |
| `Builtin.TableIsAcyclic` | ifconfig/options.c:63-123 | the built-in templates are well-formed and refer to each other without cycles, so that every template can be evaluated |
| `Builtin.AllBelow` | ifconfig/printif.c:377-400 | with the built-in table any template at all has a rank |
| `Printif.Form.Put` | ifconfig/printif.c:102-119 | one character and the column after it |
| `Printif.Form.PutAll` | ifconfig/printif.c:124-129 | a string, character by character |
| `Printif.Form.Print` | ifconfig/printif.c:696-806 | on the text of any well-formed template, printing adds exactly the tree's value, a quiet pass adds nothing, both stop at the end of that text and restore the depth |
| `Printif.Form.Substitute` | ifconfig/printif.c:739-800 | a substitution consumes its name and arguments and adds the handler's value, or nothing when quiet |
| `Printif.Form.ReadArgs` | ifconfig/printif.c:775-792 | the arguments are skipped quietly, their texts kept |
| `Printif.Form.Call` | ifconfig/printif.c:269-291 | the handler's value is added; what the handlers of the built-in formats print is in the rows of `Reports` |
| `Printif.Form.SelectArg` | ifconfig/printif.c:183-191 | the value of the argument chosen, if there is one |
| `Printif.Form.SelectAll` | ifconfig/printif.c:402-417 | the values of all arguments in order |
| `Printif.Form.Formats` | ifconfig/printif.c:377-400 | the values of all named templates in order, unknown names skipped |
| `Reports.ShowAsk2` | ifconfig/printif.c:310-314 | `${v?}{t}{u}` prints `t` if the value is set and `u` otherwise |
| `Reports.ShowIf` | ifconfig/printif.c:359-375 | `${exists?}{v?}{t}` prints `t` if and only if the system can be asked for the value |
| `Reports.FormatNamed` | ifconfig/printif.c:377-400 | `${format}{name}` prints what that format prints, and nothing for a name that no format has |
| `Reports.ShowRowsIf` | ifconfig/options.c:79-81 | exactly the rows of the values that the system has and that are set, in order, each value at column 16 |
| `Reports.FormatPrints` | ifconfig/options.c:63-123 | for an interface that exists each built-in format prints its report, line by line, from any column |
| `Reports.MissingIsReported` | ifconfig/options.c:118-121 | of an interface that does not exist the error stream is told and nothing is printed |
| `Reports.PrintFormat` | ifconfig/printif.c:696-822 | the scanner on the text of a built-in format prints exactly the report and nothing on the error stream |
| `Reports.CharactersPrint` | ifconfig/printif.c:710-736 | a template without handlers prints its text with `$$` and `$}` unescaped |
| `Reports.ColumnAfterBreak` | ifconfig/printif.c:102-119 | a line feed leads to column 0 and a tab to the next multiple of eight |
| `Icmp.TwoFolds` | libicmp/icmp_cksum.c:43-45 | two folds leave the end-around-carry value of any sum that fits an int |
| `Icmp.AddWords` | libicmp/icmp_cksum.c:34-42 | the sum of the words of a message of at most 65535 bytes fits a signed 32-bit int |
| `Icmp.WordAt` | libicmp/icmp_cksum.c:27-42 | the words are the pairs of bytes as the host stores them, and a byte left over is followed by zero |
| `Icmp.IcmpCksum` | libicmp/icmp_cksum.c:27-48 | the answer is the complement of the one's complement sum |
| `Icmp.SameBytes` | libicmp/icmp_cksum.c:27-48 | hosts of either byte order store the same two bytes |
| `Icmp.Encode` | libicmp/icmp_echo.c:36-54 | type in byte 0, code 0, identifier in bytes 4 and 5 and sequence number in 6 and 7 as the host stores them, everything after them kept, and the message is accepted by decoding; too short a buffer is refused unchanged |
| `Icmp.Decode` | libicmp/icmp_echo.c:56-84 | 0 exactly for messages that carry their checksum, 1 for others, -1 for short ones; only the checksum field changes |
| `Icmp.AcceptsIffSumIsOnes` | libicmp/icmp_echo.c:75-83 | accepted if and only if the one's complement sum is 0xffff and the field is not 0xffff where zero is due |
| `Icmp.SingleWordChange` | libicmp/icmp_echo.c:75-83 | a change of one word other than the checksum is accepted if and only if it swaps 0x0000 and 0xffff and some other word is not zero |
| `Icmp.ChecksumChange` | libicmp/icmp_echo.c:75-83 | a changed checksum field is always rejected |
| `Inetd.WatchedUpdate` | inetd/inetd.c:1030-1062 | what changing one entry does to the set of watched descriptors |
| `Inetd.CloseKeepsIff` | inetd/inetd.c:1043-1062 | closing an open entry keeps allsock and nsock right if and only if no child is waited for |
| `Inetd.Server.Enter` | inetd/inetd.c:1064-1084 | a new entry is closed and keeps the accounts |
| `Inetd.Server.Setup` | inetd/inetd.c:887-1040 | an opened socket is watched and counted; a retry becomes due if and only if bind failed |
| `Inetd.Server.Retry` | inetd/inetd.c:876-885 | exactly the closed entries that are not TCPMUX services are opened, and another retry is due if and only if one of them could not be bound |
| `Inetd.Server.CloseSep` | inetd/inetd.c:1043-1062 | the entry is closed, its counters reset; the accounts stay right if and only if no child was waited for |
| `Inetd.ClosedWhileWaiting` | inetd/inetd.c:1043-1062 | one service, closed while its child runs, leaves nsock at -1 with no socket |
| `Inetd.MostIs` | inetd/inetd.c:531-546 | how many starts are let through, by the limit of the service and that of inetd |
| `Inetd.Server.Count` | inetd/inetd.c:531-562 | the counter is the number of starts since the time stored, which is that of the first of them; a start is refused exactly if as many as are let through fall within the interval from that time, and a count that is full after the interval begins again at one |
| `Inetd.RefusedInTime` | inetd/inetd.c:542-562 | when a start is refused, as many starts as are let through were within the interval that ends now, if the clock is not set back |
| `Inetd.RateLimited` | inetd/inetd.c:531-562 | with m starts let through, any 2m + 1 starts take longer than the interval, if the clock is not set back |
| `Inetd.Server.Dispatch` | inetd/inetd.c:501-600 | only this entry changes, its history gets the start, it is closed exactly if the start is refused, a waited child takes its socket out of the set, and the accounts stay exact |
| `Inetd.Server.Reap` | inetd/inetd.c:656-688 | a reaped child restores exactly the one entry that waited for it, and nothing if none did |
| `Inetd.Server.Run` | inetd/inetd.c:501-688 | any sequence of operations keeps the accounts (allsock is exactly the open descriptors no child has, nsock its size) up to the first that closes an entry with a waited child, which breaks them; and of all starts asked for exactly those that were too many within the interval stopped their service |
| `Ping.BitWritten` | ping/ping.h:24-29 | setting or clearing one bit of the table changes that bit and no other |
| `Ping.SlotOfSequence` | ping/libping.c:211-219 | the 16-bit sequence number of a reply leads to the slot of its request, across wrap-around |
| `Ping.Ping.Xmit` | ping/libping.c:109-158 | the slot is cleared whether or not the request goes out, and counted only if it does; what that takes from an earlier request is accounted for |
| `Ping.Ping.Recv` | ping/libping.c:196-227 | a reply to an earlier request counts as received or as a duplicate, never both, by the bit of its slot |
| `Ping.Ping.Reset` | ping/libping.c:95-101 | counters cleared with the old table kept still start a run that satisfies the invariant |
| `Ping.Ping.Run` | ping/libping.c:109-227 | after any sends, failed sends and replies: received plus duplicates are the replies, and received exceeds sent if and only if more answered slots were cleared by failed sends than requests are unanswered or lost, told from the events alone |
| `Ping.ReceivedExceedsSent` | ping/libping.c:117-148 | a run with 128 sent and 129 received |
| `Auth.EligibleOnce` | libtelnet/auth.c:416-534 | the offers attempted are, in the order offered and each once, exactly those supported, not disabled and in the table |
| `Auth.Client.Find` | libtelnet/auth.c:205-213 | finds a type and way if and only if the table has them |
| `Auth.Client.Search` | libtelnet/auth.c:459-520 | stops after the first attempt that works, or has attempted every eligible offer and then sends the NULL type and rejects; the remaining count strictly decreases |
| `Auth.Client.AuthSend` | libtelnet/auth.c:416-534 | a new offer is saved and searched from its start |
| `Auth.Client.AuthSendRetry` | libtelnet/auth.c:526-534 | a retry goes on after the last attempt: nothing is attempted twice |
| `Listing.ComputeColumns` | libls/print.c:147-175 | as many columns as fit the terminal at the width asked, each as wide as they can all be, or none when two do not fit |
| `Listing.PrintRow` | libls/print.c:216-229 | never indexes past the entries and prints exactly those of its row, each but the last filled up to the width of its column |
| `Listing.EveryEntry` | libls/print.c:206-229 | every entry is on a line, at the row and column its number says |
| `Listing.EachOnce` | libls/print.c:206-229 | lines that are the rows of a table show every entry exactly as often as it is to be listed |
| `Listing.OneCell` | libls/print.c:206-229 | different places on the screen show different entries |
| `Listing.PrintCol` | libls/print.c:177-230 | every line is a row of the table, the lines together show every entry exactly as often as it is to be listed, in as many columns as fit and no more lines than they need, and none is wider than the terminal if no entry is |

## Left out

- telnet: the session key is installed once at each end, before that end handles START; a second key would restart the two streams at unrelated moments.
- telnet: disabling a type, changing the type for input, options other than ENCRYPT, urgent data, and key ids longer than MAXKEYLEN.
- telnet: the two-party theorems assume that every write fits; net_output_datalen drops what does not fit (`TelnetBuffer.NetBuffer.Write`). The buffer's other writers (net_output_data and the terminal's data) and netclear are not modelled.
- `TelnetBuffer.NetBuffer.Run`: a vector or key loaded for the type in use while bytes are waiting is not covered. It does not happen between honest ends (`TelnetRuns.VectorNotInUse`, `TelnetRuns.KeyNotInUse`).
- telnet: the look-ahead after CR in telrcv, which decrypts a byte and backs up; `Cipher.PeekIsInvisible` says that it cannot be seen.
- telnet: the build without SHISHI, modelled here with its key for each stream, encrypts the random vector with DES; any vector is allowed here. Debugging output is not modelled.
- telnet: the states of telrcv and its suboption buffer are one value; the two directions of a type's record are fields of two objects.
- rcp: what an answer too many does to the rest of a directory is followed for the trees of `RcpDeadlock` only.
- rcp: writes to the connection do not fail, and a file's data is one event of a trace, however many writes and reads it takes.
- rcp: allocation failures, negative times, the texts of messages, the errs counter, the bandwidth and interrupt handling; paths are lists of names, so names with a slash are not modelled, and records are shorter than BUFSIZ.
- rcp: modes are the twelve bits of RCP_MODEMASK; owner and set-id subtleties of the receiving system are not modelled.
- `Tftp.Transfer`: read and write errors, retransmission, timeouts and the packet header are not modelled.
- FTP: write errors, hash marks, the mmap path of send_data, and resumed uploads, where client and server count differently.
- FTP: `pasv` and `reply_string` are sequences; the first has no bound here, and verbose output is not modelled.
- `Builtin.TreeText`: the seven strings are not written out again; the pieces they are put together from are (`Builtin.FieldText`, `Builtin.RowText`, and the tables of words).
- `Reports.PrintFormat`: the values themselves are strings given with the interface; a system without one of the common queries is not described.
- ifconfig: fh_join, exit, flag names and number formats; a handler that prints a value is a parameter that gives the string, and an unknown name's message goes to the current stream. Malformed templates are not modelled.
- inetd: reading the configuration, running services, TCPMUX, and changing entries on SIGHUP.
- ping: timing, the other message types and IPv6.
- auth: the attempts themselves are a parameter; types are numbers and not bits of a mask, so types above 32 do not share a bit.
- ls: the linked list and its reallocated table are a sequence of the entries to print; the widths of the fields are taken as given.
- ftpd's login code, inetd's built-in services, talk, logger, whois, hostname, route lookups and the terminal code of telnet are not part of this model.
