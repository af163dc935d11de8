# lcm-bus, verified

A Dafny model of the message bus in `src/`: what goes in comes out. Four machines are modelled, each
with the code's own branches, limits and errors, and each with the codec beneath it.

- **Fragments.** `Udpm.dfy` cuts a message into datagrams and reads one back. `Reassembly.dfy` says what
  putting fragments together means: a table of messages, each with the first span that came under an
  index. `Reassembler.dfy` is the reassembler as it is kept, with its index by age, its byte account and
  its gathered buffer, and each method of it is proved to do what `Reassembly.dfy` says. `Receiver.dfy`
  and `Reconstruction.dfy` are about whole runs of datagrams from any senders.
- **The relay connection.** `Outbox.dfy` has one function for each critical section of the outbox, and the
  class whose methods are proved equal to them. `Relay.dfy` is the connection as a state machine: any
  number of publishers, subscribers and flushers, the one writer, a close or a stop at any moment, and a
  write that moves some bytes, none, or fails. `RelayRuns.dfy` has the results about every run.
- **Streams.** `ReadBuffer.dfy` is the growing, compacting buffer. `Streams.dfy` parses a stream that is
  there whole, for any decoder whose answers do not change with the bytes that come later; `Tcpq.dfy` has
  the two relay decoders and proves they are such. `Readers.dfy` has the loops of the client and of the
  relay, `Subscriptions.dfy` the rules of the one and what the other holds of them.
- **The log.** `Log.dfy` has the event format, `LogFile.dfy` the seek and the replay, `LogWriting.dfy` the
  writer, and what a replay of its file, or of any cut of it, gives back.

`Bytes.dfy` and `Wire.dfy` are the integers, the text and the errors all of them share. A `str` is a
sequence of bytes that is UTF-8 by RFC 3629. `usize` is 64 bits wide, which fixes the two costs
`PIECE_COST` (32) and `FRAME_COST` (40); a cast to 32 or 16 bits keeps the low bytes.

Reads of a socket or a file come from a script that splits the bytes in any way and may time out or fail
anywhere; a flag that another thread turns off is turned off at any look at it, or never; rules that other
threads change answer each look as they are at that look. A thread asleep on a condition may look again
at any time, so a deadline, a wake-up and a spurious one are one step.

## What the code does that its words do not say

- A name of up to 999 bytes is one `subscribe_name` takes, and a relay is told it with each special
  character escaped. A relay reads no text above 1024 bytes, so the name of 513 dots or more ends the
  stream of the client that subscribed to it (`DottedNameEndsTheStream`). Over a whole line of requests,
  each shorter than 4 GiB: the relay reads the line to its end, and then holds the client's rules, if and
  only if no text in it is above 1024 bytes; otherwise its stream ends in front of the first that is
  (`RelayReadsToTheEnd`, `RelayHoldsTheRules`).
- A log decoder that sees more bytes can take back an event it gave: one that ended in the last bytes
  there were is refused once four bytes that are no sync word turn up behind it (`DecodeIsNotStable`,
  and exactly when: `MoreBytesDecide`). So what a reader finds in a log can depend on where its reads end.
  It does not, for any split, if and only if a replay of the whole comes to no event that is there whole
  and is refused for what stands behind it (`SplitsDoNotMatter`); any event with four such bytes behind it
  is one (`NotEveryLogIsSteady`).
- A complete set of fragments that tile the message is put together whatever an unstable sort does
  exactly where no empty fragment starts where one with bytes starts (`SortDecidesTies`). A sender can
  make such a tie with two fragments (`TieIsReached`).
- A comment in the tcpq decoder says that a udpm group holds a message to the byte budget of the
  reassembler. The reassembler does not: a message far above the budget can be cut (`EveryLengthIsCut`),
  and alone on the bus it is put together (`AnySequenceComesOut`).

## Model

| member | source | states |
|---|---|---|
| Udpm.PlanIsSound | src/wire.rs:472-516 | every plan `fragments` makes for a message that does not fit whole has at least 2 pieces and at most 65535, no more than there are payload bytes, none empty, each starting where the one before it ends, the last ending with the payload |
| Udpm.DatagramLengths | src/wire.rs:363-444 | no head is above the 84 bytes kept for one, no datagram is above the limit and the short header, and every fragment but the last fills its datagram |
| Udpm.TooSmallExactly | src/wire.rs:490-507 | a message is refused for the datagram length if and only if it does not fit whole and the limit is below the minimum that is reported |
| Udpm.CutExactly | src/wire.rs:474-516 | a message is cut if and only if its name has 1 to 63 bytes and no NUL, its payload no more than 2^28, and it fits one datagram whole, or 65535 fragments of which the first has room for the name and a byte |
| Udpm.TooManyExactly | src/wire.rs:498-507 | the count a message is refused for is above 65535, and is the number of datagrams it takes |
| Udpm.RefusedExactly | src/wire.rs:479-482 | a bad name, a long name and a long payload are each refused as such, exactly where they are |
| Udpm.BodiesArePayload | src/wire.rs:395-444 | the pieces of a plan in index order are the payload |
| Udpm.StartIsProduct | src/wire.rs:396-401 | where a piece starts is the one product the code computes |
| Udpm.FragmentRoundTrip | src/wire.rs:321-359 | reading datagram i of a plan gives its index, count, total, offset, bytes, and the name where i is zero |
| Udpm.WholeRoundTrip | src/wire.rs:321-333 | a message of one datagram is read as it was sent |
| Udpm.WholeExactly | src/wire.rs:321-333 | what is read as a message of one datagram is that message, byte by byte with "LC02" in front, and nothing else is |
| Udpm.PartExactly | src/wire.rs:334-359 | what is read as a fragment is that fragment, byte by byte with "LC03" in front, and nothing else is |
| Udpm.DatagramBytes | src/wire.rs:407-445 | the datagrams of a plan are these bytes |
| Udpm.MagicExactly | src/wire.rs:321-333 | a datagram is refused for its magic exactly where it is a third one |
| Udpm.FragmentIterator.Next | src/wire.rs:407-445 | the iterator, filling a fixed head buffer, gives the head and the piece of the next index, and nothing behind the last |
| Udpm.Encode | src/wire.rs:457-465 | the datagrams are those of the plan, in sequence, or the error of `fragments` |
| Bytes.BigEndianDigits | src/wire.rs:223-245 | each byte of an integer on the wire is a digit of it, the first the most significant |
| ReassemblerState.Reassembler.Feed | src/wire.rs:591-714 | one fragment, through the index by age, the account and the gathered buffer, changes the table as the definition on spans says, and answers what it allows |
| ReassemblerState.Reassembler.MakeSpace | src/wire.rs:731-740 | the loop over the index ends, and drops exactly what the least-recent rule drops, with both maps and the account still in agreement |
| ReassemblerState.Reassembler.Remove | src/wire.rs:716-723 | a message leaves both maps, and its cost leaves the account |
| ReassemblerState.Assemble | src/wire.rs:683-713 | a complete set is delivered with every kept byte at its offset and the first name, or refused; it is delivered where the spans tile the message, no tie is ambiguous, and a name came |
| ReassemblerState.SortDecidesTies | src/wire.rs:695-703 | tiles are put together under every sort if and only if no empty piece starts where one with bytes does |
| ReassemblerState.TieIsReached | src/wire.rs:695-703 | two fragments at one offset, one of them empty, are both stored and complete their message; of two sequences sorted by start, one puts it together and one refuses it |
| Reassembly.FeedKeepsGood | src/wire.rs:564-681 | every reachable entry has spans inside its length and no more bytes than it, and no two messages were touched at one tick |
| Reassembly.FeedStaysWithin | src/wire.rs:287-296 | at most 1000 messages; and no more bytes than 16 MiB and 32, unless one message is alone |
| Reassembly.MakeSpaceFits | src/wire.rs:731-740 | behind the eviction there are fewer than 1000 messages and the bytes held leave room in 16 MiB, or only the message being fed is left |
| Reassembly.MakeSpaceKeeps | src/wire.rs:725-740 | what stays is unchanged, the message being fed always stays, and every message gone is counted |
| Reassembly.MakeSpaceIsLeastRecent | src/wire.rs:725-740 | the victims waited at least as long as every survivor, and with the last victim still there, there would be 1000 messages or more than 16 MiB |
| Reassembly.SpaceIsLeft | src/wire.rs:731-740 | with fewer than 1000 messages, and the bytes that come within 16 MiB of those held, nobody is dropped and no other message changes |
| Reassembly.FeedAnswersExactly | src/wire.rs:591-685 | each fragment is refused where it cannot be one of a message, does not agree with what came, or brings more bytes than the message has, and else completes the message exactly where its index is the last |
| Reassembly.FedIsYoungest | src/wire.rs:637-661 | the message a fragment was stored for is the last to be dropped |
| Reassembly.KeptCosts | src/wire.rs:546-581 | a fragment that is stored costs its bytes and 32, and a repeated one nothing |
| Receiver.MulticastReceiver.OnDatagram | src/bus.rs:311-332 | a datagram gives a message on a wanted channel, an error of its own, or nothing, and moves the table as one feed does |
| Receiver.RunStaysWithin | src/wire.rs:524-544 | after any run of datagrams from any senders the table is good and within its limits |
| Receiver.FeedIsIsolated | src/wire.rs:629-659 | a fragment of one message changes no other but by dropping it, and what it drops is least recent |
| Receiver.FirstOnesStay | src/wire.rs:662-681 | the first span of an index and the first name stay for as long as the message is held |
| Receiver.EveryMessageIsCounted | src/wire.rs:629-713 | in any run, messages started = given out + refused when their last index came + ended by a fragment of another shape + evicted + in flight, where a message given out is counted by the answer alone |
| Receiver.RoomyDropsNobody | src/wire.rs:731-740 | a run in which each event finds fewer than 1000 messages and room in 16 MiB drops nobody |
| Receiver.LightIsRoomy | src/wire.rs:731-740 | a run that brings no more than 16 MiB, 32 counted to each fragment, of fewer than 1000 messages is such a run |
| Reconstruction.NothingIsInvented | src/wire.rs:662-713 | whatever the senders do, each byte of a message delivered from fragments was carried, at that offset, by a fragment of the same source and number, and so was the name; and these all came since the table last held nothing under that key |
| Reconstruction.LastFragmentDelivers | src/wire.rs:591-714 | the fragments of a plan in any sequence, repeated, between any other traffic: the one that brings the last index gives the message back and frees its key, if it was not evicted in between |
| Reconstruction.HoldsWhatWasSeen | src/wire.rs:643-685 | until the last index comes the table holds exactly the fragments seen, and each is answered with nothing |
| Reconstruction.WhatGoesInComesOut | src/wire.rs:472-516 | the same from the frame, its number and the datagram limit: the receiver gives the frame that was cut |
| Reconstruction.AloneComesOut | src/wire.rs:725-740 | a message alone on the bus is never evicted, whatever its size, so it comes out with no condition on evictions |
| Reconstruction.AnySequenceComesOut | src/bus.rs:311-332 | the datagrams of a cut message, in any permutation, on a bus of their own: each but the last to come is answered with nothing, and the last gives the frame (that the plan is sound, which its premise names, is `PlanIsSound`) |
| Reconstruction.AmongOthersItComesOut | src/bus.rs:311-332 | the fragments of a message, in any sequence and repeated, among those of any number of senders: where each event finds fewer than 1000 messages and room in 16 MiB, the last one gives the frame |
| Reconstruction.InLightTrafficItComesOut | src/bus.rs:311-332 | the same of a bus that starts empty and carries no more than 16 MiB of fewer than 1000 messages, with nothing said of the table |
| Reconstruction.EveryLengthIsCut | src/wire.rs:490-516 | with datagrams of 5000 bytes or more every legal length is cut, lengths above the byte budget of the reassembler among them |
| Reconstruction.WholeDelivers | src/bus.rs:313-319 | a message of one datagram comes out with that datagram and leaves the table alone |
| ReadBuffers.ReadBuffer.MakeRoom | src/bus.rs:555-574 | moving, growing and shrinking keep the unread bytes; no spare room is left only at the ceiling; the length is the floor or at most twice the most ever unread; it shrinks only when empty, to the floor or to what was asked for |
| ReadBuffers.ReadBuffer.FillFrom | src/bus.rs:537-550 | a read appends what it read to the unread bytes, and the full-buffer error comes exactly with the unread bytes at the ceiling |
| ReadBuffers.ReadBuffer.Reserve | src/bus.rs:496-503 | a claim is refused exactly above the ceiling, and buys no room |
| ReadBuffers.ReadBuffer.Consume | src/bus.rs:515-521 | the front of the unread bytes goes, and no more than there is |
| Streams.ParseGoesOn | src/client/relay.rs:688-736 | a parse goes on from where it stopped when more bytes come |
| Streams.ReadsDoNotMatter | src/client/relay.rs:670-736 | for every split of a stream into reads, the frames, the steps over frames and the end are those of the stream parsed whole |
| Tcpq.DecodeIsStable | src/wire.rs:867-915 | an answer of the client's decoder is not changed by later bytes, and what it asks for is above what is there and within the frame ceiling |
| Tcpq.DecodeRequestIsStable | src/wire.rs:922-991 | the same of the relay's decoder |
| Tcpq.PublishRoundTrip | src/wire.rs:841-854 | a published message is read back by both decoders, whatever stands behind it |
| Tcpq.PatternRoundTrip | src/wire.rs:833-838 | a subscription is read as it was written if and only if its text is at most 1024 bytes |
| Tcpq.PartialRequest | src/wire.rs:922-991 | a part of a request asks for no more than the rest of it |
| Tcpq.MessageExactly | src/wire.rs:867-915 | what a client reads as a message is that message, byte by byte, under a name of 1 to 63 bytes and with up to 2^28, and nothing else is |
| Tcpq.SkippedExactly | src/wire.rs:903-911 | a client steps over exactly the message frames whose name no client writes |
| Tcpq.RefusedExactly | src/wire.rs:872-900 | a client gives up exactly on a head that is no message's, a name above 1024 bytes or a message above 2^28 |
| Tcpq.RequestExactly | src/wire.rs:922-991 | what a relay reads as a request is that request, byte by byte, with a text of up to 1024 bytes, and nothing else is |
| Tcpq.RequestSkippedExactly | src/wire.rs:922-991 | a relay steps over exactly the messages a client does, and subscriptions that are no text |
| Tcpq.RequestRefusedExactly | src/wire.rs:922-991 | a relay gives up exactly on a head that is no request's, and on the same lengths |
| Tcpq.ClientReadsWhatWasSent | src/client/relay.rs:688-736 | of a stream of messages under any names, each one a client takes is found and every other costs itself alone |
| Tcpq.RelayReadsWhatWasWritten | src/wire.rs:922-991 | whole requests and the front of one more are read as exactly those requests, and then as a need for more |
| Tcpq.RelayReadsToTheEnd | src/wire.rs:922-991 | a relay reads a line of requests to its end if and only if no text in it is above 1024 bytes; otherwise it has the requests in front of the first such text, and that text's length is the error its stream ends with |
| Readers.TcpqReader | src/client/relay.rs:660-739 | over any split, time-out or stop, and with rules that change between any two messages, the client delivers, counts and ends as a parse of the whole stream says; it ends for a read only where one failed, is told to stop only by the flag, and finds no frame behind that; no length is refused and the buffer is never full |
| Readers.PeerReader | src/client/serve.rs:304-360 | over any split the relay's rules and the messages it hands on are those of the requests the whole stream holds; it ends early only for a read that failed or the flag, and serves nothing behind that |
| Readers.DecodedIsPublishable | src/client/serve.rs:345-353 | what a relay reads as a message is one it can write |
| Subscriptions.EscapedStandsForItself | src/bus.rs:66-77 | an escaped name has no operator left, and stands for that name and no other |
| Subscriptions.Escape | src/bus.rs:68-77 | the loop over the characters of a name escapes it |
| Subscriptions.RuleSet.Remove | src/bus.rs:192-197 | the first rule of this text goes, and the text the relay had for it is the answer |
| Subscriptions.Client.UnsubscribeText | src/client/mod.rs:879-888 | the relay is told of the first rule of this text before it goes; a refusal leaves both as they were |
| Subscriptions.DropIsAnswered | src/client/mod.rs:879-888 | an unsubscribe is done exactly where a rule has the text and the frame is let in, and then the first such rule goes, with one request that stands for it; else nothing changes |
| Subscriptions.Client.SubscribeName | src/client/mod.rs:850-857 | a name that is refused is not told, and one that is not told is not taken |
| Subscriptions.NameIsAnswered | src/client/mod.rs:850-857 | a name is taken exactly where it has 1 to 999 bytes and no NUL and the frame is let in, with one request whose regex stands for that name and no other |
| Subscriptions.PatternIsAnswered | src/client/mod.rs:864-872 | a pattern is taken exactly where the engine takes it and the frame is let in, and is told as it is |
| Subscriptions.CallsAreCounted | src/client/mod.rs:841-888 | over any calls, the rules of a text are those there were and the adds of it that were done, without the drops of it that were done; and the relay is told once for each call that was done |
| Subscriptions.RelayAgrees | src/client/mod.rs:841-888 | after any calls, refused and failed ones among them, a relay that served every request let in holds the client's rules, text for text and as many times |
| Subscriptions.ServedIsCounted | src/client/serve.rs:335-344 | a subscription the relay's engine takes is one rule more of its text, an end of one is one less where there is any, and no other text changes |
| Subscriptions.DottedNameEndsTheStream | src/bus.rs:135-143 | a name of 513 to 999 dots is taken and told, and ends the stream at the relay |
| Readers.RelayHoldsTheRules | src/client/serve.rs:335-344 | after any calls, the relay reads what was let in to its end if and only if every text is one it reads, and there holds the client's rules, text for text; otherwise it holds what stands in front of the first longer text, and its stream ends |
| Outboxes.Outbox.PutMessage | src/client/relay.rs:190-222 | one look of a publisher: let in, refused, or asleep, with the whole new state |
| RelayRuns.PublisherIsAnswered | src/client/relay.rs:196-221 | in every reachable state a publisher is let in exactly where it is the first that waits and the messages in line take no more than 4194304 bytes, 40 counted to each; it hears of the end exactly behind it, and gives up only when late and without room |
| Outboxes.Outbox.PutControl | src/client/relay.rs:225-244 | one look of a subscription |
| RelayRuns.SubscriberIsAnswered | src/client/relay.rs:227-243 | the same of a subscription frame, at 1048576 bytes and with no line to wait in |
| Outboxes.Outbox.Take | src/client/relay.rs:248-279 | one look of the writer, subscriptions first |
| RelayRuns.WriterIsAnswered | src/client/relay.rs:250-278 | the writer is given the first subscription frame where there is one, else the first message, and nothing only of an empty closed queue |
| RelayRuns.SubscriptionsGoFirst | src/client/relay.rs:246-248 | a subscription frame waits for no more frames than are in front of it in its own line, however many messages wait |
| Outboxes.Outbox.WriteDone | src/client/relay.rs:283-294 | the frame in hand is counted, once |
| Outboxes.Outbox.Flushed | src/client/relay.rs:306-323 | one look of a flush |
| RelayRuns.FlusherIsAnswered | src/client/relay.rs:306-323 | a flush passes exactly where each frame let in before the call went, be it late or behind a close; else it hears of the end where a frame was lost or the queue closed, and gives up only when late |
| RelayRuns.FlushWaitsForTheseAlone | src/client/relay.rs:307-308 | for as long as it lasts a flush waits for all that was let in before it, and for nothing behind it |
| Outboxes.Outbox.Close | src/client/relay.rs:330-343 | the lines are lost and closed, and the frame in hand is not |
| Outboxes.Outbox.GiveUp | src/client/relay.rs:347-353 | the frame in hand is lost, where there is one |
| Outboxes.WriteFrame | src/client/relay.rs:394-428 | over partial, timed-out and failed writes, what is on the stream is the front of the frame that the socket takes in front of its first error, and the frame went exactly where that is the whole |
| Relay.StepConserves | src/client/relay.rs:190-353 | every step keeps, in each line, let in = written + lost + queued + in hand, and the bytes of a line equal to its frames' costs |
| Relay.StepKeepsOrder | src/client/relay.rs:357-441 | every step keeps the frames that went the first let in of each line, the one in hand the next, and the queue the rest while nothing was lost |
| Relay.StepKeepsFramed | src/client/relay.rs:394-441 | every step keeps the stream the frames that went, whole and in sequence, and a part of at most one more |
| Relay.StepKeepsLine | src/client/relay.rs:190-222 | every step keeps the line in ticket order, equal to the tickets of the publishers that wait, and behind every ticket let in |
| Relay.StepKeepsAwake | src/client/relay.rs:196-353 | every step keeps each sleeper without what it waits for |
| Relay.RunKeepsInv | src/client/relay.rs:149-442 | all of these hold in every state of every interleaving |
| RelayRuns.FlushIsSound | src/client/relay.rs:302-323 | where a flush answers that the frames went, every frame of both lines let in before the call is whole on the wire |
| RelayRuns.NothingIsUncounted | src/client/relay.rs:382-390 | once the writer is gone each frame let in is written or lost, once; and over every run from there no frame is let in, no count changes and no byte is written |
| RelayRuns.NobodySleepsOnWhatIsThere | src/client/relay.rs:196-353 | in every reachable state no thread is asleep that has room, is behind a close, or whose flush is settled, nor the writer where there is a frame |
| RelayRuns.EveryPublisherHasItsTurn | src/client/relay.rs:186-222 | a publisher waits for no more messages than are in front of it: by then it is out of the line, or is the first, with no more than 4 MiB in front, and is awake |
| RelayRuns.StepPotential | src/client/relay.rs:190-279 | no step puts more in front of a ticket, and each message taken takes one away |
| RelayRuns.AdmissionIsInSequence | src/client/relay.rs:190-222 | messages are let in by ticket, and a line is above its budget by no more than one frame |
| RelayRuns.WireIsWellFramed | src/client/relay.rs:394-441 | with requests for frames, in every state the stream is whole requests in sequence and the front of at most one more, the moment between a frame's last write and its count included |
| RelayRuns.RelayHearsTheClient | src/client/mod.rs:841-888 | calls, two lines, writer, bytes, relay: in any state where each subscription frame is whole on the stream, a relay that read the stream holds the client's rules and hands on the messages that are, in sequence |
| Log.EventRoundTrip | src/wire.rs:1021-1122 | an event that is there whole is read as it was written if and only if what is behind it can stand behind one, whatever its payload holds |
| Log.DecodedIsEncoded | src/wire.rs:1049-1122 | what is read as an event is the bytes that event is written as |
| Log.EventExactly | src/wire.rs:1049-1122 | what is read as an event is that event, byte by byte with the sync word in front, under a name of 1 to 999 bytes and with up to 2^28, and nothing else is |
| Log.SkippedExactly | src/wire.rs:1097-1109 | a reader steps over exactly the whole events, with what may stand behind one, whose name no log holds |
| Log.NeedExactly | src/wire.rs:1052-1087 | a reader waits for more exactly where there is less than a head, or a head and less than its event |
| Log.PeekExactly | src/wire.rs:1140-1165 | a walk reads the time and the length of exactly the heads that can be read |
| Log.PartOfEvent | src/wire.rs:1052-1087 | an event cut short asks for no more than the rest of it |
| Log.MoreBytesDecide | src/wire.rs:1088-1096 | later bytes change the answer if and only if four of them that are no sync word turn up right behind the event |
| Log.DecodeIsNotStable | src/wire.rs:1088-1096 | an event taken at the end of what is there is refused once four zeros stand behind it |
| Log.ResyncIsFirst | src/wire.rs:1168-1171 | the place found is the first sync word, and none is missed |
| Log.SlideStopsAtSync | src/client/logfile.rs:162-173 | a slide does not pass the start of a sync word, one that straddles two reads included |
| LogFile.HopIsOverAnEvent | src/client/logfile.rs:73-91 | an event the walk steps over is one the decoder takes or skips, of that length and time, whatever the bytes |
| LogFile.SeekBefore | src/client/logfile.rs:64-93 | wherever the walk stops, a replay from there gives from the start time on what a replay of the whole gives, and ends the same, for arbitrary bytes; where no read fails it stops at an event that is not before the start, or at the last head of the chain |
| LogFile.SplitsDoNotMatter | src/client/logfile.rs:119-173 | a reader finds the same events and skips at the same places, and ends the same, for every split of a log into reads, if and only if a replay of the whole comes to no event that is refused only for what stands behind it |
| LogFile.SteadyMarks | src/client/logfile.rs:119-173 | the same from the middle: with any bytes kept and any reads to come, slides that were cut short by a read among them |
| LogFile.NotEveryLogIsSteady | src/wire.rs:1088-1096 | every event with four bytes behind it that are no sync word is such a log: read up to its end it is found, and read in one go it is not |
| LogFile.SlideStops | src/wire.rs:1168-1171 | a slide stops at the first sync word behind the first byte, or at the last three bytes where there is none |
| LogFile.DamageCostsItself | src/client/logfile.rs:162-173 | whatever bytes are in front of the next sync word, the event there is found and the replay goes on behind it |
| LogFile.SkipCostsItself | src/client/logfile.rs:130-138 | an event that is stepped over costs itself alone |
| LogFile.LogReader | src/client/logfile.rs:96-213 | a replay ends on every file and any split, early only for a read that failed or the flag; each event is its own bytes at a place of its own, in sequence; what it found is what `Marks` says of its reads, so of a steady file it hands over what a replay of the whole does, filtered by time and by the rules at each look |
| LogWriting.LogWriter.Write | src/client/mod.rs:805-838 | an event goes whole and is counted, or a part of it takes the writer with it, or nothing changes |
| LogWriting.WriteAll | src/client/mod.rs:805-838 | any run of publishes, on an empty log or behind whole events that are there, leaves those and then the events that went, numbered from zero, and at most a part of one more |
| LogWriting.CutReplays | src/client/logfile.rs:119-173 | whole events and a part of one replay as exactly those events and then the end of the log, or a torn one, with any payloads |
| LogWriting.WrittenLogReplays | src/client/mod.rs:805-838 | what a reader hands over of a written log is what was there and what was published, filtered, with its numbers and times |
| LogWriting.CutLogReplays | src/client/logfile.rs:140-160 | of any cut of a log, exactly the events in front of the cut |

## Left out

- LogReader: the pace between two events, its anchor and the count of what it slid over are not modelled; a stop while it holds is a stop at the head of the loop.
- SeekBefore: the last seek, whose error the code drops, is taken to work.
- LastFragmentDelivers: a message that was evicted is not delivered; `AloneComesOut` has no such condition.
- RelayHoldsTheRules: texts are below 4 GiB, for the length field of a longer one does not say its length (`TooLongToCount`).
- WriteAll: a log that is opened to be added to behind an event cut short is not covered.
- LogWriter: numbers stay below 2^63, and the buffer in front of the file is part of the file.
- Sockets, files, threads, keepalive, deadlines of the connect and the handshake, and the linger of a close: kernel behaviour.
- The regex engine: which patterns it takes and what they match are parameters, as is what a handler does.
- Relay peer registration, its accept loop and the fan-out to other peers.
- The capacity the rings of the outbox give back, and the amortised cost of moving bytes in the read buffer.
- `Pace`, statistics, error texts, the greetings of the two sides, and the client's checks that a transport can publish or receive.
- `src/url.rs`: the printer and the parser of a bus address.
- Overflow of 64-bit counters and clocks.
