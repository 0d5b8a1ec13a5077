# evcoap and k3d depth sorts in Dafny

This project models the core of **evcoap**, a C implementation of CoAP (in the draft wire
format that counts options in the header and bridges gaps in option numbers with
fenceposts), and the quicksorts of a 3D renderer, and proves properties of the models.

What is modelled:

- the option codec and its sorted option list, the surplus space of Empty options, the PDU
  header, variable-length unsigned integers and Block values, and the splitting of URIs into
  options;
- the client transaction with its three timers, retransmission (sections 4.2 and 4.8.2 of
  RFC 7252) and observation (a 16-bit form of section 3.4 of RFC 7641);
- the server transaction with piggybacked and separate responses (sections 5.2.1 and 5.2.2
  of RFC 7252);
- the duplicate cache (section 4.5 of RFC 7252) and, with client and server together, at-most-once
  execution over a bad network;
- the registry of observers;
- the sorts of edges, faces and points by distance (`QuickSort`, `PointSort`).

Structure: each state machine is a pure specification (`ClientSpec`, `ServerSpec`, the
functions of `Dups` and `Observers`), about which theorems over all runs are proved
(`ClientRuns`, `ClientLaws`, `ServerRuns`, `ServerSends`, `ServerMessages`, `ObserveFilter`,
`EndToEnd`, `Replay`), and a class whose methods are proved to compute it (`ClientObject`,
`ServerObject`, `DupCache`, `Registry`, on `Timer` and `Pool` objects). Time is an integer
number of seconds, handlers take no time, and an armed timer fires exactly on its deadline.
What the program leaves to chance (message IDs, an unset variable, the outcome of sending,
the user's verdicts) is a parameter.

Where the code departs from its evident intent, the model follows the code, and the exact
condition for the intended behaviour is proved:

- a 15-byte option value is written with an extended length and read without it
  (`OptionRoundTrip`, `WhateverValues`), and a second encoding counts fenceposts again, in four bits
  (`EncodedOnceOrTwice`, `FenceOverflow`);
- an Empty option given a length is charged for bytes that are never written
  (`WhateverSurplus`);
- the message ID is brought into network order twice (`MidOnTheWire`), which does no harm
  where it is only mirrored (`MirroredMid`);
- the option count is compared with 15 for equality only, and a Block exponent of 7 passes although the
  comment calls it reserved (`Push`, `AddBlock`);
- a stale notification stays first among the responses held: nothing gets through until 2^14
  seconds after the last acceptance, and what comes then is recorded under the stale counter
  (`HearsAllIff`, `AfterLapse`); and the opening response is never recorded
  (`HearsAllFromOpeningIff`);
- an illegal transition ends the process: `Fatal` lists exactly the events that cause one; an
  observation whose cancellation has been acted on stays in its state without timers if the
  client belongs to the user (`Discipline` in `ClientRuns`);
- the ID of a retransmitted separate response is an unset variable's, or a new one if the
  first drawn was 0, which stands for none (`SameIdIff`, `SameWhateverIff`); the token is
  added to each copy (`SameOptionsIff`), and the call-back timer may outlive its server
  (`LeftPending`);
- the first separate response is not offered to the duplicate cache, its retransmissions are,
  so what a repeated request is answered with changes in between (`DuplicateAnswer`);
- an observer registered again outside its GET is there twice (`SingleThroughoutIff`);
- the pivot of the point sort is halved, so that it need not sort (`SortsExactly`).

## Model

| member | source | states |
|---|---|---|
| `OptionTable.NumberToSymbol` | bridge/sw/lib/evcoap/src/evcoap_opt.c:116-132 | the search of the option table finds the symbol of a number exactly if the number is in the table |
| `OptionTable.NewOpt` | bridge/sw/lib/evcoap/src/evcoap_opt.c:49-91 | an option is created for a known symbol and at most 270 bytes, and for nothing else; it holds the value, except that an Empty option drops it |
| `OptionList.InsertMultiset` | bridge/sw/lib/evcoap/src/evcoap_opt.c:157-186 | insertion adds the one option and loses none |
| `OptionList.InsertSorted` | bridge/sw/lib/evcoap/src/evcoap_opt.c:157-186 | insertion keeps the list in order of option number |
| `OptionList.InsertStable` | bridge/sw/lib/evcoap/src/evcoap_opt.c:157-186 | among options of one symbol a new one comes last, whatever else is in the list |
| `OptionList.InsertAllStable` | bridge/sw/lib/evcoap/src/evcoap_opt.c:157-186 | hence, per symbol, a series of insertions appends in order |
| `OptionList.InsertAllSorted` | bridge/sw/lib/evcoap/src/evcoap_opt.c:157-186 | a series of insertions keeps the list sorted |
| `Options.Pool.Push` | bridge/sw/lib/evcoap/src/evcoap_opt.c:157-191 | the scan from the tail performs that insertion; refused only when the count is exactly 15 |
| `Options.Pool.Add` | bridge/sw/lib/evcoap/src/evcoap_opt.c:193-209 | create and insert; on failure nothing changes |
| `Options.Pool.AddRaw` | bridge/sw/lib/evcoap/src/evcoap_opt.c:211-243 | a long value takes max(1, ceil(l/270)) slots; all fragments are inserted in order, or nothing changes when the slots are short |
| `OptionList.SlotsRoundUp` | bridge/sw/lib/evcoap/src/evcoap_opt.c:211-238 | the number of slots is the least that holds the value 270 bytes at a time, and at least one |
| `OptionList.FragmentsJoin` | bridge/sw/lib/evcoap/src/evcoap_opt.c:224-238 | the fragments of a value concatenate to the value |
| `OptionList.FragmentsReadBack` | bridge/sw/lib/evcoap/src/evcoap_opt.c:1157-1180 | concatenating the options of the symbol in list order gives what was there followed by the whole new value, for any list and any length |
| `OptionList.FragmentsLeaveOthers` | bridge/sw/lib/evcoap/src/evcoap_opt.c:211-243 | options of other symbols are untouched |
| `OptionCodec.FencepostsBridgeGap` | bridge/sw/lib/evcoap/src/evcoap_opt.c:1186-1226 | for any two option numbers, fencepost deltas and the final delta are at most 14 and add up to the gap |
| `OptionCodec.AtMostOneFence` | bridge/sw/lib/evcoap/src/evcoap_opt.c:20-44 | within the option table one encoding needs at most one fencepost |
| `OptionCodec.EncodedLength` | bridge/sw/lib/evcoap/src/evcoap_opt.c:660-696 | the bytes written are those accounted for (fewer only for an Empty option given a length: the rest is surplus space) |
| `OptionCodec.PassFences` | bridge/sw/lib/evcoap/src/evcoap_opt.c:762-777 | the decoder passes over the fenceposts before an option, leaving the number where the encoder had it |
| `OptionCodec.DecodeWhole` | bridge/sw/lib/evcoap/src/evcoap_opt.c:712-799 | one encoded option, fenceposts included, is read back wherever it stands; a 15-byte value is read without its first byte and the position ends one short |
| `OptionCodec.OneByteBehind` | bridge/sw/lib/evcoap/src/evcoap_opt.c:786-797 | once the position is behind it never ends where the list ends |
| `OptionCodec.OptionRoundTrip` | bridge/sw/lib/evcoap/src/evcoap_opt.c:643-805 | exact law: decoding a count of records at any place gives the same list in the same order and ends where the space charged for it ends, if and only if the count is options plus fenceposts and no option is 15 bytes long, or by the one stroke of luck that `Lucky` describes; the last option may be an Empty one given a length |
| `OptionCodec.OneByteLeft` | bridge/sw/lib/evcoap/src/evcoap_opt.c:756-777 | that luck: one byte is left over and one record too many is announced, which is passed over exactly for eight values of the byte |
| `Surplus.WhateverSurplus` | bridge/sw/lib/evcoap/src/evcoap_opt.c:679-696 | with the right count, a list comes back whatever the buffer holds in the surplus space of Empty options if and only if only the last option has any and none is 15 bytes long |
| `Surplus.Spoiled` | bridge/sw/lib/evcoap/src/evcoap_opt.c:679-696 | otherwise there are contents with which it does not |
| `Surplus.ReadBackNeeds` | bridge/sw/lib/evcoap/src/evcoap_opt.c:711-799 | what reading back needs in that case: the last byte written for the last option, to be found among the surplus |
| `OptionCodec.AllFencesWritten` | bridge/sw/lib/evcoap/src/evcoap_opt.c:660-677 | a list that fits has all its fenceposts written and counted |
| `Options.Pool.FencepostsEncSz` | bridge/sw/lib/evcoap/src/evcoap_opt.c:1212-1226 | the size set aside is the number of fenceposts that are written |
| `Options.Pool.AddFenceposts` | bridge/sw/lib/evcoap/src/evcoap_opt.c:1186-1210 | writes exactly those fenceposts, counts them, and returns the delta that is left |
| `Options.Pool.PutOption` | bridge/sw/lib/evcoap/src/evcoap_opt.c:679-690 | writes the one- or two-byte head and the value after what is there |
| `Options.Pool.Encode` | bridge/sw/lib/evcoap/src/evcoap_opt.c:643-701 | succeeds exactly if the list fits 4050 bytes, then the buffer holds the specified encoding; the count grows by the fenceposts written, on failure too; nothing is written past the buffer |
| `Options.Pool.Decode` | bridge/sw/lib/evcoap/src/evcoap_opt.c:703-805 | the loop computes the specified decoding, with its error and overrun cases |
| `Options.ReadRecord` | bridge/sw/lib/evcoap/src/evcoap_opt.c:714-797 | one record: critical unknown numbers refused, elective ones and fenceposts passed over, extended length read from 15 but counted from 16 |
| `Electives.ElectivesPassedOver` | bridge/sw/lib/evcoap/src/evcoap_opt.c:714-797 | records of any number, as other senders write them: wherever they stand, unknown elective options among them are passed over, and decoding gives exactly the options of the table in order and ends where the last record ends, if no value is 15 bytes long |
| `Electives.WhateverValues` | bridge/sw/lib/evcoap/src/evcoap_opt.c:786-797 | exact law: records of given numbers and lengths are read back whatever their values if and only if no length is 15 |
| `Electives.FifteenAnywhere` | bridge/sw/lib/evcoap/src/evcoap_opt.c:786-797 | otherwise there are values for which they are not, wherever the length of 15 stands |
| `Electives.CriticalRefused` | bridge/sw/lib/evcoap/src/evcoap_opt.c:750-768 | an unknown critical option after any such records is refused, whatever follows |
| `Electives.Eighteen` | bridge/sw/lib/evcoap/src/evcoap_opt.c:733-797 | the option after an unknown one is read under its own number |
| `Pdu.HeaderRoundTrip` | bridge/sw/lib/evcoap/src/evcoap_pdu.c:251-290 | type, code and message ID survive; of the count only four bits do |
| `Pdu.MirroredMid` | bridge/sw/lib/evcoap/src/evcoap_pdu.c:271-287 | an ID mirrored by a peer of any byte order comes back as sent, although peers of different order read different numbers |
| `Pdu.MidOnTheWire` | bridge/sw/lib/evcoap/src/evcoap_pdu.c:286-287 | the ID is brought into network order twice: on a little-endian host its less significant byte goes first |
| `Pdu.MessageRoundTrip` | bridge/sw/lib/evcoap/src/evcoap_pdu.c:251-290 | exact law: type, code, ID, options and payload all come back, on either byte order, if and only if the count is right modulo 16 and no option is 15 bytes long, or by that luck |
| `Pdu.EncodedOnceOrTwice` | bridge/sw/lib/evcoap/src/evcoap_opt.c:1186-1210 | so a first encoding is read back if and only if options and fenceposts are at most 15 and no option is 15 bytes long, and a second one of the same pool, for plain options, only if there is no fencepost besides |
| `Pdu.FenceOverflow` | bridge/sw/lib/evcoap/src/evcoap_pdu.c:279-290 | fifteen options and a fencepost announce no options: everything lands in the payload |
| `Pdu.PduObject.EncodeHeader` | bridge/sw/lib/evcoap/src/evcoap_pdu.c:279-290 | fills the four header bytes |
| `Pdu.PduObject.Encode` | bridge/sw/lib/evcoap/src/evcoap_pdu.c:222-249 | a message is encoded to the specified bytes, surplus space included, or not at all |
| `Pdu.PduObject.Receive` | bridge/sw/lib/evcoap/src/evcoap_srv.c:279-406 | header, options and payload are taken from a datagram as specified |
| `Pdu.ReadHeader` | bridge/sw/lib/evcoap/src/evcoap_pdu.c:251-277 | refuses short datagrams and other versions, else yields the header |
| `UintCodec.PickSize` | bridge/sw/lib/evcoap/src/evcoap_opt.c:290-307 | the smallest number of bytes that holds the value |
| `UintCodec.EncodeUint` | bridge/sw/lib/evcoap/src/evcoap_opt.c:281-326 | writes the digits in the byte order of the build if the buffer is large enough |
| `UintCodec.DecodeUint` | bridge/sw/lib/evcoap/src/evcoap_opt.c:414-436 | the value of up to eight bytes |
| `UintCodec.UintRoundTrip` | bridge/sw/lib/evcoap/src/evcoap_opt.c:281-436 | every 64-bit value survives, on a build of either byte order |
| `UintCodec.WireOrder` | bridge/sw/lib/evcoap/src/evcoap_opt.c:309-322 | the most significant byte goes first on a little-endian build, the least on the other |
| `UintCodec.DigitsAreShortest` | bridge/sw/lib/evcoap/src/evcoap_opt.c:290-307 | no encoding of the same value is shorter |
| `UintCodec.DigitsOfValue` | bridge/sw/lib/evcoap/src/evcoap_opt.c:281-436 | encoding what was decoded strips exactly the leading zero bytes |
| `UintCodec.SizeExponent` | bridge/sw/lib/evcoap/src/evcoap.c:199-208 | the search over block sizes finds the exponent of a size from 16 to 1024, or there is none |
| `UintCodec.AddBlock` | bridge/sw/lib/evcoap/src/evcoap_opt.c:1228-1249 | number, flag and exponent are packed into one option; the limits are those of the code, which let the reserved exponent 7 through |
| `UintCodec.BlockRoundTrip` | bridge/sw/lib/evcoap/src/evcoap_opt.c:1228-1274 | a Block value comes back unchanged from among any other options |
| `UintCodec.PackUnpack` | bridge/sw/lib/evcoap/src/evcoap_opt.c:1251-1274 | a received value is a Block exactly if it has 24 bits at most, and then it is the packing of it |
| `UintCodec.BlockByte` | bridge/sw/lib/evcoap/src/evcoap_opt.c:1228-1249 | a small Block value is one byte: number, flag and exponent from the top |
| `UintCodec.FirstRead` | bridge/sw/lib/evcoap/src/evcoap_opt.c:1251-1274 | of several options of one symbol the first is read |
| `UriOptions.PathRoundTrip` | bridge/sw/lib/evcoap/src/evcoap_cli.c:155-168 | splitting a path and rebuilding it gives it back if and only if it has no empty segment |
| `UriOptions.PathKeepsPieces` | bridge/sw/lib/evcoap/src/evcoap_opt.c:1115-1119 | what is rebuilt has the same segments |
| `UriOptions.PathPieces` | bridge/sw/lib/evcoap/src/evcoap_cli.c:155-168 | splitting undoes rebuilding |
| `UriOptions.QueryRoundTrip` | bridge/sw/lib/evcoap/src/evcoap_cli.c:170-184 | the same law for queries |
| `UriOptions.NextPiece` | bridge/sw/lib/evcoap/src/evcoap_cli.c:161-167 | the splitting loop takes off one piece |
| `UriOptions.AddPieces` | bridge/sw/lib/evcoap/src/evcoap_cli.c:155-185 | the loop pushes the nonempty pieces in order, and fails where a piece is too long or the slots are used up |
| `UriOptions.PiecesReadBack` | bridge/sw/lib/evcoap/src/evcoap_opt.c:1115-1127 | the pieces are found again in order among any other options |
| `UriOptions.PathThroughOptions` | bridge/sw/lib/evcoap/src/evcoap_cli.c:155-185 | main law: a path goes through the option list and comes back without its empty segments, and unchanged if and only if it has none |
| `UriOptions.QueryThroughOptions` | bridge/sw/lib/evcoap/src/evcoap_opt.c:1121-1127 | likewise a query |
| `UriOptions.NulEnds` | bridge/sw/lib/evcoap/src/evcoap_opt.c:1115-1127 | a value with a NUL in it is recomposed up to that |
| `UriOptions.AddUri` | bridge/sw/lib/evcoap/src/evcoap_cli.c:155-185 | path, then query, become options, exactly if the pieces of the path fit, and those of the query fit what is left |
| `UriOptions.Compose` | bridge/sw/lib/evcoap/src/evcoap_opt.c:1115-1146 | one pass over the list rebuilds both |
| `Timers.Timer.Start` | bridge/sw/lib/evcoap/src/evcoap_timer.c:8-29 | an existing timer is not started again |
| `Timers.Timer.Remove` | bridge/sw/lib/evcoap/src/evcoap_timer.c:31-44 | stops the timer and forgets its retries |
| `Timers.Timer.Restart` | bridge/sw/lib/evcoap/src/evcoap_timer.c:46-58 | arms it again for the full interval |
| `Timers.SpanClosed` | bridge/sw/lib/evcoap/src/evcoap_cli.c:596-615 | doubling from T, the k-th expiry comes at T(2^k - 1) |
| `ClientObject.Transaction.SetState` | bridge/sw/lib/evcoap/src/evcoap_cli.c:707-809 | the object follows the specified transition: legality, timers, callback, disposal |
| `ClientObject.Transaction.TimersFor` | bridge/sw/lib/evcoap/src/evcoap_cli.c:719-767 | the timer and ACK work of a transition |
| `ClientObject.Transaction.NameResolved` | bridge/sw/lib/evcoap/src/evcoap_cli.c:378-460 | name resolution, encoding and the first send |
| `ClientObject.Transaction.CoapTimerFired` | bridge/sw/lib/evcoap/src/evcoap_cli.c:546-570 | retransmission or time-out |
| `ClientObject.Transaction.ObserveOptions` | bridge/sw/lib/evcoap/src/evcoap_cli.c:1034-1115 | the observation bookkeeping on a response |
| `ClientObject.Transaction.HandleResponse` | bridge/sw/lib/evcoap/src/evcoap_cli.c:989-1016 | a response is added, judged, and moves the client on |
| `ClientRuns.StepInv` | bridge/sw/lib/evcoap/src/evcoap_cli.c:462-519 | one event: the client ends the process if and only if the event is one of those listed as fatal, and otherwise keeps all invariants |
| `ClientRuns.RunInv` | bridge/sw/lib/evcoap/src/evcoap_cli.c:707-809 | the invariants hold throughout every run |
| `ClientRuns.ArmedExactly` | bridge/sw/lib/evcoap/src/evcoap_cli.c:719-809 | in every run each timer is armed in just the states meant for it, so an application time-out never hits an observation |
| `ClientRuns.SendsOnSchedule` | bridge/sw/lib/evcoap/src/evcoap_cli.c:546-615 | in every run a request is sent at most once more than there are retransmissions, each time exactly on the doubling schedule |
| `ClientRuns.CoapSchedule` | bridge/sw/include/evcoap_enums.h:28-31 | with the original constants: at most five sends, at 0, 2, 6, 14 and 30 seconds, giving up at 62 |
| `ClientRuns.GivesUpExactly` | bridge/sw/lib/evcoap/src/evcoap_cli.c:546-570 | a request is given up only after all retransmissions, exactly at T(2^(N+1) - 1), and only if the application time-out is not due before |
| `ClientRuns.ShortTimeoutFirst` | bridge/sw/lib/evcoap/src/evcoap_cli.c:546-570 | with application time-outs below that no run ever ends in a protocol time-out |
| `ClientRuns.DefaultTimeoutFirst` | bridge/sw/include/evcoap_cli.h:26 | so none does with the original constants and application time-outs of at most the default 60 s |
| `ClientRuns.SendWindow` | bridge/sw/lib/evcoap/src/evcoap_cli.c:546-615 | all copies go out within the retransmission span of the first |
| `ClientRuns.UnansweredGivesUp` | bridge/sw/lib/evcoap/src/evcoap_cli.c:546-615 | an unanswered request really goes through the whole schedule |
| `ClientRuns.CallbacksAccounted` | bridge/sw/lib/evcoap/src/evcoap_cli.c:769-805 | in every run the callback has run once per uncancelled notification and once at the end, unless a cancellation has been acted on |
| `ClientRuns.QuietAfterEnd` | bridge/sw/lib/evcoap/src/evcoap_cli.c:769-805 | no callback after the end or an acted-on cancellation, until a new request |
| `ClientLaws.StepIs` | bridge/sw/lib/evcoap/src/evcoap_cli.c:707-809 | every event that does not end the process, in its own terms: the state it leads to, whether the user is told or a cancellation acted on, the ACK and RST sent, what is held afterwards |
| `ClientLaws.AcksExactly` | bridge/sw/lib/evcoap/src/evcoap_cli.c:757-764 | in every run, one ACK has been sent in the cycle if the flow is confirmable and the cycle has ended in a response that came after an empty ACK and opened no observation, and otherwise none |
| `ClientLaws.RstsExactly` | bridge/sw/lib/evcoap/src/evcoap_cli.c:776-783 | in every run, one RST for each time the user would have been told, a cancellation having been asked for, while a response was there to be rejected |
| `ClientLaws.OneRst` | bridge/sw/lib/evcoap/src/evcoap_cli.c:785-803 | a client of the engine sends one RST at most, which ends it |
| `ClientLaws.AnotherRst` | bridge/sw/lib/evcoap/src/evcoap_cli.c:776-800 | one of the user may send more |
| `ClientLaws.AppTimesOut` | bridge/sw/lib/evcoap/src/evcoap_cli.c:616-634 | in every run the application timer of an unanswered request stands at its first copy plus the time-out asked for |
| `ClientLaws.NeverUnasked` | bridge/sw/lib/evcoap/src/evcoap_cli.c:1110-1112 | in no run does a client observe that has not asked for it |
| `ClientLaws.CodesThatEnd` | bridge/sw/lib/evcoap/src/evcoap_cli.c:1061-1090 | 2.02 and 5.00 end an observation |
| `ClientLaws.GivenUpAfterMaxAge` | bridge/sw/lib/evcoap/src/evcoap_cli.c:648-705 | in every run the observation timer stands one second and the Max-Age of the opening response after the latest notification accepted |
| `ObserveFilter.JudgedBySendTime` | bridge/sw/lib/evcoap/src/evcoap_cli.c:1093-1105 | with delays below 2^14 s the 16-bit rule refuses exactly what was not sent in a later second, through wrap-around, long silences and constant clock skew |
| `ObserveFilter.WindowIsTight` | bridge/sw/lib/evcoap/src/evcoap_cli.c:1093-1096 | 2^14 s is exactly the limit: the rule is right for all delays below a bound if and only if the bound is at most that |
| `ObserveFilter.RuleExact` | bridge/sw/lib/evcoap/src/evcoap.c:1027-1040 | over whole observations, the rule applied to every notification accepts what was sent later than all that arrived before |
| `ObserveFilter.AcceptedIncreasing` | bridge/sw/lib/evcoap/src/evcoap_cli.c:1093-1105 | accepted notifications were sent in strictly increasing seconds |
| `ObserveFilter.DeliveryStep` | bridge/sw/lib/evcoap/src/evcoap_cli.c:1034-1115 | one notification delivered, of any Max-Age: accepted and recorded, or refused and held, as judged by the response that stands first |
| `ObserveFilter.HeardExactly` | bridge/sw/lib/evcoap/src/evcoap_cli.c:986-991 | in every run of notifications, of any Max-Age, delay and silence, the callback runs for exactly those that get through so |
| `ObserveFilter.DeafUntilLapse` | bridge/sw/lib/evcoap/src/evcoap_cli.c:986-991 | while a stale notification is held no event lets one through for 2^14 s since the last acceptance, or puts off the end of the observation |
| `ObserveFilter.AfterLapse` | bridge/sw/lib/evcoap/src/evcoap_cli.c:1093-1112 | in every run that goes on after the lapse, the first notification is heard whatever it is, and the rest is judged by the counter of the stale one, recorded at that time; so an older one may be heard again and a newer one refused |
| `ObserveFilter.ThroughIsNewerIff` | bridge/sw/lib/evcoap/src/evcoap_cli.c:1093-1105 | with delays below 2^14 s, what gets through is what was sent later than all before if and only if none of those arrives less than 2^14 s after the last acceptance and after a stale one |
| `ObserveFilter.HearsAllIff` | bridge/sw/lib/evcoap/src/evcoap_cli.c:1034-1115 | so the client hears of all newer notifications, of any Max-Age and through long silences, if and only if none arrives so |
| `ObserveFilter.HearsAllFromOpeningIff` | bridge/sw/lib/evcoap/src/evcoap_cli.c:1034-1115 | from the opening on: it hears all that are newer than the response if and only if the first notification is newer than the response and what follows is heard so |
| `ObserveFilter.OlderIsHeard` | bridge/sw/lib/evcoap/src/evcoap_cli.c:1093-1105 | an older first notification is heard all the same |
| `Dups.KeyInjective` | bridge/sw/lib/evcoap/src/evcoap_base.c:176-192 | different (ID, peer) pairs have different keys |
| `Dups.CacheIsMemory` | bridge/sw/lib/evcoap/src/evcoap_base.c:106-308 | main law, for every trace: a message is in the cache exactly while the arrival taken as fresh is less than 60 s old, with the latest reply since |
| `Dups.FreshIff` | bridge/sw/lib/evcoap/src/evcoap_base.c:233-261 | an arrival is taken as fresh exactly if it is not remembered |
| `Dups.DupCache.AdvanceTo` | bridge/sw/lib/evcoap/src/evcoap_base.c:163-174 | the timers that are due remove their records, in any order |
| `Dups.DupCache.HandleIncoming` | bridge/sw/lib/evcoap/src/evcoap_base.c:200-261 | reports a duplicate exactly if the trace says so, with the latest reply to be sent again |
| `Dups.DupCache.KeepReply` | bridge/sw/lib/evcoap/src/evcoap_pdu.c:98-116 | a sent answer is kept with the message that elicited it while that is remembered |
| `EndToEnd.ExecutedAtMostOnce` | bridge/sw/lib/evcoap/src/evcoap_srv.c:282-294 | every run of the client and every trace of the server that carries its request with loss, duplication, reordering and delays for which the server's memory lasts: at most one execution, for any retransmission parameters |
| `EndToEnd.FirstCopyExecuted` | bridge/sw/lib/evcoap/src/evcoap_srv.c:285-289 | the first copy to arrive is executed |
| `Replay.DuplicateAnswer` | bridge/sw/lib/evcoap/src/evcoap_pdu.c:98-116 | in every run of a server whose kept messages are entered in the cache, a repetition is answered with the piggybacked response or the empty ACK, until the first retransmission of a separate response, and from then on with its last copy |
| `Replay.DuplicateReads` | bridge/sw/lib/evcoap/src/evcoap_base.c:329-350 | that answer reads, on the wire, as the kept message: type, code, ID, options and payload, if and only if, the options being plain, none is 15 bytes long and the count is right modulo 16; for the reply to the request itself the count is options plus fenceposts |
| `Replay.FaithfulIff` | bridge/sw/lib/evcoap/src/evcoap_base.c:329-350 | so any kept message |
| `Replay.ReceiveRequest` | bridge/sw/lib/evcoap/src/evcoap_srv.c:282-330 | the callback is run for fresh requests only, and the reply entered in the cache; duplicates get the latest kept reply and reach no handler |
| `Replay.HandleEvent` | bridge/sw/lib/evcoap/src/evcoap_pdu.c:98-116 | any later event of that server enters what it sends to be kept |
| `Replay.ReceiveDuplicate` | bridge/sw/lib/evcoap/src/evcoap_srv.c:282-294 | a repetition within 60 s gets that answer from the cache, which reads so |
| `Replay.KeepSent` | bridge/sw/lib/evcoap/src/evcoap_pdu.c:98-116 | the loop enters just the messages marked to be kept, in order |
| `EndToEnd.DelayIsTight` | bridge/sw/include/evcoap_base.h:56 | a delay bound is safe for all runs and traces if and only if it is at most what the server's memory leaves after the last copy, for any retransmission parameters |
| `EndToEnd.ThirtySeconds` | bridge/sw/include/evcoap_enums.h:28-31 | that is 30 s for the original constants |
| `ServerObject.Handler.SetState` | bridge/sw/lib/evcoap/src/evcoap_srv.c:745-777 | the object follows the specified transition |
| `ServerObject.Handler.EncodeOptions` | bridge/sw/lib/evcoap/src/evcoap_pdu.c:196-212 | the token is added once more, then the pool encoded |
| `ServerObject.Handler.SendResponse` | bridge/sw/lib/evcoap/src/evcoap_srv.c:900-942 | piggybacked, separate or non-confirmable response, with the ID it really gets |
| `ServerObject.Handler.ResponseReady` | bridge/sw/lib/evcoap/src/evcoap_srv.c:549-573 | the response goes out and the state moves on, or neither |
| `ServerObject.Handler.CallUser` | bridge/sw/lib/evcoap/src/evcoap_srv.c:575-638 | the verdict of the callback is acted on |
| `ServerObject.Handler.HandleRequest` | bridge/sw/lib/evcoap/src/evcoap_srv.c:427-490 | a fresh request, to the end of its error path |
| `ServerObject.Handler.HandleUnknown` | bridge/sw/lib/evcoap/src/evcoap_srv.c:461-465 | a request for an unknown resource |
| `ServerObject.Handler.ReschedTimerFired` | bridge/sw/lib/evcoap/src/evcoap_srv.c:689-704 | the callback is run again |
| `ServerObject.Handler.WakeUp` | bridge/sw/lib/evcoap/src/evcoap_srv.c:148-161 | the user has the response ready ahead of time |
| `ServerObject.Handler.CoapTimerFired` | bridge/sw/lib/evcoap/src/evcoap_srv.c:779-801 | retransmission or time-out |
| `ServerObject.Handler.HandleControl` | bridge/sw/lib/evcoap/src/evcoap_srv.c:362-383 | RST, ACK and other empty messages |
| `ServerRuns.AcknowledgedOnce` | bridge/sw/lib/evcoap/src/evcoap_srv.c:549-638 | in every run no transition is illegal, and exactly one ACK-type message goes out, with the ID of the request, if and only if it is confirmable and the user asked for time or a response has room; otherwise none |
| `ServerRuns.RoomDecides` | bridge/sw/lib/evcoap/src/evcoap_pdu.c:190-213 | a response can be encoded exactly if the count is below 15 where a token is to be added, and the options fit; what cannot be encoded cannot at the second attempt either |
| `ServerRuns.TokenFits` | bridge/sw/lib/evcoap/src/evcoap_opt.c:654-677 | a list with a token always fits the buffer |
| `ServerRuns.SeparateOnSchedule` | bridge/sw/lib/evcoap/src/evcoap_srv.c:745-846 | in every run the retransmission timer is armed exactly while an ACK is awaited, and the response goes out on the doubling schedule, at most retransmissions plus one times |
| `ServerRuns.GivesUpExactly` | bridge/sw/lib/evcoap/src/evcoap_srv.c:779-801 | given up only after all retransmissions, exactly at the end of the schedule |
| `ServerRuns.RetransmittedId` | bridge/sw/lib/evcoap/src/evcoap_pdu.c:163-188 | a retransmission carries what an unset variable holds; its ACK finds the server exactly if that is the recorded ID or 0 |
| `ServerSends.StepSends` | bridge/sw/lib/evcoap/src/evcoap_srv.c:900-942 | which message an event after the request sends, if any: its type, code, ID, options, payload and whether it is kept |
| `ServerSends.RunShape` | bridge/sw/lib/evcoap/src/evcoap_srv.c:549-638 | in every run: one message at most in reply to the request itself, then only separate responses, of which the first is not kept and all later ones are |
| `ServerMessages.FirstReply` | bridge/sw/lib/evcoap/src/evcoap_srv.c:427-490 | what answers the request itself: 4.04 with the token; an empty ACK; or the code of the user, or else 5.00, with the options that find room, in order, the payload, and the token, if there is room at all |
| `ServerMessages.LaterMessage` | bridge/sw/lib/evcoap/src/evcoap_srv.c:900-942 | what a later event sends, and when: code and payload last given, the options so far and those given now, and the token once more |
| `ServerMessages.AddsAppend` | bridge/sw/lib/evcoap/src/evcoap_opt.c:211-243 | options given stand in order behind those of their symbol, and count by the places they take |
| `ServerMessages.RunContent` | bridge/sw/lib/evcoap/src/evcoap_srv.c:549-638 | in every run the response has the code and payload last given and the token of the request, and every message an empty or a response code and options that can be encoded |
| `ServerMessages.FirstState` | bridge/sw/lib/evcoap/src/evcoap_srv.c:575-699 | where the request leads, and when the callback is run again |
| `ServerMessages.LaterState` | bridge/sw/lib/evcoap/src/evcoap_srv.c:745-801 | where every later event leads |
| `ServerMessages.FirstStays` | bridge/sw/lib/evcoap/src/evcoap_srv.c:549-638 | what answered the request stays the first message of the run |
| `ServerSends.KeptReply` | bridge/sw/lib/evcoap/src/evcoap_srv.c:908-911 | so the reply kept with an acknowledged request is the piggybacked response or the empty ACK until the first retransmission, and then the last copy |
| `ServerSends.SameIdIff` | bridge/sw/lib/evcoap/src/evcoap_pdu.c:163-188 | in every run all copies carry the recorded ID if and only if each was sent so: the variable held it, or it was drawn before any confirmable message had gone out under a drawn 0 |
| `ServerSends.SameWhateverIff` | bridge/sw/lib/evcoap/src/evcoap_pdu.c:163-188 | the copies agree whatever is drawn and whatever the unset variable holds, if and only if at most one confirmable message goes out |
| `ServerSends.TwoCopies` | bridge/sw/lib/evcoap/src/evcoap_pdu.c:173-178 | runs in which they differ: the second copy carries a new ID after a drawn 0, and otherwise the left-over |
| `ServerSends.WokenEarly` | bridge/sw/lib/evcoap/src/evcoap_srv.c:148-161 | a run that leaves the call-back timer of a freed server pending |
| `ServerRuns.SameOptionsIff` | bridge/sw/lib/evcoap/src/evcoap_pdu.c:200-212 | a copy repeats the options of the one before if and only if there is no token and no fencepost |
| `ServerRuns.LeftPending` | bridge/sw/lib/evcoap/src/evcoap_srv.c:768-772 | a server is freed with its call-back timer pending exactly if that was pending and is not what ended it |
| `Observers.AddAppends` | bridge/sw/lib/evcoap/src/evcoap_observe.c:333-363 | registration adds one observer at the end of those of its URI and touches no other |
| `Observers.AddLifetime` | bridge/sw/lib/evcoap/src/evcoap_observe.c:247-260 | a new observation gets the Max-Age given or 60 s, one that exists keeps its own |
| `Observers.FoldIff` | bridge/sw/lib/evcoap/src/evcoap_observe.c:240-240 | URIs agree exactly up to the case of the letters A to Z |
| `Observers.LeaveRemoves` | bridge/sw/lib/evcoap/src/evcoap_observe.c:400-421 | the first observer at the peer leaves the resource, no other; none at the peer, and nothing changes |
| `Observers.ResetRemovesOne` | bridge/sw/lib/evcoap/src/evcoap_observe.c:372-397 | an RST removes the first observer at the peer it comes from and, unless its ID is 0, last notified with that ID; only if there is none does nothing change |
| `Observers.ResetSpares` | bridge/sw/lib/evcoap/src/evcoap_observe.c:200-220 | so whoever has another peer, or another last ID, stays, and an RST that changes nothing matched nobody |
| `Observers.NotifyMarks` | bridge/sw/lib/evcoap/src/evcoap_observe.c:45-105 | a round of notifications records each ID with its observer and changes nothing else |
| `Observers.AlwaysProper` | bridge/sw/lib/evcoap/src/evcoap_observe.c:234-450 | in every run URIs are distinct up to ASCII case and none is without observers |
| `Observers.AddKeepsSingleIff` | bridge/sw/lib/evcoap/src/evcoap_observe.c:333-363 | registering keeps observers single exactly if this one does not observe already |
| `Observers.LeaveClears` | bridge/sw/lib/evcoap/src/evcoap_srv.c:437-437 | after the first step of a GET its sender does not observe the resource |
| `Observers.SingleThroughoutIff` | bridge/sw/lib/evcoap/src/evcoap_observe.c:333-471 | a run never has an observer twice if and only if nobody who observes is registered outside the callback of a GET |
| `Observers.Registry.AddObserver` | bridge/sw/lib/evcoap/src/evcoap_observe.c:333-363 | the list operations do this |
| `Observers.Registry.LeaveObservation` | bridge/sw/lib/evcoap/src/evcoap_observe.c:400-471 | removal by GET or by the user |
| `Observers.Registry.CanceledByRst` | bridge/sw/lib/evcoap/src/evcoap_observe.c:372-397 | the search over all observations |
| `Observers.Registry.RemoveObserver` | bridge/sw/lib/evcoap/src/evcoap_observe.c:427-450 | an observation goes with its last observer |
| `Observers.Registry.NotifyAll` | bridge/sw/lib/evcoap/src/evcoap_observe.c:45-105 | the loop over the observers |
| `QuickSort.Sort` | web/demo/kloned/webapp/www/static/scripts/k3d_renderer.js:240-294 | the sort ends and leaves its slice in descending order of the key, rearranged, and the rest untouched |
| `QuickSort.SortEdges` | web/demo/kloned/webapp/www/static/scripts/k3d_renderer.js:240-294 | so edges are sorted by average Z |
| `QuickSort.SortFaces` | web/demo/kloned/webapp/www/static/scripts/k3d_renderer.js:393-477 | faces are sorted by average Z, which the scans sum up anew at every step |
| `QuickSort.ScanFacesUp` | web/demo/kloned/webapp/www/static/scripts/k3d_renderer.js:413-429 | that scan, and its guard |
| `QuickSort.ScanUp` | web/demo/kloned/webapp/www/static/scripts/k3d_renderer.js:258-261 | the index guard never cuts the scan short: it stops at an element not above the pivot |
| `QuickSort.ScanDown` | web/demo/kloned/webapp/www/static/scripts/k3d_renderer.js:265-268 | likewise downwards |
| `QuickSort.Partition` | web/demo/kloned/webapp/www/static/scripts/k3d_renderer.js:255-279 | the slice is rearranged around the pivot and both parts are smaller |
| `QuickSort.AverageZ` | web/demo/kloned/webapp/www/static/scripts/k3d_renderer.js:401-406 | the summing loop computes the average Z of a face |
| `QuickSort.AverageBalances` | web/demo/kloned/webapp/www/static/scripts/k3d_renderer.js:401-406 | the key of a face is the one value from which the Z of its points deviate by nothing in all |
| `QuickSort.EdgeIsFace` | web/demo/kloned/webapp/www/static/scripts/k3d_renderer.js:247-248 | the key of an edge is that of its two points |
| `PointSort.SortPoints` | web/demo/kloned/webapp/www/static/scripts/k3d_renderer.js:88-142 | the point sort ends, computes the specified function, and rearranges screen and world coordinates in the same way |
| `PointSort.Partition` | web/demo/kloned/webapp/www/static/scripts/k3d_renderer.js:93-127 | its outer loop, with the halved pivot |
| `PointSort.ScanUp` | web/demo/kloned/webapp/www/static/scripts/k3d_renderer.js:103-104 | the scan, which the guard may stop at the last element |
| `PointSort.ScanDown` | web/demo/kloned/webapp/www/static/scripts/k3d_renderer.js:108-109 | the scan, which the guard may stop at the first element |
| `PointSort.SortedPermutes` | web/demo/kloned/webapp/www/static/scripts/k3d_renderer.js:88-142 | the points of the slice are rearranged, and nothing else changes |
| `PointSort.BeyondMovesNothing` | web/demo/kloned/webapp/www/static/scripts/k3d_renderer.js:96-127 | a call whose pivot lies beyond all its elements moves nothing and leaves an element at one end out of the recursion |
| `PointSort.PassesSeparate` | web/demo/kloned/webapp/www/static/scripts/k3d_renderer.js:99-127 | any other call separates the larger elements from the smaller ones |
| `PointSort.SortsExactly` | web/demo/kloned/webapp/www/static/scripts/k3d_renderer.js:88-142 | exact law: the slice comes out in order if and only if every call with its pivot beyond all elements leaves out the least, or the greatest, of them, the calls being known from the passes alone |
| `PointSort.SuccessAgrees` | web/demo/kloned/webapp/www/static/scripts/k3d_renderer.js:88-142 | whether a call succeeds depends on its own slice only |
| `PointSort.OrderKept` | web/demo/kloned/webapp/www/static/scripts/k3d_renderer.js:88-142 | points in order stay in order |
| `PointSort.CloseSortsIff` | web/demo/kloned/webapp/www/static/scripts/k3d_renderer.js:96-96 | points of positive Z within a factor of two come out in order if and only if they were |
| `PointSort.CloseUnmoved` | web/demo/kloned/webapp/www/static/scripts/k3d_renderer.js:96-96 | positive Z within a factor of two are never moved at all |
| `PointSort.FactorOfTwo` | web/demo/kloned/webapp/www/static/scripts/k3d_renderer.js:96-96 | two is the largest such factor |
| `PointSort.SixTen` | web/demo/kloned/webapp/www/static/scripts/k3d_renderer.js:96-96 | so 6, 10 stays as it is |

## Left out

- QuickSort.Sort: the key of an edge is a function here; Z is a real number here and in the point sort, and a face has at least one point.
- ObserveFilter.HearsAllIff: up to the first notification that arrives after a lapse; `HeardExactly` and `AfterLapse` say what becomes of later ones. Notifications with the codes that end an observation, and cancellations, are not part of these runs.
- ServerRuns.AcknowledgedOnce: sends succeed, and tokens have at most the eight bytes a flow has room for.
- ServerRuns.SeparateOnSchedule: counts the copies of the response itself; the error reply to an unexpected empty message is a further send, which ends the transaction.
- Dups.CacheIsMemory: at the very second a record expires its timer is taken to run before an arrival; the text form of an address is a parameter, made by libevent.
- EndToEnd.DelayIsTight: delays are measured in whole seconds between two clocks with a constant skew.
- Options.Pool.Decode: reading past the end of the datagram, which the original does not check for, is an outcome of its own in which nothing more is said.
- OptionCodec.OptionRoundTrip: where an Empty option given a length is followed by others, `WhateverSurplus` states the law over all surplus contents and the right count instead.
- Replay.DuplicateAnswer: the surplus bytes of Empty options are not among the bytes compared, and the traffic between the events of the server is any that leaves its replies in order.
- Observers.Registry.NotifyAll: only the case in which a representation exists; deletion of the resource removes observers while iterating over them, and the re-arming of the timer depends on an unset flag.
- ClientSpec: the user callback does not start a new request from within itself; the matching of tokens and peers, and the duplicate check on responses, come before the events modelled.
- Sockets, libevent, DNS, libu and its hash map, allocation failures, logging, multicast, security modes.
- The scheme, host, port and authority of URIs, whose parsing and escaping lives in libu; Proxy-URI appears only as a fragmented value.
- Requests whose header or options cannot be decoded: the server ends them without sending anything.
- The choice of the nearest block size, trimming of payloads, the individual option getters and setters.
- The file-system and resource modules, kache, pubapi, the HTTP proxies, and the drawing code.
