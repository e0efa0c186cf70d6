# GoBAC in Dafny

GoBAC speaks BACnet/IP (ANSI/ASHRAE 135) as a client library and as a simulated device. This
project models its three cores and proves what they promise on all inputs and over all runs:

- the **client transaction protocol**: invoke IDs allocated per address, handlers registered
  and matched to responses, and two independent releases, under every interleaving of their
  atomic steps;
- the **codec**: tags, values, properties, the ReadProperty, WriteProperty,
  ReadPropertyMultiple, WritePropertyMultiple, SubscribeCOV and COV notification services, and
  whole datagrams, where the library and the simulator wrote their encoders and decoders
  separately;
- the **simulated device**: command prioritization, Out_Of_Service, batches that validate and
  then apply, COV subscriptions with deadband and lifetimes, scenarios and the responder.

`dafny verify dfyconfig.toml` checks everything.

## Layout

| files | about |
|---|---|
| Octets, Tags, ApplicationValues, TagScanner, ContextFields, ValueLists | the tag and value codec and the scanner for nested values |
| ReadRequests, WriteRequests, WriteAgreement, PropertyCodec, ReadResults, WriteErrors, CovMessages, SubscribeRequests | the services, client side against server side |
| Network, Datagram, WireFormat, Responder | network headers, whole datagrams, known octets, answering one datagram |
| Model, Device | the device as values, and the classes that change it in place |
| WriteBatch, PriorityLog, Cov, CovRuns, Stranded | batches, command prioritization and subscriptions over whole runs |
| Subscriptions, Replies, Turns, Application, ReadAll | the registry, the replies and the service handlers |
| CovNotices, CovLog, ScenarioCov | who is notified, told from the requests and replies of a run |
| Scenario, ScenarioRuns, ScenarioCheck, Configured, DeviceRules | scenarios, the devices built from them, what these accept and how they read, the two validators |
| DeviceValues, Encodable, Simulator, SimulatorRuns, SimulatorAnswers | codec and device joined: datagrams in, datagrams out, over whole runs |
| EndToEnd, EndToEndMultiple, CovEndToEnd, ClientView | each service from the client's call to the client's result, and who hears of it |
| Transactions, ClientProtocol, ClientDelivery, ClientExclusivity, ServerHandlers, Client | invoke IDs, the protocol's steps and runs, deliveries, the tables behind them |

Classes stand where the source changes objects in place. Every method of such a class is tied
to a function on values (`Model.WriteProperty`, `Cov.Handled`, `ClientProtocol.Step`), and what
holds over runs is proved of those functions. Decoders are written twice: as recursive
functions, which the lemmas speak about, and as the source's loops over an offset, which are
proved to compute the same result on every octet string.

## What turned out not to hold, and when it does

- A batch is all-or-nothing unless it puts an out-of-service object back in service before a
  write that only Out_Of_Service lets through (`WriteBatch.AllOrNothing`, an if-and-only-if;
  `WriteBatch.PartialBatchExists`).
- A subscriber can be left outside its deadband: a batch cut short at such a write reports nothing
  of what it did before, on any object. A run keeps every subscriber inside its deadband if and
  only if none of its batches is cut short after writes that took a subscribed object out of it
  (`Stranded.RunIsQuietIff`, `Stranded.StepIsQuietIff`; `Stranded.StrandedChangeIsNotReported`).
- Two unreleased requests can share an invoke ID in two ways. One is a grant between a
  response's delivery and the later of its two releases
  (`ClientExclusivity.CollisionIsReachable`). The other needs no such grant: a request sent
  elsewhere than its ID was reserved for takes the response of a request that is still waiting
  (`ClientExclusivity.PatientRunMayCollide`). In runs without either they never do
  (`CarefulRunIsExclusive`), and either can always be continued to a collision
  (`WindowIsNeeded`, `HarmIsNeeded`). A run that sends where it reserved only has to mind the
  window (`PatientRunIsExclusive`).
- A handler can outlive every request. Wherever a run stops, cleaning up leaves no handler, if and
  only if each Send goes to the address its ID is reserved for, or to one where another request in
  flight has the same ID (`ClientProtocol.NoHandlerLeaksIff`, `RegisterKeepsOwnershipIff`,
  `UnownedSendLeaks`). Sending elsewhere with nobody there, and sending again after a failed Send,
  whose cleanup forgets the address, leak (`MisaddressedSendLeaks`, `ResendLeaks`).
- An invoke ID is never released when it was asked for with an address of no octets that is not
  nil, and only then (`ClientProtocol.NothingLeaks`, `EmptyAddressLeaks`).
- The first answer to a Send can be dropped (`ClientProtocol.SecondSendMayBeDropped`): an answer is
  queued if and only if its request has received everything handed to it before
  (`ClientProtocol.QueuedIffReceived`), so a request that sends once never loses it.
- A COV notification need not take its subscriber's route: it takes the route of the request that
  caused it, which is the subscriber's own if and only if both came from the same network and
  address (`Responder.RouteIsOwnIff`).
- A COV notification is lost on the client when a property id needs four octets
  (`CovMessages.NotificationRoundTrip`).
- A validated scenario may fail to build: the relinquish default of a commandable analog or
  binary object is not looked at by Validate (`Scenario.ValidatedObjectBuildsIff`).
- The library accepts more than the simulator: WritePropertyMultiple requests whose value lists
  are not all closed by context-class tags, and SubscribeCOV requests whose numbers have more
  than four octets. These are the only differences (`WriteAgreement.SimulatorAcceptsIffClosed`,
  `SubscribeRequests.SimulatorAcceptsIffShort`).
- A confirmed request that parses gets no reply at all when its routing source is unsound, and
  only then (`SimulatorAnswers.EveryConfirmedRequestIsAnswered`).
- The comment on handleWritePropertyMultiple (simulator/application.go:151-155) promises
  atomicity without condition; the model follows the code.

## Model

| member | source | states |
|---|---|---|
| Octets.VarUintRoundTrip | bacnet/types/encoding_util.go:45-86 | decoding the variable-length form of any 32-bit unsigned number gives the number back |
| Octets.VarUintMinimal | bacnet/types/encoding_util.go:45-62 | no shorter octet string decodes to the same number |
| Octets.MostSignificantFirst | bacnet/types/encoding_util.go:64-86 | each octet of a number is worth 256 times the one after it |
| Octets.BitsReverse | bacnet/types/bit_string.go:10-38 | bit i of every octet of a bit string is sent as bit 7 - i |
| Octets.VarIntRoundTrip | bacnet/types/encoding_util.go:3-43 | the same round trip for every 32-bit signed number, through the sign extension of the 8, 16, 24 and 32-bit forms |
| Tags.PrimitiveHeaderRoundTrip | bacnet/types/tag.go:45-154 | for every tag number 0..255, class and length below 2^32, the header decodes to itself whatever octets follow and consumes exactly its own octets |
| Tags.ConstructedHeaderRoundTrip | bacnet/types/tag.go:79-154 | opening and closing headers of every tag number decode to themselves whatever follows |
| ApplicationValues.ObjectIdRoundTrip | bacnet/types/object_id.go:22-72 | an object identifier survives the 10+22-bit packing if and only if its type fits 10 bits and its instance 22 |
| ApplicationValues.ValueRoundTrip | bacnet/types/property_value.go:106-440 | a value of any of the thirteen application types decodes to itself, consuming exactly its encoding, if and only if it is in range (years 1900..2155, packable object identifiers) |
| ApplicationValues.ValuesRoundTrip | bacnet/pdu/read_property_multiple.go:525-553 | a concatenation of encoded values decodes to the same list |
| ApplicationValues.EncodedListsDiffer | bacnet/types/property_value.go:106-440 | different lists of values never share an encoding |
| ApplicationValues.ReadValues | bacnet/pdu/read_property_multiple.go:525-553 | the offset loop returns what the recursive reading of a flat run of values defines, on every octet string |
| TagScanner.FindIffBalanced | bacnet/types/property.go:239-272 | the scan succeeds with given bounds exactly when the octets are a balanced run of tags, matched by number only, followed by the matching closing tag |
| TagScanner.FoundIsBalanced | bacnet/types/property.go:239-272 | what the scan finds is a balanced run, exhibited as a tree of items, and its closing tag |
| TagScanner.BalancedIsFound | bacnet/types/property.go:239-272 | every balanced run followed by its closing tag is found, at that point and whatever follows it |
| TagScanner.PropertyValueBounds | bacnet/types/property.go:239-272 | the loop with an explicit stack terminates on every input and finds what the grammar says |
| ContextFields.WrittenOptional | simulator/services.go:590-600 | an optional context field is read back, or found absent, by the simulator's reader and the library's alike, before anything that is not that field |
| ValueLists.EncodedListIsFound | bacnet/pdu/read_property_multiple.go:560-593 | the scan finds the end of every encoded value list, whatever closing tag number and suffix follow |
| ValueLists.SimValuesAreLibraryValues | simulator/services.go:316-351 | whatever octets the simulator's value loop accepts, the library finds and reads as the same values over the same octets |
| ReadRequests.DecodersAgree | simulator/services.go:198-250 | on every octet string the simulator and the library accept the same ReadPropertyMultiple requests with the same content |
| ReadRequests.RequestRoundTrip | bacnet/pdu/read_property_multiple.go:65-145 | every request the library encodes is read back whole by both decoders |
| ReadRequests.SimReadReferences | simulator/services.go:218-240 | the simulator's property loop computes the reference reading of a property list |
| ReadRequests.SimDecodeRequest | simulator/services.go:198-250 | the simulator's request loop computes the reference decoding, error cases included |
| ReadRequests.LibEncodeSpec | bacnet/pdu/read_property_multiple.go:101-145 | the library's encoder loop refuses an empty property list and otherwise writes the specification's encoding |
| ReadRequests.LibEncodeRequest | bacnet/pdu/read_property_multiple.go:65-78 | the library's request loop refuses an empty request or specification and otherwise writes them all in order |
| WriteRequests.SimulatorAcceptsLibraryAccepts | simulator/services.go:268-377 | on every octet string, a WritePropertyMultiple request the simulator accepts is accepted by the library with the same objects, properties, indexes, values and priorities |
| WriteAgreement.SimulatorAcceptsIffClosed | bacnet/pdu/write_property_multiple.go:166-291 | on every octet string, the simulator accepts a WritePropertyMultiple request if and only if the library does and every value list in it is closed by a context-class tag |
| WriteAgreement.SimValuesIff | simulator/services.go:316-351 | the same for one value list: the simulator reads it if and only if the library's scan and reading do and its closing tag is context class |
| WriteRequests.LibraryAcceptsMore | bacnet/pdu/write_property_multiple.go:166-291 | a request on the other side of that condition exists |
| WriteRequests.WriteRequestRoundTrip | bacnet/pdu/write_property_multiple.go:39-149 | every valid request the library encodes decodes in the simulator to the same objects, property ids, optional indexes, value lists and priorities |
| WriteRequests.SimReadWrites | simulator/services.go:288-367 | the simulator's loop over the writes of one object computes the reference reading, priorities out of range told apart |
| WriteRequests.SimDecodeWriteRequest | simulator/services.go:268-377 | the simulator's request loop computes the reference decoding |
| WriteRequests.LibReadWrites | bacnet/pdu/write_property_multiple.go:196-284 | the library's loop computes the reference reading of its own decoder |
| WriteRequests.LibEncodeWriteSpec | bacnet/pdu/write_property_multiple.go:75-149 | the library's encoder refuses an empty list, an empty value list or a present priority outside 1..16, zero included, and otherwise writes the specification's encoding |
| PropertyCodec.PropertyRoundTrip | bacnet/types/property.go:35-237 | a property with an object identifier decodes to itself and consumes exactly its octets; without values it must end the message |
| PropertyCodec.UnmarshalProperty | bacnet/types/property.go:91-237 | the moving-offset decoder computes the reference decoding on every octet string, nested values kept as raw octets |
| PropertyCodec.ReadFlatLoop | bacnet/types/property.go:205-232 | the value loop tells a flat list from a constructed or truncated value |
| PropertyCodec.ReadPropertyRoundTrip | simulator/services.go:44-82 | a ReadProperty request reaches the simulator with its object, property and index; its result reaches the library with the same values if and only if there is at least one, every octet consumed |
| PropertyCodec.WritePropertyRoundTrip | simulator/services.go:84-118 | a WriteProperty request the library encodes decodes in the simulator to the same object, property, index, values and priority, and is refused if and only if it has no value |
| ReadResults.AckRoundTrip | simulator/services.go:379-427 | every ReadPropertyMultiple acknowledgement of the simulator, values and errors mixed, decodes in the library to the same content with every octet consumed |
| ReadResults.SimWriteAccess | simulator/services.go:381-425 | the encoder's loop over one object's results writes their encoding in order |
| ReadResults.LibReadResults | bacnet/pdu/read_property_multiple.go:410-513 | the decoder's loop over one object's results computes the reference reading |
| CovMessages.NotificationRoundTrip | bacnet/pdu/cov_notification.go:20-142 | a COV notification decodes to the same content, every octet consumed, if and only if it reports something and every property id is below 2^24; otherwise it is refused, never misread |
| CovMessages.LongReportIsRefused | bacnet/types/property.go:100-137 | a four-octet property id is taken for an object identifier and the property is then refused, with or without an index |
| CovMessages.LibReadReports | bacnet/pdu/cov_notification.go:88-133 | the decoder's loop over the list of values computes the reference reading |
| SubscribeRequests.SimulatorAcceptsIffShort | simulator/services.go:429-470 | on every octet string, the simulator's decoder, through its field helpers, accepts a SubscribeCOV request if and only if the library's, at its offset, does and both numbers have at most four octets; and then with the same content |
| SubscribeRequests.UnmarshalSubscribe | bacnet/pdu/cov_request.go:118-186 | the library's decoder with its moving offset computes the reference decoding on every octet string |
| SubscribeRequests.LibrarySubscribeIsLooser | bacnet/pdu/cov_request.go:118-186 | every cancellation whose process identifier has more than four octets is accepted by the library and refused by the simulator |
| SubscribeRequests.SubscribeRoundTrip | bacnet/pdu/cov_request.go:36-113 | every SubscribeCOV request the library encodes decodes in both to what it carries, a cancellation losing its flag and lifetime and an object identifier its high bits; that is the request itself if and only if there is nothing to lose |
| WriteErrors.WriteErrorRoundTrip | bacnet/pdu/write_property_multiple.go:308-486 | the client learns the error class and code, the object, the property and the optional index of the first failed write |
| Network.NpciRoundTrip | bacnet/pdu/npci.go:51-243 | the network header is read back from the front of any datagram, and is the same header if and only if addresses come with networks and a hop count with a destination |
| Network.MarshalNpci | bacnet/pdu/npci.go:51-135 | the buffer filled slot by slot at a moving offset holds the header's encoding, and is refused exactly for long addresses or a source network without an address |
| Datagram.ApduRoundTrip | bacnet/pdu/apdu.go:100-397 | an APDU of any type that encodes parses back to itself if and only if an error's own payload says what the error says |
| Datagram.LengthField | bacnet/types/header.go:19-31 | the BVLC length of every datagram sent is the length of the datagram |
| Datagram.PacketRoundTrip | bacnet/request.go:250-327 | a packet that can be sent arrives as it was (BVLC function, addressing, hop count, priority, APDU header, payload) if and only if it is well formed |
| Model.CheckWrite | simulator/model.go:118-146 | a commandable property accepts a write only at a resolved priority in 1..16 other than 6 |
| DeviceRules.PresentValueAccepts | simulator/model.go:118-187 | on a built device, after every run, a write of Present_Value is accepted if and only if the object is configured writable or commandable or reads as out of service, there is exactly one value of the type its kind has (NULL too when commandable), in 1..Number_Of_States as read for multi-state objects, and the priority is 0..16 other than 6 when commandable and absent otherwise; and each refused case has its own error |
| DeviceRules.ServiceAccepts | simulator/model.go:432-447 | Out_Of_Service takes exactly one Boolean without a priority, and then reads so, Status_Flags with it |
| DeviceRules.TheRestIsReadOnly | simulator/model.go:361-397 | every other property that can be read is denied to writes, and one that cannot be read is refused with the error of reading it; so is every property of the device object |
| DeviceRules.CommandReadsBack | simulator/model.go:151-162 | an accepted command is what that element of Priority_Array then reads, 16 without a priority; the other elements read as before |
| DeviceRules.IndexedReads | simulator/model.go:57-77 | on a built device, after every run: Object_List and Priority_Array read their length at index 0, element i at index i, the whole at 2^32 - 1 and invalid-array-index beyond; every other property that can be read is not an array |
| Model.DryRun | simulator/model.go:361-447 | ValidateWrite answers exactly what WriteProperty would, and a refused write leaves the device as it was |
| Model.WriteKeepsShape | simulator/model.go:416-447 | no write adds or removes an object or a stored property, or changes a property's shape |
| Model.WriteTouchesOneObject | simulator/model.go:416-447 | a write leaves every other object as it was |
| Model.WriteTouchesOneProperty | simulator/model.go:416-447 | a write leaves every other stored property as it was |
| Device.Property.EffectiveValues | simulator/model.go:215-225 | the scan over the priorities returns the first command, or the relinquish default |
| Device.Property.ReadValues | simulator/model.go:57-77 | a read with and without array index, with its three error cases |
| Device.Property.Apply | simulator/model.go:151-162 | a command sets or, when NULL, empties one slot; any other write replaces the values |
| Device.SimObject.Write | simulator/model.go:416-447 | the object after a write, stored, bypassing or synthesized, and the error, are those of the value model; the map of properties is untouched |
| Device.Device.ReadProperty | simulator/model.go:340-355 | reading through the object graph equals reading the device's value |
| Device.Device.WriteProperty | simulator/model.go:416-447 | writing in place through the object graph leaves the device whose value the model computes, other objects untouched, with the same error |
| Device.Device.ValidateWrite | simulator/model.go:361-397 | validation in place answers as validation of the device's value and changes nothing |
| WriteBatch.FirstRefused | simulator/application.go:165-184 | the write named in a refusal is the first, in request order, that the device as it stands refuses |
| WriteBatch.ValidatedBatchApplies | simulator/application.go:156-209 | a batch that passes validation is applied whole if and only if no write needs the Out_Of_Service bypass after the batch itself has put its object back in service; if it is not, the device was changed |
| WriteBatch.BatchAppliesIff | simulator/application.go:156-209 | a batch is applied whole if and only if no write has an index, the device as it stands accepts each, and the batch is free of that hazard; otherwise validation names the first write with an index or an error |
| WriteBatch.AllOrNothing | simulator/application.go:156-209 | a failed batch leaves the device unchanged if and only if validation caught it or the batch is free of that hazard |
| WriteBatch.StopsAtFirstHazard | simulator/application.go:186-199 | a batch that validation passes and that has such a write stops exactly at the first one, with write access denied, and the writes before it stay applied |
| WriteBatch.PartialBatchExists | simulator/application.go:186-199 | a two-write batch that passes validation, fails at its second write and leaves the first applied |
| PriorityLog.SlotsAreTheLog | simulator/model.go:79-162 | after every run of writes, slot p of a commandable property holds the last accepted command at resolved priority p, empty when that was NULL |
| PriorityLog.SlotSixIsNeverCommanded | simulator/model.go:118-146 | in every run slot 6 keeps what it had |
| PriorityLog.PresentValueIsFirstCommand | simulator/model.go:189-225 | after every run Present_Value reads as the first non-NULL element of the readable Priority_Array, or as Relinquish_Default |
| Cov.HandledKeepsInvariant | simulator/application.go:260-362 | every request keeps the two subscription tables' keys equal and every subscription on a reported object inside its deadband |
| Cov.NotifiedQuiets | simulator/application.go:304-332 | after the notifications of an object none of its subscriptions has anything left to report |
| CovRuns.EveryRunKeepsInvariant | simulator/application.go:260-414 | the same over every run of requests and every clock, from a device nobody has subscribed to |
| CovRuns.DeadbandHolds | simulator/application.go:334-362 | at every point of every run without a half-applied batch, the value last notified equals the current one or differs from it by less than the increment, element by element |
| CovRuns.CleanRunLeavesNothingUnreported | simulator/application.go:186-208 | a run whose batches are refused by validation or hazard-free never leaves a change unreported |
| CovLog.NoticeIffMoved | simulator/application.go:260-362 | in every run, for every request and subscription: a notice is sent if and only if the request is its own SubscribeCOV, or an acknowledged write that names the object while the subscription is alive, and Present_Value as then read differs from the last notice sent to it by at least the increment in some number (or at all where there is none); told from the replies of the run |
| CovLog.NoticeSays | simulator/application.go:364-389 | every notice goes to its subscriber with Present_Value as then read, with an invoke ID exactly when confirmed notifications were last asked for, and the seconds left of the lifetime asked for, rounded up |
| CovLog.ActiveIffAlive | simulator/subscriptions.go:36-103 | in every run with a clock that does not go back, a subscription is in force exactly when the last SubscribeCOV about it made it and its lifetime is not over, and with the terms asked for there |
| CovNotices.RememberedIsTold | simulator/application.go:304-332 | in every run, what the table remembers of a subscription is what its last notice said |
| ScenarioCov.BuiltDeviceNotifies | simulator/application.go:334-362 | the deadband in the numbers of the scenario: on an acknowledged write a live subscription is notified if and only if the value differs from the last one notified by at least the configured increment, or at all where that is zero |
| Cov.ObjectsInOrder | simulator/application.go:185-202 | the objects of a batch are reported in the order the request first names them |
| Stranded.CutDue | simulator/application.go:186-199 | for any batch cut short after validation, in any state: both tables stay as they were, and a subscription on any object has an unreported change if and only if the writes before the cut took its object out of its deadband |
| Stranded.StepIsQuietIff | simulator/application.go:116-302 | from a state where nothing is unreported, every request of every kind leaves nothing unreported, if and only if it is not a batch cut short after writes that took some subscribed object out of its deadband |
| Stranded.RunIsQuietIff | simulator/application.go:156-209 | over every run and clock: nothing is unreported at any point if and only if no request of the run is such a batch |
| Stranded.StrandedSubscriber | simulator/application.go:186-199 | one such batch, on any out-of-service Real input in any state: write Present_Value, put the input back in service, write Present_Value again; its subscriber has an unreported change if and only if the first value left the deadband |
| Stranded.StrandedChangeIsNotReported | simulator/application.go:186-199 | a device built from a scenario, a subscriber and one batch of decoded values: the object has moved by ten increments and the subscriber was told nothing |
| CovRuns.TimeRemainingInRange | simulator/application.go:364-372 | with a clock that does not go back, an active finite subscription reports between one second and its lifetime without 64-bit overflow, and zero is reported exactly for indefinite ones |
| Subscriptions.SubscriptionRegistry.Subscribe | simulator/subscriptions.go:36-47 | the table gains or replaces one entry, dated from the clock |
| Subscriptions.SubscriptionRegistry.Cancel | simulator/subscriptions.go:49-57 | the entry goes, and the answer tells whether it was there |
| Subscriptions.SubscriptionRegistry.RemoveExpired | simulator/subscriptions.go:96-103 | exactly the unexpired entries remain, unchanged |
| Subscriptions.SubscriptionRegistry.Active | simulator/subscriptions.go:59-82 | the listing has every unexpired key once, sorted by subscriber, process, object type and instance |
| Subscriptions.SubscriptionRegistry.UpdateLastValue | simulator/subscriptions.go:84-94 | expired entries go and the named one, if still there, remembers the new value |
| Subscriptions.ListingIsUnique | simulator/subscriptions.go:69-80 | a set of keys has one listing, so the order of notifications does not depend on map iteration |
| Application.Application.NextInvokeId | simulator/application.go:416-424 | the next invoke ID follows in the cycle 1..255 |
| Replies.OutstandingIdsDiffer | simulator/application.go:416-424 | two confirmed notifications share an invoke ID if and only if a multiple of 255 was issued from one to the other |
| Application.Application.ActiveSubscriptions | simulator/application.go:400-414 | both tables are pruned to the unexpired keys, which are listed in order |
| Application.Application.Notification | simulator/application.go:364-389 | a notification carries the seconds remaining, the values and, when confirmed, the next invoke ID |
| Application.Application.Notifications | simulator/application.go:304-332 | one notification, in order, for exactly the due subscriptions of the object, each then remembering what it was told |
| Application.Application.HandleReadProperty | simulator/application.go:116-130 | the values read, or the error under its class and code |
| Application.Application.HandleWriteProperty | simulator/application.go:132-149 | an array index is refused; otherwise the reply tells the write's outcome and is followed by exactly the due notifications |
| Application.Application.ValidateAll | simulator/application.go:165-183 | the nested loops find the first refused write of the request |
| Application.Application.ApplyAllWrites | simulator/application.go:185-202 | the nested loops apply the fold of all writes, or up to the first that fails, and list the objects written once each |
| Application.Application.HandleWritePropertyMultiple | simulator/application.go:156-209 | the reply names the first failed write or acknowledges; only then are exactly the due subscriptions of the written objects notified, each once and in order; world and replies are those of the value model |
| Turns.ReportsAreNotices | simulator/application.go:304-332 | being due, listed in order and numbered determines the notifications of an object: there is one such list |
| Application.Application.HandleSubscribeCov | simulator/application.go:260-302 | unknown objects and objects without Present_Value are told apart; a subscription enters both tables and is announced at once with its full lifetime; a cancellation leaves both tables |
| ReadAll.Expand | simulator/application.go:426-455 | ALL on a known object becomes the ascending list of its stored and computed properties, which is unique; anything else is left as it is |
| ReadAll.AllIsReadable | simulator/application.go:426-455 | ALL names exactly the properties the device can read |
| ReadAll.AllIsOnce | simulator/application.go:437-448 | and each once, when no stored property has the number of a computed one |
| Scenario.Normalized | simulator/scenario.go:385-428 | a normalized value has the tag of its kind of object; binary values are 0 or 1 and multi-state values at least 1 |
| Scenario.NumbersNormalize | simulator/scenario.go:385-428 | a configured number is the value it stands for, exactly where the kind of object can have it |
| Scenario.WordsNormalize | simulator/scenario.go:385-428 | the words for on and off, in any case |
| Scenario.BinaryKinds | simulator/scenario.go:362-383 | the type numbers of the named kinds of object |
| Scenario.MultiStateKinds | simulator/scenario.go:362-383 | the same for multi-state objects |
| Configured.ConfiguredStays | simulator/scenario.go:262-338 | after every run of requests the name, identifier, type, description, units, number of states and relinquish default of an object read as configured |
| Configured.DeviceStays | simulator/scenario.go:226-260 | so do the device object's properties, and Object_List names the device and all objects in the order configured |
| Configured.StartsAsConfigured | simulator/scenario.go:285-312 | a built commandable object starts with the configured value in exactly the configured slot, 16 when none is, and shows it; without one it shows its relinquish default |
| Configured.LocalTimeReads | simulator/model.go:398-414 | after every run Local_Date and Local_Time read as the last time synchronization said, and are unknown before the first |
| Scenario.ValidatedObjectBuildsIff | simulator/scenario.go:262-338 | a validated object fails to build if and only if it is commandable, not multi-state, and has a relinquish default that does not normalize |
| Scenario.ValidatedObjectMayNotBuild | simulator/scenario.go:285-293 | an object that validation accepts and building refuses |
| ScenarioRuns.BuiltObjectIsSound | simulator/scenario.go:262-312 | a built object starts with Present_Value of its tag and inside its states |
| ScenarioRuns.PresentValueStaysFit | simulator/scenario.go:226-338 | for every device built from a validated scenario and every run of requests, Present_Value reads as exactly one non-NULL value of the expected tag, within 1..Number_Of_States for multi-state objects |
| ScenarioRuns.BuiltDeviceObeysPriorities | simulator/scenario.go:285-302 | on a built device, after every run of requests (single writes, batches whole or cut short, time synchronization), slot 6 reads NULL and Present_Value follows Priority_Array and Relinquish_Default |
| ScenarioCheck.Validate | simulator/scenario.go:95-174 | the early-return validator accepts exactly the scenarios that fit, duplicates of devices, endpoints and objects included |
| ScenarioCheck.FieldErrors | gui/internal/scenariodoc/check.go:58-183 | the collecting validator reports exactly the faulty fields, all of them |
| ScenarioCheck.ValidatorsAgree | gui/internal/scenariodoc/check.go:58-183 | Validate accepts a scenario if and only if FieldErrors reports nothing and every configured value normalizes |
| ScenarioCheck.DuplicateIffSameKey | gui/internal/scenariodoc/check.go:121-135 | two objects have the same textual key exactly when they have the same type number and instance |
| Transactions.KeysAreInjective | bacnet/transaction.go:17-21 | keys of different addresses or numbers differ, whatever the text of the addresses |
| Transactions.GrantedIffAvailable | bacnet/transaction.go:30-63 | an ID is granted if and only if fewer than 255 are reserved for the address, and it was not reserved |
| Transactions.OthersUntouched | bacnet/transaction.go:30-76 | allocations and releases for one address change nothing for another |
| Transactions.NoIdComesRoundEarly | bacnet/transaction.go:41-60 | in every history, between two successive grants of an ID every other ID was granted or found reserved by a scan |
| Transactions.TransactionTable.TryGetInvokeId | bacnet/transaction.go:30-63 | the wrap-around scan over textual keys grants the first free ID in cyclic order, or reports a missing address or exhaustion and changes nothing |
| Transactions.TransactionTable.ReleaseInvokeId | bacnet/transaction.go:65-76 | exactly one reservation goes; a missing address or ID zero changes nothing |
| ServerHandlers.HandlerTable.Set | bacnet/server.go:345-358 | the table keyed by text gains one handler, and no other key is affected |
| ServerHandlers.HandlerTable.Remove | bacnet/server.go:360-369 | exactly one handler goes |
| ServerHandlers.HandlerTable.Take | bacnet/server.go:371-392 | the handler of the sender and ID takes the message unless the service differs, and loses its entry in the same section |
| Client.Client.SetConfirmedService | bacnet/request.go:82-96 | takes the acquire step: an ID is reserved, or stays zero on a nil address or exhaustion; an address of no octets reserves one and is not remembered |
| Client.Client.Send | bacnet/request.go:147-176 | takes the register step |
| Client.Client.Receive | bacnet/server.go:260-274 | takes the deliver step; what is found and what is queued are told apart |
| Client.Client.ReleaseAfterDelivery | bacnet/server.go:268-268 | takes the dispatcher's release step |
| Client.Client.RemoveConfirmedHandler | bacnet/request.go:194-197 | takes the first half of the cleanup |
| Client.Client.ReleaseId | bacnet/request.go:198-207 | takes the second half of the cleanup |
| ClientProtocol.EveryRun | bacnet/server.go:229-392 | in every interleaving each reserved ID is held by a request or was reserved for no octets, each registration receives at most one message, a message is dropped for lack of room only after another reached the same request, and every SimpleACK, ComplexACK or Error delivered matches the address, ID and service registered |
| ClientDelivery.DeliveredIffAnswers | bacnet/server.go:371-392 | in every run, a message under the key of a registration that stands (not since replaced, answered or cleaned up) is delivered to it if and only if it is of the service registered or carries none; then the handler goes, the release is to come and the request has its answer; otherwise nothing changes |
| ClientDelivery.StrayIsIgnored | bacnet/server.go:371-381 | a message under any other key changes nothing |
| ClientDelivery.HandledStands | bacnet/server.go:345-392 | every handler belongs to a registration that stands |
| ClientDelivery.RequestsAreCalls | bacnet/request.go:82-96 | each request is matched by the service of its own SetConfirmedService call for good |
| ClientProtocol.QueuedIffReceived | bacnet/server.go:311-318 | in every run, whatever finds a handler is handed to the request that registered it, and is queued if and only if that request has received everything handed to it before |
| ClientProtocol.FullIffUnreceived | bacnet/server.go:311-318 | in every run, a request's channel is full exactly while a message handed to it has not been received |
| ClientProtocol.FirstMatchIsQueued | bacnet/server.go:311-318 | in particular, a request that sends once never loses its answer |
| ClientProtocol.SecondSendMayBeDropped | bacnet/server.go:311-318 | for a request that sends twice it may be: the answer to the first Send fills the channel |
| ClientProtocol.NothingLeaks | bacnet/request.go:58-207 | once every request is released no ID is reserved, if and only if none was asked for with an address of no octets that is not nil; and no handler is left in any run whose Sends all go where they reserved or where another request in flight has the same ID |
| ClientProtocol.EmptyAddressLeaks | bacnet/request.go:82-96 | an ID asked for with such an address stays reserved after the cleanup |
| ClientProtocol.RegisterKeepsOwnershipIff | bacnet/request.go:147-176 | a step keeps every handler owned if and only if it is not a Send to neither the reserved address nor one where another request in flight has the same ID |
| ClientProtocol.UnownedSendLeaks | bacnet/request.go:147-207 | from any state, after such a Send every request can clean up and its handler is still there |
| ClientProtocol.NoHandlerLeaksIff | bacnet/request.go:147-207 | over every run: wherever it is stopped and every request cleans up no handler is left, if and only if the run has no such Send |
| ClientProtocol.MisaddressedSendLeaks | bacnet/request.go:147-207 | a Send to another address than reserved leaves a handler behind after every request is released |
| ClientProtocol.ResendLeaks | bacnet/request.go:194-207 | so does a second Send after a failed one, because the cleanup has cleared the address |
| ClientExclusivity.CarefulRunIsExclusive | bacnet/request.go:147-207 | in every run that grants no ID between a response's delivery and the later of its two releases, and whose deliveries go to the holder of the ID or find nobody waiting for it, no two unreleased requests to one address share an invoke ID, wherever they are sent |
| ClientExclusivity.OrderlyStep | bacnet/server.go:371-392 | a step that grants nothing inside a window keeps the order that exclusivity rests on if and only if it is not such a delivery |
| ClientExclusivity.PatientRunIsExclusive | bacnet/request.go:147-207 | in runs that send where they reserved, the window is the only condition |
| ClientExclusivity.HarmIsNeeded | bacnet/server.go:371-392 | from any orderly state, a delivery to another request while one still waits for the ID can be continued to two unreleased requests that share it, the last grant finding its window closed |
| ClientExclusivity.PatientRunMayCollide | bacnet/request.go:147-176 | such a run from the start, with every grant outside its window |
| ClientExclusivity.WindowIsNeeded | bacnet/server.go:260-274 | from any orderly state, a grant inside that window can be continued, through the real cyclic allocator, to two unreleased requests that share the ID |
| ClientExclusivity.CollisionIsReachable | bacnet/server.go:268-268 | and such a collision is reachable from the start |
| Responder.ServeLoop | bacnet/responder/server.go:124-128 | the responses are written in order up to the first that cannot be |
| Responder.OneTerminalReplyFirst | bacnet/responder/server.go:84-251 | the responder by itself: whatever handler answers with a terminal reply and then requests of its own, the terminal reply goes out first, to the source, along its route and with its invoke ID, a ComplexACK beyond the requester's size as an Abort, and the rest to their own endpoints |
| Responder.TerminalIsWritten | bacnet/responder/server.go:139-251 | a terminal reply whose error payload fits a datagram is always written, and answers the request |
| Responder.ReplyArrives | bacnet/responder/server.go:139-251 | the reply decodes at the client to the packet that was sent if and only if its payload is one the client's decoder takes |
| SimulatorAnswers.EveryConfirmedRequestIsAnswered | bacnet/responder/server.go:84-274 | for every device built from a validated scenario, after every run of datagrams, a confirmed request that parses gets exactly one terminal reply, first, to its source, with its invoke ID and within its size, followed by COV notifications only, if and only if its routing source is sound; otherwise it gets nothing |
| SimulatorAnswers.HandlerAnswers | simulator/application.go:116-302 | ReadProperty, ReadPropertyMultiple, WriteProperty, WritePropertyMultiple and SubscribeCOV, malformed payloads, segmented requests and unknown services: every one is answered, so the handlers' error returns are never taken |
| SimulatorAnswers.AnsweredIffRouted | bacnet/responder/server.go:253-274 | the same from any world whose values fit and encode |
| SimulatorRuns.ArrivalIsEvent | bacnet/responder/server.go:84-130 | every datagram, whatever its octets, moves the application as the request it carries, and as nothing if it carries none |
| ClientView.EncodedWriteAsks | bacnet/pdu/write_property.go:14-39 | the request a client's WriteProperty datagram carries is that write |
| ClientView.EncodedBatchAsks | bacnet/pdu/write_property_multiple.go:39-149 | the request a client's WritePropertyMultiple datagram carries is the batch of its own writes, all objects in order |
| ClientView.EncodedSubscribeAsks | bacnet/pdu/cov_request.go:36-113 | the request a client's SubscribeCOV datagram carries is that subscription or cancellation, under the client's endpoint |
| ClientView.EncodedTimeAsks | simulator/application.go:107-114 | the request of a time synchronization is the date and time it carries |
| ClientView.MalformedIsRejected | simulator/application.go:116-166 | a payload its decoder refuses changes nothing and is rejected, for an invalid tag, or for a parameter out of range where only a priority is wrong |
| SimulatorRuns.DatagramsAreEvents | bacnet/responder/server.go:68-82 | every run of datagrams is the run of the requests they carry, so the deadband, the lifetimes and the fit of Present_Value hold over datagrams |
| CovEndToEnd.DatagramsArePlayed | bacnet/responder/server.go:68-130 | with the invoke IDs, so the replies of the run are those of the value model |
| SimulatorRuns.NextIsGood | simulator/services.go:519-555 | every datagram keeps Present_Value fit and everything on the device encodable |
| Encodable.ReadEncodes | simulator/services.go:519-541 | whatever is read of such a device, stored or computed, with or without index, can be encoded |
| Encodable.BuiltDeviceEncodes | simulator/scenario.go:226-260 | a built device starts with it |
| DeviceValues.ThroughTheDevice | simulator/services.go:519-555 | a value of any type that goes into the device and out again is the same, with plain characters |
| EndToEnd.WriteEndToEnd | bacnet/pdu/write_property.go:14-39 | the client's WriteProperty, encoded, sent, decoded, handled and answered: the device takes exactly that write and the client decodes its outcome |
| EndToEnd.ReadEndToEnd | bacnet/pdu/read_property.go:14-31 | the client's ReadProperty, there and back: nothing changes, and the reply is the values, an Abort when they exceed what the requester takes, or the device's error; the client decodes the last two always and well-formed values, as the device has them, if and only if there is one |
| EndToEnd.WrittenIsReadBack | simulator/model.go:416-431 | two datagram exchanges: a client that writes a property that is not commandable is acknowledged, and the next client that reads it decodes the values written, or an Abort when they exceed what it takes |
| EndToEndMultiple.WriteMultipleEndToEnd | simulator/application.go:156-231 | the client's WritePropertyMultiple, encoded, sent, decoded, handled and answered: the device becomes what its own writes, all objects in order, make of it as a batch, and the client decodes success or the first failed write with its object, property, index and error |
| EndToEndMultiple.ReadMultipleEndToEnd | simulator/application.go:233-258 | the client's ReadPropertyMultiple: one result per object and per reference it stands for, in order, each what a ReadProperty of the same object, property and index returns; or an Abort when that exceeds what the client takes |
| ClientView.SubscribeEndToEnd | simulator/application.go:260-302 | the client's SubscribeCOV: the application takes exactly what the request carries, the client is told the outcome, and a subscription is announced at once with Present_Value and its whole lifetime, confirmed or not as asked |
| CovEndToEnd.NoticeArrives | simulator/services.go:472-517 | the subscriber decodes the process identifier, device, object, time left and values of the notice from a packet to its endpoint |
| CovEndToEnd.NoticesAreSent | bacnet/responder/server.go:124-128 | after the reply to a confirmed request exactly the notices of its turn go out, in order, each as such a packet |
| ClientView.SubscriberHearsIff | simulator/application.go:304-362 | over every run of datagrams, a subscriber gets a notification packet under exactly the condition of CovLog.NoticeIffMoved |
| WireFormat.WriteMultiple | bacnet/pdu/write_property_multiple_test.go:36-60 | the octets of a WritePropertyMultiple of two objects, one with a priority |
| WireFormat.Properties | bacnet/types/property_codec_test.go:40-77 | the octets of a property bare, with an index and with values |
| WireFormat.Subscriptions | bacnet/cov_request_test.go:33-67 | the octets of two subscriptions and a cancellation |
| WireFormat.Apdus | bacnet/pdu/apdu_codec_test.go:16-20 | the octets of an APDU of five types |
| WireFormat.NetworkHeaders | bacnet/pdu/npci_codec_test.go:12-50 | the octets of a local and a routed network header |
| WireFormat.TagHeaders | bacnet/types/codec_test.go:94-98 | the octets of extended tag numbers and lengths |
| WireFormat.DateAndTime | bacnet/pdu/time_sync_test.go:21-21 | the octets of a date and a time |
| WireFormat.ReadMultiple | bacnet/pdu/read_property_multiple_test.go:28-34 | the octets of a ReadPropertyMultiple request with an index |
| WireFormat.ReadAck | bacnet/pdu/read_property_multiple_test.go:69-85 | the octets of an acknowledgement with a value and an error |
| WireFormat.Notifications | bacnet/pdu/cov_codec_test.go:121-127 | the octets of a COV notification |
| WireFormat.Refusals | simulator/application.go:467-486 | the octets of the Error each refusal is answered with |
| Responder.RouteIsOwnIff | bacnet/responder/server.go:148-153 | everything a request causes goes back along that request's route; for a notification this is its subscriber's own route if and only if both requests came from the same network and address |
| SimulatorAnswers.NotificationRoutes | bacnet/responder/server.go:139-160 | the same for whatever the simulator sends in answer to a datagram |
| Responder.NotificationIsShort | simulator/services.go:472-517 | a notification of one number takes at most 64 octets |
| Responder.WriteErrorIsShort | simulator/application.go:214-231 | so does a WritePropertyMultiple error |

## Left out

- Sockets, listeners, contexts, timeouts and goroutines: a section under a lock is one atomic step, and `sync.Pool` is allocation. COV and unconfirmed handler dispatch (bacnet/server.go:394-531) are not modelled.
- `Server.SetConfirmedHandler`, which registers a handler without a service to match, is not a step of the protocol; every registration is one made by Send.
- ClientProtocol.NothingLeaks: is about runs in which no datagram comes from, and no address reads as, the text of an address without octets.
- Clocks: every handled request sees one reading of the clock. Real and Double are opaque bit patterns in the codec and real numbers, without NaN or rounding, in the device; what pattern stands for what number is a parameter. The `native` flag of a Real keeps apart the two Go types that compare unequal.
- `interface{}` values that do not match their tag, the panic of covChanged on a nil value under a numeric tag, and reflect conversions: values are tagged by construction.
- Device.Device: has no method for SetLocalTime, which replaces two properties of the device object; it is modelled on values only (Model.SetLocalTime, Cov.Handled), so its update in place and its aliasing are not captured.
- BuiltObject, BuiltDevice: building is modelled on values, not as filling a graph of objects in place.
- Simulator.Handle: joins decoders, handlers and encoders as values; the handlers in place are the methods of Application.Application, which are proved to take the same turns. A COV notification whose encoding fails is skipped by the source and would leave the whole request unanswered here; SimulatorAnswers proves that it never fails.
- `propertyResultValueBounds` (bacnet/pdu/read_property_multiple.go:560-593) has the body of `propertyValueBounds`; one method, TagScanner.PropertyValueBounds, stands for both.
- Who-Is, I-Am, Who-Has and I-Have: whether the discovery decoders accept a payload, and what the simulator replies to the two queries, are parameters.
- Network of devices, BuildNetwork, defaults, YAML and JSON reading, file saving, the GUI other than check.go, the CLI: they wire the parts above together, fill in missing fields, and move scenarios between files, forms and the screen.
- Text: trimming and case folding are those of ASCII; endpoints and addresses are their text; a character stands for one octet of a Go string.
