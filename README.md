# Bluetooth discovery, card profiles and sample specifications, in Dafny

This project models three parts of an early PulseAudio tree and proves properties about them.

- **The Bluetooth discovery layer** (`src/modules/bluetooth/bluetooth-util.c`). It covers:
  - the audio and transport state mappings;
  - the discovery object's device map and transport map, with the per-profile transport slots of each device pointing into the transport map;
  - the effect of each daemon property on a device or a transport;
  - the media-endpoint calls `SetConfiguration`, `ClearConfiguration` and `SelectConfiguration`, including the SBC codec negotiation;
  - device removal;
  - the two utilities `pa_bluetooth_cleanup_name` and `pa_bluetooth_get_form_factor`, and the UUID membership walk `pa_bluetooth_uuid_has`.
- **Card profiles** (`src/pulsecore/card.c`):
  - a new profile's defaults;
  - the replace semantics of the card-creation data;
  - the choice of the active profile when a card is created;
  - `pa_card_set_profile`.
- **Sample specifications** (`src/sample.c`): frame size, byte rate, validity and equality.

Modules, one per file:

| file | module | contents |
|---|---|---|
| `common.dfy` | `Common` | `Option`, byte and fixed-width integer subset types, `Min`/`Max` |
| `bt_types.dfy` | `BtTypes` | states, profiles, endpoints, the `Device` and `Transport` records, state mappings, readiness |
| `bt_uuids.dfy` | `BtUuids` | case-insensitive UUID comparison, `pa_bluetooth_uuid_has`, the effect of a `UUIDs` property |
| `bt_names.dfy` | `BtNames` | `pa_bluetooth_cleanup_name`, `pa_bluetooth_get_form_factor` |
| `bt_codec.dfy` | `BtCodec` | `a2dp_default_bitpool` and `endpoint_select_configuration` |
| `bt_discovery.dfy` | `BtDiscovery` | the property effects and the `Discovery` class, which holds the device map, the transport map and the event log |
| `cards.dfy` | `Cards` | `CardProfile`, the classes `CardNewData` and `Card`, profile choice and switching |
| `sample.dfy` | `Sample` | `SampleSpec` arithmetic, validity, equality |

How the model represents the C code:

- A device's transport slots hold the path of the transport, which is its key in the transport map, instead of a pointer. The class invariant `Consistent` says the two directions agree: every occupied slot names a transport of that device and profile, and every transport sits in its device's slot.
- Hooks fired with `pa_hook_fire` and the asynchronous `GetProperties` calls are appended, in order, to the `events` log.
- D-Bus arguments arrive already decoded:
  - as a `PropertyArg`, which is `Malformed` when `check_variant_property` fails;
  - as `TransportProperties`;
  - as `SelectArgs`.
- A card's profile hashmap is a sequence in iteration order with distinct names.
- The card's `set_profile` callback is a boolean parameter: its verdict.
- Constants from headers that are not part of this model:
  - `HSP_MAX_GAIN` = 15, `MIN_BITPOOL` = 2, `MAX_BITPOOL` = 64, the `SBC_*` bits and the audio UUIDs take the values of the Bluetooth and A2DP specifications;
  - the `pa_sample_format` numbering, with `PA_SAMPLE_U8` = 0, is the declaration order of the C enum in `sample.h`, which is not part of this model. It is assumed, not taken from any specification.

## Model

| member | source | states |
|---|---|---|
| `BtTypes.AudioStateFromString` | src/modules/bluetooth/bluetooth-util.c:81-94 | a valid result is the state whose name is the string; Invalid exactly when no state has that name |
| `BtTypes.AudioStateNameRoundTrip` | src/modules/bluetooth/bluetooth-util.c:81-94 | parsing the name of any valid state gives that state back |
| `BtTypes.ProfileFromInterface` | src/modules/bluetooth/bluetooth-util.c:113-132 | inverse of the per-profile interface name; None exactly for interfaces that belong to no profile |
| `BtTypes.TransportStateOf` | src/modules/bluetooth/bluetooth-util.c:134-147 | disconnected iff the audio state is below connected; idle iff connected; playing iff playing |
| `BtTypes.TransportStateMonotone` | src/modules/bluetooth/bluetooth-util.c:134-147 | a more advanced audio state never gives a less advanced transport state |
| `BtTypes.NewDevice` | src/modules/bluetooth/bluetooth-util.c:166-195 | a new device is alive, info pending, class -1, with unknown flags, no UUIDs, every state Invalid and every slot empty |
| `BtTypes.NewTransport` | src/modules/bluetooth/bluetooth-util.c:1202-1221 | a new transport's state is the mapped state of the device's profile; NREC off and both gains 0 |
| `BtTypes.DeviceIsAudioReady` | src/modules/bluetooth/bluetooth-util.c:236-249 | ready iff the info fetch is no longer pending (a failed fetch counts), the aggregate state is valid and some profile state is valid |
| `BtTypes.AnySlotValid` | src/modules/bluetooth/bluetooth-util.c:244-246 | the slot scan finds a valid state iff one exists from the start index on |
| `BtTypes.AnyAudioConnected` | src/modules/bluetooth/bluetooth-util.c:1061-1084 | connected exactly when the device is alive and audio-ready and the aggregate state, the A2DP-source slot or the handsfree-gateway slot is at least connected |
| `BtTypes.NewDeviceNotReady` | src/modules/bluetooth/bluetooth-util.c:166-195 | a device just created is neither ready nor connected |
| `BtTypes.SinkAndHeadsetIgnored` | src/modules/bluetooth/bluetooth-util.c:1061-1084 | once valid, the A2DP-sink and headset slot states do not affect connectedness |
| `BtTypes.EndpointProfile` | src/modules/bluetooth/bluetooth-util.c:1293-1300 | each endpoint fills exactly one profile slot, both directions |
| `BtTypes.PerProfile.Set` | src/modules/bluetooth/bluetooth-util.c:217 | writing a slot changes that slot and no other |
| `BtTypes.AllProfilesListsEveryProfile` | src/modules/bluetooth/bluetooth-util.c:213-214 | the slot loops visit every profile |
| `BtUuids.UuidHas` | src/modules/bluetooth/bluetooth-util.c:1789-1800 | the walk returns true iff some list element equals the UUID ignoring case |
| `BtUuids.UuidsAfterCovers` | src/modules/bluetooth/bluetooth-util.c:427-446 | the UUID list only grows at the front, holds every announced UUID afterwards, and nothing else |
| `BtUuids.UuidsAfterKeepsKnown` | src/modules/bluetooth/bluetooth-util.c:442-443 | the UUIDs already known stay, as the tail of the new list |
| `BtUuids.UuidsAfterHasAll` | src/modules/bluetooth/bluetooth-util.c:437-443 | every announced UUID is known afterwards |
| `BtUuids.UuidsAfterOnlyAnnounced` | src/modules/bluetooth/bluetooth-util.c:437-443 | every UUID known afterwards was known before or announced |
| `BtUuids.StillKnown` | src/modules/bluetooth/bluetooth-util.c:437-440 | a known UUID stays known whatever is announced next |
| `BtUuids.UuidsAfterDistinct` | src/modules/bluetooth/bluetooth-util.c:438-444 | a list without case-insensitive duplicates stays without them |
| `BtUuids.KnownUuidsAreNoOp` | src/modules/bluetooth/bluetooth-util.c:438-440 | announcing only known UUIDs changes the list not at all and fires nothing |
| `BtUuids.UuidPropertyIdempotent` | src/modules/bluetooth/bluetooth-util.c:427-480 | the same UUIDs property delivered twice: the second delivery changes nothing and fires nothing |
| `BtUuids.A2dpSinkAnnouncement` | src/modules/bluetooth/bluetooth-util.c:443-476 | a fresh device announcing the A2DP-sink UUID fires the UUID hook, then an AudioSink fetch, then an Audio fetch |
| `BtUuids.SameUuid` | src/modules/bluetooth/bluetooth-util.c:1793 | strcasecmp(a, b) == 0: equal strings match, and matching strings have the same length |
| `BtUuids.ProfileForUuid` | src/modules/bluetooth/bluetooth-util.c:450-466 | a profile is queried exactly for the six audio UUIDs, ignoring case; the HandsfreeGateway interface exactly for the two gateway UUIDs |
| `BtUuids.ProfileForUuidByClass` | src/modules/bluetooth/bluetooth-util.c:450-466 | the headset UUIDs query Headset, the A2DP sink UUID AudioSink and the A2DP source UUID AudioSource, whatever the order of the tests |
| `BtUuids.UuidsAfter` | src/modules/bluetooth/bluetooth-util.c:430-446 | the loop never drops a UUID and adds at most one per announced UUID |
| `BtUuids.SameUuidSymmetric` | src/modules/bluetooth/bluetooth-util.c:1793 | case-insensitive comparison is symmetric |
| `BtNames.SkipLeading` | src/modules/bluetooth/bluetooth-util.c:1764-1765 | the result is a suffix of the input that does not start with a junk byte |
| `BtNames.Scan` | src/modules/bluetooth/bluetooth-util.c:1769-1782 | the compacted output, plus one pending space, is never longer than the input consumed |
| `BtNames.CleanupName` | src/modules/bluetooth/bluetooth-util.c:1758-1787 | the loops compute the cleaned name of the specification function |
| `BtNames.Compact` | src/modules/bluetooth/bluetooth-util.c:1767-1784 | the in-place rewrite with read and write indices gives the compaction of the input |
| `BtNames.CleanedNameShape` | src/modules/bluetooth/bluetooth-util.c:1758-1787 | the cleaned name is no longer than the input, keeps its non-separator bytes in order, has separators only as single inner spaces, and has no '_' |
| `BtNames.ScanShape` | src/modules/bluetooth/bluetooth-util.c:1769-1782 | compaction keeps the non-separator bytes, never ends in a separator, and writes separators only as single spaces before a kept byte |
| `BtNames.ScanSpacing` | src/modules/bluetooth/bluetooth-util.c:1769-1782 | the compacted name holds separators only as single spaces before a kept byte and never ends in one |
| `BtNames.ScanKeeps` | src/modules/bluetooth/bluetooth-util.c:1769-1782 | compaction keeps exactly the non-separator bytes, in order |
| `BtNames.KeptAppend` | src/modules/bluetooth/bluetooth-util.c:1769-1782 | the kept bytes of a concatenation are the concatenation of the kept bytes |
| `BtNames.SkipLeadingKeepsKept` | src/modules/bluetooth/bluetooth-util.c:1764-1765 | skipping leading junk removes no non-separator byte |
| `BtNames.UnderscorePrefixGivesLeadingSpace` | src/modules/bluetooth/bluetooth-util.c:1764-1773 | the first loop does not skip '_', so a name starting with it is cleaned to a leading space |
| `BtNames.FormFactorAsWritten` | src/modules/bluetooth/bluetooth-util.c:1729-1756 | the lookup reads past the table exactly for major class Audio/Video with minor class 11 |
| `BtNames.FormFactorReadsPastTable` | src/modules/bluetooth/bluetooth-util.c:1747-1750 | Class of Device 0x42C indexes entry 11 of an 11-entry table |
| `BtNames.FormFactor` | src/modules/bluetooth/bluetooth-util.c:1729-1756 | a label exists iff the major class is Audio/Video and the minor class names one; it is that table entry |
| `BtNames.FormFactorAgreesElsewhere` | src/modules/bluetooth/bluetooth-util.c:1747-1755 | the corrected lookup agrees with the original on every other Class of Device |
| `BtCodec.DefaultBitpool` | src/modules/bluetooth/bluetooth-util.c:1363-1406 | the default bitpool is always within [MIN_BITPOOL, MAX_BITPOOL] |
| `BtCodec.DefaultBitpoolIsHighQuality` | src/modules/bluetooth/bluetooth-util.c:1363-1406 | at 44.1 and 48 kHz the default is the A2DP high-quality bitpool of the channel mode |
| `BtCodec.DefaultBitpoolFallbacks` | src/modules/bluetooth/bluetooth-util.c:1363-1406 | 53 at 16 and 32 kHz for any mode; for an unknown channel mode 53 at 44.1 kHz and 51 at 48 kHz; 53 for an unknown frequency |
| `BtCodec.FirstOffered` | src/modules/bluetooth/bluetooth-util.c:1485-1510 | a preference chain yields 0 iff the capability offers none of its bits |
| `BtCodec.FirstOfferedIsFirst` | src/modules/bluetooth/bluetooth-util.c:1485-1510 | a non-zero choice is offered and every more preferred bit is not |
| `BtCodec.FirstOfferedOfTwo` | src/modules/bluetooth/bluetooth-util.c:1498-1510 | the two-way if-chain |
| `BtCodec.FirstOfferedOfFour` | src/modules/bluetooth/bluetooth-util.c:1471-1492 | the four-way if-chain |
| `BtCodec.StereoModePreference` | src/modules/bluetooth/bluetooth-util.c:1471-1480 | joint stereo, stereo, dual channel, mono, in that order |
| `BtCodec.BlockLengthPreference` | src/modules/bluetooth/bluetooth-util.c:1485-1492 | block length 16, 12, 8, 4, in that order |
| `BtCodec.LowestAtLeast` | src/modules/bluetooth/bluetooth-util.c:1443-1447 | the forward scan stops at the first offered rate at or above the requested one |
| `BtCodec.HighestOffered` | src/modules/bluetooth/bluetooth-util.c:1449-1461 | the backward scan stops at the last offered rate |
| `BtCodec.FrequencyIndex` | src/modules/bluetooth/bluetooth-util.c:1443-1463 | the index is -1 or a table index |
| `BtCodec.FrequencyRule` | src/modules/bluetooth/bluetooth-util.c:1443-1463 | -1 iff nothing is offered; otherwise the lowest offered rate at or above the request, else the highest offered rate |
| `BtCodec.FreqRatesAscending` | src/modules/bluetooth/bluetooth-util.c:1419-1424 | the frequency table is in ascending order |
| `BtCodec.ChooseFrequency` | src/modules/bluetooth/bluetooth-util.c:1443-1463 | the two loops compute the frequency index of the specification |
| `BtCodec.ChooseChannelMode` | src/modules/bluetooth/bluetooth-util.c:1465-1484 | the channel-mode step computes ChannelMode |
| `BtCodec.ChooseBlockLength` | src/modules/bluetooth/bluetooth-util.c:1485-1497 | the block-length step picks the first offered of 16, 12, 8, 4 |
| `BtCodec.ChooseSubbands` | src/modules/bluetooth/bluetooth-util.c:1498-1505 | the subbands step picks 8, then 4 |
| `BtCodec.ChooseAllocation` | src/modules/bluetooth/bluetooth-util.c:1507-1510 | the allocation step picks loudness, then SNR, else leaves 0 |
| `BtCodec.NegotiateSbc` | src/modules/bluetooth/bluetooth-util.c:1440-1513 | a chosen configuration has a rate of freq_table, a minimum bitpool at least MIN_BITPOOL and a maximum at most MAX_BITPOOL |
| `BtCodec.SelectConfiguration` | src/modules/bluetooth/bluetooth-util.c:1408-1529 | the reply is the one Negotiate specifies: rejected for non-byte-array arguments, the uninitialised record on HFP endpoints, else the SBC negotiation |
| `BtCodec.SelectedWithinCapabilities` | src/modules/bluetooth/bluetooth-util.c:1443-1513 | every selected field is a single offered bit, the channel mode is 0 only for mono output without mono, the minimum bitpool is max(MIN_BITPOOL, offered minimum) and the maximum is min(default bitpool, offered maximum) |
| `BtCodec.RejectedExactly` | src/modules/bluetooth/bluetooth-util.c:1408-1529 | an A2DP selection fails exactly when no frequency, no stereo mode for stereo output, no block length or no subband count is offered |
| `BtCodec.FullCapabilitiesAt44100` | src/modules/bluetooth/bluetooth-util.c:1443-1513 | a full capability at 44.1 kHz stereo selects 44.1 kHz, joint stereo, 16 blocks, 8 subbands, loudness, bitpool 2..53 |
| `BtCodec.HighRateFallsBack` | src/modules/bluetooth/bluetooth-util.c:1449-1461 | 48 kHz requested from a 16/32 kHz device selects 32 kHz |
| `BtDiscovery.ConsistentIsBijection` | src/modules/bluetooth/bluetooth-util.c:1313-1314 | under the invariant, occupied slots and transports correspond one to one |
| `BtDiscovery.EmptyConsistent` | src/modules/bluetooth/bluetooth-util.c:1594-1595 | the empty store satisfies the invariant |
| `BtDiscovery.UpdateDeviceKeepsConsistent` | src/modules/bluetooth/bluetooth-util.c:356-484 | rewriting a device record with the same path and slots keeps the invariant |
| `BtDiscovery.UpdateTransportKeepsConsistent` | src/modules/bluetooth/bluetooth-util.c:856-884 | rewriting a transport with the same path, device and profile keeps the invariant |
| `BtDiscovery.AddDeviceKeepsConsistent` | src/modules/bluetooth/bluetooth-util.c:614-635 | adding a device with empty slots keeps the invariant |
| `BtDiscovery.AddTransportKeepsConsistent` | src/modules/bluetooth/bluetooth-util.c:1302-1314 | filling an empty slot with a transport of a fresh path keeps the invariant |
| `BtDiscovery.ClearSlotKeepsConsistent` | src/modules/bluetooth/bluetooth-util.c:1344-1347 | emptying an occupied slot and dropping its transport keeps the invariant |
| `BtDiscovery.RemoveEmptyDeviceKeepsConsistent` | src/modules/bluetooth/bluetooth-util.c:206-234 | a device whose slots are all empty can be removed, and no transport refers to it |
| `BtDiscovery.NoDevicesNoTransports` | src/modules/bluetooth/bluetooth-util.c:603-612 | under the invariant, no devices means no transports |
| `BtDiscovery.Int32FromUint32` | src/modules/bluetooth/bluetooth-util.c:409-415 | the class is the uint32 value wrapped into a 32-bit int |
| `BtDiscovery.DevicePropertyEffect` | src/modules/bluetooth/bluetooth-util.c:356-484 | -1 iff malformed, changing nothing; Name, Alias, Address, Paired, Trusted and Class replace their field and change nothing else; UUIDs gives UuidsAfter's list and UuidPropertyEvents' events; an unknown key, or a known key with another type, returns 0 and changes nothing |
| `BtDiscovery.AudioPropertyEffect` | src/modules/bluetooth/bluetooth-util.c:486-591 | only state and gains of the slot's transport change; unknown interfaces are ignored; -1 changes nothing; the result is 0 or -1; an unknown key, or a known key with another type, returns 0 and changes nothing |
| `BtDiscovery.GainClamped` | src/modules/bluetooth/bluetooth-util.c:554-583 | a gain becomes min(value, HSP_MAX_GAIN), the other gain is kept, and one event fires iff the stored gain changes |
| `BtDiscovery.GainWithoutTransport` | src/modules/bluetooth/bluetooth-util.c:554-583 | a gain with no transport to act on returns -1 and changes nothing |
| `BtDiscovery.StateProperty` | src/modules/bluetooth/bluetooth-util.c:519-548 | a valid State sets the aggregate or the profile state, moves the slot's transport to the mapped state, and fires one event iff that changes |
| `BtDiscovery.StatePropertyIdempotent` | src/modules/bluetooth/bluetooth-util.c:519-548 | the same State delivered twice: the second fires nothing and changes nothing |
| `BtDiscovery.InvalidStateRejected` | src/modules/bluetooth/bluetooth-util.c:519-527 | an unknown state name returns -1 and changes nothing |
| `BtDiscovery.TransportPropertyEffect` | src/modules/bluetooth/bluetooth-util.c:856-884 | -1 iff malformed; only a differing boolean NREC changes the transport, and then exactly one NREC event fires |
| `BtDiscovery.ClearedSlots` | src/modules/bluetooth/bluetooth-util.c:212-221 | the first k slots are empty, the rest as before |
| `BtDiscovery.Discovery.constructor` | src/modules/bluetooth/bluetooth-util.c:1594-1595 | an empty, consistent store |
| `BtDiscovery.Discovery.FoundDevice` | src/modules/bluetooth/bluetooth-util.c:614-635 | a known path changes nothing; an unknown one adds a fresh device and one Device GetProperties call |
| `BtDiscovery.Discovery.DeviceInfoReply` | src/modules/bluetooth/bluetooth-util.c:668-671 | the info flag becomes valid on success and failed on an error reply; nothing else changes |
| `BtDiscovery.Discovery.SetConfiguration` | src/modules/bluetooth/bluetooth-util.c:1223-1327 | fails, changing nothing, on a configured path or bad properties; the device is found or created; succeeds iff the profile slot is empty, putting the same new transport in the map and the slot |
| `BtDiscovery.Discovery.ClearConfiguration` | src/modules/bluetooth/bluetooth-util.c:1329-1361 | succeeds iff the argument is a path; a known transport leaves map and slot with one disconnected-state event; an unknown one changes nothing |
| `BtDiscovery.Discovery.DropTransport` | src/modules/bluetooth/bluetooth-util.c:1344-1349 | the slot is emptied, the transport removed, and one disconnected-state event fires |
| `BtDiscovery.Discovery.RunCallback` | src/modules/bluetooth/bluetooth-util.c:593-601 | a ready device takes the dead flag and fires the connection hook; any other device is left alone |
| `BtDiscovery.Discovery.DeviceFree` | src/modules/bluetooth/bluetooth-util.c:206-234 | every slot's transport leaves the map with a disconnected event, in slot order, the device goes, and no transport refers to it |
| `BtDiscovery.Discovery.RemoveDevice` | src/modules/bluetooth/bluetooth-util.c:902-918 | a known device and exactly its transports are removed, and the log grows by that device's removal events (the connection hook if it was ready, then one disconnected event per occupied slot); an unknown path changes nothing |
| `BtDiscovery.Discovery.RemoveAllDevices` | src/modules/bluetooth/bluetooth-util.c:603-612 | no device and no transport remain; every old device is removed once, and the log grows by the removal events of the devices in that order; each new event is the connection hook of a ready old device or a disconnected event of an old transport; every old transport is announced exactly once |
| `BtDiscovery.Discovery.RemoveOne` | src/modules/bluetooth/bluetooth-util.c:606-611 | run_callback then device_free: the device and exactly its slot transports leave the maps, and the log grows by its removal events |
| `BtDiscovery.RemoveOneSteps` | src/modules/bluetooth/bluetooth-util.c:606-611 | the state after run_callback then device_free is the one-step removal of the device |
| `BtDiscovery.RemoveProgressStart` | src/modules/bluetooth/bluetooth-util.c:603-606 | before the loop nothing is removed and the log is as given |
| `BtDiscovery.RemoveProgressStep` | src/modules/bluetooth/bluetooth-util.c:606-611 | removing one more remaining device extends the removal order and the log by that device's events |
| `BtDiscovery.RemoveProgressDone` | src/modules/bluetooth/bluetooth-util.c:606-612 | when the map is empty, every old device is in the order and the new log is the removal log of that order |
| `BtDiscovery.RemovalLogKinds` | src/modules/bluetooth/bluetooth-util.c:593-612 | the removal log holds only connection hooks of ready removed devices and disconnected events of their transports |
| `BtDiscovery.RemovalLogCount` | src/modules/bluetooth/bluetooth-util.c:603-612 | removing distinct devices announces a transport once if its device was removed, otherwise never |
| `BtDiscovery.RemovalEventsCount` | src/modules/bluetooth/bluetooth-util.c:206-234 | removing one device announces each of its transports exactly once and no other transport |
| `BtDiscovery.RemovalEventsOnlySlots` | src/modules/bluetooth/bluetooth-util.c:593-601 | the connection hook is no transport event, so only the slot loop announces transports |
| `BtDiscovery.HolderIsOwner` | src/modules/bluetooth/bluetooth-util.c:1313-1314 | under the invariant, a transport sits in a device's slots iff it belongs to that device |
| `BtDiscovery.ConsistentSlotsDistinct` | src/modules/bluetooth/bluetooth-util.c:1313-1314 | under the invariant, no transport sits in two slots of one device |
| `BtDiscovery.SlotPathsMembers` | src/modules/bluetooth/bluetooth-util.c:212-221 | the transports freed by the first k slots are exactly those the slots hold |
| `BtDiscovery.SlotEventsCount` | src/modules/bluetooth/bluetooth-util.c:212-221 | with distinct slots, the slot loop announces each freed transport once and no other |
| `BtDiscovery.SlotEventsKinds` | src/modules/bluetooth/bluetooth-util.c:212-221 | the slot loop fires only disconnected events of the transports it frees |
| `BtDiscovery.NotInEarlierSlots` | src/modules/bluetooth/bluetooth-util.c:212-221 | with distinct slots, a slot's transport was not freed by an earlier slot |
| `BtDiscovery.Discovery.ParseDeviceProperty` | src/modules/bluetooth/bluetooth-util.c:356-484 | the store changes as DevicePropertyEffect says and the invariant is kept |
| `BtDiscovery.Discovery.AddUuids` | src/modules/bluetooth/bluetooth-util.c:427-480 | the UUID list and the event log become those UuidsAfter and UuidPropertyEvents specify, and the invariant is kept |
| `BtDiscovery.Discovery.AddEachUuid` | src/modules/bluetooth/bluetooth-util.c:430-469 | the loop leaves UuidsAfter's list and UuidEvents' log, and has_audio says whether a new audio UUID was announced |
| `BtDiscovery.UuidsWrittenStep` | src/modules/bluetooth/bluetooth-util.c:442-443 | prepending to the device's list keeps the device map equal to the original with the list replaced |
| `BtDiscovery.Discovery.ParseAudioProperty` | src/modules/bluetooth/bluetooth-util.c:486-591 | the slot's transport is in the map, and device, transport and events change as AudioPropertyEffect says |
| `BtDiscovery.Discovery.TransportParseProperty` | src/modules/bluetooth/bluetooth-util.c:856-884 | the transport changes as TransportPropertyEffect says; the devices do not change |
| `BtDiscovery.FreeEmptiedDevice` | src/modules/bluetooth/bluetooth-util.c:212-233 | after the slot loop, removing the device keeps the invariant and no other device changes |
| `BtDiscovery.FreeStep` | src/modules/bluetooth/bluetooth-util.c:212-221 | one pass of the slot loop: an empty slot changes nothing; an occupied one is emptied, removed and announced |
| `BtDiscovery.SlotStep` | src/modules/bluetooth/bluetooth-util.c:212-221 | the loop's specification extended by one slot |
| `BtDiscovery.SlotPathsOfSlots` | src/modules/bluetooth/bluetooth-util.c:212-221 | the transports freed and the events fired depend on the slots alone, so run_callback's dead flag does not change them |
| `BtDiscovery.Discovery.AddUuidOnce` | src/modules/bluetooth/bluetooth-util.c:435-466 | one announced UUID: a known one changes nothing; a new one is prepended, fires the UUID-added hook and, for an audio profile UUID, asks for that profile's properties; the result says whether it was a new audio UUID |
| `BtDiscovery.UuidProgressStart` | src/modules/bluetooth/bluetooth-util.c:428-430 | before the loop, nothing announced has been handled: list and log as given, has_audio false |
| `BtDiscovery.UuidProgressStep` | src/modules/bluetooth/bluetooth-util.c:430-469 | handling one more UUID advances the list, the log and has_audio by exactly that UUID's share |
| `BtDiscovery.UuidProgressDone` | src/modules/bluetooth/bluetooth-util.c:430-477 | after the last UUID the list is UuidsAfter's, the log UuidEvents' and has_audio NewAudioUuid's |
| `Cards.ProfileNew` | src/pulsecore/card.c:40-54 | a new profile has the given name and description, priority 0, no sinks or sources and no channels |
| `Cards.Lookup` | src/pulsecore/card.c:221 | the lookup finds an entry iff one has that name, and returns an entry of that name |
| `Cards.LookupFindsEntry` | src/pulsecore/card.c:145-146 | with distinct names, looking up an entry's name returns that entry |
| `Cards.FirstHighestIsFirstHighest` | src/pulsecore/card.c:148-158 | the loop settles on an entry of the highest priority, and no earlier entry has as high a one |
| `Cards.ActiveChoice` | src/pulsecore/card.c:143-158 | the choice is an entry of the map; there is none exactly when the map is missing or empty |
| `Cards.ActiveChoiceSpec` | src/pulsecore/card.c:143-158 | a requested name present in the map wins; otherwise the first of highest priority |
| `Cards.FreshProfilesPickFirst` | src/pulsecore/card.c:148-158 | among fresh profiles, all of priority 0, the first in iteration order becomes active |
| `Cards.ChooseActiveProfile` | src/pulsecore/card.c:143-158 | the lookup and the loop compute ActiveChoice |
| `Cards.SwitchProfile` | src/pulsecore/card.c:209-237 | the result is 0 or -1; -1 keeps the active profile; the callback is invoked only if present |
| `Cards.SwitchRefusals` | src/pulsecore/card.c:213-222 | no callback, no map or an unknown name: -1, no callback and no change, and only then |
| `Cards.SwitchSucceedsExactly` | src/pulsecore/card.c:224-236 | 0 iff the request is accepted and the profile is already active or the callback succeeds; then the named profile is active |
| `Cards.SwitchIdempotent` | src/pulsecore/card.c:224-225 | asking again for the profile just set returns 0 without invoking the callback |
| `Cards.CardNewData.constructor` | src/pulsecore/card.c:64-71 | name, requested profile and map start out NULL |
| `Cards.CardNewData.SetName` | src/pulsecore/card.c:73-78 | the name becomes the argument whatever it was, so the last write wins; nothing else changes |
| `Cards.CardNewData.SetProfile` | src/pulsecore/card.c:80-85 | the requested profile becomes the argument, so the last write wins; nothing else changes |
| `Cards.Card.constructor` | src/pulsecore/card.c:106-170 | the card takes the name, steals the map (the data's map becomes NULL), has the ActiveChoice profile active, and has no callback |
| `Cards.Card.InstallCallback` | src/pulsecore/card.c:161 | the implementing module's callback is installed; nothing else changes |
| `Cards.Card.SetProfile` | src/pulsecore/card.c:209-237 | return value and active profile as SwitchProfile says; one change is posted iff the active profile changes; the invariant is kept |
| `Sample.BytesPerSample` | src/sample.c:9-24 | 1 byte for U8, A-law and mu-law; 2 for the 16-bit formats; 4 for float32 |
| `Sample.SampleSize` | src/sample.c:5-27 | between one and four bytes per channel; zero iff there are no channels |
| `Sample.SampleSpecValidAsWritten` | src/sample.c:41-51 | as written: valid iff the format is known but not U8, and rate and channels are non-zero |
| `Sample.SampleSpecValid` | src/sample.c:41-51 | corrected: valid iff the format is one pa_sample_size handles, and rate and channels are non-zero |
| `Sample.BytesPerSecond` | src/sample.c:29-32 | zero iff the rate or the channel count is zero |
| `Sample.BytesPerSecondBounds` | src/sample.c:29-32 | the byte rate is between one and four bytes per sample per channel, and fits a 64-bit size_t |
| `Sample.ValidAsWrittenRejectsU8` | src/sample.c:41-51 | the validity test as written refuses U8 stereo at 44100 Hz, which the corrected test accepts |
| `Sample.ValidDiffersOnlyOnU8` | src/sample.c:47-48 | the written test implies the corrected one, and they differ exactly on U8 |
| `Sample.ValidMeansUsable` | src/sample.c:41-51 | a valid spec has a known format, a positive frame size and a positive byte rate |
| `Sample.SampleSpecEqual` | src/sample.c:53-57 | the three-field comparison is equality of the records |
| `Sample.SampleSpecEqualIsEquality` | src/sample.c:53-57 | spec equality is record equality, so it is reflexive and symmetric; equal specs have equal sizes and rates |

## Left out

- The D-Bus plumbing is not modelled: message iteration, signal matching, pending calls, connection setup and endpoint registration. Arguments arrive decoded, and `SetConfiguration`'s dictionary-key loop is not modelled.
- `get_properties_reply` is modelled only for recording whether the device-info fetch succeeded (`DeviceInfoReply`). Its dispatch to the property parsers and its connection-changed comparison are not modelled.
- The other branches of `filter_cb` (property-changed signals, name owner changes) are not modelled. Only the `DeviceRemoved` signal is.
- Transport acquire and release, set_property, and the reference counting of the discovery object are not modelled.
- Freeing memory is not modelled. Removed records simply leave their map.
- Pointers are key indirection through the maps, so C-level aliasing is not modelled.
- `BtCodec.SelectConfiguration` returns the negotiated record, not its byte layout. On the HFP endpoints it returns `Uninitialised(size)` for the uninitialised bytes the source replies with.
- `BtCodec.SelectConfiguration` requires the record size that the source asserts (`pa_assert(size == sizeof(config))`).
- `BtDiscovery.Discovery.SetConfiguration` requires a device path, because the source's `found_device` asserts one.
- The configuration bytes of a transport are carried without interpretation.
- `BtNames.CleanupName`: names are byte strings read as unsigned, so whether `char` is signed is not modelled.
- `BtNames.CleanupName`: a C string ends at its first 0 byte, so the name is given as the bytes before it and holds no 0 byte.
- `BtDiscovery.Discovery.RemoveAllDevices`: `pa_hashmap_steal_first` yields the devices in hash order, which is not modelled. The method returns the order it used, as a ghost sequence, and states the log against that order.
- The card creation's collaborators are not modelled: name registration, the creation-veto hook, subscription events other than the change count, the index set and proplist copying, and `pa_card_free`.
- `Cards.Card.constructor`: the registered name is taken as given, because the name registry is not part of this model.
- `pa_samples_usec` is not modelled, because it is computed in floating point.
- `sample-util.h` and `sinkinput.h` hold only declarations, so nothing is modelled from them.
- `Sample.BytesPerSecond` does not wrap. With a 64-bit `size_t` no input wraps, as `Sample.BytesPerSecondBounds` shows. A 32-bit `size_t` would wrap for rates above about four million, and that target is not modelled.
- `BtCodec.FirstOffered`: its own contract states only when the result is 0. The characterisation of a non-zero result is the separate lemma `BtCodec.FirstOfferedIsFirst`.

## Findings

| source | as written | input that shows it | evidently intended | confidence | as-written member | corrected member |
|---|---|---|---|---|---|---|
| src/modules/bluetooth/bluetooth-util.c:1747 | the bound test `i > PA_ELEMENTSOF(table)` lets index 11 through, and `table[11]` is one past the 11-entry table | Class of Device 0x42C (major class 4 Audio/Video, minor class 11) | `i >= PA_ELEMENTSOF(table)`, returning NULL | high, not executed | `BtNames.FormFactorAsWritten`, `BtNames.FormFactorReadsPastTable` | `BtNames.FormFactor` |
| src/sample.c:47 | `spec->format <= 0` rejects the first format, `PA_SAMPLE_U8` = 0, which `pa_sample_size` handles | format U8, rate 44100, 2 channels | `spec->format < 0` | medium (the enum is not part of this model), not executed | `Sample.SampleSpecValidAsWritten`, `Sample.ValidAsWrittenRejectsU8` | `Sample.SampleSpecValid`, `Sample.ValidMeansUsable` |
