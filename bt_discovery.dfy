/** The discovery object of bluetooth-util.c: the device map and the transport
    map, both keyed by bus object path, the per-device profile slots that
    point into the transport map, and the effects of the daemon's properties
    on these records. Hooks fired and property fetches sent are appended to an
    event log. */
module BtDiscovery {
  import opened Common
  import opened BtTypes
  import opened BtUuids

  const DeviceInterface: string := "org.bluez.Device"

  /** The value of a decoded property, by its D-Bus type. */
  datatype Variant =
    | VString(s: string)
    | VBoolean(b: bool)
    | VUint16(n: Uint16)
    | VUint32(w: Uint32)
    | VStringArray(items: seq<string>)
    | VOther

  /** One property entry: Malformed when the key is not a string, the value
      is missing or it is not a variant (check_variant_property fails). */
  datatype PropertyArg = Malformed | Property(key: string, value: Variant)

  /** The decoded property dictionary of SetConfiguration. */
  datatype TransportProperties = TransportProperties(
    uuid: Option<string>, device: Option<Path>, nrec: bool, config: seq<Byte>)

  // --- The store invariant ---------------------------------------------------

  /** Slot `p` of device `dp`, when occupied, names a transport of the map that
      belongs to `dp` under profile `p`. */
  ghost predicate SlotOk(devices: map<Path, Device>, transports: map<Path, Transport>, dp: Path, p: Profile)
    requires dp in devices
  {
    var slot := devices[dp].transports.Get(p);
    slot.Some? ==> slot.value in transports && transports[slot.value].device == dp && transports[slot.value].profile == p
  }

  /** Transport `tp` is stored under its own path, and its device exists and
      holds `tp` in the slot of its profile. */
  ghost predicate TransportOk(devices: map<Path, Device>, transports: map<Path, Transport>, tp: Path)
    requires tp in transports
  {
    var t := transports[tp];
    t.path == tp && t.device in devices && devices[t.device].transports.Get(t.profile) == Some(tp)
  }

  /** The map and the slots agree: the pointers in both directions. */
  ghost predicate Consistent(devices: map<Path, Device>, transports: map<Path, Transport>) {
    (forall dp | dp in devices :: devices[dp].path == dp)
    && (forall dp, p | dp in devices :: SlotOk(devices, transports, dp, p))
    && (forall tp | tp in transports :: TransportOk(devices, transports, tp))
  }

  /** Under the invariant, occupied slots and transports are in one-to-one
      correspondence. */
  lemma ConsistentIsBijection(devices: map<Path, Device>, transports: map<Path, Transport>)
    requires Consistent(devices, transports)
    ensures forall tp | tp in transports :: exists dp, p | dp in devices :: devices[dp].transports.Get(p) == Some(tp)
    ensures forall dp, p, dq, q | dp in devices && dq in devices
              && devices[dp].transports.Get(p).Some? && devices[dp].transports.Get(p) == devices[dq].transports.Get(q)
              :: dp == dq && p == q
  {
    forall tp | tp in transports
      ensures exists dp, p | dp in devices :: devices[dp].transports.Get(p) == Some(tp)
    {
      assert TransportOk(devices, transports, tp);
    }
    forall dp, p, dq, q | dp in devices && dq in devices
      && devices[dp].transports.Get(p).Some? && devices[dp].transports.Get(p) == devices[dq].transports.Get(q)
      ensures dp == dq && p == q
    {
      assert SlotOk(devices, transports, dp, p) && SlotOk(devices, transports, dq, q);
    }
  }

  lemma EmptyConsistent()
    ensures Consistent(map[], map[])
  {
  }

  /** Replacing a device record by one with the same path and slots keeps the
      invariant. */
  lemma UpdateDeviceKeepsConsistent(devices: map<Path, Device>, transports: map<Path, Transport>, dp: Path, d: Device)
    requires Consistent(devices, transports) && dp in devices
    requires d.path == dp && d.transports == devices[dp].transports
    ensures Consistent(devices[dp := d], transports)
  {
    var nd := devices[dp := d];
    forall ep, p | ep in nd ensures SlotOk(nd, transports, ep, p) {
      assert SlotOk(devices, transports, ep, p);
    }
    forall tp | tp in transports ensures TransportOk(nd, transports, tp) {
      assert TransportOk(devices, transports, tp);
    }
  }

  /** Replacing a transport record by one with the same path, device and
      profile keeps the invariant. */
  lemma UpdateTransportKeepsConsistent(devices: map<Path, Device>, transports: map<Path, Transport>, tp: Path, t: Transport)
    requires Consistent(devices, transports) && tp in transports
    requires t.path == tp && t.device == transports[tp].device && t.profile == transports[tp].profile
    ensures Consistent(devices, transports[tp := t])
  {
    var nt := transports[tp := t];
    forall ep, p | ep in devices ensures SlotOk(devices, nt, ep, p) {
      assert SlotOk(devices, transports, ep, p);
    }
    forall up | up in nt ensures TransportOk(devices, nt, up) {
      if up != tp { assert TransportOk(devices, transports, up); }
      else { assert TransportOk(devices, transports, tp); }
    }
  }

  /** A new device with empty slots keeps the invariant. */
  lemma AddDeviceKeepsConsistent(devices: map<Path, Device>, transports: map<Path, Transport>, d: Device)
    requires Consistent(devices, transports) && d.path !in devices
    requires forall p :: d.transports.Get(p).None?
    ensures Consistent(devices[d.path := d], transports)
  {
    var nd := devices[d.path := d];
    forall ep, p | ep in nd ensures SlotOk(nd, transports, ep, p) {
      if ep != d.path { assert SlotOk(devices, transports, ep, p); }
    }
    forall tp | tp in transports ensures TransportOk(nd, transports, tp) {
      assert TransportOk(devices, transports, tp);
    }
  }

  /** Filling an empty slot with a transport of a fresh path keeps the invariant. */
  lemma AddTransportKeepsConsistent(devices: map<Path, Device>, transports: map<Path, Transport>, t: Transport)
    requires Consistent(devices, transports)
    requires t.path !in transports && t.device in devices
    requires devices[t.device].transports.Get(t.profile).None?
    ensures var d := devices[t.device];
      Consistent(devices[t.device := d.(transports := d.transports.Set(t.profile, Some(t.path)))], transports[t.path := t])
  {
    var d := devices[t.device];
    var nd := devices[t.device := d.(transports := d.transports.Set(t.profile, Some(t.path)))];
    var nt := transports[t.path := t];
    forall ep, p | ep in nd ensures SlotOk(nd, nt, ep, p) {
      assert SlotOk(devices, transports, ep, p);
    }
    forall tp | tp in nt ensures TransportOk(nd, nt, tp) {
      if tp != t.path { assert TransportOk(devices, transports, tp); }
    }
  }

  /** Emptying an occupied slot and dropping its transport keeps the invariant. */
  lemma ClearSlotKeepsConsistent(devices: map<Path, Device>, transports: map<Path, Transport>, dp: Path, p: Profile)
    requires Consistent(devices, transports) && dp in devices
    requires devices[dp].transports.Get(p).Some?
    ensures var tp := devices[dp].transports.Get(p).value;
      var d := devices[dp];
      tp in transports && transports[tp].device == dp && transports[tp].profile == p
      && Consistent(devices[dp := d.(transports := d.transports.Set(p, None))], transports - {tp})
  {
    var tp := devices[dp].transports.Get(p).value;
    var d := devices[dp];
    assert SlotOk(devices, transports, dp, p);
    var nd := devices[dp := d.(transports := d.transports.Set(p, None))];
    var nt := transports - {tp};
    forall ep, q | ep in nd ensures SlotOk(nd, nt, ep, q) {
      assert SlotOk(devices, transports, ep, q);
    }
    forall up | up in nt ensures TransportOk(nd, nt, up) {
      assert TransportOk(devices, transports, up);
    }
  }

  /** A device with every slot empty can be removed without leaving a
      transport behind that points to it. */
  lemma RemoveEmptyDeviceKeepsConsistent(devices: map<Path, Device>, transports: map<Path, Transport>, dp: Path)
    requires Consistent(devices, transports) && dp in devices
    requires forall p :: devices[dp].transports.Get(p).None?
    ensures Consistent(devices - {dp}, transports)
    ensures forall tp | tp in transports :: transports[tp].device != dp
  {
    var nd := devices - {dp};
    forall tp | tp in transports ensures transports[tp].device != dp && TransportOk(nd, transports, tp) {
      assert TransportOk(devices, transports, tp);
    }
    forall ep, p | ep in nd ensures SlotOk(nd, transports, ep, p) {
      assert SlotOk(devices, transports, ep, p);
    }
  }

  /** Under the invariant a store with no devices has no transports. */
  lemma NoDevicesNoTransports(devices: map<Path, Device>, transports: map<Path, Transport>)
    requires Consistent(devices, transports) && devices == map[]
    ensures transports == map[]
  {

  }

  // --- Property effects ------------------------------------------------------

  /** `(int) value` on a uint32_t: two's-complement wrap into 32-bit int. */
  function Int32FromUint32(w: Uint32): (r: int)
    ensures -0x8000_0000 <= r < 0x8000_0000
    ensures (r - w) % 0x1_0000_0000 == 0
  {
    if w < 0x8000_0000 then w else w - 0x1_0000_0000
  }

  /** The key and value type pairs parse_device_property acts on; any other
      property is ignored. */
  predicate DeviceKeyKnown(key: string, value: Variant) {
    (value.VString? && (key == "Name" || key == "Alias" || key == "Address"))
    || (value.VBoolean? && (key == "Paired" || key == "Trusted"))
    || (value.VUint32? && key == "Class")
    || (value.VStringArray? && key == "UUIDs")
  }

  /** What parse_device_property does to a device record, its return value and
      the events it adds. */
  function DevicePropertyEffect(d: Device, arg: PropertyArg): (e: (int, Device, seq<Event>))
    ensures e.0 == -1 <==> arg.Malformed?
    ensures e.0 == -1 ==> e.1 == d && e.2 == []
    ensures e.1.path == d.path && e.1.transports == d.transports && e.1.dead == d.dead
    ensures e.1.infoValid == d.infoValid && e.1.audioState == d.audioState && e.1.profileState == d.profileState
    ensures arg.Property? && arg.value.VString? && arg.key == "Name" ==> e.1 == d.(name := Some(arg.value.s))
    ensures arg.Property? && arg.value.VString? && arg.key == "Alias" ==> e.1 == d.(alias := Some(arg.value.s))
    ensures arg.Property? && arg.value.VString? && arg.key == "Address" ==> e.1 == d.(address := Some(arg.value.s))
    ensures arg.Property? && arg.value.VBoolean? && arg.key == "Paired" ==>
      e.1 == d.(paired := if arg.value.b then True else False)
    ensures arg.Property? && arg.value.VBoolean? && arg.key == "Trusted" ==>
      e.1 == d.(trusted := if arg.value.b then True else False)
    ensures arg.Property? && arg.value.VUint32? && arg.key == "Class" ==> e.1 == d.(deviceClass := Int32FromUint32(arg.value.w))
    ensures arg.Property? && arg.value.VStringArray? && arg.key == "UUIDs" ==>
      e == (0, d.(uuids := UuidsAfter(d.uuids, arg.value.items)), UuidPropertyEvents(d.path, d.uuids, arg.value.items))
    ensures e.1.uuids != d.uuids || e.2 != [] ==> arg.Property? && arg.key == "UUIDs" && arg.value.VStringArray?
    ensures arg.Property? && !DeviceKeyKnown(arg.key, arg.value) ==> e == (0, d, [])
  {
    match arg
    case Malformed => (-1, d, [])
    case Property(key, value) =>
      match value
      case VString(s) =>
        (0, if key == "Name" then d.(name := Some(s))
            else if key == "Alias" then d.(alias := Some(s))
            else if key == "Address" then d.(address := Some(s))
            else d, [])
      case VBoolean(b) =>
        var flag := if b then True else False;
        (0, if key == "Paired" then d.(paired := flag)
            else if key == "Trusted" then d.(trusted := flag)
            else d, [])
      case VUint32(w) =>
        (0, if key == "Class" then d.(deviceClass := Int32FromUint32(w)) else d, [])
      case VStringArray(vs) =>
        if key == "UUIDs" then
          (0, d.(uuids := UuidsAfter(d.uuids, vs)), UuidPropertyEvents(d.path, d.uuids, vs))
        else (0, d, [])
      case _ => (0, d, [])
  }

  /** The outcome of parse_audio_property: its return value, the new device
      record, the new record of the transport in the profile's slot, and the
      events fired. */
  datatype AudioEffect = AudioEffect(code: int, device: Device, transport: Option<Transport>, events: seq<Event>)

  /** The transport a gain or state property acts on: the one in the slot of
      the interface's profile; none for the aggregate Audio interface. */
  function ActsOn(iface: string, slot: Option<Transport>): Option<Transport> {
    if iface == AudioInterface then None else slot
  }

  /** The key and value type pairs parse_audio_property acts on; any other
      property is ignored. */
  predicate AudioKeyKnown(key: string, value: Variant) {
    (value.VString? && key == "State")
    || (value.VUint16? && (key == "MicrophoneGain" || key == "SpeakerGain"))
  }

  /** What parse_audio_property does, given the device and the transport in the
      slot of the interface's profile (None when empty). */
  function AudioPropertyEffect(d: Device, slot: Option<Transport>, iface: string, arg: PropertyArg): (e: AudioEffect)
    ensures e.device.path == d.path && e.device.transports == d.transports && e.device.uuids == d.uuids
    ensures e.transport.Some? <==> slot.Some?
    ensures e.transport.Some? ==> e.transport.value == slot.value.(state := e.transport.value.state,
      microphoneGain := e.transport.value.microphoneGain, speakerGain := e.transport.value.speakerGain)
    ensures iface != AudioInterface && ProfileFromInterface(iface).None? ==> e == AudioEffect(0, d, slot, [])
    ensures arg.Property? && !AudioKeyKnown(arg.key, arg.value) ==> e == AudioEffect(0, d, slot, [])
    ensures e.code == -1 ==> e == AudioEffect(-1, d, slot, [])
    ensures e.code == 0 || e.code == -1
  {
    var isAudio := iface == AudioInterface;
    var prof := ProfileFromInterface(iface);
    var same := AudioEffect(0, d, slot, []);
    var failed := AudioEffect(-1, d, slot, []);
    if !isAudio && prof.None? then same
    else match arg
      case Malformed => failed
      case Property(key, value) =>
        var t := ActsOn(iface, slot);
        match value
        case VString(s) =>
          if key != "State" then same
          else
            var st := AudioStateFromString(s);
            if st == Invalid then failed
            else if isAudio then AudioEffect(0, d.(audioState := st), slot, [])
            else
              var nd := d.(profileState := d.profileState.Set(prof.value, st));
              if t.None? then AudioEffect(0, nd, slot, [])
              else
                var tr := t.value;
                var ns := TransportStateOf(st);
                AudioEffect(0, nd, Some(tr.(state := ns)),
                            if ns != tr.state then [TransportStateChanged(tr.path, ns)] else [])
        case VUint16(v) =>
          var g: Uint16 := Min(v, HspMaxGain);
          if key == "MicrophoneGain" then
            if t.None? then failed
            else if g == t.value.microphoneGain then same
            else AudioEffect(0, d, Some(t.value.(microphoneGain := g)), [TransportMicrophoneGainChanged(t.value.path, g)])
          else if key == "SpeakerGain" then
            if t.None? then failed
            else if g == t.value.speakerGain then same
            else AudioEffect(0, d, Some(t.value.(speakerGain := g)), [TransportSpeakerGainChanged(t.value.path, g)])
          else same
        case _ => same
  }

  /** A gain property on a profile interface with a transport: the stored gain
      becomes min(value, HSP_MAX_GAIN) and exactly one event fires iff that
      differs from the old gain. */
  lemma GainClamped(d: Device, tr: Transport, iface: string, key: string, v: Uint16)
    requires ProfileFromInterface(iface).Some?
    requires key == "MicrophoneGain" || key == "SpeakerGain"
    ensures var e := AudioPropertyEffect(d, Some(tr), iface, Property(key, VUint16(v)));
      var old_gain := if key == "MicrophoneGain" then tr.microphoneGain else tr.speakerGain;
      var new_gain := if key == "MicrophoneGain" then e.transport.value.microphoneGain else e.transport.value.speakerGain;
      e.code == 0 && e.device == d
      && new_gain == Min(v, HspMaxGain) && new_gain <= HspMaxGain
      && (e.events != [] <==> Min(v, HspMaxGain) != old_gain)
      && |e.events| <= 1
      && (key == "MicrophoneGain" ==> e.transport.value.speakerGain == tr.speakerGain)
      && (key == "SpeakerGain" ==> e.transport.value.microphoneGain == tr.microphoneGain)
  {
    assert iface != AudioInterface;
  }

  /** A gain property with no transport to act on (an empty slot, or the
      aggregate Audio interface) fails and changes nothing. */
  lemma GainWithoutTransport(d: Device, slot: Option<Transport>, iface: string, key: string, v: Uint16)
    requires iface == AudioInterface || (ProfileFromInterface(iface).Some? && slot.None?)
    requires key == "MicrophoneGain" || key == "SpeakerGain"
    ensures AudioPropertyEffect(d, slot, iface, Property(key, VUint16(v))) == AudioEffect(-1, d, slot, [])
  {
  }

  /** A valid State on a profile interface records the state in the profile's
      slot and moves the slot's transport to the mapped transport state, firing
      one event exactly when that state changes; on the Audio interface it sets
      the aggregate state only. */
  lemma StateProperty(d: Device, slot: Option<Transport>, iface: string, s: string)
    requires AudioStateFromString(s) != Invalid
    requires iface == AudioInterface || ProfileFromInterface(iface).Some?
    ensures var st := AudioStateFromString(s);
      var e := AudioPropertyEffect(d, slot, iface, Property("State", VString(s)));
      e.code == 0
      && (iface == AudioInterface ==> e == AudioEffect(0, d.(audioState := st), slot, []))
      && (iface != AudioInterface ==>
            var p := ProfileFromInterface(iface).value;
            e.device == d.(profileState := d.profileState.Set(p, st))
            && (slot.Some? ==> e.transport.value.state == TransportStateOf(st)
                               && (e.events != [] <==> slot.value.state != TransportStateOf(st))
                               && |e.events| <= 1)
            && (slot.None? ==> e.events == []))
  {
  }

  /** Delivering the same State twice: the second delivery fires nothing. */
  lemma StatePropertyIdempotent(d: Device, slot: Option<Transport>, iface: string, s: string)
    requires AudioStateFromString(s) != Invalid
    requires ProfileFromInterface(iface).Some?
    ensures var e1 := AudioPropertyEffect(d, slot, iface, Property("State", VString(s)));
      var e2 := AudioPropertyEffect(e1.device, e1.transport, iface, Property("State", VString(s)));
      e2.events == [] && e2.device == e1.device && e2.transport == e1.transport
  {
    StateProperty(d, slot, iface, s);
    var e1 := AudioPropertyEffect(d, slot, iface, Property("State", VString(s)));
    StateProperty(e1.device, e1.transport, iface, s);
  }

  /** An unrecognised state name fails and changes nothing. */
  lemma InvalidStateRejected(d: Device, slot: Option<Transport>, iface: string, s: string)
    requires AudioStateFromString(s) == Invalid
    requires iface == AudioInterface || ProfileFromInterface(iface).Some?
    ensures AudioPropertyEffect(d, slot, iface, Property("State", VString(s))) == AudioEffect(-1, d, slot, [])
  {
  }

  /** What transport_parse_property does to a transport: only a boolean NREC
      that differs from the stored flag changes it and fires one event. */
  function TransportPropertyEffect(t: Transport, arg: PropertyArg): (e: (int, Transport, seq<Event>))
    ensures e.0 == -1 <==> arg.Malformed?
    ensures e.1 == t.(nrec := e.1.nrec)
    ensures e.2 != [] <==> e.1 != t
    ensures e.1 != t ==> arg == Property("NREC", VBoolean(e.1.nrec)) && e.2 == [TransportNrecChanged(t.path, e.1.nrec)]
    ensures arg == Property("NREC", VBoolean(!t.nrec)) ==> e.1.nrec != t.nrec
  {
    match arg
    case Malformed => (-1, t, [])
    case Property(key, value) =>
      if value.VBoolean? && key == "NREC" && t.nrec != value.b then
        (0, t.(nrec := value.b), [TransportNrecChanged(t.path, value.b)])
      else (0, t, [])
  }

  // --- The store ---------------------------------------------------------------

  /** The events of device_free's slot loop over the first `k` slots of `d`:
      one disconnected-state event per occupied slot, in slot order. */
  function SlotEvents(d: Device, k: nat): seq<Event>
    requires k <= |AllProfiles|
  {
    if k == 0 then []
    else
      SlotEvents(d, k - 1)
      + match d.transports.Get(AllProfiles[k - 1])
        case Some(tp) => [TransportStateChanged(tp, TransportDisconnected)]
        case None => []
  }

  /** The transport paths in the first `k` slots of `d`. */
  function SlotPaths(d: Device, k: nat): set<Path>
    requires k <= |AllProfiles|
  {
    if k == 0 then {}
    else
      SlotPaths(d, k - 1)
      + match d.transports.Get(AllProfiles[k - 1])
        case Some(tp) => {tp}
        case None => {}
  }

  /** The events of taking device `d` out of the store: run_callback with
      `dead` set (the connection-changed hook, for an audio-ready device only),
      then device_free's disconnected-state events. */
  function RemovalEvents(d: Device): seq<Event> {
    (if DeviceIsAudioReady(d) then [DeviceConnectionChanged(d.path, true)] else [])
    + SlotEvents(d, |AllProfiles|)
  }

  /** The events of removing the devices of `devs` in the order `order`. */
  function RemovalLog(devs: map<Path, Device>, order: seq<Path>): seq<Event>
    requires forall i | 0 <= i < |order| :: order[i] in devs
    decreases |order|
  {
    if order == [] then []
    else
      var n := |order| - 1;
      RemovalLog(devs, order[..n]) + RemovalEvents(devs[order[n]])
  }

  /** The slots of `d` with the first `k` emptied. */
  function ClearedSlots(slots: PerProfile<Option<Path>>, k: nat): (r: PerProfile<Option<Path>>)
    requires k <= |AllProfiles|
    ensures forall j | 0 <= j < |AllProfiles| :: r.Get(AllProfiles[j]) == if j < k then None else slots.Get(AllProfiles[j])
  {
    if k == 0 then slots else ClearedSlots(slots, k - 1).Set(AllProfiles[k - 1], None)
  }

  class Discovery {
    var devices: map<Path, Device>
    var transports: map<Path, Transport>
    var events: seq<Event>

    ghost predicate Valid()
      reads this
    {
      Consistent(devices, transports)
    }

    /** A discovery object with no devices, no transports and no events. */
    constructor()
      ensures Valid()
      ensures devices == map[] && transports == map[] && events == []
    {
      devices := map[];
      transports := map[];
      events := [];
    }

    /** found_device: a known path is returned as it is; an unknown one gets a
        fresh record and a GetProperties call on the Device interface. */
    method FoundDevice(dp: Path)
      requires Valid()
      modifies this
      ensures Valid() && dp in devices
      ensures dp in old(devices) ==> unchanged(this)
      ensures dp !in old(devices) ==>
        devices == old(devices)[dp := NewDevice(dp)] && transports == old(transports)
        && events == old(events) + [GetPropertiesCall(dp, DeviceInterface)]
    {
      if dp in devices {
        return;
      }
      AddDeviceKeepsConsistent(devices, transports, NewDevice(dp));
      devices := devices[dp := NewDevice(dp)];
      events := events + [GetPropertiesCall(dp, DeviceInterface)];
    }

    /** The device-info part of get_properties_reply: the Device.GetProperties
        reply records success (1) or failure (-1). */
    method DeviceInfoReply(dp: Path, ok: bool)
      requires Valid() && dp in devices
      modifies this
      ensures Valid()
      ensures devices == old(devices)[dp := old(devices[dp]).(infoValid := if ok then InfoValid else InfoFailed)]
      ensures transports == old(transports) && events == old(events)
    {
      var d := devices[dp];
      UpdateDeviceKeepsConsistent(devices, transports, dp, d.(infoValid := if ok then InfoValid else InfoFailed));
      devices := devices[dp := d.(infoValid := if ok then InfoValid else InfoFailed)];
    }

    /** endpoint_set_configuration: fails, changing nothing, when the transport
        path is already configured, the properties are malformed or the
        profile's slot of the device is occupied; otherwise the same new
        transport goes into the map and into the slot. */
    method SetConfiguration(endpoint: Endpoint, path: Path, props: Option<TransportProperties>, sender: string)
      returns (ok: bool)
      requires Valid()
      requires props.Some? ==> props.value.device.Some?
      modifies this
      ensures Valid()
      ensures path in old(transports) || props.None? ==> !ok && unchanged(this)
      ensures path !in old(transports) && props.Some? ==>
        var dp := props.value.device.value;
        var p := EndpointProfile(endpoint);
        var d := if dp in old(devices) then old(devices)[dp] else NewDevice(dp);
        (ok <==> d.transports.Get(p).None?)
        && (!ok ==> dp in old(devices) && unchanged(this))
        && (ok ==>
              devices == old(devices)[dp := d.(transports := d.transports.Set(p, Some(path)))]
              && transports == old(transports)[path := NewTransport(d, sender, path, p, props.value.config).(nrec := props.value.nrec)]
              && events == old(events) + (if dp in old(devices) then [] else [GetPropertiesCall(dp, DeviceInterface)]))
    {
      if path in transports {
        return false;
      }
      if props.None? {
        return false;
      }
      var dp := props.value.device.value;
      FoundDevice(dp);
      var p := EndpointProfile(endpoint);
      var d := devices[dp];
      if d.transports.Get(p).Some? {
        return false;
      }
      var t := NewTransport(d, sender, path, p, props.value.config);
      if props.value.nrec {
        t := t.(nrec := props.value.nrec);
      }
      AddTransportKeepsConsistent(devices, transports, t);
      devices := devices[dp := d.(transports := d.transports.Set(p, Some(path)))];
      transports := transports[path := t];
      return true;
    }

    /** endpoint_clear_configuration: a known path leaves both the map and its
        slot and fires one disconnected-state event; an unknown path changes
        nothing and still succeeds; an argument that is not an object path
        fails. */
    method ClearConfiguration(path: Option<Path>) returns (ok: bool)
      requires Valid()
      modifies this
      ensures Valid()
      ensures ok <==> path.Some?
      ensures path.None? || path.value !in old(transports) ==> unchanged(this)
      ensures path.Some? && path.value in old(transports) ==>
        var t := old(transports)[path.value];
        var d := old(devices)[t.device];
        t.device in old(devices)
        && devices == old(devices)[t.device := d.(transports := d.transports.Set(t.profile, None))]
        && transports == old(transports) - {path.value}
        && events == old(events) + [TransportStateChanged(path.value, TransportDisconnected)]
    {
      if path.None? {
        return false;
      }
      var tp := path.value;
      if tp in transports {
        var t := transports[tp];
        assert TransportOk(devices, transports, tp);
        DropTransport(t.device, t.profile);
      }
      return true;
    }

    /** The steps endpoint_clear_configuration and device_free share: the slot
        is emptied, the transport leaves the map, and its state, now
        disconnected, is announced. */
    method DropTransport(dp: Path, p: Profile)
      requires Valid() && dp in devices && devices[dp].transports.Get(p).Some?
      modifies this
      ensures Valid()
      ensures var d := old(devices[dp]);
        var tp := d.transports.Get(p).value;
        devices == old(devices)[dp := d.(transports := d.transports.Set(p, None))]
        && transports == old(transports) - {tp}
        && events == old(events) + [TransportStateChanged(tp, TransportDisconnected)]
    {
      var d := devices[dp];
      var tp := d.transports.Get(p).value;
      ClearSlotKeepsConsistent(devices, transports, dp, p);
      devices := devices[dp := d.(transports := d.transports.Set(p, None))];
      transports := transports - {tp};
      events := events + [TransportStateChanged(tp, TransportDisconnected)];
    }

    /** run_callback: a device that is audio-ready takes the new `dead` flag and
        fires the connection-changed hook; any other device is left alone. */
    method RunCallback(dp: Path, dead: bool)
      requires Valid() && dp in devices
      modifies this
      ensures Valid()
      ensures !DeviceIsAudioReady(old(devices[dp])) ==> unchanged(this)
      ensures DeviceIsAudioReady(old(devices[dp])) ==>
        devices == old(devices)[dp := old(devices[dp]).(dead := dead)]
        && transports == old(transports)
        && events == old(events) + [DeviceConnectionChanged(dp, dead)]
    {
      var d := devices[dp];
      if !DeviceIsAudioReady(d) {
        return;
      }
      UpdateDeviceKeepsConsistent(devices, transports, dp, d.(dead := dead));
      devices := devices[dp := d.(dead := dead)];
      events := events + [DeviceConnectionChanged(dp, dead)];
    }

    /** device_free: every occupied slot is emptied, its transport leaves the
        map and fires a disconnected-state event, in slot order; then the
        device record goes. */
    method DeviceFree(dp: Path)
      requires Valid() && dp in devices
      modifies this
      ensures Valid()
      ensures devices == old(devices) - {dp}
      ensures transports == old(transports) - SlotPaths(old(devices[dp]), |AllProfiles|)
      ensures events == old(events) + SlotEvents(old(devices[dp]), |AllProfiles|)
      ensures forall tp | tp in transports :: transports[tp].device != dp
    {
      ghost var od := devices[dp];
      ghost var start := (old(devices), old(transports), old(events));
      var i := 0;
      while i < |AllProfiles|
        invariant 0 <= i <= |AllProfiles|
        invariant Valid() && dp in devices
        invariant FreeProgress(start, od, dp, i, (devices, transports, events))
      {
        var p := AllProfiles[i];
        var d := devices[dp];
        FreeStep(start, od, dp, i, (devices, transports, events));
        if d.transports.Get(p).Some? {
          DropTransport(dp, p);
        }
        i := i + 1;
      }
      FreeEmptiedDevice(old(devices), devices, transports, dp, od);
      devices := devices - {dp};
    }

    /** The DeviceRemoved signal: a known device is unlinked, told it is dead
        and freed; an unknown path changes nothing. */
    method RemoveDevice(dp: Path)
      requires Valid()
      modifies this
      ensures Valid()
      ensures dp !in old(devices) ==> unchanged(this)
      ensures devices == old(devices) - {dp}
      ensures forall tp | tp in transports :: transports[tp].device != dp
      ensures dp in old(devices) ==> transports == old(transports) - SlotPaths(old(devices[dp]), |AllProfiles|)
      ensures dp in old(devices) ==> events == old(events) + RemovalEvents(old(devices[dp]))
    {
      if dp !in devices {
        forall tp | tp in transports ensures transports[tp].device != dp {
          assert TransportOk(devices, transports, tp);
        }
        assert devices - {dp} == devices;
        return;
      }
      RemoveOne(dp);
    }

    /** remove_all_devices: every device is told it is dead and freed, in the
        hash map's order (`order`, which the model leaves open), which leaves no
        device and no transport. The log gains each device's removal events:
        the connection-changed hook of each audio-ready device, and exactly one
        disconnected-state event per transport. */
    method RemoveAllDevices() returns (ghost order: seq<Path>)
      requires Valid()
      modifies this
      ensures Valid()
      ensures devices == map[] && transports == map[]
      ensures forall i | 0 <= i < |order| :: order[i] in old(devices)
      ensures forall dp | dp in old(devices) :: dp in order
      ensures Distinct(order)
      ensures events == old(events) + RemovalLog(old(devices), order)
      ensures forall e | e in events[|old(events)|..] ::
        (e.DeviceConnectionChanged? && e.dead && e.device in old(devices) && DeviceIsAudioReady(old(devices)[e.device]))
        || (e.TransportStateChanged? && e.state == TransportDisconnected && e.transport in old(transports))
      ensures forall tp | tp in old(transports) ::
        multiset(events[|old(events)|..])[TransportStateChanged(tp, TransportDisconnected)] == 1
    {
      order := [];
      RemoveProgressStart(devices, events);
      while devices != map[]
        invariant Valid()
        invariant RemoveProgress(old(devices), old(events), order, devices, events)
        decreases |devices|
      {
        var dp :| dp in devices;
        RemoveProgressStep(old(devices), old(events), order, devices, events, dp);
        RemoveOne(dp);
        order := order + [dp];
      }
      NoDevicesNoTransports(devices, transports);
      RemoveProgressDone(old(devices), old(events), order, events);
      RemovalLogKinds(old(devices), old(transports), order);
      forall tp | tp in old(transports)
        ensures multiset(events[|old(events)|..])[TransportStateChanged(tp, TransportDisconnected)] == 1
      {
        RemovalLogCount(old(devices), old(transports), order, tp);
        assert TransportOk(old(devices), old(transports), tp);
      }
    }

    /** One pass of remove_all_devices' loop: run_callback with `dead` set,
        then device_free. */
    method RemoveOne(dp: Path)
      requires Valid() && dp in devices
      modifies this
      ensures Valid()
      ensures devices == old(devices) - {dp}
      ensures transports == old(transports) - SlotPaths(old(devices[dp]), |AllProfiles|)
      ensures events == old(events) + RemovalEvents(old(devices[dp]))
    {
      ghost var d := devices[dp];
      ghost var before := (devices, transports, events);
      RunCallback(dp, true);
      ghost var mid := (devices, transports, events);
      SlotPathsOfSlots(d, devices[dp], |AllProfiles|);
      DeviceFree(dp);
      RemoveOneSteps(before, mid, (devices, transports, events), dp);
    }

    /** parse_device_property: string, boolean and class properties replace the
        field; the UUIDs array is walked in order, each UUID not yet known is
        prepended and announced, and an audio UUID triggers a property fetch of
        its profile interface and, once, of the Audio interface. */
    method ParseDeviceProperty(dp: Path, arg: PropertyArg) returns (r: int)
      requires Valid() && dp in devices
      modifies this
      ensures Valid()
      ensures var e := DevicePropertyEffect(old(devices[dp]), arg);
        r == e.0 && devices == old(devices)[dp := e.1] && transports == old(transports)
        && events == old(events) + e.2
    {
      var d := devices[dp];
      assert d.path == dp;
      if arg.Property? && arg.value.VStringArray? && arg.key == "UUIDs" {
        AddUuids(dp, arg.value.items);
        return 0;
      }
      var e := DevicePropertyEffect(d, arg);
      UpdateDeviceKeepsConsistent(devices, transports, dp, e.1);
      devices := devices[dp := e.1];
      events := events + e.2;
      return e.0;
    }

    /** The "UUIDs" branch of parse_device_property: each UUID not yet known
        is prepended and announced, an audio one also queries its profile
        interface, and a new audio UUID queries the Audio interface once at
        the end. */
    method AddUuids(dp: Path, vs: seq<string>)
      requires Valid() && dp in devices
      modifies this
      ensures Valid()
      ensures var d := old(devices[dp]);
        devices == old(devices)[dp := d.(uuids := UuidsAfter(d.uuids, vs))]
        && transports == old(transports)
        && events == old(events) + UuidPropertyEvents(dp, d.uuids, vs)
    {
      var d := devices[dp];
      var hasAudio := AddEachUuid(dp, vs);
      UpdateDeviceKeepsConsistent(old(devices), transports, dp, devices[dp]);
      events := events + if hasAudio then [GetPropertiesCall(dp, AudioInterface)] else [];
    }

    /** The loop over the announced UUIDs; the result is `has_audio`. */
    method AddEachUuid(dp: Path, vs: seq<string>) returns (hasAudio: bool)
      requires dp in devices
      modifies this
      ensures var d := old(devices[dp]);
        devices == old(devices)[dp := d.(uuids := UuidsAfter(d.uuids, vs))]
        && transports == old(transports)
        && events == old(events) + UuidEvents(dp, d.uuids, vs)
        && hasAudio == NewAudioUuid(d.uuids, vs)
    {
      var d := devices[dp];
      var known := d.uuids;
      var k := 0;
      hasAudio := false;
      UuidProgressStart(dp, d.uuids, vs, events);
      while k < |vs|
        invariant UuidsWritten(old(devices), dp, known, devices)
        invariant transports == old(transports)
        invariant UuidProgress(dp, d.uuids, vs, old(events), k, known, hasAudio, events)
      {
        UuidProgressStep(dp, d.uuids, vs, old(events), k, known, hasAudio, events);
        UuidsWrittenStep(old(devices), dp, known, devices, vs[k]);
        var isAudio := AddUuidOnce(dp, vs[k]);
        hasAudio := hasAudio || isAudio;
        known := AddUuid(known, vs[k]);
        k := k + 1;
      }
      UuidProgressDone(dp, d.uuids, vs, old(events), k, known, hasAudio, events);
    }

    /** One pass of the loop over the UUIDs property: a UUID not yet known is
        prepended and announced, and an audio one also queries its profile
        interface; the result says whether it was a new audio UUID. */
    method AddUuidOnce(dp: Path, v: string) returns (isAudio: bool)
      requires dp in devices
      modifies this
      ensures var d := old(devices[dp]);
        devices == old(devices)[dp := d.(uuids := AddUuid(d.uuids, v))]
        && transports == old(transports)
        && events == old(events) + UuidStepEvents(dp, d.uuids, v)
        && isAudio == (!HasUuid(d.uuids, v) && ProfileForUuid(v).Some?)
    {
      var d := devices[dp];
      var found := UuidHas(d.uuids, v);
      isAudio := false;
      if !found {
        var nd := d.(uuids := [v] + d.uuids);
        devices := devices[dp := nd];
        events := events + [DeviceUuidAdded(dp, v)];
        var prof := ProfileForUuid(v);
        if prof.Some? {
          events := events + [GetPropertiesCall(dp, ProfileInterface(prof.value))];
          isAudio := true;
        }
      }
    }

    /** parse_audio_property on the device at `dp` for the interface `iface`. */
    method ParseAudioProperty(dp: Path, iface: string, arg: PropertyArg) returns (r: int)
      requires Valid() && dp in devices
      modifies this
      ensures Valid()
      ensures var prof := ProfileFromInterface(iface);
        var slot := if prof.Some? then old(devices[dp]).transports.Get(prof.value) else None;
        slot.Some? ==> slot.value in old(transports)
      ensures var prof := ProfileFromInterface(iface);
        var slot := if prof.Some? then old(devices[dp]).transports.Get(prof.value) else None;
        var t := if slot.Some? then Some(old(transports)[slot.value]) else None;
        var e := AudioPropertyEffect(old(devices[dp]), t, iface, arg);
        r == e.code
        && devices == old(devices)[dp := e.device]
        && transports == (if slot.Some? then old(transports)[slot.value := e.transport.value] else old(transports))
        && events == old(events) + e.events
    {
      var d := devices[dp];
      var prof := ProfileFromInterface(iface);
      var slot := if prof.Some? then d.transports.Get(prof.value) else None;
      var t: Option<Transport> := None;
      if slot.Some? {
        assert SlotOk(devices, transports, dp, prof.value);
        t := Some(transports[slot.value]);
      }
      var e := AudioPropertyEffect(d, t, iface, arg);
      UpdateDeviceKeepsConsistent(devices, transports, dp, e.device);
      devices := devices[dp := e.device];
      if slot.Some? {
        UpdateTransportKeepsConsistent(devices, transports, slot.value, e.transport.value);
        transports := transports[slot.value := e.transport.value];
      }
      events := events + e.events;
      return e.code;
    }

    /** transport_parse_property on the transport at `tp` (the signal handler
        ignores unknown transport paths). */
    method TransportParseProperty(tp: Path, arg: PropertyArg) returns (r: int)
      requires Valid() && tp in transports
      modifies this
      ensures Valid()
      ensures var e := TransportPropertyEffect(old(transports[tp]), arg);
        r == e.0 && devices == old(devices) && transports == old(transports)[tp := e.1]
        && events == old(events) + e.2
    {
      var e := TransportPropertyEffect(transports[tp], arg);
      UpdateTransportKeepsConsistent(devices, transports, tp, e.1);
      transports := transports[tp := e.1];
      events := events + e.2;
      return e.0;
    }
  }

  /** After device_free's slot loop the device holds no transport, so removing
      it keeps the invariant and leaves the other devices as they were. */
  lemma FreeEmptiedDevice(devices0: map<Path, Device>, devices: map<Path, Device>, transports: map<Path, Transport>,
                          dp: Path, od: Device)
    requires Consistent(devices, transports) && dp in devices
    requires devices == devices0[dp := od.(transports := ClearedSlots(od.transports, |AllProfiles|))]
    ensures Consistent(devices - {dp}, transports)
    ensures devices - {dp} == devices0 - {dp}
    ensures forall tp | tp in transports :: transports[tp].device != dp
  {
    forall p ensures devices[dp].transports.Get(p).None? {
      AllProfilesListsEveryProfile(p);
    }
    RemoveEmptyDeviceKeepsConsistent(devices, transports, dp);
  }

  lemma MinusUnion<K, V>(m: map<K, V>, s: set<K>, k: K)
    ensures (m - s) - {k} == m - (s + {k})
  {
  }

  /** The loop of parse_device_property's "UUIDs" branch after `k` of the
      UUIDs `vs`, starting from the list `start` and the log `log0`: what
      remains to be done on `known`, `hasAudio` and `log` completes the whole
      property's effect. */
  ghost predicate UuidProgress(dp: Path, start: seq<string>, vs: seq<string>, log0: seq<Event>,
                               k: nat, known: seq<string>, hasAudio: bool, log: seq<Event>)
  {
    k <= |vs|
    && UuidsAfter(known, vs[k..]) == UuidsAfter(start, vs)
    && log + UuidEvents(dp, known, vs[k..]) == log0 + UuidEvents(dp, start, vs)
    && (hasAudio || NewAudioUuid(known, vs[k..])) == NewAudioUuid(start, vs)
  }

  lemma UuidProgressStart(dp: Path, start: seq<string>, vs: seq<string>, log0: seq<Event>)
    ensures UuidProgress(dp, start, vs, log0, 0, start, false, log0)
  {
    assert vs[0..] == vs;
  }

  /** The device map is the original one with the UUID list of `dp` replaced by `known`. */
  ghost predicate UuidsWritten(od: map<Path, Device>, dp: Path, known: seq<string>, devs: map<Path, Device>) {
    dp in od && devs == od[dp := od[dp].(uuids := known)]
  }

  /** Writing one more UUID into the device record keeps the map in step with `known`. */
  lemma UuidsWrittenStep(od: map<Path, Device>, dp: Path, known: seq<string>, devs: map<Path, Device>, v: string)
    requires UuidsWritten(od, dp, known, devs)
    ensures dp in devs && devs[dp].uuids == known
    ensures UuidsWritten(od, dp, AddUuid(known, v), devs[dp := devs[dp].(uuids := AddUuid(devs[dp].uuids, v))])
  {
  }

  /** One UUID through the loop: it is added unless known, its events are
      logged, and `hasAudio` records a new audio UUID. */
  lemma UuidProgressStep(dp: Path, start: seq<string>, vs: seq<string>, log0: seq<Event>,
                         k: nat, known: seq<string>, hasAudio: bool, log: seq<Event>)
    requires UuidProgress(dp, start, vs, log0, k, known, hasAudio, log) && k < |vs|
    ensures UuidProgress(dp, start, vs, log0, k + 1, AddUuid(known, vs[k]),
                         hasAudio || (!HasUuid(known, vs[k]) && ProfileForUuid(vs[k]).Some?),
                         log + UuidStepEvents(dp, known, vs[k]))
  {
    assert vs[k..][0] == vs[k] && vs[k..][1..] == vs[k + 1..];
    var step := UuidStepEvents(dp, known, vs[k]);
    var rest := UuidEvents(dp, AddUuid(known, vs[k]), vs[k + 1..]);
    assert UuidEvents(dp, known, vs[k..]) == step + rest;
    assert log + (step + rest) == (log + step) + rest;
  }

  /** At the end of the loop the list, the log and `hasAudio` are those the
      whole property specifies. */
  lemma UuidProgressDone(dp: Path, start: seq<string>, vs: seq<string>, log0: seq<Event>,
                         k: nat, known: seq<string>, hasAudio: bool, log: seq<Event>)
    requires UuidProgress(dp, start, vs, log0, k, known, hasAudio, log) && k >= |vs|
    ensures known == UuidsAfter(start, vs)
    ensures hasAudio == NewAudioUuid(start, vs)
    ensures log == log0 + UuidEvents(dp, start, vs)
  {
    assert vs[k..] == [];
    assert UuidsAfter(known, vs[k..]) == known;
    assert UuidEvents(dp, known, vs[k..]) == [];
    assert !NewAudioUuid(known, vs[k..]);
    assert log == log + UuidEvents(dp, known, vs[k..]);
  }

  /** The transports a device's slots name, and the events freeing them
      fires, depend on its slots alone. */
  lemma {:induction false} SlotPathsOfSlots(d1: Device, d2: Device, k: nat)
    requires k <= |AllProfiles| && d1.transports == d2.transports
    ensures SlotPaths(d1, k) == SlotPaths(d2, k)
    ensures SlotEvents(d1, k) == SlotEvents(d2, k)
  {
    if k > 0 {
      SlotPathsOfSlots(d1, d2, k - 1);
    }
  }

  /** No path occurs twice in `order`. */
  ghost predicate Distinct(order: seq<Path>) {
    forall i, j | 0 <= i < j < |order| :: order[i] != order[j]
  }

  /** No transport sits in two slots of one device. */
  ghost predicate SlotsDistinct(d: Device) {
    forall p, q | d.transports.Get(p).Some? && d.transports.Get(p) == d.transports.Get(q) :: p == q
  }

  /** Under the invariant a device's slots name distinct transports: the
      transport records which slot holds it. */
  lemma ConsistentSlotsDistinct(devices: map<Path, Device>, transports: map<Path, Transport>, dp: Path)
    requires Consistent(devices, transports) && dp in devices
    ensures SlotsDistinct(devices[dp])
  {
    forall p, q | devices[dp].transports.Get(p).Some? && devices[dp].transports.Get(p) == devices[dp].transports.Get(q)
      ensures p == q
    {
      assert SlotOk(devices, transports, dp, p) && SlotOk(devices, transports, dp, q);
    }
  }

  /** device_free announces each transport of a device with distinct slots
      exactly once, and no other transport. */
  lemma {:induction false} SlotEventsCount(d: Device, k: nat, tp: Path)
    requires k <= |AllProfiles| && SlotsDistinct(d)
    ensures multiset(SlotEvents(d, k))[TransportStateChanged(tp, TransportDisconnected)]
         == if tp in SlotPaths(d, k) then 1 else 0
  {
    if k > 0 {
      SlotEventsCount(d, k - 1, tp);
      if d.transports.Get(AllProfiles[k - 1]) == Some(tp) {
        NotInEarlierSlots(d, k - 1, tp);
        SlotEventsCountHolder(d, k - 1, tp);
      } else {
        SlotEventsCountOther(d, k - 1, tp);
      }
    }
  }

  /** Slot `i` holds `tp`, which no earlier slot holds: `tp` is announced once. */
  lemma SlotEventsCountHolder(d: Device, i: nat, tp: Path)
    requires i < |AllProfiles| && d.transports.Get(AllProfiles[i]) == Some(tp)
    requires tp !in SlotPaths(d, i)
    requires multiset(SlotEvents(d, i))[TransportStateChanged(tp, TransportDisconnected)] == 0
    ensures tp in SlotPaths(d, i + 1)
    ensures multiset(SlotEvents(d, i + 1))[TransportStateChanged(tp, TransportDisconnected)] == 1
  {
    SlotStep(d, i);
  }

  /** Slot `i` does not hold `tp`: neither the count nor membership changes. */
  lemma SlotEventsCountOther(d: Device, i: nat, tp: Path)
    requires i < |AllProfiles| && d.transports.Get(AllProfiles[i]) != Some(tp)
    ensures tp in SlotPaths(d, i + 1) <==> tp in SlotPaths(d, i)
    ensures multiset(SlotEvents(d, i + 1))[TransportStateChanged(tp, TransportDisconnected)]
         == multiset(SlotEvents(d, i))[TransportStateChanged(tp, TransportDisconnected)]
  {
    SlotStep(d, i);
  }

  /** A path is among the first `k` slot paths exactly when one of the first
      `k` slots holds it. */
  lemma {:induction false} SlotPathsMembers(d: Device, k: nat, tp: Path)
    requires k <= |AllProfiles|
    ensures tp in SlotPaths(d, k) <==> exists j | 0 <= j < k :: d.transports.Get(AllProfiles[j]) == Some(tp)
  {
    if k > 0 {
      SlotPathsMembers(d, k - 1, tp);
    }
  }

  /** In a device with distinct slots, the transport of slot `i` is in none
      of the slots before it. */
  lemma NotInEarlierSlots(d: Device, i: nat, tp: Path)
    requires SlotsDistinct(d) && i < |AllProfiles|
    requires d.transports.Get(AllProfiles[i]) == Some(tp)
    ensures tp !in SlotPaths(d, i)
  {
    SlotPathsMembers(d, i, tp);
    forall j | 0 <= j < i ensures d.transports.Get(AllProfiles[j]) != Some(tp) {
      assert AllProfiles[j] != AllProfiles[i];
    }
  }

  /** Every event device_free fires is a disconnected-state event of a
      transport in one of the device's slots. */
  lemma {:induction false} SlotEventsKinds(d: Device, k: nat)
    requires k <= |AllProfiles|
    ensures forall e | e in SlotEvents(d, k) ::
      e.TransportStateChanged? && e.state == TransportDisconnected && e.transport in SlotPaths(d, k)
  {
    if k > 0 {
      SlotEventsKinds(d, k - 1);
    }
  }

  /** Removing devices of a consistent store fires only the connection-changed
      hook of an audio-ready removed device, with `dead` set, and the
      disconnected-state event of a transport of a removed device. */
  lemma {:induction false} RemovalLogKinds(devs: map<Path, Device>, trs: map<Path, Transport>, order: seq<Path>)
    requires Consistent(devs, trs)
    requires forall i | 0 <= i < |order| :: order[i] in devs
    ensures forall e | e in RemovalLog(devs, order) ::
      (e.DeviceConnectionChanged? && e.dead && e.device in devs && e.device in order && DeviceIsAudioReady(devs[e.device]))
      || (e.TransportStateChanged? && e.state == TransportDisconnected && e.transport in trs
          && trs[e.transport].device in order)
    decreases |order|
  {
    if order != [] {
      var n := |order| - 1;
      var q := order[n];
      RemovalLogKinds(devs, trs, order[..n]);
      SlotEventsKinds(devs[q], |AllProfiles|);
      forall e | e in RemovalEvents(devs[q])
        ensures (e.DeviceConnectionChanged? && e.dead && e.device == q && DeviceIsAudioReady(devs[q]))
          || (e.TransportStateChanged? && e.state == TransportDisconnected && e.transport in trs
              && trs[e.transport].device == q)
      {
        if e.TransportStateChanged? {
          SlotPathsMembers(devs[q], |AllProfiles|, e.transport);
          var j :| 0 <= j < |AllProfiles| && devs[q].transports.Get(AllProfiles[j]) == Some(e.transport);
          assert SlotOk(devs, trs, q, AllProfiles[j]);
        }
      }
      forall i | 0 <= i < n ensures order[..n][i] == order[i] { }
    }
  }

  /** Removing one device of a consistent store announces a transport
      exactly once if the device holds it, and otherwise not at all. */
  lemma RemovalEventsCount(devs: map<Path, Device>, trs: map<Path, Transport>, q: Path, tp: Path)
    requires Consistent(devs, trs) && q in devs && tp in trs
    ensures multiset(RemovalEvents(devs[q]))[TransportStateChanged(tp, TransportDisconnected)]
         == if trs[tp].device == q then 1 else 0
  {
    ConsistentSlotsDistinct(devs, trs, q);
    SlotEventsCount(devs[q], |AllProfiles|, tp);
    RemovalEventsOnlySlots(devs[q], tp);
    HolderIsOwner(devs, trs, q, tp);
  }

  /** The connection-changed hook is no disconnected-state event: a removal
      announces a transport as often as device_free does. */
  lemma RemovalEventsOnlySlots(d: Device, tp: Path)
    ensures multiset(RemovalEvents(d))[TransportStateChanged(tp, TransportDisconnected)]
         == multiset(SlotEvents(d, |AllProfiles|))[TransportStateChanged(tp, TransportDisconnected)]
  {
    var head: seq<Event> := if DeviceIsAudioReady(d) then [DeviceConnectionChanged(d.path, true)] else [];
    assert RemovalEvents(d) == head + SlotEvents(d, |AllProfiles|);
    assert multiset(head)[TransportStateChanged(tp, TransportDisconnected)] == 0;
  }

  /** Under the invariant a device holds a transport in one of its slots
      exactly when the transport names it as its device. */
  lemma HolderIsOwner(devs: map<Path, Device>, trs: map<Path, Transport>, q: Path, tp: Path)
    requires Consistent(devs, trs) && q in devs && tp in trs
    ensures tp in SlotPaths(devs[q], |AllProfiles|) <==> trs[tp].device == q
  {
    var d := devs[q];
    SlotPathsMembers(d, |AllProfiles|, tp);
    assert TransportOk(devs, trs, tp);
    var t := trs[tp];
    if t.device == q {
      AllProfilesListsEveryProfile(t.profile);
      var j :| 0 <= j < |AllProfiles| && AllProfiles[j] == t.profile;
      assert d.transports.Get(AllProfiles[j]) == Some(tp);
    } else {
      forall j | 0 <= j < |AllProfiles| ensures d.transports.Get(AllProfiles[j]) != Some(tp) {
        assert SlotOk(devs, trs, q, AllProfiles[j]);
      }
    }
  }

  /** The first `n` entries of a repetition-free order are repetition-free
      and do not hold entry `n`. */
  lemma DistinctPrefix(order: seq<Path>, n: nat)
    requires Distinct(order) && n < |order|
    ensures Distinct(order[..n]) && order[n] !in order[..n]
  {
    forall i | 0 <= i < n ensures order[..n][i] == order[i] != order[n] { }
  }

  /** Removing the devices in a repetition-free order announces each transport
      whose device is among them exactly once, and no other transport. */
  lemma {:induction false} RemovalLogCount(devs: map<Path, Device>, trs: map<Path, Transport>, order: seq<Path>, tp: Path)
    requires Consistent(devs, trs) && tp in trs
    requires forall i | 0 <= i < |order| :: order[i] in devs
    requires Distinct(order)
    ensures multiset(RemovalLog(devs, order))[TransportStateChanged(tp, TransportDisconnected)]
         == if trs[tp].device in order then 1 else 0
    decreases |order|
  {
    if order != [] {
      var ev := TransportStateChanged(tp, TransportDisconnected);
      var n := |order| - 1;
      var q := order[n];
      var prefix := order[..n];
      assert order == prefix + [q];
      DistinctPrefix(order, n);
      RemovalLogCount(devs, trs, prefix, tp);
      RemovalEventsCount(devs, trs, q, tp);
      assert multiset(RemovalLog(devs, order))[ev]
          == multiset(RemovalLog(devs, prefix))[ev] + multiset(RemovalEvents(devs[q]))[ev];
    }
  }

  /** remove_all_devices' loop after taking out the devices of `order`,
      starting from the devices `od` and the log `log0`: the rest of `od`
      is left as it was, and the log holds their removal events. */
  ghost predicate RemoveProgress(od: map<Path, Device>, log0: seq<Event>, order: seq<Path>,
                                 devs: map<Path, Device>, log: seq<Event>)
  {
    (forall dp | dp in devs :: dp in od && devs[dp] == od[dp])
    && (forall i | 0 <= i < |order| :: order[i] in od && order[i] !in devs)
    && (forall dp | dp in od :: dp in devs || dp in order)
    && Distinct(order)
    && log == log0 + RemovalLog(od, order)
  }

  lemma RemoveProgressStart(od: map<Path, Device>, log0: seq<Event>)
    ensures RemoveProgress(od, log0, [], od, log0)
  {
  }

  /** Taking out one more device `dp` appends its removal events. */
  lemma RemoveProgressStep(od: map<Path, Device>, log0: seq<Event>, order: seq<Path>,
                           devs: map<Path, Device>, log: seq<Event>, dp: Path)
    requires RemoveProgress(od, log0, order, devs, log) && dp in devs
    ensures RemoveProgress(od, log0, order + [dp], devs - {dp}, log + RemovalEvents(devs[dp]))
  {
    var order' := order + [dp];
    assert order'[..|order|] == order;
    forall i | 0 <= i < |order'| ensures order'[i] in od && order'[i] !in devs - {dp} {
      if i < |order| { assert order'[i] == order[i]; }
    }
    forall i, j | 0 <= i < j < |order'| ensures order'[i] != order'[j] {
      if j < |order| { assert order'[i] == order[i] && order'[j] == order[j]; }
    }
  }

  /** With no device left, `order` is the whole of `od` and the log's new part
      is its removal log. */
  lemma RemoveProgressDone(od: map<Path, Device>, log0: seq<Event>, order: seq<Path>, log: seq<Event>)
    requires RemoveProgress(od, log0, order, map[], log)
    ensures forall dp | dp in od :: dp in order
    ensures |log0| <= |log| && log[|log0|..] == RemovalLog(od, order)
  {
  }

  /** The states around run_callback and device_free compose into the removal
      of `dp`: the device gone, its transports gone, its removal events
      appended. */
  lemma RemoveOneSteps(before: (map<Path, Device>, map<Path, Transport>, seq<Event>),
                       mid: (map<Path, Device>, map<Path, Transport>, seq<Event>),
                       after: (map<Path, Device>, map<Path, Transport>, seq<Event>), dp: Path)
    requires dp in before.0 && before.0[dp].path == dp && dp in mid.0
    requires var d := before.0[dp];
      mid.0 == before.0[dp := mid.0[dp]] && mid.0[dp].transports == d.transports
      && mid.1 == before.1
      && mid.2 == before.2 + (if DeviceIsAudioReady(d) then [DeviceConnectionChanged(dp, true)] else [])
    requires after.0 == mid.0 - {dp}
    requires after.1 == mid.1 - SlotPaths(before.0[dp], |AllProfiles|)
    requires after.2 == mid.2 + SlotEvents(before.0[dp], |AllProfiles|)
    ensures after.0 == before.0 - {dp}
    ensures after.1 == before.1 - SlotPaths(before.0[dp], |AllProfiles|)
    ensures after.2 == before.2 + RemovalEvents(before.0[dp])
  {
    assert mid.0 - {dp} == before.0 - {dp};
  }

  /** The store after device_free's loop has handled the first `i` slots of
      `od`, starting from `start`. */
  ghost predicate FreeProgress(start: (map<Path, Device>, map<Path, Transport>, seq<Event>), od: Device, dp: Path, i: nat,
                               now: (map<Path, Device>, map<Path, Transport>, seq<Event>))
  {
    i <= |AllProfiles|
    && now.0 == start.0[dp := od.(transports := ClearedSlots(od.transports, i))]
    && now.1 == start.1 - SlotPaths(od, i)
    && now.2 == start.2 + SlotEvents(od, i)
  }

  /** One pass of device_free's loop: an empty slot changes nothing; an
      occupied one is emptied, its transport removed and announced. */
  lemma FreeStep(start: (map<Path, Device>, map<Path, Transport>, seq<Event>), od: Device, dp: Path, i: nat,
                 now: (map<Path, Device>, map<Path, Transport>, seq<Event>))
    requires FreeProgress(start, od, dp, i, now) && i < |AllProfiles|
    ensures var p := AllProfiles[i];
      now.0[dp].transports.Get(p) == od.transports.Get(p)
      && (od.transports.Get(p).None? ==> FreeProgress(start, od, dp, i + 1, now))
      && (od.transports.Get(p).Some? ==>
            var d := now.0[dp];
            var tp := od.transports.Get(p).value;
            FreeProgress(start, od, dp, i + 1,
              (now.0[dp := d.(transports := d.transports.Set(p, None))], now.1 - {tp},
               now.2 + [TransportStateChanged(tp, TransportDisconnected)])))
  {
    SlotStep(od, i);
    var p := AllProfiles[i];
    if od.transports.Get(p).Some? {
      MinusUnion(start.1, SlotPaths(od, i), od.transports.Get(p).value);
    }
  }

  /** One step of device_free's slot loop, on the specification side. */
  lemma SlotStep(d: Device, i: nat)
    requires i < |AllProfiles|
    ensures SlotPaths(d, i + 1) == SlotPaths(d, i) + (match d.transports.Get(AllProfiles[i]) case Some(tp) => {tp} case None => {})
    ensures ClearedSlots(d.transports, i + 1) == ClearedSlots(d.transports, i).Set(AllProfiles[i], None)
    ensures SlotEvents(d, i + 1) == SlotEvents(d, i)
      + match d.transports.Get(AllProfiles[i])
        case Some(tp) => [TransportStateChanged(tp, TransportDisconnected)]
        case None => []
  {
  }
}
