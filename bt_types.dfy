/** The entities of the Bluetooth discovery layer (bluetooth-util.c): audio and
    transport states, the four audio profiles, the device and transport records,
    and the pure state mappings and readiness predicates over them. */
module BtTypes {
  import opened Common

  /** A bus object path, the key of the device and transport maps. */
  type Path = string

  /** Largest headset gain (HSP_MAX_GAIN); gains are clamped to it. */
  const HspMaxGain: Uint16 := 15

  /** pa_bt_audio_state_t. The C enum numbers Invalid as -1 and the others 0..3,
      and the code compares states by that number. */
  datatype AudioState = Invalid | Disconnected | Connecting | Connected | Playing {
    function Rank(): int {
      match this
      case Invalid => -1
      case Disconnected => 0
      case Connecting => 1
      case Connected => 2
      case Playing => 3
    }

    /** `state >= PA_BT_AUDIO_STATE_CONNECTED` */
    predicate AtLeastConnected() {
      Rank() >= Connected.Rank()
    }
  }

  /** pa_bluetooth_transport_state_t */
  datatype TransportState = TransportDisconnected | TransportIdle | TransportPlaying

  /** The audio profiles that own a slot in a device (PROFILE_OFF is modelled as
      the absence of a profile). */
  datatype Profile = A2dp | A2dpSource | Hsp | Hfgw

  /** The slot order of the C arrays, PROFILE_A2DP first. */
  const AllProfiles: seq<Profile> := [A2dp, A2dpSource, Hsp, Hfgw]

  lemma AllProfilesListsEveryProfile(p: Profile)
    ensures p in AllProfiles
  {
  }

  /** A fixed-size array indexed by profile (`x[PA_BLUETOOTH_PROFILE_COUNT]`). */
  datatype PerProfile<T> = PerProfile(a2dp: T, a2dpSource: T, hsp: T, hfgw: T) {
    function Get(p: Profile): T {
      match p
      case A2dp => a2dp
      case A2dpSource => a2dpSource
      case Hsp => hsp
      case Hfgw => hfgw
    }

    function Set(p: Profile, v: T): (r: PerProfile<T>)
      ensures r.Get(p) == v
      ensures forall q :: q != p ==> r.Get(q) == Get(q)
    {
      match p
      case A2dp => this.(a2dp := v)
      case A2dpSource => this.(a2dpSource := v)
      case Hsp => this.(hsp := v)
      case Hfgw => this.(hfgw := v)
    }
  }

  function Uniform<T>(v: T): (r: PerProfile<T>)
    ensures forall p :: r.Get(p) == v
  {
    PerProfile(v, v, v, v)
  }

  /** The four media endpoints registered with the daemon; a SetConfiguration
      or SelectConfiguration call is addressed to one of them. */
  datatype Endpoint = HfpAgEndpoint | HfpHsEndpoint | A2dpSourceEndpoint | A2dpSinkEndpoint {
    predicate IsHfp() { this == HfpAgEndpoint || this == HfpHsEndpoint }
  }

  /** The profile slot a SetConfiguration on endpoint `e` fills: the endpoint
      names the remote role, the slot the local one. */
  function EndpointProfile(e: Endpoint): (p: Profile)
    ensures p == Hsp <==> e == HfpAgEndpoint
    ensures p == Hfgw <==> e == HfpHsEndpoint
    ensures p == A2dp <==> e == A2dpSourceEndpoint
    ensures p == A2dpSource <==> e == A2dpSinkEndpoint
  {
    match e
    case HfpAgEndpoint => Hsp
    case HfpHsEndpoint => Hfgw
    case A2dpSourceEndpoint => A2dp
    case A2dpSinkEndpoint => A2dpSource
  }

  /** Paired/trusted flags: -1 (not yet known), 0 or 1. */
  datatype Tri = Unknown | False | True

  /** device_info_valid: 0 while the Device.GetProperties call is outstanding,
      -1 when it failed, 1 when it succeeded. */
  datatype InfoState = InfoPending | InfoFailed | InfoValid

  /** pa_bluetooth_device. `transports` holds, per profile, the path of the
      transport in the discovery's transport map, standing for the pointer. */
  datatype Device = Device(
    path: Path,
    dead: bool,
    infoValid: InfoState,
    name: Option<string>,
    alias: Option<string>,
    address: Option<string>,
    paired: Tri,
    trusted: Tri,
    deviceClass: int,
    uuids: seq<string>,
    audioState: AudioState,
    profileState: PerProfile<AudioState>,
    transports: PerProfile<Option<Path>>)

  /** pa_bluetooth_transport */
  datatype Transport = Transport(
    device: Path,
    owner: string,
    path: Path,
    profile: Profile,
    config: seq<Byte>,
    state: TransportState,
    nrec: bool,
    microphoneGain: Uint16,
    speakerGain: Uint16)

  /** What the discovery layer makes observable, in order: the hooks it fires
      (pa_hook_fire) and the asynchronous GetProperties calls it sends. */
  datatype Event =
    | DeviceConnectionChanged(device: Path, dead: bool)
    | DeviceUuidAdded(device: Path, uuid: string)
    | TransportStateChanged(transport: Path, state: TransportState)
    | TransportNrecChanged(transport: Path, nrec: bool)
    | TransportMicrophoneGainChanged(transport: Path, gain: Uint16)
    | TransportSpeakerGainChanged(transport: Path, gain: Uint16)
    | GetPropertiesCall(object: Path, iface: string)

  /** pa_bt_audio_state_from_string: exact, case-sensitive match of the four
      names the daemon sends; anything else is Invalid. */
  function AudioStateFromString(value: string): (r: AudioState)
    ensures r != Invalid ==> AudioStateName(r) == value
    ensures r == Invalid <==> forall s :: s != Invalid ==> AudioStateName(s) != value
  {
    if value == "disconnected" then Disconnected
    else if value == "connecting" then Connecting
    else if value == "connected" then Connected
    else if value == "playing" then Playing
    else Invalid
  }

  /** The daemon's name of each valid state. */
  function AudioStateName(s: AudioState): string
    requires s != Invalid
  {
    match s
    case Disconnected => "disconnected"
    case Connecting => "connecting"
    case Connected => "connected"
    case Playing => "playing"
  }

  lemma AudioStateNameRoundTrip(s: AudioState)
    requires s != Invalid
    ensures AudioStateFromString(AudioStateName(s)) == s
  {
  }

  /** audio_state_to_transport_state: total over the five states. */
  function TransportStateOf(s: AudioState): (r: TransportState)
    ensures r == TransportDisconnected <==> !s.AtLeastConnected()
    ensures r == TransportIdle <==> s == Connected
    ensures r == TransportPlaying <==> s == Playing
  {
    match s
    case Invalid => TransportDisconnected
    case Disconnected => TransportDisconnected
    case Connecting => TransportDisconnected
    case Connected => TransportIdle
    case Playing => TransportPlaying
  }

  function TransportRank(t: TransportState): int {
    match t
    case TransportDisconnected => 0
    case TransportIdle => 1
    case TransportPlaying => 2
  }

  /** A more advanced audio state never maps to a less advanced transport state. */
  lemma TransportStateMonotone(a: AudioState, b: AudioState)
    requires a.Rank() <= b.Rank()
    ensures TransportRank(TransportStateOf(a)) <= TransportRank(TransportStateOf(b))
  {
  }

  const AudioInterface: string := "org.bluez.Audio"

  /** The per-profile D-Bus interface of the daemon. */
  function ProfileInterface(p: Profile): string {
    match p
    case A2dp => "org.bluez.AudioSink"
    case A2dpSource => "org.bluez.AudioSource"
    case Hsp => "org.bluez.Headset"
    case Hfgw => "org.bluez.HandsfreeGateway"
  }

  /** profile_from_interface: the inverse of ProfileInterface; unknown
      interfaces give no profile. */
  function ProfileFromInterface(iface: string): (r: Option<Profile>)
    ensures r.Some? ==> ProfileInterface(r.value) == iface
    ensures r.None? <==> forall p :: ProfileInterface(p) != iface
  {
    if iface == "org.bluez.AudioSink" then Some(A2dp)
    else if iface == "org.bluez.AudioSource" then Some(A2dpSource)
    else if iface == "org.bluez.Headset" then Some(Hsp)
    else if iface == "org.bluez.HandsfreeGateway" then Some(Hfgw)
    else None
  }

  /** device_new: a device seen for the first time. */
  function NewDevice(path: Path): (d: Device)
    ensures d.path == path && !d.dead && d.infoValid == InfoPending
    ensures d.name.None? && d.alias.None? && d.address.None?
    ensures d.paired == Unknown && d.trusted == Unknown && d.deviceClass == -1
    ensures d.uuids == []
    ensures d.audioState == Invalid && forall p :: d.profileState.Get(p) == Invalid
    ensures forall p :: d.transports.Get(p).None?
  {
    Device(path, false, InfoPending, None, None, None, Unknown, Unknown, -1, [],
           Invalid, Uniform(Invalid), Uniform(None))
  }

  /** transport_new: the state is derived from the device's state for the profile;
      NREC and both gains start at zero (the record is zero-allocated). */
  function NewTransport(d: Device, owner: string, path: Path, p: Profile, config: seq<Byte>): (t: Transport)
    ensures t.device == d.path && t.owner == owner && t.path == path && t.profile == p
    ensures t.config == config
    ensures t.state == TransportStateOf(d.profileState.Get(p))
    ensures !t.nrec && t.microphoneGain == 0 && t.speakerGain == 0
  {
    Transport(d.path, owner, path, p, config, TransportStateOf(d.profileState.Get(p)), false, 0, 0)
  }

  /** The slot scan of device_is_audio_ready, from slot `i` on. */
  function AnySlotValid(states: PerProfile<AudioState>, i: nat): (r: bool)
    requires i <= |AllProfiles|
    ensures r <==> exists j | i <= j < |AllProfiles| :: states.Get(AllProfiles[j]) != Invalid
    decreases |AllProfiles| - i
  {
    if i == |AllProfiles| then false
    else states.Get(AllProfiles[i]) != Invalid || AnySlotValid(states, i + 1)
  }

  /** device_is_audio_ready. The C test is `!d->device_info_valid`, so a failed
      fetch (-1) passes as well as a successful one. */
  function DeviceIsAudioReady(d: Device): (r: bool)
    ensures r <==> d.infoValid != InfoPending && d.audioState != Invalid
                   && exists p :: d.profileState.Get(p) != Invalid
  {
    if d.infoValid == InfoPending || d.audioState == Invalid then false
    else
      var r := AnySlotValid(d.profileState, 0);
      assert r ==> exists p :: d.profileState.Get(p) != Invalid;
      assert (exists p :: d.profileState.Get(p) != Invalid) ==> r by {
        forall p | d.profileState.Get(p) != Invalid
          ensures exists j | 0 <= j < |AllProfiles| :: d.profileState.Get(AllProfiles[j]) != Invalid
        {
          var j := match p case A2dp => 0 case A2dpSource => 1 case Hsp => 2 case Hfgw => 3;
          assert AllProfiles[j] == p;
        }
      }
      r
  }

  /** pa_bluetooth_device_any_audio_connected. Only the aggregate Audio state and
      the A2DP-source and handsfree-gateway slots are consulted. */
  function AnyAudioConnected(d: Device): (r: bool)
    ensures r <==> !d.dead && DeviceIsAudioReady(d)
                   && (d.audioState.AtLeastConnected()
                       || d.profileState.Get(A2dpSource).AtLeastConnected()
                       || d.profileState.Get(Hfgw).AtLeastConnected())
  {
    if d.dead || !DeviceIsAudioReady(d) then false
    else
      d.audioState.AtLeastConnected()
      || d.profileState.Get(A2dpSource).AtLeastConnected()
      || d.profileState.Get(Hfgw).AtLeastConnected()
  }

  /** A device just created is neither audio-ready nor connected. */
  lemma NewDeviceNotReady(path: Path)
    ensures !DeviceIsAudioReady(NewDevice(path)) && !AnyAudioConnected(NewDevice(path))
  {
  }

  /** The A2DP-sink and headset slots do not decide connectedness once some
      slot is valid: changing one of them to another valid state leaves
      AnyAudioConnected as it was. */
  lemma SinkAndHeadsetIgnored(d: Device, p: Profile, s: AudioState)
    requires p == A2dp || p == Hsp
    requires d.profileState.Get(p) != Invalid && s != Invalid
    ensures AnyAudioConnected(d.(profileState := d.profileState.Set(p, s))) == AnyAudioConnected(d)
  {
    var e := d.(profileState := d.profileState.Set(p, s));
    assert e.profileState.Get(p) != Invalid;
    assert DeviceIsAudioReady(e) == DeviceIsAudioReady(d);
  }
}
