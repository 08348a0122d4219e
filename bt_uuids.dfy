/** Service UUIDs of a device (bluetooth-util.c): case-insensitive comparison,
    the membership walk pa_bluetooth_uuid_has, and what one "UUIDs" property
    does to a device's UUID list and to the event log in parse_device_property. */
module BtUuids {
  import opened Common
  import opened BtTypes

  /** ASCII tolower, as strcasecmp applies it in the C locale. */
  function Lower(c: char): char {
    if 'A' <= c <= 'Z' then (c as int + 32) as char else c
  }

  /** strcasecmp(a, b) == 0: equal strings match, and a match has the same
      length and the same letters up to case. */
  predicate SameUuid(a: string, b: string): (r: bool)
    ensures a == b ==> r
    ensures r ==> |a| == |b|
  {
    |a| == |b| && forall i | 0 <= i < |a| :: Lower(a[i]) == Lower(b[i])
  }

  /** Some element of `uuids` equals `uuid` ignoring case. */
  predicate HasUuid(uuids: seq<string>, uuid: string) {
    exists k | 0 <= k < |uuids| :: SameUuid(uuids[k], uuid)
  }

  /** No two elements of `uuids` are equal ignoring case. */
  ghost predicate DistinctUuids(uuids: seq<string>) {
    forall i, j | 0 <= i < j < |uuids| :: !SameUuid(uuids[i], uuids[j])
  }

  /** pa_bluetooth_uuid_has: walks the list until a case-insensitive match. */
  method UuidHas(uuids: seq<string>, uuid: string) returns (found: bool)
    ensures found <==> HasUuid(uuids, uuid)
  {
    var k := 0;
    while k < |uuids|
      invariant 0 <= k <= |uuids|
      invariant forall j | 0 <= j < k :: !SameUuid(uuids[j], uuid)
    {
      if SameUuid(uuids[k], uuid) {
        return true;
      }
      k := k + 1;
    }
    return false;
  }

  /** The audio UUIDs, 16-bit service classes of the Bluetooth Assigned Numbers
      (0x1108 Headset, 0x1112 Headset Audio Gateway, 0x111E Handsfree,
      0x111F Handsfree Audio Gateway, 0x110A Audio Source, 0x110B Audio Sink)
      on the Bluetooth base UUID. */
  const HspHsUuid: string := "00001108-0000-1000-8000-00805f9b34fb"
  const HspAgUuid: string := "00001112-0000-1000-8000-00805f9b34fb"
  const HfpHsUuid: string := "0000111e-0000-1000-8000-00805f9b34fb"
  const HfpAgUuid: string := "0000111f-0000-1000-8000-00805f9b34fb"
  const A2dpSourceUuid: string := "0000110a-0000-1000-8000-00805f9b34fb"
  const A2dpSinkUuid: string := "0000110b-0000-1000-8000-00805f9b34fb"

  /** The profile whose interface parse_device_property queries when `uuid` is
      newly announced; None exactly for a non-audio UUID, and a gateway UUID
      always selects the HandsfreeGateway interface. */
  function ProfileForUuid(uuid: string): (r: Option<Profile>)
    ensures r.Some? <==>
      SameUuid(HspAgUuid, uuid) || SameUuid(HfpAgUuid, uuid) || SameUuid(HspHsUuid, uuid)
      || SameUuid(HfpHsUuid, uuid) || SameUuid(A2dpSinkUuid, uuid) || SameUuid(A2dpSourceUuid, uuid)
    ensures r == Some(Hfgw) <==> SameUuid(HspAgUuid, uuid) || SameUuid(HfpAgUuid, uuid)
  {
    if SameUuid(HspAgUuid, uuid) || SameUuid(HfpAgUuid, uuid) then Some(Hfgw)
    else if SameUuid(HspHsUuid, uuid) || SameUuid(HfpHsUuid, uuid) then Some(Hsp)
    else if SameUuid(A2dpSinkUuid, uuid) then Some(A2dp)
    else if SameUuid(A2dpSourceUuid, uuid) then Some(A2dpSource)
    else None
  }

  /** One UUID of the property: prepended unless already known. */
  function AddUuid(known: seq<string>, v: string): seq<string> {
    if HasUuid(known, v) then known else [v] + known
  }

  /** The device's UUID list after the loop over `vs`: the loop only adds, at
      most one entry per announced UUID. */
  function UuidsAfter(known: seq<string>, vs: seq<string>): (r: seq<string>)
    ensures |known| <= |r| <= |known| + |vs|
    decreases |vs|
  {
    if vs == [] then known else UuidsAfter(AddUuid(known, vs[0]), vs[1..])
  }

  /** Events of one UUID: nothing when already known, otherwise the UUID-added
      hook and, for an audio UUID, a GetProperties call on its profile interface. */
  function UuidStepEvents(dp: Path, known: seq<string>, v: string): seq<Event> {
    if HasUuid(known, v) then []
    else
      [DeviceUuidAdded(dp, v)]
      + match ProfileForUuid(v)
        case Some(p) => [GetPropertiesCall(dp, ProfileInterface(p))]
        case None => []
  }

  /** Events of the loop over `vs`, in order. */
  function UuidEvents(dp: Path, known: seq<string>, vs: seq<string>): seq<Event>
    decreases |vs|
  {
    if vs == [] then []
    else UuidStepEvents(dp, known, vs[0]) + UuidEvents(dp, AddUuid(known, vs[0]), vs[1..])
  }

  /** `has_audio`: some newly added UUID of `vs` is an audio UUID. */
  function NewAudioUuid(known: seq<string>, vs: seq<string>): bool
    decreases |vs|
  {
    if vs == [] then false
    else
      (!HasUuid(known, vs[0]) && ProfileForUuid(vs[0]).Some?)
      || NewAudioUuid(AddUuid(known, vs[0]), vs[1..])
  }

  /** Every event of the "UUIDs" property: the loop's events, then one
      GetProperties call on the aggregate Audio interface if an audio UUID was new. */
  function UuidPropertyEvents(dp: Path, known: seq<string>, vs: seq<string>): seq<Event> {
    UuidEvents(dp, known, vs)
    + (if NewAudioUuid(known, vs) then [GetPropertiesCall(dp, AudioInterface)] else [])
  }

  /** The six audio UUIDs differ in their eighth character even ignoring case,
      so each selects its own interface whatever the order of the tests. */
  lemma ProfileForUuidByClass(uuid: string)
    ensures SameUuid(HspHsUuid, uuid) || SameUuid(HfpHsUuid, uuid) ==> ProfileForUuid(uuid) == Some(Hsp)
    ensures SameUuid(A2dpSinkUuid, uuid) ==> ProfileForUuid(uuid) == Some(A2dp)
    ensures SameUuid(A2dpSourceUuid, uuid) ==> ProfileForUuid(uuid) == Some(A2dpSource)
  {
    if |uuid| == 36 {
      var c := Lower(uuid[7]);
      assert SameUuid(HspAgUuid, uuid) ==> c == '2';
      assert SameUuid(HfpAgUuid, uuid) ==> c == 'f';
      assert SameUuid(HspHsUuid, uuid) ==> c == '8';
      assert SameUuid(HfpHsUuid, uuid) ==> c == 'e';
      assert SameUuid(A2dpSinkUuid, uuid) ==> c == 'b';
      assert SameUuid(A2dpSourceUuid, uuid) ==> c == 'a';
    }
  }

  lemma SameUuidSymmetric(a: string, b: string)
    ensures SameUuid(a, b) == SameUuid(b, a)
  {
  }

  /** The list only grows at the front, every announced UUID is known afterwards,
      and nothing but old and announced UUIDs is in it. */
  lemma UuidsAfterCovers(known: seq<string>, vs: seq<string>)
    ensures |known| <= |UuidsAfter(known, vs)|
    ensures UuidsAfter(known, vs)[|UuidsAfter(known, vs)| - |known|..] == known
    ensures forall v | v in vs :: HasUuid(UuidsAfter(known, vs), v)
    ensures forall u | u in UuidsAfter(known, vs) :: u in known || u in vs
  {
    UuidsAfterKeepsKnown(known, vs);
    UuidsAfterHasAll(known, vs);
    UuidsAfterOnlyAnnounced(known, vs);
  }

  lemma {:induction false} UuidsAfterKeepsKnown(known: seq<string>, vs: seq<string>)
    ensures |known| <= |UuidsAfter(known, vs)|
    ensures UuidsAfter(known, vs)[|UuidsAfter(known, vs)| - |known|..] == known
    decreases |vs|
  {
    if vs != [] {
      var k1 := AddUuid(known, vs[0]);
      UuidsAfterKeepsKnown(k1, vs[1..]);
      var r := UuidsAfter(k1, vs[1..]);
      assert UuidsAfter(known, vs) == r;
      var extra := if k1 == known then [] else [vs[0]];
      assert k1 == extra + known;
      SuffixOfSuffix(r, extra, known);
    }
  }

  lemma SuffixOfSuffix(r: seq<string>, extra: seq<string>, known: seq<string>)
    requires |extra + known| <= |r| && r[|r| - |extra + known|..] == extra + known
    ensures |known| <= |r| && r[|r| - |known|..] == known
  {
    assert r[|r| - |known|..] == r[|r| - |extra + known|..][|extra|..];
  }

  /** A UUID known before the loop is still known after it. */
  lemma StillKnown(known: seq<string>, vs: seq<string>, v: string)
    requires HasUuid(known, v)
    ensures HasUuid(UuidsAfter(known, vs), v)
  {
    UuidsAfterKeepsKnown(known, vs);
    var r := UuidsAfter(known, vs);
    var k :| 0 <= k < |known| && SameUuid(known[k], v);
    assert r[|r| - |known| + k] == known[k];
  }

  lemma {:induction false} UuidsAfterHasAll(known: seq<string>, vs: seq<string>)
    ensures forall v | v in vs :: HasUuid(UuidsAfter(known, vs), v)
    decreases |vs|
  {
    if vs != [] {
      var k1 := AddUuid(known, vs[0]);
      UuidsAfterHasAll(k1, vs[1..]);
      assert HasUuid(k1, vs[0]) by {
        if !HasUuid(known, vs[0]) {
          assert k1[0] == vs[0];
        }
      }
      StillKnown(k1, vs[1..], vs[0]);
      forall v | v in vs
        ensures HasUuid(UuidsAfter(known, vs), v)
      {
        if v != vs[0] {
          assert v in vs[1..];
        }
      }
    }
  }

  lemma {:induction false} UuidsAfterOnlyAnnounced(known: seq<string>, vs: seq<string>)
    ensures forall u | u in UuidsAfter(known, vs) :: u in known || u in vs
    decreases |vs|
  {
    if vs != [] {
      var k1 := AddUuid(known, vs[0]);
      UuidsAfterOnlyAnnounced(k1, vs[1..]);
      forall u | u in UuidsAfter(known, vs)
        ensures u in known || u in vs
      {
        assert u in k1 || u in vs[1..];
      }
    }
  }

  /** Adding never creates two UUIDs that are equal ignoring case. */
  lemma {:induction false} UuidsAfterDistinct(known: seq<string>, vs: seq<string>)
    requires DistinctUuids(known)
    ensures DistinctUuids(UuidsAfter(known, vs))
    decreases |vs|
  {
    if vs != [] {
      var k1 := AddUuid(known, vs[0]);
      if !HasUuid(known, vs[0]) {
        forall i, j | 0 <= i < j < |k1|
          ensures !SameUuid(k1[i], k1[j])
        {
          if i == 0 {
            assert k1[j] == known[j - 1];
            SameUuidSymmetric(known[j - 1], vs[0]);
          } else {
            assert k1[i] == known[i - 1] && k1[j] == known[j - 1];
          }
        }
      }
      UuidsAfterDistinct(k1, vs[1..]);
    }
  }

  /** Announcing only UUIDs the device already has changes nothing and fires nothing. */
  lemma {:induction false} KnownUuidsAreNoOp(dp: Path, known: seq<string>, vs: seq<string>)
    requires forall v | v in vs :: HasUuid(known, v)
    ensures UuidsAfter(known, vs) == known
    ensures UuidPropertyEvents(dp, known, vs) == []
    decreases |vs|
  {
    if vs != [] {
      assert vs[0] in vs;
      assert AddUuid(known, vs[0]) == known;
      forall v | v in vs[1..] ensures HasUuid(known, v) {
        assert v in vs;
      }
      KnownUuidsAreNoOp(dp, known, vs[1..]);
    }
  }

  /** The same property delivered twice: the second delivery is a no-op. */
  lemma UuidPropertyIdempotent(dp: Path, known: seq<string>, vs: seq<string>)
    ensures UuidsAfter(UuidsAfter(known, vs), vs) == UuidsAfter(known, vs)
    ensures UuidPropertyEvents(dp, UuidsAfter(known, vs), vs) == []
  {
    UuidsAfterCovers(known, vs);
    KnownUuidsAreNoOp(dp, UuidsAfter(known, vs), vs);
  }

  /** A device with no UUIDs that announces the A2DP-sink UUID gets one
      UUID-added hook, one AudioSink property fetch and one Audio property fetch. */
  lemma A2dpSinkAnnouncement(dp: Path)
    ensures UuidsAfter([], [A2dpSinkUuid]) == [A2dpSinkUuid]
    ensures UuidPropertyEvents(dp, [], [A2dpSinkUuid])
         == [DeviceUuidAdded(dp, A2dpSinkUuid),
             GetPropertiesCall(dp, "org.bluez.AudioSink"),
             GetPropertiesCall(dp, AudioInterface)]
  {
    var a := A2dpSinkUuid;
    assert !HasUuid([], a);
    assert ProfileForUuid(a) == Some(A2dp) by {
      DifferAt(HspAgUuid, a, 6);
      DifferAt(HfpAgUuid, a, 6);
      DifferAt(HspHsUuid, a, 7);
      DifferAt(HfpHsUuid, a, 6);
    }
    assert [a][1..] == [];
    assert UuidsAfter([], [a]) == UuidsAfter([a], []);
    assert UuidEvents(dp, [], [a]) == UuidStepEvents(dp, [], a) + UuidEvents(dp, [a], []);
    assert NewAudioUuid([], [a]);
  }

  lemma DifferAt(a: string, b: string, i: nat)
    requires i < |a| && i < |b| && Lower(a[i]) != Lower(b[i])
    ensures !SameUuid(a, b)
  {
  }
}
