/** SBC codec negotiation of the media endpoints (endpoint_select_configuration
    and a2dp_default_bitpool in bluetooth-util.c). The remote side offers a
    capability record whose fields are bitmasks; the endpoint answers with a
    configuration holding one chosen bit per field and a bitpool range. */
module BtCodec {
  import opened Common
  import opened BtTypes

  // SBC field values of the A2DP specification (section 4.3.2); each
  // capability field is a mask of these bits.
  const Freq16000: bv8 := 8
  const Freq32000: bv8 := 4
  const Freq44100: bv8 := 2
  const Freq48000: bv8 := 1

  const ModeMono: bv8 := 8
  const ModeDualChannel: bv8 := 4
  const ModeStereo: bv8 := 2
  const ModeJointStereo: bv8 := 1

  const BlockLength4: bv8 := 8
  const BlockLength8: bv8 := 4
  const BlockLength12: bv8 := 2
  const BlockLength16: bv8 := 1

  const Subbands4: bv8 := 2
  const Subbands8: bv8 := 1

  const AllocationSnr: bv8 := 2
  const AllocationLoudness: bv8 := 1

  const MinBitpool: Byte := 2
  const MaxBitpool: Byte := 64

  /** a2dp_sbc_t, field by field. */
  datatype SbcCapabilities = SbcCapabilities(
    channelMode: bv8,
    frequency: bv8,
    allocationMethod: bv8,
    subbands: bv8,
    blockLength: bv8,
    minBitpool: Byte,
    maxBitpool: Byte)

  /** `mask & bit` is non-zero. */
  predicate Offers(mask: bv8, bit: bv8) {
    mask & bit != 0
  }

  /** freq_table: the sampling rates in ascending order and their bits. */
  const FreqRates: seq<int> := [16000, 32000, 44100, 48000]
  const FreqBits: seq<bv8> := [Freq16000, Freq32000, Freq44100, Freq48000]

  /** The arguments of SelectConfiguration: not a byte array (the argument
      check fails), or `size` bytes decoded as an SBC capability record. */
  datatype SelectArgs = NotAByteArray | ByteArray(size: nat, cap: SbcCapabilities)

  /** sizeof(a2dp_sbc_t). */
  const SbcRecordSize: nat := 4

  /** The reply: a configuration, the InvalidArguments error, or (on the HFP
      endpoints) `size` bytes of the configuration record before it was
      initialised. */
  datatype Selection = Selected(config: SbcCapabilities) | Uninitialised(size: nat) | Rejected

  /** a2dp_default_bitpool. */
  function DefaultBitpool(freq: bv8, mode: bv8): (r: Byte)
    ensures MinBitpool <= r <= MaxBitpool
  {
    if freq == Freq16000 || freq == Freq32000 then 53
    else if freq == Freq44100 then
      (if mode == ModeMono || mode == ModeDualChannel then 31 else 53)
    else if freq == Freq48000 then
      (if mode == ModeMono || mode == ModeDualChannel then 29 else 51)
    else 53
  }

  /** The high-quality bitpool recommended by the A2DP specification (section
      4.3, "Recommended sets of SBC parameters") for 44.1 and 48 kHz, mono and
      joint stereo. */
  function HighQualityBitpool(rate: int, stereo: bool): Byte
    requires rate == 44100 || rate == 48000
  {
    if rate == 44100 then (if stereo then 53 else 31)
    else (if stereo then 51 else 29)
  }

  /** The default bitpool is the recommended high-quality value; dual channel
      counts as mono and stereo as joint stereo. */
  lemma DefaultBitpoolIsHighQuality(k: nat, mode: bv8)
    requires k == 2 || k == 3
    requires mode in {ModeMono, ModeDualChannel, ModeStereo, ModeJointStereo}
    ensures DefaultBitpool(FreqBits[k], mode)
         == HighQualityBitpool(FreqRates[k], mode == ModeStereo || mode == ModeJointStereo)
  {
  }

  /** The rest of a2dp_default_bitpool's table: 53 at 16 and 32 kHz whatever
      the mode; for a channel mode that is none of the four (such as the 0
      left for mono output when mono is not offered) 53 at 44.1 kHz and 51 at
      48 kHz; and 53 for a frequency that is none of the four. */
  lemma DefaultBitpoolFallbacks(freq: bv8, mode: bv8)
    ensures DefaultBitpool(Freq16000, mode) == 53 && DefaultBitpool(Freq32000, mode) == 53
    ensures mode !in {ModeMono, ModeDualChannel, ModeStereo, ModeJointStereo} ==>
      DefaultBitpool(Freq44100, mode) == 53 && DefaultBitpool(Freq48000, mode) == 51
    ensures freq !in FreqBits ==> DefaultBitpool(freq, mode) == 53
  {
  }

  /** The first bit of `prefs` that `mask` offers, or 0 when it offers none. */
  function FirstOffered(mask: bv8, prefs: seq<bv8>): (r: bv8)
    requires 0 !in prefs
    ensures r == 0 <==> forall k | 0 <= k < |prefs| :: !Offers(mask, prefs[k])
    decreases |prefs|
  {
    if prefs == [] then 0
    else if Offers(mask, prefs[0]) then prefs[0]
    else
      assert forall k | 1 <= k < |prefs| :: prefs[k] == prefs[1..][k - 1];
      FirstOffered(mask, prefs[1..])
  }

  /** A non-zero choice is the most preferred offered bit: it is offered, and
      every bit listed before it is not. */
  lemma {:induction false} FirstOfferedIsFirst(mask: bv8, prefs: seq<bv8>)
    requires 0 !in prefs
    requires FirstOffered(mask, prefs) != 0
    ensures exists k | 0 <= k < |prefs| ::
      FirstOffered(mask, prefs) == prefs[k] && Offers(mask, prefs[k])
      && forall j | 0 <= j < k :: !Offers(mask, prefs[j])
    decreases |prefs|
  {
    if !Offers(mask, prefs[0]) {
      var r := FirstOffered(mask, prefs[1..]);
      FirstOfferedIsFirst(mask, prefs[1..]);
      var k :| 0 <= k < |prefs[1..]| && r == prefs[1..][k] && Offers(mask, prefs[1..][k])
        && forall j | 0 <= j < k :: !Offers(mask, prefs[1..][j]);
      assert r == prefs[k + 1] && forall j | 0 <= j < k + 1 :: !Offers(mask, prefs[j]);
    }
  }

  lemma FirstOfferedOfTwo(mask: bv8, a: bv8, b: bv8)
    requires a != 0 && b != 0
    ensures FirstOffered(mask, [a, b]) == if Offers(mask, a) then a else if Offers(mask, b) then b else 0
  {
    assert [a, b][1..] == [b] && [b][1..] == [];
  }

  lemma FirstOfferedOfFour(mask: bv8, a: bv8, b: bv8, c: bv8, d: bv8)
    requires a != 0 && b != 0 && c != 0 && d != 0
    ensures FirstOffered(mask, [a, b, c, d])
         == if Offers(mask, a) then a else if Offers(mask, b) then b
            else if Offers(mask, c) then c else if Offers(mask, d) then d else 0
  {
    assert [a, b, c, d][1..] == [b, c, d] && [b, c, d][1..] == [c, d];
    FirstOfferedOfTwo(mask, c, d);
  }

  /** Preference orders, most preferred first. */
  const StereoModes: seq<bv8> := [ModeJointStereo, ModeStereo, ModeDualChannel, ModeMono]
  const BlockLengths: seq<bv8> := [BlockLength16, BlockLength12, BlockLength8, BlockLength4]
  const SubbandCounts: seq<bv8> := [Subbands8, Subbands4]
  const Allocations: seq<bv8> := [AllocationLoudness, AllocationSnr]

  lemma StereoModePreference(mask: bv8)
    ensures FirstOffered(mask, StereoModes)
         == if Offers(mask, ModeJointStereo) then ModeJointStereo else if Offers(mask, ModeStereo) then ModeStereo
            else if Offers(mask, ModeDualChannel) then ModeDualChannel else if Offers(mask, ModeMono) then ModeMono else 0
  {
    FirstOfferedOfFour(mask, ModeJointStereo, ModeStereo, ModeDualChannel, ModeMono);
  }

  lemma BlockLengthPreference(mask: bv8)
    ensures FirstOffered(mask, BlockLengths)
         == if Offers(mask, BlockLength16) then BlockLength16 else if Offers(mask, BlockLength12) then BlockLength12
            else if Offers(mask, BlockLength8) then BlockLength8 else if Offers(mask, BlockLength4) then BlockLength4 else 0
  {
    FirstOfferedOfFour(mask, BlockLength16, BlockLength12, BlockLength8, BlockLength4);
  }

  /** The forward scan: the first index from `i` on whose rate is at least
      `rate` and whose bit is offered, or |FreqBits| when there is none. */
  function LowestAtLeast(mask: bv8, rate: int, i: nat): (r: nat)
    requires i <= |FreqBits|
    ensures i <= r <= |FreqBits|
    ensures r < |FreqBits| ==> FreqRates[r] >= rate && Offers(mask, FreqBits[r])
    ensures forall j | i <= j < r :: !(FreqRates[j] >= rate && Offers(mask, FreqBits[j]))
    decreases |FreqBits| - i
  {
    if i == |FreqBits| then i
    else if FreqRates[i] >= rate && Offers(mask, FreqBits[i]) then i
    else LowestAtLeast(mask, rate, i + 1)
  }

  /** The backward scan: the last index at or below `i` whose bit is
      offered, or -1 when there is none. */
  function HighestOffered(mask: bv8, i: int): (r: int)
    requires -1 <= i < |FreqBits|
    ensures -1 <= r <= i
    ensures r >= 0 ==> Offers(mask, FreqBits[r])
    ensures forall j | r < j <= i :: !Offers(mask, FreqBits[j])
    decreases i + 1
  {
    if i < 0 then -1
    else if Offers(mask, FreqBits[i]) then i
    else HighestOffered(mask, i - 1)
  }

  /** The index into freq_table that the two loops settle on; -1 when no
      frequency is offered. */
  function FrequencyIndex(mask: bv8, rate: int): (r: int)
    ensures -1 <= r < |FreqBits|
  {
    var lo := LowestAtLeast(mask, rate, 0);
    if lo < |FreqBits| then lo else HighestOffered(mask, |FreqBits| - 1)
  }

  lemma FreqRatesAscending(i: int, j: int)
    requires 0 <= i < j < |FreqRates|
    ensures FreqRates[i] < FreqRates[j]
  {
  }

  /** The frequency rule: the lowest offered rate at or above the requested one;
      failing that the highest offered rate; and failure exactly when no rate
      is offered. */
  lemma FrequencyRule(mask: bv8, rate: int)
    ensures FrequencyIndex(mask, rate) == -1 <==> forall j | 0 <= j < |FreqBits| :: !Offers(mask, FreqBits[j])
    ensures FrequencyIndex(mask, rate) >= 0 ==> Offers(mask, FreqBits[FrequencyIndex(mask, rate)])
    ensures (exists j | 0 <= j < |FreqBits| :: FreqRates[j] >= rate && Offers(mask, FreqBits[j])) ==>
      var k := FrequencyIndex(mask, rate);
      k >= 0 && FreqRates[k] >= rate
      && forall j | 0 <= j < |FreqBits| && FreqRates[j] >= rate && Offers(mask, FreqBits[j]) :: FreqRates[k] <= FreqRates[j]
    ensures (forall j | 0 <= j < |FreqBits| :: !(FreqRates[j] >= rate && Offers(mask, FreqBits[j]))) ==>
      var k := FrequencyIndex(mask, rate);
      k >= 0 ==> (FreqRates[k] < rate
                  && forall j | 0 <= j < |FreqBits| && Offers(mask, FreqBits[j]) :: FreqRates[j] <= FreqRates[k])
  {
    var lo := LowestAtLeast(mask, rate, 0);
    if lo < |FreqBits| {
      forall j | 0 <= j < |FreqBits| && FreqRates[j] >= rate && Offers(mask, FreqBits[j])
        ensures FreqRates[lo] <= FreqRates[j]
      {
        if j != lo { FreqRatesAscending(lo, j); }
      }
    } else {
      var k := HighestOffered(mask, |FreqBits| - 1);
      assert FrequencyIndex(mask, rate) == k;
      forall j | 0 <= j < |FreqBits| && Offers(mask, FreqBits[j])
        ensures k >= 0 && FreqRates[j] <= FreqRates[k]
      {
        if j != k { FreqRatesAscending(j, k); }
      }
    }
  }

  /** The channel mode for `channels` output channels: for mono output, mono
      if offered and otherwise 0 without failing; for more channels, the most
      preferred offered mode, 0 meaning failure. */
  function ChannelMode(mask: bv8, channels: Uint8): bv8 {
    if channels <= 1 then (if Offers(mask, ModeMono) then ModeMono else 0)
    else FirstOffered(mask, StereoModes)
  }

  /** The configuration chosen from an A2DP capability record, for the core's
      default sample rate and channel count; None when some field has no
      acceptable value. A chosen configuration has a rate of the table and
      bitpools within the codec's range. */
  function NegotiateSbc(cap: SbcCapabilities, rate: Uint32, channels: Uint8): (r: Option<SbcCapabilities>)
    ensures r.Some? ==> r.value.frequency in FreqBits
    ensures r.Some? ==> MinBitpool <= r.value.minBitpool && r.value.maxBitpool <= MaxBitpool
  {
    var k := FrequencyIndex(cap.frequency, rate);
    var mode := ChannelMode(cap.channelMode, channels);
    var block := FirstOffered(cap.blockLength, BlockLengths);
    var bands := FirstOffered(cap.subbands, SubbandCounts);
    if k < 0 || (channels >= 2 && mode == 0) || block == 0 || bands == 0 then None
    else
      var freq := FreqBits[k];
      var bitpool := DefaultBitpool(freq, mode);
      var maxBitpool: Byte := if bitpool < cap.maxBitpool then bitpool else cap.maxBitpool;  // PA_MIN
      Some(SbcCapabilities(
        mode, freq, FirstOffered(cap.allocationMethod, Allocations), bands, block,
        Max(MinBitpool, cap.minBitpool), maxBitpool))
  }

  /** What SelectConfiguration answers. */
  function Negotiate(endpoint: Endpoint, args: SelectArgs, rate: Uint32, channels: Uint8): Selection {
    match args
    case NotAByteArray => Rejected
    case ByteArray(size, cap) =>
      if endpoint.IsHfp() then Uninitialised(size)
      else match NegotiateSbc(cap, rate, channels)
        case Some(config) => Selected(config)
        case None => Rejected
  }

  /** The frequency search of endpoint_select_configuration: forward through
      freq_table for the first offered rate at least `rate`, then backward for
      the last offered one; -1 when nothing is offered. */
  method ChooseFrequency(mask: bv8, rate: Uint32) returns (i: int)
    ensures i == FrequencyIndex(mask, rate)
  {
    i := 0;
    while i < |FreqBits|
      invariant 0 <= i <= |FreqBits|
      invariant LowestAtLeast(mask, rate, i) == LowestAtLeast(mask, rate, 0)
    {
      if FreqRates[i] >= rate && Offers(mask, FreqBits[i]) {
        return;
      }
      i := i + 1;
    }
    i := i - 1;
    while i >= 0
      invariant -1 <= i < |FreqBits|
      invariant HighestOffered(mask, i) == HighestOffered(mask, |FreqBits| - 1)
    {
      if Offers(mask, FreqBits[i]) {
        return;
      }
      i := i - 1;
    }
  }

  /** The channel-mode step: for mono output, mono if offered and otherwise
      left 0; for more channels, joint stereo, stereo, dual channel, mono in
      that order, 0 when none is offered. */
  method ChooseChannelMode(mask: bv8, channels: Uint8) returns (mode: bv8)
    ensures mode == ChannelMode(mask, channels)
  {
    StereoModePreference(mask);
    mode := 0;
    if channels <= 1 {
      if Offers(mask, ModeMono) {
        mode := ModeMono;
      }
    }
    if channels >= 2 {
      if Offers(mask, ModeJointStereo) {
        mode := ModeJointStereo;
      } else if Offers(mask, ModeStereo) {
        mode := ModeStereo;
      } else if Offers(mask, ModeDualChannel) {
        mode := ModeDualChannel;
      } else if Offers(mask, ModeMono) {
        mode := ModeMono;
      }
    }
  }

  /** The block-length step: 16, 12, 8, 4 in that order, 0 when none. */
  method ChooseBlockLength(mask: bv8) returns (block: bv8)
    ensures block == FirstOffered(mask, BlockLengths)
  {
    BlockLengthPreference(mask);
    if Offers(mask, BlockLength16) {
      block := BlockLength16;
    } else if Offers(mask, BlockLength12) {
      block := BlockLength12;
    } else if Offers(mask, BlockLength8) {
      block := BlockLength8;
    } else if Offers(mask, BlockLength4) {
      block := BlockLength4;
    } else {
      block := 0;
    }
  }

  /** The subbands step: 8, then 4, 0 when neither. */
  method ChooseSubbands(mask: bv8) returns (bands: bv8)
    ensures bands == FirstOffered(mask, SubbandCounts)
  {
    FirstOfferedOfTwo(mask, Subbands8, Subbands4);
    if Offers(mask, Subbands8) {
      bands := Subbands8;
    } else if Offers(mask, Subbands4) {
      bands := Subbands4;
    } else {
      bands := 0;
    }
  }

  /** The allocation step: loudness, then SNR; 0 (not a failure) when neither. */
  method ChooseAllocation(mask: bv8) returns (allocation: bv8)
    ensures allocation == FirstOffered(mask, Allocations)
  {
    FirstOfferedOfTwo(mask, AllocationLoudness, AllocationSnr);
    allocation := 0;
    if Offers(mask, AllocationLoudness) {
      allocation := AllocationLoudness;
    } else if Offers(mask, AllocationSnr) {
      allocation := AllocationSnr;
    }
  }

  /** endpoint_select_configuration: a zeroed record filled field by field;
      the first field with no acceptable value ends the call with an error. */
  method SelectConfiguration(endpoint: Endpoint, args: SelectArgs, rate: Uint32, channels: Uint8)
    returns (r: Selection)
    requires args.ByteArray? && !endpoint.IsHfp() ==> args.size == SbcRecordSize
    ensures r == Negotiate(endpoint, args, rate, channels)
  {
    if args.NotAByteArray? {
      return Rejected;
    }
    if endpoint.IsHfp() {
      return Uninitialised(args.size);
    }
    var cap := args.cap;
    // The zeroed configuration record is filled field by field.
    var i := ChooseFrequency(cap.frequency, rate);
    if i < 0 {
      assert NegotiateSbc(cap, rate, channels) == None;
      return Rejected;
    }
    var freq := FreqBits[i];
    var mode := ChooseChannelMode(cap.channelMode, channels);
    if channels >= 2 && mode == 0 {
      assert NegotiateSbc(cap, rate, channels) == None;
      return Rejected;
    }
    var block := ChooseBlockLength(cap.blockLength);
    if block == 0 {
      assert NegotiateSbc(cap, rate, channels) == None;
      return Rejected;
    }
    var bands := ChooseSubbands(cap.subbands);
    if bands == 0 {
      assert NegotiateSbc(cap, rate, channels) == None;
      return Rejected;
    }
    var allocation := ChooseAllocation(cap.allocationMethod);
    var bitpool := DefaultBitpool(freq, mode);
    var maxBitpool := if bitpool < cap.maxBitpool then bitpool else cap.maxBitpool;
    var config := SbcCapabilities(mode, freq, allocation, bands, block,
      Max(MinBitpool, cap.minBitpool), maxBitpool);
    assert NegotiateSbc(cap, rate, channels) == Some(config);
    return Selected(config);
  }

  /** Every selected field is a single bit the capability offers (the
      allocation method and, for mono output, the channel mode may be left 0),
      the minimum bitpool is the offered one raised to MinBitpool, and the
      maximum is the smaller of the default bitpool and the offered maximum. */
  lemma SelectedWithinCapabilities(cap: SbcCapabilities, rate: Uint32, channels: Uint8)
    requires NegotiateSbc(cap, rate, channels).Some?
    ensures var c := NegotiateSbc(cap, rate, channels).value;
      c.frequency in FreqBits && Offers(cap.frequency, c.frequency)
      && c.blockLength in BlockLengths && Offers(cap.blockLength, c.blockLength)
      && c.subbands in SubbandCounts && Offers(cap.subbands, c.subbands)
      && (c.allocationMethod == 0 || (c.allocationMethod in Allocations && Offers(cap.allocationMethod, c.allocationMethod)))
      && (c.channelMode == 0 || (c.channelMode in StereoModes && Offers(cap.channelMode, c.channelMode)))
      && (c.channelMode == 0 <==> channels <= 1 && !Offers(cap.channelMode, ModeMono))
      && c.minBitpool == Max(MinBitpool, cap.minBitpool)
      && c.maxBitpool == Min(DefaultBitpool(c.frequency, c.channelMode), cap.maxBitpool)
  {
    FrequencyRule(cap.frequency, rate);
    StereoModePreference(cap.channelMode);
    BlockLengthPreference(cap.blockLength);
    FirstOfferedOfTwo(cap.subbands, Subbands8, Subbands4);
    FirstOfferedOfTwo(cap.allocationMethod, AllocationLoudness, AllocationSnr);
  }

  /** An A2DP selection fails exactly when no frequency, no block length or no
      subband count is offered, or when stereo output finds no channel mode;
      on the HFP endpoints it never fails once the argument is a byte array. */
  lemma RejectedExactly(endpoint: Endpoint, size: nat, cap: SbcCapabilities, rate: Uint32, channels: Uint8)
    ensures Negotiate(endpoint, ByteArray(size, cap), rate, channels).Rejected? <==>
      !endpoint.IsHfp() &&
      ((forall j | 0 <= j < |FreqBits| :: !Offers(cap.frequency, FreqBits[j]))
       || (channels >= 2 && forall j | 0 <= j < |StereoModes| :: !Offers(cap.channelMode, StereoModes[j]))
       || (forall j | 0 <= j < |BlockLengths| :: !Offers(cap.blockLength, BlockLengths[j]))
       || (forall j | 0 <= j < |SubbandCounts| :: !Offers(cap.subbands, SubbandCounts[j])))
  {
    FrequencyRule(cap.frequency, rate);
  }

  /** A stereo sink at 44.1 kHz offered everything picks 44.1 kHz, joint
      stereo, 16 blocks, 8 subbands, loudness allocation and bitpool 2..53. */
  lemma FullCapabilitiesAt44100()
    ensures Negotiate(A2dpSinkEndpoint, ByteArray(4, SbcCapabilities(0x0F, 0x0F, 0x03, 0x03, 0x0F, 2, 64)), 44100, 2)
         == Selected(SbcCapabilities(ModeJointStereo, Freq44100, AllocationLoudness, Subbands8, BlockLength16, 2, 53))
  {
    assert LowestAtLeast(0x0F, 44100, 0) == 2;
  }

  /** A requested rate above every offered one falls back to the highest
      offered rate: 48 kHz requested, 16 and 32 kHz offered, 32 kHz chosen. */
  lemma HighRateFallsBack()
    ensures FrequencyIndex(Freq16000 | Freq32000, 48000) == 1
  {
    assert LowestAtLeast(Freq16000 | Freq32000, 48000, 0) == 4;
    assert HighestOffered(Freq16000 | Freq32000, 3) == 1;
  }
}
