/** Sample specifications (src/sample.c): the size of one frame, the byte
    rate, validity and equality. The format is the integer value of
    pa_sample_format, whose first member PA_SAMPLE_U8 is 0. */
module Sample {
  import opened Common

  const FormatU8: int := 0
  const FormatAlaw: int := 1
  const FormatUlaw: int := 2
  const FormatS16le: int := 3
  const FormatS16be: int := 4
  const FormatFloat32: int := 5
  /** PA_SAMPLE_MAX: one past the last format. */
  const FormatMax: int := 6

  /** pa_sample_spec: format, samples per second per channel, channels. */
  datatype SampleSpec = SampleSpec(format: int, rate: Uint32, channels: Uint8)

  /** The formats the switch of pa_sample_size handles. */
  predicate KnownFormat(format: int) {
    0 <= format < FormatMax
  }

  /** Bytes of one sample of one channel: 1 for U8, A-law and mu-law, 2 for
      the 16-bit formats, 4 for 32-bit float. */
  function BytesPerSample(format: int): (b: nat)
    requires KnownFormat(format)
    ensures b == 1 <==> format in {FormatU8, FormatAlaw, FormatUlaw}
    ensures b == 2 <==> format in {FormatS16le, FormatS16be}
    ensures b == 4 <==> format == FormatFloat32
  {
    if format == FormatS16le || format == FormatS16be then 2
    else if format == FormatFloat32 then 4
    else 1
  }

  /** pa_sample_size: bytes of one frame (one sample of every channel). An
      unknown format fails the source's assertion, hence the precondition. */
  function SampleSize(spec: SampleSpec): (n: nat)
    requires KnownFormat(spec.format)
    ensures spec.channels as nat <= n <= 4 * spec.channels as nat
    ensures n == 0 <==> spec.channels == 0
  {
    BytesPerSample(spec.format) * spec.channels as nat
  }

  /** pa_bytes_per_second: the rate times the frame size. */
  function BytesPerSecond(spec: SampleSpec): (n: nat)
    requires KnownFormat(spec.format)
    ensures n == 0 <==> spec.rate == 0 || spec.channels == 0
  {
    spec.rate as nat * SampleSize(spec)
  }

  /** The byte rate lies between one and four bytes per sample of every
      channel, so it fits the 64-bit size_t it is computed in. */
  lemma BytesPerSecondBounds(spec: SampleSpec)
    requires KnownFormat(spec.format)
    ensures spec.rate as nat * spec.channels as nat <= BytesPerSecond(spec) <= spec.rate as nat * (4 * spec.channels as nat)
    ensures BytesPerSecond(spec) < 0x1_0000_0000_0000_0000
  {
    var r, c := spec.rate as nat, spec.channels as nat;
    MulMonotone(r, c, SampleSize(spec));
    MulMonotone(r, SampleSize(spec), 4 * c);
    MulMonotone(r, 4 * c, 1020);
    MulMonotone(1020, r, 0x1_0000_0000);
  }

  lemma {:induction false} MulMonotone(a: nat, b: nat, c: nat)
    requires b <= c
    ensures a * b <= a * c
    decreases a
  {
    if a > 0 {
      MulMonotone(a - 1, b, c);
      assert a * b == (a - 1) * b + b;
      assert a * c == (a - 1) * c + c;
    }
  }

  /** pa_sample_spec_valid as written: the format test is `format <= 0`. */
  function SampleSpecValidAsWritten(spec: SampleSpec): (r: bool)
    ensures r <==> KnownFormat(spec.format) && spec.format != FormatU8 && spec.rate > 0 && spec.channels > 0
  {
    spec.rate != 0 && spec.channels != 0 && !(spec.format <= 0 || spec.format >= FormatMax)
  }

  /** The validity test with `format < 0`, admitting every format
      pa_sample_size handles. */
  function SampleSpecValid(spec: SampleSpec): (r: bool)
    ensures r <==> KnownFormat(spec.format) && spec.rate > 0 && spec.channels > 0
  {
    spec.rate != 0 && spec.channels != 0 && !(spec.format < 0 || spec.format >= FormatMax)
  }

  /** As written, 8-bit unsigned stereo at 44100 Hz is refused although every
      other function here handles it. */
  lemma ValidAsWrittenRejectsU8()
    ensures var spec := SampleSpec(FormatU8, 44100, 2);
      !SampleSpecValidAsWritten(spec) && SampleSpecValid(spec) && SampleSize(spec) == 2
  {
  }

  /** The two tests differ exactly on U8. */
  lemma ValidDiffersOnlyOnU8(spec: SampleSpec)
    ensures SampleSpecValidAsWritten(spec) ==> SampleSpecValid(spec)
    ensures SampleSpecValid(spec) && !SampleSpecValidAsWritten(spec) <==> SampleSpecValid(spec) && spec.format == FormatU8
  {
  }

  /** A valid spec is one every function here accepts, and it has a positive
      frame size and byte rate. */
  lemma ValidMeansUsable(spec: SampleSpec)
    requires SampleSpecValid(spec)
    ensures KnownFormat(spec.format)
    ensures SampleSize(spec) >= spec.channels as nat > 0
    ensures BytesPerSecond(spec) >= spec.rate as nat > 0
  {
    MulMonotone(spec.rate as nat, 1, SampleSize(spec));
  }

  /** pa_sample_spec_equal: format, rate and channels all agree, which for the
      three-field record is record equality. */
  predicate SampleSpecEqual(a: SampleSpec, b: SampleSpec): (r: bool)
    ensures r <==> a == b
  {
    a.format == b.format && a.rate == b.rate && a.channels == b.channels
  }

  /** Equality of specs is equality of the records, hence reflexive,
      symmetric and transitive, and equal specs have equal sizes and rates. */
  lemma SampleSpecEqualIsEquality(a: SampleSpec, b: SampleSpec)
    ensures SampleSpecEqual(a, b) <==> a == b
    ensures SampleSpecEqual(a, b) && KnownFormat(a.format) ==>
      SampleSize(a) == SampleSize(b) && BytesPerSecond(a) == BytesPerSecond(b)
  {
  }
}
