/** The two derived utilities of bluetooth-util.c: sanitising a device name
    (pa_bluetooth_cleanup_name) and classifying a Class of Device into a form
    factor (pa_bluetooth_get_form_factor). A name is the bytes before its NUL
    terminator, read as unsigned, so it holds no 0 byte. */
module BtNames {
  import opened Common

  const Space: Byte := 32
  const Underscore: Byte := 95

  /** Bytes skipped before the name proper: 1..32 and 127..255. */
  predicate IsLeadingJunk(c: Byte) {
    (1 <= c <= 32) || c >= 127
  }

  /** Bytes that end a word inside the name: 0..32, 127..255 and '_'. */
  predicate IsSeparator(c: Byte) {
    c <= 32 || c >= 127 || c == Underscore
  }

  /** The first loop: drop leading junk bytes. */
  function SkipLeading(s: seq<Byte>): (r: seq<Byte>)
    ensures |r| <= |s| && r == s[|s| - |r|..]
    ensures r != [] ==> !IsLeadingJunk(r[0])
    decreases |s|
  {
    if s != [] && IsLeadingJunk(s[0]) then SkipLeading(s[1..]) else s
  }

  /** The copy loop run over `s`: the bytes written so far and the pending
      `space` flag. A separator only sets the flag; a kept byte is written
      after one space if the flag was set. */
  function Scan(s: seq<Byte>): (r: (seq<Byte>, bool))
    ensures |r.0| + (if r.1 then 1 else 0) <= |s|
    decreases |s|
  {
    if s == [] then ([], false)
    else
      var prev := Scan(s[..|s| - 1]);
      var c := s[|s| - 1];
      if IsSeparator(c) then (prev.0, true)
      else ((if prev.1 then prev.0 + [Space] else prev.0) + [c], false)
  }

  /** The name pa_bluetooth_cleanup_name returns. */
  function CleanedName(name: seq<Byte>): seq<Byte>
    requires 0 !in name
  {
    Scan(SkipLeading(name)).0
  }

  /** pa_bluetooth_cleanup_name: skip the leading junk, then compact the rest. */
  method CleanupName(name: seq<Byte>) returns (r: seq<Byte>)
    requires 0 !in name
    ensures r == CleanedName(name)
  {
    var i := 0;
    while i < |name| && IsLeadingJunk(name[i])
      invariant 0 <= i <= |name|
      invariant SkipLeading(name[i..]) == SkipLeading(name)
    {
      assert name[i..][1..] == name[i + 1..];
      i := i + 1;
    }
    r := Compact(name[i..]);
  }

  /** The compaction of pa_bluetooth_cleanup_name: the name is duplicated into
      a buffer and rewritten in place with a read index `s`, a write index `d`
      and the flag `space`; the result is the first `d` bytes. */
  method Compact(src: seq<Byte>) returns (r: seq<Byte>)
    ensures r == Scan(src).0
  {
    var t := new Byte[|src|](k requires 0 <= k < |src| => src[k]);
    var s, d, space := 0, 0, false;
    while s < t.Length
      invariant 0 <= d <= s <= t.Length == |src|
      invariant forall k | s <= k < t.Length :: t[k] == src[k]
      invariant Scan(src[..s]) == (t[..d], space)
      invariant d + (if space then 1 else 0) <= s
    {
      var c := t[s];
      ScanStep(src, s);
      ghost var before := t[..d];
      if IsSeparator(c) {
        space := true;
      } else {
        ghost var mid := before;
        if space {
          t[d] := Space;
          d := d + 1;
          space := false;
          mid := before + [Space];
        }
        assert t[..d] == mid;
        t[d] := c;
        d := d + 1;
        assert t[..d] == mid + [c];
      }
      s := s + 1;
    }
    assert src[..s] == src;
    r := t[..d];
  }

  /** One more byte through the copy loop. */
  lemma ScanStep(src: seq<Byte>, i: nat)
    requires i < |src|
    ensures Scan(src[..i + 1]) ==
      (if IsSeparator(src[i]) then (Scan(src[..i]).0, true)
       else ((if Scan(src[..i]).1 then Scan(src[..i]).0 + [Space] else Scan(src[..i]).0) + [src[i]], false))
  {
    assert src[..i + 1][..i] == src[..i];
  }

  /** The bytes that are not separators, in order. */
  function Kept(s: seq<Byte>): (r: seq<Byte>)
    decreases |s|
  {
    if s == [] then []
    else (if IsSeparator(s[0]) then [] else [s[0]]) + Kept(s[1..])
  }

  lemma {:induction false} KeptAppend(a: seq<Byte>, b: seq<Byte>)
    ensures Kept(a + b) == Kept(a) + Kept(b)
    decreases |a|
  {
    if a == [] {
      assert a + b == b;
    } else {
      assert (a + b)[0] == a[0];
      assert (a + b)[1..] == a[1..] + b;
      KeptAppend(a[1..], b);
    }
  }

  /** Separators appear only as single spaces, each followed by a kept byte:
      no '_', no control or high bytes, no doubled and no trailing space. */
  ghost predicate WellSpaced(r: seq<Byte>) {
    forall k | 0 <= k < |r| ::
      IsSeparator(r[k]) ==> r[k] == Space && k + 1 < |r| && !IsSeparator(r[k + 1])
  }

  /** Compaction keeps the non-separator bytes, writes separators only as
      single spaces before a kept byte, and never ends in a separator. */
  lemma ScanShape(s: seq<Byte>)
    ensures WellSpaced(Scan(s).0)
    ensures Scan(s).0 != [] ==> !IsSeparator(Scan(s).0[|Scan(s).0| - 1])
    ensures Kept(Scan(s).0) == Kept(s)
  {
    ScanSpacing(s);
    ScanKeeps(s);
  }

  lemma {:induction false} ScanSpacing(s: seq<Byte>)
    ensures WellSpaced(Scan(s).0)
    ensures Scan(s).0 != [] ==> !IsSeparator(Scan(s).0[|Scan(s).0| - 1])
    decreases |s|
  {
    if s != [] {
      ScanSpacing(s[..|s| - 1]);
    }
  }

  lemma {:induction false} ScanKeeps(s: seq<Byte>)
    ensures Kept(Scan(s).0) == Kept(s)
    decreases |s|
  {
    if s != [] {
      var init, c := s[..|s| - 1], s[|s| - 1];
      ScanKeeps(init);
      assert s == init + [c];
      KeptAppend(init, [c]);
      var (out, space) := Scan(init);
      if !IsSeparator(c) {
        var mid := if space then out + [Space] else out;
        KeptAppend(out, [Space]);
        KeptAppend(mid, [c]);
        assert Kept([Space]) == [];
        assert Kept([c]) == [c];
      } else {
        assert Kept([c]) == [];
      }
    }
  }

  lemma {:induction false} SkipLeadingKeepsKept(s: seq<Byte>)
    ensures Kept(SkipLeading(s)) == Kept(s)
    decreases |s|
  {
    if s != [] && IsLeadingJunk(s[0]) {
      SkipLeadingKeepsKept(s[1..]);
    }
  }

  /** What the sanitised name is: never longer than the input, the same kept
      bytes in the same order, and separators only as single inner spaces. */
  lemma CleanedNameShape(name: seq<Byte>)
    requires 0 !in name
    ensures |CleanedName(name)| <= |name|
    ensures Kept(CleanedName(name)) == Kept(name)
    ensures WellSpaced(CleanedName(name))
    ensures Underscore !in CleanedName(name)
  {
    ScanShape(SkipLeading(name));
    SkipLeadingKeepsKept(name);
  }

  /** A name starting with '_' after the junk is cleaned to a leading space
      (the first loop does not skip '_'). */
  lemma UnderscorePrefixGivesLeadingSpace()
    ensures CleanedName([Underscore, 65]) == [Space, 65]
  {
    var n: seq<Byte> := [Underscore, 65];
    assert SkipLeading(n) == n;
    assert n[..1] == [Underscore] && [Underscore][..0] == [];
    assert Scan([Underscore]) == ([], true);
  }

  // --- Class of Device -----------------------------------------------------

  /** Major device class, bits 8..12 of the Class of Device. */
  function MajorClass(cod: Uint32): nat { (cod / 0x100) % 32 }

  /** Minor device class, bits 2..7 of the Class of Device. */
  function MinorClass(cod: Uint32): nat { (cod / 4) % 64 }

  /** Major class 4 is Audio/Video in the Bluetooth Assigned Numbers
      (Baseband, Class of Device). */
  const AudioVideoMajor: nat := 4

  /** The static table, indexed by minor class; it has 11 entries (0..10). */
  const FormFactorTable: seq<Option<string>> :=
    [None, Some("headset"), Some("hands-free"), None, Some("microphone"),
     Some("speaker"), Some("headphone"), Some("portable"), Some("car"), None,
     Some("hifi")]

  /** The outcome of pa_bluetooth_get_form_factor as written: a label, NULL, or
      a read of `table[i]` one past the end of the table. */
  datatype FormFactorLookup = Label(text: string) | NoLabel | ReadPastEnd(index: nat)

  /** pa_bluetooth_get_form_factor as written: the bound test is
      `i > PA_ELEMENTSOF(table)`, so minor class 11 indexes past the end. */
  function FormFactorAsWritten(cod: Uint32): (r: FormFactorLookup)
    ensures r.ReadPastEnd? <==> MajorClass(cod) == AudioVideoMajor && MinorClass(cod) == |FormFactorTable|
  {
    if MajorClass(cod) != AudioVideoMajor then NoLabel
    else
      var i := MinorClass(cod);
      if i > |FormFactorTable| then NoLabel
      else if i == |FormFactorTable| then ReadPastEnd(i)
      else match FormFactorTable[i]
        case Some(l) => Label(l)
        case None => NoLabel
  }

  /** Class of Device 0x42C: major class 4 (Audio/Video), minor class 11. */
  lemma FormFactorReadsPastTable()
    ensures FormFactorAsWritten(0x42C) == ReadPastEnd(11)
  {
    assert MajorClass(0x42C) == 4 && MinorClass(0x42C) == 11;
  }

  /** The lookup with the bound test `i >= PA_ELEMENTSOF(table)`. */
  function FormFactor(cod: Uint32): (r: Option<string>)
    ensures r.Some? <==> MajorClass(cod) == AudioVideoMajor && MinorClass(cod) in {1, 2, 4, 5, 6, 7, 8, 10}
    ensures r.Some? ==> r == FormFactorTable[MinorClass(cod)]
  {
    if MajorClass(cod) != AudioVideoMajor then None
    else
      var i := MinorClass(cod);
      if i >= |FormFactorTable| then None else FormFactorTable[i]
  }

  /** The two versions agree on every Class of Device except the one whose
      as-written lookup reads past the table. */
  lemma FormFactorAgreesElsewhere(cod: Uint32)
    requires !FormFactorAsWritten(cod).ReadPastEnd?
    ensures FormFactor(cod) == (match FormFactorAsWritten(cod)
                                case Label(l) => Some(l)
                                case _ => None)
  {
  }
}
