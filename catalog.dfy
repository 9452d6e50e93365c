/** The device catalog: `map_device`, which turns one entry of a class
    directory into a device by reading its two attribute files. */
module Catalog {
  import opened RustStd

  /** A device as `map_device` builds it. Nothing relates `brightness` to
      `maxBrightness`: each is whatever its attribute file holds. */
  datatype Device = Device(id: string, className: string, brightness: u32, maxBrightness: u32)

  /** A subdirectory of a class directory: its name and the contents of its
      `max_brightness` and `brightness` files (`None` when a file is missing,
      unreadable or not UTF-8 text). */
  datatype Entry = Entry(name: string, maxText: Option<string>, brightnessText: Option<string>)

  /** An attribute file read as a `u32`: `read_to_string`, then `trim`, then
      `parse`. */
  function ReadAttribute(text: Option<string>): (r: Option<u32>)
    ensures text.None? ==> r.None?
  {
    match text
    case None => None
    case Some(t) => ParseU32(Trim(t))
  }

  /** Trimming never spoils a number: a file whose whole text is a number
      reads as that number. */
  lemma ReadCleanAttribute(t: string)
    requires ParseU32(t).Some?
    ensures ReadAttribute(Some(t)) == ParseU32(t)
  {
    assert !IsWhitespace(t[0]);
    assert |t| > 1 ==> IsDigit(t[|t| - 1]);
    assert t == "" + t + "";
    TrimPadded("", t, "");
  }

  /** An attribute text holds `n` when it is whitespace, then a spelling of
      `n` that `u32::from_str` accepts, then whitespace. */
  ghost predicate Holds(t: string, n: nat) {
    exists i, j :: 0 <= i <= j <= |t| && AllWhitespace(t[..i]) && AllWhitespace(t[j..]) && Spells(t[i..j], n)
  }

  lemma ReadAttributeSound(t: string)
    requires ReadAttribute(Some(t)).Some?
    ensures Holds(t, ReadAttribute(Some(t)).value)
  {
    var r1 := TrimStart(t);
    TrimStartShape(t);
    var r2 := TrimEnd(r1);
    TrimEndShape(r1);
    var i := |t| - |r1|;
    var j := i + |r2|;
    assert r1 == t[i..];
    assert t[i..j] == r2 by { assert t[i..][..|r2|] == t[i..j]; }
    assert t[j..] == r1[|r2|..];
    ParseU32Sound(r2);
    assert Spells(t[i..j], ReadAttribute(Some(t)).value);
    assert AllWhitespace(t[..i]) && AllWhitespace(t[j..]);
  }

  lemma ThreeSlices(t: string, i: nat, j: nat)
    requires i <= j <= |t|
    ensures t == t[..i] + t[i..j] + t[j..]
  {
    assert t[..j] == t[..i] + t[i..j];
  }

  lemma ReadAttributeComplete(t: string, i: nat, j: nat, n: u32)
    requires i <= j <= |t| && AllWhitespace(t[..i]) && AllWhitespace(t[j..]) && Spells(t[i..j], n)
    ensures ReadAttribute(Some(t)) == Some(n)
  {
    var u := t[i..j];
    ParseU32Spells(u, n);
    SpellingEnds(u, n);
    ThreeSlices(t, i, j);
    TrimPadded(t[..i], u, t[j..]);
    assert Trim(t) == u;
  }

  /** Which attribute files read as which number: exactly the texts that hold
      it. Every other text, and a missing file, makes the entry a non-device. */
  lemma ReadAttributeHolds(t: string, n: u32)
    ensures ReadAttribute(Some(t)) == Some(n) <==> Holds(t, n)
  {
    if ReadAttribute(Some(t)) == Some(n) {
      ReadAttributeSound(t);
    }
    if Holds(t, n) {
      var i, j :| 0 <= i <= j <= |t| && AllWhitespace(t[..i]) && AllWhitespace(t[j..]) && Spells(t[i..j], n);
      ReadAttributeComplete(t, i, j, n);
    }
  }

  /** `map_device`: the entry is a device exactly when both files read as
      numbers; `max_brightness` is read first, and a failure of either makes
      the entry a non-device. */
  function MapDevice(className: string, e: Entry): (r: Option<Device>)
    ensures r.Some? <==> ReadAttribute(e.maxText).Some? && ReadAttribute(e.brightnessText).Some?
    ensures r.Some? ==> r.value.id == e.name && r.value.className == className
    ensures r.Some? ==> Some(r.value.maxBrightness) == ReadAttribute(e.maxText)
                        && Some(r.value.brightness) == ReadAttribute(e.brightnessText)
  {
    match ReadAttribute(e.maxText)
    case None => None
    case Some(mb) =>
      match ReadAttribute(e.brightnessText)
      case None => None
      case Some(b) => Some(Device(e.name, className, b, mb))
  }

  /** Attribute files holding a decimal number padded with whitespace (the
      kernel writes "255\n") make a device with exactly those numbers, whether
      or not the brightness exceeds the maximum. */
  lemma MapAttributeFiles(className: string, name: string, mb: u32, b: u32, pad1: string, pad2: string)
    requires AllWhitespace(pad1) && AllWhitespace(pad2)
    ensures MapDevice(className, Entry(name, Some(pad1 + Decimal(mb) + pad2), Some(pad1 + Decimal(b) + pad2)))
            == Some(Device(name, className, b, mb))
  {
    DecimalTrimmed(pad1, mb, pad2);
    DecimalTrimmed(pad1, b, pad2);
  }
}
