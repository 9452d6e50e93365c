# brightctl in Dafny

`brightctl` is a command-line tool that reads and changes the brightness of
backlights and LEDs. The kernel exposes each device as a directory
`/sys/class/<class>/<device>/` holding the text files `brightness` and
`max_brightness`. The tool writes brightness through the session manager's
`SetBrightness` call on the system bus. It can save a device's brightness to
`/tmp/brightctl/<class>/<device>` and restore it later.

This project models the tool's decision logic and proves properties of it:

- **`RustStd`** (`rust_std.dfy`) covers the parts of Rust's standard library the tool relies on:
  - `u32` arithmetic under both overflow settings. In a debug build an overflow panics; in a release build it wraps.
  - `u32::from_str` and `u32::to_string`.
  - `str::trim`, which trims Unicode White_Space.
- **`Resolver`** (`resolver.dfy`) models `parse_value`. It reads the expression `[+|-]digits[%]` and gives a concrete brightness.
- **`Catalog`** (`catalog.dfy`) models `map_device`. It turns a class-directory entry into a device.
- **`Selector`** (`selector.dfy`) models how `main` scans classes: list mode, selection with a device filter, and selection without one.
- **`Orchestration`** (`orchestration.dfy`) models the rest of `main`:
  - `Startup` covers list-or-select.
  - The `Invocation` class covers the restore/save step, the command, and `set_brightness`. Its fields change as the run goes on: the device, the store of saved records, the bus messages sent (a ghost trace) and the printed output.

Every build-dependent operation takes a `Build` parameter (`Debug` or
`Release`). A panic is a result of the model, never a precondition. For
example, `Resolve` on an empty expression returns
`Err(Panicked(SliceOutOfBounds))`.

Some effects the model cannot predict: whether the bus is reachable, and
whether writing to `/tmp` succeeds. For these the model chooses
nondeterministically, so each contract covers both outcomes.

The class directories are given as a map from class name to a sequence of
entries, in the order the operating system enumerates them. An entry is
`None` when enumeration reported an error for it. A class missing from the
map is a directory that cannot be read.

### Behaviour worth knowing

The help text of `set` (src/main.rs:113-123) promises the following:
- A leading `+` or `-` applies a change to the current brightness.
- With neither sign, the value is set directly.
- A trailing `%` makes the number a percentage of the maximum brightness.

The help of `--save` and `--restore` (src/main.rs:141-153) promises that both happen before any `set`:
- `set` works on the restored state.
- A save does not record the value `set` applies.

The model proves these promises, as well as the following behaviour of the code, which that text does not mention.

- **Brightness may exceed the maximum.** `map_device` takes whatever the two
  attribute files hold and never compares them. `Catalog.MapAttributeFiles` proves
  that a device whose brightness is above its maximum is accepted.
- **Decrease has no floor.** Setting and increasing are capped at the maximum.
  A decrease larger than the current brightness is a bare `u32` subtraction
  (`Resolver.DecreaseNotClamped`):
  - in a debug build it panics;
  - in a release build it wraps to a value above the brightness, and that value is written.
- **Some expressions panic.** An empty expression, or one whose first or last
  character is not ASCII, panics at the byte slices on lines 277 and 283. It is
  not reported as an error.
- **A second `+` is accepted.** `u32::from_str` accepts its own leading `+`,
  so `++5` is an increase by 5 (`Resolver.DoubledPlus`).
- **A device filter matches names first.** Within a class, the filter takes
  the first entry *with that name* and then tries to map it. When that entry
  is not a device, the class yields nothing. The filter does not go on to
  look for another device with that id.

  When every directory holds each name once, which a real directory always
  does, this is the first listed device with that id
  (`Selector.SelectByIdIsFirstListed`).
- **Restore does not trim.** `restore` parses the saved file without
  trimming it. A record that does not parse panics (`unwrap`) rather than
  being reported as an error.
- **A failed restore or save does not stop the run.** The error is printed
  and the command still runs (`Orchestration.Invocation.Dispatch`).
- **The list count is 16 bits.** List mode sums per-class counts as `u16`.
  - A release build that finds exactly 65536 devices prints the "Failed to
    read any devices" message.
  - The exact count holds below 2^16 (`Selector.ExactListCount`).

## Model

| member | source | states |
|---|---|---|
| RustStd.Checked32 | src/main.rs:294-299 | the `u32` result of an arithmetic step fails exactly when the build is debug and the exact value is out of range; otherwise it is the exact value modulo 2^32, and the value itself when it fits |
| RustStd.DecimalRoundTrip | src/main.rs:67 | `parse` gives back the same `u32` for any value written by `to_string` |
| RustStd.DecimalValue | src/main.rs:67 | the digits `to_string` writes denote the number written |
| RustStd.Decimal | src/main.rs:67 | `to_string` writes a non-empty run of decimal digits with no leading zero |
| RustStd.ParseU32 | src/main.rs:288 | an accepted text starts with `+` or a digit and is all digits after that; `RustStd.ParseU32Spells` gives the full characterisation |
| RustStd.Zeros | src/main.rs:288 | a run of zeros of the given length, all digits |
| RustStd.ParseDigits | src/main.rs:288 | a digit run denoting a `u32` parses to its value, with or without a `+` in front |
| RustStd.ParseU32Accepts | src/main.rs:288 | every spelling of a `u32` parses to it: an optional `+`, any number of leading zeros, then its decimal digits |
| RustStd.ParseU32Sound | src/main.rs:288 | everything `parse` accepts is such a spelling of the number it returns |
| RustStd.ParseU32Spells | src/main.rs:288 | `parse` returns `n` exactly when the text spells `n` |
| RustStd.SpellingEnds | src/main.rs:310-314 | a spelling neither starts nor ends with whitespace, so trimming leaves it whole |
| RustStd.DigitsValueZeros | src/main.rs:288 | leading zeros do not change the value of a digit run |
| RustStd.DigitsValueLeading | src/main.rs:288 | a digit run whose first digit is not zero denotes at least 1 |
| RustStd.DecimalOfCanonical | src/main.rs:67 | a digit run with no superfluous leading zero is exactly what `to_string` writes for its value |
| RustStd.StripZeros | src/main.rs:288 | every non-empty digit run is some zeros followed by a run with no superfluous leading zero |
| RustStd.TrimStart | src/main.rs:311 | no contract of its own; `RustStd.TrimStartShape` states what it keeps and removes |
| RustStd.TrimEnd | src/main.rs:311 | no contract of its own; `RustStd.TrimEndShape` states what it keeps and removes |
| RustStd.Trim | src/main.rs:311 | no contract of its own; `RustStd.TrimPadded`, `Catalog.ReadAttributeHolds` state what it keeps |
| RustStd.TrimStartShape | src/main.rs:310-314 | `trim_start` keeps a suffix that is empty or does not start with whitespace, and everything it removes is whitespace |
| RustStd.TrimEndShape | src/main.rs:310-314 | `trim_end` keeps a prefix that is empty or does not end with whitespace, and everything it removes is whitespace |
| RustStd.TrimPadded | src/main.rs:310-314 | `trim` removes exactly the whitespace padding around a text whose ends are not whitespace |
| RustStd.DecimalTrimmed | src/main.rs:310-314 | an attribute file holding a decimal `u32` padded with whitespace reads as that number |
| Resolver.Split | src/main.rs:276-286 | the mode is `Pos` exactly when the first character is `+` and `Neg` exactly when it is `-`; the percent flag is set exactly when the last character is `%`; sign, digit run and percent sign put back together give the input |
| Resolver.SplitCompose | src/main.rs:276-286 | splitting gives back the mode, digit run and flag an expression was written from, when the digit run cannot be mistaken for a sign or a percent sign |
| Resolver.Scaled | src/main.rs:294-296 | a percentage is `(val * mb) / 100` with truncation; the product panics only in a debug build when it exceeds 2^32 - 1, and wraps in a release build; a plain magnitude is `val` |
| Resolver.Quantity | src/main.rs:290-300 | setting and increasing never exceed the maximum; a decrease never exceeds the current brightness in a debug build; only a debug build panics |
| Resolver.Resolve | src/main.rs:271-304 | non-UTF-8 input is exactly the "not valid unicode" error; text that cannot be byte-sliced at its ends panics; the number error happens exactly when the digit run does not parse; a result carries the mode and flag `Split` finds, and a set or increase stays within the maximum; when the digit run parses, the result is `Quantity`'s value and the panic is `Quantity`'s panic |
| Resolver.DebugFollowsFormulas | src/main.rs:290-300 | in a debug build the computation succeeds exactly when every intermediate value fits a `u32`, and then equals the intended formulas over unbounded integers (set and increase capped at the maximum, decrease a bare difference, percentages truncated) |
| Resolver.ReleaseScaled | src/main.rs:294-296 | a release build always produces a magnitude, and when the product fits it is the truncated percentage or the plain value |
| Resolver.ReleaseApplies | src/main.rs:290-300 | in a release build, setting caps the magnitude at the maximum, increasing caps the wrapped sum, and decreasing yields the wrapped difference |
| Resolver.ReleaseWraps | src/main.rs:290-300 | a release build never fails; when the product and sum fit, the result is the intended formula's value modulo 2^32 |
| Resolver.SplitWritten | src/main.rs:276-288 | an expression written as a sign, a number `parse` accepts and an optional `%` can be sliced and splits back into exactly those pieces |
| Resolver.ResolveDebug | src/main.rs:271-304 | in a debug build a written expression resolves exactly when every intermediate value fits a `u32`, to the mode, the intended quantity and the percent flag; otherwise it panics |
| Resolver.ResolveRelease | src/main.rs:271-304 | in a release build a written expression always resolves, and while the product and sum fit, to the intended quantity modulo 2^32 |
| Resolver.DecreaseNotClamped | src/main.rs:296-299 | a decrease larger than the brightness panics with a subtraction overflow in a debug build and yields `b - x + 2^32` (above `b`) in a release build |
| Resolver.HalfOfMaximum | src/main.rs:294 | `50%` of a maximum of 200 sets 100 |
| Resolver.IncreaseByPercent | src/main.rs:295 | `+10%` from 40 with a maximum of 200 gives 60 |
| Resolver.DecreaseUnderflows | src/main.rs:296 | `-20%` from 10 with a maximum of 200 panics in a debug build and gives 4294967266 in a release build |
| Resolver.DoubledPlus | src/main.rs:277-288 | `++5` is an increase by 5 |
| Resolver.RejectedExamples | src/main.rs:277-288 | `+`, `%`, `+%`, `5x` and `--5` are number errors; the empty expression panics |
| Catalog.ReadAttribute | src/main.rs:310-314 | a missing or unreadable attribute file gives no number; `Catalog.ReadAttributeHolds` states which texts give which number |
| Catalog.ReadAttributeSound | src/main.rs:310-314 | a text that reads as a number is whitespace, a spelling of that number, then whitespace |
| Catalog.ReadAttributeComplete | src/main.rs:310-314 | every whitespace-padded spelling of a `u32` reads as that number |
| Catalog.ReadAttributeHolds | src/main.rs:310-314 | an attribute text reads as `n` exactly when it is whitespace, a spelling of `n`, then whitespace; every other text makes the entry a non-device |
| Catalog.ThreeSlices | src/main.rs:310-314 | a text is the concatenation of its three slices at two cut points |
| Catalog.ReadCleanAttribute | src/main.rs:310-314 | trimming never spoils a file whose whole text is a number |
| Catalog.MapDevice | src/main.rs:308-321 | an entry is a device exactly when both attribute files read as numbers; the device takes the entry's name, the class, and the two numbers read |
| Catalog.MapAttributeFiles | src/main.rs:308-321 | whitespace-padded decimal attribute files give exactly the device with those numbers, including when brightness exceeds the maximum |
| Selector.ClassDevices | src/main.rs:186-190 | a class's devices are no more than its entries, and all carry that class |
| Selector.ClassDevicesSound | src/main.rs:186-190 | every device listed for a class comes from one of its entries |
| Selector.ClassDevicesComplete | src/main.rs:186-190 | every entry that maps to a device is listed |
| Selector.SkipsMalformedEntry | src/main.rs:186-190 | a non-device entry between three devices is dropped, and the devices keep their order |
| Selector.AllDevices | src/main.rs:185-192 | every listed device belongs to a requested, readable class |
| Selector.FirstDeviceIsFirstListed | src/main.rs:212-217 | within a class, the device chosen without a filter is the first device of that class |
| Selector.SelectFirstIsFirstListed | src/main.rs:211-218 | without a filter, the chosen device is the first device list mode prints, and there is none exactly when list mode finds none |
| Selector.Mapped | src/main.rs:188 | no contract of its own; an enumeration error is a non-device, otherwise the entry is mapped (`Selector.ClassDevicesSound`, `Selector.ClassDevicesComplete`) |
| Selector.FirstDevice | src/main.rs:212-217 | no contract of its own; `Selector.FirstDeviceIsFirstListed` states it is the first device of the class |
| Selector.SelectFirst | src/main.rs:211-218 | no contract of its own; `Selector.SelectFirstIsFirstListed` states it is the first listed device, or none when none is listed |
| Selector.FirstNamed | src/main.rs:207-208 | the entry found carries the name, is in the directory, and no earlier entry carries the name; when none is found, no entry carries the name |
| Selector.NamedDevice | src/main.rs:207-209 | no contract of its own; `Selector.NamedDeviceIsFirstListed` ties it to the first device of the class with that id |
| Selector.NamedDeviceIsFirstListed | src/main.rs:207-209 | in a directory without repeated names, a class's answer to a filter is its first device with that id |
| Selector.FirstWithId | src/main.rs:204-210 | the device found has the id, is in the sequence, and no earlier device has the id; when none is found, no device has it |
| Selector.ListAll | src/main.rs:185-196 | no contract of its own; `Selector.ExactListCount`, `Selector.ReleaseListCount` and `Selector.NothingListed` state its report |
| Selector.SelectById | src/main.rs:203-210 | a device found for a filter has that id and belongs to a requested, readable class |
| Selector.FirstWithIdAppend | src/main.rs:204-210 | searching two device sequences in turn is searching their concatenation |
| Selector.SelectByIdIsFirstListed | src/main.rs:203-210 | when no directory repeats a name, the filter selects the first listed device with that id, and fails exactly when no listed device has it |
| Selector.SelectedByIdIsListed | src/main.rs:203-210 | the device a filter selects is one list mode prints, even when a directory repeats a name |
| Selector.ListFrom | src/main.rs:185-192 | the running `u16` total stays below 2^16 |
| Selector.ModAddMod | src/main.rs:185-192 | cutting the count to 16 bits and adding modulo 2^16 is adding the true counts modulo 2^16 |
| Selector.ModShift | src/main.rs:185-192 | adding multiples of 2^16 does not change a `u16` total |
| Selector.ClassDevicesCons | src/main.rs:186-190 | a class's devices are its first entry's device, if any, followed by the devices of the rest |
| Selector.ReleaseListCount | src/main.rs:185-196 | in a release build list mode prints every device, and the total is the true count modulo 2^16 |
| Selector.ExactListCount | src/main.rs:185-196 | while the true count is below 2^16, both builds print every device and report the exact count |
| Selector.NothingListed | src/main.rs:194-196 | below 2^16 devices, the failure message appears exactly when no class yields a device |
| Selector.ListExample | src/main.rs:183-199 | two classes, one empty and one with three devices and a malformed entry, give a count of 3 |
| Orchestration.Startup | src/main.rs:183-231 | list mode happens exactly when asked for, and reports what `Selector.ListAll` gives. With a filter the device is the one `Selector.SelectById` picks, scanning classes in order. A selected device is listed, has the filter's id when there is a filter, and is the first listed device when there is none. "no suitable device" happens exactly when there is no filter and no device. "not found" happens exactly when the filter selects nothing |
| Orchestration.RecordKey | src/main.rs:39-43 | no contract of its own; `save` and `restore` use the same key, as `Orchestration.SaveRestoreRoundTrip` shows |
| Orchestration.Lookup | src/main.rs:45-47 | no contract of its own; `Orchestration.Invocation.Restore` and `Orchestration.SaveRestoreRoundTrip` state what it finds |
| Orchestration.SaveRestoreRoundTrip | src/main.rs:37-71 | the record `save` writes reads back in `restore` as the brightness that was saved |
| Orchestration.SaveThenRestore | src/main.rs:37-71 | after a successful save, a later restore of the same device brings it back to the saved brightness and sends that value, or fails only at the bus; it never finds the record missing or garbled |
| Orchestration.CommandPlan | src/main.rs:247-266 | a command writes exactly when it is `set` and its expression resolves; it writes the resolved quantity, and a set or increase never writes above the maximum |
| Orchestration.Invocation.constructor | src/main.rs:221-231 | a run starts with the selected device and the existing records, with nothing sent and nothing printed |
| Orchestration.Invocation.SetBrightness | src/main.rs:326-348 | on success exactly one `SetBrightness(class, id, value)` message is sent; on failure none is |
| Orchestration.Invocation.Restore | src/main.rs:37-54 | no record is reported as an error. A record that does not parse panics. A saved value is sent and becomes the brightness only if sending succeeded; otherwise the device is unchanged |
| Orchestration.Invocation.Save | src/main.rs:56-71 | on success the device's record holds its brightness in decimal, replacing any earlier record; on failure the records are unchanged |
| Orchestration.Invocation.Prepare | src/main.rs:233-245 | asking for both save and restore is refused and changes nothing; otherwise restore, save or neither happens as stated above; what the step prints is its error, if any |
| Orchestration.Invocation.RunCommand | src/main.rs:247-266 | the command is carried out against the current device: shown values are printed; a resolved `set` is sent or its bus failure is reported; a rejected expression is printed; a panic ends the run |
| Orchestration.Invocation.Dispatch | src/main.rs:233-266 | the restore/save step happens first. A refusal or a panic ends the run. Otherwise the command runs, even after a failed restore or save. A `set` is resolved against the restored brightness, and a save records the brightness from before any `set` |

## Left out

- Filesystem access is left out: reading `/sys/class`, building paths, and the `/tmp/brightctl` directory. Class directories and the store of saved records are given as values.
- The model assumes distinct entries have distinct paths, so path aliasing (for example a name containing `/`) is not modelled.
- A file that cannot be read, or is not UTF-8, counts as a missing file.
- System-bus internals are left out: the `login1` destination and path, and the marshalling of the message. Only the call's class, id and value are recorded.
- The reply to the call is discarded at line 345, so a sent message counts as a success. The class and id strings are passed to the bus as raw pointers to buffers that are not NUL-terminated; the model assumes they arrive intact.
- Output formatting is left out: `print_human`, `print_machine`, the `--machine-readable` flag and the exact message texts. Output is modelled as a sequence of events.
- `percent_brightness` is left out because it is floating-point arithmetic (`f32`) and only affects output.
- Command-line parsing by `clap` is left out, including the default classes `backlight` and `leds`. The model starts from the decoded options.
- Non-UTF-8 class names and device names are left out. They panic at `to_str().unwrap()` on lines 180, 42 and 228, and the model uses strings for names.
- A failure to connect to the bus and a failure to build the message are one nondeterministic outcome of `set_brightness`. The model does not say which of the two happened.
- A partially written save file is left out.
- Concurrent writers to the same record are left out; the last writer wins.
- Enumeration order is whatever the operating system gives; the model takes it as given.
