/** What `main` does with the decoded command line: list devices or pick one,
    then restore or save its state, then run the command. */
module Orchestration {
  import opened RustStd
  import opened Resolver
  import opened Catalog
  import opened Selector

  /** The subcommands. */
  datatype Command = Info | Get | Max | Set(value: OsText)

  /** The decoded command line. */
  datatype Options = Options(
    list: bool,
    save: bool,
    restore: bool,
    device: Option<string>,
    classes: seq<string>,
    command: Option<Command>)

  // ---------------------------------------------------------------------------
  // Listing or selecting

  /** How `main` goes on after looking at the class directories. */
  datatype Start =
    | Listed(report: ListReport)   // list mode; a total of 0 prints the failure message
    | NoSuitableDevice             // no filter, and no class yields a device
    | DeviceNotFound(id: string)   // the filter matched no device
    | Selected(device: Device)

  /** Lines 183-231 of `main`: list mode, or selection with or without a
      device filter, over the requested classes in the order given. */
  function Startup(build: Build, opts: Options, dirs: ClassDirs): (r: Start)
    ensures r.Listed? <==> opts.list
    ensures r.Listed? ==> r.report == ListAll(build, dirs, opts.classes)
    ensures r.Selected? && opts.device.Some? ==> Some(r.device) == SelectById(dirs, opts.classes, opts.device.value)
    ensures r.Selected? ==> r.device in AllDevices(dirs, opts.classes)
    ensures r.Selected? && opts.device.Some? ==> r.device.id == opts.device.value
    ensures r.Selected? && opts.device.None? ==> r.device == AllDevices(dirs, opts.classes)[0]
    ensures r == NoSuitableDevice <==> !opts.list && opts.device.None? && AllDevices(dirs, opts.classes) == []
    ensures r.DeviceNotFound? <==> !opts.list && opts.device.Some? && SelectById(dirs, opts.classes, opts.device.value).None?
    ensures r.DeviceNotFound? ==> r.id == opts.device.value
  {
    if opts.list then Listed(ListAll(build, dirs, opts.classes))
    else
      match opts.device
      case Some(id) =>
        (match SelectById(dirs, opts.classes, id)
         case Some(d) => SelectedByIdIsListed(dirs, opts.classes, id); Selected(d)
         case None => DeviceNotFound(id))
      case None =>
        SelectFirstIsFirstListed(dirs, opts.classes);
        (match SelectFirst(dirs, opts.classes)
         case Some(d) => Selected(d)
         case None => NoSuitableDevice)
  }

  // ---------------------------------------------------------------------------
  // The persisted store and the session manager

  /** The store's key for a device: the file `/tmp/brightctl/<class>/<id>`. */
  function RecordKey(d: Device): (string, string) {
    (d.className, d.id)
  }

  /** What `restore` finds for a device: no readable file, a file `parse`
      rejects (no trimming is done), or a saved value. */
  datatype Record = NoFile | Garbled | Saved(value: u32)

  function Lookup(store: map<(string, string), string>, d: Device): Record {
    if RecordKey(d) !in store then NoFile
    else
      match ParseU32(store[RecordKey(d)])
      case None => Garbled
      case Some(v) => Saved(v)
  }

  /** What `save` writes is what `restore` reads back: the brightness at the
      time of saving. */
  lemma SaveRestoreRoundTrip(store: map<(string, string), string>, d: Device)
    ensures Lookup(store[RecordKey(d) := Decimal(d.brightness)], d) == Saved(d.brightness)
  {
    DecimalRoundTrip(d.brightness);
  }

  /** A `SetBrightness(class, id, value)` message sent to the session manager. */
  datatype Call = Call(className: string, id: string, value: u32)

  datatype StepError =
    | NoRecord     // "Error restoring device data: ..."
    | BusFailed    // the system bus or the message could not be set up
    | StoreFailed  // "Failed to save device state: ..."

  /** The result of the restore-or-save step. */
  datatype Step = Done | Failed(error: StepError) | Crashed(panic: Panic) | Refused

  /** What the process prints (or how it dies), in order. */
  datatype Event =
    | Conflict                        // "Cannot both save and restore state ..."
    | Reported(failure: StepError)
    | Rejected(reason: ResolveError)  // an error returned by `parse_value`
    | Aborted(panic: Panic)
    | ShowDevice(device: Device)
    | ShowBrightness(value: u32)
    | ShowMax(value: u32)

  /** What the restore-or-save step prints. */
  function StepEvents(r: Step): seq<Event> {
    match r
    case Done => []
    case Failed(e) => [Reported(e)]
    case Crashed(p) => [Aborted(p)]
    case Refused => [Conflict]
  }

  /** `Device::restore` from device `d0` to `d1`: no file is reported, an
      unparsable file panics, and a saved value is written through the session
      manager and becomes the brightness only if sending succeeded. */
  ghost predicate Restored(store: map<(string, string), string>, d0: Device, r: Step, d1: Device,
                           sent0: seq<Call>, sent1: seq<Call>)
  {
    match Lookup(store, d0)
    case NoFile => r == Failed(NoRecord) && d1 == d0 && sent1 == sent0
    case Garbled => r == Crashed(UnwrapOnErr) && d1 == d0 && sent1 == sent0
    case Saved(v) =>
      (r == Done && d1 == d0.(brightness := v) && sent1 == sent0 + [Call(d0.className, d0.id, v)])
      || (r == Failed(BusFailed) && d1 == d0 && sent1 == sent0)
  }

  /** `Device::save`: on success the device's record holds its brightness in
      decimal, overwriting any earlier one; on failure nothing changes. */
  ghost predicate SavedTo(store0: map<(string, string), string>, d: Device, r: Step,
                          store1: map<(string, string), string>)
  {
    (r == Done && store1 == store0[RecordKey(d) := Decimal(d.brightness)])
    || (r == Failed(StoreFailed) && store1 == store0)
  }

  /** Lines 233-245 of `main`: both flags are refused, otherwise restore or
      save or neither. */
  ghost predicate Prepared(restore: bool, save: bool,
                           d0: Device, store0: map<(string, string), string>, sent0: seq<Call>,
                           r: Step,
                           d1: Device, store1: map<(string, string), string>, sent1: seq<Call>)
  {
    if restore && save then r == Refused && d1 == d0 && store1 == store0 && sent1 == sent0
    else if restore then store1 == store0 && Restored(store0, d0, r, d1, sent0, sent1)
    else if save then d1 == d0 && sent1 == sent0 && SavedTo(store0, d0, r, store1)
    else r == Done && d1 == d0 && store1 == store0 && sent1 == sent0
  }

  /** The messages sent once the restore-or-save step is over, given the
      device as it left it: a successful restore has written the restored
      value. */
  ghost function PrepSent(restore: bool, save: bool, r: Step, sent0: seq<Call>, d: Device): seq<Call> {
    if restore && !save && r == Done then sent0 + [Call(d.className, d.id, d.brightness)] else sent0
  }

  // ---------------------------------------------------------------------------
  // Commands

  /** What a command amounts to for a device: something printed (or a panic),
      or a value handed to the session manager. */
  datatype Plan = Print(event: Event) | Write(value: u32)

  /** Lines 247-266 of `main`, as a plan: `set` resolves its expression
      against the device's brightness at that moment. */
  function CommandPlan(build: Build, command: Option<Command>, d: Device): (p: Plan)
    ensures p.Write? <==> command.Some? && command.value.Set?
                          && Resolve(build, command.value.value, d.brightness, d.maxBrightness).Ok?
    ensures p.Write? ==> p.value == Resolve(build, command.value.value, d.brightness, d.maxBrightness).value.qty
    ensures p.Write? && Resolve(build, command.value.value, d.brightness, d.maxBrightness).value.adj != Neg
            ==> p.value <= d.maxBrightness
  {
    match command
    case None => Print(ShowDevice(d))
    case Some(Info) => Print(ShowDevice(d))
    case Some(Get) => Print(ShowBrightness(d.brightness))
    case Some(Max) => Print(ShowMax(d.maxBrightness))
    case Some(Set(arg)) =>
      match Resolve(build, arg, d.brightness, d.maxBrightness)
      case Ok(v) => Write(v.qty)
      case Err(Panicked(p)) => Print(Aborted(p))
      case Err(e) => Print(Rejected(e))
  }

  /** Carrying out a plan: a write either reaches the bus or is reported as a
      failure, and nothing else is printed. */
  ghost predicate Performed(p: Plan, d: Device, sent0: seq<Call>, sent1: seq<Call>,
                            out0: seq<Event>, out1: seq<Event>)
  {
    match p
    case Print(e) => sent1 == sent0 && out1 == out0 + [e]
    case Write(v) =>
      (sent1 == sent0 + [Call(d.className, d.id, v)] && out1 == out0)
      || (sent1 == sent0 && out1 == out0 + [Reported(BusFailed)])
  }

  /** A save, then (in a later run, after the brightness has changed to
      `later`) a restore of the same device: the restore either writes the
      saved brightness back and the device is as it was when saved, or fails
      to reach the session manager. It never finds the record missing or
      garbled. */
  lemma SaveThenRestore(store0: map<(string, string), string>, store1: map<(string, string), string>,
                        d: Device, later: u32, r: Step, d1: Device, sent0: seq<Call>, sent1: seq<Call>)
    requires SavedTo(store0, d, Done, store1)
    requires Restored(store1, d.(brightness := later), r, d1, sent0, sent1)
    ensures r == Done || r == Failed(BusFailed)
    ensures r == Done ==> d1 == d && sent1 == sent0 + [Call(d.className, d.id, d.brightness)]
    ensures r != Done ==> d1.brightness == later && sent1 == sent0
  {
    var moved := d.(brightness := later);
    assert RecordKey(moved) == RecordKey(d);
    SaveRestoreRoundTrip(store0, d);
    assert Lookup(store1, moved) == Saved(d.brightness);
  }

  // ---------------------------------------------------------------------------
  // One invocation

  /** The state one run of the tool works on: the selected device, the
      persisted store, the messages sent to the session manager and what has
      been printed. */
  class Invocation {
    const build: Build
    var device: Device
    var store: map<(string, string), string>
    ghost var sent: seq<Call>
    var output: seq<Event>

    constructor (build: Build, device: Device, store: map<(string, string), string>)
      ensures this.build == build && this.device == device && this.store == store
      ensures sent == [] && output == []
    {
      this.build := build;
      this.device := device;
      this.store := store;
      sent := [];
      output := [];
    }

    /** `set_brightness`: builds a `SetBrightness` message for the device and
        sends it. Connecting to the system bus or building the message may
        fail; the reply to the call itself is discarded, so once sent the
        write counts as done. */
    method SetBrightness(value: u32) returns (ok: bool)
      modifies this`sent
      ensures sent == old(sent) + (if ok then [Call(device.className, device.id, value)] else [])
    {
      ok :| true;
      if ok {
        sent := sent + [Call(device.className, device.id, value)];
      }
    }

    /** `Device::restore`. */
    method Restore() returns (r: Step)
      modifies this`device, this`sent
      ensures Restored(store, old(device), r, device, old(sent), sent)
    {
      var key := RecordKey(device);
      if key !in store {
        return Failed(NoRecord);
      }
      match ParseU32(store[key]) {
        case None =>
          return Crashed(UnwrapOnErr);
        case Some(value) =>
          var ok := SetBrightness(value);
          if !ok {
            return Failed(BusFailed);
          }
          device := device.(brightness := value);
          return Done;
      }
    }

    /** `Device::save`: creating the directory or writing the file may fail. */
    method Save() returns (r: Step)
      modifies this`store
      ensures SavedTo(old(store), device, r, store)
    {
      var ok :| true;
      if !ok {
        return Failed(StoreFailed);
      }
      store := store[RecordKey(device) := Decimal(device.brightness)];
      return Done;
    }

    /** Lines 233-245 of `main`. */
    method Prepare(restore: bool, save: bool) returns (r: Step)
      modifies this`device, this`store, this`sent, this`output
      ensures Prepared(restore, save, old(device), old(store), old(sent), r, device, store, sent)
      ensures output == old(output) + StepEvents(r)
    {
      if restore && save {
        r := Refused;
      } else if restore {
        r := Restore();
      } else if save {
        r := Save();
      } else {
        r := Done;
      }
      output := output + StepEvents(r);
    }

    /** Lines 247-266 of `main`: runs the command against the device as it
        is now; the device itself is left as it is. */
    method RunCommand(command: Option<Command>)
      modifies this`sent, this`output
      ensures Performed(CommandPlan(build, command, device), device, old(sent), sent, old(output), output)
    {
      match command {
        case None =>
          output := output + [ShowDevice(device)];
        case Some(Info) =>
          output := output + [ShowDevice(device)];
        case Some(Get) =>
          output := output + [ShowBrightness(device.brightness)];
        case Some(Max) =>
          output := output + [ShowMax(device.maxBrightness)];
        case Some(Set(arg)) =>
          var value := Resolve(build, arg, device.brightness, device.maxBrightness);
          match value {
            case Err(Panicked(p)) =>
              output := output + [Aborted(p)];
            case Err(e) =>
              output := output + [Rejected(e)];
            case Ok(v) =>
              var ok := SetBrightness(v.qty);
              if !ok {
                output := output + [Reported(BusFailed)];
              }
          }
      }
    }

    /** Lines 233-266 of `main`. The command runs after a successful or failed
        restore or save, against the device as the restore left it; a
        refusal or a panic ends the run first. A save stores the brightness
        from before any `set`. */
    method Dispatch(restore: bool, save: bool, command: Option<Command>) returns (prep: Step)
      modifies this`device, this`store, this`sent, this`output
      ensures Prepared(restore, save, old(device), old(store), old(sent), prep, device, store,
                       PrepSent(restore, save, prep, old(sent), device))
      ensures prep.Refused? || prep.Crashed? ==>
                sent == PrepSent(restore, save, prep, old(sent), device) && output == old(output) + StepEvents(prep)
      ensures prep.Done? || prep.Failed? ==>
                Performed(CommandPlan(build, command, device), device,
                          PrepSent(restore, save, prep, old(sent), device), sent,
                          old(output) + StepEvents(prep), output)
    {
      prep := Prepare(restore, save);
      if prep.Done? || prep.Failed? {
        RunCommand(command);
      }
    }
  }
}
