/** Device selection and listing: the iterator chains in `main` that scan the
    requested classes for one device (with or without a name filter) or list
    every device of every class. */
module Selector {
  import opened RustStd
  import opened Catalog

  /** One enumeration of each class directory, in enumeration order (which
      the operating system chooses). An item is `None` when the enumeration
      reported an error for it. A class missing from the map is a directory
      that cannot be read. */
  type ClassDirs = map<string, seq<Option<Entry>>>

  /** One enumerated item as a device, if it is one. */
  function Mapped(className: string, item: Option<Entry>): Option<Device> {
    match item
    case None => None
    case Some(e) => MapDevice(className, e)
  }

  /** The devices of one class directory, in enumeration order: the entries
      that map, with errors and non-devices skipped. */
  function ClassDevices(className: string, items: seq<Option<Entry>>): (r: seq<Device>)
    ensures |r| <= |items|
    ensures forall d | d in r :: d.className == className
  {
    if items == [] then []
    else
      var rest := ClassDevices(className, items[1..]);
      match Mapped(className, items[0])
      case None => rest
      case Some(d) => [d] + rest
  }

  /** Every device of a class comes from one of its entries. */
  lemma {:induction false} ClassDevicesSound(className: string, items: seq<Option<Entry>>, d: Device)
    requires d in ClassDevices(className, items)
    ensures exists i :: 0 <= i < |items| && Mapped(className, items[i]) == Some(d)
  {
    if Mapped(className, items[0]) != Some(d) {
      ClassDevicesSound(className, items[1..], d);
      var j :| 0 <= j < |items[1..]| && Mapped(className, items[1..][j]) == Some(d);
      assert items[1..][j] == items[j + 1];
    }
  }

  /** No entry that maps is left out of a class's devices. */
  lemma {:induction false} ClassDevicesComplete(className: string, items: seq<Option<Entry>>, i: nat)
    requires i < |items| && Mapped(className, items[i]).Some?
    ensures Mapped(className, items[i]).value in ClassDevices(className, items)
  {
    var rest := ClassDevices(className, items[1..]);
    if i == 0 {
      assert ClassDevices(className, items) == [Mapped(className, items[0]).value] + rest;
    } else {
      assert items[1..][i - 1] == items[i];
      ClassDevicesComplete(className, items[1..], i - 1);
      assert ClassDevices(className, items)[|ClassDevices(className, items)| - |rest|..] == rest;
    }
  }

  /** Every device of every readable class, class by class in the order given:
      what list mode prints. */
  function AllDevices(dirs: ClassDirs, classes: seq<string>): (r: seq<Device>)
    ensures forall d | d in r :: d.className in classes && d.className in dirs
  {
    if classes == [] then []
    else
      var here := if classes[0] in dirs then ClassDevices(classes[0], dirs[classes[0]]) else [];
      here + AllDevices(dirs, classes[1..])
  }

  // ---------------------------------------------------------------------------
  // Selection without a filter

  /** `.flatten().find_map(map_device(..).ok())` over one class directory. */
  function FirstDevice(className: string, items: seq<Option<Entry>>): Option<Device> {
    if items == [] then None
    else
      match Mapped(className, items[0])
      case Some(d) => Some(d)
      case None => FirstDevice(className, items[1..])
  }

  /** Without a filter: the first device of the first readable class that has one. */
  function SelectFirst(dirs: ClassDirs, classes: seq<string>): Option<Device> {
    if classes == [] then None
    else
      var here := if classes[0] in dirs then FirstDevice(classes[0], dirs[classes[0]]) else None;
      if here.Some? then here else SelectFirst(dirs, classes[1..])
  }

  lemma {:induction false} FirstDeviceIsFirstListed(className: string, items: seq<Option<Entry>>)
    ensures FirstDevice(className, items) ==
            if ClassDevices(className, items) == [] then None else Some(ClassDevices(className, items)[0])
  {
    if items != [] {
      FirstDeviceIsFirstListed(className, items[1..]);
    }
  }

  /** The device chosen without a filter is the first device list mode would
      print; in particular there is none exactly when list mode finds none. */
  lemma {:induction false} SelectFirstIsFirstListed(dirs: ClassDirs, classes: seq<string>)
    ensures SelectFirst(dirs, classes) ==
            if AllDevices(dirs, classes) == [] then None else Some(AllDevices(dirs, classes)[0])
  {
    if classes != [] {
      SelectFirstIsFirstListed(dirs, classes[1..]);
      if classes[0] in dirs {
        FirstDeviceIsFirstListed(classes[0], dirs[classes[0]]);
      }
    }
  }

  // ---------------------------------------------------------------------------
  // Selection with a filter

  /** `.flatten().find(|e| e.file_name() == id)`: the first entry with that name. */
  function FirstNamed(items: seq<Option<Entry>>, id: string): (r: Option<Entry>)
    ensures r.Some? ==> r.value.name == id && Some(r.value) in items
    ensures r.Some? ==> exists i :: 0 <= i < |items| && items[i] == r
                                    && forall j | 0 <= j < i && items[j].Some? :: items[j].value.name != id
    ensures r.None? ==> forall i | 0 <= i < |items| && items[i].Some? :: items[i].value.name != id
  {
    if items == [] then None
    else if items[0].Some? && items[0].value.name == id then items[0]
    else
      var r := FirstNamed(items[1..], id);
      assert forall i | 1 <= i < |items| :: items[i] == items[1..][i - 1];
      assert r.Some? ==> exists i :: 0 <= i < |items| && items[i] == r
                                   && forall j | 0 <= j < i && items[j].Some? :: items[j].value.name != id by {
        if r.Some? {
          var k :| 0 <= k < |items[1..]| && items[1..][k] == r
                   && forall j | 0 <= j < k && items[1..][j].Some? :: items[1..][j].value.name != id;
          assert items[k + 1] == r;
        }
      }
      r
  }

  /** One class's answer to a filter: the first entry of that name, if it maps. */
  function NamedDevice(className: string, items: seq<Option<Entry>>, id: string): Option<Device> {
    match FirstNamed(items, id)
    case None => None
    case Some(e) => MapDevice(className, e)
  }

  /** With a filter: the answer of the first readable class that gives one. */
  function SelectById(dirs: ClassDirs, classes: seq<string>, id: string): (r: Option<Device>)
    ensures r.Some? ==> r.value.id == id && r.value.className in classes && r.value.className in dirs
  {
    if classes == [] then None
    else
      var here := if classes[0] in dirs then NamedDevice(classes[0], dirs[classes[0]], id) else None;
      if here.Some? then here else SelectById(dirs, classes[1..], id)
  }

  /** The first device of a sequence with the given name. */
  function FirstWithId(ds: seq<Device>, id: string): (r: Option<Device>)
    ensures r.Some? ==> r.value in ds && r.value.id == id
    ensures r.Some? ==> exists i :: 0 <= i < |ds| && ds[i] == r.value
                                    && forall j | 0 <= j < i :: ds[j].id != id
    ensures r.None? ==> forall d | d in ds :: d.id != id
  {
    if ds == [] then None
    else if ds[0].id == id then Some(ds[0])
    else
      var r := FirstWithId(ds[1..], id);
      assert r.Some? ==> exists i :: 0 <= i < |ds| && ds[i] == r.value
                                   && forall j | 0 <= j < i :: ds[j].id != id by {
        if r.Some? {
          var k :| 0 <= k < |ds[1..]| && ds[1..][k] == r.value
                   && forall j | 0 <= j < k :: ds[1..][j].id != id;
          assert ds[k + 1] == r.value;
          assert forall j | 1 <= j < k + 1 :: ds[j] == ds[1..][j - 1];
        }
      }
      r
  }

  lemma {:induction false} FirstWithIdAppend(a: seq<Device>, b: seq<Device>, id: string)
    ensures FirstWithId(a + b, id) == if FirstWithId(a, id).Some? then FirstWithId(a, id) else FirstWithId(b, id)
  {
    if a != [] {
      assert (a + b)[1..] == a[1..] + b;
      FirstWithIdAppend(a[1..], b, id);
    } else {
      assert a + b == b;
    }
  }

  /** A directory never holds two entries of the same name. */
  ghost predicate UniqueNames(items: seq<Option<Entry>>) {
    forall i, j | 0 <= i < j < |items| && items[i].Some? && items[j].Some? ::
      items[i].value.name != items[j].value.name
  }

  lemma {:induction false} NamedDeviceIsFirstListed(className: string, items: seq<Option<Entry>>, id: string)
    requires UniqueNames(items)
    ensures NamedDevice(className, items, id) == FirstWithId(ClassDevices(className, items), id)
  {
    if items != [] {
      var rest := items[1..];
      assert UniqueNames(rest) by {
        forall i, j | 0 <= i < j < |rest| && rest[i].Some? && rest[j].Some?
          ensures rest[i].value.name != rest[j].value.name
        {
          assert rest[i] == items[i + 1] && rest[j] == items[j + 1];
        }
      }
      NamedDeviceIsFirstListed(className, rest, id);
      if items[0].Some? && items[0].value.name == id {
        // No later entry carries the name, so no later device does.
        assert forall i | 0 <= i < |rest| && rest[i].Some? :: rest[i].value.name != id by {
          forall i | 0 <= i < |rest| && rest[i].Some? ensures rest[i].value.name != id {
            assert rest[i] == items[i + 1];
          }
        }
        assert FirstWithId(ClassDevices(className, rest), id).None? by {
          forall d | d in ClassDevices(className, rest) ensures d.id != id {
            ClassDevicesSound(className, rest, d);
            var k :| 0 <= k < |rest| && Mapped(className, rest[k]) == Some(d);
          }
        }
      }
    }
  }

  /** In directories without repeated names, the device chosen for a filter is
      the first device list mode would print with that name; so the filter
      fails exactly when no listed device has the name. */
  lemma {:induction false} SelectByIdIsFirstListed(dirs: ClassDirs, classes: seq<string>, id: string)
    requires forall c | c in dirs :: UniqueNames(dirs[c])
    ensures SelectById(dirs, classes, id) == FirstWithId(AllDevices(dirs, classes), id)
  {
    if classes != [] {
      SelectByIdIsFirstListed(dirs, classes[1..], id);
      var here := if classes[0] in dirs then ClassDevices(classes[0], dirs[classes[0]]) else [];
      if classes[0] in dirs {
        NamedDeviceIsFirstListed(classes[0], dirs[classes[0]], id);
      }
      FirstWithIdAppend(here, AllDevices(dirs, classes[1..]), id);
    }
  }

  /** The device a filter selects is one list mode prints, even when a
      directory repeats a name. */
  lemma {:induction false} SelectedByIdIsListed(dirs: ClassDirs, classes: seq<string>, id: string)
    requires SelectById(dirs, classes, id).Some?
    ensures SelectById(dirs, classes, id).value in AllDevices(dirs, classes)
  {
    var c := classes[0];
    if c in dirs && NamedDevice(c, dirs[c], id).Some? {
      var items := dirs[c];
      var e := FirstNamed(items, id).value;
      var i :| 0 <= i < |items| && items[i] == Some(e);
      ClassDevicesComplete(c, items, i);
    } else {
      SelectedByIdIsListed(dirs, classes[1..], id);
    }
  }

  // ---------------------------------------------------------------------------
  // List mode

  /** What list mode does: the devices it prints, and the `u16` total it ends
      with (`None` when adding the totals panicked). */
  datatype ListReport = ListReport(shown: seq<Device>, total: Option<nat>)

  /** The list-mode fold from a running total `acc`: each readable class's
      device count is cut to 16 bits (`count() as u16`) and added to the total
      with `u16` arithmetic, which panics on overflow in a debug build and
      wraps in a release build. Unreadable classes add nothing. */
  function ListFrom(build: Build, dirs: ClassDirs, classes: seq<string>, acc: nat): (r: ListReport)
    requires acc < U16_LIMIT
    ensures r.total.Some? ==> r.total.value < U16_LIMIT
  {
    if classes == [] then ListReport([], Some(acc))
    else if classes[0] !in dirs then ListFrom(build, dirs, classes[1..], acc)
    else
      var ds := ClassDevices(classes[0], dirs[classes[0]]);
      var sum := acc + |ds| % U16_LIMIT;
      if sum >= U16_LIMIT && build == Debug then ListReport(ds, None)
      else
        var rest := ListFrom(build, dirs, classes[1..], sum % U16_LIMIT);
        ListReport(ds + rest.shown, rest.total)
  }

  /** List mode as `main` runs it; a total of 0 prints the failure message. */
  function ListAll(build: Build, dirs: ClassDirs, classes: seq<string>): ListReport {
    ListFrom(build, dirs, classes, 0)
  }

  /** In a release build every device is printed and the total is the true
      count modulo 2^16. */
  lemma {:induction false} ReleaseListCount(dirs: ClassDirs, classes: seq<string>, acc: nat)
    requires acc < U16_LIMIT
    ensures ListFrom(Release, dirs, classes, acc)
            == ListReport(AllDevices(dirs, classes), Some((acc + |AllDevices(dirs, classes)|) % U16_LIMIT))
  {
    if classes != [] {
      var c := classes[0];
      var tail := AllDevices(dirs, classes[1..]);
      if c in dirs {
        var ds := ClassDevices(c, dirs[c]);
        var next := (acc + |ds| % U16_LIMIT) % U16_LIMIT;
        ReleaseListCount(dirs, classes[1..], next);
        assert AllDevices(dirs, classes) == ds + tail;
        ModAddMod(acc, |ds|, |tail|);
      } else {
        ReleaseListCount(dirs, classes[1..], acc);
        assert AllDevices(dirs, classes) == tail;
      }
    }
  }

  lemma ModAddMod(acc: nat, n: nat, m: nat)
    ensures ((acc + n % U16_LIMIT) % U16_LIMIT + m) % U16_LIMIT == (acc + (n + m)) % U16_LIMIT
  {
    var L := U16_LIMIT;
    var p := (acc + n % L) % L + m;
    var k := n / L + (acc + n % L) / L;
    assert n == (n / L) * L + n % L;
    assert acc + n % L == ((acc + n % L) / L) * L + (acc + n % L) % L;
    assert acc + (n + m) == p + k * L;
    ModShift(p, k);
  }

  lemma {:induction false} ModShift(x: nat, k: nat)
    ensures (x + k * U16_LIMIT) % U16_LIMIT == x % U16_LIMIT
  {
    if k > 0 {
      ModShift(x, k - 1);
      assert x + k * U16_LIMIT == (x + (k - 1) * U16_LIMIT) + U16_LIMIT;
    }
  }

  /** While the true count stays below 2^16, both builds print every device
      and report the exact count. */
  lemma {:induction false} ExactListCount(build: Build, dirs: ClassDirs, classes: seq<string>, acc: nat)
    requires acc + |AllDevices(dirs, classes)| < U16_LIMIT
    ensures ListFrom(build, dirs, classes, acc)
            == ListReport(AllDevices(dirs, classes), Some(acc + |AllDevices(dirs, classes)|))
  {
    if classes != [] {
      var c := classes[0];
      var tail := AllDevices(dirs, classes[1..]);
      if c in dirs {
        var ds := ClassDevices(c, dirs[c]);
        assert AllDevices(dirs, classes) == ds + tail;
        assert |ds| % U16_LIMIT == |ds|;
        assert (acc + |ds|) % U16_LIMIT == acc + |ds|;
        ExactListCount(build, dirs, classes[1..], acc + |ds|);
      } else {
        assert AllDevices(dirs, classes) == tail;
        ExactListCount(build, dirs, classes[1..], acc);
      }
    }
  }

  /** While the true count stays below 2^16, the failure message appears
      exactly when no class yields a device. */
  lemma NothingListed(build: Build, dirs: ClassDirs, classes: seq<string>)
    requires |AllDevices(dirs, classes)| < U16_LIMIT
    ensures ListAll(build, dirs, classes).total == Some(0) <==> AllDevices(dirs, classes) == []
  {
    ExactListCount(build, dirs, classes, 0);
  }

  lemma ClassDevicesCons(c: string, x: Option<Entry>, rest: seq<Option<Entry>>)
    ensures ClassDevices(c, [x] + rest)
            == (if Mapped(c, x).Some? then [Mapped(c, x).value] else []) + ClassDevices(c, rest)
  {
    assert ([x] + rest)[1..] == rest;
  }

  /** A class directory with three devices and, second, an entry that is not
      one: the three devices are kept in order and the bad entry is dropped. */
  lemma SkipsMalformedEntry(c: string, d1: Entry, d2: Entry, d3: Entry, bad: Entry)
    requires MapDevice(c, d1).Some? && MapDevice(c, d2).Some? && MapDevice(c, d3).Some?
    requires MapDevice(c, bad).None?
    ensures ClassDevices(c, [Some(d1), Some(bad), Some(d2), Some(d3)])
            == [MapDevice(c, d1).value, MapDevice(c, d2).value, MapDevice(c, d3).value]
  {
    var m1, m2, m3 := MapDevice(c, d1).value, MapDevice(c, d2).value, MapDevice(c, d3).value;
    ClassDevicesCons(c, Some(d3), []);
    ClassDevicesCons(c, Some(d2), [Some(d3)]);
    ClassDevicesCons(c, Some(bad), [Some(d2), Some(d3)]);
    ClassDevicesCons(c, Some(d1), [Some(bad), Some(d2), Some(d3)]);
    assert [Some(d3)] == [Some(d3)] + [];
  }

  /** Two classes, the first readable but empty, the second with three devices
      and one entry whose attribute does not parse: three devices are listed,
      and the bad entry is passed over without an error. */
  lemma ListExample(build: Build, c1: string, c2: string, d1: Entry, d2: Entry, d3: Entry, bad: Entry)
    requires c1 != c2
    requires MapDevice(c2, d1).Some? && MapDevice(c2, d2).Some? && MapDevice(c2, d3).Some?
    requires MapDevice(c2, bad).None?
    ensures ListAll(build, map[c1 := [], c2 := [Some(d1), Some(bad), Some(d2), Some(d3)]], [c1, c2]).total
            == Some(3)
  {
    var items := [Some(d1), Some(bad), Some(d2), Some(d3)];
    var dirs := map[c1 := [], c2 := items];
    assert c1 in dirs && dirs[c1] == [];
    assert c2 in dirs && dirs[c2] == items;
    SkipsMalformedEntry(c2, d1, d2, d3, bad);
    var ds := ClassDevices(c2, items);
    var classes := [c1, c2];
    assert classes[1..] == [c2] && [c2][1..] == [];
    assert AllDevices(dirs, [c2]) == ds + AllDevices(dirs, []);
    assert AllDevices(dirs, classes) == ClassDevices(c1, []) + AllDevices(dirs, [c2]);
    assert AllDevices(dirs, classes) == ds;
    ExactListCount(build, dirs, classes, 0);
  }
}
