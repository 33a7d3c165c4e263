/**
 The controller and disk section of the QEMU command line: `BaseMachine.Args` in
 `internal/qemu/machine.go` and `Disk.Args`, `FixOptions` in `internal/qemu/disk.go`.

 QEMU reads its options in order and resolves an id when it meets it, so the section is a small
 program: every id has to be defined before it is used, and only once.
 */
module DiskArgs {
  import opened Wrappers
  import opened Text
  import opened QemuOptions

  datatype Interface = AHCI | NVMe | USB | Virtio | Other(name: string)

  datatype Media = DiskMedia | Cdrom | OtherMedia(name: string)

  datatype Spec = Spec(
    path: string,
    index: int,
    format: string,
    readonly: bool,
    media: Media,
    iface: Interface,
    cache: string,
    serial: string,
    passthrough: bool,
    imageFile: bool,
    bootIndex: int)

  // ----- one disk

  const USB_ID := "usbdisk0"

  function DriveId(i: nat): string { "disk" + Digits(i) }

  function ThreadId(i: nat): string { "iothread-" + DriveId(i) }

  function Aio(linux: bool, preferred: string): string {
    if linux then preferred else "threads"
  }

  function MediaName(m: Media): string {
    match m
    case DiskMedia => "disk"
    case Cdrom => "cdrom"
    case OtherMedia(n) => n
  }

  function InterfaceName(f: Interface): string {
    match f
    case AHCI => "ahci"
    case NVMe => "nvme"
    case USB => "usb"
    case Virtio => "virtio"
    case Other(n) => n
  }

  function Boolean(b: bool): string { if b then "true" else "false" }

  function BootProp(d: Spec): seq<Prop> {
    if d.bootIndex > 0 then [Prop(KBootindex, Decimal(d.bootIndex))] else []
  }

  // FixOptions: a cdrom is read-only, without format and uncached.
  function Fixed(d: Spec): Spec {
    if d.media.Cdrom? then d.(readonly := true, format := "", cache := "none") else d
  }

  // The properties each way of attaching a disk writes.
  function AhciDrive(d: Spec, i: nat, linux: bool): seq<Prop> {
    [Prop(KFile, d.path), Prop(KIf, "none"), Prop(KId, DriveId(i)), Prop(KFormat, d.format), Prop(KCache, d.cache),
     Prop(KAio, Aio(linux, "native")), Prop(KDiscard, "unmap")]
  }

  function NvmeDrive(d: Spec, i: nat): seq<Prop> {
    [Prop(KFile, d.path), Prop(KIf, "none"), Prop(KId, DriveId(i)), Prop(KFormat, d.format)]
    + (if d.cache != "" then [Prop(KCache, d.cache)] else [])
  }

  function UsbDrive(d: Spec, i: nat): seq<Prop> {
    [Prop(KFile, d.path), Prop(KIf, "none"), Prop(KId, DriveId(i)), Prop(KMedia, MediaName(d.media)),
     Prop(KReadonly, Boolean(d.readonly))]
    + (if d.media.DiskMedia? && d.format != "" then [Prop(KFormat, d.format)] else [])
  }

  function ThreadDrive(d: Spec, i: nat, linux: bool): seq<Prop> {
    [Prop(KFile, d.path), Prop(KFormat, if d.imageFile && d.format != "" then d.format else "raw"), Prop(KIf, "none"),
     Prop(KId, DriveId(i)), Prop(KCache, "none"), Prop(KAio, Aio(linux, "native")), Prop(KDiscard, "unmap")]
  }

  function PlainDrive(d: Spec, i: nat, linux: bool): seq<Prop> {
    [Prop(KFile, d.path), Prop(KReadonly, Boolean(d.readonly)), Prop(KMedia, MediaName(d.media)),
     Prop(KIf, InterfaceName(d.iface)), Prop(KId, DriveId(i))] + Tail(d, linux)
  }

  function OnBus(d: Spec, i: nat, second: Prop): seq<Prop> {
    [Prop(KDrive, DriveId(i)), second] + BootProp(d)
  }

  function OnThread(d: Spec, i: nat): seq<Prop> {
    [Prop(KDrive, DriveId(i))] + (if d.serial != "" then [Prop(KSerial, d.serial)] else []) + BootProp(d)
    + [Prop(KIothread, ThreadId(i))]
  }

  // Args of a disk whose options are fixed.
  function ArgsOf(d: Spec, i: nat, linux: bool): seq<Arg> {
    if d.iface.AHCI? then
      [Drive(AhciDrive(d, i, linux)), Device("ide-hd", OnBus(d, i, Prop(KBus, AhciBus(i))))]
    else if d.iface.NVMe? then
      [Drive(NvmeDrive(d, i)), Device("nvme", OnBus(d, i, Prop(KSerial, DriveId(i))))]
    else if d.iface.USB? then
      [Drive(UsbDrive(d, i)), Device("usb-storage", OnBus(d, i, Prop(KBus, USB_ID + ".0")))]
    else if d.passthrough || d.imageFile then
      [Object("iothread", [Prop(KId, ThreadId(i))]), Drive(ThreadDrive(d, i, linux)),
       Device("virtio-blk-pci", OnThread(d, i))]
    else
      [Drive(PlainDrive(d, i, linux))]
  }

  // The optional properties of a plain -drive.
  function Tail(d: Spec, linux: bool): seq<Prop> {
    IndexProp(d) + CacheProps(d, linux)
  }

  function IndexProp(d: Spec): seq<Prop> {
    if d.index > 0 then [Prop(KIndex, Decimal(d.index))] else []
  }

  function CacheProps(d: Spec, linux: bool): seq<Prop> {
    if d.media.DiskMedia? then
      [Prop(KFormat, d.format)] +
      (if d.iface.Virtio? then
         [Prop(KCache, if d.cache == "" then "none" else d.cache), Prop(KAio, Aio(linux, "io_uring")),
          Prop(KDiscard, "unmap")]
       else if d.cache != "" then [Prop(KCache, d.cache)] else [])
    else if d.cache != "" then [Prop(KCache, d.cache)] else []
  }

  // ----- the section

  // The controllers, by whether they are wanted.
  function Wanted(ahci: bool, usb: bool): seq<Arg> {
    (if ahci then [Device("ahci", [Prop(KId, AHCI_ID)])] else []) +
    (if usb then [Device("qemu-xhci", [Prop(KId, USB_ID)])] else [])
  }

  function Controllers(ds: seq<Spec>): seq<Arg> {
    Wanted(exists i :: 0 <= i < |ds| && ds[i].iface.AHCI?, exists i :: 0 <= i < |ds| && ds[i].iface.USB?)
  }

  function Disks(ds: seq<Spec>, linux: bool): seq<Arg> {
    if ds == [] then [] else
      var n := |ds| - 1;
      Disks(ds[..n], linux) + ArgsOf(Fixed(ds[n]), n, linux)
  }

  function Section(ds: seq<Spec>, linux: bool): seq<Arg> {
    Controllers(ds) + Disks(ds, linux)
  }

  // ----- names

  lemma {:induction false} DriveIdsDistinct(i: nat, j: nat)
    requires DriveId(i) == DriveId(j) || ThreadId(i) == ThreadId(j)
    ensures i == j
  {
    assert ThreadId(i)[9..] == DriveId(i) && ThreadId(j)[9..] == DriveId(j);
    assert DriveId(i)[4..] == Digits(i) && DriveId(j)[4..] == Digits(j);
    ValueOfDigits(i);
    ValueOfDigits(j);
  }

  lemma {:induction false} NamesApart(i: nat, j: nat)
    ensures DriveId(i) != ThreadId(j) && DriveId(i) !in {AHCI_ID, USB_ID} && ThreadId(j) !in {AHCI_ID, USB_ID}
  {
    assert DriveId(i)[0] == 'd' && ThreadId(j)[0] == 'i' && AHCI_ID[0] == 'a' && USB_ID[0] == 'u';
  }

  lemma {:induction false} BusController(c: string, port: string)
    requires forall i :: 0 <= i < |c| ==> c[i] != '.'
    ensures Controller(c + "." + port) == c
  {
    var b := c + "." + port;
    if c == "" {
      assert b[0] == '.';
    } else {
      BusController(c[1..], port);
      assert b[1..] == c[1..] + "." + port && b[0] == c[0];
    }
  }

  function AhciBus(i: nat): string { AHCI_ID + "." + Digits(i) }

  lemma {:induction false} BusNames(i: nat)
    ensures Controller(AhciBus(i)) == AHCI_ID && Controller(USB_ID + ".0") == USB_ID
  {
    BusController(AHCI_ID, Digits(i));
    BusController(USB_ID, "0");
    assert USB_ID + ".0" == USB_ID + "." + "0";
  }

  lemma {:induction false} AhciPortsDistinct(i: nat, j: nat)
    requires AhciBus(i) == AhciBus(j)
    ensures i == j
  {
    assert AhciBus(i)[6..] == Digits(i) && AhciBus(j)[6..] == Digits(j);
    ValueOfDigits(i);
    ValueOfDigits(j);
  }

  // ----- what one disk defines and uses

  // What disk i may define, and what it needs.
  function Own(i: nat): set<string> { {DriveId(i), ThreadId(i)} }

  function Needs(d: Spec): set<string> {
    if d.iface.AHCI? then {AHCI_ID} else if d.iface.USB? then {USB_ID} else {}
  }

  // The shape of every branch: perhaps an iothread, then the drive, then perhaps its device.
  ghost predicate Shape(args: seq<Arg>, i: nat, needs: set<string>, port: set<string>) {
    || (|args| == 1 && IsDrive(args[0], i) && needs == {} && port == {})
    || (|args| == 2 && IsDrive(args[0], i) && IsDevice(args[1], i, needs, {}, port))
    || (|args| == 3 && IsThread(args[0], i) && IsDrive(args[1], i) && IsDevice(args[2], i, needs, {ThreadId(i)}, port))
  }

  ghost predicate IsDrive(a: Arg, i: nat) {
    a.Drive? && Defs(a) == {DriveId(i)}
  }

  ghost predicate IsThread(a: Arg, i: nat) {
    a.Object? && Defs(a) == {ThreadId(i)}
  }

  ghost predicate IsDevice(a: Arg, i: nat, needs: set<string>, thread: set<string>, port: set<string>) {
    a.Device? && Defs(a) == {} && Refs(a) == {DriveId(i)} + needs + thread && AhciPort(a) == port
  }

  lemma {:induction false} AhciShape(d: Spec, i: nat, linux: bool)
    requires d.iface.AHCI?
    ensures Shape(ArgsOf(d, i, linux), i, {AHCI_ID}, {AhciBus(i)})
  {
    FoundAt(AhciDrive(d, i, linux), KId, 2);
    AhciDevice(ArgsOf(d, i, linux)[1], d, i);
  }

  lemma {:induction false} AhciDevice(a: Arg, d: Spec, i: nat)
    requires a.Device? && a.props == OnBus(d, i, Prop(KBus, AhciBus(i)))
    ensures IsDevice(a, i, {AHCI_ID}, {}, {AhciBus(i)})
  {
    NoneOf(a.props, KId);
    NoneOf(a.props, KIothread);
    FoundAt(a.props, KDrive, 0);
    FoundAt(a.props, KBus, 1);
    BusNames(i);
  }

  lemma {:induction false} NvmeShape(d: Spec, i: nat, linux: bool)
    requires d.iface.NVMe?
    ensures Shape(ArgsOf(d, i, linux), i, {}, {})
  {
    var args := ArgsOf(d, i, linux);
    FoundAt(args[0].props, KId, 2);
    var p := args[1].props;
    NoneOf(p, KId);
    NoneOf(p, KIothread);
    NoneOf(p, KBus);
    FoundAt(p, KDrive, 0);
  }

  lemma {:induction false} UsbShape(d: Spec, i: nat, linux: bool)
    requires d.iface.USB?
    ensures Shape(ArgsOf(d, i, linux), i, {USB_ID}, {})
  {
    var args := ArgsOf(d, i, linux);
    FoundAt(args[0].props, KId, 2);
    var p := args[1].props;
    NoneOf(p, KId);
    NoneOf(p, KIothread);
    FoundAt(p, KDrive, 0);
    FoundAt(p, KBus, 1);
    BusNames(i);
    assert USB_ID[0] != AHCI_ID[0];
  }

  lemma {:induction false} ThreadShape(d: Spec, i: nat, linux: bool)
    requires !d.iface.AHCI? && !d.iface.NVMe? && !d.iface.USB? && (d.passthrough || d.imageFile)
    ensures Shape(ArgsOf(d, i, linux), i, {}, {})
  {
    var args := ArgsOf(d, i, linux);
    ThreadFirst(args[0], args[1], i);
    ThreadDevice(args[2], d, i);
  }

  lemma {:induction false} ThreadFirst(thread: Arg, drive: Arg, i: nat)
    requires thread.Object? && thread.props == [Prop(KId, ThreadId(i))]
    requires drive.Drive? && |drive.props| > 3 && drive.props[3] == Prop(KId, DriveId(i))
    requires drive.props[0].key != KId && drive.props[1].key != KId && drive.props[2].key != KId
    ensures IsThread(thread, i) && IsDrive(drive, i)
  {
    FoundAt(thread.props, KId, 0);
    FoundAt(drive.props, KId, 3);
  }

  lemma {:induction false} ThreadDevice(a: Arg, d: Spec, i: nat)
    requires a.Device? && a.props == [Prop(KDrive, DriveId(i))]
                                     + (if d.serial != "" then [Prop(KSerial, d.serial)] else []) + BootProp(d)
                                     + [Prop(KIothread, ThreadId(i))]
    ensures IsDevice(a, i, {}, {ThreadId(i)}, {})
  {
    var p := a.props;
    NoneOf(p, KId);
    NoneOf(p, KBus);
    FoundAt(p, KDrive, 0);
    FoundAt(p, KIothread, |p| - 1);
  }

  lemma {:induction false} PlainShape(d: Spec, i: nat, linux: bool)
    requires !d.iface.AHCI? && !d.iface.NVMe? && !d.iface.USB? && !d.passthrough && !d.imageFile
    ensures Shape(ArgsOf(d, i, linux), i, {}, {})
  {
    FoundAt(ArgsOf(d, i, linux)[0].props, KId, 4);
  }

  lemma {:induction false} DiskShape(d: Spec, i: nat, linux: bool)
    ensures Shape(ArgsOf(d, i, linux), i, Needs(d), if d.iface.AHCI? then {AhciBus(i)} else {})
  {
    if d.iface.AHCI? {
      AhciShape(d, i, linux);
    } else if d.iface.NVMe? {
      NvmeShape(d, i, linux);
    } else if d.iface.USB? {
      UsbShape(d, i, linux);
    } else if d.passthrough || d.imageFile {
      ThreadShape(d, i, linux);
    } else {
      PlainShape(d, i, linux);
    }
  }

  lemma {:induction false} PairReads(drive: Arg, device: Arg, i: nat, needs: set<string>, thread: set<string>,
                                     port: set<string>,
                                     env: set<string>, used: set<string>)
    requires IsDrive(drive, i) && IsDevice(device, i, needs, thread, port)
    requires needs + thread <= env && DriveId(i) !in env && port !! used
    ensures WellDefined([drive, device], env) && AllDefs([drive, device]) == {DriveId(i)}
    ensures PortsFree([drive, device], used) && AllPorts([drive, device]) == port
  {
    ReadOne(drive, env, used);
    ReadOne(device, env + Defs(drive), used);
    ReadConcat([drive], [device], env, used);
    assert [drive] + [device] == [drive, device] && used + {} == used;
  }

  lemma {:induction false} TripleReads(thread: Arg, drive: Arg, device: Arg, i: nat, needs: set<string>,
                                       port: set<string>,
                                       env: set<string>, used: set<string>)
    requires IsThread(thread, i) && IsDrive(drive, i) && IsDevice(device, i, needs, {ThreadId(i)}, port)
    requires needs <= env && Own(i) !! env && port !! used
    ensures var args := [thread] + [drive, device];
            && WellDefined(args, env) && AllDefs(args) <= Own(i)
            && PortsFree(args, used) && AllPorts(args) == port
  {
    NamesApart(i, i);
    ReadOne(thread, env, used);
    PairReads(drive, device, i, needs, {ThreadId(i)}, port, env + {ThreadId(i)}, used);
    ReadConcat([thread], [drive, device], env, used);
    assert used + {} == used;
  }

  lemma {:induction false} ShapeReads(args: seq<Arg>, i: nat, needs: set<string>, port: set<string>,
                                      env: set<string>, used: set<string>)
    requires Shape(args, i, needs, port) && needs <= env && Own(i) !! env && port !! used
    ensures WellDefined(args, env) && AllDefs(args) <= Own(i)
    ensures PortsFree(args, used) && AllPorts(args) == port
  {
    if |args| == 1 {
      assert args == [args[0]];
      SingleReads(args[0], i, env, used);
    } else if |args| == 2 {
      assert args == [args[0], args[1]];
      PairReads(args[0], args[1], i, needs, {}, port, env, used);
    } else {
      assert args == [args[0]] + [args[1], args[2]];
      TripleReads(args[0], args[1], args[2], i, needs, port, env, used);
    }
  }

  lemma {:induction false} SingleReads(drive: Arg, i: nat, env: set<string>, used: set<string>)
    requires IsDrive(drive, i) && Own(i) !! env
    ensures WellDefined([drive], env) && AllDefs([drive]) <= Own(i)
    ensures PortsFree([drive], used) && AllPorts([drive]) == {}
  {
    ReadOne(drive, env, used);
  }

  // ----- the whole section

  // Everything the controllers and the first n disks can define.
  function Upto(n: nat): set<string> {
    if n == 0 then {AHCI_ID, USB_ID} else Upto(n - 1) + Own(n - 1)
  }

  lemma {:induction false} FreshIds(n: nat, i: nat)
    requires n <= i
    ensures Own(i) !! Upto(n)
    decreases n
  {
    NamesApart(i, i);
    if n > 0 {
      FreshIds(n - 1, i);
      NamesApart(i, n - 1);
      NamesApart(n - 1, i);
      if DriveId(i) == DriveId(n - 1) || ThreadId(i) == ThreadId(n - 1) {
        DriveIdsDistinct(i, n - 1);
      }
    }
  }

  // Ports of the first n disks.
  ghost predicate PortsBelow(ports: set<string>, n: nat) {
    forall b :: b in ports ==> exists j :: 0 <= j < n && b == AhciBus(j)
  }

  lemma {:induction false} WantedRead(ahci: bool, usb: bool)
    ensures var cs := Wanted(ahci, usb);
            && WellDefined(cs, {}) && PortsFree(cs, {}) && AllPorts(cs) == {}
            && AllDefs(cs) == (if ahci then {AHCI_ID} else {}) + (if usb then {USB_ID} else {})
  {
    var a := if ahci then [Device("ahci", [Prop(KId, AHCI_ID)])] else [];
    var b := if usb then [Device("qemu-xhci", [Prop(KId, USB_ID)])] else [];
    var env := if ahci then {AHCI_ID} else {};
    MaybeReads(ahci, Device("ahci", [Prop(KId, AHCI_ID)]), AHCI_ID, {});
    assert USB_ID !in env by { assert AHCI_ID[0] != USB_ID[0]; }
    MaybeReads(usb, Device("qemu-xhci", [Prop(KId, USB_ID)]), USB_ID, env);
    ReadConcat(a, b, {}, {});
    assert {} + AllDefs(a) == env && {} + AllPorts(a) == {};
  }

  lemma {:induction false} MaybeReads(wanted: bool, c: Arg, id: string, env: set<string>)
    requires c.Device? && c.props == [Prop(KId, id)] && id !in env
    ensures var cs := if wanted then [c] else [];
            && WellDefined(cs, env) && PortsFree(cs, {}) && AllPorts(cs) == {}
            && AllDefs(cs) == if wanted then {id} else {}
  {
    ControllerReads(c, id, env);
  }

  lemma {:induction false} ControllersRead(ds: seq<Spec>)
    ensures var cs := Controllers(ds);
            && WellDefined(cs, {}) && PortsFree(cs, {}) && AllDefs(cs) <= {AHCI_ID, USB_ID} && AllPorts(cs) == {}
  {
    WantedRead(exists i :: 0 <= i < |ds| && ds[i].iface.AHCI?, exists i :: 0 <= i < |ds| && ds[i].iface.USB?);
  }

  lemma {:induction false} NeedsMet(ds: seq<Spec>, i: nat)
    requires i < |ds|
    ensures Needs(ds[i]) <= AllDefs(Controllers(ds))
  {
    NeedsWanted(ds[i], exists i :: 0 <= i < |ds| && ds[i].iface.AHCI?, exists i :: 0 <= i < |ds| && ds[i].iface.USB?);
  }

  lemma {:induction false} NeedsWanted(d: Spec, ahci: bool, usb: bool)
    requires (d.iface.AHCI? ==> ahci) && (d.iface.USB? ==> usb)
    ensures Needs(d) <= AllDefs(Wanted(ahci, usb))
  {
    WantedDefs(ahci, usb);
  }

  lemma {:induction false} WantedDefs(ahci: bool, usb: bool)
    ensures AllDefs(Wanted(ahci, usb)) == (if ahci then {AHCI_ID} else {}) + (if usb then {USB_ID} else {})
  {
    WantedRead(ahci, usb);
  }

  lemma {:induction false} ControllerReads(c: Arg, id: string, env: set<string>)
    requires c.Device? && c.props == [Prop(KId, id)] && id !in env
    ensures WellDefined([c], env) && PortsFree([c], {}) && AllDefs([c]) == {id} && AllPorts([c]) == {}
  {
    ReadOne(c, env, {});
    FoundAt(c.props, KId, 0);
    NoneOf(c.props, KDrive);
    NoneOf(c.props, KIothread);
    NoneOf(c.props, KBus);
  }

  // The arguments of the first n disks, read after the controllers.
  ghost predicate Reads(args: seq<Arg>, env: set<string>, n: nat) {
    && WellDefined(args, env) && env + AllDefs(args) <= Upto(n)
    && PortsFree(args, {}) && PortsBelow(AllPorts(args), n)
  }

  lemma {:induction false} AppendReads(before: seq<Arg>, args: seq<Arg>, n: nat, needs: set<string>,
                                       port: set<string>, env: set<string>)
    requires Reads(before, env, n) && Shape(args, n, needs, port) && needs <= env && port <= {AhciBus(n)}
    ensures Reads(before + args, env, n + 1)
  {
    FreshIds(n, n);
    if AhciBus(n) in AllPorts(before) {
      var j :| 0 <= j < n && AhciBus(n) == AhciBus(j);
      AhciPortsDistinct(n, j);
    }
    ShapeReads(args, n, needs, port, env + AllDefs(before), AllPorts(before));
    ReadConcat(before, args, env, {});
    assert {} + AllPorts(before) == AllPorts(before);
  }

  lemma {:induction false} DisksRead(ds: seq<Spec>, linux: bool, env: set<string>)
    requires env <= {AHCI_ID, USB_ID} && forall i :: 0 <= i < |ds| ==> Needs(ds[i]) <= env
    ensures Reads(Disks(ds, linux), env, |ds|)
  {
    if ds != [] {
      var n := |ds| - 1;
      var last := Fixed(ds[n]);
      DisksRead(ds[..n], linux, env);
      DiskShape(last, n, linux);
      AppendReads(Disks(ds[..n], linux), ArgsOf(last, n, linux), n, Needs(last),
                  if last.iface.AHCI? then {AhciBus(n)} else {}, env);
    }
  }

  /** For every disk list, each drive, iothread and controller id comes after its definition, none is
      defined twice, and no two disks are on one AHCI port. */
  lemma {:induction false} SectionIsWellDefined(ds: seq<Spec>, linux: bool)
    ensures WellDefined(Section(ds, linux), {}) && PortsFree(Section(ds, linux), {})
  {
    ControllersRead(ds);
    var cs := Controllers(ds);
    forall i | 0 <= i < |ds| ensures Needs(ds[i]) <= AllDefs(cs) {
      NeedsMet(ds, i);
    }
    DisksRead(ds, linux, AllDefs(cs));
    ReadConcat(cs, Disks(ds, linux), {}, {});
    assert {} + AllDefs(cs) == AllDefs(cs) && {} + AllPorts(cs) == {};
  }

  // ----- the section as QEMU reads it

  lemma {:induction false} FreeConcat(a: seq<Prop>, b: seq<Prop>)
    ensures Free(a + b) <==> Free(a) && Free(b)
  {
    var ps := a + b;
    if Free(ps) {
      forall i | 0 <= i < |a| ensures NoComma(a[i].value) {
        assert ps[i] == a[i];
      }
      forall i | 0 <= i < |b| ensures NoComma(b[i].value) {
        assert ps[|a| + i] == b[i];
      }
    }
  }

  lemma {:induction false} NumbersFree(n: int)
    ensures NoComma(Decimal(n)) && (n >= 0 ==> NoComma(Digits(n)))
  {
    var d := Digits(if n < 0 then -n else n);
    assert forall i :: 0 <= i < |d| ==> IsDigit(d[i]);
  }

  lemma {:induction false} IdsFree(i: nat)
    ensures NoComma(DriveId(i)) && NoComma(ThreadId(i)) && NoComma(AhciBus(i))
  {
    NumbersFree(i);
  }

  lemma {:induction false} BootFree(d: Spec)
    ensures Free(BootProp(d)) && AllKnown(BootProp(d))
  {
    NumbersFree(d.bootIndex);
  }

  // What the branch taken for a disk writes of it holds no comma.
  predicate Plain(d: Spec) {
    && NoComma(d.path)
    && if d.iface.AHCI? || d.iface.NVMe? then NoComma(d.format) && NoComma(d.cache)
       else if d.iface.USB? then NoComma(MediaName(d.media)) && (d.media.DiskMedia? ==> NoComma(d.format))
       else if d.passthrough || d.imageFile then NoComma(d.serial) && (d.imageFile ==> NoComma(d.format))
       else
         && NoComma(MediaName(d.media)) && NoComma(InterfaceName(d.iface)) && NoComma(d.cache)
         && (d.media.DiskMedia? ==> NoComma(d.format))
  }

  lemma {:induction false} ShortFree(ps: seq<Prop>)
    requires |ps| <= 7
    ensures Free(ps) <==>
            && (0 < |ps| ==> NoComma(ps[0].value)) && (1 < |ps| ==> NoComma(ps[1].value))
            && (2 < |ps| ==> NoComma(ps[2].value)) && (3 < |ps| ==> NoComma(ps[3].value))
            && (4 < |ps| ==> NoComma(ps[4].value)) && (5 < |ps| ==> NoComma(ps[5].value))
            && (6 < |ps| ==> NoComma(ps[6].value))
  {
  }

  lemma {:induction false} ShortAllFree(args: seq<Arg>)
    requires 0 < |args| <= 3
    ensures AllFree(args) <==>
            && Free(args[0].props) && (1 < |args| ==> Free(args[1].props)) && (2 < |args| ==> Free(args[2].props))
  {
  }

  // A device on a drive, with its boot index.
  lemma {:induction false} DeviceFree(i: nat, p: Prop, d: Spec)
    ensures Free([Prop(KDrive, DriveId(i)), p] + BootProp(d)) <==> NoComma(p.value)
  {
    IdsFree(i);
    BootFree(d);
    var ps := [Prop(KDrive, DriveId(i)), p];
    FreeConcat(ps, BootProp(d));
    ShortFree(ps);
  }

  lemma {:induction false} AhciPlain(d: Spec, i: nat, linux: bool)
    requires d.iface.AHCI?
    ensures AllFree(ArgsOf(d, i, linux)) <==> Plain(d)
  {
    var args := ArgsOf(d, i, linux);
    IdsFree(i);
    DeviceFree(i, Prop(KBus, AhciBus(i)), d);
    ShortFree(args[0].props);
    ShortAllFree(args);
  }

  lemma {:induction false} NvmePlain(d: Spec, i: nat, linux: bool)
    requires d.iface.NVMe?
    ensures AllFree(ArgsOf(d, i, linux)) <==> Plain(d)
  {
    var args := ArgsOf(d, i, linux);
    IdsFree(i);
    DeviceFree(i, Prop(KSerial, DriveId(i)), d);
    ShortFree(args[0].props);
    ShortAllFree(args);
  }

  lemma {:induction false} UsbPlain(d: Spec, i: nat, linux: bool)
    requires d.iface.USB?
    ensures AllFree(ArgsOf(d, i, linux)) <==> Plain(d)
  {
    var args := ArgsOf(d, i, linux);
    IdsFree(i);
    DeviceFree(i, Prop(KBus, USB_ID + ".0"), d);
    ShortFree(args[0].props);
    ShortAllFree(args);
  }

  lemma {:induction false} ThreadDeviceFree(i: nat, d: Spec)
    ensures var serial := if d.serial != "" then [Prop(KSerial, d.serial)] else [];
            Free([Prop(KDrive, DriveId(i))] + serial + BootProp(d) + [Prop(KIothread, ThreadId(i))]) <==> NoComma(d.serial)
  {
    IdsFree(i);
    BootFree(d);
    var serial := if d.serial != "" then [Prop(KSerial, d.serial)] else [];
    var start, end := [Prop(KDrive, DriveId(i))] + serial, [Prop(KIothread, ThreadId(i))];
    ShortFree(start);
    ShortFree(end);
    FreeConcat(start, BootProp(d));
    FreeConcat(start + BootProp(d), end);
  }

  lemma {:induction false} ThreadPlain(d: Spec, i: nat, linux: bool)
    requires !d.iface.AHCI? && !d.iface.NVMe? && !d.iface.USB? && (d.passthrough || d.imageFile)
    ensures AllFree(ArgsOf(d, i, linux)) <==> Plain(d)
  {
    var args := ArgsOf(d, i, linux);
    IdsFree(i);
    ThreadDeviceFree(i, d);
    ShortFree(args[0].props);
    ShortFree(args[1].props);
    ShortAllFree(args);
  }

  lemma {:induction false} TailFree(d: Spec, linux: bool)
    ensures Free(Tail(d, linux)) <==> NoComma(d.cache) && (d.media.DiskMedia? ==> NoComma(d.format))
  {
    NumbersFree(d.index);
    ShortFree(IndexProp(d));
    ShortFree(CacheProps(d, linux));
    FreeConcat(IndexProp(d), CacheProps(d, linux));
  }

  lemma {:induction false} DrivePlain(d: Spec, i: nat, linux: bool)
    requires !d.iface.AHCI? && !d.iface.NVMe? && !d.iface.USB? && !d.passthrough && !d.imageFile
    ensures AllFree(ArgsOf(d, i, linux)) <==> Plain(d)
  {
    var args := ArgsOf(d, i, linux);
    IdsFree(i);
    TailFree(d, linux);
    var start := [Prop(KFile, d.path), Prop(KReadonly, Boolean(d.readonly)), Prop(KMedia, MediaName(d.media)),
                  Prop(KIf, InterfaceName(d.iface)), Prop(KId, DriveId(i))];
    ShortFree(start);
    FreeConcat(start, Tail(d, linux));
    ShortAllFree(args);
  }

  lemma {:induction false} PlainDisksAreFree(d: Spec, i: nat, linux: bool)
    ensures AllFree(ArgsOf(d, i, linux)) <==> Plain(d)
  {
    if d.iface.AHCI? {
      AhciPlain(d, i, linux);
    } else if d.iface.NVMe? {
      NvmePlain(d, i, linux);
    } else if d.iface.USB? {
      UsbPlain(d, i, linux);
    } else if d.passthrough || d.imageFile {
      ThreadPlain(d, i, linux);
    } else {
      DrivePlain(d, i, linux);
    }
  }

  predicate AllWellFormed(args: seq<Arg>) {
    forall k :: 0 <= k < |args| ==> WellFormed(args[k])
  }

  lemma {:induction false} KindsPlain()
    ensures PlainWord("ahci") && PlainWord("qemu-xhci") && PlainWord("ide-hd") && PlainWord("nvme")
    ensures PlainWord("usb-storage") && PlainWord("virtio-blk-pci") && PlainWord("iothread")
  {
  }

  lemma {:induction false} KnownConcat(a: seq<Prop>, b: seq<Prop>)
    requires AllKnown(a) && AllKnown(b)
    ensures AllKnown(a + b)
  {
  }

  lemma {:induction false} DeviceKnown(kind: string, ps: seq<Prop>, d: Spec)
    requires PlainWord(kind) && ps != [] && AllKnown(ps)
    ensures WellFormed(Device(kind, ps + BootProp(d)))
  {
    KnownConcat(ps, BootProp(d));
  }

  lemma {:induction false} BusDiskWellFormed(d: Spec, i: nat, linux: bool)
    requires d.iface.AHCI? || d.iface.NVMe? || d.iface.USB?
    ensures AllWellFormed(ArgsOf(d, i, linux))
  {
    KindsPlain();
    var drive := Prop(KDrive, DriveId(i));
    if d.iface.AHCI? {
      DeviceKnown("ide-hd", [drive, Prop(KBus, AhciBus(i))], d);
    } else if d.iface.NVMe? {
      DeviceKnown("nvme", [drive, Prop(KSerial, DriveId(i))], d);
    } else {
      DeviceKnown("usb-storage", [drive, Prop(KBus, USB_ID + ".0")], d);
    }
  }

  lemma {:induction false} ThreadDiskWellFormed(d: Spec, i: nat, linux: bool)
    requires !d.iface.AHCI? && !d.iface.NVMe? && !d.iface.USB? && (d.passthrough || d.imageFile)
    ensures AllWellFormed(ArgsOf(d, i, linux))
  {
    KindsPlain();
    var start := [Prop(KDrive, DriveId(i))] + (if d.serial != "" then [Prop(KSerial, d.serial)] else []);
    KnownConcat(start, BootProp(d));
    KnownConcat(start + BootProp(d), [Prop(KIothread, ThreadId(i))]);
  }

  lemma {:induction false} DriveWellFormed(d: Spec, i: nat, linux: bool)
    requires !d.iface.AHCI? && !d.iface.NVMe? && !d.iface.USB? && !d.passthrough && !d.imageFile
    ensures AllWellFormed(ArgsOf(d, i, linux))
  {
    assert AllKnown(Tail(d, linux));
    KnownConcat([Prop(KFile, d.path), Prop(KReadonly, Boolean(d.readonly)), Prop(KMedia, MediaName(d.media)),
                 Prop(KIf, InterfaceName(d.iface)), Prop(KId, DriveId(i))], Tail(d, linux));
  }

  lemma {:induction false} DiskWellFormed(d: Spec, i: nat, linux: bool)
    ensures AllWellFormed(ArgsOf(d, i, linux))
  {
    if d.iface.AHCI? || d.iface.NVMe? || d.iface.USB? {
      BusDiskWellFormed(d, i, linux);
    } else if d.passthrough || d.imageFile {
      ThreadDiskWellFormed(d, i, linux);
    } else {
      DriveWellFormed(d, i, linux);
    }
  }

  lemma {:induction false} AllConcat(a: seq<Arg>, b: seq<Arg>)
    ensures AllFree(a + b) <==> AllFree(a) && AllFree(b)
    ensures AllWellFormed(a) && AllWellFormed(b) ==> AllWellFormed(a + b)
  {
    var args := a + b;
    if AllFree(args) {
      forall k | 0 <= k < |a| ensures Free(a[k].props) {
        assert args[k] == a[k];
      }
      forall k | 0 <= k < |b| ensures Free(b[k].props) {
        assert args[|a| + k] == b[k];
      }
    }
  }

  predicate AllPlain(ds: seq<Spec>) {
    forall i :: 0 <= i < |ds| ==> Plain(Fixed(ds[i]))
  }

  lemma {:induction false} DisksFree(ds: seq<Spec>, linux: bool)
    ensures AllFree(Disks(ds, linux)) <==> AllPlain(ds)
    ensures AllWellFormed(Disks(ds, linux))
  {
    if ds != [] {
      var n := |ds| - 1;
      DisksFree(ds[..n], linux);
      PlainDisksAreFree(Fixed(ds[n]), n, linux);
      DiskWellFormed(Fixed(ds[n]), n, linux);
      AllConcat(Disks(ds[..n], linux), ArgsOf(Fixed(ds[n]), n, linux));
      assert AllPlain(ds) <==> AllPlain(ds[..n]) && Plain(Fixed(ds[n])) by { LastPlain(ds); }
    }
  }

  lemma {:induction false} LastPlain(ds: seq<Spec>)
    requires ds != []
    ensures AllPlain(ds) <==> AllPlain(ds[..|ds| - 1]) && Plain(Fixed(ds[|ds| - 1]))
  {
    var n := |ds| - 1;
    if AllPlain(ds) {
      forall i | 0 <= i < n ensures Plain(Fixed(ds[..n][i])) {
        assert ds[..n][i] == ds[i];
      }
    }
    if AllPlain(ds[..n]) && Plain(Fixed(ds[n])) {
      forall i | 0 <= i < |ds| ensures Plain(Fixed(ds[i])) {
        assert i < n ==> ds[..n][i] == ds[i];
      }
    }
  }

  lemma {:induction false} ControllersFree(ds: seq<Spec>)
    ensures AllFree(Controllers(ds)) && AllWellFormed(Controllers(ds))
  {
    KindsPlain();
  }

  lemma {:induction false} SectionFree(ds: seq<Spec>, linux: bool)
    ensures AllFree(Section(ds, linux)) <==> AllPlain(ds)
    ensures AllWellFormed(Section(ds, linux))
  {
    ControllersFree(ds);
    DisksFree(ds, linux);
    AllConcat(Controllers(ds), Disks(ds, linux));
  }

  /** QEMU reads the words of the section as the section if and only if nothing a disk contributes to
      them holds a comma. Then, for every disk list, it meets each drive, iothread and controller id
      after its definition, meets no id defined twice, and finds no two disks on one AHCI port. */
  lemma {:induction false} QemuReadsTheSection(ds: seq<Spec>, linux: bool)
    ensures var r := ReadWords(Words(Section(ds, linux)));
            && r.Some?
            && (r.value == Section(ds, linux) <==> AllPlain(ds))
            && (AllPlain(ds) ==> WellDefined(r.value, {}) && PortsFree(r.value, {}))
  {
    SectionFree(ds, linux);
    WordsReadBack(Section(ds, linux));
    SectionIsWellDefined(ds, linux);
  }

  // A disk of the passthrough branch.
  predicate Threaded(d: Spec) {
    !d.iface.AHCI? && !d.iface.NVMe? && !d.iface.USB? && (d.passthrough || d.imageFile)
  }

  lemma {:induction false} DriveReads(drive: Arg, p: string, x: string) returns (r: Arg)
    requires drive.Drive? && |drive.props| > 1 && AllKnown(drive.props) && NoComma(p) && NoComma(x)
    requires drive.props[0] == Prop(KFile, p + ("," + PropText(Prop(KId, x))))
    ensures ReadAs(drive, r) && r.Drive? && Lookup(r.props, KId) == Some(x)
  {
    var more := drive.props[1..];
    CommaSplits(KFile, p, x, more);
    assert drive.props == [drive.props[0]] + more;
    assert [] + PropTexts(drive.props) == PropTexts(drive.props);
    r := Drive([Prop(KFile, p)] + ([Prop(KId, x)] + ReadProps(PropsText(more))));
    FoundAt(r.props, KId, 1);
  }

  lemma {:induction false} OthersRead(d: Spec, linux: bool)
    requires Threaded(d) && NoComma(d.serial)
    ensures var args := ArgsOf(d, 0, linux);
            && |args| == 3 && AllKnown(args[1].props)
            && ReadAs(args[0], args[0]) && ReadAs(args[2], args[2])
  {
    var args := ArgsOf(d, 0, linux);
    DiskWellFormed(d, 0, linux);
    assert WellFormed(args[0]) && WellFormed(args[1]) && WellFormed(args[2]);
    OptionReadsBack(args[0]);
    OptionReadsBack(args[2]);
    IdsFree(0);
    ThreadDeviceFree(0, d);
    ShortFree(args[0].props);
  }

  lemma {:induction false} CommaPathReads(d: Spec, p: string, x: string, linux: bool) returns (drive: Arg)
    requires Threaded(d) && NoComma(d.serial) && NoComma(p) && NoComma(x)
    requires d.path == p + ("," + PropText(Prop(KId, x)))
    ensures var args := ArgsOf(d, 0, linux);
            && |args| == 3 && ReadWords(Words(args)) == Some([args[0], drive, args[2]])
            && drive.Drive? && Lookup(drive.props, KId) == Some(x)
  {
    var args := ArgsOf(d, 0, linux);
    OthersRead(d, linux);
    drive := DriveReads(args[1], p, x);
    EachReads(args, [args[0], drive, args[2]]);
  }

  /** A comma in a path can lose the disk's id. Of a passthrough disk at "p,id=x", otherwise plain, QEMU
      reads a drive called x, and then meets a device on a drive that nothing defines. */
  lemma {:induction false} CommaPathLosesTheId(d: Spec, p: string, x: string, linux: bool)
    requires Threaded(d) && !d.media.Cdrom? && Plain(d.(path := p)) && NoComma(x) && x != DriveId(0)
    requires d.path == p + ("," + PropText(Prop(KId, x)))
    ensures var r := ReadWords(Words(Section([d], linux)));
            r.Some? && !WellDefined(r.value, {})
  {
    var args := ArgsOf(d, 0, linux);
    var drive := CommaPathReads(d, p, x, linux);
    OneDisk(d, linux);
    ThreadParts(d, linux);
    LostId(args[0], drive, args[2], x);
  }

  lemma {:induction false} ThreadParts(d: Spec, linux: bool)
    requires Threaded(d)
    ensures var args := ArgsOf(d, 0, linux);
            |args| == 3 && IsThread(args[0], 0) && IsDevice(args[2], 0, {}, {ThreadId(0)}, {})
  {
    ThreadShape(d, 0, linux);
  }

  lemma {:induction false} OneDisk(d: Spec, linux: bool)
    requires Threaded(d) && !d.media.Cdrom?
    ensures Section([d], linux) == ArgsOf(d, 0, linux)
  {
    assert [d][..0] == [] && Disks([], linux) == [];
    assert [] + ArgsOf(d, 0, linux) == ArgsOf(d, 0, linux);
  }

  lemma {:induction false} LostId(thread: Arg, drive: Arg, device: Arg, x: string)
    requires IsThread(thread, 0) && drive.Drive? && Lookup(drive.props, KId) == Some(x) && x != DriveId(0)
    requires IsDevice(device, 0, {}, {ThreadId(0)}, {})
    ensures !WellDefined([thread, drive, device], {})
  {
    NamesApart(0, 0);
    ReadOne(thread, {}, {});
    ReadOne(drive, {ThreadId(0)}, {});
    ReadOne(device, {ThreadId(0), x}, {});
    ReadConcat([thread], [drive, device], {}, {});
    ReadConcat([drive], [device], {ThreadId(0)}, {});
    assert [thread] + [drive, device] == [thread, drive, device] && [drive] + [device] == [drive, device];
    assert {} + {ThreadId(0)} == {ThreadId(0)} && {ThreadId(0)} + {x} == {ThreadId(0), x};
    assert DriveId(0) in Refs(device) && DriveId(0) !in {ThreadId(0), x};
  }

  // ----- the emitter as written

  // The words of an option whose pieces have been collected.
  function Joined(flag: string, pieces: seq<string>): seq<string> {
    [flag, JoinCommas(pieces)]
  }

  lemma {:induction false} DriveWords(props: seq<Prop>, pieces: seq<string>)
    requires pieces == PropTexts(props)
    ensures Joined("-drive", pieces) == Words([Drive(props)])
  {
    WordsOfOne(Drive(props));
    assert [] + PropTexts(props) == PropTexts(props);
  }

  lemma {:induction false} DeviceWords(kind: string, props: seq<Prop>, pieces: seq<string>)
    requires pieces == [kind] + PropTexts(props)
    ensures Joined("-device", pieces) == Words([Device(kind, props)])
  {
    WordsOfOne(Device(kind, props));
  }

  lemma {:induction false} ObjectWords(kind: string, p: Prop)
    ensures Joined("-object", [kind, PropText(p)]) == Words([Object(kind, [p])])
  {
    WordsOfOne(Object(kind, [p]));
    assert [kind] + PropTexts([p]) == [kind, PropText(p)];
  }

  lemma {:induction false} TextsGrow(ps: seq<Prop>, more: seq<Prop>)
    ensures PropTexts(ps + more) == PropTexts(ps) + PropTexts(more)
  {
  }

  class Disk {
    var spec: Spec
    var diskIndex: nat

    constructor (spec: Spec)
      ensures this.spec == spec && diskIndex == 0
    {
      this.spec, diskIndex := spec, 0;
    }

    method FixOptions()
      modifies this`spec
      ensures spec == Fixed(old(spec))
    {
      if spec.media.Cdrom? {
        spec := spec.(readonly := true);
        spec := spec.(format := "");
        spec := spec.(cache := "none");
      }
    }

    // The boot index, if the disk has one.
    method Boot(pieces: seq<string>, ghost props: seq<Prop>) returns (pieces': seq<string>)
      requires pieces == PropTexts(props)
      ensures pieces' == PropTexts(props + BootProp(spec))
    {
      pieces' := pieces;
      TextsGrow(props, BootProp(spec));
      if spec.bootIndex > 0 {
        pieces' := pieces' + [PropText(Prop(KBootindex, Decimal(spec.bootIndex)))];
      }
    }

    method BusDevice(second: Prop) returns (pieces: seq<string>)
      ensures pieces == PropTexts(OnBus(spec, diskIndex, second))
    {
      pieces := [PropText(Prop(KDrive, DriveId(diskIndex))), PropText(second)];
      pieces := Boot(pieces, [Prop(KDrive, DriveId(diskIndex)), second]);
    }

    method ThreadDevice() returns (pieces: seq<string>)
      ensures pieces == PropTexts(OnThread(spec, diskIndex))
    {
      ghost var props := [Prop(KDrive, DriveId(diskIndex))];
      pieces := [PropText(Prop(KDrive, DriveId(diskIndex)))];
      if spec.serial != "" {
        pieces := pieces + [PropText(Prop(KSerial, spec.serial))];
        props := props + [Prop(KSerial, spec.serial)];
      }
      assert props == [Prop(KDrive, DriveId(diskIndex))] + (if spec.serial != "" then [Prop(KSerial, spec.serial)] else []);
      pieces := Boot(pieces, props);
      TextsGrow(props + BootProp(spec), [Prop(KIothread, ThreadId(diskIndex))]);
      pieces := pieces + [PropText(Prop(KIothread, ThreadId(diskIndex)))];
    }

    method AhciPieces(linux: bool) returns (pieces: seq<string>)
      ensures pieces == PropTexts(AhciDrive(spec, diskIndex, linux))
    {
      pieces := [
        PropText(Prop(KFile, spec.path)),
        PropText(Prop(KIf, "none")),
        PropText(Prop(KId, DriveId(diskIndex))),
        PropText(Prop(KFormat, spec.format)),
        PropText(Prop(KCache, spec.cache)),
        PropText(Prop(KAio, Aio(linux, "native"))),
        PropText(Prop(KDiscard, "unmap"))];
    }

    method NvmePieces() returns (pieces: seq<string>)
      ensures pieces == PropTexts(NvmeDrive(spec, diskIndex))
    {
      ghost var props := [Prop(KFile, spec.path), Prop(KIf, "none"), Prop(KId, DriveId(diskIndex)),
                          Prop(KFormat, spec.format)];
      pieces := [
        PropText(Prop(KFile, spec.path)),
        PropText(Prop(KIf, "none")),
        PropText(Prop(KId, DriveId(diskIndex))),
        PropText(Prop(KFormat, spec.format))];
      assert pieces == PropTexts(props);
      if spec.cache != "" {
        TextsGrow(props, [Prop(KCache, spec.cache)]);
        pieces := pieces + [PropText(Prop(KCache, spec.cache))];
      }
    }

    method UsbPieces() returns (pieces: seq<string>)
      ensures pieces == PropTexts(UsbDrive(spec, diskIndex))
    {
      ghost var props := [Prop(KFile, spec.path), Prop(KIf, "none"), Prop(KId, DriveId(diskIndex)),
                          Prop(KMedia, MediaName(spec.media)), Prop(KReadonly, Boolean(spec.readonly))];
      pieces := [
        PropText(Prop(KFile, spec.path)),
        PropText(Prop(KIf, "none")),
        PropText(Prop(KId, DriveId(diskIndex))),
        PropText(Prop(KMedia, MediaName(spec.media))),
        PropText(Prop(KReadonly, Boolean(spec.readonly)))];
      assert pieces == PropTexts(props);
      if spec.media.DiskMedia? && spec.format != "" {
        TextsGrow(props, [Prop(KFormat, spec.format)]);
        pieces := pieces + [PropText(Prop(KFormat, spec.format))];
      }
    }

    method ThreadPieces(linux: bool) returns (pieces: seq<string>)
      ensures pieces == PropTexts(ThreadDrive(spec, diskIndex, linux))
    {
      var format := "raw";
      if spec.imageFile && spec.format != "" {
        format := spec.format;
      }
      pieces := [
        PropText(Prop(KFile, spec.path)),
        PropText(Prop(KFormat, format)),
        PropText(Prop(KIf, "none")),
        PropText(Prop(KId, DriveId(diskIndex))),
        PropText(Prop(KCache, "none")),
        PropText(Prop(KAio, Aio(linux, "native"))),
        PropText(Prop(KDiscard, "unmap"))];
    }

    method PlainPieces(linux: bool) returns (pieces: seq<string>)
      ensures pieces == PropTexts(PlainDrive(spec, diskIndex, linux))
    {
      ghost var props := [Prop(KFile, spec.path), Prop(KReadonly, Boolean(spec.readonly)),
                          Prop(KMedia, MediaName(spec.media)), Prop(KIf, InterfaceName(spec.iface)),
                          Prop(KId, DriveId(diskIndex))];
      pieces := [
        PropText(Prop(KFile, spec.path)),
        PropText(Prop(KReadonly, Boolean(spec.readonly))),
        PropText(Prop(KMedia, MediaName(spec.media))),
        PropText(Prop(KIf, InterfaceName(spec.iface))),
        PropText(Prop(KId, DriveId(diskIndex)))];
      assert pieces == PropTexts(props);
      var more := OptionalPieces(linux);
      TextsGrow(props, Tail(spec, linux));
      pieces := pieces + more;
    }

    method OptionalPieces(linux: bool) returns (pieces: seq<string>)
      ensures pieces == PropTexts(Tail(spec, linux))
    {
      pieces := [];
      if spec.index > 0 {
        pieces := pieces + [PropText(Prop(KIndex, Decimal(spec.index)))];
      }
      assert pieces == PropTexts(IndexProp(spec));
      var more := CachePieces(linux);
      TextsGrow(IndexProp(spec), CacheProps(spec, linux));
      pieces := pieces + more;
    }

    method CachePieces(linux: bool) returns (pieces: seq<string>)
      ensures pieces == PropTexts(CacheProps(spec, linux))
    {
      pieces := [];
      if spec.media.DiskMedia? {
        pieces := pieces + [PropText(Prop(KFormat, spec.format))];
        if spec.iface.Virtio? {
          var cache := spec.cache;
          if cache == "" {
            cache := "none";
          }
          pieces := pieces + [PropText(Prop(KCache, cache)), PropText(Prop(KAio, Aio(linux, "io_uring"))),
                              PropText(Prop(KDiscard, "unmap"))];
        } else if spec.cache != "" {
          pieces := pieces + [PropText(Prop(KCache, spec.cache))];
        }
      } else if spec.cache != "" {
        pieces := pieces + [PropText(Prop(KCache, spec.cache))];
      }
    }

    // Disk.Args: one branch per way of attaching a disk, each appending to its lists and joining them.
    method Args(linux: bool) returns (words: seq<string>)
      modifies this`spec
      ensures spec == Fixed(old(spec)) && words == Words(ArgsOf(spec, diskIndex, linux))
    {
      FixOptions();
      if spec.iface.AHCI? {
        var drive := AhciPieces(linux);
        var device := BusDevice(Prop(KBus, AhciBus(diskIndex)));
        words := DriveAndDevice(AhciDrive(spec, diskIndex, linux), drive,
                                "ide-hd", OnBus(spec, diskIndex, Prop(KBus, AhciBus(diskIndex))), device);
      } else if spec.iface.NVMe? {
        var drive := NvmePieces();
        var device := BusDevice(Prop(KSerial, DriveId(diskIndex)));
        words := DriveAndDevice(NvmeDrive(spec, diskIndex), drive,
                                "nvme", OnBus(spec, diskIndex, Prop(KSerial, DriveId(diskIndex))), device);
      } else if spec.iface.USB? {
        var drive := UsbPieces();
        var device := BusDevice(Prop(KBus, USB_ID + ".0"));
        words := DriveAndDevice(UsbDrive(spec, diskIndex), drive,
                                "usb-storage", OnBus(spec, diskIndex, Prop(KBus, USB_ID + ".0")), device);
      } else if spec.passthrough || spec.imageFile {
        words := ThreadArgs(linux);
      } else {
        var drive := PlainPieces(linux);
        DriveWords(PlainDrive(spec, diskIndex, linux), drive);
        words := Joined("-drive", drive);
      }
    }

    method ThreadArgs(linux: bool) returns (words: seq<string>)
      requires Threaded(spec)
      ensures words == Words(ArgsOf(spec, diskIndex, linux))
    {
      var drive := ThreadPieces(linux);
      var device := ThreadDevice();
      var rest := DriveAndDevice(ThreadDrive(spec, diskIndex, linux), drive,
                                 "virtio-blk-pci", OnThread(spec, diskIndex), device);
      words := Joined("-object", ["iothread", PropText(Prop(KId, ThreadId(diskIndex)))]) + rest;
      ghost var args := ArgsOf(spec, diskIndex, linux);
      ObjectWords("iothread", Prop(KId, ThreadId(diskIndex)));
      WordsConcat([args[0]], [args[1], args[2]]);
      assert [args[0]] + [args[1], args[2]] == args;
    }

    static method DriveAndDevice(ghost driveProps: seq<Prop>, drive: seq<string>,
                                 kind: string, ghost deviceProps: seq<Prop>, device: seq<string>)
      returns (words: seq<string>)
      requires drive == PropTexts(driveProps) && device == PropTexts(deviceProps)
      ensures words == Words([Drive(driveProps), Device(kind, deviceProps)])
    {
      words := Joined("-drive", drive) + Joined("-device", [kind] + device);
      DriveWords(driveProps, drive);
      DeviceWords(kind, deviceProps, [kind] + device);
      WordsConcat([Drive(driveProps)], [Device(kind, deviceProps)]);
    }
  }

  ghost function Specs(disks: seq<Disk>): (r: seq<Spec>)
    reads disks
    ensures |r| == |disks| && forall i :: 0 <= i < |disks| ==> r[i] == disks[i].spec
  {
    if disks == [] then [] else Specs(disks[..|disks| - 1]) + [disks[|disks| - 1].spec]
  }

  /** The controller and disk section of BaseMachine.Args; the list may name one disk twice. QEMU reads
      the words back as the section if and only if the disks are plain, and then finds it well defined
      with every AHCI port free. */
  method MachineArgs(disks: seq<Disk>, linux: bool) returns (words: seq<string>)
    modifies disks
    ensures ReadWords(words).Some?
    ensures ReadWords(words) == Some(Section(old(Specs(disks)), linux)) <==> AllPlain(old(Specs(disks)))
    ensures AllPlain(old(Specs(disks))) ==>
              WellDefined(ReadWords(words).value, {}) && PortsFree(ReadWords(words).value, {})
  {
    ghost var specs := Specs(disks);
    var controllers := EmitControllers(disks);
    var rest := EmitDisks(disks, linux, specs);
    words := controllers + rest;
    WordsConcat(Controllers(specs), Disks(specs, linux));
    QemuReadsTheSection(specs, linux);
  }

  method EmitDisks(disks: seq<Disk>, linux: bool, ghost specs: seq<Spec>) returns (words: seq<string>)
    requires |specs| == |disks| && forall k :: 0 <= k < |disks| ==> disks[k].spec == specs[k]
    modifies disks
    ensures words == Words(Disks(specs, linux))
  {
    words := [];
    assert specs[..0] == [];
    for i := 0 to |disks|
      invariant forall k :: 0 <= k < |disks| ==> disks[k].spec == specs[k] || disks[k].spec == Fixed(specs[k])
      invariant words == Words(Disks(specs[..i], linux))
    {
      FixedTwice(specs[i]);
      var more := EmitDisk(disks[i], i, linux);
      DisksGrow(specs, i, linux);
      words := words + more;
    }
    assert specs[..|disks|] == specs;
  }

  lemma {:induction false} DisksGrow(ds: seq<Spec>, i: nat, linux: bool)
    requires i < |ds|
    ensures Words(Disks(ds[..i + 1], linux)) == Words(Disks(ds[..i], linux)) + Words(ArgsOf(Fixed(ds[i]), i, linux))
  {
    assert ds[..i + 1][..i] == ds[..i];
    WordsConcat(Disks(ds[..i], linux), ArgsOf(Fixed(ds[i]), i, linux));
  }

  lemma {:induction false} FixedTwice(d: Spec)
    ensures Fixed(Fixed(d)) == Fixed(d)
  {
  }

  method EmitDisk(disk: Disk, i: nat, linux: bool) returns (words: seq<string>)
    modifies disk
    ensures disk.spec == Fixed(old(disk.spec)) && words == Words(ArgsOf(Fixed(old(disk.spec)), i, linux))
  {
    disk.diskIndex := i;
    words := disk.Args(linux);
  }

  // The ids of the controllers, written out as the source does.
  lemma {:induction false} ControllerWords(kind: string, id: string)
    ensures Joined("-device", [kind, PropText(Prop(KId, id))]) == Words([Device(kind, [Prop(KId, id)])])
  {
    assert [kind] + PropTexts([Prop(KId, id)]) == [kind, PropText(Prop(KId, id))];
    DeviceWords(kind, [Prop(KId, id)], [kind, PropText(Prop(KId, id))]);
  }

  method EmitControllers(disks: seq<Disk>) returns (words: seq<string>)
    ensures words == Words(Controllers(Specs(disks)))
  {
    words := [];
    ghost var args: seq<Arg> := [];
    var i := 0;
    while i < |disks| && !disks[i].spec.iface.AHCI?
      invariant 0 <= i <= |disks| && forall k :: 0 <= k < i ==> !disks[k].spec.iface.AHCI?
    {
      i := i + 1;
    }
    if i < |disks| {
      words := words + Joined("-device", ["ahci", PropText(Prop(KId, AHCI_ID))]);
      args := [Device("ahci", [Prop(KId, AHCI_ID)])];
      ControllerWords("ahci", AHCI_ID);
    }
    var j := 0;
    while j < |disks| && !disks[j].spec.iface.USB?
      invariant 0 <= j <= |disks| && forall k :: 0 <= k < j ==> !disks[k].spec.iface.USB?
    {
      j := j + 1;
    }
    if j < |disks| {
      words := words + Joined("-device", ["qemu-xhci", PropText(Prop(KId, USB_ID))]);
      ControllerWords("qemu-xhci", USB_ID);
      WordsConcat(args, [Device("qemu-xhci", [Prop(KId, USB_ID)])]);
    }
  }
}
