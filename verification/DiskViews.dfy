/**
 What each disk of a machine is to QEMU once it has read the disk section: looked up by the disk's id among
 all the options, the backend's file and properties and the device it is attached to.
 */
module DiskViews {
  import opened Wrappers
  import opened Text
  import opened QemuOptions
  import opened DiskArgs

  // ----- QEMU's view

  // The properties of the first -drive with the id.
  function DriveNamed(args: seq<Arg>, id: string): Option<seq<Prop>> {
    if args == [] then None
    else if args[0].Drive? && Lookup(args[0].props, KId) == Some(id) then Some(args[0].props)
    else DriveNamed(args[1..], id)
  }

  // The first device on the drive.
  function DeviceOn(args: seq<Arg>, id: string): Option<Arg> {
    if args == [] then None
    else if args[0].Device? && Lookup(args[0].props, KDrive) == Some(id) then Some(args[0])
    else DeviceOn(args[1..], id)
  }

  // The kind of the first object or device with the id.
  function KindNamed(args: seq<Arg>, id: string): Option<string> {
    if args == [] then None
    else if !args[0].Drive? && Lookup(args[0].props, KId) == Some(id) then Some(args[0].kind)
    else KindNamed(args[1..], id)
  }

  lemma {:induction false} DriveConcat(a: seq<Arg>, b: seq<Arg>, id: string)
    ensures DriveNamed(a + b, id) == if DriveNamed(a, id).Some? then DriveNamed(a, id) else DriveNamed(b, id)
    ensures DeviceOn(a + b, id) == if DeviceOn(a, id).Some? then DeviceOn(a, id) else DeviceOn(b, id)
    ensures KindNamed(a + b, id) == if KindNamed(a, id).Some? then KindNamed(a, id) else KindNamed(b, id)
    decreases |a|
  {
    if a == [] {
      assert a + b == b;
    } else {
      DriveConcat(a[1..], b, id);
      assert (a + b)[0] == a[0] && (a + b)[1..] == a[1..] + b;
    }
  }

  // ----- what is asked for

  datatype Backend = Backend(file: Option<string>, interface: Option<string>, format: Option<string>,
                             readonly: Option<string>, media: Option<string>, cache: Option<string>,
                             aio: Option<string>, discard: Option<string>, index: Option<string>)

  datatype Frontend = Frontend(model: string, boot: Option<string>, serial: Option<string>, bus: Option<string>,
                               thread: Option<string>)

  function BackendOf(ps: seq<Prop>): Backend {
    Backend(Lookup(ps, KFile), Lookup(ps, KIf), Lookup(ps, KFormat), Lookup(ps, KReadonly), Lookup(ps, KMedia),
            Lookup(ps, KCache), Lookup(ps, KAio), Lookup(ps, KDiscard), Lookup(ps, KIndex))
  }

  function FrontendOf(a: Arg): Frontend
    requires a.Device?
  {
    Frontend(a.kind, Lookup(a.props, KBootindex), Lookup(a.props, KSerial), Lookup(a.props, KBus),
             Lookup(a.props, KIothread))
  }

  function Given(s: string): Option<string> {
    if s == "" then None else Some(s)
  }

  function Positive(n: int): Option<string> {
    if n > 0 then Some(Decimal(n)) else None
  }

  function OnOff(b: bool): string {
    if b then "true" else "false"
  }

  // The backend of a disk, by the way it is attached.
  function WantedBackend(d: Spec, linux: bool): Backend {
    var native := if linux then "native" else "threads";
    match d.iface
    case AHCI =>
      Backend(Some(d.path), Some("none"), Some(d.format), None, None, Some(d.cache), Some(native), Some("unmap"), None)
    case NVMe => Backend(Some(d.path), Some("none"), Some(d.format), None, None, Given(d.cache), None, None, None)
    case USB =>
      Backend(Some(d.path), Some("none"), if d.media.DiskMedia? then Given(d.format) else None, Some(OnOff(d.readonly)),
              Some(MediaName(d.media)), None, None, None, None)
    case _ =>
      if d.passthrough || d.imageFile then
        Backend(Some(d.path), Some("none"), Some(if d.imageFile && d.format != "" then d.format else "raw"), None, None,
                Some("none"), Some(native), Some("unmap"), None)
      else
        var tuned := d.media.DiskMedia? && d.iface.Virtio?;
        Backend(Some(d.path), Some(InterfaceName(d.iface)), if d.media.DiskMedia? then Some(d.format) else None,
                Some(OnOff(d.readonly)), Some(MediaName(d.media)),
                if tuned && d.cache == "" then Some("none") else Given(d.cache),
                if tuned then Some(if linux then "io_uring" else "threads") else None,
                if tuned then Some("unmap") else None, Positive(d.index))
  }

  // And its device, if it has one of its own.
  function WantedFrontend(d: Spec, i: nat): Option<Frontend> {
    match d.iface
    case AHCI => Some(Frontend("ide-hd", Positive(d.bootIndex), None, Some("ahci0." + Digits(i)), None))
    case NVMe => Some(Frontend("nvme", Positive(d.bootIndex), Some("disk" + Digits(i)), None, None))
    case USB => Some(Frontend("usb-storage", Positive(d.bootIndex), None, Some("usbdisk0.0"), None))
    case _ =>
      if d.passthrough || d.imageFile then
        Some(Frontend("virtio-blk-pci", Positive(d.bootIndex), Given(d.serial), None, Some("iothread-disk" + Digits(i))))
      else None
  }

  // Disk i is to QEMU what was asked for.
  ghost predicate AsAsked(args: seq<Arg>, d: Spec, i: nat, linux: bool) {
    var drive, device, want := DriveNamed(args, DriveId(i)), DeviceOn(args, DriveId(i)), WantedFrontend(d, i);
    && drive.Some? && BackendOf(drive.value) == WantedBackend(d, linux)
    && (if want.None? then device.None? else device.Some? && device.value.Device? && FrontendOf(device.value) == want.value)
  }

  // ----- looking properties up

  lemma {:induction false} LookupConcat(a: seq<Prop>, b: seq<Prop>, k: Key)
    ensures Lookup(a + b, k) == if Lookup(a, k).Some? then Lookup(a, k) else Lookup(b, k)
    decreases |a|
  {
    if a == [] {
      assert a + b == b;
    } else {
      LookupConcat(a[1..], b, k);
      assert (a + b)[0] == a[0] && (a + b)[1..] == a[1..] + b;
    }
  }

  // At most one property.
  lemma {:induction false} LookupOne(ps: seq<Prop>, k: Key)
    requires |ps| <= 1
    ensures Lookup(ps, k) == if ps != [] && ps[0].key == k then Some(ps[0].value) else None
  {
    assert ps != [] ==> ps[1..] == [];
  }

  lemma {:induction false} AhciLookup(d: Spec, i: nat, linux: bool, k: Key)
    ensures Lookup(AhciDrive(d, i, linux), k) ==
            match k
            case KFile => Some(d.path)
            case KIf => Some("none")
            case KId => Some(DriveId(i))
            case KFormat => Some(d.format)
            case KCache => Some(d.cache)
            case KAio => Some(if linux then "native" else "threads")
            case KDiscard => Some("unmap")
            case _ => None
  {
    var ps := AhciDrive(d, i, linux);
    match k
    case KFile => FoundAt(ps, k, 0);
    case KIf => FoundAt(ps, k, 1);
    case KId => FoundAt(ps, k, 2);
    case KFormat => FoundAt(ps, k, 3);
    case KCache => FoundAt(ps, k, 4);
    case KAio => FoundAt(ps, k, 5);
    case KDiscard => FoundAt(ps, k, 6);
    case _ => NoneOf(ps, k);
  }

  lemma {:induction false} NvmeLookup(d: Spec, i: nat, k: Key)
    ensures Lookup(NvmeDrive(d, i), k) ==
            match k
            case KFile => Some(d.path)
            case KIf => Some("none")
            case KId => Some(DriveId(i))
            case KFormat => Some(d.format)
            case KCache => Given(d.cache)
            case _ => None
  {
    var ps := NvmeDrive(d, i);
    match k
    case KFile => FoundAt(ps, k, 0);
    case KIf => FoundAt(ps, k, 1);
    case KId => FoundAt(ps, k, 2);
    case KFormat => FoundAt(ps, k, 3);
    case KCache => if d.cache != "" { FoundAt(ps, k, 4); } else { NoneOf(ps, k); }
    case _ => NoneOf(ps, k);
  }

  lemma {:induction false} UsbLookup(d: Spec, i: nat, k: Key)
    ensures Lookup(UsbDrive(d, i), k) ==
            match k
            case KFile => Some(d.path)
            case KIf => Some("none")
            case KId => Some(DriveId(i))
            case KMedia => Some(MediaName(d.media))
            case KReadonly => Some(OnOff(d.readonly))
            case KFormat => if d.media.DiskMedia? then Given(d.format) else None
            case _ => None
  {
    var ps := UsbDrive(d, i);
    match k
    case KFile => FoundAt(ps, k, 0);
    case KIf => FoundAt(ps, k, 1);
    case KId => FoundAt(ps, k, 2);
    case KMedia => FoundAt(ps, k, 3);
    case KReadonly => FoundAt(ps, k, 4);
    case KFormat => if d.media.DiskMedia? && d.format != "" { FoundAt(ps, k, 5); } else { NoneOf(ps, k); }
    case _ => NoneOf(ps, k);
  }

  lemma {:induction false} ThreadLookup(d: Spec, i: nat, linux: bool, k: Key)
    ensures Lookup(ThreadDrive(d, i, linux), k) ==
            match k
            case KFile => Some(d.path)
            case KFormat => Some(if d.imageFile && d.format != "" then d.format else "raw")
            case KIf => Some("none")
            case KId => Some(DriveId(i))
            case KCache => Some("none")
            case KAio => Some(if linux then "native" else "threads")
            case KDiscard => Some("unmap")
            case _ => None
  {
    var ps := ThreadDrive(d, i, linux);
    match k
    case KFile => FoundAt(ps, k, 0);
    case KFormat => FoundAt(ps, k, 1);
    case KIf => FoundAt(ps, k, 2);
    case KId => FoundAt(ps, k, 3);
    case KCache => FoundAt(ps, k, 4);
    case KAio => FoundAt(ps, k, 5);
    case KDiscard => FoundAt(ps, k, 6);
    case _ => NoneOf(ps, k);
  }

  lemma {:induction false} CacheLookup(d: Spec, linux: bool, k: Key)
    ensures var tuned := d.media.DiskMedia? && d.iface.Virtio?;
            Lookup(CacheProps(d, linux), k) ==
            match k
            case KFormat => if d.media.DiskMedia? then Some(d.format) else None
            case KCache => if tuned && d.cache == "" then Some("none") else Given(d.cache)
            case KAio => if tuned then Some(if linux then "io_uring" else "threads") else None
            case KDiscard => if tuned then Some("unmap") else None
            case _ => None
  {
    var ps := CacheProps(d, linux);
    if !d.media.DiskMedia? {
      LookupOne(ps, k);
    } else {
      var tail := ps[1..];
      assert ps == [Prop(KFormat, d.format)] + tail;
      if d.iface.Virtio? {
        match k
        case KFormat => FoundAt(ps, k, 0);
        case KCache => FoundAt(ps, k, 1);
        case KAio => FoundAt(ps, k, 2);
        case KDiscard => FoundAt(ps, k, 3);
        case _ => NoneOf(ps, k);
      } else {
        LookupOne(tail, k);
      }
    }
  }

  lemma {:induction false} TailLookup(d: Spec, linux: bool, k: Key)
    ensures Lookup(Tail(d, linux), k) == if k == KIndex then Positive(d.index) else Lookup(CacheProps(d, linux), k)
  {
    LookupConcat(IndexProp(d), CacheProps(d, linux), k);
    LookupOne(IndexProp(d), k);
    CacheLookup(d, linux, k);
  }

  lemma {:induction false} PlainLookup(d: Spec, i: nat, linux: bool, k: Key)
    ensures Lookup(PlainDrive(d, i, linux), k) ==
            match k
            case KFile => Some(d.path)
            case KReadonly => Some(OnOff(d.readonly))
            case KMedia => Some(MediaName(d.media))
            case KIf => Some(InterfaceName(d.iface))
            case KId => Some(DriveId(i))
            case KIndex => Positive(d.index)
            case _ => Lookup(CacheProps(d, linux), k)
  {
    var ps := PlainDrive(d, i, linux);
    match k
    case KFile => FoundAt(ps, k, 0);
    case KReadonly => FoundAt(ps, k, 1);
    case KMedia => FoundAt(ps, k, 2);
    case KIf => FoundAt(ps, k, 3);
    case KId => FoundAt(ps, k, 4);
    case _ =>
      assert ps[5..] == Tail(d, linux) && ps == ps[..5] + ps[5..];
      NoneOf(ps[..5], k);
      LookupConcat(ps[..5], ps[5..], k);
      TailLookup(d, linux, k);
  }

  lemma {:induction false} BusLookup(d: Spec, i: nat, second: Prop, k: Key)
    requires second.key == KBus || second.key == KSerial
    ensures Lookup(OnBus(d, i, second), k) ==
            if k == KDrive then Some(DriveId(i))
            else if k == second.key then Some(second.value)
            else if k == KBootindex then Positive(d.bootIndex) else None
  {
    var head := [Prop(KDrive, DriveId(i)), second];
    assert head[1..] == [second];
    LookupOne([second], k);
    LookupConcat(head, BootProp(d), k);
    LookupOne(BootProp(d), k);
  }

  lemma {:induction false} OnThreadLookup(d: Spec, i: nat, k: Key)
    ensures Lookup(OnThread(d, i), k) ==
            match k
            case KDrive => Some(DriveId(i))
            case KSerial => Given(d.serial)
            case KBootindex => Positive(d.bootIndex)
            case KIothread => Some(ThreadId(i))
            case _ => None
  {
    var a, b, c := [Prop(KDrive, DriveId(i))], if d.serial != "" then [Prop(KSerial, d.serial)] else [], BootProp(d);
    var e := [Prop(KIothread, ThreadId(i))];
    LookupConcat(a + b + c, e, k);
    LookupConcat(a + b, c, k);
    LookupConcat(a, b, k);
    LookupOne(a, k);
    LookupOne(b, k);
    LookupOne(c, k);
    LookupOne(e, k);
  }

  // ----- one disk

  // A drive and its device, perhaps behind an object.
  lemma {:induction false} PairFound(drive: Arg, device: Arg, id: string)
    requires drive.Drive? && device.Device?
    requires Lookup(drive.props, KId) == Some(id) && Lookup(device.props, KDrive) == Some(id)
    ensures DriveNamed([drive, device], id) == Some(drive.props) && DeviceOn([drive, device], id) == Some(device)
  {
    assert [drive, device][1..] == [device];
  }

  lemma {:induction false} ObjectPassed(first: Arg, args: seq<Arg>, id: string)
    requires first.Object?
    ensures DriveNamed([first] + args, id) == DriveNamed(args, id) && DeviceOn([first] + args, id) == DeviceOn(args, id)
  {
    assert ([first] + args)[1..] == args;
  }

  lemma {:induction false} PairAsAsked(drive: Arg, device: Arg, d: Spec, i: nat, linux: bool)
    requires drive.Drive? && device.Device?
    requires Lookup(drive.props, KId) == Some(DriveId(i)) && Lookup(device.props, KDrive) == Some(DriveId(i))
    requires BackendOf(drive.props) == WantedBackend(d, linux) && Some(FrontendOf(device)) == WantedFrontend(d, i)
    ensures AsAsked([drive, device], d, i, linux)
  {
    PairFound(drive, device, DriveId(i));
  }

  lemma {:induction false} TripleAsAsked(first: Arg, drive: Arg, device: Arg, d: Spec, i: nat, linux: bool)
    requires first.Object? && drive.Drive? && device.Device?
    requires Lookup(drive.props, KId) == Some(DriveId(i)) && Lookup(device.props, KDrive) == Some(DriveId(i))
    requires BackendOf(drive.props) == WantedBackend(d, linux) && Some(FrontendOf(device)) == WantedFrontend(d, i)
    ensures AsAsked([first, drive, device], d, i, linux)
  {
    PairFound(drive, device, DriveId(i));
    ObjectPassed(first, [drive, device], DriveId(i));
    assert [first] + [drive, device] == [first, drive, device];
  }

  lemma {:induction false} AhciBackend(d: Spec, i: nat, linux: bool)
    requires d.iface.AHCI?
    ensures var ps := AhciDrive(d, i, linux); BackendOf(ps) == WantedBackend(d, linux) && Lookup(ps, KId) == Some(DriveId(i))
  {
    forall k { AhciLookup(d, i, linux, k); }
  }

  lemma {:induction false} NvmeBackend(d: Spec, i: nat, linux: bool)
    requires d.iface.NVMe?
    ensures var ps := NvmeDrive(d, i); BackendOf(ps) == WantedBackend(d, linux) && Lookup(ps, KId) == Some(DriveId(i))
  {
    forall k { NvmeLookup(d, i, k); }
  }

  lemma {:induction false} UsbBackend(d: Spec, i: nat, linux: bool)
    requires d.iface.USB?
    ensures var ps := UsbDrive(d, i); BackendOf(ps) == WantedBackend(d, linux) && Lookup(ps, KId) == Some(DriveId(i))
  {
    forall k { UsbLookup(d, i, k); }
  }

  lemma {:induction false} ThreadBackend(d: Spec, i: nat, linux: bool)
    requires Threaded(d)
    ensures var ps := ThreadDrive(d, i, linux); BackendOf(ps) == WantedBackend(d, linux) && Lookup(ps, KId) == Some(DriveId(i))
  {
    forall k { ThreadLookup(d, i, linux, k); }
  }

  lemma {:induction false} PlainBackend(d: Spec, i: nat, linux: bool)
    requires !d.iface.AHCI? && !d.iface.NVMe? && !d.iface.USB? && !d.passthrough && !d.imageFile
    ensures var ps := PlainDrive(d, i, linux); BackendOf(ps) == WantedBackend(d, linux) && Lookup(ps, KId) == Some(DriveId(i))
  {
    forall k { PlainLookup(d, i, linux, k); }
    forall k { CacheLookup(d, linux, k); }
  }

  lemma {:induction false} BusFrontend(kind: string, d: Spec, i: nat, second: Prop)
    requires second.key == KBus || second.key == KSerial
    ensures var a := Device(kind, OnBus(d, i, second));
            && Lookup(a.props, KDrive) == Some(DriveId(i))
            && FrontendOf(a) == Frontend(kind, Positive(d.bootIndex), if second.key == KSerial then Some(second.value) else None,
                                         if second.key == KBus then Some(second.value) else None, None)
  {
    forall k { BusLookup(d, i, second, k); }
  }

  lemma {:induction false} ThreadFrontend(d: Spec, i: nat)
    ensures var a := Device("virtio-blk-pci", OnThread(d, i));
            && Lookup(a.props, KDrive) == Some(DriveId(i))
            && FrontendOf(a) == Frontend("virtio-blk-pci", Positive(d.bootIndex), Given(d.serial), None,
                                         Some("iothread-disk" + Digits(i)))
  {
    forall k { OnThreadLookup(d, i, k); }
    assert "iothread-" + ("disk" + Digits(i)) == "iothread-disk" + Digits(i);
  }

  lemma {:induction false} AhciAsAsked(d: Spec, i: nat, linux: bool)
    requires d.iface.AHCI?
    ensures AsAsked(ArgsOf(d, i, linux), d, i, linux)
  {
    AhciBackend(d, i, linux);
    BusFrontend("ide-hd", d, i, Prop(KBus, AhciBus(i)));
    assert AHCI_ID + "." + Digits(i) == "ahci0." + Digits(i);
    PairAsAsked(Drive(AhciDrive(d, i, linux)), Device("ide-hd", OnBus(d, i, Prop(KBus, AhciBus(i)))), d, i, linux);
  }

  lemma {:induction false} NvmeAsAsked(d: Spec, i: nat, linux: bool)
    requires d.iface.NVMe?
    ensures AsAsked(ArgsOf(d, i, linux), d, i, linux)
  {
    NvmeBackend(d, i, linux);
    BusFrontend("nvme", d, i, Prop(KSerial, DriveId(i)));
    PairAsAsked(Drive(NvmeDrive(d, i)), Device("nvme", OnBus(d, i, Prop(KSerial, DriveId(i)))), d, i, linux);
  }

  lemma {:induction false} UsbAsAsked(d: Spec, i: nat, linux: bool)
    requires d.iface.USB?
    ensures AsAsked(ArgsOf(d, i, linux), d, i, linux)
  {
    UsbBackend(d, i, linux);
    BusFrontend("usb-storage", d, i, Prop(KBus, USB_ID + ".0"));
    assert USB_ID + ".0" == "usbdisk0.0";
    PairAsAsked(Drive(UsbDrive(d, i)), Device("usb-storage", OnBus(d, i, Prop(KBus, USB_ID + ".0"))), d, i, linux);
  }

  lemma {:induction false} ThreadedAsAsked(d: Spec, i: nat, linux: bool)
    requires Threaded(d)
    ensures AsAsked(ArgsOf(d, i, linux), d, i, linux)
  {
    var thread, drive := Object("iothread", [Prop(KId, ThreadId(i))]), Drive(ThreadDrive(d, i, linux));
    var device := Device("virtio-blk-pci", OnThread(d, i));
    ThreadBackend(d, i, linux);
    ThreadFrontend(d, i);
    TripleAsAsked(thread, drive, device, d, i, linux);
  }

  lemma {:induction false} PlainAsAsked(d: Spec, i: nat, linux: bool)
    requires !d.iface.AHCI? && !d.iface.NVMe? && !d.iface.USB? && !d.passthrough && !d.imageFile
    ensures AsAsked(ArgsOf(d, i, linux), d, i, linux)
  {
    PlainBackend(d, i, linux);
    assert ArgsOf(d, i, linux)[1..] == [];
  }

  lemma {:induction false} DiskAsAsked(d: Spec, i: nat, linux: bool)
    ensures AsAsked(ArgsOf(d, i, linux), d, i, linux)
  {
    if d.iface.AHCI? {
      AhciAsAsked(d, i, linux);
    } else if d.iface.NVMe? {
      NvmeAsAsked(d, i, linux);
    } else if d.iface.USB? {
      UsbAsAsked(d, i, linux);
    } else if d.passthrough || d.imageFile {
      ThreadedAsAsked(d, i, linux);
    } else {
      PlainAsAsked(d, i, linux);
    }
  }

  // ----- among all the others

  // The options of one disk say nothing of another.
  lemma {:induction false} Silent(d: Spec, j: nat, i: nat, linux: bool)
    requires i != j
    ensures DriveNamed(ArgsOf(d, j, linux), DriveId(i)) == None && DeviceOn(ArgsOf(d, j, linux), DriveId(i)) == None
  {
    if DriveId(i) == DriveId(j) {
      DriveIdsDistinct(i, j);
    }
    DiskShape(d, j, linux);
    NamesApart(i, j);
    ShapeSilent(ArgsOf(d, j, linux), j, Needs(d), if d.iface.AHCI? then {AhciBus(j)} else {}, DriveId(i));
  }

  ghost predicate SilentOn(a: Arg, id: string) {
    !(a.Drive? && Lookup(a.props, KId) == Some(id)) && !(a.Device? && Lookup(a.props, KDrive) == Some(id))
  }

  lemma {:induction false} AllSilent(args: seq<Arg>, id: string)
    requires forall k :: 0 <= k < |args| ==> SilentOn(args[k], id)
    ensures DriveNamed(args, id) == None && DeviceOn(args, id) == None
  {
    if args != [] {
      assert SilentOn(args[0], id);
      AllSilent(args[1..], id);
    }
  }

  lemma {:induction false} ShapeSilent(args: seq<Arg>, j: nat, needs: set<string>, port: set<string>, id: string)
    requires Shape(args, j, needs, port) && id != DriveId(j) && id != ThreadId(j) && id !in needs
    ensures DriveNamed(args, id) == None && DeviceOn(args, id) == None
  {
    forall k | 0 <= k < |args| ensures SilentOn(args[k], id) {
      assert IsDrive(args[k], j) || IsThread(args[k], j) || args[k].Device?;
      assert args[k].Drive? ==> Defs(args[k]) == {DriveId(j)};
      assert args[k].Device? ==> Refs(args[k]) <= {DriveId(j), ThreadId(j)} + needs;
      OneSilent(args[k], j, needs, id);
    }
    AllSilent(args, id);
  }

  lemma {:induction false} OneSilent(a: Arg, j: nat, needs: set<string>, id: string)
    requires id != DriveId(j) && id != ThreadId(j) && id !in needs
    requires a.Drive? ==> Defs(a) == {DriveId(j)}
    requires a.Device? ==> Refs(a) <= {DriveId(j), ThreadId(j)} + needs
    ensures SilentOn(a, id)
  {
    assert a.Drive? && Lookup(a.props, KId) == Some(id) ==> id in Defs(a);
    assert a.Device? && Lookup(a.props, KDrive) == Some(id) ==> id in Refs(a);
  }

  lemma {:induction false} DisksSilent(ds: seq<Spec>, i: nat, linux: bool)
    requires i >= |ds|
    ensures DriveNamed(Disks(ds, linux), DriveId(i)) == None && DeviceOn(Disks(ds, linux), DriveId(i)) == None
  {
    if ds != [] {
      var n := |ds| - 1;
      DisksSilent(ds[..n], i, linux);
      Silent(Fixed(ds[n]), n, i, linux);
      DriveConcat(Disks(ds[..n], linux), ArgsOf(Fixed(ds[n]), n, linux), DriveId(i));
    }
  }

  lemma {:induction false} AmongDisks(ds: seq<Spec>, i: nat, linux: bool)
    requires i < |ds|
    ensures AsAsked(Disks(ds, linux), Fixed(ds[i]), i, linux)
  {
    var n := |ds| - 1;
    DriveConcat(Disks(ds[..n], linux), ArgsOf(Fixed(ds[n]), n, linux), DriveId(i));
    if i == n {
      DisksSilent(ds[..n], i, linux);
      DiskAsAsked(Fixed(ds[n]), n, linux);
    } else {
      AmongDisks(ds[..n], i, linux);
      Silent(Fixed(ds[n]), n, i, linux);
    }
  }

  lemma {:induction false} ControllersSilent(ahci: bool, usb: bool, id: string)
    ensures DriveNamed(Wanted(ahci, usb), id) == None && DeviceOn(Wanted(ahci, usb), id) == None
  {
    var a: seq<Arg> := if ahci then [Device("ahci", [Prop(KId, AHCI_ID)])] else [];
    var b: seq<Arg> := if usb then [Device("qemu-xhci", [Prop(KId, USB_ID)])] else [];
    ControllerSilent(a, id);
    ControllerSilent(b, id);
    DriveConcat(a, b, id);
  }

  lemma {:induction false} ControllerSilent(args: seq<Arg>, id: string)
    requires |args| <= 1 && (args != [] ==> args[0].Device? && |args[0].props| == 1 && args[0].props[0].key == KId)
    ensures DriveNamed(args, id) == None && DeviceOn(args, id) == None
  {
    if args != [] {
      assert args[1..] == [];
      LookupOne(args[0].props, KDrive);
    }
  }

  // ----- controllers and threads

  lemma {:induction false} ControllerKinds(ahci: bool, usb: bool)
    ensures KindNamed(Wanted(ahci, usb), "ahci0") == (if ahci then Some("ahci") else None)
    ensures KindNamed(Wanted(ahci, usb), "usbdisk0") == (if usb then Some("qemu-xhci") else None)
  {
    var a, b := Device("ahci", [Prop(KId, AHCI_ID)]), Device("qemu-xhci", [Prop(KId, USB_ID)]);
    LookupOne(a.props, KId);
    LookupOne(b.props, KId);
    assert AHCI_ID[0] != USB_ID[0];
    KindPair(ahci, a, usb, b, "ahci0");
    KindPair(ahci, a, usb, b, "usbdisk0");
  }

  lemma {:induction false} KindPair(first: bool, a: Arg, second: bool, b: Arg, id: string)
    requires a.Device? && b.Device? && Lookup(a.props, KId) != Lookup(b.props, KId)
    ensures KindNamed((if first then [a] else []) + (if second then [b] else []), id) ==
            if first && Lookup(a.props, KId) == Some(id) then Some(a.kind)
            else if second && Lookup(b.props, KId) == Some(id) then Some(b.kind) else None
  {
    var x: seq<Arg>, y: seq<Arg> := if first then [a] else [], if second then [b] else [];
    assert [a][1..] == [] && [b][1..] == [];
    DriveConcat(x, y, id);
  }

  // Of an argument that defines no such id.
  lemma {:induction false} NoKind(args: seq<Arg>, id: string)
    requires forall k :: 0 <= k < |args| ==> id !in Defs(args[k])
    ensures KindNamed(args, id) == None
  {
    if args != [] {
      assert id !in Defs(args[0]);
      NoKind(args[1..], id);
    }
  }

  lemma {:induction false} ShapeDefines(args: seq<Arg>, j: nat, needs: set<string>, port: set<string>, id: string)
    requires Shape(args, j, needs, port) && id != DriveId(j) && id != ThreadId(j)
    ensures forall k :: 0 <= k < |args| ==> id !in Defs(args[k])
  {
  }

  lemma {:induction false} DiskDefines(d: Spec, j: nat, linux: bool, id: string)
    requires id != DriveId(j) && id != ThreadId(j)
    ensures KindNamed(ArgsOf(d, j, linux), id) == None
  {
    DiskShape(d, j, linux);
    ShapeDefines(ArgsOf(d, j, linux), j, Needs(d), if d.iface.AHCI? then {AhciBus(j)} else {}, id);
    NoKind(ArgsOf(d, j, linux), id);
  }

  lemma {:induction false} ThreadKind(d: Spec, i: nat, linux: bool)
    requires Threaded(d)
    ensures KindNamed(ArgsOf(d, i, linux), ThreadId(i)) == Some("iothread")
  {
    var thread := Object("iothread", [Prop(KId, ThreadId(i))]);
    LookupOne(thread.props, KId);
    assert ArgsOf(d, i, linux)[0] == thread;
  }

  lemma {:induction false} DisksDefine(ds: seq<Spec>, linux: bool, id: string)
    requires forall j: nat :: j < |ds| ==> id != DriveId(j) && id != ThreadId(j)
    ensures KindNamed(Disks(ds, linux), id) == None
  {
    if ds != [] {
      var n := |ds| - 1;
      DisksDefine(ds[..n], linux, id);
      DiskDefines(Fixed(ds[n]), n, linux, id);
      DriveConcat(Disks(ds[..n], linux), ArgsOf(Fixed(ds[n]), n, linux), id);
    }
  }

  lemma {:induction false} ThreadAmong(ds: seq<Spec>, i: nat, linux: bool)
    requires i < |ds| && Threaded(Fixed(ds[i]))
    ensures KindNamed(Disks(ds, linux), ThreadId(i)) == Some("iothread")
  {
    var n := |ds| - 1;
    DriveConcat(Disks(ds[..n], linux), ArgsOf(Fixed(ds[n]), n, linux), ThreadId(i));
    if i == n {
      forall j: nat | j < n ensures ThreadId(i) != DriveId(j) && ThreadId(i) != ThreadId(j) {
        NamesApart(j, i);
        if ThreadId(i) == ThreadId(j) { DriveIdsDistinct(i, j); }
      }
      DisksDefine(ds[..n], linux, ThreadId(i));
      ThreadKind(Fixed(ds[n]), n, linux);
    } else {
      ThreadAmong(ds[..n], i, linux);
    }
  }

  // What a disk is attached through is there, and of the right kind.
  ghost predicate AttachedAsAsked(args: seq<Arg>, d: Spec, i: nat) {
    && (d.iface.AHCI? ==> KindNamed(args, "ahci0") == Some("ahci"))
    && (d.iface.USB? ==> KindNamed(args, "usbdisk0") == Some("qemu-xhci"))
    && (Threaded(d) ==> KindNamed(args, "iothread-disk" + Digits(i)) == Some("iothread"))
  }

  lemma {:induction false} AttachedAmong(ds: seq<Spec>, linux: bool, i: nat)
    requires i < |ds|
    ensures AttachedAsAsked(Section(ds, linux), Fixed(ds[i]), i)
  {
    ControllersFirst(ds, linux, "ahci0");
    ControllersFirst(ds, linux, "usbdisk0");
    ControllerKinds(exists j :: 0 <= j < |ds| && ds[j].iface.AHCI?, exists j :: 0 <= j < |ds| && ds[j].iface.USB?);
    if Threaded(Fixed(ds[i])) {
      ThreadInSection(ds, linux, i);
    }
  }

  lemma {:induction false} ControllersFirst(ds: seq<Spec>, linux: bool, id: string)
    ensures KindNamed(Section(ds, linux), id) ==
            if KindNamed(Controllers(ds), id).Some? then KindNamed(Controllers(ds), id) else KindNamed(Disks(ds, linux), id)
  {
    DriveConcat(Controllers(ds), Disks(ds, linux), id);
  }

  lemma {:induction false} ThreadInSection(ds: seq<Spec>, linux: bool, i: nat)
    requires i < |ds| && Threaded(Fixed(ds[i]))
    ensures KindNamed(Section(ds, linux), "iothread-disk" + Digits(i)) == Some("iothread")
  {
    ThreadAmong(ds, i, linux);
    assert "iothread-" + ("disk" + Digits(i)) == "iothread-disk" + Digits(i);
    ControllersFirst(ds, linux, ThreadId(i));
    NamesApart(i, i);
    ControllersUnnamed(exists j :: 0 <= j < |ds| && ds[j].iface.AHCI?, exists j :: 0 <= j < |ds| && ds[j].iface.USB?,
                       ThreadId(i));
  }

  lemma {:induction false} ControllersUnnamed(ahci: bool, usb: bool, id: string)
    requires id != AHCI_ID && id != USB_ID
    ensures KindNamed(Wanted(ahci, usb), id) == None
  {
    var a, b := Device("ahci", [Prop(KId, AHCI_ID)]), Device("qemu-xhci", [Prop(KId, USB_ID)]);
    LookupOne(a.props, KId);
    LookupOne(b.props, KId);
    assert AHCI_ID[0] != USB_ID[0];
    KindPair(ahci, a, usb, b, id);
  }

  /** Whatever the list, if nothing in it holds a comma, QEMU reads each disk as what was asked for: the drive
      with the disk's id has its file, format and modes, a cdrom's being fixed, and the device on that drive is
      of the model its interface calls for, on the controller or thread it needs. */
  lemma {:induction false} EveryDiskIsAsAsked(ds: seq<Spec>, linux: bool, i: nat)
    requires AllPlain(ds) && i < |ds|
    ensures var r := ReadWords(Words(Section(ds, linux)));
            r.Some? && AsAsked(r.value, Fixed(ds[i]), i, linux) && AttachedAsAsked(r.value, Fixed(ds[i]), i)
  {
    AttachedAmong(ds, linux, i);
    QemuReadsTheSection(ds, linux);
    AmongDisks(ds, i, linux);
    ControllersSilent(exists j :: 0 <= j < |ds| && ds[j].iface.AHCI?, exists j :: 0 <= j < |ds| && ds[j].iface.USB?,
                      DriveId(i));
    DriveConcat(Controllers(ds), Disks(ds, linux), DriveId(i));
  }

  /** A cdrom is read-only, unformatted and uncached whatever was asked; another medium is as asked. */
  lemma {:induction false} CdromIsFixed(d: Spec, i: nat, linux: bool)
    ensures var b := WantedBackend(Fixed(d), linux);
            && (d.media.Cdrom? && (d.iface.USB? || (!d.iface.AHCI? && !d.iface.NVMe? && !Threaded(d))) ==>
                  b.readonly == Some("true") && b.media == Some("cdrom") && b.format == None)
            && (!d.media.Cdrom? ==> b == WantedBackend(d, linux))
  {
  }
}
