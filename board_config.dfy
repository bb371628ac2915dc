/**
 * Board descriptions of ravedude (ravedude/src/board/config.rs): the
 * possibly-partial `BoardConfig`, the inheritance merge, and the search of
 * the host's serial ports for a board's USB identity.
 */
module BoardConfigs {
  import opened Common

  datatype ResetOptions = ResetOptions(automatic: bool)

  /** One USB (vendor id, product id) signature of a board. */
  datatype BoardPortID = BoardPortID(vid: u16, pid: u16)

  /** How a board's serial port is found: by USB signatures, or never (with the reason). */
  datatype BoardUSBInfo = PortIds(ids: seq<BoardPortID>) | UsbError(message: string)

  /**
   * avrdude's part of a board description (`BoardAvrdudeOptions`, defined in
   * ravedude's avrdude module). `baudrate` is doubly optional: absent, or
   * present and possibly "no baudrate".
   */
  datatype BoardAvrdudeOptions = BoardAvrdudeOptions(
    programmer: Option<string>,
    partno: Option<string>,
    baudrate: Option<Option<NonZeroU32>>,
    doChipErase: Option<bool>)

  datatype BoardConfig = BoardConfig(
    name: Option<string>,
    inherit: Option<string>,
    reset: Option<ResetOptions>,
    avrdude: Option<BoardAvrdudeOptions>,
    usbInfo: Option<BoardUSBInfo>)

  /** `BoardConfig::default()`: every field absent. */
  const EmptyBoard := BoardConfig(None, None, None, None, None)

  /** Every avrdude option is present. */
  predicate CompleteAvrdude(a: BoardAvrdudeOptions) {
    a.programmer.Some? && a.partno.Some? && a.baudrate.Some? && a.doChipErase.Some?
  }

  /**
   * `BoardAvrdudeOptions::merge` lives in ravedude's avrdude module, which
   * is not part of this model. The
   * model assumes the rule every other merge of the program follows: each
   * option of `child` when present, otherwise the one of `base`.
   */
  function MergeAvrdude(child: BoardAvrdudeOptions, base: BoardAvrdudeOptions): (r: BoardAvrdudeOptions)
    ensures child.programmer.Some? ==> r.programmer == child.programmer
    ensures child.programmer.None? ==> r.programmer == base.programmer
    ensures child.partno.Some? ==> r.partno == child.partno
    ensures child.partno.None? ==> r.partno == base.partno
    ensures child.baudrate.Some? ==> r.baudrate == child.baudrate
    ensures child.baudrate.None? ==> r.baudrate == base.baudrate
    ensures child.doChipErase.Some? ==> r.doChipErase == child.doChipErase
    ensures child.doChipErase.None? ==> r.doChipErase == base.doChipErase
  {
    BoardAvrdudeOptions(
      child.programmer.Or(base.programmer),
      child.partno.Or(base.partno),
      child.baudrate.Or(base.baudrate),
      child.doChipErase.Or(base.doChipErase))
  }

  /**
   * `BoardConfig::merge`: `child` inherits from `base`. Plain fields prefer
   * the child; `inherit` is always cleared; the avrdude block is merged only
   * when both sides have one, and a child's block is dropped when the base
   * has none.
   */
  function Merge(child: BoardConfig, base: BoardConfig): (r: BoardConfig)
    ensures r.inherit.None?
    ensures r.name == (if child.name.Some? then child.name else base.name)
    ensures r.reset == (if child.reset.Some? then child.reset else base.reset)
    ensures r.usbInfo == (if child.usbInfo.Some? then child.usbInfo else base.usbInfo)
    ensures child.avrdude.None? ==> r.avrdude == base.avrdude
    ensures child.avrdude.Some? && base.avrdude.Some? ==>
              r.avrdude == Some(MergeAvrdude(child.avrdude.value, base.avrdude.value))
    ensures base.avrdude.None? ==> r.avrdude.None?
  {
    BoardConfig(
      child.name.Or(base.name),
      None,
      child.reset.Or(base.reset),
      match child.avrdude
        case Some(a) => (if base.avrdude.Some? then Some(MergeAvrdude(a, base.avrdude.value)) else None)
        case None => base.avrdude,
      child.usbInfo.Or(base.usbInfo))
  }

  /** A board fit for use at run time: what every built-in catalog entry must be. */
  predicate RuntimeComplete(b: BoardConfig) {
    b.name.Some? && b.inherit.None? && b.reset.Some? &&
    b.avrdude.Some? && CompleteAvrdude(b.avrdude.value)
  }

  /** A child that sets every field, avrdude options included. */
  predicate FullySpecified(b: BoardConfig) {
    b.name.Some? && b.reset.Some? && b.usbInfo.Some? &&
    b.avrdude.Some? && CompleteAvrdude(b.avrdude.value)
  }

  /** Inheriting from a complete board always yields a complete board. */
  lemma MergeOntoComplete(child: BoardConfig, base: BoardConfig)
    requires RuntimeComplete(base)
    ensures RuntimeComplete(Merge(child, base))
    ensures Merge(child, base).avrdude.Some?
  {
  }

  /** A child that says nothing inherits the base unchanged, apart from `inherit`. */
  lemma MergeEmptyChild(base: BoardConfig)
    ensures Merge(EmptyBoard, base) == base.(inherit := None)
  {
  }

  /**
   * A fully specified child survives the merge unchanged (but for
   * `inherit`) exactly when the base has an avrdude block: otherwise the
   * child's avrdude block is lost.
   */
  lemma MergeFullySpecifiedChild(child: BoardConfig, base: BoardConfig)
    requires FullySpecified(child)
    ensures Merge(child, base) == child.(inherit := None) <==> base.avrdude.Some?
  {
    if base.avrdude.Some? {
      var a := child.avrdude.value;
      assert MergeAvrdude(a, base.avrdude.value) == a;
    }
  }

  /** Inheriting twice from the same base changes nothing the first inheritance did not. */
  lemma MergeTwiceSameBase(child: BoardConfig, base: BoardConfig)
    ensures Merge(Merge(child, base), base) == Merge(child, base)
  {
  }

  /** The kind of an enumerated serial port (`serialport::SerialPortType`). */
  datatype SerialPortType = UsbPort(vid: u16, pid: u16) | PciPort | BluetoothPort | UnknownPort

  /** One port as the host enumerates it (`serialport::SerialPortInfo`). */
  datatype SerialPortInfo = SerialPortInfo(portName: Path, portType: SerialPortType)

  const PortNotFound := "Serial port not found."

  /** The port is a USB port whose (vid, pid) is one of `ids`. */
  predicate MatchesIds(t: SerialPortType, ids: seq<BoardPortID>) {
    t.UsbPort? && exists k :: 0 <= k < |ids| && ids[k].vid == t.vid && ids[k].pid == t.pid
  }

  /** The index, in enumeration order, of the first port matching `ids`. */
  function FirstMatch(ports: seq<SerialPortInfo>, ids: seq<BoardPortID>): (r: Option<nat>)
    ensures r.Some? ==> r.value < |ports| && MatchesIds(ports[r.value].portType, ids)
    ensures r.Some? ==> forall j :: 0 <= j < r.value ==> !MatchesIds(ports[j].portType, ids)
    ensures r.None? ==> forall j :: 0 <= j < |ports| ==> !MatchesIds(ports[j].portType, ids)
  {
    if |ports| == 0 then None
    else if MatchesIds(ports[0].portType, ids) then Some(0)
    else match FirstMatch(ports[1..], ids)
      case Some(i) => Some(i + 1)
      case None => None
  }

  /**
   * What `BoardConfig::guess_port` answers for a board with USB description
   * `usb` when the host enumerates `ports`: no answer without a description,
   * the board's own error, the first matching port, or "not found".
   */
  function Guess(usb: Option<BoardUSBInfo>, ports: seq<SerialPortInfo>): (r: Option<Result<Path>>)
    ensures usb.None? <==> r.None?
    ensures usb.Some? && usb.value.UsbError? ==> r == Some(Err(usb.value.message))
    ensures usb.Some? && usb.value.PortIds? ==>
              (r == Some(Err(PortNotFound)) <==>
               forall j :: 0 <= j < |ports| ==> !MatchesIds(ports[j].portType, usb.value.ids))
    ensures usb.Some? && usb.value.PortIds? && FirstMatch(ports, usb.value.ids).Some? ==>
              r == Some(Ok(ports[FirstMatch(ports, usb.value.ids).value].portName))
    ensures usb.Some? && usb.value.PortIds? && r.value.Ok? ==>
              exists k :: 0 <= k < |ports| && ports[k].portName == r.value.value &&
                          MatchesIds(ports[k].portType, usb.value.ids) &&
                          forall j :: 0 <= j < k ==> !MatchesIds(ports[j].portType, usb.value.ids)
  {
    match usb
    case None => None
    case Some(UsbError(message)) => Some(Err(message))
    case Some(PortIds(ids)) =>
      match FirstMatch(ports, ids)
      case Some(k) => Some(Ok(ports[k].portName))
      case None => Some(Err(PortNotFound))
  }

  /** A guessed port is always a USB port of the enumeration. */
  lemma GuessIsUsbPort(usb: Option<BoardUSBInfo>, ports: seq<SerialPortInfo>)
    requires Guess(usb, ports).Some? && Guess(usb, ports).value.Ok?
    ensures exists k :: 0 <= k < |ports| && ports[k].portName == Guess(usb, ports).value.value &&
                        ports[k].portType.UsbPort?
  {
    if usb.value.PortIds? {
      var k := FirstMatch(ports, usb.value.ids).value;
      assert ports[k].portName == Guess(usb, ports).value.value;
    }
  }

  /**
   * A board whose only signature is (0x2341, 0x0043) finds the USB device
   * with exactly that pair, past a non-USB port and a USB port of another
   * board; without that device the search fails.
   */
  lemma GuessSingleSignature(other: SerialPortInfo, device: Path)
    requires other.portType == UsbPort(0x2341, 0x0042)
    ensures Guess(Some(PortIds([BoardPortID(0x2341, 0x0043)])),
                  [SerialPortInfo("/dev/ttyS0", PciPort), other, SerialPortInfo(device, UsbPort(0x2341, 0x0043))])
            == Some(Ok(device))
    ensures Guess(Some(PortIds([BoardPortID(0x2341, 0x0043)])),
                  [SerialPortInfo("/dev/ttyS0", PciPort), other])
            == Some(Err(PortNotFound))
  {
    var ids := [BoardPortID(0x2341, 0x0043)];
    assert !MatchesIds(other.portType, ids);
    assert MatchesIds(UsbPort(0x2341, 0x0043), ids) by { assert ids[0].vid == 0x2341; }
    var ports := [SerialPortInfo("/dev/ttyS0", PciPort), other, SerialPortInfo(device, UsbPort(0x2341, 0x0043))];
    assert FirstMatch(ports[2..], ids) == Some(0);
    assert FirstMatch(ports[1..][1..], ids) == Some(0) by { assert ports[1..][1..] == ports[2..]; }
    assert FirstMatch(ports[1..], ids) == Some(1);
  }

  /**
   * `BoardConfig::guess_port`: walks the enumerated ports and, for each USB
   * port, the board's signatures, returning at the first match.
   */
  method GuessPort(board: BoardConfig, ports: seq<SerialPortInfo>) returns (r: Option<Result<Path>>)
    ensures r == Guess(board.usbInfo, ports)
  {
    match board.usbInfo {
      case None =>
        return None;
      case Some(UsbError(err)) =>
        return Some(Err(err));
      case Some(PortIds(ids)) =>
        var i := 0;
        while i < |ports|
          invariant 0 <= i <= |ports|
          invariant forall j :: 0 <= j < i ==> !MatchesIds(ports[j].portType, ids)
        {
          var portType := ports[i].portType;
          if portType.UsbPort? {
            var k := 0;
            while k < |ids|
              invariant 0 <= k <= |ids|
              invariant forall m :: 0 <= m < k ==> !(ids[m].vid == portType.vid && ids[m].pid == portType.pid)
            {
              if ids[k].vid == portType.vid && ids[k].pid == portType.pid {
                assert MatchesIds(portType, ids);
                return Some(Ok(ports[i].portName));
              }
              k := k + 1;
            }
          }
          i := i + 1;
        }
        return Some(Err(PortNotFound));
    }
  }
}
