/**
 * Device discovery: the single pass over the entries of /sys/class/hidraw
 * that filters Vaydeer keypads and fills the 20-slot `pfds` table
 * (vaydeer.c:33-85). The directory listing, `lstat`, `realpath`, libudev and
 * `open` are foreign; each entry carries what they answered for it.
 */
module Discovery {
  import opened Wrappers
  import Vendor

  /** Number of slots in `struct pollfd pfds[20]`. */
  const MaxKeys: nat := 20

  /** `POLLIN` as Linux defines it. */
  const POLLIN: bv16 := 0x0001

  /**
   * One directory entry with the answers the system gave about it:
   * whether `lstat` saw a symbolic link, whether `udev_new`,
   * `udev_device_new_from_syspath` and `udev_device_get_parent` returned
   * non-NULL, the parent's `HID_NAME` property (None for NULL) and the
   * value `open` returned for the device node.
   */
  datatype Entry = Entry(
    isLink: bool,
    udevOk: bool,
    childOk: bool,
    parentOk: bool,
    hidName: Option<string>,
    openResult: int)

  /** Why discovery ends the program with exit code 1. */
  datatype Failure =
    | NoUdevContext    // "Cannot create udev context."
    | NoChildDevice    // "Failed to get device."
    | NoParentDevice   // "Failed to get parent of device."
    | OpenDenied       // " failed to open ... did you forget to run using sudo"
    | TooManyDevices   // a 21st keypad: the table is full

  /** A registered slot of `pfds`: descriptor and requested events. */
  datatype PollFd = PollFd(fd: int, events: bv16)

  /** What the loop body does with one entry. */
  datatype Decision = Skip | Fatal(failure: Failure) | Open(fd: int)

  /** The decision the body of the `readdir` loop takes for one entry (vaydeer.c:42-75). */
  function Classify(e: Entry): Decision {
    if !e.isLink then Skip
    else if !e.udevOk then Fatal(NoUdevContext)
    else if !e.childOk then Fatal(NoChildDevice)
    else if !e.parentOk then Fatal(NoParentDevice)
    else if e.hidName.None? || !Vendor.IsVendor(e.hidName.value) then Skip
    else if e.openResult >= 0 then Open(e.openResult)
    else Fatal(OpenDenied)
  }

  /** The table after a scan, and the failure that stopped it, if any. */
  datatype ScanResult = ScanResult(handles: seq<PollFd>, failure: Option<Failure>)

  /** Every slot asks for `POLLIN`. */
  predicate Registered(handles: seq<PollFd>) {
    forall i :: 0 <= i < |handles| ==> handles[i].events == POLLIN
  }

  /**
   * The scan of `entries` over a table already holding `handles`, entry by
   * entry in directory order; a keypad found when all 20 slots are taken
   * is rejected with `TooManyDevices`.
   */
  function ScanFrom(handles: seq<PollFd>, entries: seq<Entry>): (r: ScanResult)
    requires |handles| <= MaxKeys
    ensures |r.handles| <= MaxKeys
    ensures handles <= r.handles
    ensures forall i :: |handles| <= i < |r.handles| ==> r.handles[i].events == POLLIN && r.handles[i].fd >= 0
    decreases |entries|
  {
    if entries == [] then ScanResult(handles, None)
    else match Classify(entries[0])
      case Skip => ScanFrom(handles, entries[1..])
      case Fatal(f) => ScanResult(handles, Some(f))
      case Open(fd) =>
        if |handles| < MaxKeys then ScanFrom(handles + [PollFd(fd, POLLIN)], entries[1..])
        else ScanResult(handles, Some(TooManyDevices))
  }

  /** Reference definition: the slots of all keypads among `entries` that open, in directory order. */
  function Matched(entries: seq<Entry>): seq<PollFd> {
    if entries == [] then []
    else (match Classify(entries[0])
          case Open(fd) => [PollFd(fd, POLLIN)]
          case _ => []) + Matched(entries[1..])
  }

  /** No entry of `entries` ends the program by itself. */
  predicate NoFatal(entries: seq<Entry>) {
    forall i :: 0 <= i < |entries| ==> !Classify(entries[i]).Fatal?
  }

  /**
   * A scan completes exactly when no entry is fatal and the keypads found
   * fit in the table, and then the table holds them in discovery order
   * after what it held before.
   */
  lemma {:induction false} ScanComplete(handles: seq<PollFd>, entries: seq<Entry>)
    requires |handles| <= MaxKeys
    ensures ScanFrom(handles, entries).failure.None? <==>
            NoFatal(entries) && |handles| + |Matched(entries)| <= MaxKeys
    ensures ScanFrom(handles, entries).failure.None? ==>
            ScanFrom(handles, entries).handles == handles + Matched(entries)
    decreases |entries|
  {
    if entries != [] {
      var rest := entries[1..];
      assert forall i :: 0 <= i < |rest| ==> rest[i] == entries[i + 1];
      assert NoFatal(entries) <==> !Classify(entries[0]).Fatal? && NoFatal(rest);
      match Classify(entries[0])
      case Skip =>
        ScanComplete(handles, rest);
      case Fatal(f) =>
      case Open(fd) =>
        if |handles| < MaxKeys {
          ScanComplete(handles + [PollFd(fd, POLLIN)], rest);
        }
    }
  }

  /**
   * Scanning a concatenation is scanning the first part, then, unless that
   * stopped, the second part from where the first left the table.
   */
  lemma {:induction false} ScanSplit(handles: seq<PollFd>, first: seq<Entry>, second: seq<Entry>)
    requires |handles| <= MaxKeys
    ensures var r := ScanFrom(handles, first);
            ScanFrom(handles, first + second) ==
              if r.failure.Some? then r else ScanFrom(r.handles, second)
    decreases |first|
  {
    if first == [] {
      assert first + second == second;
    } else {
      assert (first + second)[0] == first[0];
      assert (first + second)[1..] == first[1..] + second;
      match Classify(first[0])
      case Skip =>
        ScanSplit(handles, first[1..], second);
      case Fatal(f) =>
      case Open(fd) =>
        if |handles| < MaxKeys {
          ScanSplit(handles + [PollFd(fd, POLLIN)], first[1..], second);
        }
    }
  }

  /** Once the scan has failed, no later entry is looked at. */
  lemma StopsAtFailure(handles: seq<PollFd>, entries: seq<Entry>, later: seq<Entry>)
    requires |handles| <= MaxKeys
    requires ScanFrom(handles, entries).failure.Some?
    ensures ScanFrom(handles, entries + later) == ScanFrom(handles, entries)
  {
    ScanSplit(handles, entries, later);
  }

  /**
   * An entry that is not a symbolic link changes nothing, whatever the
   * device lookups would have answered for it: it would never reach them.
   */
  lemma NonLinkIgnored(handles: seq<PollFd>, before: seq<Entry>, e: Entry, after: seq<Entry>)
    requires |handles| <= MaxKeys
    requires !e.isLink
    ensures ScanFrom(handles, before + [e] + after) == ScanFrom(handles, before + after)
  {
    ScanSplit(handles, before, [e] + after);
    ScanSplit(handles, before, after);
    assert before + [e] + after == before + ([e] + after);
    var r := ScanFrom(handles, before);
    if r.failure.None? {
      assert ([e] + after)[1..] == after;
    }
  }

  /** A keypad that opens is stored in the next free slot, asking for `POLLIN`, while one is free. */
  lemma AppendsAtNextSlot(handles: seq<PollFd>, e: Entry, after: seq<Entry>)
    requires |handles| <= MaxKeys
    requires Classify(e).Open?
    ensures |handles| < MaxKeys ==>
            ScanFrom(handles, [e] + after) == ScanFrom(handles + [PollFd(e.openResult, POLLIN)], after)
    ensures |handles| == MaxKeys ==>
            ScanFrom(handles, [e] + after) == ScanResult(handles, Some(TooManyDevices))
  {
    assert ([e] + after)[0] == e;
    assert ([e] + after)[1..] == after;
  }

  /**
   * The loop as written: `pfds[fdCount]` is assigned with no check on
   * `fdCount`, so the table grows past its 20 slots.
   */
  function ScanUnchecked(handles: seq<PollFd>, entries: seq<Entry>): (r: ScanResult)
    ensures handles <= r.handles
    decreases |entries|
  {
    if entries == [] then ScanResult(handles, None)
    else match Classify(entries[0])
      case Skip => ScanUnchecked(handles, entries[1..])
      case Fatal(f) => ScanResult(handles, Some(f))
      case Open(fd) => ScanUnchecked(handles + [PollFd(fd, POLLIN)], entries[1..])
  }

  /** An entry the filter accepts and that opens as descriptor 3. */
  const Keypad: Entry := Entry(true, true, true, true, Some("Vaydeer"), 3)

  lemma {:induction false} UncheckedOpens(handles: seq<PollFd>, es: seq<Entry>)
    requires forall i :: 0 <= i < |es| ==> Classify(es[i]).Open?
    ensures |ScanUnchecked(handles, es).handles| == |handles| + |es|
    decreases |es|
  {
    if es != [] {
      UncheckedOpens(handles + [PollFd(Classify(es[0]).fd, POLLIN)], es[1..]);
    }
  }

  /**
   * Twenty-one keypads make the unchecked loop store a 21st slot: the write
   * `pfds[20]` lies outside the 20-slot array.
   */
  lemma UncheckedOverflows()
    ensures |ScanUnchecked([], seq(MaxKeys + 1, _ => Keypad)).handles| == MaxKeys + 1
  {
    Vendor.IsVendorIff("Vaydeer");
    UncheckedOpens([], seq(MaxKeys + 1, _ => Keypad));
  }

  /**
   * The checked scan agrees with the unchecked one whenever the latter
   * stays within the table, and otherwise reports `TooManyDevices`.
   */
  lemma {:induction false} CheckedAgrees(handles: seq<PollFd>, entries: seq<Entry>)
    requires |handles| <= MaxKeys
    ensures var u := ScanUnchecked(handles, entries);
            |u.handles| <= MaxKeys ==> ScanFrom(handles, entries) == u
    ensures var u := ScanUnchecked(handles, entries);
            |u.handles| > MaxKeys ==> ScanFrom(handles, entries).failure == Some(TooManyDevices)
    decreases |entries|
  {
    if entries != [] {
      match Classify(entries[0])
      case Skip =>
        CheckedAgrees(handles, entries[1..]);
      case Fatal(f) =>
      case Open(fd) =>
        if |handles| < MaxKeys {
          CheckedAgrees(handles + [PollFd(fd, POLLIN)], entries[1..]);
        }
    }
  }
}
