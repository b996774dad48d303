/**
 * `main` end to end (vaydeer.c:22-114): open the hidraw class directory,
 * scan it, give up when no keypad was found, otherwise monitor until
 * `poll` fails.
 */
module Program {
  import opened Wrappers
  import opened Discovery
  import opened Poller
  import Monitor
  import Spinner
  import Vendor

  /** Why the program exits with code 1 before it polls. */
  datatype Fault =
    | CannotOpenDirectory        // `opendir` returned NULL (vaydeer.c:27-30)
    | ScanFailed(reason: Failure)
    | NoDevicesFound             // "Failed to find any Vaydeer keyboards"

  /** Where the program stands once the inputs are used up. */
  datatype Status =
    | Aborted(fault: Fault)      // `exit(1)`
    | Stopped(pollResult: int)   // `poll` returned a negative value; `return 0`
    | Running                    // every `poll` so far returned a non-negative value

  /** The process exit code, if the program has exited. */
  function ExitCode(s: Status): Option<int> {
    match s
    case Aborted(_) => Some(1)
    case Stopped(_) => Some(0)
    case Running => None
  }

  /** What the program did: its status and every byte read with the glyph it showed. */
  datatype Outcome = Outcome(status: Status, events: seq<Event>)

  /** The `poll` answers fit the table the scan of `entries` builds. */
  predicate PollsFit(entries: seq<Entry>, polls: seq<Poll>) {
    CoversTable(ScanFrom([], entries).handles, polls)
  }

  /** Specification of `main` given the answers of the system. */
  function MainSpec(dirOpened: bool, entries: seq<Entry>, polls: seq<Poll>): Outcome
    requires PollsFit(entries, polls)
  {
    if !dirOpened then Outcome(Aborted(CannotOpenDirectory), [])
    else
      var scan := ScanFrom([], entries);
      if scan.failure.Some? then Outcome(Aborted(ScanFailed(scan.failure.value)), [])
      else if |scan.handles| == 0 then Outcome(Aborted(NoDevicesFound), [])
      else
        var loop := PollLoop(scan.handles, polls, 0);
        Outcome(if loop.stopped.Some? then Stopped(loop.stopped.value) else Running, loop.events)
  }

  /**
   * `main`: `dirOpened` is whether `opendir` succeeded, `entries` what
   * `readdir` and the lookups answered, `polls` what `poll` answered.
   */
  method RunMain(dirOpened: bool, entries: seq<Entry>, polls: seq<Poll>) returns (status: Status, events: seq<Event>)
    requires PollsFit(entries, polls)
    ensures Outcome(status, events) == MainSpec(dirOpened, entries, polls)
  {
    if !dirOpened {
      return Aborted(CannotOpenDirectory), [];
    }
    var monitor := new Monitor.KeypadMonitor();
    var failure := monitor.Scan(entries);
    if failure.Some? {
      return Aborted(ScanFailed(failure.value)), [];
    }
    if monitor.fdCount > 0 {
      var stopped := monitor.Run(polls);
      status := if stopped.Some? then Stopped(stopped.value) else Running;
      events := monitor.log;
    } else {
      status := Aborted(NoDevicesFound);
      events := [];
    }
  }

  /**
   * The program exits with code 1 exactly when the directory cannot be
   * opened, the scan fails, or it finds no keypad; it has then read
   * nothing from any device.
   */
  lemma ExitOneIff(dirOpened: bool, entries: seq<Entry>, polls: seq<Poll>)
    requires PollsFit(entries, polls)
    ensures var out := MainSpec(dirOpened, entries, polls);
            var scan := ScanFrom([], entries);
            ExitCode(out.status) == Some(1) <==> !dirOpened || scan.failure.Some? || scan.handles == []
    ensures var out := MainSpec(dirOpened, entries, polls);
            ExitCode(out.status) == Some(1) ==> out.events == []
  {
  }

  /**
   * With the directory open and nothing fatal among the entries, the
   * program gives up with `NoDevicesFound` exactly when no entry is a
   * keypad that opens.
   */
  lemma NoKeypadsExit(entries: seq<Entry>, polls: seq<Poll>)
    requires PollsFit(entries, polls)
    requires NoFatal(entries) && |Matched(entries)| <= MaxKeys
    ensures MainSpec(true, entries, polls).status == Aborted(NoDevicesFound) <==> Matched(entries) == []
  {
    ScanComplete([], entries);
  }

  /**
   * The program ends with code 0 exactly when setup succeeded with at
   * least one keypad and some answer of `poll` was negative; it is still
   * running when every answer was non-negative.
   */
  lemma ExitZeroIff(dirOpened: bool, entries: seq<Entry>, polls: seq<Poll>)
    requires PollsFit(entries, polls)
    ensures var out := MainSpec(dirOpened, entries, polls);
            var scan := ScanFrom([], entries);
            ExitCode(out.status) == Some(0) <==>
              && dirOpened && scan.failure.None? && scan.handles != []
              && exists j :: 0 <= j < |polls| && polls[j].ret < 0
  {
    var scan := ScanFrom([], entries);
    if dirOpened && scan.failure.None? && scan.handles != [] {
      PollLoopStops(scan.handles, polls, 0);
    }
  }

  /**
   * From start-up the glyphs go "-", "\\", "|", "-", "/" and round again,
   * one per byte read, and every byte is read from a registered keypad.
   */
  lemma MainGlyphs(dirOpened: bool, entries: seq<Entry>, polls: seq<Poll>)
    requires PollsFit(entries, polls)
    ensures var out := MainSpec(dirOpened, entries, polls);
            var table := ScanFrom([], entries).handles;
            forall k :: 0 <= k < |out.events| ==>
              && out.events[k].glyph == Spinner.Tumbler[k % Spinner.Period]
              && out.events[k].slot < |table|
              && out.events[k].fd == table[out.events[k].slot].fd
  {
    var out := MainSpec(dirOpened, entries, polls);
    var scan := ScanFrom([], entries);
    if dirOpened && scan.failure.None? && scan.handles != [] {
      PollLoopGlyphs(scan.handles, polls, 0);
      assert ReadsTable(scan.handles, 0, out.events);
      forall k | 0 <= k < |out.events|
        ensures out.events[k].glyph == Spinner.Tumbler[k % Spinner.Period]
      {
        Spinner.GlyphCycle(k);
      }
    }
  }

  /**
   * One keypad, one readable byte, then a failing `poll`: one read from
   * slot 0 showing '-', and exit code 0.
   */
  lemma OneKeypadOneByte()
    ensures PollsFit([Keypad], [Poll(1, [POLLIN]), Poll(-1, [0])])
    ensures MainSpec(true, [Keypad], [Poll(1, [POLLIN]), Poll(-1, [0])]) ==
            Outcome(Stopped(-1), [Event(0, Keypad.openResult, '-')])
  {
    Vendor.IsVendorIff("Vaydeer");
    var table := [PollFd(Keypad.openResult, POLLIN)];
    assert ScanFrom([], [Keypad]).handles == table;
    var polls := [Poll(1, [POLLIN]), Poll(-1, [0])];
    assert Ready(POLLIN);
    assert RoundFrom(table, [POLLIN], 1, 1) == RoundResult(1, []);
    assert Round(table, [POLLIN], 0) == RoundResult(1, [Event(0, Keypad.openResult, '-')]);
    assert polls[1..] == [Poll(-1, [0])];
    assert PollLoop(table, polls[1..], 1) == LoopResult(0, Some(-1), 1, []);
  }
}
