/**
 * The state `main` keeps while it runs (vaydeer.c:33-35, 89-90): the
 * 20-slot `pfds` table with its fill count, the spinner pointer into the
 * tumbler, and the record of what reached the devices and the terminal.
 */
module Monitor {
  import opened Wrappers
  import opened Discovery
  import opened Poller
  import Vendor
  import Spinner
  import CString

  class KeypadMonitor {
    /** `struct pollfd pfds[20]`. */
    var pfds: array<PollFd>
    /** Number of slots filled, in discovery order. */
    var fdCount: nat
    /** Position of `ptr` within `tumbler`. */
    var ptr: nat
    /** Every one-byte read and the glyph written after it, oldest first. */
    var log: seq<Event>

    /** The table has its 20 slots, at most 20 are filled, each asks for `POLLIN`, and `ptr` points into the tumbler. */
    ghost predicate Valid()
      reads this, pfds
    {
      && pfds.Length == MaxKeys
      && fdCount <= MaxKeys
      && ptr < Spinner.Period
      && Registered(pfds[..fdCount])
    }

    /** The filled slots `pfds[0..fdCount)`. */
    function Handles(): seq<PollFd>
      reads this, pfds
      requires Valid()
    {
      pfds[..fdCount]
    }

    /** `fdCount = 0` with the spinner at the first glyph. */
    constructor ()
      ensures Valid() && fresh(pfds)
      ensures Handles() == [] && ptr == 0 && log == []
    {
      pfds := new PollFd[MaxKeys];
      fdCount := 0;
      ptr := 0;
      log := [];
    }

    /**
     * `pfds[fdCount].fd = fd; pfds[fdCount].events = POLLIN; fdCount++;`
     * (vaydeer.c:68-70), refused when all 20 slots are taken.
     */
    method Append(fd: int) returns (stored: bool)
      requires Valid()
      modifies this`fdCount, pfds
      ensures Valid()
      ensures stored <==> old(fdCount) < MaxKeys
      ensures Handles() == if stored then old(Handles()) + [PollFd(fd, POLLIN)] else old(Handles())
    {
      if fdCount < MaxKeys {
        pfds[fdCount] := PollFd(fd, POLLIN);
        fdCount := fdCount + 1;
        stored := true;
      } else {
        stored := false;
      }
    }

    /**
     * The `readdir` loop (vaydeer.c:37-85): one pass over `entries` in
     * directory order, returning the failure that would end the program,
     * if any; the table then holds what the scan specification says.
     */
    method Scan(entries: seq<Entry>) returns (failure: Option<Failure>)
      requires Valid()
      modifies this`fdCount, pfds
      ensures Valid()
      ensures ScanFrom(old(Handles()), entries) == ScanResult(Handles(), failure)
    {
      var i := 0;
      while i < |entries|
        invariant 0 <= i <= |entries|
        invariant Valid()
        invariant ScanFrom(old(Handles()), entries) == ScanFrom(Handles(), entries[i..])
      {
        var e := entries[i];
        assert entries[i..][0] == e && entries[i..][1..] == entries[i + 1..];
        if e.isLink {
          if !e.udevOk {
            return Some(NoUdevContext);
          }
          if !e.childOk {
            return Some(NoChildDevice);
          }
          if !e.parentOk {
            return Some(NoParentDevice);
          }
          // A NULL HID_NAME is taken as a name that does not match.
          if e.hidName.Some? && Vendor.IsVendor(e.hidName.value) {
            var fd := e.openResult;
            if fd >= 0 {
              var stored := Append(fd);
              if !stored {
                return Some(TooManyDevices);
              }
            } else {
              return Some(OpenDenied);
            }
          }
        }
        i := i + 1;
      }
      assert entries[i..] == [];
      return None;
    }

    /**
     * One pass of the `for` loop after `poll` returned (vaydeer.c:95-106):
     * each slot whose `revents` has `POLLIN` gets one byte read and one
     * spinner step, in slot order.
     */
    method Dispatch(revents: seq<bv16>)
      requires Valid() && |revents| == fdCount
      modifies this`ptr, this`log
      ensures Valid()
      ensures var r := Round(Handles(), revents, old(ptr));
              ptr == r.ptr && log == old(log) + r.events
    {
      for i := 0 to fdCount
        invariant Valid()
        invariant var r := RoundFrom(Handles(), revents, i, ptr);
                  var whole := Round(Handles(), revents, old(ptr));
                  r.ptr == whole.ptr && log + r.events == old(log) + whole.events
      {
        if (revents[i] & POLLIN) != 0 {
          var fd := pfds[i].fd;
          log := log + [Event(i, fd, Spinner.Tumbler[ptr])];
          ptr := ptr + 1;
          if CString.At(Spinner.Tumbler, ptr) == CString.NUL {
            ptr := 0;
          }
        }
      }
    }

    /**
     * `while ((preturn = poll(pfds, fdCount, 1000)) >= 0) { ... }`
     * (vaydeer.c:93-107) over the answers `polls`; returns the negative
     * value that ended the loop, or None when every answer was
     * non-negative.
     */
    method Run(polls: seq<Poll>) returns (stopped: Option<int>)
      requires Valid() && CoversTable(Handles(), polls)
      modifies this`ptr, this`log
      ensures Valid()
      ensures var r := PollLoop(Handles(), polls, old(ptr));
              stopped == r.stopped && ptr == r.ptr && log == old(log) + r.events
    {
      var k := 0;
      while k < |polls| && polls[k].ret >= 0
        invariant 0 <= k <= |polls|
        invariant Valid()
        invariant CoversTable(Handles(), polls[k..])
        invariant var r := PollLoop(Handles(), polls[k..], ptr);
                  var whole := PollLoop(Handles(), polls, old(ptr));
                  r.stopped == whole.stopped && r.ptr == whole.ptr && log + r.events == old(log) + whole.events
      {
        assert polls[k..][0] == polls[k] && polls[k..][1..] == polls[k + 1..];
        Dispatch(polls[k].revents);
        k := k + 1;
      }
      stopped := if k < |polls| then Some(polls[k].ret) else None;
    }
  }
}
