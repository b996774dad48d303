/**
 * The monitoring loop as values (vaydeer.c:93-107): each `poll` answer is an
 * input; a dispatch round reads one byte from every ready slot, in slot
 * order, and advances the spinner once per byte.
 */
module Poller {
  import opened Wrappers
  import opened Discovery
  import Spinner

  /** One `read(pfds[slot].fd, &ch, 1)` followed by the glyph written after it. */
  datatype Event = Event(slot: nat, fd: int, glyph: char)

  /** What one call of `poll` answered: its return value and the `revents` of each slot. */
  datatype Poll = Poll(ret: int, revents: seq<bv16>)

  /** `pfds[i].revents & POLLIN`. */
  predicate Ready(revents: bv16) {
    (revents & POLLIN) != 0
  }

  /** Spinner position after a round, and what the round did. */
  datatype RoundResult = RoundResult(ptr: nat, events: seq<Event>)

  /** The `for` loop over slots `i..` of one round, with the spinner at `ptr`. */
  function RoundFrom(handles: seq<PollFd>, revents: seq<bv16>, i: nat, ptr: nat): (r: RoundResult)
    requires |revents| == |handles| && i <= |handles| && ptr < Spinner.Period
    ensures r.ptr < Spinner.Period
    decreases |handles| - i
  {
    if i == |handles| then RoundResult(ptr, [])
    else if Ready(revents[i]) then
      var rest := RoundFrom(handles, revents, i + 1, Spinner.Advance(ptr));
      RoundResult(rest.ptr, [Event(i, handles[i].fd, Spinner.Tumbler[ptr])] + rest.events)
    else RoundFrom(handles, revents, i + 1, ptr)
  }

  /** One dispatch round over the whole table. */
  function Round(handles: seq<PollFd>, revents: seq<bv16>, ptr: nat): (r: RoundResult)
    requires |revents| == |handles| && ptr < Spinner.Period
    ensures r.ptr < Spinner.Period
  {
    RoundFrom(handles, revents, 0, ptr)
  }

  /** The spinner ends a round one step further round the tumbler per byte read. */
  lemma {:induction false} RoundPtr(handles: seq<PollFd>, revents: seq<bv16>, i: nat, ptr: nat)
    requires |revents| == |handles| && i <= |handles| && ptr < Spinner.Period
    ensures var r := RoundFrom(handles, revents, i, ptr);
            r.ptr == Spinner.AdvanceBy(ptr, |r.events|)
    decreases |handles| - i
  {
    if i < |handles| {
      if Ready(revents[i]) {
        RoundPtr(handles, revents, i + 1, Spinner.Advance(ptr));
      } else {
        RoundPtr(handles, revents, i + 1, ptr);
      }
    }
  }

  /**
   * Every event reads a ready slot at or after `i` through that slot's
   * descriptor, and the k-th event shows the glyph `k` steps after `ptr`.
   */
  ghost predicate ReadsReadySlots(handles: seq<PollFd>, revents: seq<bv16>, i: nat, ptr: nat, events: seq<Event>)
    requires |revents| == |handles| && ptr < Spinner.Period
  {
    forall k :: 0 <= k < |events| ==>
      && i <= events[k].slot < |handles|
      && Ready(revents[events[k].slot])
      && events[k].fd == handles[events[k].slot].fd
      && events[k].glyph == Spinner.Tumbler[Spinner.AdvanceBy(ptr, k)]
  }

  /** Events come in strictly increasing slot order, so no slot appears twice. */
  ghost predicate Increasing(events: seq<Event>) {
    forall k, l :: 0 <= k < l < |events| ==> events[k].slot < events[l].slot
  }

  /** Every ready slot at or after `i` has an event. */
  ghost predicate CoversReady(revents: seq<bv16>, i: nat, events: seq<Event>) {
    forall j :: i <= j < |revents| && Ready(revents[j]) ==>
      exists k :: 0 <= k < |events| && events[k].slot == j
  }

  /**
   * A round from slot `i` reads only ready slots from `i` on, in strictly
   * increasing order, shows successive glyphs, and reads every ready slot
   * from `i` on.
   */
  lemma {:induction false} RoundFromSpec(handles: seq<PollFd>, revents: seq<bv16>, i: nat, ptr: nat)
    requires |revents| == |handles| && i <= |handles| && ptr < Spinner.Period
    ensures ReadsReadySlots(handles, revents, i, ptr, RoundFrom(handles, revents, i, ptr).events)
    ensures Increasing(RoundFrom(handles, revents, i, ptr).events)
    ensures CoversReady(revents, i, RoundFrom(handles, revents, i, ptr).events)
    decreases |handles| - i
  {
    if i < |handles| {
      if Ready(revents[i]) {
        var q := Spinner.Advance(ptr);
        RoundFromSpec(handles, revents, i + 1, q);
        var rest := RoundFrom(handles, revents, i + 1, q).events;
        var events := RoundFrom(handles, revents, i, ptr).events;
        assert events == [Event(i, handles[i].fd, Spinner.Tumbler[ptr])] + rest;
        assert ReadsReadySlots(handles, revents, i + 1, q, rest);
        assert Increasing(rest);
        assert CoversReady(revents, i + 1, rest);
        forall k | 1 <= k < |events|
          ensures events[k] == rest[k - 1]
          ensures i < events[k].slot
          ensures events[k].glyph == Spinner.Tumbler[Spinner.AdvanceBy(ptr, k)]
        {
          assert Spinner.AdvanceBy(ptr, k) == Spinner.AdvanceBy(q, k - 1);
        }
        assert ReadsReadySlots(handles, revents, i, ptr, events);
        assert Increasing(events);
        forall j | i <= j < |revents| && Ready(revents[j])
          ensures exists k :: 0 <= k < |events| && events[k].slot == j
        {
          if j == i {
            assert events[0].slot == j;
          } else {
            var k :| 0 <= k < |rest| && rest[k].slot == j;
            assert events[k + 1] == rest[k];
          }
        }
      } else {
        RoundFromSpec(handles, revents, i + 1, ptr);
        assert RoundFrom(handles, revents, i, ptr) == RoundFrom(handles, revents, i + 1, ptr);
      }
    }
  }

  /**
   * One round reads exactly the ready slots of the table, each once, in
   * increasing slot order, from the slot's descriptor; the k-th byte shows
   * the k-th glyph after `ptr` and the spinner ends one step further per
   * byte.
   */
  lemma RoundSpec(handles: seq<PollFd>, revents: seq<bv16>, ptr: nat)
    requires |revents| == |handles| && ptr < Spinner.Period
    ensures var r := Round(handles, revents, ptr);
            && r.ptr == (ptr + |r.events|) % Spinner.Period
            && (forall k :: 0 <= k < |r.events| ==>
                  && r.events[k].slot < |handles|
                  && Ready(revents[r.events[k].slot])
                  && r.events[k].fd == handles[r.events[k].slot].fd
                  && r.events[k].glyph == Spinner.Tumbler[(ptr + k) % Spinner.Period])
            && (forall k, l :: 0 <= k < l < |r.events| ==> r.events[k].slot < r.events[l].slot)
            && (forall j :: 0 <= j < |handles| && Ready(revents[j]) ==>
                  exists k :: 0 <= k < |r.events| && r.events[k].slot == j)
  {
    var r := Round(handles, revents, ptr);
    RoundPtr(handles, revents, 0, ptr);
    RoundFromSpec(handles, revents, 0, ptr);
    assert ReadsReadySlots(handles, revents, 0, ptr, r.events);
    assert Increasing(r.events);
    assert CoversReady(revents, 0, r.events);
    Spinner.AdvanceByMod(ptr, |r.events|);
    forall k | 0 <= k < |r.events|
      ensures Spinner.AdvanceBy(ptr, k) == (ptr + k) % Spinner.Period
    {
      Spinner.AdvanceByMod(ptr, k);
    }
  }

  /** The outcome of the `while` loop over the answers of `poll`. */
  datatype LoopResult = LoopResult(rounds: nat, stopped: Option<int>, ptr: nat, events: seq<Event>)

  /** Every answer of `poll` covers every slot of the table. */
  predicate CoversTable(handles: seq<PollFd>, polls: seq<Poll>) {
    forall k :: 0 <= k < |polls| ==> |polls[k].revents| == |handles|
  }

  /**
   * `while ((preturn = poll(...)) >= 0) { round }` over the answers
   * `polls`: the loop dispatches one round per non-negative answer and
   * stops at the first negative one; `stopped` is None when every answer
   * given was non-negative (the program is still running).
   */
  function PollLoop(handles: seq<PollFd>, polls: seq<Poll>, ptr: nat): (r: LoopResult)
    requires CoversTable(handles, polls) && ptr < Spinner.Period
    ensures r.rounds <= |polls|
    ensures forall j :: 0 <= j < r.rounds ==> polls[j].ret >= 0
    ensures r.stopped == if r.rounds < |polls| then Some(polls[r.rounds].ret) else None
    ensures r.stopped.Some? ==> r.stopped.value < 0
    decreases |polls|
  {
    if polls == [] then LoopResult(0, None, ptr, [])
    else if polls[0].ret < 0 then LoopResult(0, Some(polls[0].ret), ptr, [])
    else
      var round := Round(handles, polls[0].revents, ptr);
      var rest := PollLoop(handles, polls[1..], round.ptr);
      LoopResult(rest.rounds + 1, rest.stopped, rest.ptr, round.events + rest.events)
  }

  /**
   * The loop ends exactly when some answer of `poll` is negative, and then
   * at the first such answer.
   */
  lemma PollLoopStops(handles: seq<PollFd>, polls: seq<Poll>, ptr: nat)
    requires CoversTable(handles, polls) && ptr < Spinner.Period
    ensures PollLoop(handles, polls, ptr).stopped.Some? <==> exists j :: 0 <= j < |polls| && polls[j].ret < 0
  {
  }

  /**
   * Every event reads a slot of the table through that slot's descriptor,
   * and the k-th event shows the glyph `k` steps after `ptr`.
   */
  ghost predicate ReadsTable(handles: seq<PollFd>, ptr: nat, events: seq<Event>)
    requires ptr < Spinner.Period
  {
    forall k :: 0 <= k < |events| ==>
      && events[k].slot < |handles|
      && events[k].fd == handles[events[k].slot].fd
      && events[k].glyph == Spinner.Tumbler[Spinner.AdvanceBy(ptr, k)]
  }

  /** Over the whole loop the spinner ends one step further per byte read. */
  lemma {:induction false} PollLoopPtr(handles: seq<PollFd>, polls: seq<Poll>, ptr: nat)
    requires CoversTable(handles, polls) && ptr < Spinner.Period
    ensures PollLoop(handles, polls, ptr).ptr == Spinner.AdvanceBy(ptr, |PollLoop(handles, polls, ptr).events|)
    decreases |polls|
  {
    if polls != [] && polls[0].ret >= 0 {
      var round := Round(handles, polls[0].revents, ptr);
      RoundPtr(handles, polls[0].revents, 0, ptr);
      assert CoversTable(handles, polls[1..]);
      PollLoopPtr(handles, polls[1..], round.ptr);
      var rest := PollLoop(handles, polls[1..], round.ptr);
      Spinner.AdvanceByAdd(ptr, |round.events|, |rest.events|);
    }
  }

  /**
   * Over the whole loop the spinner keeps cycling through the tumbler: the
   * k-th byte read shows the glyph `k` steps after `ptr`, and every byte is
   * read from a slot of the table through that slot's descriptor.
   */
  lemma {:induction false} PollLoopGlyphs(handles: seq<PollFd>, polls: seq<Poll>, ptr: nat)
    requires CoversTable(handles, polls) && ptr < Spinner.Period
    ensures ReadsTable(handles, ptr, PollLoop(handles, polls, ptr).events)
    decreases |polls|
  {
    if polls != [] && polls[0].ret >= 0 {
      var round := Round(handles, polls[0].revents, ptr);
      assert ReadsReadySlots(handles, polls[0].revents, 0, ptr, round.events) by {
        RoundFromSpec(handles, polls[0].revents, 0, ptr);
      }
      assert CoversTable(handles, polls[1..]);
      PollLoopGlyphs(handles, polls[1..], round.ptr);
      var rest := PollLoop(handles, polls[1..], round.ptr).events;
      assert ReadsTable(handles, round.ptr, rest);
      var events := PollLoop(handles, polls, ptr).events;
      assert events == round.events + rest;
      RoundPtr(handles, polls[0].revents, 0, ptr);
      forall k | 0 <= k < |events|
        ensures events[k].slot < |handles|
        ensures events[k].fd == handles[events[k].slot].fd
        ensures events[k].glyph == Spinner.Tumbler[Spinner.AdvanceBy(ptr, k)]
      {
        if k >= |round.events| {
          var m := k - |round.events|;
          assert events[k] == rest[m];
          Spinner.AdvanceByAdd(ptr, |round.events|, m);
        } else {
          assert events[k] == round.events[k];
        }
      }
    }
  }
}
