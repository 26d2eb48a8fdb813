/**
 * The coordinator of custom_components/clivet/coordinator.py: it owns the
 * Modbus client, polls seven register blocks into a fresh address -> word
 * map every cycle, refreshes single addresses, and writes whole registers
 * or single bits (read-modify-write).
 *
 * Each operation is first given as a function of the device and the
 * coordinator's state (`Fetch`, `RetrieveRange`, `PollCycle`,
 * `RefreshOutcome`, `RegisterWrite`, `BitWrite`); the lemmas below state
 * what those functions promise in terms of the exchanges recorded in the
 * client's log, and the methods of `ClivetCoordinator` are proved to
 * behave exactly as the functions say.
 */
module Coordinator {
  import opened Codec
  import opened Errors
  import opened Transport
  import Text

  // ---------------------------------------------------------------------
  // Reading registers
  // ---------------------------------------------------------------------

  /** What `_get_modbus_register` gives back: the registers, `None`, or an exception. */
  datatype Fetched = Values(words: seq<Word>) | NoValues | FetchFailed(error: Failure)

  /** The `connect()` the client gets when it is not connected. */
  function EnsureConnected(dev: Device, link: Link): Link
  {
    if link.connected then link else ConnectStep(dev, link)
  }

  /** The exchanges a successful connection check adds before the real work. */
  function ConnectPrefix(link: Link): seq<Event>
  {
    if link.connected then [] else [ConnectAttempt(true)]
  }

  /** An error response becomes `None`; a raised ModbusException becomes a CommunicationException. */
  function Answer(response: ReadResponse): Fetched
  {
    match response
    case Registers(ws) => Values(ws)
    case ErrorResponse => NoValues
    case Fault => FetchFailed(CommunicationFailure)
  }

  /** `_get_modbus_register(address, count)`. */
  function Fetch(dev: Device, link: Link, address: int, count: nat): (Fetched, Link)
  {
    var up := EnsureConnected(dev, link);
    if !up.connected then (FetchFailed(Offline), up)
    else
      var (response, after) := ReadStep(dev, up, address, count);
      (Answer(response), after)
  }

  function Last(evs: seq<Event>): Event
    requires evs != []
  {
    evs[|evs| - 1]
  }

  lemma ReadsOfSingle(e: Event)
    ensures ReadsOf([e]) == if e.Read? then [e] else []
    ensures WritesOf([e]) == if e.Write? then [e] else []
  {
    assert [e][1..] == [];
  }

  lemma NewEventsChain(a: Link, b: Link, c: Link)
    requires a.log <= b.log && b.log <= c.log
    ensures a.log <= c.log
    ensures NewEvents(a, c) == NewEvents(a, b) + NewEvents(b, c)
  {
    assert c.log == a.log + NewEvents(a, b) + NewEvents(b, c);
  }

  /**
   * One call of `_get_modbus_register`: no write is ever sent; when the
   * client cannot connect the only exchange is the failed connection
   * attempt and OfflineException is raised; otherwise exactly one read of
   * `count` registers at `address` is sent, last, and its answer decides
   * the result (registers, `None` for an error response, a
   * CommunicationException for a ModbusException).
   */
  lemma FetchExchange(dev: Device, link: Link, address: int, count: nat)
    ensures link.log <= Fetch(dev, link, address, count).1.log
    ensures var (f, after) := Fetch(dev, link, address, count);
            var evs := NewEvents(link, after);
            && WritesOf(evs) == []
            && (!after.connected <==> f == FetchFailed(Offline))
            && (!after.connected ==> evs == [ConnectAttempt(false)] && ReadsOf(evs) == [])
            && (after.connected ==>
                  && evs == ConnectPrefix(link) + [Read(address, count, Last(evs).answer)]
                  && ReadsOf(evs) == [Last(evs)]
                  && f == Answer(Last(evs).answer))
  {
    var up := EnsureConnected(dev, link);
    ReadsOfSingle(ConnectAttempt(false));
    ReadsOfSingle(ConnectAttempt(true));
    if !up.connected {
      assert NewEvents(link, up) == [ConnectAttempt(false)];
    } else {
      var (response, after) := ReadStep(dev, up, address, count);
      var read := Read(address, count, response);
      var evs := ConnectPrefix(link) + [read];
      assert after.log == link.log + evs;
      assert NewEvents(link, after) == evs;
      ReadsOfSingle(read);
      ReadsOfAppend(ConnectPrefix(link), [read]);
      WritesOfAppend(ConnectPrefix(link), [read]);
    }
  }

  // ---------------------------------------------------------------------
  // The polling cycle
  // ---------------------------------------------------------------------

  /** One batched read: `count` consecutive registers from `start`. */
  datatype Range = Range(start: int, count: nat)

  predicate Covers(r: Range, a: int)
  {
    r.start <= a < r.start + r.count
  }

  /** The seven blocks `_async_update_data` reads, in the order it reads them. */
  const PollRanges: seq<Range> :=
    [Range(2600, 18), Range(2700, 12), Range(2800, 7), Range(3000, 6),
     Range(4200, 79), Range(4300, 19), Range(7000, 6)]

  /** `data_dict` after `data_dict[start + i] = words[i]` for `i` in `range(n)`. */
  function StoreRange(acc: map<int, Word>, start: int, words: seq<Word>, n: nat): (m: map<int, Word>)
    requires n <= |words|
    ensures forall a :: a in m <==> a in acc || start <= a < start + n
    ensures forall a :: a in m ==> m[a] == if start <= a < start + n then words[a - start] else acc[a]
  {
    if n == 0 then acc else StoreRange(acc, start, words, n - 1)[start + n - 1 := words[n - 1]]
  }

  /** The state of a polling cycle after one block: go on, or stop with an exception. */
  datatype Step = Continue(acc: map<int, Word>, link: Link) | Abort(error: Failure, link: Link)

  /** What an answer that lets the cycle go on adds to the map. */
  function Stored(acc: map<int, Word>, r: Range, response: ReadResponse): map<int, Word>
  {
    if response.Registers? && r.count <= |response.words| then StoreRange(acc, r.start, response.words, r.count) else acc
  }

  /** `_retrieve_multiple_values(start, count)`: a short register list fails on `values[i]`. */
  function RetrieveRange(dev: Device, link: Link, acc: map<int, Word>, r: Range): Step
  {
    var (f, after) := Fetch(dev, link, r.start, r.count);
    match f
    case NoValues => Continue(acc, after)
    case FetchFailed(e) => Abort(e, after)
    case Values(ws) =>
      if |ws| < r.count then Abort(IndexError, after)
      else Continue(StoreRange(acc, r.start, ws, r.count), after)
  }

  /** The result of `_async_update_data`: the new map, or the exception it raises. */
  datatype PollResult = Polled(data: map<int, Word>) | PollFailed(error: Failure)

  /** A CommunicationException is re-raised as UpdateFailed; other exceptions pass through. */
  function UpdateError(e: Failure): Failure
  {
    if e == CommunicationFailure then UpdateFailed else e
  }

  /** Reading `ranges` in order into `acc`, stopping at the first exception. */
  function PollCycle(dev: Device, link: Link, ranges: seq<Range>, acc: map<int, Word>): (PollResult, Link)
    decreases |ranges|
  {
    if ranges == [] then (Polled(acc), link)
    else
      match RetrieveRange(dev, link, acc, ranges[0])
      case Continue(next, after) => PollCycle(dev, after, ranges[1..], next)
      case Abort(e, after) => (PollFailed(UpdateError(e)), after)
  }

  /** `_async_update_data`: the seven blocks into a fresh map. */
  function UpdateOutcome(dev: Device, link: Link): (PollResult, Link)
  {
    PollCycle(dev, link, PollRanges, map[])
  }

  /** The read of block `r` was answered in a way that lets the cycle go on. */
  predicate Accepted(ev: Event, r: Range)
  {
    && ev.Read? && ev.address == r.start && ev.count == r.count
    && (ev.answer.ErrorResponse? || (ev.answer.Registers? && r.count <= |ev.answer.words|))
  }

  /** `ev` is the exchange on block `r` that raised `e`. */
  predicate FailedAt(e: Failure, ev: Event, r: Range)
  {
    || (e == Offline && ev == ConnectAttempt(false))
    || (e == CommunicationFailure && ev == Read(r.start, r.count, Fault))
    || (e == IndexError && ev.Read? && ev.address == r.start && ev.count == r.count
        && ev.answer.Registers? && |ev.answer.words| < r.count)
  }

  /**
   * One block: nothing is written; if the cycle may go on, exactly one
   * read of the block was sent, it was accepted and its registers are in
   * the map; otherwise the last exchange is the one that failed.
   */
  lemma RetrieveRangeExchange(dev: Device, link: Link, acc: map<int, Word>, r: Range)
    ensures link.log <= RetrieveRange(dev, link, acc, r).link.log
    ensures var st := RetrieveRange(dev, link, acc, r);
            var evs := NewEvents(link, st.link);
            && WritesOf(evs) == [] && evs != []
            && (st.Continue? ==>
                  && ReadsOf(evs) == [Last(evs)] && Accepted(Last(evs), r) && st.link.connected
                  && st.acc == Stored(acc, r, Last(evs).answer))
            && (st.Abort? ==>
                  && FailedAt(st.error, Last(evs), r)
                  && ReadsOf(evs) == if st.error == Offline then [] else [Last(evs)])
  {
    FetchExchange(dev, link, r.start, r.count);
    var (f, after) := Fetch(dev, link, r.start, r.count);
    var st := RetrieveRange(dev, link, acc, r);
    assert st.link == after;
    if after.connected {
      var ev := Last(NewEvents(link, after));
      assert ev == Read(r.start, r.count, ev.answer) && f == Answer(ev.answer);
      match ev.answer
      case Registers(ws) =>
        assert st == if |ws| < r.count then Abort(IndexError, after)
                     else Continue(StoreRange(acc, r.start, ws, r.count), after);
      case ErrorResponse =>
        assert st == Continue(acc, after);
      case Fault =>
        assert st == Abort(CommunicationFailure, after);
    } else {
      assert st == Abort(Offline, after);
    }
  }

  /** The exception raised by the block read, as `RetrieveRange` reports it. */
  function RawError(e: Failure): Failure
  {
    if e == UpdateFailed then CommunicationFailure else e
  }

  /** A polling cycle only appends to the log, and never writes. */
  lemma {:induction false} PollCycleExtends(dev: Device, link: Link, ranges: seq<Range>, acc: map<int, Word>)
    ensures link.log <= PollCycle(dev, link, ranges, acc).1.log
    ensures WritesOf(NewEvents(link, PollCycle(dev, link, ranges, acc).1)) == []
    decreases |ranges|
  {
    if ranges != [] {
      RetrieveRangeExchange(dev, link, acc, ranges[0]);
      var st := RetrieveRange(dev, link, acc, ranges[0]);
      if st.Continue? {
        PollCycleExtends(dev, st.link, ranges[1..], st.acc);
        var after := PollCycle(dev, st.link, ranges[1..], st.acc).1;
        NewEventsChain(link, st.link, after);
        WritesOfAppend(NewEvents(link, st.link), NewEvents(st.link, after));
      }
    }
  }

  /**
   * A polling cycle that completes has read every block once, strictly in
   * the given order, and every read was accepted (registers enough for the
   * block, or an error response).
   */
  lemma {:induction false} PollCycleCompletes(dev: Device, link: Link, ranges: seq<Range>, acc: map<int, Word>)
    ensures link.log <= PollCycle(dev, link, ranges, acc).1.log
    ensures var (res, after) := PollCycle(dev, link, ranges, acc);
            var rs := ReadsOf(NewEvents(link, after));
            res.Polled? ==> |rs| == |ranges| && forall k :: 0 <= k < |rs| ==> Accepted(rs[k], ranges[k])
    decreases |ranges|
  {
    PollCycleExtends(dev, link, ranges, acc);
    if ranges != [] {
      RetrieveRangeExchange(dev, link, acc, ranges[0]);
      var st := RetrieveRange(dev, link, acc, ranges[0]);
      if st.Continue? {
        assert PollCycle(dev, link, ranges, acc) == PollCycle(dev, st.link, ranges[1..], st.acc);
        PollCycleCompletes(dev, st.link, ranges[1..], st.acc);
        var (res, after) := PollCycle(dev, st.link, ranges[1..], st.acc);
        PollCycleExtends(dev, st.link, ranges[1..], st.acc);
        NewEventsChain(link, st.link, after);
        var first, rest := NewEvents(link, st.link), NewEvents(st.link, after);
        ReadsOfAppend(first, rest);
        var tail := ReadsOf(rest);
        var rs := ReadsOf(first + rest);
        assert rs == [Last(first)] + tail;
        if res.Polled? {
          AcceptedCons(ranges, Last(first), tail, |tail|);
        }
      }
    }
  }

  /**
   * Block reads accepted one by one, the first block's in front of the
   * rest's: the first `n + 1` reads are accepted when the first is and the
   * next `n` are accepted for the blocks after the first.
   */
  lemma AcceptedCons(ranges: seq<Range>, ev: Event, tail: seq<Event>, n: nat)
    requires n < |ranges| && n <= |tail| && Accepted(ev, ranges[0])
    requires forall k :: 0 <= k < n ==> Accepted(tail[k], ranges[1..][k])
    ensures forall k :: 0 <= k < n + 1 ==> Accepted(([ev] + tail)[k], ranges[k])
  {
    forall k | 0 <= k < n + 1
      ensures Accepted(([ev] + tail)[k], ranges[k])
    {
      if k > 0 {
        assert ([ev] + tail)[k] == tail[k - 1];
        assert ranges[k] == ranges[1..][k - 1];
      }
    }
  }

  /**
   * `evs` is the trace of a cycle over `ranges` that raised `e` at block
   * `j`: the blocks before it were read once each, in order, and accepted,
   * and the exchange that failed on block `j` is the last one.
   */
  predicate StoppedAt(ranges: seq<Range>, evs: seq<Event>, e: Failure)
  {
    var rs := ReadsOf(evs);
    var j := if e == Offline then |rs| else |rs| - 1;
    && (e == Offline || e == IndexError || e == UpdateFailed)
    && evs != [] && 0 <= j < |ranges|
    && (forall k :: 0 <= k < j ==> Accepted(rs[k], ranges[k]))
    && FailedAt(RawError(e), Last(evs), ranges[j])
    && (e != Offline ==> Last(evs) == rs[j])
  }

  lemma StoppedAtCons(ranges: seq<Range>, first: seq<Event>, rest: seq<Event>, e: Failure)
    requires ranges != [] && first != []
    requires ReadsOf(first) == [Last(first)] && Accepted(Last(first), ranges[0])
    requires StoppedAt(ranges[1..], rest, e)
    ensures StoppedAt(ranges, first + rest, e)
  {
    ReadsOfAppend(first, rest);
    var tail := ReadsOf(rest);
    var rs := ReadsOf(first + rest);
    assert rs == [Last(first)] + tail;
    assert Last(first + rest) == Last(rest);
    var i := if e == Offline then |tail| else |tail| - 1;
    AcceptedCons(ranges, Last(first), tail, i);
    assert ranges[i + 1] == ranges[1..][i];
    if e != Offline {
      assert rs[i + 1] == tail[i];
    }
  }

  /**
   * A polling cycle that raises, raises OfflineException, IndexError or
   * UpdateFailed (a CommunicationException re-raised), and stops at the
   * block that failed: no later block is read.
   */
  lemma {:induction false} PollCycleStops(dev: Device, link: Link, ranges: seq<Range>, acc: map<int, Word>)
    ensures link.log <= PollCycle(dev, link, ranges, acc).1.log
    ensures var (res, after) := PollCycle(dev, link, ranges, acc);
            res.PollFailed? ==> StoppedAt(ranges, NewEvents(link, after), res.error)
    decreases |ranges|
  {
    PollCycleExtends(dev, link, ranges, acc);
    if ranges != [] {
      RetrieveRangeExchange(dev, link, acc, ranges[0]);
      var st := RetrieveRange(dev, link, acc, ranges[0]);
      if st.Abort? {
        assert PollCycle(dev, link, ranges, acc) == (PollFailed(UpdateError(st.error)), st.link);
        assert RawError(UpdateError(st.error)) == st.error;
      } else {
        assert PollCycle(dev, link, ranges, acc) == PollCycle(dev, st.link, ranges[1..], st.acc);
        PollCycleStops(dev, st.link, ranges[1..], st.acc);
        var (res, after) := PollCycle(dev, st.link, ranges[1..], st.acc);
        NewEventsChain(link, st.link, after);
        if res.PollFailed? {
          StoppedAtCons(ranges, NewEvents(link, st.link), NewEvents(st.link, after), res.error);
        }
      }
    }
  }

  ghost predicate Disjoint(ranges: seq<Range>)
  {
    forall i, j, a :: 0 <= i < j < |ranges| && Covers(ranges[i], a) ==> !Covers(ranges[j], a)
  }

  /** `data.get(a)`. */
  function Lookup(data: map<int, Word>, a: int): Option<Word>
  {
    if a in data then Some(data[a]) else None
  }

  /** The word the read `ev` of block `r` returned for address `a`, if it returned one. */
  function BlockValue(ev: Event, r: Range, a: int): Option<Word>
  {
    if ev.Read? && ev.answer.Registers? && 0 <= a - r.start < |ev.answer.words|
    then Some(ev.answer.words[a - r.start]) else None
  }

  /**
   * `data` is what a cycle whose reads were `rs` built on top of `acc`:
   * each address of block `k` holds the word read `k` returned for it, or
   * is absent when that read got an error response; `acc` is kept; and
   * nothing outside the blocks is added.
   */
  ghost predicate HoldsBlocks(data: map<int, Word>, acc: map<int, Word>, ranges: seq<Range>, rs: seq<Event>)
    requires |rs| == |ranges|
  {
    && (forall k, a :: 0 <= k < |ranges| && Covers(ranges[k], a) ==> Lookup(data, a) == BlockValue(rs[k], ranges[k], a))
    && (forall a :: a in acc ==> a in data && data[a] == acc[a])
    && (forall a :: a in data && a !in acc ==> exists k :: 0 <= k < |ranges| && Covers(ranges[k], a))
  }

  /** Keys of `acc` lie outside every block. */
  ghost predicate OutsideBlocks(acc: map<int, Word>, ranges: seq<Range>)
  {
    forall k, a :: 0 <= k < |ranges| && a in acc ==> !Covers(ranges[k], a)
  }

  lemma DisjointTail(ranges: seq<Range>)
    requires ranges != [] && Disjoint(ranges)
    ensures Disjoint(ranges[1..])
  {
    var tail := ranges[1..];
    forall i, j, a | 0 <= i < j < |tail| && Covers(tail[i], a)
      ensures !Covers(tail[j], a)
    {
      assert tail[i] == ranges[i + 1] && tail[j] == ranges[j + 1];
    }
  }

  lemma StoredOutsideTail(acc: map<int, Word>, ranges: seq<Range>, response: ReadResponse)
    requires ranges != [] && Disjoint(ranges) && OutsideBlocks(acc, ranges)
    ensures OutsideBlocks(Stored(acc, ranges[0], response), ranges[1..])
  {
    var tail := ranges[1..];
    var next := Stored(acc, ranges[0], response);
    forall k, a | 0 <= k < |tail| && a in next
      ensures !Covers(tail[k], a)
    {
      assert tail[k] == ranges[k + 1];
      if a !in acc {
        assert Covers(ranges[0], a);
      }
    }
  }

  lemma HoldsBlocksCons(data: map<int, Word>, acc: map<int, Word>, ranges: seq<Range>, ev: Event, rest: seq<Event>)
    requires ranges != [] && Disjoint(ranges) && OutsideBlocks(acc, ranges)
    requires Accepted(ev, ranges[0]) && |rest| == |ranges| - 1
    requires HoldsBlocks(data, Stored(acc, ranges[0], ev.answer), ranges[1..], rest)
    ensures HoldsBlocks(data, acc, ranges, [ev] + rest)
  {
    var tail := ranges[1..];
    var rs := [ev] + rest;
    var next := Stored(acc, ranges[0], ev.answer);
    forall k, a | 0 <= k < |ranges| && Covers(ranges[k], a)
      ensures Lookup(data, a) == BlockValue(rs[k], ranges[k], a)
    {
      if k == 0 {
        forall j | 0 <= j < |tail|
          ensures !Covers(tail[j], a)
        {
          assert tail[j] == ranges[j + 1];
        }
        assert a !in acc;
        assert Lookup(data, a) == Lookup(next, a);
      } else {
        assert rs[k] == rest[k - 1] && ranges[k] == tail[k - 1];
      }
    }
    forall a | a in data && a !in acc
      ensures exists k :: 0 <= k < |ranges| && Covers(ranges[k], a)
    {
      if a in next {
        assert Covers(ranges[0], a);
      } else {
        var k :| 0 <= k < |tail| && Covers(tail[k], a);
        assert Covers(ranges[k + 1], a);
      }
    }
  }

  /**
   * The map a completed cycle returns: for each block, its addresses hold
   * exactly the registers its read returned, in order, or are absent when
   * the device answered with an error response; every other address keeps
   * what `acc` had, and nothing outside the blocks is added.
   */
  lemma {:induction false} PollCycleContents(dev: Device, link: Link, ranges: seq<Range>, acc: map<int, Word>)
    requires Disjoint(ranges) && OutsideBlocks(acc, ranges)
    ensures link.log <= PollCycle(dev, link, ranges, acc).1.log
    ensures var (res, after) := PollCycle(dev, link, ranges, acc);
            var rs := ReadsOf(NewEvents(link, after));
            res.Polled? ==> |rs| == |ranges| && HoldsBlocks(res.data, acc, ranges, rs)
    decreases |ranges|
  {
    PollCycleCompletes(dev, link, ranges, acc);
    if ranges != [] {
      RetrieveRangeExchange(dev, link, acc, ranges[0]);
      var st := RetrieveRange(dev, link, acc, ranges[0]);
      if st.Continue? {
        var first := NewEvents(link, st.link);
        assert PollCycle(dev, link, ranges, acc) == PollCycle(dev, st.link, ranges[1..], st.acc);
        DisjointTail(ranges);
        StoredOutsideTail(acc, ranges, Last(first).answer);
        PollCycleContents(dev, st.link, ranges[1..], st.acc);
        var (res, after) := PollCycle(dev, st.link, ranges[1..], st.acc);
        NewEventsChain(link, st.link, after);
        var rest := NewEvents(st.link, after);
        ReadsOfAppend(first, rest);
        if res.Polled? {
          HoldsBlocksCons(res.data, acc, ranges, Last(first), ReadsOf(rest));
        }
      }
    }
  }

  lemma PollRangesDisjoint()
    ensures Disjoint(PollRanges)
  {
    forall i, j, a | 0 <= i < j < |PollRanges| && Covers(PollRanges[i], a)
      ensures !Covers(PollRanges[j], a)
    {
      assert PollRanges[i].start + PollRanges[i].count <= PollRanges[j].start by {
        if i == 0 {} else if i == 1 {} else if i == 2 {} else if i == 3 {} else if i == 4 {} else {}
      }
    }
  }

  /** The addresses one polling cycle reads. */
  predicate PolledAddress(a: int)
  {
    || 2600 <= a < 2618 || 2700 <= a < 2712 || 2800 <= a < 2807 || 3000 <= a < 3006
    || 4200 <= a < 4279 || 4300 <= a < 4319 || 7000 <= a < 7006
  }

  lemma CoversPolled(k: int, a: int)
    requires 0 <= k < |PollRanges| && Covers(PollRanges[k], a)
    ensures PolledAddress(a)
  {
    if k == 0 {} else if k == 1 {} else if k == 2 {} else if k == 3 {} else if k == 4 {} else if k == 5 {} else {}
  }

  /**
   * `_async_update_data` on completion: the map holds exactly the polled
   * addresses whose block the device answered with registers, each with
   * the word the device returned for it; in particular 3006 and 3007,
   * which binary sensors read, are never in it.
   */
  lemma UpdateDataContents(dev: Device, link: Link)
    ensures link.log <= UpdateOutcome(dev, link).1.log
    ensures var (res, after) := UpdateOutcome(dev, link);
            var rs := ReadsOf(NewEvents(link, after));
            res.Polled? ==>
              && |rs| == |PollRanges|
              && (forall k, a :: 0 <= k < |PollRanges| && Covers(PollRanges[k], a) ==>
                    Lookup(res.data, a) == BlockValue(rs[k], PollRanges[k], a))
              && (forall a :: a in res.data ==> PolledAddress(a))
              && 3006 !in res.data && 3007 !in res.data
  {
    PollRangesDisjoint();
    PollCycleContents(dev, link, PollRanges, map[]);
    var (res, after) := UpdateOutcome(dev, link);
    if res.Polled? {
      forall a | a in res.data
        ensures PolledAddress(a)
      {
        var k :| 0 <= k < |PollRanges| && Covers(PollRanges[k], a);
        CoversPolled(k, a);
      }
    }
  }

  // ---------------------------------------------------------------------
  // Refreshing and writing
  // ---------------------------------------------------------------------

  /** The coordinator's mutable state: the client, the register map, and how often listeners were notified. */
  datatype CoordState = CoordState(link: Link, data: map<int, Word>, notified: nat)

  /** The map after a refresh of `address` whose read got `response`. */
  function Cached(data: map<int, Word>, address: int, response: ReadResponse): map<int, Word>
  {
    if response.Registers? && |response.words| > 0 then data[address := response.words[0]] else data
  }

  /** `refresh_single_address(address)`. */
  function RefreshOutcome(dev: Device, s: CoordState, address: int): (Status, CoordState)
  {
    var (f, after) := Fetch(dev, s.link, address, 1);
    match f
    case FetchFailed(e) => (Raised(e), s.(link := after))
    case NoValues => (Ok, CoordState(after, s.data, s.notified + 1))
    case Values(ws) => (Ok, CoordState(after, if |ws| > 0 then s.data[address := ws[0]] else s.data, s.notified + 1))
  }

  /**
   * A refresh sends one read of `address` (after a connection attempt if
   * needed) and nothing else. On success the listeners are notified once
   * and the map changes at most at `address`, which then holds the first
   * register the device returned; an empty or error answer leaves the map
   * as it was. On an exception nothing but the link changes.
   */
  lemma RefreshExchange(dev: Device, s: CoordState, address: int)
    ensures s.link.log <= RefreshOutcome(dev, s, address).1.link.log
    ensures var (st, s2) := RefreshOutcome(dev, s, address);
            var evs := NewEvents(s.link, s2.link);
            && WritesOf(evs) == []
            && (st == Raised(Offline) <==> !s2.link.connected)
            && (!s2.link.connected ==> evs == [ConnectAttempt(false)])
            && (s2.link.connected ==>
                  && evs == ConnectPrefix(s.link) + [Read(address, 1, Last(evs).answer)]
                  && ReadsOf(evs) == [Last(evs)]
                  && (st == Ok <==> Last(evs).answer != Fault)
                  && (st == Ok ==> s2.data == Cached(s.data, address, Last(evs).answer)))
            && (st == Ok ==> s2.notified == s.notified + 1)
            && (st != Ok ==>
                  && s2.data == s.data && s2.notified == s.notified
                  && (st == Raised(Offline) || st == Raised(CommunicationFailure)))
  {
    var up := EnsureConnected(dev, s.link);
    var (st, s2) := RefreshOutcome(dev, s, address);
    if up.connected {
      RefreshAfterConnect(dev, s, address);
    } else {
      assert st == Raised(Offline) && s2 == s.(link := up);
      assert NewEvents(s.link, up) == [ConnectAttempt(false)];
      ReadsOfSingle(ConnectAttempt(false));
    }
  }

  /** `RefreshExchange` once the client is connected: the read follows the connection prefix. */
  lemma RefreshAfterConnect(dev: Device, s: CoordState, address: int)
    requires EnsureConnected(dev, s.link).connected
    ensures var up := EnsureConnected(dev, s.link);
            var back := dev.read(up.log, address, 1);
            var read := Read(address, 1, back);
            var evs := ConnectPrefix(s.link) + [read];
            && s.link.log + evs == up.log + [read]
            && ReadsOf(evs) == [read] && WritesOf(evs) == []
            && RefreshOutcome(dev, s, address) ==
                 if back == Fault then (Raised(CommunicationFailure), s.(link := Link(true, s.link.log + evs)))
                 else (Ok, CoordState(Link(true, s.link.log + evs), Cached(s.data, address, back), s.notified + 1))
  {
    var up := EnsureConnected(dev, s.link);
    var read := Read(address, 1, dev.read(up.log, address, 1));
    var p := ConnectPrefix(s.link);
    assert up.log == s.link.log + p;
    assert s.link.log + (p + [read]) == up.log + [read];
    ReadsOfSingle(ConnectAttempt(true));
    ReadsOfSingle(read);
    ReadsOfAppend(p, [read]);
    WritesOfAppend(p, [read]);
  }

  /** On a connected client a refresh is exactly one read of `address`, answered by the device. */
  lemma RefreshWhenConnected(dev: Device, s: CoordState, address: int)
    requires s.link.connected
    ensures var back := dev.read(s.link.log, address, 1);
            var after := Link(true, s.link.log + [Read(address, 1, back)]);
            RefreshOutcome(dev, s, address) ==
              if back == Fault then (Raised(CommunicationFailure), s.(link := after))
              else (Ok, CoordState(after, Cached(s.data, address, back), s.notified + 1))
  {
  }

  /**
   * The write-and-refresh both register writes end with: a rejected write
   * raises a CommunicationException, an accepted one refreshes the address.
   */
  function WriteAndRefresh(dev: Device, s: CoordState, address: int, value: int): (Status, CoordState)
  {
    var (response, after) := WriteStep(dev, s.link, address, value);
    if response != Written then (Raised(CommunicationFailure), s.(link := after))
    else RefreshOutcome(dev, s.(link := after), address)
  }

  /** `set_modbus_register(address, value)`. */
  function RegisterWrite(dev: Device, s: CoordState, address: int, value: int): (Status, CoordState)
  {
    var up := EnsureConnected(dev, s.link);
    if !up.connected then (Raised(Offline), s.(link := up))
    else WriteAndRefresh(dev, s.(link := up), address, value)
  }

  predicate IsWriteOf(ev: Event, address: int, value: int)
  {
    ev.Write? && ev.address == address && ev.value == value
  }

  /** `ev` is the read of one register at `address` that a refresh sends. */
  predicate IsRefreshOf(ev: Event, address: int)
  {
    ev.Read? && ev.address == address && ev.count == 1
  }

  /**
   * On a connected client, exactly one write of `value` to `address` is
   * sent, then, only when it was accepted, one refresh read of the same
   * address. A rejected write raises a CommunicationException and changes
   * neither the map nor the listeners; after an accepted one the map holds
   * the word the device returned on the read-back, not `value`, and the
   * listeners are notified once, unless the read-back itself failed.
   */
  lemma WriteAndRefreshExchange(dev: Device, s: CoordState, address: int, value: int)
    requires s.link.connected
    ensures s.link.log <= WriteAndRefresh(dev, s, address, value).1.link.log
    ensures var (st, s2) := WriteAndRefresh(dev, s, address, value);
            var evs := NewEvents(s.link, s2.link);
            && 1 <= |evs| <= 2 && IsWriteOf(evs[0], address, value)
            && (evs[0].outcome == Written <==> |evs| == 2)
            && (|evs| == 1 ==> st == Raised(CommunicationFailure) && s2.data == s.data && s2.notified == s.notified)
            && (|evs| == 2 ==>
                  && IsRefreshOf(evs[1], address)
                  && (st == Ok <==> evs[1].answer != Fault)
                  && (st == Ok ==> s2.data == Cached(s.data, address, evs[1].answer) && s2.notified == s.notified + 1)
                  && (st != Ok ==> st == Raised(CommunicationFailure) && s2.data == s.data && s2.notified == s.notified))
  {
    var (response, mid) := WriteStep(dev, s.link, address, value);
    var write := Write(address, value, response);
    var (st, s2) := WriteAndRefresh(dev, s, address, value);
    if response == Written {
      RefreshWhenConnected(dev, s.(link := mid), address);
      var read := Read(address, 1, dev.read(mid.log, address, 1));
      assert s2.link.log == s.link.log + [write, read];
      assert NewEvents(s.link, s2.link) == [write, read];
    } else {
      assert NewEvents(s.link, mid) == [write];
    }
  }

  /**
   * Writing a register: when the client cannot connect, the failed attempt
   * is the only exchange and nothing changes; otherwise the connection
   * attempt, if one was needed, comes first and the rest is exactly the
   * write-and-refresh of `WriteAndRefreshExchange`.
   */
  lemma RegisterWriteExchange(dev: Device, s: CoordState, address: int, value: int)
    ensures s.link.log <= RegisterWrite(dev, s, address, value).1.link.log
    ensures var (st, s2) := RegisterWrite(dev, s, address, value);
            var evs := NewEvents(s.link, s2.link);
            var p := ConnectPrefix(s.link);
            && (st == Raised(Offline) ==> evs == [ConnectAttempt(false)] && s2.data == s.data && s2.notified == s.notified)
            && (st != Raised(Offline) ==>
                  && |p| < |evs| <= |p| + 2 && evs[..|p|] == p && IsWriteOf(evs[|p|], address, value)
                  && (evs[|p|].outcome == Written <==> |evs| == |p| + 2)
                  && (|evs| == |p| + 1 ==> st == Raised(CommunicationFailure) && s2.data == s.data && s2.notified == s.notified)
                  && (|evs| == |p| + 2 ==>
                  && IsRefreshOf(evs[|p| + 1], address)
                  && (st == Ok <==> evs[|p| + 1].answer != Fault)
                  && (st == Ok ==> s2.data == Cached(s.data, address, evs[|p| + 1].answer) && s2.notified == s.notified + 1)
                  && (st != Ok ==> s2.data == s.data && s2.notified == s.notified)))
  {
    var up := EnsureConnected(dev, s.link);
    var (st, s2) := RegisterWrite(dev, s, address, value);
    if !up.connected {
      assert s2.link == up;
      assert NewEvents(s.link, up) == [ConnectAttempt(false)];
    } else {
      var p := ConnectPrefix(s.link);
      WriteAndRefreshExchange(dev, s.(link := up), address, value);
      NewEventsChain(s.link, up, s2.link);
      assert NewEvents(s.link, up) == p;
      var rest := NewEvents(up, s2.link);
      var evs := NewEvents(s.link, s2.link);
      assert evs == p + rest;
      assert evs[..|p|] == p && evs[|p|] == rest[0];
      if |rest| == 2 {
        assert evs[|p| + 1] == rest[1];
      }
    }
  }

  /** Writing a register raises only OfflineException or a CommunicationException. */
  lemma RegisterWriteRaises(dev: Device, s: CoordState, address: int, value: int)
    ensures RegisterWrite(dev, s, address, value).0 in {Ok, Raised(Offline), Raised(CommunicationFailure)}
  {
    var up := EnsureConnected(dev, s.link);
    if up.connected {
      var s1 := s.(link := up);
      var (response, after) := WriteStep(dev, up, address, value);
      if response == Written {
        RefreshWhenConnected(dev, s1.(link := after), address);
      }
    }
  }

  /**
   * The writes a register write sends: none when the client cannot
   * connect, otherwise exactly the one of `value` to `address`. A client
   * that is already connected is never reported offline, and stays
   * connected.
   */
  lemma RegisterWriteWritesOf(dev: Device, s: CoordState, address: int, value: int)
    ensures s.link.log <= RegisterWrite(dev, s, address, value).1.link.log
    ensures var (st, s2) := RegisterWrite(dev, s, address, value);
            var ws := WritesOf(NewEvents(s.link, s2.link));
            && (st == Raised(Offline) ==> ws == [])
            && (st != Raised(Offline) ==> |ws| == 1 && IsWriteOf(ws[0], address, value) && s2.link.connected)
            && (s.link.connected ==> st != Raised(Offline))
  {
    var up := EnsureConnected(dev, s.link);
    var (st, s2) := RegisterWrite(dev, s, address, value);
    if !up.connected {
      assert s2.link == up;
      assert NewEvents(s.link, up) == [ConnectAttempt(false)];
      ReadsOfSingle(ConnectAttempt(false));
    } else {
      var p := ConnectPrefix(s.link);
      WriteAndRefreshWritesOf(dev, s.(link := up), address, value);
      NewEventsChain(s.link, up, s2.link);
      assert NewEvents(s.link, up) == p;
      ReadsOfSingle(ConnectAttempt(true));
      assert WritesOf(p) == [];
      WritesOfAppend(p, NewEvents(up, s2.link));
    }
  }

  /** On a connected client the write-and-refresh sends one write, never reports the client offline and leaves it connected. */
  lemma WriteAndRefreshWritesOf(dev: Device, s: CoordState, address: int, value: int)
    requires s.link.connected
    ensures s.link.log <= WriteAndRefresh(dev, s, address, value).1.link.log
    ensures var (st, s2) := WriteAndRefresh(dev, s, address, value);
            && WritesOf(NewEvents(s.link, s2.link)) == [Write(address, value, NewEvents(s.link, s2.link)[0].outcome)]
            && st != Raised(Offline) && s2.link.connected
  {
    var (response, mid) := WriteStep(dev, s.link, address, value);
    var write := Write(address, value, response);
    var (st, s2) := WriteAndRefresh(dev, s, address, value);
    ReadsOfSingle(write);
    if response == Written {
      RefreshWhenConnected(dev, s.(link := mid), address);
      var read := Read(address, 1, dev.read(mid.log, address, 1));
      assert s2.link.log == s.link.log + [write, read];
      assert NewEvents(s.link, s2.link) == [write] + [read];
      ReadsOfSingle(read);
      WritesOfAppend([write], [read]);
    } else {
      assert NewEvents(s.link, mid) == [write];
    }
  }

  /** `set_modbus_bit(address, bit, value)`. */
  function BitWrite(dev: Device, s: CoordState, address: int, bit: nat, value: bool): (Status, CoordState)
  {
    var up := EnsureConnected(dev, s.link);
    if !up.connected then (Raised(Offline), s.(link := up))
    else
      var (f, fetched) := Fetch(dev, up, address, 1);
      match f
      case FetchFailed(e) => (Raised(e), s.(link := fetched))
      case NoValues => (Raised(CommunicationFailure), s.(link := fetched))
      case Values(ws) =>
        if |ws| == 0 then (Raised(IndexError), s.(link := fetched))
        else
          var newValue := SetBit(ws[0], bit, value);
          if newValue == ws[0] then (Ok, s.(link := fetched))
          else WriteAndRefresh(dev, s.(link := fetched), address, newValue)
  }

  /** The first register the read `ev` returned, if it returned one. */
  function FirstWord(ev: Event): Option<Word>
  {
    if ev.Read? && ev.answer.Registers? && |ev.answer.words| > 0 then Some(ev.answer.words[0]) else None
  }

  /**
   * `set_modbus_bit` is a read of the register followed, only when the bit
   * differs from `value`, by `set_modbus_register` of the word read with
   * that one bit changed. A failed or empty read raises, and a bit that
   * already has the requested value ends the call without a write.
   */
  lemma BitWriteAsRegisterWrite(dev: Device, s: CoordState, address: int, bit: nat, value: bool)
    ensures var up := EnsureConnected(dev, s.link);
            var (f, fetched) := Fetch(dev, up, address, 1);
            var (st, s2) := BitWrite(dev, s, address, bit, value);
            && (!up.connected ==> st == Raised(Offline) && s2 == s.(link := up))
            && (up.connected && !(f.Values? && |f.words| > 0) ==> st.Raised? && s2 == s.(link := fetched))
            && (up.connected && f.Values? && |f.words| > 0 ==>
                  if Bit(f.words[0], bit) == value then st == Ok && s2 == s.(link := fetched)
                  else (st, s2) == RegisterWrite(dev, s.(link := fetched), address, SetBit(f.words[0], bit, value)))
  {
    var up := EnsureConnected(dev, s.link);
    if up.connected {
      var (f, fetched) := Fetch(dev, up, address, 1);
      FetchExchange(dev, up, address, 1);
      if f.Values? && |f.words| > 0 {
        SetBitUnchangedIff(f.words[0], bit, value);
        assert fetched.connected;
      }
    }
  }

  /** The read `set_modbus_bit` starts with, on a client that is or gets connected. */
  lemma BitWriteReadPhase(dev: Device, s: CoordState, address: int)
    requires EnsureConnected(dev, s.link).connected
    ensures var up := EnsureConnected(dev, s.link);
            var read := Read(address, 1, dev.read(up.log, address, 1));
            Fetch(dev, up, address, 1) == (Answer(read.answer), Link(true, s.link.log + (ConnectPrefix(s.link) + [read])))
  {
    var up := EnsureConnected(dev, s.link);
    var read := Read(address, 1, dev.read(up.log, address, 1));
    assert up.log == s.link.log + ConnectPrefix(s.link);
    assert up.log + [read] == s.link.log + (ConnectPrefix(s.link) + [read]);
  }

  /**
   * Writing one bit, as seen on the wire: if the client cannot connect the
   * failed attempt is the only exchange and nothing changes; otherwise the
   * register is read first, after a connection attempt if one was needed.
   */
  lemma BitWriteReadsFirst(dev: Device, s: CoordState, address: int, bit: nat, value: bool)
    ensures s.link.log <= BitWrite(dev, s, address, bit, value).1.link.log
    ensures var (st, s2) := BitWrite(dev, s, address, bit, value);
            var evs := NewEvents(s.link, s2.link);
            var p := ConnectPrefix(s.link);
            && (st == Raised(Offline) ==> evs == [ConnectAttempt(false)] && s2.data == s.data && s2.notified == s.notified)
            && (st != Raised(Offline) ==> |p| < |evs| && evs[..|p|] == p && IsRefreshOf(evs[|p|], address))
  {
    var up := EnsureConnected(dev, s.link);
    var (st, s2) := BitWrite(dev, s, address, bit, value);
    if !up.connected {
      assert s2.link == up;
      assert NewEvents(s.link, up) == [ConnectAttempt(false)];
    } else {
      BitWriteSplit(dev, s, address, bit, value);
      var p := ConnectPrefix(s.link);
      var read := Read(address, 1, dev.read(s.link.log + p, address, 1));
      var fetched := Link(true, s.link.log + (p + [read]));
      var w := FirstWord(read);
      if w.Some? && Bit(w.value, bit) != value {
        WriteAndRefreshExchange(dev, s.(link := fetched), address, SetBit(w.value, bit, value));
        EventsAfter(s.link, fetched, s2.link, p + [read]);
        var evs := NewEvents(s.link, s2.link);
        assert evs[|p|] == read && evs[..|p|] == p;
        assert st != Raised(Offline);
      } else {
        var evs := NewEvents(s.link, s2.link);
        assert evs == p + [read];
        assert evs[|p|] == read && evs[..|p|] == p;
      }
    }
  }

  /**
   * Writing one bit when nothing is written: when the read fails or
   * returns no register the call raises, and when the bit already has the
   * requested value it ends normally; either way the read is the last
   * exchange and the map and the listeners are left as they were.
   */
  lemma BitWriteSkips(dev: Device, s: CoordState, address: int, bit: nat, value: bool)
    ensures s.link.log <= BitWrite(dev, s, address, bit, value).1.link.log
    ensures var (st, s2) := BitWrite(dev, s, address, bit, value);
            var evs := NewEvents(s.link, s2.link);
            var p := ConnectPrefix(s.link);
            var w := if |p| < |evs| then FirstWord(evs[|p|]) else None;
            && (st != Raised(Offline) && w.None? ==>
                  st.Raised? && |evs| == |p| + 1 && s2.data == s.data && s2.notified == s.notified)
            && (w.Some? && Bit(w.value, bit) == value ==>
                  st == Ok && |evs| == |p| + 1 && s2.data == s.data && s2.notified == s.notified)
  {
    var up := EnsureConnected(dev, s.link);
    var (st, s2) := BitWrite(dev, s, address, bit, value);
    if !up.connected {
      assert s2.link == up;
      assert NewEvents(s.link, up) == [ConnectAttempt(false)];
    } else {
      BitWriteSplit(dev, s, address, bit, value);
      var p := ConnectPrefix(s.link);
      var read := Read(address, 1, dev.read(s.link.log + p, address, 1));
      var fetched := Link(true, s.link.log + (p + [read]));
      var w := FirstWord(read);
      if w.Some? && Bit(w.value, bit) != value {
        WriteAndRefreshExchange(dev, s.(link := fetched), address, SetBit(w.value, bit, value));
        EventsAfter(s.link, fetched, s2.link, p + [read]);
        assert NewEvents(s.link, s2.link)[|p|] == read;
      } else {
        var evs := NewEvents(s.link, s2.link);
        assert evs == p + [read];
        assert evs[|p|] == read && |evs| == |p| + 1;
        assert s2.data == s.data && s2.notified == s.notified;
      }
    }
  }

  /**
   * Writing one bit when the word read has the bit different from
   * `value`: the exchange after the read is a write, to `address`, of that
   * word with only the bit changed, and at most one refresh read follows
   * it, exactly when it was accepted.
   */
  lemma BitWriteWritesOnce(dev: Device, s: CoordState, address: int, bit: nat, value: bool)
    ensures s.link.log <= BitWrite(dev, s, address, bit, value).1.link.log
    ensures var (st, s2) := BitWrite(dev, s, address, bit, value);
            var evs := NewEvents(s.link, s2.link);
            var p := ConnectPrefix(s.link);
            var w := if |p| < |evs| then FirstWord(evs[|p|]) else None;
            w.Some? && Bit(w.value, bit) != value ==>
              && |p| + 1 < |evs| <= |p| + 3
              && IsWriteOf(evs[|p| + 1], address, SetBit(w.value, bit, value))
              && (evs[|p| + 1].outcome == Written <==> |evs| == |p| + 3)
              && (|evs| == |p| + 3 ==> IsRefreshOf(evs[|p| + 2], address))
  {
    var up := EnsureConnected(dev, s.link);
    var (st, s2) := BitWrite(dev, s, address, bit, value);
    if !up.connected {
      assert s2.link == up;
      assert NewEvents(s.link, up) == [ConnectAttempt(false)];
    } else {
      BitWriteSplit(dev, s, address, bit, value);
      var p := ConnectPrefix(s.link);
      var read := Read(address, 1, dev.read(s.link.log + p, address, 1));
      var fetched := Link(true, s.link.log + (p + [read]));
      var w := FirstWord(read);
      if w.Some? && Bit(w.value, bit) != value {
        WriteAndRefreshExchange(dev, s.(link := fetched), address, SetBit(w.value, bit, value));
        EventsAfter(s.link, fetched, s2.link, p + [read]);
      } else {
        assert NewEvents(s.link, s2.link) == p + [read];
      }
    }
  }

  /**
   * `set_modbus_bit` on a client that is or gets connected: after the
   * read, either the call is over, or, when the word read has the bit
   * different from `value`, it is the write-and-refresh of the word with
   * that bit changed.
   */
  lemma BitWriteSplit(dev: Device, s: CoordState, address: int, bit: nat, value: bool)
    requires EnsureConnected(dev, s.link).connected
    ensures var p := ConnectPrefix(s.link);
            var read := Read(address, 1, dev.read(s.link.log + p, address, 1));
            var fetched := Link(true, s.link.log + (p + [read]));
            var w := FirstWord(read);
            var (st, s2) := BitWrite(dev, s, address, bit, value);
            && s.link.log <= fetched.log && NewEvents(s.link, fetched) == p + [read]
            && (w.Some? && Bit(w.value, bit) != value ==>
                  (st, s2) == WriteAndRefresh(dev, s.(link := fetched), address, SetBit(w.value, bit, value)))
            && (!(w.Some? && Bit(w.value, bit) != value) ==>
                  s2 == s.(link := fetched) && (st == Ok <==> w.Some?) && st != Raised(Offline))
  {
    BitWriteReadPhase(dev, s, address);
    var up := EnsureConnected(dev, s.link);
    var p := ConnectPrefix(s.link);
    assert up.log == s.link.log + p;
    var read := Read(address, 1, dev.read(s.link.log + p, address, 1));
    var (f, fetched) := Fetch(dev, up, address, 1);
    assert f == Answer(read.answer);
    if f.Values? && |f.words| > 0 {
      SetBitUnchangedIff(f.words[0], bit, value);
    } else {
      assert f.FetchFailed? ==> f.error == CommunicationFailure;
    }
  }

  /** The events from `a` to `c` through `b`: those up to `b`, then the rest, index by index. */
  lemma EventsAfter(a: Link, b: Link, c: Link, pre: seq<Event>)
    requires a.log <= b.log && b.log <= c.log && NewEvents(a, b) == pre
    ensures a.log <= c.log
    ensures var evs, rest := NewEvents(a, c), NewEvents(b, c);
            && evs == pre + rest && |evs| == |pre| + |rest|
            && (forall i :: 0 <= i < |pre| ==> evs[i] == pre[i])
            && (forall i :: 0 <= i < |rest| ==> evs[|pre| + i] == rest[i])
  {
    NewEventsChain(a, b, c);
  }

  // ---------------------------------------------------------------------
  // Identity and configuration
  // ---------------------------------------------------------------------

  /** A value of the configuration entry's data. */
  datatype ConfigValue = StrValue(s: string) | IntValue(i: int) | NoneValue

  /** Python's `str()` of a configuration value. */
  function Str(v: ConfigValue): string
  {
    match v
    case StrValue(s) => s
    case IntValue(i) => Text.IntToString(i)
    case NoneValue => "None"
  }

  /** `str()` of the values of `keys` that are present and not `None`, in order. */
  function PresentValues(data: map<string, ConfigValue>, keys: seq<string>): (r: seq<string>)
    ensures |r| <= |keys|
  {
    if keys == [] then []
    else
      (if keys[0] in data && data[keys[0]] != NoneValue then [Str(data[keys[0]])] else [])
      + PresentValues(data, keys[1..])
  }

  /** `build_unique_id`: host, port and slave, those present, joined by "_". */
  function BuildUniqueId(data: map<string, ConfigValue>): string
  {
    Text.Join("_", PresentValues(data, ["host", "port", "slave"]))
  }

  /**
   * The ids of the two configuration forms: a network entry gives
   * "<host>_<port>_<slave>", a serial entry (no host) gives "<port>_<slave>".
   */
  lemma UniqueIdForms(data: map<string, ConfigValue>, host: string, port: ConfigValue, slave: int)
    requires "port" in data && data["port"] == port && port != NoneValue
    requires "slave" in data && data["slave"] == IntValue(slave)
    ensures "host" in data && data["host"] == StrValue(host) ==>
              BuildUniqueId(data) == host + "_" + Str(port) + "_" + Text.IntToString(slave)
    ensures "host" !in data ==> BuildUniqueId(data) == Str(port) + "_" + Text.IntToString(slave)
  {
    var id := Text.IntToString(slave);
    var k3: seq<string> := ["slave"];
    var k2: seq<string> := ["port", "slave"];
    var k1: seq<string> := ["host", "port", "slave"];
    assert k3[1..] == [] && k2[1..] == k3 && k1[1..] == k2;
    assert PresentValues(data, k3) == [id];
    assert PresentValues(data, k2) == [Str(port), id];
    var tail: seq<string> := [Str(port), id];
    assert tail[1..] == [id];
    assert Text.Join("_", tail) == Str(port) + "_" + id;
    if "host" !in data {
      assert PresentValues(data, k1) == tail;
    }
    if "host" in data && data["host"] == StrValue(host) {
      var parts: seq<string> := [host, Str(port), id];
      assert PresentValues(data, k1) == parts;
      assert parts[1..] == tail;
    }
  }

  /** The Modbus client `build_client` creates. */
  datatype ClientKind =
    | TcpClient(host: ConfigValue, port: ConfigValue, timeout: nat)
    | UdpClient(host: ConfigValue, port: ConfigValue, timeout: nat)
    | SerialClient(port: ConfigValue, baudrate: ConfigValue, parity: ConfigValue, timeout: nat)

  datatype ClientChoice = Built(client: ClientKind) | BuildFailed(error: Failure)

  /** `build_client`: the protocol picks TCP or UDP; otherwise a baud rate means a serial line. */
  function BuildClient(data: map<string, ConfigValue>): ClientChoice
  {
    if "protocol" in data && data["protocol"] == StrValue("tcp") then
      if "host" in data && "port" in data then Built(TcpClient(data["host"], data["port"], 10)) else BuildFailed(KeyError)
    else if "protocol" in data && data["protocol"] == StrValue("udp") then
      if "host" in data && "port" in data then Built(UdpClient(data["host"], data["port"], 10)) else BuildFailed(KeyError)
    else if "baudrate" in data then
      if "port" in data && "parity" in data then Built(SerialClient(data["port"], data["baudrate"], data["parity"], 10))
      else BuildFailed(KeyError)
    else BuildFailed(ValueError)
  }

  /**
   * Every client is built with a 10-second timeout; a network entry with
   * host and port always gets the client of its protocol; any other
   * configuration with a baudrate, port and parity (including one whose
   * protocol is neither TCP nor UDP) gets a serial client with those
   * parameters; a configuration that is
   * neither raises ValueError, and a missing key KeyError.
   */
  lemma BuildClientChoice(data: map<string, ConfigValue>)
    ensures BuildClient(data).Built? ==> BuildClient(data).client.timeout == 10
    ensures BuildClient(data).BuildFailed? ==> BuildClient(data).error in {KeyError, ValueError}
    ensures ("protocol" in data && data["protocol"] == StrValue("tcp") && "host" in data && "port" in data)
              ==> BuildClient(data) == Built(TcpClient(data["host"], data["port"], 10))
    ensures ("protocol" in data && data["protocol"] == StrValue("udp") && "host" in data && "port" in data)
              ==> BuildClient(data) == Built(UdpClient(data["host"], data["port"], 10))
    ensures (!("protocol" in data && data["protocol"] in {StrValue("tcp"), StrValue("udp")})
               && "baudrate" in data && "port" in data && "parity" in data)
              ==> BuildClient(data) == Built(SerialClient(data["port"], data["baudrate"], data["parity"], 10))
    ensures BuildClient(data) == BuildFailed(ValueError) <==>
              !("protocol" in data && data["protocol"] in {StrValue("tcp"), StrValue("udp")}) && "baudrate" !in data
  {
  }

  /** `model_name`: "Sphera-T", the size when register 4312 is known, and the type in 4318. */
  function ModelName(data: map<int, Word>): string
  {
    var sized := if 4312 in data then "Sphera-T (" + Text.NatToString(data[4312]) + " kW)" else "Sphera-T";
    if 4318 in data && data[4318] == 1 then sized + " bdr"
    else if 4318 in data && data[4318] == 2 then sized + " M-thermal"
    else if 4318 in data && data[4318] == 3 then sized + " Monobloc"
    else sized
  }

  /** Whether `s` ends with `suffix`. */
  predicate EndsWith(s: string, suffix: string)
  {
    |suffix| <= |s| && s[|s| - |suffix|..] == suffix
  }

  /** The type suffix register 4318 selects, empty for any other value. */
  function TypeSuffix(data: map<int, Word>): string
  {
    if 4318 in data && data[4318] == 1 then " bdr"
    else if 4318 in data && data[4318] == 2 then " M-thermal"
    else if 4318 in data && data[4318] == 3 then " Monobloc"
    else ""
  }

  /**
   * The model name starts with "Sphera-T"; it goes on with " (N kW)",
   * N the decimal size in 4312, exactly when 4312 is known; it ends with
   * " bdr", " M-thermal" or " Monobloc" when 4318 holds 1, 2 or 3, and
   * otherwise nothing follows the size part.
   */
  lemma ModelNameShape(data: map<int, Word>)
    ensures |ModelName(data)| >= 8 && ModelName(data)[..8] == "Sphera-T"
    ensures 4312 in data ==>
              var size := "Sphera-T (" + Text.NatToString(data[4312]) + " kW)";
              |ModelName(data)| >= |size| && ModelName(data)[..|size|] == size
    ensures 4312 !in data && |ModelName(data)| >= 10 ==> ModelName(data)[8..10] != " ("
    ensures 4318 in data && data[4318] == 1 ==> EndsWith(ModelName(data), " bdr")
    ensures 4318 in data && data[4318] == 2 ==> EndsWith(ModelName(data), " M-thermal")
    ensures 4318 in data && data[4318] == 3 ==> EndsWith(ModelName(data), " Monobloc")
    ensures |ModelName(data)| == 8 + (if 4312 in data then |Text.NatToString(data[4312])| + 6 else 0) + |TypeSuffix(data)|
    ensures ModelName(data) == "Sphera-T" <==> 4312 !in data && !(4318 in data && 1 <= data[4318] <= 3)
  {
    var sized := if 4312 in data then "Sphera-T (" + Text.NatToString(data[4312]) + " kW)" else "Sphera-T";
    assert ModelName(data) == sized + TypeSuffix(data);
    assert ModelName(data)[..|sized|] == sized;
    assert ModelName(data)[|sized|..] == TypeSuffix(data);
    if 4312 !in data && |ModelName(data)| >= 10 {
      assert ModelName(data)[8] == TypeSuffix(data)[0] == ' ';
      assert ModelName(data)[9] == TypeSuffix(data)[1] != '(';
    }
  }

  // ---------------------------------------------------------------------
  // The coordinator object
  // ---------------------------------------------------------------------

  class ClivetCoordinator {
    const client: Client
    const uniqueId: string
    var data: map<int, Word>
    var notified: nat

    constructor (client: Client, config: map<string, ConfigValue>)
      ensures this.client == client && uniqueId == BuildUniqueId(config)
      ensures data == map[] && notified == 0
    {
      this.client := client;
      uniqueId := BuildUniqueId(config);
      data := map[];
      notified := 0;
    }

    ghost function State(): CoordState
      reads this, client
    {
      CoordState(client.Snapshot(), data, notified)
    }

    method GetModbusRegister(address: int, count: nat) returns (f: Fetched)
      modifies client
      ensures (f, client.Snapshot()) == Fetch(client.device, old(client.Snapshot()), address, count)
    {
      if !client.connected {
        var connected := client.Connect();
        if !connected {
          return FetchFailed(Offline);
        }
      }
      var result := client.ReadHoldingRegisters(address, count);
      match result
      case ErrorResponse => f := NoValues;
      case Fault => f := FetchFailed(CommunicationFailure);
      case Registers(ws) => f := Values(ws);
    }

    method RetrieveMultipleValues(dataDict: map<int, Word>, address: int, count: nat)
      returns (m: map<int, Word>, raised: Option<Failure>)
      modifies client
      ensures var st := RetrieveRange(client.device, old(client.Snapshot()), dataDict, Range(address, count));
              && client.Snapshot() == st.link
              && (st.Continue? ==> raised == None && m == st.acc)
              && (st.Abort? ==> raised == Some(st.error))
    {
      m := dataDict;
      raised := None;
      var values := GetModbusRegister(address, count);
      match values
      case NoValues =>
      case FetchFailed(e) =>
        raised := Some(e);
      case Values(ws) =>
        for i := 0 to count
          invariant i <= |ws| && m == StoreRange(dataDict, address, ws, i)
        {
          if i == |ws| {
            raised := Some(IndexError);
            return;
          }
          m := m[address + i := ws[i]];
        }
    }

    method UpdateData() returns (r: PollResult)
      modifies client
      ensures (r, client.Snapshot()) == UpdateOutcome(client.device, old(client.Snapshot()))
    {
      ghost var dev := client.device;
      ghost var rest := PollRanges;
      var dataDict: map<int, Word> := map[];
      var raised: Option<Failure>;
      dataDict, raised := RetrieveMultipleValues(dataDict, 2600, 18);
      if raised.Some? {
        return PollFailed(UpdateError(raised.value));
      }
      assert UpdateOutcome(dev, old(client.Snapshot())) == PollCycle(dev, client.Snapshot(), rest[1..], dataDict);
      rest := rest[1..];
      dataDict, raised := RetrieveMultipleValues(dataDict, 2700, 12);
      if raised.Some? {
        return PollFailed(UpdateError(raised.value));
      }
      assert UpdateOutcome(dev, old(client.Snapshot())) == PollCycle(dev, client.Snapshot(), rest[1..], dataDict);
      rest := rest[1..];
      dataDict, raised := RetrieveMultipleValues(dataDict, 2800, 7);
      if raised.Some? {
        return PollFailed(UpdateError(raised.value));
      }
      assert UpdateOutcome(dev, old(client.Snapshot())) == PollCycle(dev, client.Snapshot(), rest[1..], dataDict);
      rest := rest[1..];
      dataDict, raised := RetrieveMultipleValues(dataDict, 3000, 6);
      if raised.Some? {
        return PollFailed(UpdateError(raised.value));
      }
      assert UpdateOutcome(dev, old(client.Snapshot())) == PollCycle(dev, client.Snapshot(), rest[1..], dataDict);
      rest := rest[1..];
      dataDict, raised := RetrieveMultipleValues(dataDict, 4200, 79);
      if raised.Some? {
        return PollFailed(UpdateError(raised.value));
      }
      assert UpdateOutcome(dev, old(client.Snapshot())) == PollCycle(dev, client.Snapshot(), rest[1..], dataDict);
      rest := rest[1..];
      dataDict, raised := RetrieveMultipleValues(dataDict, 4300, 19);
      if raised.Some? {
        return PollFailed(UpdateError(raised.value));
      }
      assert UpdateOutcome(dev, old(client.Snapshot())) == PollCycle(dev, client.Snapshot(), rest[1..], dataDict);
      rest := rest[1..];
      dataDict, raised := RetrieveMultipleValues(dataDict, 7000, 6);
      if raised.Some? {
        return PollFailed(UpdateError(raised.value));
      }
      assert rest[1..] == [];
      return Polled(dataDict);
    }

    method RefreshSingleAddress(address: int) returns (status: Status)
      modifies this, client
      ensures (status, State()) == RefreshOutcome(client.device, old(State()), address)
    {
      var result := GetModbusRegister(address, 1);
      if result.FetchFailed? {
        return Raised(result.error);
      }
      if result.Values? && |result.words| > 0 {
        data := data[address := result.words[0]];
      }
      notified := notified + 1;
      status := Ok;
    }

    method SetModbusRegister(address: int, value: int) returns (status: Status)
      modifies this, client
      ensures (status, State()) == RegisterWrite(client.device, old(State()), address, value)
    {
      if !client.connected {
        var connected := client.Connect();
        if !connected {
          return Raised(Offline);
        }
      }
      var result := client.WriteRegister(address, value);
      if result != Written {
        return Raised(CommunicationFailure);
      }
      status := RefreshSingleAddress(address);
    }

    method SetModbusBit(address: int, bit: nat, value: bool) returns (status: Status)
      modifies this, client
      ensures (status, State()) == BitWrite(client.device, old(State()), address, bit, value)
    {
      if !client.connected {
        var connected := client.Connect();
        if !connected {
          return Raised(Offline);
        }
      }
      var currentValue := GetModbusRegister(address, 1);
      if currentValue.FetchFailed? {
        return Raised(currentValue.error);
      }
      if currentValue.NoValues? {
        return Raised(CommunicationFailure);
      }
      if |currentValue.words| == 0 {
        return Raised(IndexError);
      }
      var newValue := SetBit(currentValue.words[0], bit, value);
      if newValue == currentValue.words[0] {
        return Ok;
      }
      var result := client.WriteRegister(address, newValue);
      if result != Written {
        return Raised(CommunicationFailure);
      }
      status := RefreshSingleAddress(address);
    }
  }
}
