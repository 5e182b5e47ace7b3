/**
 * The body of the polling timer of startListening: which block numbers one tick hands to
 * _manageBlock, and what it leaves in `lastBlock`.
 */
module Scheduler {
  import opened Wrappers

  /** `this.loopId`: null before and after a session, 'vm-listener' on the VM, or a timer. */
  datatype LoopId = NoLoop | VmListener | Interval(timer: nat)

  /** `!this.lastBlock`: null is falsy, and so is 0. */
  predicate Unset(lastBlock: Option<int>)
    ensures Unset(lastBlock) <==> lastBlock in {None, Some(0)}
  {
    lastBlock.None? || lastBlock.value == 0
  }

  /** The block numbers lo, lo + 1, ..., hi, in this order (empty when lo > hi). */
  function Range(lo: int, hi: int): (r: seq<int>)
    ensures |r| == if lo <= hi then hi - lo + 1 else 0
    ensures forall k :: 0 <= k < |r| ==> r[k] == lo + k
    decreases hi - lo
  {
    if lo > hi then [] else Range(lo, hi - 1) + [hi]
  }

  /**
   * Whether a tick has any effect: a polling session is active, getBlockNumber answered,
   * the tick belongs to the current session, and the height is new (or nothing was seen).
   */
  predicate Accepts(loopId: LoopId, lastBlock: Option<int>, captured: LoopId, height: Fetch<int>) {
    && loopId.Interval?
    && height.Fetched?
    && captured == loopId
    && (Unset(lastBlock) || height.value > lastBlock.value)
  }

  /** The first block an accepted tick dispatches: the one after `lastBlock`, or the height itself. */
  function FirstDispatched(lastBlock: Option<int>, blockNumber: int): int {
    if Unset(lastBlock) then blockNumber else lastBlock.value + 1
  }

  /** `lastBlock` after a tick, and the block numbers the tick handed to _manageBlock. */
  datatype TickResult = TickResult(lastBlock: Option<int>, dispatched: seq<int>)

  /**
   * One tick, as a specification. `loopId` is the session when getBlockNumber answers,
   * `captured` the session when the timer fired, `height` getBlockNumber's answer.
   */
  function TickSpec(loopId: LoopId, lastBlock: Option<int>, captured: LoopId, height: Fetch<int>): (r: TickResult)
    ensures !Accepts(loopId, lastBlock, captured, height) ==> r == TickResult(lastBlock, [])
    ensures Accepts(loopId, lastBlock, captured, height) && !Unset(lastBlock) ==>
              && r.lastBlock == Some(height.value)
              && |r.dispatched| == height.value - lastBlock.value
              && forall k :: 0 <= k < |r.dispatched| ==> r.dispatched[k] == lastBlock.value + 1 + k
    ensures Accepts(loopId, lastBlock, captured, height) && Unset(lastBlock) ==>
              r == TickResult(Some(height.value), [height.value])
  {
    if Accepts(loopId, lastBlock, captured, height) then
      TickResult(Some(height.value), Range(FirstDispatched(lastBlock, height.value), height.value))
    else
      TickResult(lastBlock, [])
  }

  /** A tick hands each block to _manageBlock at most once, in increasing order, all above `lastBlock`. */
  lemma TickDispatchesIncreasing(loopId: LoopId, lastBlock: Option<int>, captured: LoopId, height: Fetch<int>)
    ensures var r := TickSpec(loopId, lastBlock, captured, height);
            && (forall i, j :: 0 <= i < j < |r.dispatched| ==> r.dispatched[i] < r.dispatched[j])
            && (forall i :: 0 <= i < |r.dispatched| ==> r.dispatched[i] <= height.value)
            && (!Unset(lastBlock) ==> forall i :: 0 <= i < |r.dispatched| ==> r.dispatched[i] > lastBlock.value)
  {
    if Accepts(loopId, lastBlock, captured, height) {
      var lo := FirstDispatched(lastBlock, height.value);
      var d := Range(lo, height.value);
      assert forall i :: 0 <= i < |d| ==> d[i] == lo + i && lo + i <= height.value;
      assert TickSpec(loopId, lastBlock, captured, height).dispatched == d;
    }
  }

  /** Consecutive ranges join into one. */
  lemma RangeJoin(a: int, b: int, c: int)
    requires a <= b <= c + 1
    ensures Range(a, b - 1) + Range(b, c) == Range(a, c)
  {
    var left, right := Range(a, b - 1), Range(b, c);
    assert forall k :: 0 <= k < |left + right| ==> (left + right)[k] == Range(a, c)[k] by {
      forall k | 0 <= k < |left + right| ensures (left + right)[k] == a + k {
        if k >= |left| {
          assert (left + right)[k] == right[k - |left|];
        }
      }
    }
  }

  /** A polling session of ticks that all belong to it, on the answers `heights`, from `lastBlock`. */
  function RunSession(timer: nat, lastBlock: Option<int>, heights: seq<Fetch<int>>): TickResult
    decreases |heights|
  {
    if heights == [] then TickResult(lastBlock, [])
    else
      var first := TickSpec(Interval(timer), lastBlock, Interval(timer), heights[0]);
      var rest := RunSession(timer, first.lastBlock, heights[1..]);
      TickResult(rest.lastBlock, first.dispatched + rest.dispatched)
  }

  /** From a `lastBlock` above 0, one tick dispatches exactly the blocks up to the `lastBlock` it leaves. */
  lemma TickFromSetBlock(timer: nat, last: int, height: Fetch<int>)
    requires last >= 1
    ensures DispatchesAfter(last, TickSpec(Interval(timer), Some(last), Interval(timer), height))
  {
    if !Accepts(Interval(timer), Some(last), Interval(timer), height) {
      assert Range(last + 1, last) == [];
    }
  }

  /** What a session from `last` dispatches: exactly the blocks after `last`, up to the `lastBlock` it leaves. */
  ghost predicate DispatchesAfter(last: int, r: TickResult) {
    r.lastBlock.Some? && r.lastBlock.value >= last && r.dispatched == Range(last + 1, r.lastBlock.value)
  }

  /** One tick followed by the rest of a session, each dispatching the blocks after where it started. */
  lemma JoinSession(last: int, first: TickResult, rest: TickResult)
    requires DispatchesAfter(last, first) && DispatchesAfter(first.lastBlock.value, rest)
    ensures DispatchesAfter(last, TickResult(rest.lastBlock, first.dispatched + rest.dispatched))
  {
    RangeJoin(last + 1, first.lastBlock.value + 1, rest.lastBlock.value);
  }

  /**
   * Once a session has seen a block above 0, its ticks together dispatch every later block
   * exactly once, in increasing order, up to the height seen last: none is skipped or repeated.
   */
  lemma {:induction false} SessionDispatchesEachBlockOnce(timer: nat, last: int, heights: seq<Fetch<int>>)
    requires last >= 1
    ensures DispatchesAfter(last, RunSession(timer, Some(last), heights))
    decreases |heights|
  {
    if heights == [] {
      assert Range(last + 1, last) == [];
    } else {
      var first := TickSpec(Interval(timer), Some(last), Interval(timer), heights[0]);
      TickFromSetBlock(timer, last, heights[0]);
      SessionDispatchesEachBlockOnce(timer, first.lastBlock.value, heights[1..]);
      JoinSession(last, first, RunSession(timer, first.lastBlock, heights[1..]));
    }
  }

  /**
   * A session right after startListening (`lastBlock` null) whose first tick sees a height h >= 1
   * dispatches exactly h, h + 1, ..., up to the height seen last.
   */
  lemma SessionFromReset(timer: nat, h: int, heights: seq<Fetch<int>>)
    requires h >= 1
    ensures var r := RunSession(timer, None, [Fetched(h)] + heights);
            r.lastBlock.Some? && r.lastBlock.value >= h && r.dispatched == Range(h, r.lastBlock.value)
  {
    assert ([Fetched(h)] + heights)[1..] == heights;
    var first := TickSpec(Interval(timer), None, Interval(timer), Fetched(h));
    assert first == TickResult(Some(h), [h]);
    SessionDispatchesEachBlockOnce(timer, h, heights);
    var rest := RunSession(timer, Some(h), heights);
    assert Range(h, h) == [h];
    RangeJoin(h, h + 1, rest.lastBlock.value);
  }

  /**
   * A `lastBlock` of 0 counts as unset: from height 0 a jump to height h > 1 dispatches h alone,
   * and blocks 1 .. h - 1 are never dispatched.
   */
  lemma ZeroLastBlockDispatchesOnlyHeight(timer: nat, h: int)
    requires h > 1
    ensures TickSpec(Interval(timer), Some(0), Interval(timer), Fetched(h)) == TickResult(Some(h), [h])
    ensures forall b :: 1 <= b < h ==> b !in TickSpec(Interval(timer), Some(0), Interval(timer), Fetched(h)).dispatched
  {
  }

  /** For the same reason, while the height stays 0 every tick dispatches block 0 again. */
  lemma HeightZeroDispatchedEveryTick(timer: nat, lastBlock: Option<int>)
    requires lastBlock == None || lastBlock == Some(0)
    ensures TickSpec(Interval(timer), lastBlock, Interval(timer), Fetched(0)) == TickResult(Some(0), [0])
  {
  }
}
