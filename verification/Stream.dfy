/** The stream receiver: `poll_next` over the channel, with the answers of the timer, the notifier
    and the shutdown signal as arguments. */
module Stream {
  import opened RingRun
  import opened Channel

  datatype Poll = Pending | Ready(item: Tagged) | Finished

  /** Rings `mark` were drained to what the drain's loads showed; with prompt loads that is at least
      all that had been committed when the drain began. */
  ghost predicate Covered(mark: seq<seq<Item>>, shown: seq<nat>, heads: seq<nat>, prompt: bool) {
    && |mark| <= |shown| && |mark| <= |heads|
    && forall i :: 0 <= i < |mark| ==> shown[i] <= heads[i] && (prompt ==> |mark[i]| <= shown[i])
  }

  lemma CoveredLater(mark: seq<seq<Item>>, shown: seq<nat>, h1: seq<nat>, h2: seq<nat>, committed: seq<seq<Item>>,
      prompt: bool)
    requires Covered(mark, shown, h1, prompt) && Advances(h1, h2, committed)
    ensures Covered(mark, shown, h2, prompt)
  {
    forall i | 0 <= i < |mark| ensures shown[i] <= h2[i] { assert HeadOf(h1, i) <= h2[i]; }
  }

  /** Everything that a full drain's loads showed has been yielded, and with prompt loads everything
      that had been committed when the drain began. */
  ghost predicate AllYielded(mark: seq<seq<Item>>, shown: seq<nat>, yielded: seq<Tagged>, prompt: bool) {
    |mark| <= |shown| && forall i :: 0 <= i < |mark| ==>
      shown[i] <= |From(i, yielded)| && (prompt ==> mark[i] <= From(i, yielded))
  }

  lemma FinishedMeansYielded(mark: seq<seq<Item>>, shown: seq<nat>, yielded: seq<Tagged>, heads: seq<nat>,
      committed: seq<seq<Item>>, prompt: bool)
    requires Covered(mark, shown, heads, prompt) && Grows(mark, committed) && Delivers(yielded, [], heads, committed)
    ensures AllYielded(mark, shown, yielded, prompt)
  {
    forall i | 0 <= i < |mark| ensures shown[i] <= |From(i, yielded)| && (prompt ==> mark[i] <= From(i, yielded)) {
      DeliveredIsPrefix(yielded, heads, committed, i);
      if prompt {
        assert mark[i] == committed[i][..|mark[i]|];
        assert mark[i] == committed[i][..heads[i]][..|mark[i]|];
      }
    }
  }

  class RingReceiver {
    const channel: MpscChannel
    const batchHint: nat
    var buffer: seq<Tagged>
    var dataPending: bool
    var drainComplete: bool
    /** Whether `shutdown_rx` is still there. */
    var listening: bool
    /** Everything returned by the stream so far. */
    ghost var yielded: seq<Tagged>
    /** How often the channel has been drained. */
    ghost var drains: nat
    /** What was committed when the last full drain began, and what its loads showed. */
    ghost var mark: seq<seq<Item>>
    ghost var shown: seq<nat>

    /** Conservation: per producer, what was yielded and what is buffered is the part of its
        committed items before its ring's head. */
    ghost predicate Valid()
      reads this, channel
    {
      && channel.Valid() && channel.Quiet() && Delivers(yielded + buffer, [], channel.heads, channel.committed)
      && (drainComplete ==> Covered(mark, shown, channel.heads, channel.prompt) && Grows(mark, channel.committed))
    }

    constructor (channel: MpscChannel, batchHint: nat)
      requires channel.Valid() && channel.Quiet() && forall i :: 0 <= i < |channel.heads| ==> channel.heads[i] == 0
      ensures Valid() && this.channel == channel && this.batchHint == batchHint
      ensures buffer == [] && yielded == [] && !dataPending && !drainComplete && listening
    {
      this.channel, this.batchHint := channel, batchHint;
      buffer, yielded, mark, shown, drains := [], [], [], [], 0;
      dataPending, drainComplete, listening := false, false, true;
      new;
      DeliversNothing([], channel.heads, channel.committed);
      assert yielded + buffer == [];
    }

    /** Some ring holds an item that its next load must show. */
    ghost predicate DataWaiting()
      reads this, channel
    {
      Waiting(channel.committed, channel.heads, channel.seen, channel.prompt)
    }

    /** Draining the channel into the empty buffer. */
    method Drain(limit: Limit)
      requires Valid() && buffer == []
      modifies this`buffer, this`drains, channel
      ensures Valid() && Grows(old(channel.committed), channel.committed)
      ensures limit.UpTo? ==> |buffer| <= limit.max
      ensures AllEmpty(old(channel.committed), channel.heads, channel.seen, channel.prompt)
        || (limit.UpTo? && |buffer| == limit.max)
      ensures limit != UpTo(0) && old(DataWaiting()) ==> buffer != []
      ensures InTurn(buffer, old(channel.committed), channel.heads, channel.seen, channel.prompt)
      ensures drains == old(drains) + 1
    {
      ghost var h, c := channel.heads, channel.committed;
      var out := channel.ConsumeAll(limit);
      DeliversMore(yielded + buffer, out, [], h, channel.heads, c, channel.committed);
      assert yielded + buffer + out == yielded + out;
      if drainComplete { CoveredLater(mark, shown, h, channel.heads, channel.committed, channel.prompt); }
      buffer, drains := out, drains + 1;
    }

    /** The drains that are bounded by `batch_hint`. */
    method DrainHint()
      requires Valid() && buffer == []
      modifies this`buffer, this`drains, channel
      ensures Valid() && Grows(old(channel.committed), channel.committed) && |buffer| <= batchHint
      ensures buffer == [] && batchHint >= 1 ==>
        AllEmpty(old(channel.committed), channel.heads, channel.seen, channel.prompt)
      ensures if batchHint == 0 then unchanged(channel) else old(DataWaiting()) ==> buffer != []
      ensures drains == old(drains) + (if batchHint == 0 then 0 else 1)
    {
      if batchHint > 0 { Drain(UpTo(batchHint)); }
    }

    /** A drain without bound, remembered as the last full one. */
    method DrainFully()
      requires Valid() && buffer == [] && !drainComplete
      modifies this`buffer, this`drains, this`mark, this`shown, channel
      ensures Valid() && Grows(old(channel.committed), channel.committed)
      ensures mark == old(channel.committed) && Covered(mark, shown, channel.heads, channel.prompt)
      ensures old(DataWaiting()) ==> buffer != []
    {
      ghost var c := channel.committed;
      Drain(All);
      mark, shown := c, channel.seen;
      forall i | 0 <= i < |mark| ensures shown[i] <= channel.heads[i] && (channel.prompt ==> |mark[i]| <= shown[i]) {
        assert EmptyAt(i, c, channel.heads, channel.seen, channel.prompt);
      }
    }

    /** `buffer.pop_front()` and return it. */
    method Pop() returns (p: Poll)
      requires Valid() && buffer != []
      modifies this`buffer, this`yielded
      ensures Valid() && p.Ready? && yielded == old(yielded) + [p.item] && [p.item] + buffer == old(buffer)
    {
      p := Ready(buffer[0]);
      assert yielded + buffer == (yielded + [buffer[0]]) + buffer[1..];
      yielded, buffer := yielded + [buffer[0]], buffer[1..];
    }

    lemma Done()
      requires Valid() && buffer == [] && Covered(mark, shown, channel.heads, channel.prompt)
        && Grows(mark, channel.committed)
      ensures AllYielded(mark, shown, yielded, channel.prompt)
    {
      assert yielded + buffer == yielded;
      FinishedMeansYielded(mark, shown, yielded, channel.heads, channel.committed, channel.prompt);
    }

    /** `poll_next`. `signalled`: the shutdown channel is ready; `notified`: the data notification
        is ready; `ticks`: how many timer ticks have elapsed; `closed`: the shutdown state.
        `woke` tells whether the call woke its own task, `registered` what had been committed when it
        registered for the data notification (or returned before that). */
    method PollNext(signalled: bool, notified: bool, ticks: nat, closed: bool)
      returns (p: Poll, woke: bool, ghost registered: seq<seq<Item>>)
      requires Valid()
      modifies this, channel
      ensures Valid() && Grows(old(channel.committed), channel.committed)
      ensures yielded == if p.Ready? then old(yielded) + [p.item] else old(yielded)
      ensures p.Finished? ==> buffer == [] && AllYielded(mark, shown, yielded, channel.prompt)
      ensures p.Finished? ==> old(drainComplete) || Grows(old(channel.committed), mark)
      ensures Grows(old(channel.committed), registered) && Grows(registered, channel.committed)
      ensures p.Pending? && batchHint >= 1 ==>
        (woke && dataPending) || AllEmpty(registered, channel.heads, channel.seen, channel.prompt)
      ensures old(buffer) != [] ==>
        p == Ready(old(buffer)[0]) && buffer == old(buffer)[1..] && unchanged(channel) && unchanged(this`dataPending)
      ensures old(buffer) == [] && old(drainComplete) ==> p.Finished?
      ensures old(listening) && signalled ==> !p.Pending?
      ensures drainComplete == (old(drainComplete) || (old(buffer) == [] && old(listening) && signalled))
      ensures listening == (old(listening) && (old(buffer) != [] || old(drainComplete) || !signalled))
      ensures woke ==> notified && p.Pending? && dataPending
      ensures p.Pending? && !woke ==> !notified && !closed && !dataPending
      ensures p.Finished? ==> old(drainComplete) || (old(listening) && signalled) || (closed && !notified)
      ensures old(DataWaiting()) && !old(drainComplete) && old(listening) && signalled ==> p.Ready?
      ensures old(DataWaiting()) && !old(drainComplete) && batchHint >= 1 && (old(dataPending) || !notified) ==>
        p.Ready?
      ensures p.Pending? && !woke && batchHint >= 1 ==>
        drains == old(drains) + (if old(dataPending) then 2 else 1) + ticks
    {
      woke, registered := false, channel.committed;
      if buffer != [] {
        p := Pop();
        return;
      }
      if drainComplete {
        Done();
        return Finished, false, registered;
      }
      if listening && signalled {
        listening := false;
        DrainFully();
        drainComplete := true;
        if buffer != [] {
          p := Pop();
        } else {
          Done();
          p := Finished;
        }
        return;
      }
      p, woke, registered := PollData(notified, ticks, closed);
    }

    /** `poll_next` when neither buffered items nor a shutdown signal are there. */
    method PollData(notified: bool, ticks: nat, closed: bool)
        returns (p: Poll, woke: bool, ghost registered: seq<seq<Item>>)
      requires Valid() && buffer == [] && !drainComplete
      modifies this`buffer, this`drains, this`yielded, this`mark, this`shown, this`dataPending, channel
      ensures Valid() && Grows(old(channel.committed), channel.committed)
      ensures yielded == if p.Ready? then old(yielded) + [p.item] else old(yielded)
      ensures p.Finished? ==>
        buffer == [] && AllYielded(mark, shown, yielded, channel.prompt) && Grows(old(channel.committed), mark)
      ensures Grows(old(channel.committed), registered) && Grows(registered, channel.committed)
      ensures p.Pending? && batchHint >= 1 ==>
        (woke && dataPending) || AllEmpty(registered, channel.heads, channel.seen, channel.prompt)
      ensures woke == dataPending && (woke ==> notified && p.Pending?)
      ensures !woke ==> p.Ready? || (!notified && p.Finished? == closed)
      ensures old(DataWaiting()) && batchHint >= 1 && (old(dataPending) || !notified) ==> p.Ready?
      ensures p.Pending? && !woke && batchHint >= 1 ==>
        drains == old(drains) + (if old(dataPending) then 2 else 1) + ticks
    {
      woke := false;
      if dataPending {
        dataPending := false;
        DrainHint();
      }
      registered := channel.committed;
      if buffer != [] {
        p := Pop();
        return;
      }
      if notified {
        dataPending := true;
        return Pending, true, registered;
      }
      p := PollTail(ticks, closed);
    }

    /** The rest of `poll_next`, after the registration for the data notification. */
    method PollTail(ticks: nat, closed: bool) returns (p: Poll)
      requires Valid() && buffer == [] && !drainComplete
      modifies this`buffer, this`drains, this`yielded, this`mark, this`shown, channel
      ensures Valid() && Grows(old(channel.committed), channel.committed)
      ensures yielded == if p.Ready? then old(yielded) + [p.item] else old(yielded)
      ensures p.Finished? ==>
        buffer == [] && AllYielded(mark, shown, yielded, channel.prompt) && Grows(old(channel.committed), mark)
      ensures p.Pending? && batchHint >= 1 ==>
        AllEmpty(old(channel.committed), channel.heads, channel.seen, channel.prompt)
      ensures p.Ready? || p.Finished? == closed
      ensures old(DataWaiting()) && (batchHint >= 1 || closed) ==> p.Ready?
      ensures p.Pending? && batchHint >= 1 ==> drains == old(drains) + 1 + ticks
    {
      ghost var c0 := channel.committed;
      DrainHint();
      if buffer != [] {
        p := Pop();
        return;
      }
      var left := ticks;
      while left > 0
        invariant Valid() && buffer == [] && !drainComplete && yielded == old(yielded) && Grows(c0, channel.committed)
        invariant batchHint >= 1 ==> AllEmpty(c0, channel.heads, channel.seen, channel.prompt)
        invariant old(DataWaiting()) ==> batchHint == 0 && DataWaiting()
        invariant batchHint >= 1 ==> drains == old(drains) + 1 + (ticks - left)
      {
        ghost var c1 := channel.committed;
        DrainHint();
        if buffer != [] {
          p := Pop();
          return;
        }
        if batchHint >= 1 { EmptyEarlier(c0, c1, channel.heads, channel.seen, channel.prompt); }
        left := left - 1;
      }
      if closed {
        DrainFully();
        if buffer != [] {
          p := Pop();
        } else {
          Done();
          p := Finished;
        }
        return;
      }
      p := Pending;
    }
  }
}
