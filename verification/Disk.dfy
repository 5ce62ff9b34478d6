/** The three-tier file of the simulated disk: application buffer, kernel buffer, durable bytes. */
module Disk {
  import opened LittleEndian

  datatype Tiers = Tiers(durable: Bytes, kernel: Bytes, buffer: Bytes) {
    /** Everything a reader sees. */
    function All(): (b: Bytes) { durable + kernel + buffer }

    predicate Synced() { kernel == [] && buffer == [] }

    function Write(b: Bytes): (t: Tiers) { Tiers(durable, kernel, buffer + b) }

    function Flush(): (t: Tiers) { Tiers(durable, kernel + buffer, []) }

    function Sync(): (t: Tiers) { Tiers(durable + (kernel + buffer), [], []) }

    /** A power loss: the durable bytes survive and, beyond the simulator, any number of the
        bytes written after them. `k == |durable|` is the simulator's own crash. */
    function Crash(k: nat): (t: Tiers)
      requires |durable| <= k <= |All()|
    {
      Tiers(All()[..k], [], [])
    }

    /** Bytes only move towards the disk: `p` of them durable, `q` out of the application. */
    function Advance(p: nat, q: nat): (t: Tiers)
      requires |durable| <= p <= q && |durable| + |kernel| <= q <= |All()|
    {
      Tiers(All()[..p], All()[p..q], All()[q..])
    }
  }

  /** No movement between tiers changes what is read or takes durable bytes back. */
  ghost predicate Advances(t: Tiers, t': Tiers) {
    t'.All() == t.All() && t.durable <= t'.durable
  }

  lemma FlushAdvances(t: Tiers)
    ensures t.Flush() == t.Advance(|t.durable|, |t.All()|)
    ensures Advances(t, t.Flush())
  {
    assert t.All()[|t.durable|..] == t.kernel + t.buffer;
    assert t.Flush().All() == t.durable + (t.kernel + t.buffer) + [] == t.All();
  }

  lemma SyncAdvances(t: Tiers)
    ensures t.Sync() == t.Advance(|t.All()|, |t.All()|)
    ensures Advances(t, t.Sync()) && t.Sync().Synced() && t.Sync().durable == t.All()
  {
    assert t.durable + (t.kernel + t.buffer) == t.All();
    assert t.Sync().All() == t.All();
  }

  lemma AdvanceAdvances(t: Tiers, p: nat, q: nat)
    requires |t.durable| <= p <= q && |t.durable| + |t.kernel| <= q <= |t.All()|
    ensures Advances(t, t.Advance(p, q))
  {
    assert t.All()[..p] + t.All()[p..q] + t.All()[q..] == t.All();
    assert t.durable == t.All()[..|t.durable|] <= t.All()[..p];
  }

  /** `SimFile`: the same file as an object whose tiers are moved in place. */
  class SimFile {
    var writeBuffer: Bytes
    var kernelBuffer: Bytes
    var durable: Bytes

    function View(): (t: Tiers)
      reads this
    {
      Tiers(durable, kernelBuffer, writeBuffer)
    }

    constructor ()
      ensures View() == Tiers([], [], [])
    {
      writeBuffer, kernelBuffer, durable := [], [], [];
    }

    method Append(b: Bytes)
      modifies this
      ensures View() == old(View()).Write(b)
      ensures View().All() == old(View().All()) + b
    {
      writeBuffer := writeBuffer + b;
      assert durable + kernelBuffer + writeBuffer == old(durable + kernelBuffer + writeBuffer) + b;
    }

    method Flush()
      modifies this
      ensures View() == old(View()).Flush()
      ensures Advances(old(View()), View()) && writeBuffer == []
    {
      FlushAdvances(View());
      kernelBuffer := kernelBuffer + writeBuffer;
      writeBuffer := [];
    }

    method Sync()
      modifies this
      ensures View() == old(View()).Sync()
      ensures Advances(old(View()), View()) && View().Synced() && durable == old(View().All())
    {
      SyncAdvances(View());
      Flush();
      durable := durable + kernelBuffer;
      kernelBuffer := [];
    }

    method Crash()
      modifies this
      ensures View() == old(View()).Crash(|old(durable)|)
      ensures View().All() == old(durable)
    {
      assert View().All()[..|durable|] == durable;
      writeBuffer := [];
      kernelBuffer := [];
    }

    method AllBytes() returns (out: Bytes)
      ensures out == View().All()
    {
      out := durable;
      out := out + kernelBuffer;
      out := out + writeBuffer;
    }

    method VisibleLen() returns (n: nat)
      ensures n == |View().All()|
    {
      n := |durable| + |kernelBuffer| + |writeBuffer|;
    }
  }
}
