/** The memory budget shared by every event queue of the agent. */
module MemoryMonitor {
  import opened Common

  const DEFAULT_MAX_LOCAL_CACHE_SIZE: u32 := 10 * 1024 * 1024

  datatype MonitorResult = MonitorOk | MemoryExceeded | InvalidReleaseSize | MonitorException

  /** The monitor's two counters, and the largest limit that was ever in force. */
  datatype Budget = Budget(consumption: u32, limit: u32, peak: u32)

  function Max(a: u32, b: u32): u32 {
    if a < b then b else a
  }

  /** One request for `size` bytes while the twin answers with `limit` (None: the twin getter failed). */
  function Consumed(b: Budget, size: u32, limit: Option<u32>): (Budget, MonitorResult) {
    match limit
    case None => (b, MonitorException)
    case Some(l) =>
      var b' := b.(limit := l, peak := Max(b.peak, l));
      if Wrap(b.consumption + size) > l then (b', MemoryExceeded)
      else (b'.(consumption := Wrap(b.consumption + size)), MonitorOk)
  }

  /** One release of `size` bytes. */
  function Released(b: Budget, size: u32): (Budget, MonitorResult) {
    if size > b.consumption then (b, InvalidReleaseSize)
    else (b.(consumption := b.consumption - size), MonitorOk)
  }

  /** A granted request never leaves the monitor above the limit it was granted under. */
  lemma GrantedWithinLimit(b: Budget, size: u32, limit: Option<u32>)
    ensures Consumed(b, size, limit).1.MonitorOk? ==>
              Consumed(b, size, limit).0.consumption <= Consumed(b, size, limit).0.limit
    ensures b.consumption <= b.peak ==>
              Consumed(b, size, limit).0.consumption <= Consumed(b, size, limit).0.peak
  {
  }

  /** The monitor as the program holds it: two static counters updated in place. */
  class Monitor {
    var currentConsumptionInBytes: u32
    var memoryLimitInBytes: u32
    ghost var peakLimit: u32

    ghost function Value(): Budget
      reads this
    {
      Budget(currentConsumptionInBytes, memoryLimitInBytes, peakLimit)
    }

    constructor ()
      ensures Value() == Budget(0, DEFAULT_MAX_LOCAL_CACHE_SIZE, DEFAULT_MAX_LOCAL_CACHE_SIZE)
    {
      memoryLimitInBytes := DEFAULT_MAX_LOCAL_CACHE_SIZE;
      currentConsumptionInBytes := 0;
      peakLimit := DEFAULT_MAX_LOCAL_CACHE_SIZE;
    }

    method Consume(size: u32, twinLimit: Option<u32>) returns (result: MonitorResult)
      modifies this
      ensures (Value(), result) == Consumed(old(Value()), size, twinLimit)
      ensures var needed := (old(currentConsumptionInBytes) + size) % 0x1_0000_0000;
              && (result == MonitorOk <==> twinLimit.Some? && needed <= twinLimit.value)
              && (result == MemoryExceeded <==> twinLimit.Some? && needed > twinLimit.value)
              && currentConsumptionInBytes == (if result == MonitorOk then needed else old(currentConsumptionInBytes))
              && memoryLimitInBytes == twinLimit.GetOr(old(memoryLimitInBytes))
    {
      if twinLimit.None? {
        return MonitorException;
      }
      memoryLimitInBytes := twinLimit.value;
      peakLimit := Max(peakLimit, memoryLimitInBytes);
      if Wrap(currentConsumptionInBytes + size) > memoryLimitInBytes {
        return MemoryExceeded;
      }
      currentConsumptionInBytes := Wrap(currentConsumptionInBytes + size);
      return MonitorOk;
    }

    method Release(size: u32) returns (result: MonitorResult)
      modifies this
      ensures (Value(), result) == Released(old(Value()), size)
      ensures result == MonitorOk <==> size <= old(currentConsumptionInBytes)
      ensures currentConsumptionInBytes
              == old(currentConsumptionInBytes) - if result == MonitorOk then size else 0
    {
      if size > currentConsumptionInBytes {
        return InvalidReleaseSize;
      }
      currentConsumptionInBytes := currentConsumptionInBytes - size;
      return MonitorOk;
    }

    method CurrentConsumption() returns (sizeInBytes: u32)
      ensures sizeInBytes == currentConsumptionInBytes
    {
      sizeInBytes := currentConsumptionInBytes;
    }
  }
}
