/** The native library's table of running tunnels, keyed by small integer handles. */
module HandleTable {
  import opened Wrappers

  const MAX_INT32: nat := 0x7fff_ffff

  /** The least handle not in `used`, or MAX_INT32 when every smaller one is taken. */
  function LeastUnused(used: set<int>, start: nat := 0): (h: nat)
    requires start <= MAX_INT32
    ensures start <= h <= MAX_INT32
    ensures h < MAX_INT32 ==> h !in used
    ensures forall k :: start <= k < h ==> k in used
    decreases MAX_INT32 - start
  {
    if start == MAX_INT32 || start !in used then start else LeastUnused(used, start + 1)
  }

  /** A table with room left always yields a handle, and never one above the number of live tunnels. */
  lemma LeastUnusedIsSmall(used: set<int>)
    requires |used| < 2147483647
    ensures LeastUnused(used) <= |used|
    ensures LeastUnused(used) !in used
  {
    InitialSegment(used, LeastUnused(used));
  }

  lemma {:induction false} InitialSegment(used: set<int>, h: nat)
    requires forall k :: 0 <= k < h ==> k in used
    ensures h <= |used|
  {
    if h > 0 {
      InitialSegment(used - {h - 1}, h - 1);
    }
  }

  /** `tunnelHandles` with the two calls that change it. A device is any value of type `T`. */
  class NativeTable<T> {
    var tunnelHandles: map<int, T>

    constructor ()
      ensures tunnelHandles == map[]
    {
      tunnelHandles := map[];
    }

    /**
     * awgTurnOn. `device` is None when creating, configuring or starting the device failed.
     * The handle is the least one free, and a full table refuses the tunnel.
     */
    method TurnOn(device: Option<T>) returns (handle: int)
      modifies this
      ensures handle == -1 <==> device.None? || LeastUnused(old(tunnelHandles).Keys) == 2147483647
      ensures handle == -1 ==> tunnelHandles == old(tunnelHandles)
      ensures handle != -1 ==> handle == LeastUnused(old(tunnelHandles).Keys)
      ensures handle != -1 ==> tunnelHandles == old(tunnelHandles)[handle := device.value]
      ensures handle != -1 ==> handle !in old(tunnelHandles) && forall k :: 0 <= k < handle ==> k in old(tunnelHandles)
    {
      if device.None? {
        return -1;
      }
      var i := 0;
      while i < MAX_INT32
        invariant 0 <= i <= MAX_INT32
        invariant LeastUnused(tunnelHandles.Keys) == LeastUnused(tunnelHandles.Keys, i)
      {
        if i !in tunnelHandles {
          break;
        }
        i := i + 1;
      }
      if i == MAX_INT32 {
        return -1;
      }
      tunnelHandles := tunnelHandles[i := device.value];
      return i;
    }

    /** awgTurnOff. An unknown handle is ignored; `closed` is the device that was shut down. */
    method TurnOff(handle: int) returns (closed: Option<T>)
      modifies this
      ensures closed == if handle in old(tunnelHandles) then Some(old(tunnelHandles)[handle]) else None
      ensures tunnelHandles == old(tunnelHandles) - {handle}
    {
      if handle !in tunnelHandles {
        return None;
      }
      closed := Some(tunnelHandles[handle]);
      tunnelHandles := tunnelHandles - {handle};
    }
  }
}
