/**
 * Vulkan physical-device selection: the score of a device, the choice of the
 * best-scoring device, the queue families the renderer asks for and the array
 * of their indices.
 *
 * Driver queries are inputs: a device is its `VkPhysicalDeviceType` value and a
 * queue family is its `VkQueueFlags` bits (as the set of bit positions) together
 * with the surface-support answer for it. Constants are those of the Vulkan
 * specification (`VK_PHYSICAL_DEVICE_TYPE_DISCRETE_GPU` is 2, `VK_QUEUE_GRAPHICS_BIT`
 * is bit 0 and `VK_QUEUE_TRANSFER_BIT` bit 2).
 */
module VkPhysicalDevice {
  import opened Settings

  const DISCRETE_GPU: nat := 2
  const GRAPHICS_BIT: nat := 0
  const TRANSFER_BIT: nat := 2

  /** `physical_device_score`. */
  function Score(deviceType: nat): (r: nat)
    ensures r == 1000 <==> deviceType == DISCRETE_GPU
    ensures r == 0 <==> deviceType != DISCRETE_GPU
  {
    var score := 0;
    if deviceType == DISCRETE_GPU then score + 1000 else score
  }

  /** A finite non-empty set of naturals has a greatest element. */
  lemma {:induction false} GreatestExists(s: set<nat>)
    requires s != {}
    ensures exists m :: m in s && forall k :: k in s ==> k <= m
    decreases |s|
  {
    var x :| x in s;
    if s != {x} {
      var t := s - {x};
      GreatestExists(t);
      var m :| m in t && forall k :: k in t ==> k <= m;
      var g := if x <= m then m else x;
      forall k | k in s
        ensures k <= g
      {
        if k != x {
          assert k in t;
        }
      }
    }
  }

  /** Device `n` scores highest among `devices` and no later device scores as high. */
  ghost predicate LastBest(devices: seq<nat>, n: nat) {
    n < |devices|
    && (forall m :: 0 <= m < |devices| ==> Score(devices[m]) <= Score(devices[n]))
    && (forall m :: n < m < |devices| ==> Score(devices[m]) < Score(devices[n]))
  }

  /** `create`: record each device's index under its score, a later device replacing
    * an earlier one with the same score, then take the entry of the greatest score;
    * `None` where the source panics on an empty device list. */
  method Create(devices: seq<nat>) returns (r: Option<nat>)
    ensures r.Some? <==> |devices| > 0
    ensures r.Some? ==> LastBest(devices, r.value)
  {
    var scores: map<nat, nat> := map[];
    for n := 0 to |devices|
      invariant forall m :: 0 <= m < n ==> Score(devices[m]) in scores
      invariant forall sc :: sc in scores ==>
        scores[sc] < n && Score(devices[scores[sc]]) == sc
        && forall m :: scores[sc] < m < n ==> Score(devices[m]) != sc
    {
      scores := scores[Score(devices[n]) := n];
    }
    assert |devices| > 0 ==> Score(devices[0]) in scores;
    if scores == map[] {
      return None;
    }
    GreatestExists(scores.Keys);
    var top :| top in scores && forall k :: k in scores ==> k <= top;
    var n := scores[top];
    forall m | n < m < |devices|
      ensures Score(devices[m]) < Score(devices[n])
    {
      assert Score(devices[m]) in scores;
    }
    r := Some(n);
  }

  /** A device that is not the chosen one either scores lower, or scores the same and
    * comes earlier; with a discrete GPU present, a discrete GPU is chosen. */
  lemma LastBestChoice(devices: seq<nat>, n: nat, m: nat)
    requires LastBest(devices, n) && m < |devices| && m != n
    ensures Score(devices[m]) < Score(devices[n]) || (Score(devices[m]) == Score(devices[n]) && m < n)
    ensures devices[m] == DISCRETE_GPU ==> devices[n] == DISCRETE_GPU
  {
  }

  /** A queue family: its `VkQueueFlags` bits and whether it can present to the
    * surface. */
  datatype Family = Family(flags: set<nat>, present: bool)

  predicate Graphics(f: Family) { GRAPHICS_BIT in f.flags }
  predicate Transfer(f: Family) { TRANSFER_BIT in f.flags }

  /** A family the loop makes the transfer family: one with `TRANSFER`, or one
    * that can present. */
  predicate Serving(f: Family) { Transfer(f) || f.present }

  /** The last of the first `k` families that is `Serving`. */
  function LastServing(fs: seq<Family>, k: nat): (r: Option<nat>)
    requires k <= |fs|
    ensures r.Some? ==>
      r.value < k && Serving(fs[r.value]) && forall j :: r.value < j < k ==> !Serving(fs[j])
    ensures r.None? ==> forall j :: 0 <= j < k ==> !Serving(fs[j])
  {
    if k == 0 then None else if Serving(fs[k - 1]) then Some(k - 1) else LastServing(fs, k - 1)
  }

  /** The last of the first `k` families with `GRAPHICS` and without `TRANSFER`. */
  function LastGraphicsOnly(fs: seq<Family>, k: nat): (r: Option<nat>)
    requires k <= |fs|
    ensures r.Some? ==>
      r.value < k && Graphics(fs[r.value]) && !Transfer(fs[r.value])
      && forall j :: r.value < j < k ==> !(Graphics(fs[j]) && !Transfer(fs[j]))
    ensures r.None? ==> forall j :: 0 <= j < k ==> !(Graphics(fs[j]) && !Transfer(fs[j]))
  {
    if k == 0 then None
    else if Graphics(fs[k - 1]) && !Transfer(fs[k - 1]) then Some(k - 1)
    else LastGraphicsOnly(fs, k - 1)
  }

  /** `QueueFamilyIndices`. */
  datatype Queues = Queues(graphics: nat, present: nat, transfer: nat)

  /** `get_queue_families`. For each family in order: `TRANSFER` makes it the transfer
    * family; `GRAPHICS` makes it the graphics family unless it is now the transfer
    * family; surface support makes it the transfer family unless it already is.
    * Afterwards a missing graphics family falls back to the transfer family, and the
    * present family, which the loop never sets, takes the transfer family too.
    * `None` is the source's `Err(())`. */
  method GetQueueFamilies(fs: seq<Family>) returns (r: Option<Queues>)
    ensures r.Some? <==> exists i :: 0 <= i < |fs| && Serving(fs[i])
    ensures r.Some? ==> r.value.transfer == LastServing(fs, |fs|).value
    ensures r.Some? ==>
      r.value.graphics == if LastGraphicsOnly(fs, |fs|).Some? then LastGraphicsOnly(fs, |fs|).value else r.value.transfer
    ensures r.Some? ==> r.value.present == r.value.transfer
  {
    var present: Option<nat> := None;
    var graphics: Option<nat> := None;
    var transfer: Option<nat> := None;
    for i := 0 to |fs|
      invariant transfer == LastServing(fs, i)
      invariant graphics == LastGraphicsOnly(fs, i)
      invariant present == None
    {
      var f := fs[i];
      if Transfer(f) {
        transfer := Some(i);
      }
      if Graphics(f) && Some(i) != transfer {
        graphics := Some(i);
      }
      if f.present && Some(i) != transfer {
        transfer := Some(i);
      }
    }
    if graphics.None? && transfer.Some? {
      graphics := transfer;
    }
    if present.None? && transfer.Some? {
      present := transfer;
    }
    if graphics.Some? && present.Some? && transfer.Some? {
      r := Some(Queues(graphics.value, present.value, transfer.value));
    } else {
      r := None;
    }
  }

  /** The families a successful lookup names: the transfer and present family supports
    * `TRANSFER` or can present, and the graphics family supports `GRAPHICS` or is the
    * transfer family. */
  lemma QueuesServe(fs: seq<Family>, q: Queues)
    requires LastServing(fs, |fs|) == Some(q.transfer) && q.present == q.transfer
    requires q.graphics == if LastGraphicsOnly(fs, |fs|).Some? then LastGraphicsOnly(fs, |fs|).value else q.transfer
    ensures q.graphics < |fs| && q.present < |fs| && q.transfer < |fs|
    ensures Serving(fs[q.transfer]) && Serving(fs[q.present])
    ensures Graphics(fs[q.graphics]) || q.graphics == q.transfer
  {
  }

  /** `QueueFamilyIndices::iter`: graphics, present, transfer. */
  function Iter(q: Queues): (r: seq<nat>)
    ensures |r| == 3 && r[0] == q.graphics && r[1] == q.present && r[2] == q.transfer
  {
    [q.graphics, q.present, q.transfer]
  }

  /** The distinct family indices of `iter`. */
  function Unique(q: Queues): (u: set<nat>)
    ensures forall i :: i in u <==> i in Iter(q)
  {
    set i | i in Iter(q)
  }

  /** With the present family equal to the transfer family, the looked-up families
    * are distinct exactly when graphics and transfer differ. */
  lemma UniqueQueues(q: Queues)
    requires q.present == q.transfer
    ensures |Unique(q)| > 1 <==> q.graphics != q.transfer
  {
    if q.graphics == q.transfer {
      assert Unique(q) == {q.graphics};
    } else {
      assert Unique(q) == {q.graphics, q.transfer};
    }
  }
}
