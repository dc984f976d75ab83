/**
 * Vulkan swapchain settings: the surface format, the present mode, the extent,
 * the number of images and the image sharing mode.
 *
 * The support query's results are inputs. Enum values are those of the Vulkan
 * specification (`VK_FORMAT_B8G8R8A8_SRGB` is 50, `VK_COLOR_SPACE_SRGB_NONLINEAR_KHR`
 * is 0, `VK_PRESENT_MODE_MAILBOX_KHR` is 1). In a surface's capabilities a
 * `maxImageCount` of 0 means there is no maximum.
 */
module VkSwapchain {
  import opened Settings
  import opened VkPhysicalDevice

  const B8G8R8A8_SRGB: nat := 50
  const SRGB_NONLINEAR: nat := 0
  const MAILBOX: nat := 1
  const U32_MAX: nat := 0xFFFF_FFFF
  const U32_LIMIT: nat := 0x1_0000_0000

  datatype SurfaceFormat = SurfaceFormat(format: nat, colorSpace: nat)

  const PREFERRED: SurfaceFormat := SurfaceFormat(B8G8R8A8_SRGB, SRGB_NONLINEAR)

  /** `choose_format`: the preferred sRGB format when offered, otherwise the first
    * one; the source indexes the first, so the list must not be empty. */
  method ChooseFormat(formats: seq<SurfaceFormat>) returns (r: SurfaceFormat)
    requires |formats| > 0
    ensures PREFERRED in formats ==> r == PREFERRED
    ensures PREFERRED !in formats ==> r == formats[0]
  {
    for k := 0 to |formats|
      invariant PREFERRED !in formats[..k]
    {
      var format := formats[k];
      if format.format == B8G8R8A8_SRGB && format.colorSpace == SRGB_NONLINEAR {
        return format;
      }
      assert formats[..k + 1] == formats[..k] + [format];
    }
    assert formats[..|formats|] == formats;
    return formats[0];
  }

  /** `choose_present_mode`: `MAILBOX` when offered, otherwise the first mode; the
    * list must not be empty. */
  method ChoosePresentMode(modes: seq<nat>) returns (r: nat)
    requires |modes| > 0
    ensures r == if MAILBOX in modes then MAILBOX else modes[0]
  {
    for k := 0 to |modes|
      invariant MAILBOX !in modes[..k]
    {
      if modes[k] == MAILBOX {
        return modes[k];
      }
      assert modes[..k + 1] == modes[..k] + [modes[k]];
    }
    assert modes[..|modes|] == modes;
    return modes[0];
  }

  /** Whichever list is offered, the choice is one of its entries. */
  lemma ChoicesOffered(formats: seq<SurfaceFormat>, modes: seq<nat>)
    requires |formats| > 0 && |modes| > 0
    ensures (if PREFERRED in formats then PREFERRED else formats[0]) in formats
    ensures (if MAILBOX in modes then MAILBOX else modes[0]) in modes
  {
  }

  datatype Extent = Extent(width: nat, height: nat)

  /** A framebuffer size from the window, `i32` each, cast `as u32`. */
  function AsU32(n: int): (r: nat)
    ensures r < U32_LIMIT && (0 <= n < U32_LIMIT ==> r == n)
  {
    n % U32_LIMIT
  }

  /** `choose_extent`: the surface's current extent, unless its width is `u32::MAX`,
    * which leaves the extent to the window's framebuffer size. */
  function ChooseExtent(current: Extent, fbWidth: int, fbHeight: int): (r: Extent)
    ensures current.width != U32_MAX ==> r == current
    ensures current.width == U32_MAX && fbWidth >= 0 && fbHeight >= 0 ==> r == Extent(fbWidth % U32_LIMIT, fbHeight % U32_LIMIT)
    ensures r.width < U32_LIMIT || r == current
  {
    if current.width != U32_MAX then current else Extent(AsU32(fbWidth), AsU32(fbHeight))
  }

  /** The image count of `create` as written: `min(max_image_count, min_image_count + 1)`. */
  function ImageCountAsWritten(minCount: nat, maxCount: nat): nat {
    if maxCount < minCount + 1 then maxCount else minCount + 1
  }

  /** As written, a surface with no maximum asks for no images, fewer than its
    * minimum. */
  lemma ImageCountNoMaximum()
    ensures ImageCountAsWritten(2, 0) == 0 < 2
  {
  }

  /** The image count with a `max_image_count` of 0 read as no maximum. */
  function ImageCount(minCount: nat, maxCount: nat): nat {
    if maxCount != 0 && maxCount < minCount + 1 then maxCount else minCount + 1
  }

  /** One image more than the minimum, capped at the maximum when there is one; never
    * below the minimum when the maximum is at least the minimum, as the Vulkan
    * specification guarantees. */
  lemma ImageCountBounds(minCount: nat, maxCount: nat)
    requires maxCount == 0 || minCount <= maxCount
    ensures minCount <= ImageCount(minCount, maxCount) <= minCount + 1
    ensures maxCount != 0 ==> ImageCount(minCount, maxCount) <= maxCount
    ensures maxCount != 0 ==> ImageCount(minCount, maxCount) == ImageCountAsWritten(minCount, maxCount)
  {
  }

  datatype SharingMode = EXCLUSIVE | CONCURRENT

  /** The sharing mode of `create`: concurrent when the queue families are not all
    * one, and then shared by every distinct family; exclusive otherwise. */
  function Sharing(q: Queues): (r: SharingMode)
    ensures r == CONCURRENT <==> |Unique(q)| > 1
  {
    if |Unique(q)| > 1 then CONCURRENT else EXCLUSIVE
  }

  /** With the families `get_queue_families` returns, the images are shared exactly
    * when the graphics family is not the transfer family. */
  lemma SharingOfLookup(q: Queues)
    requires q.present == q.transfer
    ensures Sharing(q) == CONCURRENT <==> q.graphics != q.transfer
  {
    UniqueQueues(q);
  }
}
