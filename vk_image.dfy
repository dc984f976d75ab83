/**
 * Vulkan image helpers: the memory type an allocation may use, and the first
 * format among candidates that supports the wanted features, used to find the
 * depth buffer's format.
 *
 * Driver queries are inputs. Flag words (`VkMemoryPropertyFlags`,
 * `VkFormatFeatureFlags`) and the memory-type filter are sets of bit positions;
 * the format-properties query is a function from a format to its linear and
 * optimal tiling features. Format codes and bits are those of the Vulkan
 * specification.
 */
module VkImage {
  import opened Settings

  /** `VkImageTiling`: `OPTIMAL` is 0, `LINEAR` is 1; any other value is another
    * tiling. */
  const OPTIMAL: nat := 0
  const LINEAR: nat := 1

  const D32_SFLOAT: nat := 126
  const D24_UNORM_S8_UINT: nat := 129
  const D32_SFLOAT_S8_UINT: nat := 130

  /** `VK_FORMAT_FEATURE_DEPTH_STENCIL_ATTACHMENT_BIT` is bit 9. */
  const DEPTH_STENCIL_ATTACHMENT: set<nat> := {9}

  /** Memory type `i` is allowed by the filter and has every wanted property: bit `i`
    * of the filter is set and the type's flags `&` the wanted flags equal the
    * wanted flags. */
  predicate Suitable(filter: set<nat>, types: seq<set<nat>>, properties: set<nat>, i: nat)
    requires i < |types|
  {
    i in filter && types[i] * properties == properties
  }

  /** `find_memory_type` over the first `memory_type_count` types (at most 32, as the
    * Vulkan specification guarantees, so `1 << i` does not overflow): the first
    * suitable type, or `None` (the source's `Err(())`). */
  method FindMemoryType(filter: set<nat>, types: seq<set<nat>>, properties: set<nat>) returns (r: Option<nat>)
    requires |types| <= 32
    ensures r.Some? ==>
      r.value < |types| && Suitable(filter, types, properties, r.value)
      && forall j :: 0 <= j < r.value ==> !Suitable(filter, types, properties, j)
    ensures r.None? <==> forall j :: 0 <= j < |types| ==> !Suitable(filter, types, properties, j)
  {
    for i := 0 to |types|
      invariant forall j :: 0 <= j < i ==> !Suitable(filter, types, properties, j)
    {
      if i in filter && types[i] * properties == properties {
        return Some(i);
      }
    }
    return None;
  }

  /** A suitable type's flags include every wanted property. */
  lemma SuitableContains(filter: set<nat>, types: seq<set<nat>>, properties: set<nat>, i: nat)
    requires i < |types|
    ensures Suitable(filter, types, properties, i) <==> i in filter && properties <= types[i]
  {
  }

  /** The features a format has under linear and optimal tiling. */
  datatype FormatProperties = FormatProperties(linear: set<nat>, optimal: set<nat>)

  /** Whether `format` has `features` under `tiling`; no other tiling qualifies. */
  predicate Supports(query: nat -> FormatProperties, format: nat, tiling: nat, features: set<nat>) {
    (tiling == LINEAR && features <= query(format).linear)
    || (tiling == OPTIMAL && features <= query(format).optimal)
  }

  /** Candidate `k` is the first with `features` under `tiling`. */
  predicate First(query: nat -> FormatProperties, candidates: seq<nat>, tiling: nat, features: set<nat>, k: int) {
    0 <= k < |candidates| && Supports(query, candidates[k], tiling, features)
    && forall j :: 0 <= j < k ==> !Supports(query, candidates[j], tiling, features)
  }

  /** `find_supported_image_format`: the first candidate with `features` under
    * `tiling`, or `None`. */
  method FindSupportedImageFormat(query: nat -> FormatProperties, candidates: seq<nat>, tiling: nat, features: set<nat>)
    returns (r: Option<nat>)
    ensures r.Some? ==> exists k :: First(query, candidates, tiling, features, k) && candidates[k] == r.value
    ensures r.None? <==> forall j :: 0 <= j < |candidates| ==> !Supports(query, candidates[j], tiling, features)
  {
    for k := 0 to |candidates|
      invariant forall j :: 0 <= j < k ==> !Supports(query, candidates[j], tiling, features)
    {
      var format := candidates[k];
      var properties := query(format);
      if tiling == LINEAR && features <= properties.linear {
        return Some(format);
      } else if tiling == OPTIMAL && features <= properties.optimal {
        return Some(format);
      }
    }
    return None;
  }

  /** A tiling other than linear and optimal finds nothing. */
  lemma OtherTiling(query: nat -> FormatProperties, format: nat, tiling: nat, features: set<nat>)
    requires tiling != LINEAR && tiling != OPTIMAL
    ensures !Supports(query, format, tiling, features)
  {
  }

  /** Whether a format can be the depth attachment with optimal tiling. */
  predicate DepthCapable(query: nat -> FormatProperties, format: nat) {
    DEPTH_STENCIL_ATTACHMENT <= query(format).optimal
  }

  /** `find_depth_format`: `D32_SFLOAT`, then `D32_SFLOAT_S8_UINT`, then
    * `D24_UNORM_S8_UINT`, the first that is depth capable with optimal tiling; `None`
    * where the source panics. */
  method FindDepthFormat(query: nat -> FormatProperties) returns (r: Option<nat>)
    ensures r == if DepthCapable(query, D32_SFLOAT) then Some(D32_SFLOAT)
      else if DepthCapable(query, D32_SFLOAT_S8_UINT) then Some(D32_SFLOAT_S8_UINT)
      else if DepthCapable(query, D24_UNORM_S8_UINT) then Some(D24_UNORM_S8_UINT)
      else None
  {
    var candidates := [D32_SFLOAT, D32_SFLOAT_S8_UINT, D24_UNORM_S8_UINT];
    r := FindSupportedImageFormat(query, candidates, OPTIMAL, DEPTH_STENCIL_ATTACHMENT);
    if r.Some? {
      var k :| First(query, candidates, OPTIMAL, DEPTH_STENCIL_ATTACHMENT, k) && candidates[k] == r.value;
      if k > 0 {
        assert !Supports(query, candidates[0], OPTIMAL, DEPTH_STENCIL_ATTACHMENT);
      }
      if k > 1 {
        assert !Supports(query, candidates[1], OPTIMAL, DEPTH_STENCIL_ATTACHMENT);
      }
    } else {
      assert !Supports(query, candidates[0], OPTIMAL, DEPTH_STENCIL_ATTACHMENT);
      assert !Supports(query, candidates[1], OPTIMAL, DEPTH_STENCIL_ATTACHMENT);
      assert !Supports(query, candidates[2], OPTIMAL, DEPTH_STENCIL_ATTACHMENT);
    }
  }
}
