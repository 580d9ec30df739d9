/** The key masking of the data-source connectivity check. */
module TwelveDataFetch {
  import opened Common
  import DebugRun

  /** `mask_key(k)`: `<missing>` for a falsy key, otherwise `k[:4] + '...' + k[-4:]`. */
  function MaskKey(k: Option<string>): (r: string)
    ensures k.None? || k.value == [] ==> r == "<missing>"
    ensures k.Some? && 0 < |k.value| <= 4 ==> r == k.value + "..." + k.value
    ensures k.Some? && |k.value| > 4 ==> |r| == 11 && r[..4] == k.value[..4] && r[7..] == k.value[|k.value| - 4..]
  {
    if k.None? || k.value == [] then "<missing>"
    else SliceTo(k.value, 4) + "..." + SliceFrom(k.value, -4)
  }

  /** The two masking helpers agree on every input. */
  lemma MaskKeyAgreesWithMask(k: Option<string>)
    ensures MaskKey(k) == DebugRun.Mask(k)
  {
  }
}
