/**
 * ApiKeyUtil.mask: the display form of a stored API key. Encryption and
 * decryption (AES) are not modelled.
 */
module ApiKeys {
  import opened Wrappers

  const STARS: string := "****"

  /** A null key, or one of at most 8 chars, shows as four stars; a longer one keeps its first and last four chars. */
  function Mask(apiKey: Option<string>): (r: string)
    ensures apiKey.None? || |apiKey.value| <= 8 ==> r == STARS
    ensures apiKey.Some? && |apiKey.value| > 8 ==>
      && |r| == 12
      && r[..4] == apiKey.value[..4]
      && r[4..8] == STARS
      && r[8..] == apiKey.value[|apiKey.value| - 4..]
  {
    if apiKey.None? || |apiKey.value| <= 8 then STARS
    else apiKey.value[..4] + STARS + apiKey.value[|apiKey.value| - 4..]
  }

  /** The masked form depends on the first and last four chars only: the middle never shows. */
  lemma MaskIgnoresMiddle(k1: string, k2: string)
    requires |k1| > 8 && |k2| > 8
    requires k1[..4] == k2[..4] && k1[|k1| - 4..] == k2[|k2| - 4..]
    ensures Mask(Some(k1)) == Mask(Some(k2))
  {
  }

  /** Masking is not reversible for long keys: keys differing only inside mask alike, whatever their length. */
  lemma MaskLosesMiddle(prefix: string, suffix: string, m1: string, m2: string)
    requires |prefix| == 4 && |suffix| == 4 && |m1| > 0 && |m2| > 0
    ensures Mask(Some(prefix + m1 + suffix)) == prefix + STARS + suffix
    ensures Mask(Some(prefix + m1 + suffix)) == Mask(Some(prefix + m2 + suffix))
  {
    var k1, k2 := prefix + m1 + suffix, prefix + m2 + suffix;
    assert k1[..4] == prefix && k1[|k1| - 4..] == suffix;
    assert k2[..4] == prefix && k2[|k2| - 4..] == suffix;
  }
}
