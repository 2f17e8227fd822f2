/**
 * The `validate_callback`s of the `feedback-manager/v1/submit` route. Each
 * decides whether one raw parameter is accepted; lengths are PHP `strlen`,
 * that is bytes of the UTF-8 encoding, not characters.
 */
module RouteArgs {
  import opened Php
  import WordPress

  const MaxNameBytes: nat := 255
  const MaxMessageBytes: nat := 5000

  /** A present value whose `strlen` does not exceed `limit`. */
  predicate WithinBytes(param: string, limit: nat)
  {
    !Empty(param) && Strlen(param) <= limit
  }

  /**
   * The `name` validator. Whatever the characters, a name of at most 63 of
   * them fits in 255 bytes and a name of more than 255 of them does not.
   */
  function ValidName(param: string): (ok: bool)
    ensures ok ==> !Empty(param) && |param| <= MaxNameBytes
    ensures !Empty(param) && 4 * |param| <= MaxNameBytes ==> ok
    ensures IsAscii(param) ==> (ok <==> !Empty(param) && |param| <= MaxNameBytes)
  {
    if IsAscii(param) then StrlenAscii(param); WithinBytes(param, MaxNameBytes)
    else WithinBytes(param, MaxNameBytes)
  }

  /** The `email` validator: `is_email` decides alone; it sets no length bound of its own. */
  function ValidEmail(param: string, wp: WordPress.Api): (ok: bool)
    ensures ok <==> wp.isEmail(param)
  {
    wp.isEmail(param)
  }

  /**
   * The `message` validator. A message of at most 1250 characters always fits
   * in 5000 bytes and one of more than 5000 characters never does.
   */
  function ValidMessage(param: string): (ok: bool)
    ensures ok ==> !Empty(param) && |param| <= MaxMessageBytes
    ensures !Empty(param) && 4 * |param| <= MaxMessageBytes ==> ok
    ensures IsAscii(param) ==> (ok <==> !Empty(param) && |param| <= MaxMessageBytes)
  {
    if IsAscii(param) then StrlenAscii(param); WithinBytes(param, MaxMessageBytes)
    else WithinBytes(param, MaxMessageBytes)
  }

  /**
   * The byte limit is stricter than a character limit: 128 copies of U+00E9
   * are 128 characters, within the 255 the form's `maxlength` allows, but 256
   * bytes, so the route refuses them. "0" is refused because PHP treats it as empty.
   */
  lemma NameLimitCountsBytes()
    ensures !ValidName(seq(128, _ => 'é'))
    ensures !ValidName("0")
    ensures ValidName("Ana")
  {
    var s := seq(128, _ => 'é');
    StrlenTwoByte(s);
  }
}
