/**
 * The WordPress library calls the plugin makes and whose source is not part of
 * this model, each as an opaque function supplied by the caller.
 */
module WordPress {

  datatype Api = Api(
    /** `wp_verify_nonce(token, action)`: whether `token` is a live nonce for `action`. */
    verifyNonce: (string, string) -> bool,
    /** `is_email(value)` taken as a truth value. */
    isEmail: string -> bool,
    /** `sanitize_text_field(value)`. */
    sanitizeTextField: string -> string)
}
