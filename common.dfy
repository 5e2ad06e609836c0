/** Small shared vocabulary: optional values, PHP truthiness of strings,
    the opaque JSON encoding of lists, and what a controller answers. */
module Common {

  datatype Option<+T> = None | Some(value: T) {
    /** PHP's `$x ?? $default` on a possibly-missing value. */
    function GetOr(default: T): (r: T)
      ensures Some? ==> r == value
      ensures None? ==> r == default
    {
      match this
      case Some(v) => v
      case None => default
    }
  }

  /** PHP truthiness of a string: only "" and "0" are falsy. */
  predicate Truthy(s: string) {
    s != "" && s != "0"
  }

  /** The value `json_encode` produces for a list of strings. The encoding is
      kept abstract: it is modelled as a lossless wrapper around the list. */
  datatype Json = Encoded(items: seq<string>)

  /** What a controller action ends with: a redirect (header plus exit), a
      rendered view with its data, or a JSON body. */
  datatype Response<D> = Redirect(target: string) | Render(view: string, data: D) | Json(payload: D)
}
