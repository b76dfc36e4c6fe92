/** Values that may be absent, such as an entry's crawl delay. */
module Optional {
  datatype Option<+T> = None | Some(value: T)
}

/** The percent-encoding collaborators of the robots.txt code. `quote` and
    `unquote` are JavaScript's `encodeURIComponent` and `decodeURIComponent`,
    and `pathSafe` says whether decoding and re-encoding a value succeeds.
    Their behaviour is not modelled: every operation that needs them takes a
    `Codec` and nothing is assumed about its three functions. */
module Uri {
  datatype Codec = Codec(quote: string -> string, unquote: string -> string, pathSafe: string -> bool)

  /** Decode then re-encode, so that equivalent encodings of one path compare
      equal. */
  function Normalize(codec: Codec, s: string): string {
    codec.quote(codec.unquote(s))
  }
}
