/** A decoded JSON object, as far as the time stamps and device IDs go. */
module Json {
  import opened Words

  /** `whole` is the `int64` that the float of a JSON number converts to. */
  datatype Value = Number(whole: int64) | String(s: string) | Other

  type Object = map<string, Value>
}
