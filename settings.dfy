/** The configuration arrays handed to an algorithm's init(): either not an
    array at all, or a map from keys to values. */
module Settings {

  /** The values the algorithms read from their settings. */
  datatype Value = Null | Number(n: int) | Text(s: string) | Words(words: seq<string>)

  datatype Settings = NotArray | Entries(entries: map<string, Value>)

  /** PHP's isset($settings[key]) on an array: the key is present and not null. */
  predicate IsSet(s: Settings, key: string)
  {
    s.Entries? && key in s.entries && s.entries[key] != Null
  }

  /** `key` is unset or holds an integer. */
  predicate NumberOrUnset(s: Settings, key: string)
  {
    IsSet(s, key) ==> s.entries[key].Number?
  }

  /** `key` is unset or holds a string. */
  predicate TextOrUnset(s: Settings, key: string)
  {
    IsSet(s, key) ==> s.entries[key].Text?
  }
}
