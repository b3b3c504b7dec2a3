/** The few JavaScript value rules the plugin's decisions rest on. */
module Js {
  import opened Wrappers

  /** A property of a plain object used as a dictionary: `obj[key]`, which is
      `undefined` when the key is not present. Keys are compared exactly. */
  function Property<V>(obj: map<string, V>, key: string): Option<V>
  {
    if key in obj then Some(obj[key]) else None
  }

  /** JavaScript truthiness of a value that is either `undefined` or a string:
      `undefined` and the empty string are falsy, every other string is truthy. */
  predicate Truthy(v: Option<string>)
  {
    v.Some? && v.value != ""
  }

  /** The value of `v` when it is truthy, `None` otherwise: the string an
      `if (v)` guard lets through. */
  function TruthyValue(v: Option<string>): Option<string>
  {
    if Truthy(v) then v else None
  }
}
