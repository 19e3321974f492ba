/**
 * Parsed YAML values, as the transform sees them once the document text and
 * the mixin file have been loaded, and the faults the transform can raise.
 */
module Yaml {

  /** A parsed YAML node. Mappings are keyed by strings; the key order of a
      mapping plays no part in the transform and is not modelled. */
  datatype Value =
    | Null
    | Bool(b: bool)
    | Int(i: int)
    | Str(s: string)
    | Seq(items: seq<Value>)
    | Map(m: map<string, Value>)

  /** The ways in which an injection can fail. */
  datatype Fault =
    | NotLoaded            // the mixin file was not loaded at start-up
    | DocumentNotMapping   // the subscription document is not a mapping
    | GroupsNotIterable    // `proxy-groups` holds null, a boolean or a number
    | GroupNotMapping      // the scan reached an item without `get`: a group that is not a
                           // mapping, or a character or key of a string or mapping
                           // stored at `proxy-groups`
    | MixinNotMapping      // the loaded mixin is not a mapping (an empty file, a list, a scalar)

  datatype Result<+T> = Ok(value: T) | Err(error: Fault)
}
