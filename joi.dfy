/**
 * The few Joi rules the schemas use, on one present field value.  `string()`
 * accepts only JSON strings and refuses the empty one; `min`/`max` count
 * UTF-16 code units; `valid(...)` admits exactly the listed strings.
 */
module Joi {
  import opened JsStrings
  import opened Json

  /** `Joi.string()` (no bounds). */
  predicate IsString(v: Json) {
    v.JString? && v.s != ""
  }

  /** `Joi.string().min(lo).max(hi)`. */
  predicate StringWithin(v: Json, lo: nat, hi: nat) {
    IsString(v) && lo <= Utf16Length(v.s) <= hi
  }

  /** `Joi.string().valid(...choices)`. */
  predicate OneOf(v: Json, choices: set<string>) {
    v.JString? && v.s in choices
  }
}
