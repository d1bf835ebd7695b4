/** The parsed shape of a Tally form submission, as the webhook handler reads it. */
module Tally {
  import opened Optional

  /**
   * A field's `value`: a string, a boolean, an array of selected option ids,
   * or missing (`undefined` or `null`).
   */
  datatype Value = Str(s: string) | Bool(b: bool) | List(items: seq<string>) | Absent

  /** One entry of a choice field's `options`. */
  datatype Opt = Opt(id: string, text: string)

  /** One entry of `data.fields`; `fieldType` and `fieldLabel` are the payload's `type` and `label`. */
  datatype Field = Field(
    key: string,
    fieldLabel: Option<string>,
    fieldType: string,
    value: Value,
    options: Option<seq<Opt>>)
}
