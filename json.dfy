/** A value produced by `json.load`, and the amino-acid alphabet both validators use. */
module JsonValue {
  import opened Base

  datatype Json =
    | JNull
    | JBool(b: bool)
    | JNum(n: real)
    | JStr(s: string)
    | JArr(items: seq<Json>)
    | JObj(fields: map<string, Json>)

  /** The twenty standard amino-acid letters, upper case. */
  const StandardResidues: string := "ACDEFGHIKLMNPQRSTVWY"

  predicate IsStandardResidue(c: char)
  {
    c in StandardResidues
  }

  /** A file of a listing, read and parsed: `None` when it cannot be opened or
      is not JSON (the read raises, and every caller treats that as a failure). */
  function ReadJson(files: map<string, Option<Json>>, name: string): Option<Json>
  {
    if name in files then files[name] else None
  }
}
