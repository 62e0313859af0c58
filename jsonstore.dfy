/** The JSON files the defenders keep between runs. */
module JsonStore {

  /** What a state file holds: nothing yet, text that `json.load` rejects, or
      the document last written by `json.dump`. */
  datatype Stored<T> = Missing | Corrupt | Saved(doc: T)

  /** `load_json(path, default)`: the saved document, or `default` when the
      file is missing or does not parse. */
  function Load<T>(f: Stored<T>, default: T): (r: T)
    ensures f.Saved? ==> r == f.doc
    ensures !f.Saved? ==> r == default
  {
    if f.Saved? then f.doc else default
  }
}
