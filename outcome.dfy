/** What one call of a provider adapter produced, as seen by a collector, and
    what one call of `save_data` left in the named JSON document. */
module Outcomes {
  import opened Json

  /** The call raised, or returned a value (`None` standing for Python's None). */
  datatype Outcome<T> = Raised | Returned(value: Option<T>)

  /** How `save_data` ended: opening the file for writing raised before it was
      truncated, `json.dump` raised after the file had been truncated and partly
      written (a value it cannot serialise, a full disk), or the whole document
      was written. */
  datatype SaveOutcome = OpenFailed | DumpFailed | Saved

  /** The named JSON document after a collection run: as an earlier run left it,
      truncated by a dump that failed partway, or holding `doc`. */
  datatype Document<T> = Previous | Truncated | Holds(doc: T)

  /** The document after saving `doc` ended with `save`: only a completed dump
      leaves `doc` on disk, and only a failed open leaves the earlier document. */
  function AfterSave<T>(save: SaveOutcome, doc: T): (d: Document<T>)
    ensures d.Holds? <==> save.Saved?
    ensures d.Previous? <==> save.OpenFailed?
    ensures d.Holds? ==> d.doc == doc
  {
    match save
    case OpenFailed => Previous
    case DumpFailed => Truncated
    case Saved => Holds(doc)
  }
}
