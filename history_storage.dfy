/**
 * The scan history file: a JSON list of entries, each a timestamp with the
 * metrics of one scan. Reading is forgiving (a missing, empty or corrupt
 * file is an empty history, and the older single-entry format is a list of
 * one); saving appends one entry to what was read and writes the list back.
 */
module HistoryStorage {
  import opened Wrappers
  import Json

  /** What the file system holds at the history path. */
  datatype HistoryFile = Missing | Present(content: string)

  /**
   * The JSON text functions the storage hands its data to, which are not
   * modelled: `json.loads` (`None` for the JSONDecodeError it raises) and
   * `json.dumps` of a list.
   */
  datatype Codec = Codec(loads: string -> Option<Json.Value>, dumps: seq<Json.Value> -> string)

  /** `json.dumps` output that `json.loads` reads back as the same list. */
  ghost predicate RoundTrips(c: Codec) {
    forall xs :: c.dumps(xs) != [] && c.loads(c.dumps(xs)) == Some(Json.Arr(xs))
  }

  /** `_process_loaded_history`: a dict is the legacy single entry, a list is kept, anything else is dropped. */
  function ProcessLoadedHistory(loaded: Json.Value): (r: seq<Json.Value>)
    ensures loaded.Obj? ==> r == [loaded]
    ensures loaded.Arr? ==> r == loaded.items
    ensures !loaded.Obj? && !loaded.Arr? ==> r == []
  {
    match loaded
    case Obj(_) => [loaded]
    case Arr(items) => items
    case _ => []
  }

  /**
   * `load_history`: a missing file, an empty one and one that is not JSON
   * all load as an empty history; a file holding one JSON object (the
   * legacy format) loads as a history of that one entry.
   */
  function LoadHistory(file: HistoryFile, c: Codec): (r: seq<Json.Value>)
    ensures file.Missing? || file.content == [] || c.loads(file.content).None? ==> r == []
    ensures file.Present? && file.content != [] && c.loads(file.content).Some? && c.loads(file.content).value.Obj?
      ==> r == [c.loads(file.content).value]
  {
    match file
    case Missing => []
    case Present(content) =>
      if content == [] then []
      else
        match c.loads(content)
        case None => []
        case Some(loaded) => ProcessLoadedHistory(loaded)
  }

  /**
   * `save_entry`: the history as read, with the new entry appended, is the
   * text written back.
   */
  method SaveEntry(file: HistoryFile, entry: Json.Value, c: Codec) returns (written: string)
    ensures written == c.dumps(LoadHistory(file, c) + [entry])
  {
    var historyData := LoadHistory(file, c);
    historyData := historyData + [entry];
    written := c.dumps(historyData);
  }

  /** `get_latest_entry`: the last entry, or none for an empty history. */
  function GetLatestEntry(file: HistoryFile, c: Codec): (r: Option<Json.Value>)
    ensures r.None? <==> LoadHistory(file, c) == []
    ensures r.Some? ==> r.value == LoadHistory(file, c)[|LoadHistory(file, c)| - 1]
  {
    var history := LoadHistory(file, c);
    if history != [] then Some(history[|history| - 1]) else None
  }

  /**
   * Saving appends exactly one entry: reading the written file gives the
   * earlier entries unchanged followed by the new one, which is then the
   * latest.
   */
  lemma SaveThenLoad(file: HistoryFile, entry: Json.Value, c: Codec)
    requires RoundTrips(c)
    ensures LoadHistory(Present(c.dumps(LoadHistory(file, c) + [entry])), c) == LoadHistory(file, c) + [entry]
    ensures GetLatestEntry(Present(c.dumps(LoadHistory(file, c) + [entry])), c) == Some(entry)
  {
    var xs := LoadHistory(file, c) + [entry];
    assert c.dumps(xs) != [] && c.loads(c.dumps(xs)) == Some(Json.Arr(xs));
  }
}
