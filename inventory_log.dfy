/**
 * The inventory tool: an append-only log of items that hands out copies,
 * and the decision of a load from the saved file: replace the log with a
 * non-empty saved list, otherwise keep it.
 */
module InventoryLog {
  import opened Optional

  /** Dates are opaque here: a day number supplied by the caller. */
  type Date = int

  datatype InventoryItem = InventoryItem(id: int, name: string, quantity: int, dateAdded: Date)

  /**
   * What reading the saved file produced: no file, an exception while
   * reading or deserialising, or the deserialised list (None for a JSON null).
   */
  datatype SavedFile<T> = Missing | Unreadable | Contents(items: Option<seq<T>>)

  /** The four messages of LoadFromFile. */
  datatype LoadStatus = NoSavedData | Loaded(count: nat) | NoData | LoadError

  /** The status of a load and the log afterwards. */
  function AfterLoad<T>(log: seq<T>, file: SavedFile<T>): (r: (LoadStatus, seq<T>))
    ensures r.0.Loaded? <==> file.Contents? && file.items.Some? && |file.items.value| > 0
    ensures r.0.Loaded? ==> r.1 == file.items.value && r.0.count == |r.1|
    ensures !r.0.Loaded? ==> r.1 == log
    ensures file.Missing? ==> r.0 == NoSavedData
    ensures file.Unreadable? ==> r.0 == LoadError
  {
    match file
    case Missing => (NoSavedData, log)
    case Unreadable => (LoadError, log)
    case Contents(items) =>
      if items.Some? && |items.value| > 0 then (Loaded(|items.value|), items.value)
      else (NoData, log)
  }

  /** Loading a saved non-empty log restores it, whatever the log held before. */
  lemma SaveThenLoadRestores<T>(saved: seq<T>, current: seq<T>)
    requires saved != []
    ensures AfterLoad(current, Contents(Some(saved))) == (Loaded(|saved|), saved)
  {
  }

  /** Loading a saved empty log keeps the current log: an empty save cannot clear it. */
  lemma SaveEmptyThenLoadKeeps<T>(current: seq<T>)
    ensures AfterLoad(current, Contents(Some([]))) == (NoData, current)
  {
  }

  /** Loading twice from the same file is the same as loading once. */
  lemma LoadIdempotent<T>(log: seq<T>, file: SavedFile<T>)
    ensures AfterLoad(AfterLoad(log, file).1, file).1 == AfterLoad(log, file).1
  {
  }

  class InventoryLogger<T> {
    var log: seq<T>
    const filePath: string

    constructor (filePath: string)
      ensures log == [] && this.filePath == filePath
    {
      log := [];
      this.filePath := filePath;
    }

    /** Appends the item to the end, duplicates included. */
    method Add(item: T)
      modifies this
      ensures log == old(log) + [item]
    {
      log := log + [item];
    }

    /** A copy of the log: a value, so later changes on either side do not reach the other. */
    method GetAll() returns (all: seq<T>)
      ensures all == log
    {
      all := log;
    }

    /**
     * What the save leaves in the file: the current log. Loading it back
     * restores the log, unless the log was empty, in which case a load
     * keeps whatever the log holds by then.
     */
    method SaveToFile() returns (written: SavedFile<T>)
      ensures written == Contents(Some(log))
      ensures forall current: seq<T> :: AfterLoad(current, written).1 == if log == [] then current else log
    {
      written := Contents(Some(log));
    }

    method LoadFromFile(file: SavedFile<T>) returns (status: LoadStatus)
      modifies this
      ensures (status, log) == AfterLoad(old(log), file)
    {
      match file
      case Missing =>
        status := NoSavedData;
      case Unreadable =>
        status := LoadError;
      case Contents(items) =>
        if items.Some? && |items.value| > 0 {
          log := [];
          log := log + items.value;
          assert [] + items.value == items.value;
          status := Loaded(|items.value|);
        } else {
          status := NoData;
        }
    }
  }

  /**
   * A client run: a snapshot taken before an add keeps its contents, the add
   * accepts a duplicate id, and a load of an empty saved list keeps the log.
   */
  method SnapshotScenario(a: InventoryItem, b: InventoryItem) returns (snapshot: seq<InventoryItem>, after: seq<InventoryItem>)
    requires a.id == b.id
    ensures snapshot == [a]
    ensures after == [a, b]
  {
    var logger := new InventoryLogger<InventoryItem>("inventory.json");
    logger.Add(a);
    snapshot := logger.GetAll();
    logger.Add(b);
    var status := logger.LoadFromFile(Contents(Some([])));
    after := logger.GetAll();
  }
}
