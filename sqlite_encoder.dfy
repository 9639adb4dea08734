/**
 * `SqlLiteEncoder`: the results saved as a key-value store with one record
 * per top-level entry, and read back as a mapping.
 */
module SqliteEncoder {
  import opened JsonValue

  /** One store file: its records, in the order they were inserted. */
  class SqliteStore {
    var records: Fields

    constructor ()
      ensures records == []
    {
      records := [];
    }

    /**
     * `save_to_file(config, ...)`. `prompt` is the overwrite prompt's answer;
     * when it is refused nothing happens. Once it is accepted the old file is
     * removed before the store is opened, so the store is empty afterwards
     * unless `canOpen` (the opening succeeded) and `config` is a dict: a
     * `config` that is not a dict makes `.items()` raise before anything is
     * committed.
     */
    method SaveToFile(config: Json, prompt: bool, canOpen: bool)
      requires WellFormed(config)
      modifies this
      ensures !prompt ==> records == old(records)
      ensures prompt && !canOpen ==> records == []
      ensures prompt && canOpen && config.JObject? ==> records == config.fields
      ensures prompt && canOpen && !config.JObject? ==> records == []
    {
      if !prompt {
        return;
      }
      records := [];
      if !canOpen || !config.JObject? {
        return;
      }
      var items := config.fields;
      var i := 0;
      while i < |items|
        invariant i <= |items|
        invariant records == PutAll([], items[..i])
      {
        assert items[..i + 1][..i] == items[..i];
        records := Put(records, items[i].0, items[i].1);
        i := i + 1;
      }
      assert items[..i] == items;
      PutAllCopies(items);
    }

    /** `load_from_file(...)`: the mapping the store holds. */
    method LoadFromFile() returns (r: Fields)
      ensures r == records
    {
      r := records;
    }
  }

  /** Saving a dict into a fresh store and loading it back yields that dict, entry for entry. */
  method SaveThenLoad(config: Json) returns (r: Fields)
    requires config.JObject? && WellFormed(config)
    ensures r == config.fields
    ensures UniqueKeys(r)
  {
    var store := new SqliteStore();
    store.SaveToFile(config, true, true);
    r := store.LoadFromFile();
  }
}
