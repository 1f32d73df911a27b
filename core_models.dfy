/** The application settings table: text values under unique text keys. */
module CoreModels {
  import opened Wrappers

  class AppSettings {
    /** One value per key: the key column is unique. */
    var entries: map<string, string>

    constructor ()
      ensures entries == map[]
    {
      entries := map[];
    }

    /** AppSettings.get: the stored value, or `default` (None unless given) when the key is absent. */
    function Get(key: string, default: Option<string> := None): (r: Option<string>)
      reads this
      ensures key in entries ==> r == Some(entries[key])
      ensures key !in entries ==> r == default
    {
      if key in entries then Some(entries[key]) else default
    }

    /**
     * AppSettings.set: overwrites the value of an existing key, inserts an
     * absent one, and returns the value; every other key keeps its value.
     */
    method Set(key: string, value: string) returns (r: string)
      modifies this
      ensures r == value
      ensures entries == old(entries)[key := value]
      ensures key in old(entries) ==> entries.Keys == old(entries).Keys
      ensures key !in old(entries) ==> entries.Keys == old(entries).Keys + {key}
      ensures forall d: Option<string> :: Get(key, d) == Some(value)
      ensures forall k :: k != key ==> Get(k) == old(Get(k))
    {
      // Updates the existing row or inserts a new one: on a map both are one assignment.
      entries := entries[key := value];
      r := value;
    }
  }
}
