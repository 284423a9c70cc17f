/** The profile's string table. */
module StringTables {
  import opened Optional
  import Registry

  /**
   * Deduplicated strings in first-seen order; a string's position is its
   * index. The empty string is entered first, so it has index 0.
   */
  datatype StringTable = StringTable(strings: seq<string>) {

    ghost predicate Valid() {
      |strings| > 0 && strings[0] == ""
    }

    /**
     * `fetch`: the index of `s` and the table afterwards. A string seen
     * before keeps its index and leaves the table unchanged; a new one is
     * appended with the next index.
     */
    function Fetch(s: string): (r: (StringTable, nat))
      requires Valid()
      ensures r.0.Valid()
      ensures r.1 < |r.0.strings| && r.0.strings[r.1] == s
      ensures strings <= r.0.strings
      ensures s in strings ==> r.0 == this && Registry.Find(strings, s) == Some(r.1)
      ensures s !in strings ==> r.0.strings == strings + [s] && r.1 == |strings|
      ensures Registry.Distinct(strings) ==> Registry.Distinct(r.0.strings)
    {
      var (ss, i) := Registry.Intern(strings, s);
      Registry.InternDistinct(strings, s);
      (StringTable(ss), i)
    }
  }

  /** A new string table, holding only the empty string. */
  function NewStringTable(): (t: StringTable)
    ensures t.Valid() && t.strings == [""] && Registry.Distinct(t.strings)
  {
    StringTable([""])
  }
}
