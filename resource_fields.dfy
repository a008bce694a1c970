/**
 * What PeopleResource and FilmResource have in common: an item from the
 * catalogue is either a detailed record, whose fields sit under
 * `properties`, or a list entry carrying `uid`, its label and `url` at the
 * top level; `toArray` turns either into one array with a fixed key order.
 */
module ResourceFields {
  import opened Sorting
  import opened Json

  /** `isset($this->resource['properties'])`: the key exists and is not null. */
  predicate HasProperties(item: Json)
  {
    Isset(item, "properties")
  }

  /** `$this->resource['properties'][k] ?? null`. */
  function FromProperties(item: Json, k: string): Json
  {
    Field(Field(item, "properties"), k)
  }

  /** The label and `url`: read under `properties` when present, otherwise at the top level. */
  function Selected(item: Json, k: string): Json
  {
    if HasProperties(item) then FromProperties(item, k) else Field(item, k)
  }

  /** The output keys: `uid`, the label, the detail keys, `url`. */
  function Layout(labelKey: string, details: seq<string>): seq<string>
  {
    ["uid", labelKey] + details + ["url"]
  }

  /** The array `toArray` returns, for a resource whose label key is `labelKey` and whose detail keys are `details`. */
  function Project(item: Json, labelKey: string, details: seq<string>): (r: Json)
    ensures r.JMap? && Keys(r.fields) == Layout(labelKey, details)
  {
    var middle := seq(|details|, i requires 0 <= i < |details| => (details[i], FromProperties(item, details[i])));
    var fields := [("uid", Field(item, "uid")), (labelKey, Selected(item, labelKey))] + middle + [("url", Selected(item, "url"))];
    assert Keys(fields) == Layout(labelKey, details);
    JMap(fields)
  }

  /**
   * Reading the projected array back: `uid` is the item's own `uid` (null
   * when missing), the label and `url` follow the nested-or-flat choice, and
   * each detail key comes from `properties` only.
   */
  lemma ProjectFields(item: Json, labelKey: string, details: seq<string>)
    requires NoDuplicates(Layout(labelKey, details))
    ensures Field(Project(item, labelKey, details), "uid") == Field(item, "uid")
    ensures Field(Project(item, labelKey, details), labelKey) == Selected(item, labelKey)
    ensures Field(Project(item, labelKey, details), "url") == Selected(item, "url")
    ensures forall i :: 0 <= i < |details| ==>
      Field(Project(item, labelKey, details), details[i]) == FromProperties(item, details[i])
  {
    var fields := Project(item, labelKey, details).fields;
    var n := |details|;
    assert fields[0] == ("uid", Field(item, "uid"));
    assert fields[1] == (labelKey, Selected(item, labelKey));
    assert fields[n + 2] == ("url", Selected(item, "url"));
    LookupAt(fields, 0);
    LookupAt(fields, 1);
    LookupAt(fields, n + 2);
    forall i | 0 <= i < n
      ensures Field(JMap(fields), details[i]) == FromProperties(item, details[i])
    {
      assert fields[i + 2] == (details[i], FromProperties(item, details[i]));
      LookupAt(fields, i + 2);
    }
  }

  /** A flat list entry: label and `url` from the top level, every detail null. */
  lemma FlatItem(item: Json, labelKey: string, details: seq<string>)
    requires NoDuplicates(Layout(labelKey, details))
    requires !HasProperties(item)
    ensures Field(Project(item, labelKey, details), labelKey) == Field(item, labelKey)
    ensures Field(Project(item, labelKey, details), "url") == Field(item, "url")
    ensures forall i :: 0 <= i < |details| ==> Field(Project(item, labelKey, details), details[i]) == JNull
  {
    ProjectFields(item, labelKey, details);
  }
}
