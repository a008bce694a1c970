/** PeopleResource: one person of the catalogue as the API returns it. */
module PeopleResource {
  import opened Sorting
  import opened Json
  import opened ResourceFields

  /** The keys read only from `properties`, in output order. */
  const Details: seq<string> :=
    ["gender", "birth_year", "height", "mass", "hair_color", "skin_color", "eye_color", "homeworld"]

  /** `toArray`: the eleven output keys, `uid` through `url`, always present and always in this order. */
  function ToArray(person: Json): (r: Json)
    ensures r.JMap?
    ensures Keys(r.fields) == Layout("name", Details)
  {
    Project(person, "name", Details)
  }

  /** The eleven output keys, `uid` through `url`, are always present and always in this order. */
  lemma Shape(person: Json)
    ensures Keys(ToArray(person).fields) == ["uid", "name", "gender", "birth_year", "height", "mass",
                                             "hair_color", "skin_color", "eye_color", "homeworld", "url"]
  {
  }

  /**
   * The value under each output key: `uid` copied (null when missing);
   * `name` and `url` from `properties` when it is set, otherwise from the top
   * level; every other key from `properties` only.
   */
  lemma ToArrayFields(person: Json)
    ensures Field(ToArray(person), "uid") == Field(person, "uid")
    ensures Field(ToArray(person), "name") ==
      if HasProperties(person) then FromProperties(person, "name") else Field(person, "name")
    ensures Field(ToArray(person), "url") ==
      if HasProperties(person) then FromProperties(person, "url") else Field(person, "url")
    ensures forall k :: k in Details ==> Field(ToArray(person), k) == FromProperties(person, k)
  {
    assert NoDuplicates(Layout("name", Details));
    ProjectFields(person, "name", Details);
    forall k | k in Details
      ensures Field(ToArray(person), k) == FromProperties(person, k)
    {
      var i :| 0 <= i < |Details| && Details[i] == k;
    }
  }

  /** An entry of the catalogue's people list: `uid`, `name` and `url` at the top level. */
  function ListItem(uid: string, name: string, url: string): Json
  {
    JMap([("uid", JStr(uid)), ("name", JStr(name)), ("url", JStr(url))])
  }

  /** A list entry keeps its uid, name and url, and every detail is null. */
  lemma ListItemView(uid: string, name: string, url: string)
    ensures Field(ToArray(ListItem(uid, name, url)), "uid") == JStr(uid)
    ensures Field(ToArray(ListItem(uid, name, url)), "name") == JStr(name)
    ensures Field(ToArray(ListItem(uid, name, url)), "url") == JStr(url)
    ensures forall k :: k in Details ==> Field(ToArray(ListItem(uid, name, url)), k) == JNull
  {
    var item := ListItem(uid, name, url);
    assert !HasProperties(item);
    assert NoDuplicates(Keys(item.fields));
    LookupAt(item.fields, 0);
    LookupAt(item.fields, 1);
    LookupAt(item.fields, 2);
    ToArrayFields(item);
  }

  /** The detailed record of Luke Skywalker, as the catalogue returns it by id. */
  const Luke: Json := JMap([
    ("uid", JStr("1")),
    ("properties", JMap([
      ("name", JStr("Luke Skywalker")),
      ("gender", JStr("male")),
      ("birth_year", JStr("19BBY")),
      ("height", JStr("172")),
      ("mass", JStr("77")),
      ("hair_color", JStr("blond")),
      ("skin_color", JStr("fair")),
      ("eye_color", JStr("blue")),
      ("homeworld", JStr("https://www.swapi.tech/api/planets/1")),
      ("url", JStr("https://www.swapi.tech/api/people/1"))]))])

  /** What Luke's record holds under `properties`. */
  lemma LukeProperties()
    ensures HasProperties(Luke)
    ensures FromProperties(Luke, "name") == JStr("Luke Skywalker")
    ensures FromProperties(Luke, "gender") == JStr("male")
    ensures FromProperties(Luke, "homeworld") == JStr("https://www.swapi.tech/api/planets/1")
    ensures FromProperties(Luke, "url") == JStr("https://www.swapi.tech/api/people/1")
  {
    var props := Field(Luke, "properties");
    assert NoDuplicates(Keys(props.fields));
    LookupAt(props.fields, 0);
    LookupAt(props.fields, 1);
    LookupAt(props.fields, 8);
    LookupAt(props.fields, 9);
  }

  /** The nested Luke record reads back with uid "1", name "Luke Skywalker" and its own details and url. */
  lemma LukeView()
    ensures Field(ToArray(Luke), "uid") == JStr("1")
    ensures Field(ToArray(Luke), "name") == JStr("Luke Skywalker")
    ensures Field(ToArray(Luke), "gender") == JStr("male")
    ensures Field(ToArray(Luke), "homeworld") == JStr("https://www.swapi.tech/api/planets/1")
    ensures Field(ToArray(Luke), "url") == JStr("https://www.swapi.tech/api/people/1")
  {
    LukeProperties();
    ToArrayFields(Luke);
  }
}
