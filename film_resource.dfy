/** FilmResource: one film of the catalogue as the API returns it. */
module FilmResource {
  import opened Sorting
  import opened Json
  import opened ResourceFields

  /** The keys read only from `properties`, in output order. */
  const Details: seq<string> :=
    ["episode_id", "opening_crawl", "director", "producer", "release_date",
     "characters", "planets", "starships", "vehicles", "species"]

  /** `toArray`: `uid`, `title`, the details and `url`, in this order. */
  function ToArray(film: Json): (r: Json)
    ensures r.JMap?
    ensures Keys(r.fields) == Layout("title", Details)
  {
    Project(film, "title", Details)
  }

  /** The thirteen output keys, `uid` through `url`, are always present and always in this order. */
  lemma Shape(film: Json)
    ensures Keys(ToArray(film).fields) ==
      ["uid", "title", "episode_id", "opening_crawl", "director", "producer", "release_date",
       "characters", "planets", "starships", "vehicles", "species", "url"]
  {
  }

  lemma LayoutDistinct()
    ensures NoDuplicates(Layout("title", Details))
  {
  }

  /**
   * The value under each output key: `uid` copied (null when missing);
   * `title` and `url` from `properties` when it is set, otherwise from the
   * top level; every other key from `properties` only.
   */
  lemma ToArrayFields(film: Json)
    ensures Field(ToArray(film), "uid") == Field(film, "uid")
    ensures Field(ToArray(film), "title") ==
      if HasProperties(film) then FromProperties(film, "title") else Field(film, "title")
    ensures Field(ToArray(film), "url") ==
      if HasProperties(film) then FromProperties(film, "url") else Field(film, "url")
    ensures forall k :: k in Details ==> Field(ToArray(film), k) == FromProperties(film, k)
  {
    LayoutDistinct();
    ProjectFields(film, "title", Details);
    forall k | k in Details
      ensures Field(ToArray(film), k) == FromProperties(film, k)
    {
      var i :| 0 <= i < |Details| && Details[i] == k;
    }
  }

  /** An entry of the catalogue's film list: `uid`, `title` and `url` at the top level. */
  function ListItem(uid: string, title: string, url: string): Json
  {
    JMap([("uid", JStr(uid)), ("title", JStr(title)), ("url", JStr(url))])
  }

  /** A list entry keeps its uid, title and url, and every detail is null. */
  lemma ListItemView(uid: string, title: string, url: string)
    ensures Field(ToArray(ListItem(uid, title, url)), "uid") == JStr(uid)
    ensures Field(ToArray(ListItem(uid, title, url)), "title") == JStr(title)
    ensures Field(ToArray(ListItem(uid, title, url)), "url") == JStr(url)
    ensures forall k :: k in Details ==> Field(ToArray(ListItem(uid, title, url)), k) == JNull
  {
    var item := ListItem(uid, title, url);
    assert !HasProperties(item);
    assert NoDuplicates(Keys(item.fields));
    LookupAt(item.fields, 0);
    LookupAt(item.fields, 1);
    LookupAt(item.fields, 2);
    ToArrayFields(item);
  }

  /** The detailed record of "A New Hope", as the catalogue returns it by id. */
  const NewHope: Json := JMap([
    ("uid", JStr("1")),
    ("properties", JMap([
      ("title", JStr("A New Hope")),
      ("episode_id", JInt(4)),
      ("opening_crawl", JStr("It is a period of civil war...")),
      ("director", JStr("George Lucas")),
      ("producer", JStr("Gary Kurtz, Rick McCallum")),
      ("release_date", JStr("1977-05-25")),
      ("characters", JList([JStr("https://www.swapi.tech/api/people/1")])),
      ("planets", JList([JStr("https://www.swapi.tech/api/planets/1")])),
      ("starships", JList([JStr("https://www.swapi.tech/api/starships/2")])),
      ("vehicles", JList([JStr("https://www.swapi.tech/api/vehicles/4")])),
      ("species", JList([JStr("https://www.swapi.tech/api/species/1")])),
      ("url", JStr("https://www.swapi.tech/api/films/1"))]))])

  /** What the record of "A New Hope" holds under `properties`. */
  lemma NewHopeProperties()
    ensures Field(NewHope, "uid") == JStr("1") && HasProperties(NewHope)
    ensures FromProperties(NewHope, "title") == JStr("A New Hope")
    ensures FromProperties(NewHope, "episode_id") == JInt(4)
    ensures FromProperties(NewHope, "url") == JStr("https://www.swapi.tech/api/films/1")
  {
    assert NoDuplicates(Keys(NewHope.fields));
    LookupAt(NewHope.fields, 0);
    LookupAt(NewHope.fields, 1);
    var props := Field(NewHope, "properties");
    assert NoDuplicates(Keys(props.fields));
    LookupAt(props.fields, 0);
    LookupAt(props.fields, 1);
    LookupAt(props.fields, 11);
  }

  /** The nested record reads back with uid "1", title "A New Hope" and its own url. */
  lemma NewHopeView()
    ensures Field(ToArray(NewHope), "uid") == JStr("1")
    ensures Field(ToArray(NewHope), "title") == JStr("A New Hope")
    ensures Field(ToArray(NewHope), "url") == JStr("https://www.swapi.tech/api/films/1")
  {
    NewHopeProperties();
    ToArrayFields(NewHope);
  }

  /** Its details are read from `properties`: the episode number stays the integer 4. */
  lemma NewHopeEpisode()
    ensures Field(ToArray(NewHope), "episode_id") == JInt(4)
  {
    NewHopeProperties();
    ToArrayFields(NewHope);
    assert Details[0] == "episode_id";
  }
}
