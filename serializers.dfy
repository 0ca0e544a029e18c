/**
 * The response serializers: the university directory's records become
 * `{name, website}` entries, optionally grouped under the first record's
 * country, and a quote record becomes `{quote, author}`. Both empty-list
 * index accesses of the code are failures (Python's IndexError); how such a
 * failure reaches the HTTP caller is not part of this model.
 */
module Serializers {
  import opened Wrappers
  import opened Json
  import opened Upstream

  /** Why a grouped normalisation fails. */
  datatype Failure =
    | NoRecords              // `instance[0]` on an empty record list
    | NoWebPages(record: nat) // `web_pages[0]` of this record, which has none

  /** `UniversitySerializer.get_website`: the record's primary website. */
  function Website(u: University): (w: Option<string>)
    ensures w.Some? <==> u.webPages != []
    ensures w.Some? ==> u.webPages == [w.value] + u.webPages[1..]
  {
    if u.webPages == [] then None else Some(u.webPages[0])
  }

  /** `UniversitySerializer` on one record: an object with only `name` and `website`. */
  function UniversityEntry(u: University): (e: Option<Json>)
    ensures e.Some? <==> u.webPages != []
    ensures e.Some? ==> HasKeys(e.value, {"name", "website"})
    ensures e.Some? ==> StrField(e.value, "name") == Some(u.name)
    ensures e.Some? ==> StrField(e.value, "website") == Website(u)
  {
    match Website(u)
    case None => None
    case Some(w) => Some(Obj(map["name" := Str(u.name), "website" := Str(w)]))
  }

  /**
   * `UniversitySerializer(records, many=True).data`: one entry per record, in
   * order; the first record without a web page (its index is the error)
   * aborts the whole list.
   */
  function UniversityEntries(us: seq<University>): (r: Result<seq<Json>, nat>)
    ensures r.Ok? <==> forall i :: 0 <= i < |us| ==> us[i].webPages != []
    ensures r.Ok? ==> |r.value| == |us|
    ensures r.Ok? ==> forall i :: 0 <= i < |us| ==> UniversityEntry(us[i]) == Some(r.value[i])
    ensures r.Err? ==> r.error < |us| && us[r.error].webPages == []
    ensures r.Err? ==> forall j :: 0 <= j < r.error ==> us[j].webPages != []
  {
    if us == [] then Ok([])
    else
      match UniversityEntry(us[0])
      case None => Err(0)
      case Some(e) =>
        match UniversityEntries(us[1..])
        case Err(i) => Err(i + 1)
        case Ok(es) => Ok([e] + es)
  }

  /** `instance[0].get('country')`: the first record's country, or null when it has none. */
  function CountryOf(first: University): (c: Json)
    ensures c.Null? <==> first.country.None?
    ensures first.country.Some? ==> c == Str(first.country.value)
  {
    match first.country
    case None => Null
    case Some(name) => Str(name)
  }

  /**
   * `CountryUniversitiesSerializer.to_representation`: `{country, universities}`,
   * the country read from the first record only, the universities as above.
   */
  function CountryUniversities(us: seq<University>): (r: Result<Json, Failure>)
    ensures us == [] ==> r == Err(NoRecords)
    ensures us != [] ==> (r.Ok? <==> forall i :: 0 <= i < |us| ==> us[i].webPages != [])
    ensures r.Ok? ==> HasKeys(r.value, {"country", "universities"})
    ensures r.Ok? ==> r.value.fields["country"] == CountryOf(us[0])
    ensures r.Ok? ==> r.value.fields["universities"] == Arr(UniversityEntries(us).value)
    ensures us != [] && r.Err? ==> r.error == NoWebPages(UniversityEntries(us).error)
  {
    if us == [] then Err(NoRecords)
    else
      var country := CountryOf(us[0]);
      match UniversityEntries(us)
      case Err(i) => Err(NoWebPages(i))
      case Ok(entries) => Ok(Obj(map["country" := country, "universities" := Arr(entries)]))
  }

  /** `QuotesSerializer.to_representation`: `q` renamed `quote`, `a` renamed `author`. */
  function QuoteResponse(q: Quote): (j: Json)
    ensures HasKeys(j, {"quote", "author"})
    ensures StrField(j, "quote") == Some(q.q)
    ensures StrField(j, "author") == Some(q.a)
  {
    Obj(map["quote" := Str(q.q), "author" := Str(q.a)])
  }

  /** Reads a quote response back: its text and author, when `j` has that shape. */
  function ReadQuote(j: Json): (p: Option<(string, string)>)
  {
    if HasKeys(j, {"quote", "author"}) && StrField(j, "quote").Some? && StrField(j, "author").Some?
    then Some((StrField(j, "quote").value, StrField(j, "author").value))
    else None
  }

  /** Reads a university entry back: its name and website, when `j` has that shape. */
  function ReadEntry(j: Json): (p: Option<(string, string)>)
  {
    if HasKeys(j, {"name", "website"}) && StrField(j, "name").Some? && StrField(j, "website").Some?
    then Some((StrField(j, "name").value, StrField(j, "website").value))
    else None
  }

  /** A quote response carries the quote's text and author and nothing of its other keys. */
  lemma QuoteRoundTrip(q: Quote)
    ensures ReadQuote(QuoteResponse(q)) == Some((q.q, q.a))
  {
  }

  /** Every well-formed `{quote, author}` object is the response to some quote, whatever its other keys. */
  lemma QuoteResponseComplete(j: Json, extra: map<string, Json>)
    requires ReadQuote(j).Some?
    ensures QuoteResponse(Quote(ReadQuote(j).value.0, ReadQuote(j).value.1, extra)) == j
  {
  }

  /** An entry carries the record's name and primary website. */
  lemma EntryRoundTrip(u: University)
    requires u.webPages != []
    ensures ReadEntry(UniversityEntry(u).value) == Some((u.name, u.webPages[0]))
  {
  }

  /**
   * Two records give the same entry exactly when they share their name and
   * primary website: country, domains, code, later pages and other keys are dropped.
   */
  lemma EntryDeterminedByNameAndWebsite(u: University, v: University)
    requires u.webPages != [] && v.webPages != []
    ensures UniversityEntry(u) == UniversityEntry(v) <==> u.name == v.name && u.webPages[0] == v.webPages[0]
  {
  }

  /**
   * In a grouped answer every entry i reads back as record i's name and
   * primary website, and there are as many entries as records.
   */
  lemma GroupedEntries(us: seq<University>)
    requires CountryUniversities(us).Ok?
    ensures var u := CountryUniversities(us).value.fields["universities"];
      && u.Arr? && |u.items| == |us|
      && forall i :: 0 <= i < |us| ==> ReadEntry(u.items[i]) == Some((us[i].name, us[i].webPages[0]))
  {
  }

  /** Records after the first never affect the grouped answer's country. */
  lemma CountryFromFirstRecordOnly(us: seq<University>, vs: seq<University>)
    requires us != [] && vs != [] && us[0].country == vs[0].country
    requires CountryUniversities(us).Ok? && CountryUniversities(vs).Ok?
    ensures CountryUniversities(us).value.fields["country"] == CountryUniversities(vs).value.fields["country"]
  {
  }

  /** A single record with no web page makes the whole grouped normalisation fail. */
  lemma OneBadRecordFailsAll(us: seq<University>, k: nat)
    requires k < |us| && us[k].webPages == []
    ensures CountryUniversities(us).Err?
    ensures CountryUniversities(us).error.record <= k
  {
  }
}
