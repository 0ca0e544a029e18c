/**
 * The upstream records the serializers read or declare. Keys that the code
 * accesses with `[...]` are plain fields; a key it reads with `.get` is an
 * `Option`; every other key an upstream object may carry is kept in `extra`.
 */
module Upstream {
  import opened Wrappers
  import opened Json

  /** One record of the university directory (the Hipolabs search result). */
  datatype University = University(
    name: string,
    country: Option<string>,
    webPages: seq<string>,
    domains: seq<string>,
    alphaTwoCode: string,
    extra: map<string, Json>)

  /** One quote-of-the-moment record: `q` is the text, `a` the author. */
  datatype Quote = Quote(q: string, a: string, extra: map<string, Json>)

  /** The declared shape of a country answer (`CountryDetailSerializer`). */
  datatype CountryDetail = CountryDetail(
    name: string,
    capital: string,
    population: int,
    flag: string,
    region: string)

  /** The declared shape of an activity suggestion (`BoredSerialier`). */
  datatype BoredActivity = BoredActivity(activity: string, activityType: string, participants: int)
}
