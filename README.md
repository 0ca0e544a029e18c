# Query validation and response reshaping of the public-API gateway

The gateway puts several public APIs behind one HTTP interface: dog and cat images, jokes,
advice, age prediction, country facts, university directories, activity suggestions and
quotes. Its only logic of its own is in `api/serializers.py`. That file has two parts:

- **Query serializers.** Each endpoint declares its string query fields, and the
  serializer checks a request's query parameters against them before any upstream call.
- **Response serializers.** These reshape an upstream answer into the gateway's
  fixed output:
  - a university record becomes `{name, website}`, where the website is `web_pages[0]`;
  - a list of university records becomes `{country, universities}`, where the
    country comes from the first record;
  - a quote becomes `{quote, author}`.

The model is pure functions and lemmas, as the source is. It has these modules:

- `Wrappers`: Option and Result.
- `Json`: the JSON values that are read and built. A Python dict is an `Obj`.
- `Upstream`: the upstream records as datatypes.
  - A key the code reads with `[...]` is a plain field.
  - The university `country`, which the code reads with `.get`, is an `Option`.
  - Any other keys go into `extra`, so that the model can say they are dropped.
  - `CountryDetail` and `BoredActivity` record the shapes that `CountryDetailSerializer`
    and `BoredSerialier` declare. They have no code of their own.
- `QuerySerializers`: one shared validation routine, `Validate`. It is driven by each
  endpoint's ordered list of `FieldSpec(name, required, minLength)`. The four declared
  serializers are the constants `CountryQuery`, `AgeQuery`, `CountryUniversitiesQuery`
  and `BoredQuery`.
- `Serializers`: the response reshaping.
  - Each Python `IndexError` is an explicit failure: `NoRecords` for `instance[0]` on an
    empty list, and `NoWebPages(i)` for `web_pages[0]` of record `i`.
  - The model marks these cases as failures; how they reach the HTTP caller is not part
    of the model.

## Model

| member | source | states |
|---|---|---|
| QuerySerializers.CheckField | api/serializers.py:107 | one declared field reports no error exactly when it is satisfied: present if required, and at least `min_length` long if present; a missing required field gives "required", a too-short one gives "too short" with the bound |
| QuerySerializers.Validate | api/serializers.py:53-107 | validation succeeds exactly when every declared field is satisfied; the validated data is then exactly the declared fields that are present, with their values, and unknown parameters are ignored; on failure every failing field is reported and nothing else |
| QuerySerializers.ErrorsEmptyIffAccepted | api/serializers.py:91-107 | the shared routine reports no error if and only if every field of the declaration accepts the parameters |
| QuerySerializers.ErrorsComplete | api/serializers.py:91-107 | every field that rejects the parameters has its error in the report |
| QuerySerializers.ErrorsSound | api/serializers.py:91-107 | every reported error is the error of some declared field |
| QuerySerializers.CleanedIsRestriction | api/serializers.py:91-107 | the validated data is the query parameters restricted to the declared field names |
| QuerySerializers.NameQuery | api/serializers.py:53-88 | the country and age queries validate alike; a missing `name` is rejected as required; otherwise the result is `{name}` alone |
| QuerySerializers.NonEmptyQuery | api/serializers.py:91-107 | for `country` (line 107), and likewise `type` of `BoredQuerySerializer` (line 204): a missing key is rejected as required, an empty value is rejected as too short, and a non-empty value is returned alone |
| Serializers.Website | api/serializers.py:132-142 | the website exists exactly when `web_pages` is non-empty, and then it is the page the list starts with; an empty list is a failure, not an empty website |
| Serializers.UniversityEntry | api/serializers.py:110-142 | a record normalises exactly when it has a web page; the entry has exactly the keys `name` and `website`, holding the record's name and its primary website |
| Serializers.UniversityEntries | api/serializers.py:196 | the flat list succeeds exactly when every record has a web page; it then has one entry per record, in input order, each that record's entry; otherwise the failure names the first record without a web page |
| Serializers.CountryOf | api/serializers.py:194 | the country is null exactly when the first record has none, and otherwise that record's country string |
| Serializers.CountryUniversities | api/serializers.py:184-201 | an empty input fails with `NoRecords`; otherwise the result succeeds exactly when every record has a web page, and then has exactly the keys `country` (from the first record) and `universities` (the flat list); a failure names the first record without a web page |
| Serializers.GroupedEntries | api/serializers.py:196-201 | a grouped answer has as many university entries as there are input records, and entry i reads back as record i's name and `web_pages[0]` |
| Serializers.CountryFromFirstRecordOnly | api/serializers.py:194 | two successful inputs whose first records have the same country give the same `country`, whatever the later records say |
| Serializers.OneBadRecordFailsAll | api/serializers.py:194-196 | one record with an empty `web_pages` list makes the whole grouped normalisation fail, at that record or at an earlier one |
| Serializers.EntryRoundTrip | api/serializers.py:129-142 | reading an entry back gives exactly the record's name and first web page |
| Serializers.EntryDeterminedByNameAndWebsite | api/serializers.py:129-142 | two records give the same entry if and only if they have the same name and the same first web page, so country, domains, `alpha_two_code`, later pages and other keys are dropped |
| Serializers.QuoteResponse | api/serializers.py:211-223 | the response has exactly the keys `quote` and `author`, holding `q` and `a` unchanged |
| Serializers.QuoteRoundTrip | api/serializers.py:215-223 | reading a quote response back gives exactly the record's `q` and `a` |
| Serializers.QuoteResponseComplete | api/serializers.py:215-223 | every object with exactly string keys `quote` and `author` is the response to a quote with that text and author, whatever that quote's other keys are |

## Left out

- Upstream clients (`api/services/*.py`): each issues one HTTP GET, calls
  `raise_for_status` and parses the JSON body. That is network I/O with no logic to model.
  - Most of them pass a timeout; `api/services/joke_api.py:35` does not.
  - `api/services/dog_api.py:33-35` parses the body before `raise_for_status` and returns
    only `data['message']`.
- `api/views.py` and `api/urls.py`: request dispatch, status codes and route wiring belong
  to the web framework and the network. The one view catches no exception. The routes in
  `api/urls.py` name view functions that `api/views.py` does not define.
- QuerySerializers.Validate: the framework's own `CharField` rules are not modelled.
  - Leading and trailing whitespace is not trimmed.
  - Blank strings are not rejected by default.
  - So the model accepts `name=""` for the country and age queries. Their source
    declares only `required=True` (lines 69 and 88). DRF's default `allow_blank=False`
    would reject it; the model does not.
  - An empty `country` or `type` is reported as `TooShort`. DRF's `CharField.run_validation`
    reports it as blank before `min_length` is checked.
- QuerySerializers.Validate: the framework's error message texts are not modelled. Errors
  are the `Required` and `TooShort` values.
- Upstream records are typed: `name`, `q`, `a` and each web page are strings, and
  `web_pages` is a list. So the model does not capture what Python does with other shapes:
  - A record that lacks `name`, `web_pages`, `q` or `a` raises `KeyError`.
  - A non-string `q`, `a` or `web_pages[0]` is passed through unchanged.
  - A string `web_pages` gives its first character as the website, with no error.
  - A null or numeric `web_pages` raises `TypeError`.
  - `CharField` converts a non-string `name` with `str`.
- `CountryDetailSerializer` and `BoredSerialier` are kept only as the record types
  `CountryDetail` and `BoredActivity`. They declare fields and hold no code.
