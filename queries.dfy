/**
 * The query-parameter serializers: each endpoint declares an ordered list of
 * string fields, each required or not and with a minimum length, and one
 * shared routine checks a request's query parameters against that list.
 */
module QuerySerializers {
  import opened Wrappers

  type Params = map<string, string>

  /** A declared `CharField(required=..., min_length=...)`; no `min_length` is 0. */
  datatype FieldSpec = FieldSpec(name: string, required: bool, minLength: nat)

  /** A field-level validation error (answered with status 400). */
  datatype FieldError = Required(field: string) | TooShort(field: string, minLength: nat)

  /** The endpoints' declarations. */
  const CountryQuery: seq<FieldSpec> := [FieldSpec("name", true, 0)]
  const AgeQuery: seq<FieldSpec> := [FieldSpec("name", true, 0)]
  const CountryUniversitiesQuery: seq<FieldSpec> := [FieldSpec("country", true, 1)]
  const BoredQuery: seq<FieldSpec> := [FieldSpec("type", true, 1)]

  /** What one declared field demands of the parameters. */
  predicate Accepts(params: Params, f: FieldSpec)
  {
    && (f.required ==> f.name in params)
    && (f.name in params ==> |params[f.name]| >= f.minLength)
  }

  /** The names a declaration lists. */
  function Declared(schema: seq<FieldSpec>): set<string>
  {
    set f | f in schema :: f.name
  }

  /** The error one field reports, if any. */
  function CheckField(params: Params, f: FieldSpec): (e: Option<FieldError>)
    ensures e.None? <==> Accepts(params, f)
    ensures e.Some? ==> e.value.field == f.name
    ensures e.Some? && e.value.Required? ==> f.required && f.name !in params
    ensures e.Some? && e.value.TooShort? ==>
      f.name in params && |params[f.name]| < f.minLength == e.value.minLength
  {
    if f.name !in params then
      if f.required then Some(Required(f.name)) else None
    else if |params[f.name]| < f.minLength then
      Some(TooShort(f.name, f.minLength))
    else
      None
  }

  /** The errors of all fields, in declaration order: every failing field is reported. */
  function Errors(params: Params, schema: seq<FieldSpec>): seq<FieldError>
  {
    if schema == [] then []
    else
      var rest := Errors(params, schema[1..]);
      match CheckField(params, schema[0])
      case None => rest
      case Some(e) => [e] + rest
  }

  /** The validated data: each declared field that is present, with its value. */
  function Cleaned(params: Params, schema: seq<FieldSpec>): (data: Params)
  {
    if schema == [] then map[]
    else
      var rest := Cleaned(params, schema[1..]);
      var f := schema[0];
      if f.name in params then rest[f.name := params[f.name]] else rest
  }

  lemma {:induction false} ErrorsEmptyIffAccepted(params: Params, schema: seq<FieldSpec>)
    ensures Errors(params, schema) == [] <==> forall i :: 0 <= i < |schema| ==> Accepts(params, schema[i])
  {
    if schema != [] {
      ErrorsEmptyIffAccepted(params, schema[1..]);
      assert forall i :: 1 <= i < |schema| ==> schema[i] == schema[1..][i - 1];
    }
  }

  lemma {:induction false} ErrorsComplete(params: Params, schema: seq<FieldSpec>)
    ensures forall i :: 0 <= i < |schema| && !Accepts(params, schema[i]) ==>
      CheckField(params, schema[i]).value in Errors(params, schema)
  {
    if schema != [] {
      ErrorsComplete(params, schema[1..]);
      assert forall i :: 1 <= i < |schema| ==> schema[i] == schema[1..][i - 1];
    }
  }

  lemma {:induction false} ErrorsSound(params: Params, schema: seq<FieldSpec>)
    ensures forall e :: e in Errors(params, schema) ==>
      exists i :: 0 <= i < |schema| && CheckField(params, schema[i]) == Some(e)
  {
    if schema != [] {
      ErrorsSound(params, schema[1..]);
      forall e | e in Errors(params, schema)
        ensures exists i :: 0 <= i < |schema| && CheckField(params, schema[i]) == Some(e)
      {
        if CheckField(params, schema[0]) != Some(e) {
          var i :| 0 <= i < |schema[1..]| && CheckField(params, schema[1..][i]) == Some(e);
          assert CheckField(params, schema[i + 1]) == Some(e);
        }
      }
    }
  }

  lemma {:induction false} CleanedIsRestriction(params: Params, schema: seq<FieldSpec>)
    ensures Cleaned(params, schema).Keys == Declared(schema) * params.Keys
    ensures forall k :: k in Cleaned(params, schema) ==> Cleaned(params, schema)[k] == params[k]
  {
    if schema != [] {
      CleanedIsRestriction(params, schema[1..]);
      assert Declared(schema) == {schema[0].name} + Declared(schema[1..]) by {
        assert forall f :: f in schema <==> f == schema[0] || f in schema[1..];
      }
    }
  }

  /**
   * `is_valid()` on a query serializer: success exactly when every declared
   * field is satisfied, and then the declared fields that are present and no
   * other parameter; otherwise every failing field's error.
   */
  function Validate(params: Params, schema: seq<FieldSpec>): (r: Result<Params, seq<FieldError>>)
    ensures r.Ok? <==> forall i :: 0 <= i < |schema| ==> Accepts(params, schema[i])
    ensures r.Ok? ==> r.value.Keys == Declared(schema) * params.Keys
    ensures r.Ok? ==> forall k :: k in r.value ==> r.value[k] == params[k]
    ensures r.Err? ==> r.error != []
    ensures r.Err? ==> forall i :: 0 <= i < |schema| && !Accepts(params, schema[i]) ==>
      CheckField(params, schema[i]).value in r.error
    ensures r.Err? ==> forall e :: e in r.error ==>
      exists i :: 0 <= i < |schema| && CheckField(params, schema[i]) == Some(e)
  {
    ErrorsEmptyIffAccepted(params, schema);
    ErrorsComplete(params, schema);
    ErrorsSound(params, schema);
    CleanedIsRestriction(params, schema);
    var errs := Errors(params, schema);
    if errs == [] then Ok(Cleaned(params, schema)) else Err(errs)
  }

  /**
   * The country and age lookups declare the same `name` field: a missing key
   * is rejected, a present one is returned alone, other parameters ignored.
   */
  lemma NameQuery(params: Params)
    ensures Validate(params, CountryQuery) == Validate(params, AgeQuery)
    ensures "name" !in params ==> Validate(params, CountryQuery) == Err([Required("name")])
    ensures "name" in params ==> Validate(params, CountryQuery) == Ok(map["name" := params["name"]])
  {
    if "name" in params {
      var r := Validate(params, CountryQuery);
      assert Declared(CountryQuery) == {"name"} by {
        assert CountryQuery[0] in CountryQuery;
      }
      assert r.value == map["name" := params["name"]];
    } else {
      assert CountryQuery[1..] == [];
      assert Errors(params, CountryQuery) == [Required("name")];
    }
  }

  /**
   * The universities and activity lookups declare one required field of
   * minimum length 1: missing and empty values are rejected with their own
   * errors, and a non-empty value is returned alone.
   */
  lemma NonEmptyQuery(params: Params, schema: seq<FieldSpec>, key: string)
    requires (schema, key) == (CountryUniversitiesQuery, "country") || (schema, key) == (BoredQuery, "type")
    ensures key !in params ==> Validate(params, schema) == Err([Required(key)])
    ensures key in params && params[key] == "" ==> Validate(params, schema) == Err([TooShort(key, 1)])
    ensures key in params && params[key] != "" ==> Validate(params, schema) == Ok(map[key := params[key]])
  {
    assert schema == [FieldSpec(key, true, 1)];
    if key in params && params[key] != "" {
      var r := Validate(params, schema);
      assert Declared(schema) == {key} by {
        assert schema[0] in schema;
      }
      assert r.value == map[key := params[key]];
    } else {
      assert schema[1..] == [];
      assert Errors(params, schema) == [CheckField(params, schema[0]).value];
    }
  }
}
