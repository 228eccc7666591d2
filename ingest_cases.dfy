/**
 * The cases of `TestIngest` in pkg/logs/service_test.go. The lemmas state
 * them about the event checks: in a success case every event is accepted, in
 * a failure case the first event is rejected. The methods at the end call
 * `Service.Ingest` on each case: a failure case always returns an error and
 * writes no row; a success case fails only if the database does. As in the
 * statement cases, literals reach the lemmas through `requires` equalities.
 */
module IngestCases {
  import opened Data
  import opened Logs

  /** A dog of the test logs: a string name and breed and a numeric weight. */
  lemma DogEventValid(schema: Schema, event: Record, n: string, b: string, w: string, name: string, breed: string, weight: real)
    requires n == "name" && b == "breed" && w == "weight"
    requires schema == map[n := "string", b := "string", w := "int"]
    requires event == map[n := Str(name), b := Str(breed), w := Number(weight)]
    ensures EventValid(schema, event)
  {
    forall f | f in event
      ensures CheckField(schema, f, event[f]).None?
    {
      assert f == n || f == b || f == w;
    }
  }

  /** Every event accepted: `FirstRejected` runs to the end. */
  lemma AllAccepted(schema: Schema, events: seq<Record>, marshal: Record -> Option<string>)
    requires forall i :: 0 <= i < |events| ==> Accepted(schema, marshal, events[i])
    ensures FirstRejected(schema, events, marshal) == |events|
  {
    if |events| > 0 {
      AllAccepted(schema, events[1..], marshal);
    }
  }

  /**
   * "a correct schema should insert without problems": all three dogs are
   * accepted, so ingesting them fails only if the database does.
   */
  lemma DogRegistryAccepted(schema: Schema, events: seq<Record>, marshal: Record -> Option<string>,
                            n: string, b: string, w: string)
    requires n == "name" && b == "breed" && w == "weight"
    requires schema == map[n := "string", b := "string", w := "int"]
    requires events == [
      map[n := Str("max"), b := Str("chihuahua"), w := Number(3.0)],
      map[n := Str("spot"), b := Str("husky"), w := Number(130.0)],
      map[n := Str("spike"), b := Str("bulldog"), w := Number(80.0)]]
    requires forall i :: 0 <= i < |events| ==> marshal(events[i]).Some?
    ensures FirstRejected(schema, events, marshal) == 3
  {
    DogEventValid(schema, events[0], n, b, w, "max", "chihuahua", 3.0);
    DogEventValid(schema, events[1], n, b, w, "spot", "husky", 130.0);
    DogEventValid(schema, events[2], n, b, w, "spike", "bulldog", 80.0);
    AllAccepted(schema, events, marshal);
  }

  /**
   * "a schema with more fields than the logs should insert without problems":
   * the unused "age" entry changes nothing.
   */
  lemma DogRegistryWithAgeAccepted(schema: Schema, events: seq<Record>, marshal: Record -> Option<string>,
                                   n: string, b: string, w: string, a: string)
    requires n == "name" && b == "breed" && w == "weight" && a == "age"
    requires schema == map[n := "string", b := "string", w := "int", a := "int"]
    requires events == [
      map[n := Str("max"), b := Str("chihuahua"), w := Number(3.0)],
      map[n := Str("spot"), b := Str("husky"), w := Number(130.0)],
      map[n := Str("spike"), b := Str("bulldog"), w := Number(80.0)]]
    requires forall i :: 0 <= i < |events| ==> marshal(events[i]).Some?
    ensures FirstRejected(schema, events, marshal) == 3
  {
    var base := map[n := "string", b := "string", w := "int"];
    assert schema == base[a := "int"];
    forall i | 0 <= i < 3
      ensures Accepted(schema, marshal, events[i])
    {
      assert a !in events[i];
      ExtraSchemaEntryIgnored(base, events[i], a, "int");
    }
    DogRegistryAccepted(base, events, marshal, n, b, w);
    AllAccepted(schema, events, marshal);
  }

  /** "a schema with an unknown type should return an error": "float" is not a tag. */
  lemma UnknownTagRejected(schema: Schema, events: seq<Record>, marshal: Record -> Option<string>,
                           n: string, b: string, w: string)
    requires n == "name" && b == "breed" && w == "weight"
    requires schema == map[n := "float", b := "string", w := "int"]
    requires |events| == 3 && events[0] == map[n := Str("max"), b := Str("chihuahua"), w := Number(3.0)]
    ensures CheckField(schema, n, events[0][n]) == Some(Unsupported(n, "float"))
    ensures FirstRejected(schema, events, marshal) == 0
  {
    assert n in events[0];
  }

  /** "a schema that doesn't match the logs should return an error": "weight" is undeclared. */
  lemma MismatchedSchemaRejected(schema: Schema, events: seq<Record>, marshal: Record -> Option<string>,
                                 n: string, b: string, w: string, a: string)
    requires n == "name" && b == "breed" && w == "weight" && a == "age"
    requires schema == map[n := "string", b := "string", a := "int"]
    requires |events| == 3 && events[0] == map[n := Str("max"), b := Str("chihuahua"), w := Number(3.0)]
    ensures CheckField(schema, w, events[0][w]) == Some(Undeclared(w))
    ensures FirstRejected(schema, events, marshal) == 0
  {
    assert w !in schema;
    assert w in events[0];
  }

  /** "heterogenous logs that contain more fields than the schema return an error": "age" is undeclared. */
  lemma ExtraFieldRejected(schema: Schema, events: seq<Record>, marshal: Record -> Option<string>,
                           n: string, b: string, w: string, a: string)
    requires n == "name" && b == "breed" && w == "weight" && a == "age"
    requires schema == map[n := "string", b := "string", w := "int"]
    requires |events| == 3
    requires events[0] == map[n := Str("max"), b := Str("chihuahua"), w := Number(3.0), a := Number(10.0)]
    ensures CheckField(schema, a, events[0][a]) == Some(Undeclared(a))
    ensures FirstRejected(schema, events, marshal) == 0
  {
    assert a !in schema;
    assert a in events[0];
  }

  // ---------------------------------------------------------------------------
  // `Ingest` on the cases (JSON marshalling of these events does not fail)
  // ---------------------------------------------------------------------------

  /** The three dogs of every case but the last. */
  function Dogs(n: string, b: string, w: string): seq<Record>
  {
    [map[n := Str("max"), b := Str("chihuahua"), w := Number(3.0)],
     map[n := Str("spot"), b := Str("husky"), w := Number(130.0)],
     map[n := Str("spike"), b := Str("bulldog"), w := Number(80.0)]]
  }

  /** "a correct schema should insert without problems". */
  method IngestDogRegistry(service: Service, marshal: Record -> Option<string>) returns (err: Option<Error>)
    requires service.client.Valid() && service.client.db.Valid()
    requires forall e :: marshal(e).Some?
    modifies service.client, service.client.db
    ensures err.None? || IsLookupError("dog_registry", err) || IsInsertError(err)
  {
    var n, b, w := "name", "breed", "weight";
    var schema := map[n := "string", b := "string", w := "int"];
    var events := Dogs(n, b, w);
    DogRegistryAccepted(schema, events, marshal, n, b, w);
    err := IngestAccepted(service, "dog_registry", schema, events, marshal);
  }

  /** "a schema with more fields than the logs should insert without problems". */
  method IngestDogRegistryWithAge(service: Service, marshal: Record -> Option<string>) returns (err: Option<Error>)
    requires service.client.Valid() && service.client.db.Valid()
    requires forall e :: marshal(e).Some?
    modifies service.client, service.client.db
    ensures err.None? || IsLookupError("dog_registry", err) || IsInsertError(err)
  {
    var n, b, w, a := "name", "breed", "weight", "age";
    var schema := map[n := "string", b := "string", w := "int", a := "int"];
    var events := Dogs(n, b, w);
    DogRegistryWithAgeAccepted(schema, events, marshal, n, b, w, a);
    err := IngestAccepted(service, "dog_registry", schema, events, marshal);
  }

  /** "a schema with an unknown type should return an error". */
  method IngestUnknownTag(service: Service, marshal: Record -> Option<string>) returns (err: Option<Error>)
    requires service.client.Valid() && service.client.db.Valid()
    modifies service.client, service.client.db
    ensures err.Some?
    ensures service.client.db.rows == old(service.client.db.rows)
  {
    var n, b, w := "name", "breed", "weight";
    var schema := map[n := "float", b := "string", w := "int"];
    var events := Dogs(n, b, w);
    UnknownTagRejected(schema, events, marshal, n, b, w);
    err := IngestRejected(service, "dog_registry", schema, events, marshal);
  }

  /** "a schema that doesn't match the logs should return an error". */
  method IngestMismatchedSchema(service: Service, marshal: Record -> Option<string>) returns (err: Option<Error>)
    requires service.client.Valid() && service.client.db.Valid()
    modifies service.client, service.client.db
    ensures err.Some?
    ensures service.client.db.rows == old(service.client.db.rows)
  {
    var n, b, w, a := "name", "breed", "weight", "age";
    var schema := map[n := "string", b := "string", a := "int"];
    var events := Dogs(n, b, w);
    MismatchedSchemaRejected(schema, events, marshal, n, b, w, a);
    err := IngestRejected(service, "dog_registry", schema, events, marshal);
  }

  /** "heterogenous logs that contain more fields than the schema return an error". */
  method IngestExtraField(service: Service, marshal: Record -> Option<string>) returns (err: Option<Error>)
    requires service.client.Valid() && service.client.db.Valid()
    modifies service.client, service.client.db
    ensures err.Some?
    ensures service.client.db.rows == old(service.client.db.rows)
  {
    var n, b, w, a := "name", "breed", "weight", "age";
    var schema := map[n := "string", b := "string", w := "int"];
    var dogs := Dogs(n, b, w);
    var events := [dogs[0][a := Number(10.0)], dogs[1], dogs[2]];
    ExtraFieldRejected(schema, events, marshal, n, b, w, a);
    err := IngestRejected(service, "dog_registry", schema, events, marshal);
  }
}
