/**
 * `usePutProfile`: the profile update sends only the whitelisted fields the caller defined, and
 * refuses to send anything without a token.
 */
module PutProfile {
  import opened Common

  /** A field value as JavaScript sees it; a missing key reads as `Undefined`. */
  datatype Value = Undefined | Null | Bool(b: bool) | Text(s: string)

  type Fields = map<string, Value>

  const ProfilePath := "/user/profile"
  const AllowedFields := ["name", "public_profile"]

  function Read(fields: Fields, key: string): Value {
    if key in fields then fields[key] else Undefined
  }

  /** The loop over the allowed keys: each defined one is copied into the body. */
  function CopyDefined(keys: seq<string>, fields: Fields): (body: Fields)
    ensures body.Keys <= set k | k in keys
    ensures forall k :: k in keys ==> (k in body <==> Read(fields, k) != Undefined)
    ensures forall k :: k in body ==> body[k] == Read(fields, k)
  {
    if |keys| == 0 then map[]
    else
      var body := CopyDefined(keys[..|keys| - 1], fields);
      var k := keys[|keys| - 1];
      assert forall j :: j in keys ==> j in keys[..|keys| - 1] || j == k by {
        assert keys == keys[..|keys| - 1] + [k];
      }
      if Read(fields, k) != Undefined then body[k := fields[k]] else body
  }

  datatype Request = NoToken | Put(path: string, body: Fields)

  /** `mutationFn`: without a token it fails before any request. */
  function Mutation(idToken: Option<string>, fields: Fields): (r: Request)
    ensures r.NoToken? <==> !TruthyStr(idToken)
    ensures r.Put? ==> r.path == ProfilePath
    ensures r.Put? ==> r.body.Keys <= {"name", "public_profile"}
    ensures r.Put? ==> forall k :: k in AllowedFields ==> (k in r.body <==> Read(fields, k) != Undefined)
    ensures r.Put? ==> forall k :: k in r.body ==> r.body[k] == Read(fields, k)
  {
    if !TruthyStr(idToken) then NoToken
    else Put(ProfilePath, CopyDefined(AllowedFields, fields))
  }

  /** A `null` name is defined, so it is sent as `null`; only `undefined` is left out. */
  lemma NullIsSent(idToken: string)
    requires |idToken| > 0
    ensures Mutation(Some(idToken), map["name" := Null]) == Put(ProfilePath, map["name" := Null])
  {
    var b := Mutation(Some(idToken), map["name" := Null]).body;
    assert "name" in AllowedFields;
    assert b.Keys == {"name"};
  }

  /** The distance-unit update from the profile page sends an empty body: the field is never allowed. */
  lemma DistanceUnitDropped(idToken: string, unit: string)
    requires |idToken| > 0
    ensures Mutation(Some(idToken), map["distance_unit" := Text(unit)]) == Put(ProfilePath, map[])
  {
    var b := Mutation(Some(idToken), map["distance_unit" := Text(unit)]).body;
    assert "name" != "distance_unit" && "public_profile" != "distance_unit";
    assert b.Keys == {};
  }

  /** Unknown keys have no influence on what is sent. */
  lemma ExtraFieldsIgnored(idToken: Option<string>, fields: Fields, key: string, v: Value)
    requires key !in AllowedFields
    ensures Mutation(idToken, fields[key := v]) == Mutation(idToken, fields)
  {
    if TruthyStr(idToken) {
      var a := Mutation(idToken, fields[key := v]).body;
      var b := Mutation(idToken, fields).body;
      assert a.Keys == b.Keys;
    }
  }
}
