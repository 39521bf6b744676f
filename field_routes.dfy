/**
 * The field registry behind `/fields`: an in-memory table of field records
 * keyed by string ids, where a new id is one more than the current number of
 * records. Responses are reduced to their status code and payload.
 */
module FieldRoutes {
  import opened Wrappers

  const Ok: int := 200
  const Created: int := 201
  const BadRequest: int := 400
  const NotFound: int := 404

  /** A stored record; `None` in `name` or `coordinates` is a JSON null the client sent. */
  datatype Field = Field(
    id: string,
    name: Option<string>,
    coordinates: Option<seq<real>>,
    createdAt: Option<string>,
    baselineCalculated: bool)

  /**
   * The keys of a JSON body that the endpoint reads. The outer `Option` of
   * `name` and `coordinates` says whether the key is present, the inner one
   * whether its value is null; `created_at` is read with `get`, for which
   * absent and null are the same.
   */
  datatype FieldRequest = FieldRequest(
    name: Option<Option<string>>,
    coordinates: Option<Option<seq<real>>>,
    createdAt: Option<string>)

  function DigitChar(d: nat): (c: char)
    requires d < 10
    ensures '0' <= c <= '9' && DigitValue(c) == d
  {
    ('0' as int + d) as char
  }

  function DigitValue(c: char): nat
  {
    if '0' <= c <= '9' then c as int - '0' as int else 0
  }

  /** The number a string of decimal digits denotes, as `int(s)` reads it. */
  function DigitsValue(s: string): nat
  {
    if s == [] then 0 else DigitsValue(s[..|s| - 1]) * 10 + DigitValue(s[|s| - 1])
  }

  /** `str(n)` for a natural number: its decimal digits, without leading zeros. */
  function NatToString(n: nat): (s: string)
    ensures |s| >= 1 && forall i :: 0 <= i < |s| ==> '0' <= s[i] <= '9'
    ensures |s| == 1 || s[0] != '0'
    ensures DigitsValue(s) == n
  {
    if n < 10 then [DigitChar(n)]
    else
      var s := NatToString(n / 10) + [DigitChar(n % 10)];
      assert s[..|s| - 1] == NatToString(n / 10);
      s
  }

  /** Different numbers give different strings, so ids differ exactly when the counts they come from do. */
  lemma NatToStringInjective(a: nat, b: nat)
    ensures NatToString(a) == NatToString(b) <==> a == b
  {
  }

  /** `str(len(fields_db) + 1)` */
  function NextId(fields: map<string, Field>): (id: string)
    ensures DigitsValue(id) == |fields| + 1
  {
    NatToString(|fields| + 1)
  }

  /**
   * The record `create_field` builds: `coordinates` as sent, null included;
   * `name` as sent, null included, or "Tarla <id>" when the key is absent;
   * no baseline yet.
   */
  function NewField(id: string, req: FieldRequest): (f: Field)
    requires req.coordinates.Some?
    ensures f.id == id && f.coordinates == req.coordinates.value && !f.baselineCalculated
    ensures f.createdAt == req.createdAt
    ensures req.name.None? ==> f.name == Some("Tarla " + id)
    ensures req.name.Some? ==> f.name == req.name.value
  {
    Field(id, req.name.GetOr(Some("Tarla " + id)), req.coordinates.value, req.createdAt, false)
  }

  /** `s` without the element `k`, order kept. */
  function Without(s: seq<string>, k: string): (r: seq<string>)
    ensures forall x :: x in r <==> x in s && x != k
    ensures |r| <= |s|
  {
    if s == [] then []
    else if s[0] == k then Without(s[1..], k)
    else [s[0]] + Without(s[1..], k)
  }

  predicate Distinct(s: seq<string>)
  {
    forall i, j :: 0 <= i < j < |s| ==> s[i] != s[j]
  }

  lemma {:induction false} WithoutKeepsDistinct(s: seq<string>, k: string)
    requires Distinct(s)
    ensures Distinct(Without(s, k))
  {
    if s != [] {
      WithoutKeepsDistinct(s[1..], k);
      assert Distinct(s[1..]) by {
        forall i, j | 0 <= i < j < |s[1..]| ensures s[1..][i] != s[1..][j] {
          assert s[1..][i] == s[i + 1] && s[1..][j] == s[j + 1];
        }
      }
      if s[0] != k {
        var r := [s[0]] + Without(s[1..], k);
        forall i, j | 0 <= i < j < |r| ensures r[i] != r[j] {
          if i == 0 {
            assert r[j] in Without(s[1..], k);
            assert s[0] !in s[1..] by {
              forall m | 0 <= m < |s[1..]| ensures s[1..][m] != s[0] {
                assert s[1..][m] == s[m + 1];
              }
            }
          } else {
            assert r[i] == Without(s[1..], k)[i - 1] && r[j] == Without(s[1..], k)[j - 1];
          }
        }
      }
    }
  }

  class FieldRegistry {
    /** `fields_db` */
    var fields: map<string, Field>
    /** The keys of `fields_db` in insertion order, as a Python dict keeps them. */
    var order: seq<string>

    /** Every key is listed once, and every record sits under its own id. */
    predicate Valid()
      reads this
    {
      (forall k :: k in fields ==> k in order) &&
      (forall k :: k in order ==> k in fields) &&
      Distinct(order) &&
      (forall k :: k in fields ==> fields[k].id == k)
    }

    constructor()
      ensures Valid() && fields == map[] && order == []
    {
      fields := map[];
      order := [];
    }

    /** `GET /fields`: the records in insertion order. */
    method ListFields() returns (records: seq<Field>)
      requires Valid()
      ensures |records| == |order|
      ensures forall i :: 0 <= i < |order| ==> records[i] == fields[order[i]]
      ensures forall f :: f in records <==> exists k :: k in fields && fields[k] == f
    {
      records := [];
      for i := 0 to |order|
        invariant |records| == i
        invariant forall j :: 0 <= j < i ==> records[j] == fields[order[j]]
      {
        records := records + [fields[order[i]]];
      }
      forall f | f in records ensures exists k :: k in fields && fields[k] == f {
        var j :| 0 <= j < |records| && records[j] == f;
        assert order[j] in fields;
      }
      forall f | exists k :: k in fields && fields[k] == f ensures f in records {
        var k :| k in fields && fields[k] == f;
        var j :| 0 <= j < |order| && order[j] == k;
        assert records[j] == f;
      }
    }

    /**
     * `POST /fields`: without a body or without a `coordinates` key, 400
     * and no change; otherwise a record under `str(len + 1)`, replacing any
     * record already stored under that id.
     */
    method CreateField(body: Option<FieldRequest>) returns (status: int, field: Option<Field>)
      requires Valid()
      modifies this
      ensures Valid()
      ensures body.None? || body.value.coordinates.None? ==>
        status == BadRequest && field.None? && fields == old(fields) && order == old(order)
      ensures body.Some? && body.value.coordinates.Some? ==>
        var id := NextId(old(fields));
        status == Created && field == Some(NewField(id, body.value)) &&
        fields == old(fields)[id := field.value] &&
        order == if id in old(fields) then old(order) else old(order) + [id]
    {
      if body.None? || body.value.coordinates.None? {
        return BadRequest, None;
      }
      var id := NextId(fields);
      var f := NewField(id, body.value);
      if id !in fields {
        order := order + [id];
      }
      fields := fields[id := f];
      status, field := Created, Some(f);
    }

    /** `GET /fields/<id>` */
    method GetField(id: string) returns (status: int, field: Option<Field>)
      requires Valid()
      ensures id in fields ==> status == Ok && field == Some(fields[id]) && field.value.id == id
      ensures id !in fields ==> status == NotFound && field.None?
    {
      if id !in fields {
        return NotFound, None;
      }
      return Ok, Some(fields[id]);
    }

    /** `DELETE /fields/<id>`: 404 and no change for an unknown id; otherwise exactly that record goes. */
    method DeleteField(id: string) returns (status: int)
      requires Valid()
      modifies this
      ensures Valid()
      ensures id !in old(fields) ==> status == NotFound && fields == old(fields) && order == old(order)
      ensures id in old(fields) ==>
        status == Ok && fields == old(fields) - {id} && order == Without(old(order), id)
    {
      if id !in fields {
        return NotFound;
      }
      WithoutKeepsDistinct(order, id);
      fields := fields - {id};
      order := Without(order, id);
      status := Ok;
    }
  }

  /**
   * Ids are not unique over time: after creating fields "1" and "2" and
   * deleting "1", one record is left, so the next id is "2" again and the
   * next create overwrites the live field "2".
   */
  lemma IdReuseAfterDelete(f1: Field, f2: Field)
    ensures NextId(map[]) == "1"
    ensures NextId(map["1" := f1]) == "2"
    ensures var left := map["1" := f1, "2" := f2] - {"1"};
      NextId(left) == "2" && "2" in left
  {
    var left := map["1" := f1, "2" := f2] - {"1"};
    assert left == map["2" := f2];
    assert |map["1" := f1]| == 1;
  }
}
