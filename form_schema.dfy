/**
 * The form-data schema: a seven-field object checked by the schema library's
 * object, boolean, number (with inclusive `min`/`max`) and string validators.
 * Validation is non-strict: unknown keys are dropped from the result, and
 * every violated field is reported, in the order the schema declares them.
 */
module FormSchema {
  import opened Results
  import opened JsonValue

  /** A record the schema accepted; only the seven declared keys survive. */
  datatype FormData = FormData(
    inheritanceRights: bool,
    usageLevel1: real,
    usageLevel2: real,
    usageLevel3: real,
    usageLevel4: real,
    freeDescription: string,
    contactInfo: string)

  /** The validators the schema's fields use. */
  datatype FieldType =
    | BooleanField  // z.boolean()
    | LevelField    // z.number().min(1).max(4)
    | StringField   // z.string()

  const LevelMin: real := 1.0
  const LevelMax: real := 4.0

  /** The schema's shape, in declaration order. */
  const Shape: seq<(string, FieldType)> := [
    ("inheritanceRights", BooleanField),
    ("usageLevel1", LevelField),
    ("usageLevel2", LevelField),
    ("usageLevel3", LevelField),
    ("usageLevel4", LevelField),
    ("freeDescription", StringField),
    ("contactInfo", StringField)
  ]

  /** The declared keys. */
  const ShapeKeys: set<string> := set i | 0 <= i < |Shape| :: Shape[i].0

  /** One reported violation; `path` is `[]` for the input itself and `[key]` for a field. */
  datatype Issue =
    | InvalidType(path: seq<string>, expected: Kind, received: Kind)
    | TooSmall(path: seq<string>, minimum: real)
    | TooBig(path: seq<string>, maximum: real)

  /** Whether one field's value (absent or present) satisfies its validator. */
  predicate FieldAccepts(t: FieldType, v: Option<Json>)
  {
    match t
    case BooleanField => v.Some? && v.value.JBool?
    case LevelField => v.Some? && v.value.JNumber? && LevelMin <= v.value.n <= LevelMax
    case StringField => v.Some? && v.value.JString?
  }

  /** The schema as one predicate over an untyped value: the acceptance condition. */
  predicate Accepts(j: Json)
  {
    && j.JObject?
    && "inheritanceRights" in j.fields && j.fields["inheritanceRights"].JBool?
    && IsLevel(j.fields, "usageLevel1")
    && IsLevel(j.fields, "usageLevel2")
    && IsLevel(j.fields, "usageLevel3")
    && IsLevel(j.fields, "usageLevel4")
    && "freeDescription" in j.fields && j.fields["freeDescription"].JString?
    && "contactInfo" in j.fields && j.fields["contactInfo"].JString?
  }

  /** A key holding a number in the closed range [1, 4]; integrality is not required. */
  predicate IsLevel(fields: map<string, Json>, key: string)
  {
    key in fields && fields[key].JNumber? && 1.0 <= fields[key].n <= 4.0
  }

  /** The issues one field validator reports for a value. */
  function FieldIssues(key: string, t: FieldType, v: Option<Json>): (issues: seq<Issue>)
    ensures issues == [] <==> FieldAccepts(t, v)
    ensures |issues| <= 1
    ensures forall x :: x in issues ==> x.path == [key]
  {
    match t
    case BooleanField =>
      if v.Some? && v.value.JBool? then [] else [InvalidType([key], Boolean, KindOf(v))]
    case StringField =>
      if v.Some? && v.value.JString? then [] else [InvalidType([key], String, KindOf(v))]
    case LevelField =>
      if v.Some? && v.value.JNumber? then
        (if v.value.n < LevelMin then [TooSmall([key], LevelMin)] else [])
        + (if v.value.n > LevelMax then [TooBig([key], LevelMax)] else [])
      else [InvalidType([key], Number, KindOf(v))]
  }

  /** The paths of a list of issues. */
  function Paths(issues: seq<Issue>): set<seq<string>>
  {
    set x | x in issues :: x.path
  }

  /** The keys of `shape` whose values in `fields` fail their validator, as paths. */
  function FailingPaths(fields: map<string, Json>, shape: seq<(string, FieldType)>): set<seq<string>>
  {
    set i | 0 <= i < |shape| && !FieldAccepts(shape[i].1, Lookup(fields, shape[i].0)) :: [shape[i].0]
  }

  /** The paths of a list of issues, in report order. */
  function PathList(issues: seq<Issue>): seq<seq<string>>
  {
    if issues == [] then [] else [issues[0].path] + PathList(issues[1..])
  }

  /** The keys of `shape` whose values in `fields` fail their validator, as paths, in shape order. */
  function FailingKeys(fields: map<string, Json>, shape: seq<(string, FieldType)>): seq<seq<string>>
  {
    if shape == [] then []
    else
      (if FieldAccepts(shape[0].1, Lookup(fields, shape[0].0)) then [] else [[shape[0].0]])
      + FailingKeys(fields, shape[1..])
  }

  /**
   * The issues of every field of `shape`, aggregated in shape order: empty
   * exactly when every field is accepted, and reporting exactly the failing keys.
   */
  function ShapeIssues(fields: map<string, Json>, shape: seq<(string, FieldType)>): (issues: seq<Issue>)
    ensures issues == [] <==> forall i :: 0 <= i < |shape| ==> FieldAccepts(shape[i].1, Lookup(fields, shape[i].0))
    ensures Paths(issues) == FailingPaths(fields, shape)
  {
    if shape == [] then []
    else
      var head := FieldIssues(shape[0].0, shape[0].1, Lookup(fields, shape[0].0));
      var rest := ShapeIssues(fields, shape[1..]);
      assert Paths(head + rest) == Paths(head) + Paths(rest);
      assert FailingPaths(fields, shape) == FailingPaths(fields, shape[..1]) + FailingPaths(fields, shape[1..]) by {
        FailingPathsSplit(fields, shape);
      }
      head + rest
  }

  lemma FailingPathsSplit(fields: map<string, Json>, shape: seq<(string, FieldType)>)
    requires shape != []
    ensures FailingPaths(fields, shape) == FailingPaths(fields, shape[..1]) + FailingPaths(fields, shape[1..])
  {
    forall p | p in FailingPaths(fields, shape)
      ensures p in FailingPaths(fields, shape[..1]) + FailingPaths(fields, shape[1..])
    {
      var i :| 0 <= i < |shape| && !FieldAccepts(shape[i].1, Lookup(fields, shape[i].0)) && p == [shape[i].0];
      if i > 0 {
        assert shape[1..][i - 1] == shape[i];
      } else {
        assert shape[..1][0] == shape[0];
      }
    }
    forall p | p in FailingPaths(fields, shape[1..])
      ensures p in FailingPaths(fields, shape)
    {
      var i :| 0 <= i < |shape[1..]| && !FieldAccepts(shape[1..][i].1, Lookup(fields, shape[1..][i].0)) && p == [shape[1..][i].0];
      assert shape[1..][i] == shape[i + 1];
    }
    forall p | p in FailingPaths(fields, shape[..1])
      ensures p in FailingPaths(fields, shape)
    {
      assert shape[..1][0] == shape[0];
    }
  }

  /** The validated record, keeping only the declared keys. */
  function Build(fields: map<string, Json>): (d: FormData)
    requires Accepts(JObject(fields))
  {
    FormData(
      fields["inheritanceRights"].b,
      fields["usageLevel1"].n,
      fields["usageLevel2"].n,
      fields["usageLevel3"].n,
      fields["usageLevel4"].n,
      fields["freeDescription"].s,
      fields["contactInfo"].s)
  }

  /** The record as the plain object the schema library returns (and `JSON.stringify` sees). */
  function ToJson(d: FormData): (j: Json)
    ensures j.JObject? && j.fields.Keys == ShapeKeys
  {
    var j := JObject(map[
      "inheritanceRights" := JBool(d.inheritanceRights),
      "usageLevel1" := JNumber(d.usageLevel1),
      "usageLevel2" := JNumber(d.usageLevel2),
      "usageLevel3" := JNumber(d.usageLevel3),
      "usageLevel4" := JNumber(d.usageLevel4),
      "freeDescription" := JString(d.freeDescription),
      "contactInfo" := JString(d.contactInfo)]);
    assert j.fields.Keys == ShapeKeys by { ShapeKeysAre(); }
    j
  }

  lemma ShapeKeysAre()
    ensures ShapeKeys == {"inheritanceRights", "usageLevel1", "usageLevel2", "usageLevel3",
                          "usageLevel4", "freeDescription", "contactInfo"}
  {
    assert Shape[0].0 == "inheritanceRights";
    assert Shape[1].0 == "usageLevel1";
    assert Shape[2].0 == "usageLevel2";
    assert Shape[3].0 == "usageLevel3";
    assert Shape[4].0 == "usageLevel4";
    assert Shape[5].0 == "freeDescription";
    assert Shape[6].0 == "contactInfo";
  }

  /** A record whose four levels lie in the schema's range, i.e. one the schema can return. */
  predicate Valid(d: FormData)
  {
    && LevelMin <= d.usageLevel1 <= LevelMax
    && LevelMin <= d.usageLevel2 <= LevelMax
    && LevelMin <= d.usageLevel3 <= LevelMax
    && LevelMin <= d.usageLevel4 <= LevelMax
  }

  /** The shape-ordered check agrees with the schema predicate on objects. */
  lemma ShapeAcceptsIffAccepts(fields: map<string, Json>)
    ensures (forall i :: 0 <= i < |Shape| ==> FieldAccepts(Shape[i].1, Lookup(fields, Shape[i].0)))
            <==> Accepts(JObject(fields))
  {
    assert FieldAccepts(Shape[0].1, Lookup(fields, Shape[0].0)) <==> "inheritanceRights" in fields && fields["inheritanceRights"].JBool?;
    assert FieldAccepts(Shape[1].1, Lookup(fields, Shape[1].0)) <==> IsLevel(fields, "usageLevel1");
    assert FieldAccepts(Shape[2].1, Lookup(fields, Shape[2].0)) <==> IsLevel(fields, "usageLevel2");
    assert FieldAccepts(Shape[3].1, Lookup(fields, Shape[3].0)) <==> IsLevel(fields, "usageLevel3");
    assert FieldAccepts(Shape[4].1, Lookup(fields, Shape[4].0)) <==> IsLevel(fields, "usageLevel4");
    assert FieldAccepts(Shape[5].1, Lookup(fields, Shape[5].0)) <==> "freeDescription" in fields && fields["freeDescription"].JString?;
    assert FieldAccepts(Shape[6].1, Lookup(fields, Shape[6].0)) <==> "contactInfo" in fields && fields["contactInfo"].JString?;
  }

  /**
   * `formDataSchema.safeParse`: a non-object is one type issue at the root;
   * an object yields the record when every field passes, and otherwise
   * the issues of every failing field.
   */
  function Validate(j: Json): (r: Result<FormData, seq<Issue>>)
    ensures r.Ok? <==> Accepts(j)
    ensures r.Ok? ==> Valid(r.value)
    ensures r.Ok? ==> forall k :: k in ShapeKeys ==> ToJson(r.value).fields[k] == j.fields[k]
    ensures r.Err? ==> r.error != []
    ensures r.Err? && !j.JObject? ==> r.error == [InvalidType([], Object, KindOf(Some(j)))]
    ensures r.Err? && j.JObject? ==> Paths(r.error) == FailingPaths(j.fields, Shape)
  {
    if !j.JObject? then Err([InvalidType([], Object, KindOf(Some(j)))])
    else
      var issues := ShapeIssues(j.fields, Shape);
      ShapeAcceptsIffAccepts(j.fields);
      if issues == [] then
        var d := Build(j.fields);
        ShapeKeysAre();
        Ok(d)
      else Err(issues)
  }

  /** Listing at most one issue before others keeps the paths in that order. */
  lemma PathListPrefix(head: seq<Issue>, rest: seq<Issue>)
    requires |head| <= 1
    ensures PathList(head + rest) == PathList(head) + PathList(rest)
  {
    if head == [] {
      assert head + rest == rest;
    } else {
      assert (head + rest)[1..] == rest;
      assert PathList(head[1..]) == [];
    }
  }

  /** The issues over a shape report the failing keys one each, in shape order. */
  lemma {:induction false} ShapeIssuesInOrder(fields: map<string, Json>, shape: seq<(string, FieldType)>)
    ensures PathList(ShapeIssues(fields, shape)) == FailingKeys(fields, shape)
  {
    if shape != [] {
      var head := FieldIssues(shape[0].0, shape[0].1, Lookup(fields, shape[0].0));
      ShapeIssuesInOrder(fields, shape[1..]);
      PathListPrefix(head, ShapeIssues(fields, shape[1..]));
    }
  }

  /**
   * A rejected object is reported one issue per failing declared key, in the
   * order the schema declares the keys.
   */
  lemma ValidateReportsInOrder(j: Json)
    requires j.JObject? && Validate(j).Err?
    ensures PathList(Validate(j).error) == FailingKeys(j.fields, Shape)
  {
    ShapeIssuesInOrder(j.fields, Shape);
  }

  /**
   * Validation is idempotent: the record validation returns, serialised as
   * the object it is, validates to itself. Extra input keys are gone from it.
   */
  lemma ValidateIdempotent(j: Json)
    requires Validate(j).Ok?
    ensures Validate(ToJson(Validate(j).value)) == Validate(j)
  {
    ValidRecordValidates(Validate(j).value);
  }

  /** Every record within the level range is accepted and comes back unchanged. */
  lemma ValidRecordValidates(d: FormData)
    requires Valid(d)
    ensures Validate(ToJson(d)) == Ok(d)
  {
    var j := ToJson(d);
    assert Accepts(j);
  }

  /** The validated record holds exactly the declared keys with the input's values. */
  lemma ValidateKeepsDeclaredKeys(j: Json)
    requires Validate(j).Ok?
    ensures ToJson(Validate(j).value).fields == map k | k in ShapeKeys :: j.fields[k]
  {
    ShapeKeysAre();
  }

  /** A missing declared key is a failing path. */
  lemma MissingKeyRejected(fields: map<string, Json>, k: string)
    requires k in ShapeKeys && k !in fields
    ensures Validate(JObject(fields)).Err?
    ensures [k] in Paths(Validate(JObject(fields)).error)
  {
    var i :| 0 <= i < |Shape| && Shape[i].0 == k;
    assert !FieldAccepts(Shape[i].1, Lookup(fields, Shape[i].0));
  }
}
