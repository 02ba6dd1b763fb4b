/** The tool definition model of agent_layer/tool_registry.py: the `ToolParameter`
    and `ToolDefinition` records and the OpenAI function-calling schema that
    `ToolDefinition.to_openai_schema` renders from a definition. */
module ToolModel {
  import opened PyValues

  /** A tool's function, called with the validated arguments as keywords. Whether
      the function is a coroutine only decides whether it is awaited, so both
      kinds are one call here. */
  type Callable = map<string, Value> -> CallResult

  /** One declared argument. `minimum`/`maximum` are Python floats, modelled as
      reals; `default` is `Null` when the declaration gives none (Python `None`). */
  datatype ToolParameter = ToolParameter(
    name: string,
    paramType: string,
    description: string,
    required: bool := true,
    enum: Option<seq<Value>> := None,
    minimum: Option<real> := None,
    maximum: Option<real> := None,
    default: Value := Null)
  {
    /** `if param.enum`: an absent or empty enum list constrains nothing. */
    predicate HasEnum()
    {
      enum.Some? && |enum.value| > 0
    }
  }

  datatype ToolDefinition = ToolDefinition(
    name: string,
    description: string,
    parameters: seq<ToolParameter> := [],
    callable: Option<Callable> := None,
    category: string := "general")

  /** The names declared by a parameter list. */
  function NameSet(ps: seq<ToolParameter>): set<string>
  {
    set i | 0 <= i < |ps| :: ps[i].name
  }

  /** A schema field that is emitted only when it has a value. */
  function OptionalField(key: string, v: Option<Value>): seq<(string, Value)>
  {
    if v.Some? then [(key, v.value)] else []
  }

  function EnumField(p: ToolParameter): Option<Value>
  {
    if p.HasEnum() then Some(Arr(p.enum.value)) else None
  }

  function BoundField(bound: Option<real>): Option<Value>
  {
    if bound.Some? then Some(Real(bound.value)) else None
  }

  function DefaultField(p: ToolParameter): Option<Value>
  {
    if p.default != Null then Some(p.default) else None
  }

  /** The schema of one parameter (`param_schema`). */
  function ParamSchema(p: ToolParameter): (s: Value)
    ensures s.Obj? && 2 <= |s.fields| <= 6
  {
    Obj([("type", Str(p.paramType)), ("description", Str(p.description))]
      + OptionalField("enum", EnumField(p))
      + OptionalField("minimum", BoundField(p.minimum))
      + OptionalField("maximum", BoundField(p.maximum))
      + OptionalField("default", DefaultField(p)))
  }

  /** `type` and `description` are always emitted, first; `enum` only when the
      list is non-empty; `minimum`, `maximum` and `default` only when not `None`;
      no other key appears. */
  lemma ParamSchemaFields(p: ToolParameter)
    ensures ParamSchema(p).Obj?
    ensures Lookup(ParamSchema(p).fields, "type") == Some(Str(p.paramType))
    ensures Lookup(ParamSchema(p).fields, "description") == Some(Str(p.description))
    ensures Lookup(ParamSchema(p).fields, "enum") == if p.HasEnum() then Some(Arr(p.enum.value)) else None
    ensures Lookup(ParamSchema(p).fields, "minimum") == if p.minimum.Some? then Some(Real(p.minimum.value)) else None
    ensures Lookup(ParamSchema(p).fields, "maximum") == if p.maximum.Some? then Some(Real(p.maximum.value)) else None
    ensures Lookup(ParamSchema(p).fields, "default") == if p.default != Null then Some(p.default) else None
  {
    SchemaLookup(p, "type");
    SchemaLookup(p, "description");
    SchemaLookup(p, "enum");
    SchemaLookup(p, "minimum");
    SchemaLookup(p, "maximum");
    SchemaLookup(p, "default");
  }

  /** The keys of a parameter's schema: `type` and `description` first, and
      nothing outside the six known keys. */
  lemma ParamSchemaKeys(p: ToolParameter)
    ensures ParamSchema(p).Obj?
    ensures Keys(ParamSchema(p).fields)[..2] == ["type", "description"]
    ensures forall k :: k in Keys(ParamSchema(p).fields) ==> k in ["type", "description", "enum", "minimum", "maximum", "default"]
  {
    var fields := ParamSchema(p).fields;
    assert fields[0] == ("type", Str(p.paramType)) && fields[1] == ("description", Str(p.description));
    forall k | k in Keys(fields) ensures k in ["type", "description", "enum", "minimum", "maximum", "default"] {
      SchemaLookup(p, k);
    }
  }

  lemma SchemaLookup(p: ToolParameter, k: string)
    ensures Lookup(ParamSchema(p).fields, k)
         == if k == "type" then Some(Str(p.paramType))
            else if k == "description" then Some(Str(p.description))
            else if k == "enum" then EnumField(p)
            else if k == "minimum" then BoundField(p.minimum)
            else if k == "maximum" then BoundField(p.maximum)
            else if k == "default" then DefaultField(p)
            else None
  {
    var a := [("type", Str(p.paramType)), ("description", Str(p.description))];
    assert FirstIndex(a, k) == if k == "type" then 0 else if k == "description" then 1 else 2 by {
      assert a[1..][1..] == [];
    }
    LookupOptional("enum", EnumField(p), k);
    LookupOptional("minimum", BoundField(p.minimum), k);
    LookupOptional("maximum", BoundField(p.maximum), k);
    LookupOptional("default", DefaultField(p), k);
    LookupAppend4(a, OptionalField("enum", EnumField(p)), OptionalField("minimum", BoundField(p.minimum)),
                  OptionalField("maximum", BoundField(p.maximum)), OptionalField("default", DefaultField(p)), k);
  }

  lemma LookupOptional(key: string, v: Option<Value>, k: string)
    ensures Lookup(OptionalField(key, v), k) == if k == key then v else None
  {
  }

  lemma LookupAppend4(a: seq<(string, Value)>, e: seq<(string, Value)>, mn: seq<(string, Value)>,
                      mx: seq<(string, Value)>, d: seq<(string, Value)>, k: string)
    ensures Lookup(a + e + mn + mx + d, k)
         == if Lookup(a, k).Some? then Lookup(a, k)
            else if Lookup(e, k).Some? then Lookup(e, k)
            else if Lookup(mn, k).Some? then Lookup(mn, k)
            else if Lookup(mx, k).Some? then Lookup(mx, k)
            else Lookup(d, k)
  {
    LookupAppend(a, e, k);
    LookupAppend(a + e, mn, k);
    LookupAppend(a + e + mn, mx, k);
    LookupAppend(a + e + mn + mx, d, k);
  }

  /** The `properties` dict after the loop has seen `ps`: a later parameter with
      an earlier one's name replaces its schema in place. */
  function Properties(ps: seq<ToolParameter>): seq<(string, Value)>
  {
    if ps == [] then []
    else DictSet(Properties(ps[..|ps| - 1]), ps[|ps| - 1].name, ParamSchema(ps[|ps| - 1]))
  }

  /** The `required` list after the loop has seen `ps`. */
  function RequiredList(ps: seq<ToolParameter>): seq<Value>
  {
    if ps == [] then []
    else RequiredList(ps[..|ps| - 1]) + (if ps[|ps| - 1].required then [Str(ps[|ps| - 1].name)] else [])
  }

  /** The value `to_openai_schema` returns for `d`. */
  function Schema(d: ToolDefinition): Value
  {
    Obj([
      ("type", Str("function")),
      ("function", Obj([
        ("name", Str(d.name)),
        ("description", Str(d.description)),
        ("parameters", Obj([
          ("type", Str("object")),
          ("properties", Obj(Properties(d.parameters))),
          ("required", Arr(RequiredList(d.parameters)))]))]))])
  }

  /** `ToolDefinition.to_openai_schema`: fills `properties` and `required` in one
      pass over the parameters and wraps them in the function envelope. */
  method ToOpenAISchema(d: ToolDefinition) returns (r: Value)
    ensures r == Schema(d)
  {
    var properties: seq<(string, Value)> := [];
    var required: seq<Value> := [];
    var i := 0;
    while i < |d.parameters|
      invariant 0 <= i <= |d.parameters|
      invariant properties == Properties(d.parameters[..i])
      invariant required == RequiredList(d.parameters[..i])
    {
      var param := d.parameters[i];
      var paramSchema := ParamSchema(param);
      assert d.parameters[..i + 1][..i] == d.parameters[..i];
      properties := DictSet(properties, param.name, paramSchema);
      if param.required {
        required := required + [Str(param.name)];
      }
      i := i + 1;
    }
    assert d.parameters[..i] == d.parameters;
    r := Obj([
      ("type", Str("function")),
      ("function", Obj([
        ("name", Str(d.name)),
        ("description", Str(d.description)),
        ("parameters", Obj([
          ("type", Str("object")),
          ("properties", Obj(properties)),
          ("required", Arr(required))]))]))]);
  }

  /** Every declared name is a key of `properties`, and nothing else is. */
  lemma {:induction false} PropertiesKeys(ps: seq<ToolParameter>)
    ensures forall k :: k in Keys(Properties(ps)) <==> k in NameSet(ps)
    ensures Distinct(Keys(Properties(ps)))
  {
    if ps != [] {
      var init := ps[..|ps| - 1];
      var last := ps[|ps| - 1];
      PropertiesKeys(init);
      DictSetKeys(Properties(init), last.name, ParamSchema(last));
      assert NameSet(ps) == NameSet(init) + {last.name} by {
        assert forall i :: 0 <= i < |init| ==> init[i] == ps[i];
      }
    }
  }

  /** The schema kept under a name is that of the LAST parameter declared with it. */
  lemma {:induction false} PropertiesLookup(ps: seq<ToolParameter>, i: nat)
    requires i < |ps|
    requires forall j :: i < j < |ps| ==> ps[j].name != ps[i].name
    ensures Lookup(Properties(ps), ps[i].name) == Some(ParamSchema(ps[i]))
  {
    var init := ps[..|ps| - 1];
    var last := ps[|ps| - 1];
    DictSetLookup(Properties(init), last.name, ParamSchema(last), ps[i].name);
    if i < |ps| - 1 {
      PropertiesLookup(init, i);
    }
  }

  /** With distinct names, every parameter's own schema sits under its name. */
  lemma PropertiesOfDistinct(ps: seq<ToolParameter>)
    requires forall i, j :: 0 <= i < j < |ps| ==> ps[i].name != ps[j].name
    ensures forall i :: 0 <= i < |ps| ==> Lookup(Properties(ps), ps[i].name) == Some(ParamSchema(ps[i]))
  {
    forall i | 0 <= i < |ps| ensures Lookup(Properties(ps), ps[i].name) == Some(ParamSchema(ps[i])) {
      PropertiesLookup(ps, i);
    }
  }

  /** The `required` list holds exactly the names of required parameters. */
  lemma {:induction false} RequiredListMembers(ps: seq<ToolParameter>)
    ensures forall v :: v in RequiredList(ps) ==> v.Str? && exists i :: 0 <= i < |ps| && ps[i].required && ps[i].name == v.s
    ensures forall i :: 0 <= i < |ps| && ps[i].required ==> Str(ps[i].name) in RequiredList(ps)
  {
    if ps != [] {
      var init := ps[..|ps| - 1];
      RequiredListMembers(init);
      forall v | v in RequiredList(ps)
        ensures v.Str? && exists i :: 0 <= i < |ps| && ps[i].required && ps[i].name == v.s
      {
        if v in RequiredList(init) {
          var i :| 0 <= i < |init| && init[i].required && init[i].name == v.s;
          assert ps[i] == init[i];
        } else {
          assert ps[|ps| - 1].required && v == Str(ps[|ps| - 1].name);
        }
      }
      forall i | 0 <= i < |ps| && ps[i].required ensures Str(ps[i].name) in RequiredList(ps) {
        if i < |ps| - 1 {
          assert init[i] == ps[i];
        }
      }
    }
  }

  /** The `required` list follows declaration order: it is the required
      parameters' names, one entry per required parameter, front to back. */
  lemma {:induction false} RequiredListOrder(ps: seq<ToolParameter>)
    ensures RequiredList(ps) == RequiredFromFront(ps)
  {
    if ps != [] {
      var init := ps[..|ps| - 1];
      RequiredListOrder(init);
      if |ps| > 1 {
        RequiredFromFrontSplit(ps[0], init[1..], ps[|ps| - 1]);
        assert ps == [ps[0]] + init[1..] + [ps[|ps| - 1]];
        assert init == [ps[0]] + init[1..];
      }
    }
  }

  /** The required names read front to back (a reference definition). */
  function RequiredFromFront(ps: seq<ToolParameter>): seq<Value>
  {
    if ps == [] then []
    else (if ps[0].required then [Str(ps[0].name)] else []) + RequiredFromFront(ps[1..])
  }

  lemma {:induction false} RequiredFromFrontSplit(first: ToolParameter, mid: seq<ToolParameter>, last: ToolParameter)
    ensures RequiredFromFront([first] + mid + [last])
         == RequiredFromFront([first] + mid) + (if last.required then [Str(last.name)] else [])
    decreases |mid|
  {
    assert ([first] + mid + [last])[1..] == mid + [last];
    assert ([first] + mid)[1..] == mid;
    if mid == [] {
      assert [last][1..] == [];
    } else {
      RequiredFromFrontSplit(mid[0], mid[1..], last);
      assert [mid[0]] + mid[1..] == mid;
    }
  }
}
