/** Calls against a registry filled the way agent_layer/tool_registry.py fills
    it: the decorated device tools and the behaviours a caller can observe. */
module RegistryScenarios {
  import opened PyValues
  import opened ToolModel
  import opened Validation
  import opened ToolInference
  import opened Registry

  /** Signature of `set_property_value(device_id: str, siid: int, piid: int, value: Any)`. */
  function SetPropertySignature(): seq<SignatureParam>
  {
    [SignatureParam("device_id", OtherAnnotation("str"), None),
     SignatureParam("siid", IntAnnotation, None),
     SignatureParam("piid", IntAnnotation, None),
     SignatureParam("value", OtherAnnotation("Any"), None)]
  }

  /** The parameters the decorator declares for `set_property_value`. */
  function SetPropertyParameters(): seq<ToolParameter>
  {
    [ToolParameter("device_id", "string", "Parameter device_id"),
     ToolParameter("siid", "integer", "Parameter siid"),
     ToolParameter("piid", "integer", "Parameter piid"),
     ToolParameter("value", "string", "Parameter value")]
  }

  /** `value: Any` is not one of the recognised annotations, so it is declared a
      required "string". */
  lemma SetPropertyInferred()
    ensures InferredParameters(SetPropertySignature()) == SetPropertyParameters()
  {
    var sig := SetPropertySignature();
    DeclaredWithoutSelf(sig);
    var ps := InferredParameters(sig);
    var expected := SetPropertyParameters();
    assert ps[0] == InferParameter(sig[0]) == expected[0];
    assert ps[1] == InferParameter(sig[1]) == expected[1];
    assert ps[2] == InferParameter(sig[2]) == expected[2];
    assert ps[3] == InferParameter(sig[3]) == expected[3];
  }

  /** Signature of `call_action(device_id: str, siid: int, aiid: int, params: Optional[List[Any]] = None)`. */
  function CallActionSignature(): seq<SignatureParam>
  {
    [SignatureParam("device_id", OtherAnnotation("str"), None),
     SignatureParam("siid", IntAnnotation, None),
     SignatureParam("aiid", IntAnnotation, None),
     SignatureParam("params", OtherAnnotation("Optional[List[Any]]"), Some(Null))]
  }

  function CallActionParameters(): seq<ToolParameter>
  {
    [ToolParameter("device_id", "string", "Parameter device_id"),
     ToolParameter("siid", "integer", "Parameter siid"),
     ToolParameter("aiid", "integer", "Parameter aiid"),
     ToolParameter("params", "string", "Parameter params", required := false)]
  }

  /** A default of `None` still makes `params` optional, and its declared default stays `None`. */
  lemma CallActionInferred()
    ensures InferredParameters(CallActionSignature()) == CallActionParameters()
  {
    var sig := CallActionSignature();
    DeclaredWithoutSelf(sig);
    var ps := InferredParameters(sig);
    var expected := CallActionParameters();
    assert ps[0] == InferParameter(sig[0]) == expected[0];
    assert ps[1] == InferParameter(sig[1]) == expected[1];
    assert ps[2] == InferParameter(sig[2]) == expected[2];
    assert ps[3] == InferParameter(sig[3]) == expected[3];
  }

  /** A stand-in for the device call: it reports success. */
  function StubSetProperty(args: map<string, Value>): CallResult
  {
    Returned(Obj([("success", Bool(true))]))
  }

  function AnyFloatText(r: real): string { "" }

  function BooleanValueArgs(): map<string, Value>
  {
    map["device_id" := Str("abc"), "siid" := Int(2), "piid" := Int(1), "value" := Bool(true)]
  }

  function StringValueArgs(): map<string, Value>
  {
    map["device_id" := Str("abc"), "siid" := Int(2), "piid" := Int(1), "value" := Str("on")]
  }

  /** The first three arguments pass; a boolean `value` is not a "string". */
  lemma BooleanValueValidation()
    ensures Validate(SetPropertyParameters(), BooleanValueArgs()) == Err(WrongType("value", "string"))
  {
    var ps, args := SetPropertyParameters(), BooleanValueArgs();
    ValidateTypeTable(Str("abc"), "string");
    ValidateTypeTable(Int(2), "integer");
    ValidateTypeTable(Int(1), "integer");
    ValidateTypeTable(Bool(true), "string");
    assert CheckParam(ps[0], args).None? && CheckParam(ps[1], args).None? && CheckParam(ps[2], args).None?;
    assert CheckParam(ps[3], args) == Some(WrongType("value", "string"));
    ValidateFailsFast(ps, args);
  }

  /** Every argument passes and the validated dict is the arguments themselves. */
  lemma StringValueValidation()
    ensures Validate(SetPropertyParameters(), StringValueArgs()) == Ok(StringValueArgs())
  {
    StringValueChecks();
    SetPropertyNames();
    ValidateExactArguments(SetPropertyParameters(), StringValueArgs());
  }

  lemma StringValueChecks()
    ensures forall i :: 0 <= i < |SetPropertyParameters()| ==> CheckParam(SetPropertyParameters()[i], StringValueArgs()).None?
  {
    var ps, args := SetPropertyParameters(), StringValueArgs();
    ValidateTypeTable(Str("abc"), "string");
    ValidateTypeTable(Int(2), "integer");
    ValidateTypeTable(Int(1), "integer");
    ValidateTypeTable(Str("on"), "string");
    assert CheckParam(ps[0], args).None?;
    assert CheckParam(ps[1], args).None?;
    assert CheckParam(ps[2], args).None?;
    assert CheckParam(ps[3], args).None?;
  }

  lemma SetPropertyNames()
    ensures NameSet(SetPropertyParameters()) == StringValueArgs().Keys
  {
    var ps := SetPropertyParameters();
    assert ps[0].name == "device_id" && ps[1].name == "siid" && ps[2].name == "piid" && ps[3].name == "value";
  }

  /** Registers the decorated `set_property_value` tool in a fresh registry. */
  method SetPropertyRegistry() returns (reg: ToolRegistry)
    ensures fresh(reg) && reg.Valid()
    ensures reg.toolOrder == ["set_property_value"] && reg.tools.Keys == {"set_property_value"}
    ensures reg.tools["set_property_value"].parameters == SetPropertyParameters()
    ensures reg.tools["set_property_value"].callable == Some(StubSetProperty)
  {
    reg := new ToolRegistry();
    var d := ToolFunction("set_property_value", Some("设置设备属性值"), SetPropertySignature(), StubSetProperty,
                          name := Some("set_property_value"), description := Some("设置设备属性值"),
                          category := "mijia");
    SetPropertyInferred();
    reg.RegisterTool(d);
  }

  /** `value: Any` falls back to the type "string", so a boolean `value` is
      rejected before the device is reached. */
  method BooleanValueRejected() returns (r: Result<Envelope, string>, calls: seq<map<string, Value>>)
    ensures r == Ok(Failure("Parameter '" + "value" + "' must be of type " + "string", "set_property_value"))
    ensures calls == []
  {
    var reg := SetPropertyRegistry();
    BooleanValueValidation();
    WrongTypeText("value", "string", AnyFloatText);
    r, calls := reg.ExecuteTool("set_property_value", BooleanValueArgs(), AnyFloatText);
  }

  /** A string `value` passes and the tool's result comes back in a success
      envelope; an extra undeclared key is not forwarded. */
  method StringValueAccepted() returns (r: Result<Envelope, string>, calls: seq<map<string, Value>>)
    ensures r == Ok(Success(Obj([("success", Bool(true))]), "set_property_value"))
    ensures calls == [StringValueArgs()]
  {
    var reg := SetPropertyRegistry();
    StringValueValidation();
    UndeclaredKeyIgnored(SetPropertyParameters(), StringValueArgs(), "verbose", Bool(true));
    r, calls := reg.ExecuteTool("set_property_value", StringValueArgs()["verbose" := Bool(true)], AnyFloatText);
  }

  /** Leaving out `device_id` fails with a message naming it, even though `value`
      is also wrong: the first declared parameter is checked first. The tool is
      not called. */
  method MissingDeviceId() returns (r: Result<Envelope, string>, calls: seq<map<string, Value>>)
    ensures r == Ok(Failure("Required parameter '" + "device_id" + "' is missing", "set_property_value"))
    ensures calls == []
  {
    var reg := SetPropertyRegistry();
    var args := map["siid" := Int(2), "piid" := Int(1), "value" := Bool(true)];
    assert CheckParam(SetPropertyParameters()[0], args) == Some(MissingRequired("device_id"));
    ValidateFailsFast(SetPropertyParameters(), args);
    MissingRequiredText("device_id", AnyFloatText);
    r, calls := reg.ExecuteTool("set_property_value", args, AnyFloatText);
  }

  /** An unknown tool name raises instead of returning an envelope. */
  method UnknownToolRaises() returns (r: Result<Envelope, string>, calls: seq<map<string, Value>>)
    ensures r == Err("Tool 'turn_on' not found") && calls == []
  {
    var reg := SetPropertyRegistry();
    assert "turn_on" !in reg.tools;
    r, calls := reg.ExecuteTool("turn_on", map[], AnyFloatText);
    assert "Tool '" + "turn_on" + "' not found" == "Tool 'turn_on' not found";
  }

  /** A definition registered without a function raises too. */
  method NoFunctionRaises() returns (r: Result<Envelope, string>, calls: seq<map<string, Value>>)
    ensures r == Err("Tool '" + "noop" + "' has no associated function") && calls == []
  {
    var reg := new ToolRegistry();
    var d := ToolDefinition("noop", "does nothing");
    reg.RegisterTool(d);
    r, calls := reg.ExecuteTool("noop", map[], AnyFloatText);
  }

  /** `call_action`'s schema: `params` has a property entry without a `default`
      and is left out of `required`. */
  lemma CallActionSchema()
    ensures Lookup(Properties(CallActionParameters()), "params").Some?
    ensures Lookup(Properties(CallActionParameters()), "params").value.Obj?
    ensures Lookup(Lookup(Properties(CallActionParameters()), "params").value.fields, "default") == None
    ensures Str("params") !in RequiredList(CallActionParameters())
  {
    var ps := CallActionParameters();
    assert ps[3].name == "params";
    PropertiesOfDistinct(ps);
    ParamSchemaFields(ps[3]);
    RequiredListMembers(ps);
  }

  function CallActionArgs(): map<string, Value>
  {
    map["device_id" := Str("d1"), "siid" := Int(5), "aiid" := Int(1)]
  }

  /** `call_action` called without `params`: nothing is passed for it. */
  lemma CallActionValidation()
    ensures Validate(CallActionParameters(), CallActionArgs()) == Ok(CallActionArgs())
  {
    var ps, args := CallActionParameters(), CallActionArgs();
    ValidateTypeTable(Str("d1"), "string");
    ValidateTypeTable(Int(5), "integer");
    ValidateTypeTable(Int(1), "integer");
    assert forall i :: 0 <= i < 4 ==> CheckParam(ps[i], args).None?;
    ValidateFailsFast(ps, args);
    ValidatedDict(ps, args);
    CallActionExpected();
  }

  lemma CallActionExpected()
    ensures Expected(CallActionParameters(), CallActionArgs()) == CallActionArgs()
  {
    var ps, args := CallActionParameters(), CallActionArgs();
    LastDefaultUnique(ps, 3);
    assert NameSet(ps) == args.Keys + {"params"} by {
      assert ps[0].name == "device_id" && ps[1].name == "siid" && ps[2].name == "aiid" && ps[3].name == "params";
    }
  }

  /** Registering the same definition twice keeps one entry under its name but
      lists it twice under its category. */
  method ReRegisterTwice(d: ToolDefinition) returns (names: seq<string>, inCategory: seq<ToolDefinition>)
    ensures names == [d.name]
    ensures inCategory == [d, d]
  {
    var reg := new ToolRegistry();
    reg.RegisterTool(d);
    assert reg.tools == map[d.name := d];
    assert reg.toolOrder == [d.name] && reg.CategoryNames(d.category) == [d.name];
    reg.RegisterTool(d);
    assert reg.tools == map[d.name := d];
    assert reg.toolOrder == [d.name] && reg.CategoryNames(d.category) == [d.name, d.name];
    names := reg.GetToolNames();
    inCategory := reg.GetToolsByCategory(d.category);
  }

  /** Re-registering a name under another category replaces the definition
      everywhere: the old category still lists the name and now yields the new
      definition. */
  method MoveCategory(d: ToolDefinition, category: string) returns (inOld: seq<ToolDefinition>, inNew: seq<ToolDefinition>)
    requires category != d.category
    ensures inOld == [d.(category := category)]
    ensures inNew == [d.(category := category)]
  {
    var reg := new ToolRegistry();
    reg.RegisterTool(d);
    reg.RegisterTool(d.(category := category));
    inOld := reg.GetToolsByCategory(d.category);
    inNew := reg.GetToolsByCategory(category);
  }

  /** `export_schema()`, in the default "openai" format, lists the schema of the
      one registered tool. */
  method ExportOpenAI(d: ToolDefinition) returns (openai: Result<seq<Value>, string>)
    ensures openai == Ok([Schema(d)])
  {
    var reg := new ToolRegistry();
    reg.RegisterTool(d);
    assert reg.toolOrder == [d.name] && reg.tools[d.name] == d;
    openai := reg.ExportSchema();
    assert openai.value == [Schema(d)];
  }

  /** Any other format is refused. */
  method ExportYaml(d: ToolDefinition) returns (yaml: Result<seq<Value>, string>)
    ensures yaml == Err("Unsupported format: yaml")
  {
    var reg := new ToolRegistry();
    reg.RegisterTool(d);
    yaml := reg.ExportSchema("yaml");
    assert "Unsupported format: " + "yaml" == "Unsupported format: yaml";
  }
}
