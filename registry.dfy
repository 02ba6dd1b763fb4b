/** `ToolRegistry` of agent_layer/tool_registry.py: the catalogue of tool
    definitions by name and by category, schema export, and `execute_tool`, the
    dispatch that validates a call's arguments, invokes the tool and wraps the
    outcome in an envelope. */
module Registry {
  import opened PyValues
  import opened ToolModel
  import opened Validation

  /** The dict `execute_tool` returns: `{"success": True, "result": ..., "tool_name": ...}`
      or `{"success": False, "error": ..., "tool_name": ...}`. */
  datatype Envelope =
    | Success(result: Value, toolName: string)
    | Failure(error: string, toolName: string)

  /** The definitions that `names` resolve to, skipping names no longer registered
      (the comprehension of `get_tools_by_category`): each is the definition filed
      under some listed, registered name. */
  function Resolve(tools: map<string, ToolDefinition>, names: seq<string>): (r: seq<ToolDefinition>)
    ensures |r| <= |names|
    ensures forall d :: d in r ==> exists n :: n in names && n in tools && tools[n] == d
  {
    if names == [] then []
    else (if names[0] in tools then [tools[names[0]]] else []) + Resolve(tools, names[1..])
  }

  /** When every name resolves, `Resolve` keeps the list's length and order. */
  lemma {:induction false} ResolveAll(tools: map<string, ToolDefinition>, names: seq<string>)
    requires forall n :: n in names ==> n in tools
    ensures |Resolve(tools, names)| == |names|
    ensures forall i :: 0 <= i < |names| ==> Resolve(tools, names)[i] == tools[names[i]]
  {
    if names != [] {
      ResolveAll(tools, names[1..]);
    }
  }

  /** Schemas of the tools named in `names`, in that order. */
  function Schemas(tools: map<string, ToolDefinition>, names: seq<string>): (r: seq<Value>)
    requires forall n :: n in names ==> n in tools
    ensures |r| == |names|
    ensures forall i :: 0 <= i < |names| ==> r[i] == Schema(tools[names[i]])
  {
    if names == [] then [] else [Schema(tools[names[0]])] + Schemas(tools, names[1..])
  }

  /** The tool table: each definition is filed under its own name, and `order`
      lists every name once. */
  ghost predicate ToolsIndexed(tools: map<string, ToolDefinition>, order: seq<string>)
  {
    && Distinct(order)
    && (forall n :: n in order <==> n in tools)
    && (forall n :: n in tools ==> tools[n].name == n)
  }

  ghost predicate CategoriesIndexed(categories: map<string, seq<string>>, order: seq<string>)
  {
    && Distinct(order)
    && (forall c :: c in order <==> c in categories)
  }

  /** Every name filed under a category is a registered tool. */
  ghost predicate CategoriesResolve(categories: map<string, seq<string>>, tools: map<string, ToolDefinition>)
  {
    forall c, n :: c in categories && n in categories[c] ==> n in tools
  }

  lemma RegisterResolves(categories: map<string, seq<string>>, tools: map<string, ToolDefinition>,
                         d: ToolDefinition, names: seq<string>)
    requires CategoriesResolve(categories, tools)
    requires forall n :: n in names ==> n in tools || n == d.name
    ensures CategoriesResolve(categories[d.category := names], tools[d.name := d])
  {
  }

  lemma RegisterIndexesTool(tools: map<string, ToolDefinition>, order: seq<string>, d: ToolDefinition)
    requires ToolsIndexed(tools, order)
    ensures ToolsIndexed(tools[d.name := d], if d.name in tools then order else order + [d.name])
  {
  }

  lemma RegisterIndexesCategory(categories: map<string, seq<string>>, order: seq<string>, c: string, names: seq<string>)
    requires CategoriesIndexed(categories, order)
    ensures CategoriesIndexed(categories[c := names], if c in categories then order else order + [c])
  {
  }

  class ToolRegistry {
    /** `_tools`; a Python dict remembers insertion order, kept in `toolOrder`. */
    var tools: map<string, ToolDefinition>
    var toolOrder: seq<string>
    /** `_categories`, with its insertion order in `categoryOrder`. */
    var categories: map<string, seq<string>>
    var categoryOrder: seq<string>

    ghost predicate Valid()
      reads this
    {
      && ToolsIndexed(tools, toolOrder)
      && CategoriesIndexed(categories, categoryOrder)
      && CategoriesResolve(categories, tools)
    }

    constructor ()
      ensures Valid()
      ensures tools == map[] && toolOrder == [] && categories == map[] && categoryOrder == []
    {
      tools, toolOrder := map[], [];
      categories, categoryOrder := map[], [];
    }

    /** The names filed under category `c` (none for an unknown category). */
    function CategoryNames(c: string): seq<string>
      reads this
    {
      if c in categories then categories[c] else []
    }

    /** `register_tool`: last write wins under the name; the name is appended to
        its category's list even when it is already there. */
    method RegisterTool(d: ToolDefinition)
      requires Valid()
      modifies this
      ensures Valid()
      ensures tools == old(tools)[d.name := d]
      ensures toolOrder == if d.name in old(tools) then old(toolOrder) else old(toolOrder) + [d.name]
      ensures categories == old(categories)[d.category := old(CategoryNames(d.category)) + [d.name]]
      ensures categoryOrder == if d.category in old(categories) then old(categoryOrder) else old(categoryOrder) + [d.category]
      ensures GetTool(d.name) == Some(d)
      ensures forall n :: n != d.name ==> GetTool(n) == old(GetTool(n))
    {
      RegisterIndexesTool(tools, toolOrder, d);
      var newOrder := if d.name in tools then toolOrder else toolOrder + [d.name];
      var names := CategoryNames(d.category) + [d.name];
      RegisterIndexesCategory(categories, categoryOrder, d.category, names);
      var newCategoryOrder := if d.category in categories then categoryOrder else categoryOrder + [d.category];
      RegisterResolves(categories, tools, d, names);
      ghost var before := tools;
      tools, toolOrder := tools[d.name := d], newOrder;
      categories, categoryOrder := categories[d.category := names], newCategoryOrder;
      forall n | n != d.name ensures GetTool(n) == if n in before then Some(before[n]) else None {
      }
    }

    /** `get_tool`. */
    function GetTool(name: string): (r: Option<ToolDefinition>)
      reads this
      requires Valid()
      ensures r.Some? <==> name in toolOrder
      ensures r.Some? ==> name in tools && r.value == tools[name] && r.value.name == name
    {
      if name in tools then Some(tools[name]) else None
    }

    /** `get_tools`: the definitions in registration order. */
    function GetTools(): (r: seq<ToolDefinition>)
      reads this
      requires Valid()
      ensures |r| == |toolOrder|
      ensures forall i :: 0 <= i < |r| ==> r[i] == tools[toolOrder[i]] && r[i].name == toolOrder[i]
    {
      ResolveAll(tools, toolOrder);
      Resolve(tools, toolOrder)
    }

    /** `get_tools_by_category`. */
    function GetToolsByCategory(c: string): (r: seq<ToolDefinition>)
      reads this
      requires Valid()
      ensures c !in categories ==> r == []
      ensures |r| == |CategoryNames(c)|
      ensures forall i :: 0 <= i < |r| ==> r[i] == tools[CategoryNames(c)[i]] && r[i].name == CategoryNames(c)[i]
    {
      ResolveAll(tools, CategoryNames(c));
      Resolve(tools, CategoryNames(c))
    }

    /** `get_openai_tools`: one schema per tool in registration order. */
    function GetOpenAITools(): (r: seq<Value>)
      reads this
      requires Valid()
      ensures |r| == |toolOrder|
      ensures forall i :: 0 <= i < |r| ==> r[i] == Schema(tools[toolOrder[i]])
    {
      Schemas(tools, toolOrder)
    }

    /** `get_tool_names`: the names in registration order. */
    function GetToolNames(): (r: seq<string>)
      reads this
      requires Valid()
      ensures Distinct(r) && forall n :: n in r <==> n in tools
      ensures r == toolOrder
    {
      toolOrder
    }

    /** `get_categories`: the categories in the order they were first used. */
    function GetCategories(): (r: seq<string>)
      reads this
      requires Valid()
      ensures Distinct(r) && forall c :: c in r <==> c in categories
      ensures r == categoryOrder
    {
      categoryOrder
    }

    /** `export_schema`: the schema list for "openai", the default format (its
        JSON text is not modelled), a `ValueError` for any other format. */
    function ExportSchema(format: string := "openai"): (r: Result<seq<Value>, string>)
      reads this
      requires Valid()
      ensures format == "openai" <==> r.Ok?
      ensures r.Ok? ==> |r.value| == |toolOrder|
      ensures r.Ok? ==> forall i :: 0 <= i < |toolOrder| ==> r.value[i] == Schema(tools[toolOrder[i]])
      ensures r.Err? ==> r.error == "Unsupported format: " + format
    {
      if format == "openai" then Ok(GetOpenAITools()) else Err("Unsupported format: " + format)
    }

    /** `execute_tool`. An unknown name or a definition without a function raises
        `ValueError` (`Err`), outside the `try`; otherwise every failure becomes an
        envelope. `calls` lists the argument dicts the tool's function was called
        with: none when validation fails. */
    method ExecuteTool(toolName: string, parameters: map<string, Value>, floatText: real -> string)
      returns (r: Result<Envelope, string>, calls: seq<map<string, Value>>)
      requires Valid()
      ensures toolName !in tools ==> r == Err("Tool '" + toolName + "' not found") && calls == []
      ensures toolName in tools && tools[toolName].callable.None? ==>
        r == Err("Tool '" + toolName + "' has no associated function") && calls == []
      ensures toolName in tools && tools[toolName].callable.Some? ==>
        && r.Ok? && r.value.toolName == toolName
        && match Validate(tools[toolName].parameters, parameters)
          case Err(e) => r.value == Failure(ErrorText(e, floatText), toolName) && calls == []
          case Ok(validated) =>
            && calls == [validated]
            && match tools[toolName].callable.value(validated)
              case Returned(v) => r.value == Success(v, toolName)
              case Raised(msg) => r.value == Failure(msg, toolName)
    {
      calls := [];
      var tool := GetTool(toolName);
      if tool.None? {
        return Err("Tool '" + toolName + "' not found"), calls;
      }
      if tool.value.callable.None? {
        return Err("Tool '" + toolName + "' has no associated function"), calls;
      }
      var validatedParams := ValidateParameters(tool.value.parameters, parameters);
      if validatedParams.Err? {
        return Ok(Failure(ErrorText(validatedParams.error, floatText), toolName)), calls;
      }
      calls := calls + [validatedParams.value];
      var result := tool.value.callable.value(validatedParams.value);
      if result.Raised? {
        return Ok(Failure(result.message, toolName)), calls;
      }
      return Ok(Success(result.value, toolName)), calls;
    }
  }
}
