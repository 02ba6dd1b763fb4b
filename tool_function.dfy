/** The `tool_function` decorator of agent_layer/tool_registry.py: it reads a
    Python function's signature and builds the `ToolDefinition` that describes it.
    The signature is given here as data, one entry per formal parameter. */
module ToolInference {
  import opened PyValues
  import opened ToolModel

  /** A parameter's annotation as `inspect` reports it: absent, one of the five
      built-in classes the decorator recognises, or anything else (`str`, `Any`,
      `Optional[List[Any]]`, ...). */
  datatype Annotation =
    | NoAnnotation
    | IntAnnotation
    | FloatAnnotation
    | BoolAnnotation
    | ListAnnotation
    | DictAnnotation
    | OtherAnnotation(text: string)

  /** One formal parameter: its name, its annotation and its default (None when it has none). */
  datatype SignatureParam = SignatureParam(name: string, annotation: Annotation, default: Option<Value>)

  /** The declared type read off an annotation, "string" when nothing matches. */
  function InferredType(a: Annotation): (t: string)
    ensures t in {"string", "integer", "number", "boolean", "array", "object"}
    ensures t == "string" <==> a.NoAnnotation? || a.OtherAnnotation?
    ensures t == "integer" <==> a.IntAnnotation?
    ensures t == "number" <==> a.FloatAnnotation?
    ensures t == "boolean" <==> a.BoolAnnotation?
    ensures t == "array" <==> a.ListAnnotation?
    ensures t == "object" <==> a.DictAnnotation?
  {
    match a
    case IntAnnotation => "integer"
    case FloatAnnotation => "number"
    case BoolAnnotation => "boolean"
    case ListAnnotation => "array"
    case DictAnnotation => "object"
    case _ => "string"
  }

  /** The `ToolParameter` built for one formal parameter: required exactly when
      there is no default, and then with default `None`. */
  function InferParameter(sp: SignatureParam): (p: ToolParameter)
    ensures p.name == sp.name && p.description == "Parameter " + sp.name
    ensures p.required <==> sp.default.None?
    ensures p.required ==> p.default == Null
    ensures !p.required ==> p.default == sp.default.value
    ensures p.paramType == InferredType(sp.annotation)
    ensures p.enum.None? && p.minimum.None? && p.maximum.None?
  {
    var required := sp.default.None?;
    var defaultValue := if required then Null else sp.default.value;
    ToolParameter(sp.name, InferredType(sp.annotation), "Parameter " + sp.name,
                  required := required, default := defaultValue)
  }

  /** The formal parameters other than `self`, in order. */
  function Declared(sig: seq<SignatureParam>): (r: seq<SignatureParam>)
    ensures |r| <= |sig|
    ensures forall i :: 0 <= i < |r| ==> r[i].name != "self"
  {
    if sig == [] then []
    else Declared(sig[..|sig| - 1]) + (if sig[|sig| - 1].name == "self" then [] else [sig[|sig| - 1]])
  }

  /** A formal parameter is kept exactly when it is not `self`. */
  lemma {:induction false} DeclaredMembers(sig: seq<SignatureParam>)
    ensures forall sp :: sp in Declared(sig) <==> sp in sig && sp.name != "self"
  {
    if sig != [] {
      var init := sig[..|sig| - 1];
      DeclaredMembers(init);
      assert sig == init + [sig[|sig| - 1]];
    }
  }

  /** Without a `self` parameter every formal parameter is kept. */
  lemma {:induction false} DeclaredWithoutSelf(sig: seq<SignatureParam>)
    requires forall i :: 0 <= i < |sig| ==> sig[i].name != "self"
    ensures Declared(sig) == sig
  {
    if sig != [] {
      DeclaredWithoutSelf(sig[..|sig| - 1]);
    }
  }

  /** The `parameters` list the decorator builds. */
  function InferredParameters(sig: seq<SignatureParam>): (ps: seq<ToolParameter>)
    ensures |ps| == |Declared(sig)|
    ensures forall i :: 0 <= i < |ps| ==> ps[i] == InferParameter(Declared(sig)[i])
  {
    seq(|Declared(sig)|, i requires 0 <= i < |Declared(sig)| => InferParameter(Declared(sig)[i]))
  }

  /** The decorator's loop over `sig.parameters`. */
  method InferParameters(sig: seq<SignatureParam>) returns (parameters: seq<ToolParameter>)
    ensures parameters == InferredParameters(sig)
  {
    parameters := [];
    var i := 0;
    while i < |sig|
      invariant 0 <= i <= |sig|
      invariant parameters == InferredParameters(sig[..i])
    {
      assert sig[..i + 1][..i] == sig[..i];
      if sig[i].name != "self" {
        parameters := parameters + [InferParameter(sig[i])];
      }
      i := i + 1;
    }
    assert sig[..i] == sig;
  }

  /** `a or b` for an optional string: `None` and the empty string are false. */
  function OrElse(a: Option<string>, b: string): string
  {
    if a.Some? && a.value != "" then a.value else b
  }

  /** `tool_function(name, description, category)` applied to a function named
      `funcName` with docstring `doc` and signature `sig`; the decorator's
      options default to `None`, `None` and "general". */
  method ToolFunction(funcName: string, doc: Option<string>, sig: seq<SignatureParam>, func: Callable,
                      name: Option<string> := None, description: Option<string> := None,
                      category: string := "general")
    returns (toolDef: ToolDefinition)
    ensures toolDef.name == if name.Some? && name.value != "" then name.value else funcName
    ensures toolDef.description ==
      if description.Some? && description.value != "" then description.value
      else if doc.Some? && doc.value != "" then doc.value
      else "Execute " + toolDef.name
    ensures toolDef.parameters == InferredParameters(sig)
    ensures toolDef.callable == Some(func) && toolDef.category == category
  {
    var funcName' := OrElse(name, funcName);
    var funcDescription := OrElse(description, OrElse(doc, "Execute " + funcName'));
    var parameters := InferParameters(sig);
    toolDef := ToolDefinition(funcName', funcDescription, parameters, Some(func), category);
  }

  /** The schema's `required` list of a decorated function names exactly its
      parameters other than `self` that have no default. */
  lemma InferredRequiredNames(sig: seq<SignatureParam>, n: string)
    ensures Str(n) in RequiredList(InferredParameters(sig)) <==>
      exists j :: 0 <= j < |sig| && sig[j].name == n && n != "self" && sig[j].default.None?
  {
    if Str(n) in RequiredList(InferredParameters(sig)) {
      var j := RequiredNameDeclared(sig, n);
    }
    if exists j :: 0 <= j < |sig| && sig[j].name == n && n != "self" && sig[j].default.None? {
      var j :| 0 <= j < |sig| && sig[j].name == n && n != "self" && sig[j].default.None?;
      NoDefaultIsRequired(sig, j);
    }
  }

  lemma RequiredNameDeclared(sig: seq<SignatureParam>, n: string) returns (j: nat)
    requires Str(n) in RequiredList(InferredParameters(sig))
    ensures j < |sig| && sig[j].name == n && n != "self" && sig[j].default.None?
  {
    var ps := InferredParameters(sig);
    RequiredListMembers(ps);
    var i :| 0 <= i < |ps| && ps[i].required && ps[i].name == n;
    var sp := Declared(sig)[i];
    DeclaredMembers(sig);
    assert sp in Declared(sig);
    assert sp in sig;
    j :| 0 <= j < |sig| && sig[j] == sp;
  }

  lemma NoDefaultIsRequired(sig: seq<SignatureParam>, j: nat)
    requires j < |sig| && sig[j].name != "self" && sig[j].default.None?
    ensures Str(sig[j].name) in RequiredList(InferredParameters(sig))
  {
    var ps := InferredParameters(sig);
    DeclaredMembers(sig);
    assert sig[j] in Declared(sig);
    var i :| 0 <= i < |Declared(sig)| && Declared(sig)[i] == sig[j];
    assert ps[i].required && ps[i].name == sig[j].name;
    RequiredListMembers(ps);
  }
}
