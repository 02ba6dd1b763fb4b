/** Argument validation of agent_layer/tool_registry.py: `_validate_type` and
    `_validate_parameters`, which turn a caller's loosely typed argument dict
    into the keyword arguments a tool's function receives, or fail on the first
    violated check. */
module Validation {
  import opened PyValues
  import opened ToolModel

  /** The `ValueError` raised by `_validate_parameters`; every kind names the parameter. */
  datatype ParamError =
    | MissingRequired(name: string)
    | WrongType(name: string, expected: string)
    | NotInEnum(name: string, allowed: seq<Value>)
    | BelowMinimum(name: string, bound: real)
    | AboveMaximum(name: string, bound: real)

  /** `str(e)` of the error; `floatText` stands for CPython's float formatting. */
  function ErrorText(e: ParamError, floatText: real -> string): string
  {
    MessageHead(e) + Quoted(e.name) + MessageTail(e, floatText)
  }

  function MessageHead(e: ParamError): string
  {
    if e.MissingRequired? then "Required parameter " else "Parameter "
  }

  function Quoted(name: string): string
  {
    "'" + name + "'"
  }

  function MessageTail(e: ParamError, floatText: real -> string): string
  {
    match e
    case MissingRequired(_) => " is missing"
    case WrongType(_, t) => " must be of type " + t
    case NotInEnum(_, allowed) => " must be one of " + Repr(Arr(allowed), floatText)
    case BelowMinimum(_, b) => " must be >= " + floatText(b)
    case AboveMaximum(_, b) => " must be <= " + floatText(b)
  }

  /** Every error message quotes the name of the parameter it is about. */
  lemma ErrorTextNamesParameter(e: ParamError, floatText: real -> string)
    ensures Contains(ErrorText(e, floatText), Quoted(e.name))
  {
    ContainsMiddle(MessageHead(e), Quoted(e.name), MessageTail(e, floatText));
  }

  /** The message for a missing required parameter. */
  lemma MissingRequiredText(n: string, floatText: real -> string)
    ensures ErrorText(MissingRequired(n), floatText) == "Required parameter '" + n + "' is missing"
  {
    assert MessageTail(MissingRequired(n), floatText) == " is missing";
    assert "Required parameter '" == "Required parameter " + "'";
    assert "' is missing" == "'" + " is missing";
  }

  /** The message for a value of the wrong type. */
  lemma WrongTypeText(n: string, t: string, floatText: real -> string)
    ensures ErrorText(WrongType(n, t), floatText) == "Parameter '" + n + "' must be of type " + t
  {
    assert MessageHead(WrongType(n, t)) == "Parameter ";
    assert MessageTail(WrongType(n, t), floatText) == " must be of type " + t;
    assert "Parameter '" == "Parameter " + "'";
    assert "' must be of type " == "'" + " must be of type ";
  }

  /** `type_mapping` of `_validate_type`: the classes a declared type accepts. */
  function TypeMapping(expected: string): Option<seq<PyClass>>
  {
    if expected == "string" then Some([StrClass])
    else if expected == "integer" then Some([IntClass])
    else if expected == "number" then Some([IntClass, FloatClass])
    else if expected == "boolean" then Some([BoolClass])
    else if expected == "array" then Some([ListClass])
    else if expected == "object" then Some([DictClass])
    else None
  }

  /** `_validate_type`: an unknown type name accepts everything; a known one is
      an `isinstance` test against the classes `TypeMapping` lists. */
  predicate ValidateType(v: Value, expected: string)
  {
    TypeMapping(expected).None? ||
    exists i :: 0 <= i < |TypeMapping(expected).value| && IsInstance(v, TypeMapping(expected).value[i])
  }

  /** What each declared type name accepts; `bool` passes as an integer and a number. */
  lemma ValidateTypeTable(v: Value, expected: string)
    ensures expected !in {"string", "integer", "number", "boolean", "array", "object"} ==> ValidateType(v, expected)
    ensures expected == "string" ==> (ValidateType(v, expected) <==> v.Str?)
    ensures expected == "integer" ==> (ValidateType(v, expected) <==> v.Int? || v.Bool?)
    ensures expected == "number" ==> (ValidateType(v, expected) <==> v.Int? || v.Real? || v.Bool?)
    ensures expected == "boolean" ==> (ValidateType(v, expected) <==> v.Bool?)
    ensures expected == "array" ==> (ValidateType(v, expected) <==> v.Arr?)
    ensures expected == "object" ==> (ValidateType(v, expected) <==> v.Obj?)
  {
    if expected == "number" && (v.Real? || v.Int? || v.Bool?) {
      assert IsInstance(v, TypeMapping(expected).value[if v.Real? then 1 else 0]);
    }
    if expected in {"string", "integer", "boolean", "array", "object"} {
      assert |TypeMapping(expected).value| == 1;
      if IsInstance(v, TypeMapping(expected).value[0]) {
        assert ValidateType(v, expected);
      }
    }
  }

  /** `param.enum and value not in param.enum`. */
  predicate EnumRejects(p: ToolParameter, v: Value)
  {
    p.HasEnum() && !PyIn(v, p.enum.value)
  }

  /** The minimum check: a number below a declared minimum. */
  predicate BelowBound(p: ToolParameter, v: Value)
  {
    p.minimum.Some? && IsNumber(v) && NumberOf(v) < p.minimum.value
  }

  /** The maximum check: a number above a declared maximum. */
  predicate AboveBound(p: ToolParameter, v: Value)
  {
    p.maximum.Some? && IsNumber(v) && NumberOf(v) > p.maximum.value
  }

  /** The checks one loop iteration makes for `p`, in the source's order. */
  function CheckParam(p: ToolParameter, args: map<string, Value>): (r: Option<ParamError>)
    ensures r.Some? ==> r.value.name == p.name
  {
    if p.required && p.name !in args then Some(MissingRequired(p.name))
    else if p.name !in args then None
    else
      var v := args[p.name];
      if !ValidateType(v, p.paramType) then Some(WrongType(p.name, p.paramType))
      else if EnumRejects(p, v) then Some(NotInEnum(p.name, p.enum.value))
      else if BelowBound(p, v) then Some(BelowMinimum(p.name, p.minimum.value))
      else if AboveBound(p, v) then Some(AboveMaximum(p.name, p.maximum.value))
      else None
  }

  /** For one parameter the first violated check wins: missing, then type, then
      enum, then minimum, then maximum; an absent optional parameter passes. */
  lemma CheckParamOrder(p: ToolParameter, args: map<string, Value>)
    ensures CheckParam(p, args).Some? ==> CheckParam(p, args).value.name == p.name
    ensures CheckParam(p, args) == Some(MissingRequired(p.name)) <==> p.required && p.name !in args
    ensures p.name !in args && !p.required ==> CheckParam(p, args).None?
    ensures p.name in args ==>
      var v := args[p.name];
      && (CheckParam(p, args).Some? && CheckParam(p, args).value.WrongType? <==> !ValidateType(v, p.paramType))
      && (CheckParam(p, args).Some? && CheckParam(p, args).value.NotInEnum? <==>
            ValidateType(v, p.paramType) && EnumRejects(p, v))
      && (CheckParam(p, args).Some? && CheckParam(p, args).value.BelowMinimum? <==>
            ValidateType(v, p.paramType) && !EnumRejects(p, v) && BelowBound(p, v))
      && (CheckParam(p, args).Some? && CheckParam(p, args).value.AboveMaximum? <==>
            ValidateType(v, p.paramType) && !EnumRejects(p, v) && !BelowBound(p, v) && AboveBound(p, v))
  {
  }

  /** What one iteration adds to `validated`: the supplied value, else a default
      that is not `None`. */
  function Accept(p: ToolParameter, args: map<string, Value>, validated: map<string, Value>): map<string, Value>
  {
    if p.name in args then validated[p.name := args[p.name]]
    else if p.default != Null then validated[p.name := p.default]
    else validated
  }

  /** The rest of `_validate_parameters` from the state `validated`, with `ps`
      still to be checked. */
  function ValidateFrom(ps: seq<ToolParameter>, args: map<string, Value>, validated: map<string, Value>)
    : Result<map<string, Value>, ParamError>
    decreases |ps|
  {
    if ps == [] then Ok(validated)
    else match CheckParam(ps[0], args)
      case Some(e) => Err(e)
      case None => ValidateFrom(ps[1..], args, Accept(ps[0], args, validated))
  }

  /** What `_validate_parameters(tool, args)` returns or raises. */
  function Validate(ps: seq<ToolParameter>, args: map<string, Value>): Result<map<string, Value>, ParamError>
  {
    ValidateFrom(ps, args, map[])
  }

  /** `_validate_parameters`: one pass in declaration order with early exits. */
  method ValidateParameters(ps: seq<ToolParameter>, args: map<string, Value>)
    returns (r: Result<map<string, Value>, ParamError>)
    ensures r == Validate(ps, args)
  {
    var validated: map<string, Value> := map[];
    var i := 0;
    while i < |ps|
      invariant 0 <= i <= |ps|
      invariant ValidateFrom(ps[i..], args, validated) == Validate(ps, args)
    {
      var param := ps[i];
      assert ps[i..][0] == param && ps[i..][1..] == ps[i + 1..];
      if param.required && param.name !in args {
        return Err(MissingRequired(param.name));
      }
      if param.name in args {
        var value := args[param.name];
        if !ValidateType(value, param.paramType) {
          return Err(WrongType(param.name, param.paramType));
        }
        if param.HasEnum() && !PyIn(value, param.enum.value) {
          return Err(NotInEnum(param.name, param.enum.value));
        }
        if param.minimum.Some? && IsNumber(value) && NumberOf(value) < param.minimum.value {
          return Err(BelowMinimum(param.name, param.minimum.value));
        }
        if param.maximum.Some? && IsNumber(value) && NumberOf(value) > param.maximum.value {
          return Err(AboveMaximum(param.name, param.maximum.value));
        }
        validated := validated[param.name := value];
      } else if param.default != Null {
        validated := validated[param.name := param.default];
      }
      i := i + 1;
    }
    return Ok(validated);
  }

  // ---- the fail-fast order across parameters ----

  /** The first parameter whose checks fail, reading front to back (a reference
      definition of "fail fast"). */
  function FirstError(ps: seq<ToolParameter>, args: map<string, Value>): Option<ParamError>
  {
    if ps == [] then None
    else if CheckParam(ps[0], args).Some? then CheckParam(ps[0], args)
    else FirstError(ps[1..], args)
  }

  lemma {:induction false} ValidateFromFails(ps: seq<ToolParameter>, args: map<string, Value>, validated: map<string, Value>)
    ensures ValidateFrom(ps, args, validated).Err? <==> FirstError(ps, args).Some?
    ensures ValidateFrom(ps, args, validated).Err? ==> FirstError(ps, args) == Some(ValidateFrom(ps, args, validated).error)
    decreases |ps|
  {
    if ps != [] && CheckParam(ps[0], args).None? {
      ValidateFromFails(ps[1..], args, Accept(ps[0], args, validated));
    }
  }

  /** Validation fails exactly when some parameter fails its checks, and then
      with the error of the first such parameter. */
  lemma ValidateFailsFast(ps: seq<ToolParameter>, args: map<string, Value>)
    ensures Validate(ps, args).Ok? <==> forall i :: 0 <= i < |ps| ==> CheckParam(ps[i], args).None?
    ensures Validate(ps, args).Err? ==>
      exists i :: 0 <= i < |ps| && CheckParam(ps[i], args) == Some(Validate(ps, args).error) &&
        forall j :: 0 <= j < i ==> CheckParam(ps[j], args).None?
  {
    ValidateFromFails(ps, args, map[]);
    FirstErrorSpec(ps, args);
  }

  lemma {:induction false} FirstErrorSpec(ps: seq<ToolParameter>, args: map<string, Value>)
    ensures FirstError(ps, args).None? <==> forall i :: 0 <= i < |ps| ==> CheckParam(ps[i], args).None?
    ensures FirstError(ps, args).Some? ==>
      exists i :: 0 <= i < |ps| && CheckParam(ps[i], args) == FirstError(ps, args) &&
        forall j :: 0 <= j < i ==> CheckParam(ps[j], args).None?
  {
    if ps != [] {
      FirstErrorSpec(ps[1..], args);
      if CheckParam(ps[0], args).None? {
        if FirstError(ps, args).Some? {
          var i :| 0 <= i < |ps[1..]| && CheckParam(ps[1..][i], args) == FirstError(ps, args) &&
            forall j :: 0 <= j < i ==> CheckParam(ps[1..][j], args).None?;
          assert CheckParam(ps[i + 1], args) == FirstError(ps, args);
          assert forall j :: 0 <= j < i + 1 ==> CheckParam(ps[j], args).None? by {
            forall j | 0 <= j < i + 1 ensures CheckParam(ps[j], args).None? {
              if j > 0 { assert ps[j] == ps[1..][j - 1]; }
            }
          }
        } else {
          forall i | 0 <= i < |ps| ensures CheckParam(ps[i], args).None? {
            if i > 0 { assert ps[i] == ps[1..][i - 1]; }
          }
        }
      }
    }
  }

  /** An error always names a declared parameter. */
  lemma ErrorNamesDeclaredParameter(ps: seq<ToolParameter>, args: map<string, Value>)
    requires Validate(ps, args).Err?
    ensures Validate(ps, args).error.name in NameSet(ps)
  {
    ValidateFailsFast(ps, args);
    var i :| 0 <= i < |ps| && CheckParam(ps[i], args) == Some(Validate(ps, args).error) &&
      forall j :: 0 <= j < i ==> CheckParam(ps[j], args).None?;
    CheckParamOrder(ps[i], args);
  }

  // ---- the validated map ----

  /** The value an absent parameter name falls back to: the default of the last
      parameter with that name whose default is not `None`. */
  function LastDefault(ps: seq<ToolParameter>, k: string): Option<Value>
  {
    if ps == [] then None
    else if ps[|ps| - 1].name == k && ps[|ps| - 1].default != Null then Some(ps[|ps| - 1].default)
    else LastDefault(ps[..|ps| - 1], k)
  }

  /** The dict `_validate_parameters` returns on success, described key by key:
      declared names only; a supplied value as given; an absent name its
      non-`None` default, or nothing. */
  function Expected(ps: seq<ToolParameter>, args: map<string, Value>): map<string, Value>
  {
    map k | k in NameSet(ps) && (k in args || LastDefault(ps, k).Some?) ::
      if k in args then args[k] else LastDefault(ps, k).value
  }

  lemma {:induction false} ValidateFromResult(done: seq<ToolParameter>, ps: seq<ToolParameter>, args: map<string, Value>,
                                              validated: map<string, Value>)
    requires validated == Expected(done, args)
    requires ValidateFrom(ps, args, validated).Ok?
    ensures ValidateFrom(ps, args, validated).value == Expected(done + ps, args)
    decreases |ps|
  {
    if ps != [] {
      var p := ps[0];
      var next := Accept(p, args, validated);
      assert done + ps == (done + [p]) + ps[1..];
      AcceptExpected(done, p, args);
      ValidateFromResult(done + [p], ps[1..], args, next);
    } else {
      assert done + ps == done;
    }
  }

  lemma AcceptExpected(done: seq<ToolParameter>, p: ToolParameter, args: map<string, Value>)
    ensures Accept(p, args, Expected(done, args)) == Expected(done + [p], args)
  {
    var ps := done + [p];
    assert ps[..|ps| - 1] == done;
    assert NameSet(ps) == NameSet(done) + {p.name} by {
      assert forall i :: 0 <= i < |done| ==> ps[i] == done[i];
      assert ps[|done|] == p;
    }
    var lhs := Accept(p, args, Expected(done, args));
    var rhs := Expected(ps, args);
    forall k ensures (k in lhs <==> k in rhs) && (k in lhs ==> lhs[k] == rhs[k]) {
      LastDefaultDeclared(done, k);
      if k != p.name || (p.name !in args && p.default == Null) {
        assert LastDefault(ps, k) == LastDefault(done, k);
      }
    }
  }

  /** On success the validated dict is exactly `Expected`: undeclared keys are
      dropped, supplied values pass through unchanged, and an absent optional
      parameter gets its default only when that default is not `None`. */
  lemma ValidatedDict(ps: seq<ToolParameter>, args: map<string, Value>)
    requires Validate(ps, args).Ok?
    ensures Validate(ps, args).value == Expected(ps, args)
    ensures Validate(ps, args).value.Keys <= NameSet(ps)
    ensures forall i :: 0 <= i < |ps| && ps[i].name in args ==>
      ps[i].name in Validate(ps, args).value && Validate(ps, args).value[ps[i].name] == args[ps[i].name]
  {
    assert Expected([], args) == map[];
    ValidateFromResult([], ps, args, map[]);
    assert [] + ps == ps;
  }

  /** Arguments that name exactly the declared parameters and pass every check
      come back unchanged. */
  lemma ValidateExactArguments(ps: seq<ToolParameter>, args: map<string, Value>)
    requires forall i :: 0 <= i < |ps| ==> CheckParam(ps[i], args).None?
    requires NameSet(ps) == args.Keys
    ensures Validate(ps, args) == Ok(args)
  {
    ValidateFailsFast(ps, args);
    ValidatedDict(ps, args);
    var v := Validate(ps, args).value;
    forall k | k in args ensures k in v && v[k] == args[k] {
      var i :| 0 <= i < |ps| && ps[i].name == k;
    }
    assert v.Keys == args.Keys;
    assert v == args;
  }

  /** An absent optional parameter whose name is declared once: it is passed with
      its default exactly when that default is not `None`. */
  lemma AbsentParameter(ps: seq<ToolParameter>, args: map<string, Value>, i: nat)
    requires Validate(ps, args).Ok?
    requires i < |ps| && ps[i].name !in args
    requires forall j :: 0 <= j < |ps| && j != i ==> ps[j].name != ps[i].name
    ensures ps[i].name in Validate(ps, args).value <==> ps[i].default != Null
    ensures ps[i].default != Null ==> Validate(ps, args).value[ps[i].name] == ps[i].default
  {
    ValidatedDict(ps, args);
    LastDefaultUnique(ps, i);
    assert ps[i].name in NameSet(ps);
  }

  lemma {:induction false} LastDefaultDeclared(ps: seq<ToolParameter>, k: string)
    ensures LastDefault(ps, k).Some? ==> k in NameSet(ps)
  {
    if ps != [] {
      LastDefaultDeclared(ps[..|ps| - 1], k);
      assert forall i :: 0 <= i < |ps| - 1 ==> ps[..|ps| - 1][i] == ps[i];
    }
  }

  lemma {:induction false} LastDefaultUnique(ps: seq<ToolParameter>, i: nat)
    requires i < |ps|
    requires forall j :: 0 <= j < |ps| && j != i ==> ps[j].name != ps[i].name
    ensures LastDefault(ps, ps[i].name) == if ps[i].default != Null then Some(ps[i].default) else None
  {
    if i < |ps| - 1 {
      LastDefaultUnique(ps[..|ps| - 1], i);
    } else {
      LastDefaultAbsent(ps[..|ps| - 1], ps[i].name);
    }
  }

  lemma {:induction false} LastDefaultAbsent(ps: seq<ToolParameter>, k: string)
    requires forall j :: 0 <= j < |ps| ==> ps[j].name != k
    ensures LastDefault(ps, k) == None
  {
    if ps != [] {
      LastDefaultAbsent(ps[..|ps| - 1], k);
    }
  }

  /** Argument keys that name no parameter change nothing: they are neither
      checked nor forwarded. */
  lemma {:induction false} UndeclaredKeyIgnored(ps: seq<ToolParameter>, args: map<string, Value>, k: string, v: Value)
    requires k !in NameSet(ps)
    ensures Validate(ps, args[k := v]) == Validate(ps, args)
  {
    UndeclaredKeyIgnoredFrom(ps, args, k, v, map[]);
  }

  lemma {:induction false} UndeclaredKeyIgnoredFrom(ps: seq<ToolParameter>, args: map<string, Value>, k: string, v: Value,
                                                    validated: map<string, Value>)
    requires k !in NameSet(ps)
    ensures ValidateFrom(ps, args[k := v], validated) == ValidateFrom(ps, args, validated)
    decreases |ps|
  {
    if ps != [] {
      assert ps[0].name in NameSet(ps);
      assert CheckParam(ps[0], args[k := v]) == CheckParam(ps[0], args);
      assert Accept(ps[0], args[k := v], validated) == Accept(ps[0], args, validated);
      assert NameSet(ps[1..]) <= NameSet(ps) by {
        forall i | 0 <= i < |ps[1..]| ensures ps[1..][i].name in NameSet(ps) { assert ps[1..][i] == ps[i + 1]; }
      }
      UndeclaredKeyIgnoredFrom(ps[1..], args, k, v, Accept(ps[0], args, validated));
    }
  }
}
