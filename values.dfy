/** Python values as they reach the tool registry: the loosely typed payload of a
    tool call, the values a parameter declares (enum members, defaults) and the
    JSON documents the release helper reads. Python's `None` is `Null`. */
module PyValues {

  datatype Option<+T> = None | Some(value: T)

  datatype Result<+T, +E> = Ok(value: T) | Err(error: E)

  /** How a Python call ends: with its return value, or with the text of the
      exception it raised (`str(e)`). */
  datatype CallResult = Returned(value: Value) | Raised(message: string)

  /** A dict keeps its keys in insertion order, so it is a sequence of pairs. */
  datatype Value =
    | Str(s: string)
    | Int(i: int)
    | Real(r: real)
    | Bool(b: bool)
    | Arr(items: seq<Value>)
    | Obj(fields: seq<(string, Value)>)
    | Null

  /** The Python class of a value (`bool` is a subclass of `int`, see IsInstance). */
  datatype PyClass = StrClass | IntClass | FloatClass | BoolClass | ListClass | DictClass | NoneClass

  function ClassOf(v: Value): PyClass
  {
    match v
    case Str(_) => StrClass
    case Int(_) => IntClass
    case Real(_) => FloatClass
    case Bool(_) => BoolClass
    case Arr(_) => ListClass
    case Obj(_) => DictClass
    case Null => NoneClass
  }

  /** `isinstance(v, cls)`: a `bool` is also an instance of `int`. */
  predicate IsInstance(v: Value, cls: PyClass)
  {
    ClassOf(v) == cls || (cls == IntClass && ClassOf(v) == BoolClass)
  }

  /** Which values each class admits: `int` admits `True` and `False` as well. */
  lemma IsInstanceTable(v: Value)
    ensures IsInstance(v, IntClass) <==> v.Int? || v.Bool?
    ensures IsInstance(v, FloatClass) <==> v.Real?
    ensures IsInstance(v, BoolClass) <==> v.Bool?
    ensures IsInstance(v, StrClass) <==> v.Str?
    ensures IsInstance(v, ListClass) <==> v.Arr?
    ensures IsInstance(v, DictClass) <==> v.Obj?
    ensures IsInstance(v, NoneClass) <==> v.Null?
  {
  }

  /** `isinstance(v, (int, float))`: the values the bound checks compare. */
  predicate IsNumber(v: Value)
  {
    IsInstance(v, IntClass) || IsInstance(v, FloatClass)
  }

  /** The number a numeric value stands for: `True` is 1 and `False` is 0. */
  function NumberOf(v: Value): (x: real)
    requires IsNumber(v)
    ensures v.Bool? ==> x == if v.b then 1.0 else 0.0
    ensures v.Int? ==> x == v.i as real
  {
    match v
    case Int(i) => i as real
    case Real(r) => r
    case Bool(b) => if b then 1.0 else 0.0
  }

  /** Python `==`: numbers compare by value across int, float and bool, lists
      element by element, dicts by their key-to-value mapping. */
  predicate PyEq(a: Value, b: Value)
    decreases a, 1
  {
    if IsNumber(a) && IsNumber(b) then NumberOf(a) == NumberOf(b)
    else match a
      case Arr(xs) =>
        b.Arr? && |xs| == |b.items| && forall i :: 0 <= i < |xs| ==> PyEq(xs[i], b.items[i])
      case Obj(fs) =>
        b.Obj? && |fs| == |b.fields| &&
        forall i :: 0 <= i < |fs| ==> FieldMatches(fs[i], b.fields)
      case _ => a == b
  }

  /** The key of `f` is in `fields` and its first entry there is equal to `f`'s value. */
  predicate FieldMatches(f: (string, Value), fields: seq<(string, Value)>)
    decreases f, 0
  {
    exists j :: 0 <= j < |fields| && fields[j].0 == f.0 && FirstIndex(fields, f.0) == j && PyEq(f.1, fields[j].1)
  }

  /** `v in xs` for a list: some element is `==` to `v`. */
  predicate PyIn(v: Value, xs: seq<Value>)
  {
    exists i :: 0 <= i < |xs| && PyEq(v, xs[i])
  }

  // ---- dicts as insertion-ordered sequences of pairs ----

  function Keys(fields: seq<(string, Value)>): (ks: seq<string>)
    ensures |ks| == |fields|
    ensures forall i :: 0 <= i < |fields| ==> ks[i] == fields[i].0
  {
    if fields == [] then [] else [fields[0].0] + Keys(fields[1..])
  }

  /** Index of the first entry under `k` (|fields| when there is none). */
  function FirstIndex(fields: seq<(string, Value)>, k: string): (j: nat)
    ensures j <= |fields|
    ensures j < |fields| ==> fields[j].0 == k
    ensures forall i :: 0 <= i < j ==> fields[i].0 != k
  {
    if fields == [] then 0
    else if fields[0].0 == k then 0
    else 1 + FirstIndex(fields[1..], k)
  }

  lemma FirstIndexFound(fields: seq<(string, Value)>, k: string, i: nat)
    requires i < |fields| && fields[i].0 == k
    ensures FirstIndex(fields, k) <= i
  {
  }

  /** `d.get(k)`. */
  function Lookup(fields: seq<(string, Value)>, k: string): (r: Option<Value>)
    ensures r.Some? <==> k in Keys(fields)
    ensures r.Some? ==> r.value == fields[FirstIndex(fields, k)].1
  {
    var j := FirstIndex(fields, k);
    if j < |fields| then Some(fields[j].1) else None
  }

  /** `d[k] = v`: an existing key keeps its position, a new key goes last. */
  function DictSet(fields: seq<(string, Value)>, k: string, v: Value): (r: seq<(string, Value)>)
  {
    var j := FirstIndex(fields, k);
    if j < |fields| then fields[j := (k, v)] else fields + [(k, v)]
  }

  lemma DictSetLookup(fields: seq<(string, Value)>, k: string, v: Value, k': string)
    ensures Lookup(DictSet(fields, k, v), k') == if k' == k then Some(v) else Lookup(fields, k')
  {
    if k' == k {
      DictSetLookupSame(fields, k, v);
    } else {
      DictSetLookupOther(fields, k, v, k');
    }
  }

  lemma DictSetLookupSame(fields: seq<(string, Value)>, k: string, v: Value)
    ensures Lookup(DictSet(fields, k, v), k) == Some(v)
  {
    var j := FirstIndex(fields, k);
    FirstIndexFound(DictSet(fields, k, v), k, if j < |fields| then j else |fields|);
  }

  lemma DictSetLookupOther(fields: seq<(string, Value)>, k: string, v: Value, k': string)
    requires k' != k
    ensures Lookup(DictSet(fields, k, v), k') == Lookup(fields, k')
  {
    var r := DictSet(fields, k, v);
    assert forall i :: 0 <= i < |r| ==> (r[i].0 == k' <==> i < |fields| && fields[i].0 == k');
    var j' := FirstIndex(fields, k');
    if j' < |fields| {
      FirstIndexFound(r, k', j');
      assert FirstIndex(r, k') == j';
    } else {
      assert FirstIndex(r, k') == |r|;
    }
  }

  lemma DictSetKeys(fields: seq<(string, Value)>, k: string, v: Value)
    ensures Keys(DictSet(fields, k, v)) == if k in Keys(fields) then Keys(fields) else Keys(fields) + [k]
  {
    var r := DictSet(fields, k, v);
    if k in Keys(fields) {
      assert Keys(r) == Keys(fields);
    } else {
      assert Keys(r) == Keys(fields) + [k];
    }
  }

  lemma {:induction false} FirstIndexAppend(a: seq<(string, Value)>, b: seq<(string, Value)>, k: string)
    ensures FirstIndex(a + b, k) == if FirstIndex(a, k) < |a| then FirstIndex(a, k) else |a| + FirstIndex(b, k)
  {
    if a != [] {
      assert (a + b)[1..] == a[1..] + b;
      FirstIndexAppend(a[1..], b, k);
    } else {
      assert a + b == b;
    }
  }

  /** Looking a key up in `a + b` finds its entry in `a` first. */
  lemma LookupAppend(a: seq<(string, Value)>, b: seq<(string, Value)>, k: string)
    ensures Lookup(a + b, k) == if Lookup(a, k).Some? then Lookup(a, k) else Lookup(b, k)
  {
    FirstIndexAppend(a, b, k);
    var j := FirstIndex(a, k);
    var jb := FirstIndex(b, k);
    if j < |a| {
      assert (a + b)[j] == a[j];
      assert Lookup(a + b, k) == Some(a[j].1) == Lookup(a, k);
    } else if jb < |b| {
      assert (a + b)[|a| + jb] == b[jb];
      assert Lookup(a + b, k) == Some(b[jb].1) == Lookup(b, k);
    } else {
      assert FirstIndex(a + b, k) == |a + b|;
    }
  }

  // ---- `str(x)` of the values that appear in error messages ----

  function NatText(n: nat): (s: string)
    ensures |s| > 0
    decreases n
  {
    (if n < 10 then "" else NatText(n / 10)) + [('0' as int + n % 10) as char]
  }

  function IntText(i: int): string
  {
    if i < 0 then "-" + NatText(-i) else NatText(i)
  }

  /** `repr(v)`; the text of a float comes from `floatText`, which stands for
      CPython's float formatting. */
  function Repr(v: Value, floatText: real -> string): (r: string)
    ensures v.Str? ==> |r| == |v.s| + 2 && r[1..|r| - 1] == v.s
    ensures v.Arr? ==> |r| >= 2 && r[0] == '[' && r[|r| - 1] == ']'
    ensures v.Obj? ==> |r| >= 2 && r[0] == '{' && r[|r| - 1] == '}'
    decreases v, 1
  {
    match v
    case Str(s) => StrRepr(s)
    case Int(i) => IntText(i)
    case Real(r) => floatText(r)
    case Bool(b) => if b then "True" else "False"
    case Arr(items) => "[" + ReprItems(items, floatText) + "]"
    case Obj(fields) => "{" + ReprFields(fields, floatText) + "}"
    case Null => "None"
  }

  function ReprItems(items: seq<Value>, floatText: real -> string): string
    decreases items, 0
  {
    if items == [] then ""
    else Repr(items[0], floatText) + (if |items| == 1 then "" else ", " + ReprItems(items[1..], floatText))
  }

  function ReprFields(fields: seq<(string, Value)>, floatText: real -> string): string
    decreases fields, 0
  {
    if fields == [] then ""
    else
      ReprField(fields[0], floatText) +
      (if |fields| == 1 then "" else ", " + ReprFields(fields[1..], floatText))
  }

  function ReprField(field: (string, Value), floatText: real -> string): string
    decreases field, 0
  {
    StrRepr(field.0) + ": " + Repr(field.1, floatText)
  }

  /** A string's repr: the text between two equal quotes, which are double
      exactly when it holds a single quote and no double one. */
  function StrRepr(s: string): (r: string)
    ensures |r| == |s| + 2 && r[1..|r| - 1] == s && r[0] == r[|r| - 1]
    ensures r[0] == '"' <==> '\'' in s && '"' !in s
    ensures r[0] == '\'' <==> !('\'' in s && '"' !in s)
  {
    if '\'' in s && '"' !in s then "\"" + s + "\"" else "'" + s + "'"
  }

  // ---- sequences ----

  predicate Distinct<T(==)>(s: seq<T>)
  {
    forall i, j :: 0 <= i < j < |s| ==> s[i] != s[j]
  }

  /** `needle` occurs in `s` starting at index `i`. */
  predicate OccursAt<T(==)>(s: seq<T>, needle: seq<T>, i: int)
  {
    0 <= i && i + |needle| <= |s| && s[i..i + |needle|] == needle
  }

  /** The middle part of a concatenation occurs in it. */
  lemma ContainsMiddle<T>(a: seq<T>, b: seq<T>, c: seq<T>)
    ensures Contains(a + b + c, b)
  {
    assert (a + b + c)[|a|..|a| + |b|] == b;
    assert OccursAt(a + b + c, b, |a|);
  }

  /** `needle in s` for strings. */
  predicate Contains<T(==)>(s: seq<T>, needle: seq<T>)
  {
    exists i :: 0 <= i <= |s| - |needle| && OccursAt(s, needle, i)
  }
}
