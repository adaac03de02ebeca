/** The configuration populator: a struct type described as a Shape, an
    instance of it as a tree of Values, the environment as a map, and
    FillConfig / populateStruct / setFieldValue as methods proved equal to
    the reference functions Populate and Coerce. */
module GoEasyConf {
  import opened Strconv
  import opened Strings

  /** The bit sizes a Go floating-point type can have. */
  type FloatWidth = b: nat | b == 32 || b == 64 witness 64

  /** The reflect.Kind of a field that is not a nested struct. Other stands
      for every kind the populator does not coerce (map, pointer, interface,
      complex, ... and struct when it is a slice element), named as
      reflect.Kind.String names it. */
  datatype Kind =
    | Str
    | Int(bits: BitWidth)
    | Uint(bits: BitWidth)
    | Bool
    | Float(fbits: FloatWidth)
    | Slice(elem: Kind)
    | Other(name: string)

  /** One field of a struct type, with its `env` tag (key, "" when absent)
      and its `required` flag (the tag reads exactly "true"). A Nested field
      is a field of struct kind; its tags exist but are never consulted. */
  datatype Field =
    | Nested(key: string, required: bool, shape: Shape)
    | Leaf(key: string, required: bool, kind: Kind)

  /** A struct type: its fields in declaration order. */
  datatype Shape = Shape(fields: seq<Field>)

  /** A value of some field, or of a whole struct. OpaqueVal is a value of an
      Other kind, which the populator never inspects. */
  datatype Value =
    | StrVal(s: string)
    | IntVal(i: int)
    | UintVal(n: nat)
    | BoolVal(b: bool)
    | FloatVal(r: real)
    | SliceVal(elems: seq<Value>)
    | StructVal(fields: seq<Value>)
    | OpaqueVal

  datatype ConfigError =
    | InvalidTarget
    | MissingRequired(key: string)
    | TypeCoercion(raw: string, kind: Kind)
    | UnsupportedType(kindName: string)

  datatype Result<T> = Success(value: T) | Failure(error: ConfigError)

  /** The process environment. */
  type Env = map<string, string>

  /** strconv.ParseFloat, taken as a parameter: its rounding is not modelled. */
  type FloatParser = (string, FloatWidth) -> Option<real>

  /** os.Getenv: "" for an unset variable, and always "" for the empty key. */
  function Getenv(env: Env, key: string): (v: string)
    ensures key == "" ==> v == ""
    ensures v != "" ==> key in env && env[key] == v
    ensures key != "" && key in env ==> v == env[key]
  {
    if key != "" && key in env then env[key] else ""
  }

  /** v is a value a field of kind k can hold; in particular an integer field
      always holds a number within its bit width. */
  predicate HasKind(v: Value, k: Kind)
    decreases k
  {
    match k
    case Str => v.StrVal?
    case Int(b) => v.IntVal? && -(Pow2(b - 1) as int) <= v.i < Pow2(b - 1)
    case Uint(b) => v.UintVal? && v.n < Pow2(b)
    case Bool => v.BoolVal?
    case Float(_) => v.FloatVal?
    case Slice(e) => v.SliceVal? && forall j :: 0 <= j < |v.elems| ==> HasKind(v.elems[j], e)
    case Other(_) => true
  }

  /** vals is an instance of the struct type shape. */
  predicate StructConforms(vals: seq<Value>, shape: Shape)
    decreases shape, 0
  {
    |vals| == |shape.fields| && forall j :: 0 <= j < |vals| ==> FieldConforms(vals[j], shape.fields[j])
  }

  predicate FieldConforms(v: Value, f: Field)
    decreases f
  {
    match f
    case Nested(_, _, s) => v.StructVal? && StructConforms(v.fields, s)
    case Leaf(_, _, k) => HasKind(v, k)
  }

  /** Go's zero value of a kind. */
  function Zero(k: Kind): (v: Value)
    ensures HasKind(v, k)
  {
    match k
    case Str => StrVal("")
    case Int(_) => IntVal(0)
    case Uint(_) => UintVal(0)
    case Bool => BoolVal(false)
    case Float(_) => FloatVal(0.0)
    case Slice(_) => SliceVal([])
    case Other(_) => OpaqueVal
  }

  /** The zero value of fields i.. of a struct type (a `Config{}` literal). */
  function ZeroFrom(shape: Shape, i: nat): (vals: seq<Value>)
    requires i <= |shape.fields|
    ensures |vals| == |shape.fields| - i
    ensures forall j :: 0 <= j < |vals| ==> FieldConforms(vals[j], shape.fields[i + j])
    decreases shape, |shape.fields| - i
  {
    if i == |shape.fields| then []
    else
      var first := match shape.fields[i]
        case Nested(_, _, s) => StructVal(ZeroFrom(s, 0))
        case Leaf(_, _, k) => Zero(k);
      [first] + ZeroFrom(shape, i + 1)
  }

  function ZeroStruct(shape: Shape): (vals: seq<Value>)
    ensures StructConforms(vals, shape)
  {
    ZeroFrom(shape, 0)
  }

  /** setFieldValue as a function: the value a present, non-empty raw
      string becomes in a field of the given kind, or the error. */
  function Coerce(raw: string, kind: Kind, parseFloat: FloatParser): (r: Result<Value>)
    ensures r.Success? ==> HasKind(r.value, kind)
    decreases kind, 0
  {
    match kind
    case Str => Success(StrVal(raw))
    case Int(bits) =>
      (match ParseInt(raw, bits)
       case None => Failure(TypeCoercion(raw, kind))
       case Some(i) => Success(IntVal(i)))
    case Uint(bits) =>
      (match ParseUint(raw, bits)
       case None => Failure(TypeCoercion(raw, kind))
       case Some(n) => Success(UintVal(n)))
    case Bool =>
      (match ParseBool(raw)
       case None => Failure(TypeCoercion(raw, kind))
       case Some(b) => Success(BoolVal(b)))
    case Float(bits) =>
      (match parseFloat(raw, bits)
       case None => Failure(TypeCoercion(raw, kind))
       case Some(x) => Success(FloatVal(x)))
    case Slice(elem) =>
      (match CoerceEach(SplitComma(raw), elem, parseFloat)
       case Failure(e) => Failure(e)
       case Success(xs) => Success(SliceVal(xs)))
    case Other(name) => Failure(UnsupportedType(name))
  }

  /** The slice loop of setFieldValue: coerce the pieces left to right,
      stopping at the first that fails. On success element j is the
      coercion of piece j. */
  function CoerceEach(pieces: seq<string>, elem: Kind, parseFloat: FloatParser): (r: Result<seq<Value>>)
    ensures r.Success? ==> |r.value| == |pieces|
    ensures r.Success? ==> forall j :: 0 <= j < |pieces| ==> Coerce(pieces[j], elem, parseFloat) == Success(r.value[j])
    decreases elem, |pieces|
  {
    if |pieces| == 0 then Success([])
    else
      match CoerceEach(pieces[..|pieces| - 1], elem, parseFloat)
      case Failure(e) => Failure(e)
      case Success(xs) =>
        match Coerce(pieces[|pieces| - 1], elem, parseFloat)
        case Failure(e) => Failure(e)
        case Success(x) => Success(xs + [x])
  }

  /** What processing one field does to that field's value, and whether it
      stops the walk. */
  datatype Outcome = Outcome(value: Value, err: Option<ConfigError>)

  /** What the walk of a struct leaves behind: the struct's field values and
      the error, if any, that stopped it. */
  datatype Walk = Walk(fields: seq<Value>, err: Option<ConfigError>)

  /** One iteration of populateStruct's loop body, for field f holding v. */
  function FieldStep(f: Field, env: Env, parseFloat: FloatParser, v: Value): (o: Outcome)
    requires FieldConforms(v, f)
    ensures FieldConforms(o.value, f)
    decreases f
  {
    match f
    case Nested(_, _, s) =>
      var w := PopulateFrom(s, env, parseFloat, v.fields, 0);
      Outcome(StructVal(w.fields), w.err)
    case Leaf(key, required, kind) =>
      var raw := Getenv(env, key);
      if required && raw == "" then Outcome(v, Some(MissingRequired(key)))
      else if raw == "" then Outcome(v, None)
      else
        match Coerce(raw, kind, parseFloat)
        case Failure(e) => Outcome(v, Some(e))
        case Success(x) => Outcome(x, None)
  }

  /** populateStruct from field i on: fields in order, the first error stops
      the walk, and what was assigned before it stays assigned. */
  function PopulateFrom(shape: Shape, env: Env, parseFloat: FloatParser, vals: seq<Value>, i: nat): (w: Walk)
    requires StructConforms(vals, shape) && i <= |shape.fields|
    ensures StructConforms(w.fields, shape)
    decreases shape, |shape.fields| - i
  {
    if i == |shape.fields| then Walk(vals, None)
    else
      var o := FieldStep(shape.fields[i], env, parseFloat, vals[i]);
      var next := vals[i := o.value];
      if o.err.Some? then Walk(next, o.err)
      else PopulateFrom(shape, env, parseFloat, next, i + 1)
  }

  /** populateStruct on a whole struct. */
  function Populate(shape: Shape, env: Env, parseFloat: FloatParser, vals: seq<Value>): (w: Walk)
    requires StructConforms(vals, shape)
    ensures StructConforms(w.fields, shape)
  {
    PopulateFrom(shape, env, parseFloat, vals, 0)
  }

  /** setFieldValue: coerce raw to kind. A slice is built in a freshly made
      array of zero elements, filled one element at a time, and only handed
      back once every element has been coerced. */
  method SetFieldValue(raw: string, kind: Kind, parseFloat: FloatParser) returns (r: Result<Value>)
    ensures r == Coerce(raw, kind, parseFloat)
    decreases kind
  {
    match kind
    case Str =>
      r := Success(StrVal(raw));
    case Int(bits) =>
      var n := ParseInt(raw, bits);
      if n.None? {
        return Failure(TypeCoercion(raw, kind));
      }
      r := Success(IntVal(n.value));
    case Uint(bits) =>
      var n := ParseUint(raw, bits);
      if n.None? {
        return Failure(TypeCoercion(raw, kind));
      }
      r := Success(UintVal(n.value));
    case Bool =>
      var b := ParseBool(raw);
      if b.None? {
        return Failure(TypeCoercion(raw, kind));
      }
      r := Success(BoolVal(b.value));
    case Float(bits) =>
      var x := parseFloat(raw, bits);
      if x.None? {
        return Failure(TypeCoercion(raw, kind));
      }
      r := Success(FloatVal(x.value));
    case Slice(elem) =>
      var values := SplitComma(raw);
      var slice := new Value[|values|](_ => Zero(elem));
      for i := 0 to |values|
        invariant CoerceEach(values[..i], elem, parseFloat) == Success(slice[..i])
      {
        var e := SetFieldValue(values[i], elem, parseFloat);
        assert values[..i + 1][..i] == values[..i];
        assert values[..i + 1][i] == values[i];
        if e.Failure? {
          assert CoerceEach(values[..i + 1], elem, parseFloat) == Failure(e.error);
          CoerceEachPrefixFailure(values, i + 1, elem, parseFloat);
          assert values[..|values|] == values;
          return Failure(e.error);
        }
        slice[i] := e.value;
        assert slice[..i + 1] == slice[..i] + [e.value];
      }
      assert values[..|values|] == values;
      assert slice[..|values|] == slice[..];
      r := Success(SliceVal(slice[..]));
    case Other(name) =>
      r := Failure(UnsupportedType(name));
  }

  /** Once a prefix of the pieces fails, the whole list fails with the same
      error. */
  lemma {:induction false} CoerceEachPrefixFailure(pieces: seq<string>, n: nat, elem: Kind, parseFloat: FloatParser)
    requires n <= |pieces|
    requires CoerceEach(pieces[..n], elem, parseFloat).Failure?
    ensures CoerceEach(pieces, elem, parseFloat) == CoerceEach(pieces[..n], elem, parseFloat)
    decreases |pieces| - n
  {
    if n < |pieces| {
      assert pieces[..n + 1][..n] == pieces[..n];
      CoerceEachPrefixFailure(pieces, n + 1, elem, parseFloat);
    } else {
      assert pieces[..n] == pieces;
    }
  }

  /** populateStruct: walk the fields in declaration order, recursing into
      nested structs, and return at the first error with every earlier
      assignment kept. */
  method PopulateStruct(shape: Shape, env: Env, parseFloat: FloatParser, vals: seq<Value>)
    returns (fields: seq<Value>, err: Option<ConfigError>)
    requires StructConforms(vals, shape)
    ensures Walk(fields, err) == Populate(shape, env, parseFloat, vals)
    decreases shape
  {
    fields := vals;
    for i := 0 to |shape.fields|
      invariant StructConforms(fields, shape)
      invariant PopulateFrom(shape, env, parseFloat, fields, i) == Populate(shape, env, parseFloat, vals)
    {
      match shape.fields[i]
      case Nested(_, _, s) =>
        var inner, e := PopulateStruct(s, env, parseFloat, fields[i].fields);
        assert FieldStep(shape.fields[i], env, parseFloat, fields[i]) == Outcome(StructVal(inner), e);
        fields := fields[i := StructVal(inner)];
        if e.Some? {
          return fields, e;
        }
      case Leaf(key, required, kind) =>
        var envValue := Getenv(env, key);
        if required && envValue == "" {
          return fields, Some(MissingRequired(key));
        }
        if envValue == "" {
          assert fields[i := fields[i]] == fields;
        } else {
          var r := SetFieldValue(envValue, kind, parseFloat);
          if r.Failure? {
            return fields, Some(r.error);
          }
          fields := fields[i := r.value];
        }
    }
    err := None;
  }

  /** The static type of the variable a pointer points to. */
  datatype Type = StructType(shape: Shape) | KindType(kind: Kind)

  predicate HasType(v: Value, t: Type) {
    match t
    case StructType(s) => v.StructVal? && StructConforms(v.fields, s)
    case KindType(k) => HasKind(v, k)
  }

  /** A variable of a given type, the target of a Go pointer. */
  class Cell {
    const typ: Type
    var value: Value

    ghost predicate Valid()
      reads this
    {
      HasType(value, typ)
    }

    constructor (typ: Type, value: Value)
      requires HasType(value, typ)
      ensures Valid() && this.typ == typ && this.value == value
    {
      this.typ := typ;
      this.value := value;
    }
  }

  /** The argument of FillConfig: a (possibly nil) pointer, or anything else. */
  datatype Target = Pointer(cell: Cell?) | NonPointer

  predicate IsStructPointer(t: Target) {
    t.Pointer? && t.cell != null && t.cell.typ.StructType?
  }

  function Footprint(t: Target): set<object> {
    if t.Pointer? && t.cell != null then {t.cell} else {}
  }

  /** FillConfig: refuse anything but a non-nil pointer to a struct, and
      otherwise populate the pointed-to struct in place. */
  method FillConfig(target: Target, env: Env, parseFloat: FloatParser) returns (err: Option<ConfigError>)
    requires target.Pointer? && target.cell != null ==> target.cell.Valid()
    modifies Footprint(target)
    ensures target.Pointer? && target.cell != null ==> target.cell.Valid()
    ensures !IsStructPointer(target) ==> err == Some(InvalidTarget)
    ensures !IsStructPointer(target) && target.Pointer? && target.cell != null ==>
      target.cell.value == old(target.cell.value)
    ensures IsStructPointer(target) ==>
      var w := Populate(target.cell.typ.shape, env, parseFloat, old(target.cell.value).fields);
      target.cell.value == StructVal(w.fields) && err == w.err
  {
    if !IsStructPointer(target) {
      return Some(InvalidTarget);
    }
    var cell := target.cell;
    var fields, e := PopulateStruct(cell.typ.shape, env, parseFloat, cell.value.fields);
    cell.value := StructVal(fields);
    err := e;
  }
}
