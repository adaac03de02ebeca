/** What populating a struct guarantees: the order of the walk, the first
    error, the no-rollback behaviour, required and optional fields, nested
    structs, and what the coercions of integers, booleans and slices do. */
module PopulateProperties {
  import opened Strconv
  import opened Strings
  import opened GoEasyConf

  // ---------------------------------------------------------------- coercion

  /** A string field receives the raw value verbatim, whatever it holds. */
  lemma CoerceStringVerbatim(raw: string, parseFloat: FloatParser)
    ensures Coerce(raw, Str, parseFloat) == Success(StrVal(raw))
    ensures var pieces := SplitComma(raw);
      var r := Coerce(raw, Slice(Str), parseFloat);
      r.Success? && |r.value.elems| == |pieces| &&
      forall j :: 0 <= j < |pieces| ==> r.value.elems[j] == StrVal(pieces[j])
  {
    CoerceEachAllSucceed(SplitComma(raw), Str, parseFloat);
  }

  /** The integer cases of Coerce, as facts to hand to the solver. */
  lemma CoerceIntegerUnfold(raw: string, bits: BitWidth, parseFloat: FloatParser)
    ensures Coerce(raw, Int(bits), parseFloat) ==
      if ParseInt(raw, bits).Some? then Success(IntVal(ParseInt(raw, bits).value)) else Failure(TypeCoercion(raw, Int(bits)))
    ensures Coerce(raw, Uint(bits), parseFloat) ==
      if ParseUint(raw, bits).Some? then Success(UintVal(ParseUint(raw, bits).value)) else Failure(TypeCoercion(raw, Uint(bits)))
  {
  }

  /** A signed field accepts the decimal spelling of n exactly when n lies in
      [-2^(bits-1), 2^(bits-1)), and then stores n. */
  lemma CoerceIntRoundTrip(n: int, bits: BitWidth, parseFloat: FloatParser)
    ensures Coerce(FormatInt(n), Int(bits), parseFloat) ==
      if -(Pow2(bits - 1) as int) <= n < Pow2(bits - 1) then Success(IntVal(n))
      else Failure(TypeCoercion(FormatInt(n), Int(bits)))
  {
    ParseIntFormat(n, bits);
    CoerceIntegerUnfold(FormatInt(n), bits, parseFloat);
  }

  /** An unsigned field accepts the decimal spelling of n exactly when
      n < 2^bits, and then stores n. */
  lemma CoerceUintRoundTrip(n: nat, bits: BitWidth, parseFloat: FloatParser)
    ensures Coerce(FormatDec(n), Uint(bits), parseFloat) ==
      if n < Pow2(bits) then Success(UintVal(n))
      else Failure(TypeCoercion(FormatDec(n), Uint(bits)))
  {
    ParseUintFormat(n, bits);
    CoerceIntegerUnfold(FormatDec(n), bits, parseFloat);
  }

  lemma Pow2Seven()
    ensures Pow2(7) == 128
  {
    assert Pow2(1) == 2 && Pow2(2) == 4 && Pow2(3) == 8 && Pow2(4) == 16;
    assert Pow2(5) == 32 && Pow2(6) == 64;
  }

  lemma SmallDecValues()
    ensures ParseDec("7") == Some(7) && ParseDec("128") == Some(128)
  {
    assert "7"[..0] == "";
    assert "128"[..2] == "12";
    assert "12"[..1] == "1";
  }

  lemma SignedSpellingsParse()
    ensures ParseUint("+7", 64) == None && ParseInt(" 7", 64) == None
    ensures ParseInt("+7", 8) == Some(7) && ParseInt("-128", 8) == Some(-128) && ParseInt("128", 8) == None
  {
    Pow2Seven();
    SmallDecValues();
    assert "+7"[1..] == "7";
    assert "-128"[1..] == "128";
    assert !IsDigit("+7"[0]);
    assert !IsDigit(" 7"[0]);
  }

  /** An unsigned field refuses a sign, even "+"; a signed one takes it;
      no field takes surrounding blanks. */
  lemma CoerceSignedSpellings(parseFloat: FloatParser)
    ensures Coerce("+7", Uint(64), parseFloat) == Failure(TypeCoercion("+7", Uint(64)))
    ensures Coerce("+7", Int(8), parseFloat) == Success(IntVal(7))
    ensures Coerce("-128", Int(8), parseFloat) == Success(IntVal(-128))
    ensures Coerce("128", Int(8), parseFloat) == Failure(TypeCoercion("128", Int(8)))
    ensures Coerce(" 7", Int(64), parseFloat) == Failure(TypeCoercion(" 7", Int(64)))
  {
    SignedSpellingsParse();
    CoerceIntegerUnfold("+7", 64, parseFloat);
    CoerceIntegerUnfold("+7", 8, parseFloat);
    CoerceIntegerUnfold("-128", 8, parseFloat);
    CoerceIntegerUnfold("128", 8, parseFloat);
    CoerceIntegerUnfold(" 7", 64, parseFloat);
  }

  /** The boolean vocabulary of strconv.ParseBool, and nothing else. */
  lemma CoerceBoolVocabulary(raw: string, parseFloat: FloatParser)
    ensures Coerce(raw, Bool, parseFloat) == Success(BoolVal(true)) <==>
      raw in {"1", "t", "T", "TRUE", "true", "True"}
    ensures Coerce(raw, Bool, parseFloat) == Success(BoolVal(false)) <==>
      raw in {"0", "f", "F", "FALSE", "false", "False"}
    ensures Coerce(raw, Bool, parseFloat).Failure? ==> Coerce(raw, Bool, parseFloat) == Failure(TypeCoercion(raw, Bool))
  {
  }

  /** If every piece coerces, the list does. */
  lemma {:induction false} CoerceEachAllSucceed(pieces: seq<string>, elem: Kind, parseFloat: FloatParser)
    requires forall j :: 0 <= j < |pieces| ==> Coerce(pieces[j], elem, parseFloat).Success?
    ensures CoerceEach(pieces, elem, parseFloat).Success?
  {
    if |pieces| > 0 {
      var init := pieces[..|pieces| - 1];
      assert forall j :: 0 <= j < |init| ==> init[j] == pieces[j];
      CoerceEachAllSucceed(init, elem, parseFloat);
    }
  }

  /** The list fails with the error of its first failing piece. */
  lemma {:induction false} CoerceEachFirstFailure(pieces: seq<string>, k: nat, elem: Kind, parseFloat: FloatParser)
    requires k < |pieces|
    requires forall j :: 0 <= j < k ==> Coerce(pieces[j], elem, parseFloat).Success?
    requires Coerce(pieces[k], elem, parseFloat).Failure?
    ensures CoerceEach(pieces, elem, parseFloat) == Failure(Coerce(pieces[k], elem, parseFloat).error)
  {
    var prefix := pieces[..k];
    assert forall j :: 0 <= j < k ==> prefix[j] == pieces[j];
    CoerceEachAllSucceed(prefix, elem, parseFloat);
    assert pieces[..k + 1][..k] == prefix;
    assert pieces[..k + 1][k] == pieces[k];
    CoerceEachPrefixFailure(pieces, k + 1, elem, parseFloat);
  }

  /** A slice field: the raw string is split on every comma; the slice is
      assigned exactly when every piece coerces, and then has one element per
      piece (commas + 1), element j being piece j coerced. */
  lemma CoerceSliceSucceeds(raw: string, elem: Kind, parseFloat: FloatParser)
    ensures Coerce(raw, Slice(elem), parseFloat).Success? <==>
      forall j :: 0 <= j < |SplitComma(raw)| ==> Coerce(SplitComma(raw)[j], elem, parseFloat).Success?
    ensures var r := Coerce(raw, Slice(elem), parseFloat);
      r.Success? ==>
        |r.value.elems| == Count(',', raw) + 1 &&
        forall j :: 0 <= j < |r.value.elems| ==>
          Coerce(SplitComma(raw)[j], elem, parseFloat) == Success(r.value.elems[j])
  {
    var pieces := SplitComma(raw);
    CoerceEachSucceedsIff(pieces, elem, parseFloat);
    var r := CoerceEach(pieces, elem, parseFloat);
    if r.Success? {
      assert Coerce(raw, Slice(elem), parseFloat) == Success(SliceVal(r.value));
    } else {
      assert Coerce(raw, Slice(elem), parseFloat) == Failure(r.error);
      var j :| 0 <= j < |pieces| && !Coerce(pieces[j], elem, parseFloat).Success?;
      assert !Coerce(SplitComma(raw)[j], elem, parseFloat).Success?;
    }
  }

  lemma CoerceEachSucceedsIff(pieces: seq<string>, elem: Kind, parseFloat: FloatParser)
    ensures CoerceEach(pieces, elem, parseFloat).Success? <==>
      forall j :: 0 <= j < |pieces| ==> Coerce(pieces[j], elem, parseFloat).Success?
  {
    if forall j :: 0 <= j < |pieces| ==> Coerce(pieces[j], elem, parseFloat).Success? {
      CoerceEachAllSucceed(pieces, elem, parseFloat);
    }
  }

  /** The slice case of Coerce, as a fact to hand to the solver. */
  lemma CoerceSliceUnfold(raw: string, elem: Kind, parseFloat: FloatParser)
    ensures var r := CoerceEach(SplitComma(raw), elem, parseFloat);
      Coerce(raw, Slice(elem), parseFloat) == if r.Success? then Success(SliceVal(r.value)) else Failure(r.error)
  {
  }

  /** Coercion is a function: two lists of results for the same pieces agree. */
  lemma SameCoercions(pieces: seq<string>, elem: Kind, parseFloat: FloatParser, ys: seq<Value>, xs: seq<Value>)
    requires |ys| == |pieces| == |xs|
    requires forall j :: 0 <= j < |pieces| ==> Coerce(pieces[j], elem, parseFloat) == Success(ys[j])
    requires forall j :: 0 <= j < |pieces| ==> Coerce(pieces[j], elem, parseFloat) == Success(xs[j])
    ensures ys == xs
  {
    forall j | 0 <= j < |xs| ensures ys[j] == xs[j] {
      assert Coerce(pieces[j], elem, parseFloat) == Success(ys[j]);
    }
  }

  /** Comma-free pieces that each coerce to a known value give the slice of
      those values, in order. */
  lemma CoerceSliceOfValues(raw: string, pieces: seq<string>, elem: Kind, parseFloat: FloatParser, xs: seq<Value>)
    requires |pieces| > 0 && raw == JoinComma(pieces)
    requires forall j :: 0 <= j < |pieces| ==> ',' !in pieces[j]
    requires |xs| == |pieces|
    requires forall j :: 0 <= j < |pieces| ==> Coerce(pieces[j], elem, parseFloat) == Success(xs[j])
    ensures Coerce(raw, Slice(elem), parseFloat) == Success(SliceVal(xs))
  {
    SplitJoin(pieces);
    CoerceEachAllSucceed(pieces, elem, parseFloat);
    var r := CoerceEach(pieces, elem, parseFloat);
    SameCoercions(pieces, elem, parseFloat, r.value, xs);
    CoerceSliceUnfold(raw, elem, parseFloat);
  }

  /** A slice field fails with the error of its first failing piece. */
  lemma CoerceSliceFirstFailure(raw: string, k: nat, elem: Kind, parseFloat: FloatParser)
    requires k < |SplitComma(raw)|
    requires forall j :: 0 <= j < k ==> Coerce(SplitComma(raw)[j], elem, parseFloat).Success?
    requires Coerce(SplitComma(raw)[k], elem, parseFloat).Failure?
    ensures Coerce(raw, Slice(elem), parseFloat) == Failure(Coerce(SplitComma(raw)[k], elem, parseFloat).error)
  {
    CoerceEachFirstFailure(SplitComma(raw), k, elem, parseFloat);
    CoerceSliceUnfold(raw, elem, parseFloat);
  }

  /** Comma-joined pieces coerce like the pieces one by one, in order. */
  lemma CoerceSliceOfJoin(parts: seq<string>, elem: Kind, parseFloat: FloatParser)
    requires |parts| > 0
    requires forall j :: 0 <= j < |parts| ==> ',' !in parts[j]
    ensures Coerce(JoinComma(parts), Slice(elem), parseFloat) ==
      match CoerceEach(parts, elem, parseFloat)
      case Success(xs) => Success(SliceVal(xs))
      case Failure(e) => Failure(e)
  {
    SplitJoin(parts);
  }

  /** A slice of slices: every piece is comma-free, so every inner slice that
      is built has exactly one element. */
  lemma CoerceSliceOfSlices(raw: string, elem: Kind, parseFloat: FloatParser)
    ensures var r := Coerce(raw, Slice(Slice(elem)), parseFloat);
      r.Success? ==> forall j :: 0 <= j < |r.value.elems| ==> |r.value.elems[j].elems| == 1
  {
    var r := Coerce(raw, Slice(Slice(elem)), parseFloat);
    if r.Success? {
      var pieces := SplitComma(raw);
      forall j | 0 <= j < |r.value.elems| ensures |r.value.elems[j].elems| == 1 {
        SplitCommaFree(pieces[j]);
        assert Coerce(pieces[j], Slice(elem), parseFloat) == Success(r.value.elems[j]);
      }
    }
  }

  /** A slice whose elements are of an unsupported kind always fails, on its
      first piece. */
  lemma CoerceSliceUnsupported(raw: string, name: string, parseFloat: FloatParser)
    ensures Coerce(raw, Slice(Other(name)), parseFloat) == Failure(UnsupportedType(name))
  {
    CoerceSliceFirstFailure(raw, 0, Other(name), parseFloat);
  }

  // ---------------------------------------------------------------- the walk

  /** What each field's step would do to the field's value as it was before
      the walk. */
  function Steps(shape: Shape, env: Env, parseFloat: FloatParser, vals: seq<Value>): (outs: seq<Outcome>)
    requires StructConforms(vals, shape)
    ensures |outs| == |vals|
    ensures forall j :: 0 <= j < |vals| ==> outs[j] == FieldStep(shape.fields[j], env, parseFloat, vals[j])
  {
    seq(|vals|, j requires 0 <= j < |vals| => FieldStep(shape.fields[j], env, parseFloat, vals[j]))
  }

  /** The index of the first outcome from i on that carries an error, or
      |outs| when there is none. */
  function FirstError(outs: seq<Outcome>, i: nat): (k: nat)
    requires i <= |outs|
    ensures i <= k <= |outs|
    ensures forall j :: i <= j < k ==> outs[j].err.None?
    ensures k < |outs| ==> outs[k].err.Some?
    decreases |outs| - i
  {
    if i == |outs| then i else if outs[i].err.Some? then i else FirstError(outs, i + 1)
  }

  /** The walk from field i on never touches the fields before i. */
  lemma {:induction false} PopulateFromKeepsBefore(shape: Shape, env: Env, parseFloat: FloatParser, cur: seq<Value>, i: nat)
    requires StructConforms(cur, shape) && i <= |cur|
    ensures forall j :: 0 <= j < i ==> PopulateFrom(shape, env, parseFloat, cur, i).fields[j] == cur[j]
    decreases |cur| - i
  {
    if i < |cur| {
      var o := FieldStep(shape.fields[i], env, parseFloat, cur[i]);
      if o.err.None? {
        PopulateFromKeepsBefore(shape, env, parseFloat, cur[i := o.value], i + 1);
      }
    }
  }

  /** One step of the walk, as a fact to hand to the solver. */
  lemma PopulateFromUnfold(shape: Shape, env: Env, parseFloat: FloatParser, cur: seq<Value>, i: nat)
    requires StructConforms(cur, shape) && i < |cur|
    ensures var o := FieldStep(shape.fields[i], env, parseFloat, cur[i]);
      PopulateFrom(shape, env, parseFloat, cur, i) ==
        if o.err.Some? then Walk(cur[i := o.value], o.err)
        else PopulateFrom(shape, env, parseFloat, cur[i := o.value], i + 1)
  {
  }

  /** The walk from i on assigns each step's value up to the first error. */
  lemma {:induction false} PopulateFromPrefix(shape: Shape, env: Env, parseFloat: FloatParser, vals: seq<Value>, cur: seq<Value>, i: nat)
    requires StructConforms(vals, shape) && StructConforms(cur, shape) && i <= |vals|
    requires forall j :: i <= j < |vals| ==> cur[j] == vals[j]
    ensures var outs := Steps(shape, env, parseFloat, vals);
      forall j :: i <= j < FirstError(outs, i) ==> PopulateFrom(shape, env, parseFloat, cur, i).fields[j] == outs[j].value
    decreases |vals| - i
  {
    var outs := Steps(shape, env, parseFloat, vals);
    if i < |vals| {
      var o := FieldStep(shape.fields[i], env, parseFloat, cur[i]);
      assert o == outs[i];
      PopulateFromUnfold(shape, env, parseFloat, cur, i);
      if o.err.None? {
        var next := cur[i := o.value];
        PopulateFromPrefix(shape, env, parseFloat, vals, next, i + 1);
        PopulateFromKeepsBefore(shape, env, parseFloat, next, i + 1);
      }
    }
  }

  /** The walk from i on ends with the first error, assigns the failing
      step's value and leaves the later fields alone. */
  lemma {:induction false} PopulateFromStops(shape: Shape, env: Env, parseFloat: FloatParser, vals: seq<Value>, cur: seq<Value>, i: nat)
    requires StructConforms(vals, shape) && StructConforms(cur, shape) && i <= |vals|
    requires forall j :: i <= j < |vals| ==> cur[j] == vals[j]
    ensures var outs := Steps(shape, env, parseFloat, vals);
      var k := FirstError(outs, i);
      var w := PopulateFrom(shape, env, parseFloat, cur, i);
      && (k == |vals| ==> w.err.None?)
      && (k < |vals| ==> w.err == outs[k].err && w.fields[k] == outs[k].value &&
                         forall j :: k < j < |vals| ==> w.fields[j] == vals[j])
    decreases |vals| - i
  {
    var outs := Steps(shape, env, parseFloat, vals);
    if i < |vals| {
      var o := FieldStep(shape.fields[i], env, parseFloat, cur[i]);
      assert o == outs[i];
      PopulateFromUnfold(shape, env, parseFloat, cur, i);
      if o.err.None? {
        PopulateFromStops(shape, env, parseFloat, vals, cur[i := o.value], i + 1);
      }
    }
  }

  /** populateStruct processes the fields in declaration order and stops at
      the first field whose step fails: every field before it holds what its
      step assigned, the failing field holds what its own step left (its old
      value, or a partly filled nested struct), every later field keeps its
      old value, and the error is the failing step's. Without a failing
      field the walk succeeds and every field holds its step's value. */
  lemma PopulateFirstError(shape: Shape, env: Env, parseFloat: FloatParser, vals: seq<Value>)
    requires StructConforms(vals, shape)
    ensures var outs := Steps(shape, env, parseFloat, vals);
      var k := FirstError(outs, 0);
      var w := Populate(shape, env, parseFloat, vals);
      && (forall j :: 0 <= j < k ==> outs[j].err.None? && w.fields[j] == outs[j].value)
      && (w.err.None? <==> k == |vals|)
      && (k < |vals| ==> w.err == outs[k].err && w.fields[k] == outs[k].value &&
                         forall j :: k < j < |vals| ==> w.fields[j] == vals[j])
  {
    PopulateFromPrefix(shape, env, parseFloat, vals, vals, 0);
    PopulateFromStops(shape, env, parseFloat, vals, vals, 0);
  }

  /** When every field's step succeeds, the walk succeeds with exactly the
      steps' values. */
  lemma PopulateAllSucceed(shape: Shape, env: Env, parseFloat: FloatParser, vals: seq<Value>, xs: seq<Value>)
    requires StructConforms(vals, shape) && |xs| == |vals|
    requires forall j :: 0 <= j < |vals| ==> FieldStep(shape.fields[j], env, parseFloat, vals[j]) == Outcome(xs[j], None)
    ensures Populate(shape, env, parseFloat, vals) == Walk(xs, None)
  {
    var outs := Steps(shape, env, parseFloat, vals);
    FirstErrorNone(outs, 0);
    PopulateFirstError(shape, env, parseFloat, vals);
    assert Populate(shape, env, parseFloat, vals).fields == xs;
  }

  /** A required field whose variable is unset, empty or has no `env` tag
      stops the walk with MissingRequired(key) once the walk reaches it. */
  lemma MissingRequiredFails(shape: Shape, env: Env, parseFloat: FloatParser, vals: seq<Value>, k: nat)
    requires StructConforms(vals, shape) && k < |vals|
    requires shape.fields[k].Leaf? && shape.fields[k].required
    requires shape.fields[k].key == "" || shape.fields[k].key !in env || env[shape.fields[k].key] == ""
    requires forall j :: 0 <= j < k ==> FieldStep(shape.fields[j], env, parseFloat, vals[j]).err.None?
    ensures Populate(shape, env, parseFloat, vals).err == Some(MissingRequired(shape.fields[k].key))
    ensures forall j :: k <= j < |vals| ==> Populate(shape, env, parseFloat, vals).fields[j] == vals[j]
  {
    var outs := Steps(shape, env, parseFloat, vals);
    assert FirstError(outs, 0) == k by {
      FirstErrorAt(outs, 0, k);
    }
    PopulateFirstError(shape, env, parseFloat, vals);
  }

  /** A present value that does not coerce stops the walk with the coercion
      error once the walk reaches it; that field and every later one keep
      their old values (a failed slice is not assigned at all). */
  lemma CoercionFailureStops(shape: Shape, env: Env, parseFloat: FloatParser, vals: seq<Value>, k: nat)
    requires StructConforms(vals, shape) && k < |vals| && shape.fields[k].Leaf?
    requires Getenv(env, shape.fields[k].key) != ""
    requires Coerce(Getenv(env, shape.fields[k].key), shape.fields[k].kind, parseFloat).Failure?
    requires forall j :: 0 <= j < k ==> FieldStep(shape.fields[j], env, parseFloat, vals[j]).err.None?
    ensures Populate(shape, env, parseFloat, vals).err ==
      Some(Coerce(Getenv(env, shape.fields[k].key), shape.fields[k].kind, parseFloat).error)
    ensures forall j :: k <= j < |vals| ==> Populate(shape, env, parseFloat, vals).fields[j] == vals[j]
  {
    var outs := Steps(shape, env, parseFloat, vals);
    assert outs[k] == FieldStep(shape.fields[k], env, parseFloat, vals[k]);
    assert FirstError(outs, 0) == k by {
      FirstErrorAt(outs, 0, k);
    }
    PopulateFirstError(shape, env, parseFloat, vals);
  }

  lemma {:induction false} FirstErrorAt(outs: seq<Outcome>, i: nat, k: nat)
    requires i <= k < |outs|
    requires forall j :: i <= j < k ==> outs[j].err.None?
    requires outs[k].err.Some?
    ensures FirstError(outs, i) == k
    decreases k - i
  {
    if i < k {
      FirstErrorAt(outs, i + 1, k);
    }
  }

  /** A field that is not required and whose variable is unset or empty,
      whatever its kind, raises no error and is left exactly as it was: the
      walk never stops on it. */
  lemma OptionalAbsentUnchanged(shape: Shape, env: Env, parseFloat: FloatParser, vals: seq<Value>, k: nat)
    requires StructConforms(vals, shape) && k < |vals|
    requires shape.fields[k].Leaf? && !shape.fields[k].required
    requires Getenv(env, shape.fields[k].key) == ""
    ensures Steps(shape, env, parseFloat, vals)[k] == Outcome(vals[k], None)
    ensures Populate(shape, env, parseFloat, vals).err.Some? ==> FirstError(Steps(shape, env, parseFloat, vals), 0) != k
    ensures Populate(shape, env, parseFloat, vals).fields[k] == vals[k]
  {
    var outs := Steps(shape, env, parseFloat, vals);
    assert outs[k] == Outcome(vals[k], None);
    PopulateFirstError(shape, env, parseFloat, vals);
  }

  /** Every required leaf, at any depth, has a non-empty variable. */
  ghost predicate RequiredPresent(shape: Shape, env: Env)
    decreases shape
  {
    forall j :: 0 <= j < |shape.fields| ==>
      match shape.fields[j]
      case Leaf(key, required, _) => required ==> Getenv(env, key) != ""
      case Nested(_, _, s) => RequiredPresent(s, env)
  }

  /** After a successful walk every required field, nested ones included,
      had a non-empty variable. */
  lemma {:induction false} SuccessMeansRequiredPresent(shape: Shape, env: Env, parseFloat: FloatParser, vals: seq<Value>)
    requires StructConforms(vals, shape)
    requires Populate(shape, env, parseFloat, vals).err.None?
    ensures RequiredPresent(shape, env)
    decreases shape
  {
    var outs := Steps(shape, env, parseFloat, vals);
    PopulateFirstError(shape, env, parseFloat, vals);
    forall j | 0 <= j < |shape.fields|
      ensures match shape.fields[j]
        case Leaf(key, required, _) => required ==> Getenv(env, key) != ""
        case Nested(_, _, s) => RequiredPresent(s, env)
    {
      assert outs[j].err.None?;
      match shape.fields[j]
      case Leaf(key, required, _) =>
      case Nested(_, _, s) =>
        SuccessMeansRequiredPresent(s, env, parseFloat, vals[j].fields);
    }
  }

  /** No leaf, at any depth, is required or has a non-empty variable. */
  ghost predicate NothingToDo(shape: Shape, env: Env)
    decreases shape
  {
    forall j :: 0 <= j < |shape.fields| ==>
      match shape.fields[j]
      case Leaf(key, required, _) => !required && Getenv(env, key) == ""
      case Nested(_, _, s) => NothingToDo(s, env)
  }

  /** With no required field and no variable set, the walk succeeds and the
      struct is left exactly as it was (a zero config stays zero). */
  lemma {:induction false} NothingToDoUnchanged(shape: Shape, env: Env, parseFloat: FloatParser, vals: seq<Value>)
    requires StructConforms(vals, shape) && NothingToDo(shape, env)
    ensures Populate(shape, env, parseFloat, vals) == Walk(vals, None)
    decreases shape
  {
    var outs := Steps(shape, env, parseFloat, vals);
    forall j | 0 <= j < |vals| ensures outs[j] == Outcome(vals[j], None) {
      match shape.fields[j]
      case Leaf(_, _, _) =>
      case Nested(_, _, s) =>
        NothingToDoUnchanged(s, env, parseFloat, vals[j].fields);
        assert StructVal(vals[j].fields) == vals[j];
    }
    FirstErrorNone(outs, 0);
    PopulateFirstError(shape, env, parseFloat, vals);
    var w := Populate(shape, env, parseFloat, vals);
    assert w.fields == vals;
  }

  lemma {:induction false} FirstErrorNone(outs: seq<Outcome>, i: nat)
    requires i <= |outs|
    requires forall j :: i <= j < |outs| ==> outs[j].err.None?
    ensures FirstError(outs, i) == |outs|
    decreases |outs| - i
  {
    if i < |outs| {
      FirstErrorNone(outs, i + 1);
    }
  }

  /** The shape with the tags of nested field k replaced. */
  function Retag(shape: Shape, k: nat, key: string, required: bool): (r: Shape)
    requires k < |shape.fields| && shape.fields[k].Nested?
  {
    Shape(shape.fields[k := Nested(key, required, shape.fields[k].shape)])
  }

  lemma {:induction false} RetagFrom(shape: Shape, k: nat, key: string, required: bool, env: Env, parseFloat: FloatParser, vals: seq<Value>, i: nat)
    requires k < |shape.fields| && shape.fields[k].Nested?
    requires StructConforms(vals, shape) && i <= |vals|
    ensures StructConforms(vals, Retag(shape, k, key, required))
    ensures PopulateFrom(Retag(shape, k, key, required), env, parseFloat, vals, i) ==
            PopulateFrom(shape, env, parseFloat, vals, i)
    decreases |vals| - i
  {
    var shape' := Retag(shape, k, key, required);
    assert forall j :: 0 <= j < |vals| ==> FieldConforms(vals[j], shape'.fields[j]) by {
      forall j | 0 <= j < |vals| ensures FieldConforms(vals[j], shape'.fields[j]) {
        assert FieldConforms(vals[j], shape.fields[j]);
      }
    }
    if i < |vals| {
      var o := FieldStep(shape.fields[i], env, parseFloat, vals[i]);
      assert FieldStep(shape'.fields[i], env, parseFloat, vals[i]) == o;
      if o.err.None? {
        RetagFrom(shape, k, key, required, env, parseFloat, vals[i := o.value], i + 1);
      }
    }
  }

  /** A nested struct field is always walked, and its own `env` and
      `required` tags make no difference to anything. */
  lemma NestedTagsIgnored(shape: Shape, k: nat, key: string, required: bool, env: Env, parseFloat: FloatParser, vals: seq<Value>)
    requires k < |shape.fields| && shape.fields[k].Nested?
    requires StructConforms(vals, shape)
    ensures StructConforms(vals, Retag(shape, k, key, required))
    ensures Populate(Retag(shape, k, key, required), env, parseFloat, vals) == Populate(shape, env, parseFloat, vals)
  {
    RetagFrom(shape, k, key, required, env, parseFloat, vals, 0);
  }
}
