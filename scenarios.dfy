/** Concrete configurations: the one of goeasyconf_test.go and a few small
    ones showing each rule of the walk on its own. */
module Scenarios {
  import opened Strconv
  import opened Strings
  import opened GoEasyConf
  import opened PopulateProperties

  lemma {:induction false} Pow2AtLeast128(n: nat)
    requires n >= 7
    ensures Pow2(n) >= 128
  {
    if n == 7 {
      Pow2Seven();
    } else {
      Pow2AtLeast128(n - 1);
    }
  }

  /** A small decimal string coerces to its value in a 64-bit field. */
  lemma SmallDecimal(n: nat, parseFloat: FloatParser)
    requires n < 128
    ensures Coerce(FormatDec(n), Int(64), parseFloat) == Success(IntVal(n))
    ensures Coerce(FormatDec(n), Uint(64), parseFloat) == Success(UintVal(n))
  {
    Pow2AtLeast128(63);
    Pow2AtLeast128(64);
    CoerceIntRoundTrip(n, 64, parseFloat);
    CoerceUintRoundTrip(n, 64, parseFloat);
  }

  /** The decimal spelling of a small number, as an `int` field. */
  lemma CoerceSmall(raw: string, n: nat, parseFloat: FloatParser)
    requires n < 128 && raw == FormatDec(n)
    ensures Coerce(raw, Int(64), parseFloat) == Success(IntVal(n))
  {
    SmallDecimal(n, parseFloat);
  }

  // ------------------------------------------------ goeasyconf_test.go

  function NestedConfigShape(): Shape {
    Shape([
      Leaf("NESTED_INT", false, Int(64)),
      Leaf("NESTED_BOOL", false, Bool),
      Leaf("NESTED_SLICE", false, Slice(Int(64))),
      Leaf("NESTED_STR", false, Str)])
  }

  function ConfigShape(): Shape {
    Shape([
      Leaf("STRING_VALUE", true, Str),
      Leaf("INT_VALUE", false, Int(64)),
      Leaf("UINT_VALUE", false, Uint(64)),
      Leaf("BOOL_VALUE", false, Bool),
      Leaf("FLOAT_VALUE", false, Float(64)),
      Leaf("STRING_SLICE", false, Slice(Str)),
      Leaf("INT_SLICE", false, Slice(Int(64))),
      Nested("", false, NestedConfigShape())])
  }

  function TestEnv(): Env {
    map[
      "STRING_VALUE" := "test_string",
      "INT_VALUE" := "42",
      "UINT_VALUE" := "100",
      "BOOL_VALUE" := "true",
      "FLOAT_VALUE" := "3.14",
      "STRING_SLICE" := "apple,banana,orange",
      "INT_SLICE" := "1,2,3",
      "NESTED_INT" := "99",
      "NESTED_BOOL" := "false",
      "NESTED_SLICE" := "10,20,30",
      "NESTED_STR" := "nested_test"]
  }

  function ExpectedNested(): seq<Value> {
    [IntVal(99), BoolVal(false), SliceVal([IntVal(10), IntVal(20), IntVal(30)]), StrVal("nested_test")]
  }

  function ExpectedConfig(): seq<Value> {
    [StrVal("test_string"), IntVal(42), UintVal(100), BoolVal(true), FloatVal(3.14),
     SliceVal([StrVal("apple"), StrVal("banana"), StrVal("orange")]),
     SliceVal([IntVal(1), IntVal(2), IntVal(3)]),
     StructVal(ExpectedNested())]
  }

  lemma JoinThree(a: string, b: string, c: string)
    ensures JoinComma([a, b, c]) == a + "," + b + "," + c
  {
    var parts := [a, b, c];
    assert parts[1..] == [b, c];
    assert parts[1..][1..] == [c];
    assert JoinComma([b, c]) == b + "," + c;
  }

  /** Three comma-free pieces that coerce to known values give the slice of
      those three values. */
  lemma ThreeValues(a: string, b: string, c: string, elem: Kind, parseFloat: FloatParser, xa: Value, xb: Value, xc: Value)
    requires ',' !in a && ',' !in b && ',' !in c
    requires Coerce(a, elem, parseFloat) == Success(xa)
    requires Coerce(b, elem, parseFloat) == Success(xb)
    requires Coerce(c, elem, parseFloat) == Success(xc)
    ensures Coerce(a + "," + b + "," + c, Slice(elem), parseFloat) == Success(SliceVal([xa, xb, xc]))
  {
    var parts := [a, b, c];
    var xs := [xa, xb, xc];
    forall j | 0 <= j < 3 ensures ',' !in parts[j] && Coerce(parts[j], elem, parseFloat) == Success(xs[j]) {
    }
    JoinThree(a, b, c);
    CoerceSliceOfValues(JoinComma(parts), parts, elem, parseFloat, xs);
  }

  function ZeroNested(): seq<Value> {
    [IntVal(0), BoolVal(false), SliceVal([]), StrVal("")]
  }

  function ZeroConfig(): seq<Value> {
    [StrVal(""), IntVal(0), UintVal(0), BoolVal(false), FloatVal(0.0), SliceVal([]), SliceVal([]),
     StructVal(ZeroNested())]
  }

  /** A present variable that coerces becomes the field's value. */
  lemma LeafTakes(key: string, required: bool, kind: Kind, env: Env, parseFloat: FloatParser,
                  v: Value, raw: string, x: Value)
    requires FieldConforms(v, Leaf(key, required, kind))
    requires Getenv(env, key) == raw && raw != ""
    requires Coerce(raw, kind, parseFloat) == Success(x)
    ensures FieldStep(Leaf(key, required, kind), env, parseFloat, v) == Outcome(x, None)
  {
  }

  /** The fields of NestedConfig with their zero and expected values. */
  lemma NestedFields()
    ensures NestedConfigShape().fields[0] == Leaf("NESTED_INT", false, Int(64))
    ensures ZeroNested()[0] == IntVal(0) && ExpectedNested()[0] == IntVal(99)
    ensures NestedConfigShape().fields[1] == Leaf("NESTED_BOOL", false, Bool)
    ensures ZeroNested()[1] == BoolVal(false) && ExpectedNested()[1] == BoolVal(false)
    ensures NestedConfigShape().fields[2] == Leaf("NESTED_SLICE", false, Slice(Int(64)))
    ensures ZeroNested()[2] == SliceVal([]) && ExpectedNested()[2] == SliceVal([IntVal(10), IntVal(20), IntVal(30)])
    ensures NestedConfigShape().fields[3] == Leaf("NESTED_STR", false, Str)
    ensures ZeroNested()[3] == StrVal("") && ExpectedNested()[3] == StrVal("nested_test")
  {
  }

  /** The fields of Config with their zero and expected values. */
  lemma ConfigFields()
    ensures ConfigShape().fields[0] == Leaf("STRING_VALUE", true, Str)
    ensures ZeroConfig()[0] == StrVal("") && ExpectedConfig()[0] == StrVal("test_string")
    ensures ConfigShape().fields[1] == Leaf("INT_VALUE", false, Int(64))
    ensures ZeroConfig()[1] == IntVal(0) && ExpectedConfig()[1] == IntVal(42)
    ensures ConfigShape().fields[2] == Leaf("UINT_VALUE", false, Uint(64))
    ensures ZeroConfig()[2] == UintVal(0) && ExpectedConfig()[2] == UintVal(100)
    ensures ConfigShape().fields[3] == Leaf("BOOL_VALUE", false, Bool)
    ensures ZeroConfig()[3] == BoolVal(false) && ExpectedConfig()[3] == BoolVal(true)
    ensures ConfigShape().fields[4] == Leaf("FLOAT_VALUE", false, Float(64))
    ensures ZeroConfig()[4] == FloatVal(0.0) && ExpectedConfig()[4] == FloatVal(3.14)
    ensures ConfigShape().fields[5] == Leaf("STRING_SLICE", false, Slice(Str))
    ensures ZeroConfig()[5] == SliceVal([]) && ExpectedConfig()[5] == SliceVal([StrVal("apple"), StrVal("banana"), StrVal("orange")])
    ensures ConfigShape().fields[6] == Leaf("INT_SLICE", false, Slice(Int(64)))
    ensures ZeroConfig()[6] == SliceVal([]) && ExpectedConfig()[6] == SliceVal([IntVal(1), IntVal(2), IntVal(3)])
    ensures ConfigShape().fields[7] == Nested("", false, NestedConfigShape())
    ensures ZeroConfig()[7] == StructVal(ZeroNested()) && ExpectedConfig()[7] == StructVal(ExpectedNested())
  {
  }

  /** `NestedConfig{}` is an instance of its type. */
  lemma NestedZeroConforms()
    ensures StructConforms(ZeroNested(), NestedConfigShape())
  {
    NestedFields();
    var n := NestedConfigShape();
    forall j | 0 <= j < 4 ensures FieldConforms(ZeroNested()[j], n.fields[j]) {
      if j == 0 { assert HasKind(Zero(Int(64)), Int(64)); }
      else if j == 1 {} else if j == 2 {} else {}
    }
  }

  /** `Config{}` is an instance of its type. */
  lemma ZeroConforms()
    ensures StructConforms(ZeroConfig(), ConfigShape())
  {
    NestedZeroConforms();
    ConfigFields();
    var c := ConfigShape();
    forall j | 0 <= j < 8 ensures FieldConforms(ZeroConfig()[j], c.fields[j]) {
      if j < 4 {
        if j == 0 {}
        else if j == 1 { assert HasKind(Zero(Int(64)), Int(64)); }
        else if j == 2 { assert HasKind(Zero(Uint(64)), Uint(64)); }
        else {}
      } else if j == 4 {} else if j == 5 {} else if j == 6 {} else {}
    }
  }

  lemma CoerceUint100(parseFloat: FloatParser)
    ensures Coerce("100", Uint(64), parseFloat) == Success(UintVal(100))
  {
    assert FormatDec(100) == "100";
    SmallDecimal(100, parseFloat);
  }

  lemma CoerceTensList(parseFloat: FloatParser)
    ensures Coerce("10,20,30", Slice(Int(64)), parseFloat) == Success(SliceVal([IntVal(10), IntVal(20), IntVal(30)]))
  {
    CoerceSmall("10", 10, parseFloat);
    CoerceSmall("20", 20, parseFloat);
    CoerceSmall("30", 30, parseFloat);
    TensSpelling();
    ThreeValues("10", "20", "30", Int(64), parseFloat, IntVal(10), IntVal(20), IntVal(30));
  }

  lemma CoerceDigitsList(parseFloat: FloatParser)
    ensures Coerce("1,2,3", Slice(Int(64)), parseFloat) == Success(SliceVal([IntVal(1), IntVal(2), IntVal(3)]))
  {
    CoerceSmall("1", 1, parseFloat);
    CoerceSmall("2", 2, parseFloat);
    CoerceSmall("3", 3, parseFloat);
    DigitsSpelling();
    ThreeValues("1", "2", "3", Int(64), parseFloat, IntVal(1), IntVal(2), IntVal(3));
  }

  lemma CoerceFruitList(parseFloat: FloatParser)
    ensures Coerce("apple,banana,orange", Slice(Str), parseFloat) == Success(SliceVal([StrVal("apple"), StrVal("banana"), StrVal("orange")]))
  {
    FruitSpelling();
    ThreeValues("apple", "banana", "orange", Str, parseFloat, StrVal("apple"), StrVal("banana"), StrVal("orange"));
  }

  lemma TensSpelling()
    ensures ',' !in "10" && ',' !in "20" && ',' !in "30"
    ensures "10" + "," + "20" + "," + "30" == "10,20,30"
  {
  }

  lemma DigitsSpelling()
    ensures ',' !in "1" && ',' !in "2" && ',' !in "3"
    ensures "1" + "," + "2" + "," + "3" == "1,2,3"
  {
  }

  lemma FruitSpelling()
    ensures ',' !in "apple" && ',' !in "banana" && ',' !in "orange"
    ensures "apple" + "," + "banana" + "," + "orange" == "apple,banana,orange"
  {
  }

  lemma NestedField0()
    ensures NestedConfigShape().fields[0] == Leaf("NESTED_INT", false, Int(64))
    ensures ZeroNested()[0] == IntVal(0) && ExpectedNested()[0] == IntVal(99)
    ensures Getenv(TestEnv(), "NESTED_INT") == "99"
  {
  }

  lemma NestedStep0(parseFloat: FloatParser)
    ensures FieldStep(NestedConfigShape().fields[0], TestEnv(), parseFloat, ZeroNested()[0]) == Outcome(ExpectedNested()[0], None)
  {
    NestedField0();
    CoerceSmall("99", 99, parseFloat);
    LeafTakes("NESTED_INT", false, Int(64), TestEnv(), parseFloat, IntVal(0), "99", IntVal(99));
  }

  lemma NestedField1()
    ensures NestedConfigShape().fields[1] == Leaf("NESTED_BOOL", false, Bool)
    ensures ZeroNested()[1] == BoolVal(false) && ExpectedNested()[1] == BoolVal(false)
    ensures Getenv(TestEnv(), "NESTED_BOOL") == "false"
  {
  }

  lemma NestedStep1(parseFloat: FloatParser)
    ensures FieldStep(NestedConfigShape().fields[1], TestEnv(), parseFloat, ZeroNested()[1]) == Outcome(ExpectedNested()[1], None)
  {
    NestedField1();
    LeafTakes("NESTED_BOOL", false, Bool, TestEnv(), parseFloat, BoolVal(false), "false", BoolVal(false));
  }

  lemma NestedField2()
    ensures NestedConfigShape().fields[2] == Leaf("NESTED_SLICE", false, Slice(Int(64)))
    ensures ZeroNested()[2] == SliceVal([]) && ExpectedNested()[2] == SliceVal([IntVal(10), IntVal(20), IntVal(30)])
    ensures Getenv(TestEnv(), "NESTED_SLICE") == "10,20,30"
  {
  }

  lemma NestedStep2(parseFloat: FloatParser)
    ensures FieldStep(NestedConfigShape().fields[2], TestEnv(), parseFloat, ZeroNested()[2]) == Outcome(ExpectedNested()[2], None)
  {
    NestedField2();
    CoerceTensList(parseFloat);
    LeafTakes("NESTED_SLICE", false, Slice(Int(64)), TestEnv(), parseFloat, SliceVal([]), "10,20,30", SliceVal([IntVal(10), IntVal(20), IntVal(30)]));
  }

  lemma NestedField3()
    ensures NestedConfigShape().fields[3] == Leaf("NESTED_STR", false, Str)
    ensures ZeroNested()[3] == StrVal("") && ExpectedNested()[3] == StrVal("nested_test")
    ensures Getenv(TestEnv(), "NESTED_STR") == "nested_test"
  {
  }

  lemma NestedStep3(parseFloat: FloatParser)
    ensures FieldStep(NestedConfigShape().fields[3], TestEnv(), parseFloat, ZeroNested()[3]) == Outcome(ExpectedNested()[3], None)
  {
    NestedField3();
    LeafTakes("NESTED_STR", false, Str, TestEnv(), parseFloat, StrVal(""), "nested_test", StrVal("nested_test"));
  }

  lemma ConfigField0()
    ensures ConfigShape().fields[0] == Leaf("STRING_VALUE", true, Str)
    ensures ZeroConfig()[0] == StrVal("") && ExpectedConfig()[0] == StrVal("test_string")
    ensures Getenv(TestEnv(), "STRING_VALUE") == "test_string"
  {
  }

  lemma ConfigStep0(parseFloat: FloatParser)
    ensures FieldStep(ConfigShape().fields[0], TestEnv(), parseFloat, ZeroConfig()[0]) == Outcome(ExpectedConfig()[0], None)
  {
    ConfigField0();
    LeafTakes("STRING_VALUE", true, Str, TestEnv(), parseFloat, StrVal(""), "test_string", StrVal("test_string"));
  }

  lemma ConfigField1()
    ensures ConfigShape().fields[1] == Leaf("INT_VALUE", false, Int(64))
    ensures ZeroConfig()[1] == IntVal(0) && ExpectedConfig()[1] == IntVal(42)
    ensures Getenv(TestEnv(), "INT_VALUE") == "42"
  {
  }

  lemma ConfigStep1(parseFloat: FloatParser)
    ensures FieldStep(ConfigShape().fields[1], TestEnv(), parseFloat, ZeroConfig()[1]) == Outcome(ExpectedConfig()[1], None)
  {
    ConfigField1();
    CoerceSmall("42", 42, parseFloat);
    LeafTakes("INT_VALUE", false, Int(64), TestEnv(), parseFloat, IntVal(0), "42", IntVal(42));
  }

  lemma ConfigField2()
    ensures ConfigShape().fields[2] == Leaf("UINT_VALUE", false, Uint(64))
    ensures ZeroConfig()[2] == UintVal(0) && ExpectedConfig()[2] == UintVal(100)
    ensures Getenv(TestEnv(), "UINT_VALUE") == "100"
  {
  }

  lemma ConfigStep2(parseFloat: FloatParser)
    ensures FieldStep(ConfigShape().fields[2], TestEnv(), parseFloat, ZeroConfig()[2]) == Outcome(ExpectedConfig()[2], None)
  {
    ConfigField2();
    CoerceUint100(parseFloat);
    LeafTakes("UINT_VALUE", false, Uint(64), TestEnv(), parseFloat, UintVal(0), "100", UintVal(100));
  }

  lemma ConfigField3()
    ensures ConfigShape().fields[3] == Leaf("BOOL_VALUE", false, Bool)
    ensures ZeroConfig()[3] == BoolVal(false) && ExpectedConfig()[3] == BoolVal(true)
    ensures Getenv(TestEnv(), "BOOL_VALUE") == "true"
  {
  }

  lemma ConfigStep3(parseFloat: FloatParser)
    ensures FieldStep(ConfigShape().fields[3], TestEnv(), parseFloat, ZeroConfig()[3]) == Outcome(ExpectedConfig()[3], None)
  {
    ConfigField3();
    LeafTakes("BOOL_VALUE", false, Bool, TestEnv(), parseFloat, BoolVal(false), "true", BoolVal(true));
  }

  lemma ConfigField4()
    ensures ConfigShape().fields[4] == Leaf("FLOAT_VALUE", false, Float(64))
    ensures ZeroConfig()[4] == FloatVal(0.0) && ExpectedConfig()[4] == FloatVal(3.14)
    ensures Getenv(TestEnv(), "FLOAT_VALUE") == "3.14"
  {
  }

  lemma ConfigStep4(parseFloat: FloatParser)
    requires parseFloat("3.14", 64) == Some(3.14)
    ensures FieldStep(ConfigShape().fields[4], TestEnv(), parseFloat, ZeroConfig()[4]) == Outcome(ExpectedConfig()[4], None)
  {
    ConfigField4();
    LeafTakes("FLOAT_VALUE", false, Float(64), TestEnv(), parseFloat, FloatVal(0.0), "3.14", FloatVal(3.14));
  }

  lemma ConfigField5()
    ensures ConfigShape().fields[5] == Leaf("STRING_SLICE", false, Slice(Str))
    ensures ZeroConfig()[5] == SliceVal([]) && ExpectedConfig()[5] == SliceVal([StrVal("apple"), StrVal("banana"), StrVal("orange")])
    ensures Getenv(TestEnv(), "STRING_SLICE") == "apple,banana,orange"
  {
  }

  lemma ConfigStep5(parseFloat: FloatParser)
    ensures FieldStep(ConfigShape().fields[5], TestEnv(), parseFloat, ZeroConfig()[5]) == Outcome(ExpectedConfig()[5], None)
  {
    ConfigField5();
    CoerceFruitList(parseFloat);
    LeafTakes("STRING_SLICE", false, Slice(Str), TestEnv(), parseFloat, SliceVal([]), "apple,banana,orange", SliceVal([StrVal("apple"), StrVal("banana"), StrVal("orange")]));
  }

  lemma ConfigField6()
    ensures ConfigShape().fields[6] == Leaf("INT_SLICE", false, Slice(Int(64)))
    ensures ZeroConfig()[6] == SliceVal([]) && ExpectedConfig()[6] == SliceVal([IntVal(1), IntVal(2), IntVal(3)])
    ensures Getenv(TestEnv(), "INT_SLICE") == "1,2,3"
  {
  }

  lemma ConfigStep6(parseFloat: FloatParser)
    ensures FieldStep(ConfigShape().fields[6], TestEnv(), parseFloat, ZeroConfig()[6]) == Outcome(ExpectedConfig()[6], None)
  {
    ConfigField6();
    CoerceDigitsList(parseFloat);
    LeafTakes("INT_SLICE", false, Slice(Int(64)), TestEnv(), parseFloat, SliceVal([]), "1,2,3", SliceVal([IntVal(1), IntVal(2), IntVal(3)]));
  }

  lemma NestedConfigPopulates(parseFloat: FloatParser)
    ensures StructConforms(ZeroNested(), NestedConfigShape())
    ensures Populate(NestedConfigShape(), TestEnv(), parseFloat, ZeroNested()) == Walk(ExpectedNested(), None)
  {
    NestedZeroConforms();
    var shape, env, vals, xs := NestedConfigShape(), TestEnv(), ZeroNested(), ExpectedNested();
    forall j | 0 <= j < 4 ensures FieldStep(shape.fields[j], env, parseFloat, vals[j]) == Outcome(xs[j], None) {
      if j == 0 { NestedStep0(parseFloat); }
      else if j == 1 { NestedStep1(parseFloat); }
      else if j == 2 { NestedStep2(parseFloat); }
      else { NestedStep3(parseFloat); }
    }
    PopulateAllSucceed(shape, env, parseFloat, vals, xs);
  }

  lemma ConfigStep7(parseFloat: FloatParser)
    ensures FieldStep(ConfigShape().fields[7], TestEnv(), parseFloat, ZeroConfig()[7]) == Outcome(ExpectedConfig()[7], None)
  {
    ConfigFields();
    NestedConfigPopulates(parseFloat);
  }

  lemma ConfigPopulates(parseFloat: FloatParser)
    requires parseFloat("3.14", 64) == Some(3.14)
    ensures StructConforms(ZeroConfig(), ConfigShape())
    ensures Populate(ConfigShape(), TestEnv(), parseFloat, ZeroConfig()) == Walk(ExpectedConfig(), None)
  {
    ZeroConforms();
    var shape, env, vals, xs := ConfigShape(), TestEnv(), ZeroConfig(), ExpectedConfig();
    forall j | 0 <= j < 8 ensures FieldStep(shape.fields[j], env, parseFloat, vals[j]) == Outcome(xs[j], None) {
      if j < 4 {
        if j == 0 { ConfigStep0(parseFloat); }
        else if j == 1 { ConfigStep1(parseFloat); }
        else if j == 2 { ConfigStep2(parseFloat); }
        else { ConfigStep3(parseFloat); }
      } else if j == 4 { ConfigStep4(parseFloat); }
      else if j == 5 { ConfigStep5(parseFloat); }
      else if j == 6 { ConfigStep6(parseFloat); }
      else { ConfigStep7(parseFloat); }
    }
    PopulateAllSucceed(shape, env, parseFloat, vals, xs);
  }

  /** TestFillConfig: a zero Config, filled through a pointer, equals the
      expected literal (with strconv.ParseFloat reading "3.14" as 3.14). */
  method TestFillConfig(parseFloat: FloatParser) returns (cfg: Value, err: Option<ConfigError>)
    requires parseFloat("3.14", 64) == Some(3.14)
    ensures err == None
    ensures cfg == StructVal(ExpectedConfig())
  {
    ConfigPopulates(parseFloat);
    var cell := new Cell(StructType(ConfigShape()), StructVal(ZeroConfig()));
    err := FillConfig(Pointer(cell), TestEnv(), parseFloat);
    cfg := cell.value;
  }

  // ------------------------------------------------ small configurations

  function ServiceShape(): Shape {
    Shape([Leaf("NAME", true, Str), Leaf("PORT", false, Int(64)), Leaf("TAGS", false, Slice(Str))])
  }

  function ServiceEnv(): Env {
    map["NAME" := "svc", "TAGS" := "a,b,c"]
  }

  function ZeroService(): seq<Value> {
    [StrVal(""), IntVal(0), SliceVal([])]
  }

  lemma ServiceLookups()
    ensures Getenv(ServiceEnv(), "NAME") == "svc"
    ensures Getenv(ServiceEnv(), "PORT") == ""
    ensures Getenv(ServiceEnv(), "TAGS") == "a,b,c"
  {
  }

  lemma CoerceTags(parseFloat: FloatParser)
    ensures Coerce("a,b,c", Slice(Str), parseFloat) == Success(SliceVal([StrVal("a"), StrVal("b"), StrVal("c")]))
  {
    assert ',' !in "a" && ',' !in "b" && ',' !in "c";
    assert "a" + "," + "b" + "," + "c" == "a,b,c";
    ThreeValues("a", "b", "c", Str, parseFloat, StrVal("a"), StrVal("b"), StrVal("c"));
  }

  lemma ServiceFields()
    ensures ServiceShape().fields[0] == Leaf("NAME", true, Str)
    ensures ServiceShape().fields[1] == Leaf("PORT", false, Int(64))
    ensures ServiceShape().fields[2] == Leaf("TAGS", false, Slice(Str))
    ensures StructConforms(ZeroService(), ServiceShape())
  {
    assert HasKind(Zero(Int(64)), Int(64));
  }

  lemma ServiceSteps(parseFloat: FloatParser)
    ensures StructConforms(ZeroService(), ServiceShape())
    ensures FieldStep(ServiceShape().fields[0], ServiceEnv(), parseFloat, StrVal("")) == Outcome(StrVal("svc"), None)
    ensures FieldStep(ServiceShape().fields[1], ServiceEnv(), parseFloat, IntVal(0)) == Outcome(IntVal(0), None)
    ensures FieldStep(ServiceShape().fields[2], ServiceEnv(), parseFloat, SliceVal([])) ==
      Outcome(SliceVal([StrVal("a"), StrVal("b"), StrVal("c")]), None)
  {
    ServiceFields();
    ServiceLookups();
    CoerceTags(parseFloat);
    LeafTakes("NAME", true, Str, ServiceEnv(), parseFloat, StrVal(""), "svc", StrVal("svc"));
    LeafTakes("TAGS", false, Slice(Str), ServiceEnv(), parseFloat, SliceVal([]), "a,b,c",
              SliceVal([StrVal("a"), StrVal("b"), StrVal("c")]));
  }

  /** NAME set, PORT unset, TAGS="a,b,c": success, Port stays 0. */
  lemma ServiceWithoutPort(parseFloat: FloatParser)
    ensures StructConforms(ZeroService(), ServiceShape())
    ensures Populate(ServiceShape(), ServiceEnv(), parseFloat, ZeroService()) ==
      Walk([StrVal("svc"), IntVal(0), SliceVal([StrVal("a"), StrVal("b"), StrVal("c")])], None)
  {
    ServiceSteps(parseFloat);
    var shape, env, vals := ServiceShape(), ServiceEnv(), ZeroService();
    var xs := [StrVal("svc"), IntVal(0), SliceVal([StrVal("a"), StrVal("b"), StrVal("c")])];
    forall j | 0 <= j < 3 ensures FieldStep(shape.fields[j], env, parseFloat, vals[j]) == Outcome(xs[j], None) {
      if j == 0 {} else if j == 1 {} else {}
    }
    PopulateAllSucceed(shape, env, parseFloat, vals, xs);
  }

  /** An empty environment: the required NAME is missing. */
  lemma ServiceEmptyEnv(parseFloat: FloatParser)
    ensures Populate(ServiceShape(), map[], parseFloat, ZeroService()).err == Some(MissingRequired("NAME"))
  {
    ServiceSteps(parseFloat);
    MissingRequiredFails(ServiceShape(), map[], parseFloat, ZeroService(), 0);
  }

  /** PORT="not-a-number": a coercion error naming the text and the kind. */
  lemma PortNotANumber(parseFloat: FloatParser)
    ensures Populate(Shape([Leaf("PORT", false, Int(64))]), map["PORT" := "not-a-number"], parseFloat, [IntVal(0)]) ==
      Walk([IntVal(0)], Some(TypeCoercion("not-a-number", Int(64))))
  {
    assert !IsDigit("not-a-number"[0]);
    var shape: Shape := Shape([Leaf("PORT", false, Int(64))]);
    assert StructConforms([IntVal(0)], shape);
    assert FieldStep(shape.fields[0], map["PORT" := "not-a-number"], parseFloat, IntVal(0)) ==
      Outcome(IntVal(0), Some(TypeCoercion("not-a-number", Int(64))));
    assert [IntVal(0)][0 := IntVal(0)] == [IntVal(0)];
  }

  lemma InnerFilled(parseFloat: FloatParser)
    ensures StructConforms([IntVal(0)], Shape([Leaf("X", false, Int(64))]))
    ensures Populate(Shape([Leaf("X", false, Int(64))]), map["X" := "5"], parseFloat, [IntVal(0)]) == Walk([IntVal(5)], None)
  {
    var inner: Shape := Shape([Leaf("X", false, Int(64))]);
    var env: Env := map["X" := "5"];
    assert HasKind(Zero(Int(64)), Int(64));
    assert StructConforms([IntVal(0)], inner);
    CoerceSmall("5", 5, parseFloat);
    LeafTakes("X", false, Int(64), env, parseFloat, IntVal(0), "5", IntVal(5));
    PopulateAllSucceed(inner, env, parseFloat, [IntVal(0)], [IntVal(5)]);
  }

  /** A nested struct with no tag of its own is filled from X. */
  lemma NestedFromOwnKey(parseFloat: FloatParser)
    ensures Populate(Shape([Nested("", false, Shape([Leaf("X", false, Int(64))]))]), map["X" := "5"], parseFloat,
                     [StructVal([IntVal(0)])]) ==
      Walk([StructVal([IntVal(5)])], None)
  {
    var inner: Shape := Shape([Leaf("X", false, Int(64))]);
    var shape: Shape := Shape([Nested("", false, inner)]);
    var env: Env := map["X" := "5"];
    InnerFilled(parseFloat);
    assert StructConforms([StructVal([IntVal(0)])], shape);
    assert FieldStep(shape.fields[0], env, parseFloat, StructVal([IntVal(0)])) == Outcome(StructVal([IntVal(5)]), None);
    PopulateAllSucceed(shape, env, parseFloat, [StructVal([IntVal(0)])], [StructVal([IntVal(5)])]);
  }

  function ThreeFields(): Shape {
    Shape([Leaf("A", false, Str), Leaf("B", false, Int(64)), Leaf("C", false, Str)])
  }

  /** No rollback: A is assigned, B fails, C is never reached. */
  lemma NoRollback(parseFloat: FloatParser)
    ensures Populate(ThreeFields(), map["A" := "x", "B" := "bad", "C" := "y"], parseFloat, ZeroStruct(ThreeFields())) ==
      Walk([StrVal("x"), IntVal(0), StrVal("")], Some(TypeCoercion("bad", Int(64))))
  {
    var shape, env, vals := ThreeFields(), map["A" := "x", "B" := "bad", "C" := "y"], ZeroStruct(ThreeFields());
    var outs := Steps(shape, env, parseFloat, vals);
    assert !IsDigit("bad"[0]);
    assert outs[0] == Outcome(StrVal("x"), None);
    assert outs[1] == Outcome(IntVal(0), Some(TypeCoercion("bad", Int(64))));
    FirstErrorAt(outs, 0, 1);
    PopulateFirstError(shape, env, parseFloat, vals);
    assert Populate(shape, env, parseFloat, vals).fields == [StrVal("x"), IntVal(0), StrVal("")];
  }

  /** A required field without an `env` tag fails even when the
      environment has an entry under the empty name. */
  lemma RequiredWithoutTag(parseFloat: FloatParser)
    ensures Populate(Shape([Leaf("", true, Str)]), map["" := "x"], parseFloat, [StrVal("")]).err == Some(MissingRequired(""))
  {
    assert StructConforms([StrVal("")], Shape([Leaf("", true, Str)]));
    MissingRequiredFails(Shape([Leaf("", true, Str)]), map["" := "x"], parseFloat, [StrVal("")], 0);
  }

  /** An unsupported kind is only an error when its variable is set. */
  lemma UnsupportedOnlyWhenPresent(parseFloat: FloatParser)
    ensures Populate(Shape([Leaf("M", false, Other("map"))]), map[], parseFloat, [OpaqueVal]) == Walk([OpaqueVal], None)
    ensures Populate(Shape([Leaf("M", false, Other("map"))]), map["M" := "a"], parseFloat, [OpaqueVal]) ==
      Walk([OpaqueVal], Some(UnsupportedType("map")))
  {
    var shape: Shape := Shape([Leaf("M", false, Other("map"))]);
    assert StructConforms([OpaqueVal], shape);
    NothingToDoUnchanged(shape, map[], parseFloat, [OpaqueVal]);
    assert [OpaqueVal][0 := OpaqueVal] == [OpaqueVal];
  }

  /** FillConfig refuses a non-pointer, a nil pointer and a pointer to a
      non-struct, and leaves the pointed-to int alone. */
  method InvalidTargets(env: Env, parseFloat: FloatParser)
    returns (e1: Option<ConfigError>, e2: Option<ConfigError>, e3: Option<ConfigError>, n: Value)
    ensures e1 == Some(InvalidTarget) && e2 == Some(InvalidTarget) && e3 == Some(InvalidTarget)
    ensures n == IntVal(7)
  {
    e1 := FillConfig(NonPointer, env, parseFloat);
    e2 := FillConfig(Pointer(null), env, parseFloat);
    var cell := new Cell(KindType(Int(64)), IntVal(7));
    e3 := FillConfig(Pointer(cell), env, parseFloat);
    n := cell.value;
  }
}
