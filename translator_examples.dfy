/**
  The expected outputs pinned down by the tests of src/translator.rs, each
  derived from the model, inner nodes first. Where a float is involved, the
  requires clause states what Rust's own float-to-text conversion prints for
  that value.
*/
module TranslatorExamples {
  import opened Binary64
  import opened Decimal
  import opened Utils
  import opened Ast
  import opened Translator

  const THIRTEEN := F64(0x402A_0000_0000_0000)

  /** Test `float` (lines 129-133): not integral, kept as printed. */
  lemma FloatPi(fmt: FloatFormat)
    requires fmt.display(PI) == "3.141592653589793"
    ensures Translate(Float(PI), fmt) == "3.141592653589793"
  {
    ShouldFormatFloatWithExponentBits(PI);
    assert !IsAsciiDigit("3.141592653589793"[1]);
  }

  /** Tests `float_zero` and `float_exact_int` (lines 135-145): whole numbers get `.0`. */
  lemma FloatWhole(fmt: FloatFormat)
    requires fmt.display(POSITIVE_ZERO) == "0"
    requires fmt.display(THIRTEEN) == "13"
    ensures Translate(Float(POSITIVE_ZERO), fmt) == "0.0"
    ensures Translate(Float(THIRTEEN), fmt) == "13.0"
  {
    NotationBoundaries();
    ShouldFormatFloatWithExponentBits(THIRTEEN);
  }

  /** Tests at lines 147-161: the upper boundary of plain notation. */
  lemma FloatUpperBoundary(fmt: FloatFormat)
    requires fmt.display(BELOW_1E16) == "9999999999999998"
    requires fmt.lowerExp(ONE_E_16) == "1e16"
    ensures Translate(Float(BELOW_1E16), fmt) == "9999999999999998.0"
    ensures Translate(Float(ONE_E_16), fmt) == "1e16"
  {
    NotationBoundaries();
    assert !IsAsciiDigit("1e16"[1]);
  }

  /** Tests at lines 163-177: the lower boundary of plain notation. */
  lemma FloatLowerBoundary(fmt: FloatFormat)
    requires fmt.display(ONE_E_MINUS_4) == "0.0001"
    requires fmt.lowerExp(BELOW_1E_MINUS_4) == "9.999999999999999e-5"
    ensures Translate(Float(ONE_E_MINUS_4), fmt) == "0.0001"
    ensures Translate(Float(BELOW_1E_MINUS_4), fmt) == "9.999999999999999e-5"
  {
    NotationBoundaries();
    assert !IsAsciiDigit("0.0001"[1]);
    assert !IsAsciiDigit("9.999999999999999e-5"[1]);
  }

  /** Test `float_max` (lines 179-183). */
  lemma FloatMax(fmt: FloatFormat)
    requires fmt.lowerExp(MAX) == "1.7976931348623157e308"
    ensures Translate(Float(MAX), fmt) == "1.7976931348623157e308"
  {
    ShouldFormatFloatWithExponentBits(MAX);
    assert !IsAsciiDigit("1.7976931348623157e308"[1]);
  }

  /** Test `float_min` (lines 185-189): the smallest normal value. */
  lemma FloatMinPositive(fmt: FloatFormat)
    requires fmt.lowerExp(MIN_POSITIVE) == "2.2250738585072014e-308"
    ensures Translate(Float(MIN_POSITIVE), fmt) == "2.2250738585072014e-308"
  {
    ShouldFormatFloatWithExponentBits(MIN_POSITIVE);
    assert !IsAsciiDigit("2.2250738585072014e-308"[1]);
  }

  /** Test `float_max_subnormal` (lines 191-199). */
  lemma FloatMaxSubnormal(fmt: FloatFormat)
    requires fmt.lowerExp(MAX_SUBNORMAL) == "2.225073858507201e-308"
    ensures Translate(Float(MAX_SUBNORMAL), fmt) == "2.225073858507201e-308"
  {
    ShouldFormatFloatWithExponentBits(MAX_SUBNORMAL);
    assert !IsAsciiDigit("2.225073858507201e-308"[1]);
  }

  /** Test `float_min_subnormal` (lines 201-209). */
  lemma FloatMinSubnormal(fmt: FloatFormat)
    requires fmt.lowerExp(MIN_SUBNORMAL) == "5e-324"
    ensures Translate(Float(MIN_SUBNORMAL), fmt) == "5e-324"
  {
    ShouldFormatFloatWithExponentBits(MIN_SUBNORMAL);
    assert !IsAsciiDigit("5e-324"[1]);
  }

  // ---------------------------------------------------------------------
  // Generic steps: one node rendered from its children's renderings

  lemma JoinTwo(a: string, b: string, sep: string)
    ensures Join([a, b], sep) == a + sep + b
  {
    assert [a, b][1..] == [b];
  }

  lemma JoinThree(a: string, b: string, c: string, sep: string)
    ensures Join([a, b, c], sep) == a + sep + b + sep + c
  {
    assert [a, b, c][1..] == [b, c];
    JoinTwo(b, c, sep);
  }

  lemma ListOfTwo(x: Expr, y: Expr, fmt: FloatFormat)
    requires QuoteFree(x) && QuoteFree(y)
    ensures Translate(List([x, y]), fmt) == "[" + Translate(x, fmt) + ", " + Translate(y, fmt) + "]"
  {
    var parts := TranslateEach([x, y], fmt);
    assert parts == [Translate(x, fmt), Translate(y, fmt)];
    JoinTwo(parts[0], parts[1], ", ");
    assert Translate(List([x, y]), fmt) == "[" + Join(parts, ", ") + "]";
  }

  lemma ListOfThree(x: Expr, y: Expr, z: Expr, fmt: FloatFormat)
    requires QuoteFree(x) && QuoteFree(y) && QuoteFree(z)
    ensures Translate(List([x, y, z]), fmt)
         == "[" + Translate(x, fmt) + ", " + Translate(y, fmt) + ", " + Translate(z, fmt) + "]"
  {
    var parts := TranslateEach([x, y, z], fmt);
    assert parts == [Translate(x, fmt), Translate(y, fmt), Translate(z, fmt)];
    JoinThree(parts[0], parts[1], parts[2], ", ");
  }

  lemma CallWithTwo(v: Expr, name: string, x: Expr, y: Expr, fmt: FloatFormat)
    requires QuoteFree(v) && QuoteFree(x) && QuoteFree(y)
    ensures Translate(MethodCall(v, name, [x, y]), fmt)
         == Translate(v, fmt) + "." + name + "(" + Translate(x, fmt) + ", " + Translate(y, fmt) + ")"
  {
    var parts := TranslateEach([x, y], fmt);
    assert parts == [Translate(x, fmt), Translate(y, fmt)];
    JoinTwo(parts[0], parts[1], ", ");
    var head := Translate(v, fmt) + "." + name + "(";
    assert Translate(MethodCall(v, name, [x, y]), fmt) == head + Join(parts, ", ") + ")";
    assert head + (parts[0] + ", " + parts[1]) + ")" == head + parts[0] + ", " + parts[1] + ")";
  }

  // ---------------------------------------------------------------------
  // The tests of src/translator.rs, in their order. Each example whose
  // expected text is long is proved in two steps: a `...Parts` lemma
  // renders the tree into pieces, and the example joins the pieces.

  /** Lines 211-239. */
  lemma StrLiterals(fmt: FloatFormat)
    ensures Translate(Str(""), fmt) == "''"
    ensures Translate(Str("w\\x"), fmt) == "'w\\x'"
    ensures Translate(Str("y\"z"), fmt) == "'y\"z'"
  {
  }

  /** Lines 251-262. */
  lemma BoolLiterals(fmt: FloatFormat)
    ensures Translate(Bool(false), fmt) == "false" && Translate(Bool(true), fmt) == "true"
  {
  }

  /** Lines 263-274. */
  lemma EnumMemberLiteral(fmt: FloatFormat)
    ensures Translate(EnumMember(["some_type", "port"], "http"), fmt) == "some_type::port::http"
  {
    assert Join(["some_type", "port"], "::") == "some_type" + "::" + "port";
    assert "some_type" + "::" + "port" + "::" + "http" == "some_type::port::http" by {
      assert "some_type" + "::" + "port" == "some_type::port";
    }
    EnumMemberRendering(["some_type", "port"], "http", fmt);
  }

  /** Lines 275-290. */
  lemma ListExample(fmt: FloatFormat)
    ensures Translate(List([Str("literal"), Name("my_string_attr"), BinaryOp(Str("hello "), Add, Name("person_name"))]), fmt)
         == "['literal', my_string_attr, ('hello ' + person_name)]"
  {
    calc {
      "[" + "'literal'" + ", " + "my_string_attr" + ", " + "('hello ' + person_name)" + "]";
      == { assert "[" + "'literal'" + ", " + "my_string_attr" + ", " == "['literal', my_string_attr, "; }
      "['literal', my_string_attr, " + "('hello ' + person_name)" + "]";
      ==
      "['literal', my_string_attr, ('hello ' + person_name)]";
    }
    ListParts(fmt);
  }

  lemma ListParts(fmt: FloatFormat)
    ensures Translate(List([Str("literal"), Name("my_string_attr"), BinaryOp(Str("hello "), Add, Name("person_name"))]), fmt)
         == "[" + "'literal'" + ", " + "my_string_attr" + ", " + "('hello ' + person_name)" + "]"
  {
    ListChildren(fmt);
    assert Translate(Str("literal"), fmt) == "'literal'";
    assert Translate(Name("my_string_attr"), fmt) == "my_string_attr";
    ListOfThree(Str("literal"), Name("my_string_attr"), BinaryOp(Str("hello "), Add, Name("person_name")), fmt);
  }

  lemma ListChildren(fmt: FloatFormat)
    ensures Translate(BinaryOp(Str("hello "), Add, Name("person_name")), fmt) == "('hello ' + person_name)"
  {
  }

  /** Tests `name` and `name_parent` (lines 292-302): a name is passed through. */
  lemma NameExamples(fmt: FloatFormat)
    ensures Translate(Name("note_len"), fmt) == "note_len"
    ensures Translate(Name("_parent"), fmt) == "_parent"
  {
  }

  /** Tests `attribute_zero_int_to_s` and `attribute_neg_int_to_s` (lines 304-323). */
  lemma AttributeIntExamples(fmt: FloatFormat)
    ensures Translate(Attribute(Int(0), "to_s"), fmt) == "0.to_s"
    ensures Translate(Attribute(UnaryOp(Neg, Int(3)), "to_s"), fmt) == "(-3).to_s"
  {
    assert Translate(UnaryOp(Neg, Int(3)), fmt) == "(-3)";
  }

  /** Lines 358-373. */
  lemma MethodCallExample(fmt: FloatFormat)
    ensures Translate(MethodCall(BinaryOp(Name("str_0_to_4"), Add, Str("56789")), "substring", [Int(2), Int(7)]), fmt)
         == "(str_0_to_4 + '56789').substring(2, 7)"
  {
    calc {
      "(str_0_to_4 + '56789')" + "." + "substring" + "(" + "2" + ", " + "7" + ")";
      == { assert "(str_0_to_4 + '56789')" + "." + "substring" == "(str_0_to_4 + '56789').substring"; }
      "(str_0_to_4 + '56789').substring" + "(" + "2" + ", " + "7" + ")";
      == { assert "(str_0_to_4 + '56789').substring" + "(" + "2" == "(str_0_to_4 + '56789').substring(2"; }
      "(str_0_to_4 + '56789').substring(2" + ", " + "7" + ")";
      ==
      "(str_0_to_4 + '56789').substring(2, 7)";
    }
    MethodCallParts(fmt);
  }

  lemma MethodCallParts(fmt: FloatFormat)
    ensures Translate(MethodCall(BinaryOp(Name("str_0_to_4"), Add, Str("56789")), "substring", [Int(2), Int(7)]), fmt)
         == "(str_0_to_4 + '56789')" + "." + "substring" + "(" + "2" + ", " + "7" + ")"
  {
    assert Translate(BinaryOp(Name("str_0_to_4"), Add, Str("56789")), fmt) == "(str_0_to_4 + '56789')";
    assert Translate(Int(2), fmt) == "2" && Translate(Int(7), fmt) == "7";
    CallWithTwo(BinaryOp(Name("str_0_to_4"), Add, Str("56789")), "substring", Int(2), Int(7), fmt);
  }

  /** Tests `unary_neg`, `unary_not` and `unary_inv` (lines 375-400). */
  lemma UnaryExamples(fmt: FloatFormat)
    ensures Translate(UnaryOp(Neg, Int(100)), fmt) == "(-100)"
    ensures Translate(UnaryOp(Not, Bool(false)), fmt) == "(not false)"
    ensures Translate(UnaryOp(Inv, Int(3)), fmt) == "(~3)"
  {
    assert DecimalDigits(100) == "100" by {
      assert DecimalDigits(10) == "10";
    }
  }

  /** The conditional operand of the test at lines 462-477. */
  lemma EofStep(fmt: FloatFormat)
    ensures Translate(CondOp(Bool(true), Attribute(Name("_io"), "eof"), Bool(false)), fmt) == "(true ? _io.eof : false)"
  {
    assert "(" + "true" + " ? " + "_io.eof" + " : " + "false" + ")"
        == "(true ? _io.eof : false)" by {
      assert "(" + "true" + " ? " == "(true ? ";
      assert "(true ? " + "_io.eof" + " : " == "(true ? _io.eof : ";
      assert "(true ? _io.eof : " + "false" + ")" == "(true ? _io.eof : false)";
    }
    assert Translate(Attribute(Name("_io"), "eof"), fmt) == "_io.eof";
  }

  /** Lines 462-477. */
  lemma BinaryEqExample(fmt: FloatFormat)
    ensures Translate(BinaryOp(Bool(false), Eq, CondOp(Bool(true), Attribute(Name("_io"), "eof"), Bool(false))), fmt)
         == "(false == (true ? _io.eof : false))"
  {
    calc {
      "(" + "false" + " " + "==" + " " + "(true ? _io.eof : false)" + ")";
      == { assert "(" + "false" + " " + "==" + " " == "(false == "; }
      "(false == " + "(true ? _io.eof : false)" + ")";
      ==
      "(false == (true ? _io.eof : false))";
    }
    BinaryEqParts(fmt);
  }

  lemma BinaryEqParts(fmt: FloatFormat)
    ensures Translate(BinaryOp(Bool(false), Eq, CondOp(Bool(true), Attribute(Name("_io"), "eof"), Bool(false))), fmt)
         == "(" + "false" + " " + "==" + " " + "(true ? _io.eof : false)" + ")"
  {
    EofStep(fmt);
  }

  /** Lines 657-672. */
  lemma CondOpExample(fmt: FloatFormat)
    ensures Translate(CondOp(BinaryOp(Bool(true), Eq, Bool(false)), Str("nonsense"), Str("makes sense")), fmt)
         == "((true == false) ? 'nonsense' : 'makes sense')"
  {
    calc {
      "(" + "(true == false)" + " ? " + "'nonsense'" + " : " + "'makes sense'" + ")";
      == { assert "(" + "(true == false)" + " ? " == "((true == false) ? "; }
      "((true == false) ? " + "'nonsense'" + " : " + "'makes sense'" + ")";
      == { assert "((true == false) ? " + "'nonsense'" + " : " == "((true == false) ? 'nonsense' : "; }
      "((true == false) ? 'nonsense' : " + "'makes sense'" + ")";
      ==
      "((true == false) ? 'nonsense' : 'makes sense')";
    }
    CondOpParts(fmt);
  }

  lemma CondOpParts(fmt: FloatFormat)
    ensures Translate(CondOp(BinaryOp(Bool(true), Eq, Bool(false)), Str("nonsense"), Str("makes sense")), fmt)
         == "(" + "(true == false)" + " ? " + "'nonsense'" + " : " + "'makes sense'" + ")"
  {
    TrueEqFalse(fmt);
    assert Translate(Str("nonsense"), fmt) == "'nonsense'";
    assert Translate(Str("makes sense"), fmt) == "'makes sense'";
  }

  lemma TrueEqFalse(fmt: FloatFormat)
    ensures Translate(BinaryOp(Bool(true), Eq, Bool(false)), fmt) == "(true == false)"
  {
  }

  /** Lines 674-684. */
  lemma SubscriptAttrExample(fmt: FloatFormat)
    ensures Translate(Subscript(Attribute(Name("cont"), "items"), Int(0)), fmt) == "cont.items[0]"
  {
    assert Translate(Attribute(Name("cont"), "items"), fmt) == "cont.items";
  }

  /** The inner lists of the test at lines 686-711. */
  lemma InnerListsStep(fmt: FloatFormat)
    ensures Translate(List([Int(1), Int(300)]), fmt) == "[1, 300]"
    ensures Translate(List([UnaryOp(Neg, Int(1)), Int(1)]), fmt) == "[(-1), 1]"
  {
    assert DecimalDigits(300) == "300" by {
      assert DecimalDigits(30) == "30";
    }
    assert Translate(Int(1), fmt) == "1" && Translate(Int(300), fmt) == "300";
    ListOfTwo(Int(1), Int(300), fmt);
    assert Translate(UnaryOp(Neg, Int(1)), fmt) == "(-1)";
    ListOfTwo(UnaryOp(Neg, Int(1)), Int(1), fmt);
  }

  /** The outer list of the test at lines 686-711. */
  lemma NestedListStep(fmt: FloatFormat)
    ensures Translate(List([List([Int(1), Int(300)]), List([UnaryOp(Neg, Int(1)), Int(1)])]), fmt)
         == "[[1, 300], [(-1), 1]]"
  {
    calc {
      "[" + "[1, 300]" + ", " + "[(-1), 1]" + "]";
      == { assert "[" + "[1, 300]" + ", " == "[[1, 300], "; }
      "[[1, 300], " + "[(-1), 1]" + "]";
      ==
      "[[1, 300], [(-1), 1]]";
    }
    NestedListParts(fmt);
  }

  lemma NestedListParts(fmt: FloatFormat)
    ensures Translate(List([List([Int(1), Int(300)]), List([UnaryOp(Neg, Int(1)), Int(1)])]), fmt)
         == "[" + "[1, 300]" + ", " + "[(-1), 1]" + "]"
  {
    InnerListsStep(fmt);
    ListOfTwo(List([Int(1), Int(300)]), List([UnaryOp(Neg, Int(1)), Int(1)]), fmt);
  }

  /** Lines 686-711. */
  lemma NestedSubscriptExample(fmt: FloatFormat)
    ensures Translate(
              Subscript(
                Subscript(List([List([Int(1), Int(300)]), List([UnaryOp(Neg, Int(1)), Int(1)])]),
                          Attribute(Str("1"), "to_i")),
                Int(0)), fmt)
         == "[[1, 300], [(-1), 1]]['1'.to_i][0]"
  {
    calc {
      "[[1, 300], [(-1), 1]]" + "[" + "'1'.to_i" + "]" + "[" + "0" + "]";
      == { assert "[[1, 300], [(-1), 1]]" + "[" + "'1'.to_i" == "[[1, 300], [(-1), 1]]['1'.to_i"; }
      "[[1, 300], [(-1), 1]]['1'.to_i" + "]" + "[" + "0" + "]";
      == { assert "[[1, 300], [(-1), 1]]['1'.to_i" + "]" + "[" == "[[1, 300], [(-1), 1]]['1'.to_i]["; }
      "[[1, 300], [(-1), 1]]['1'.to_i][" + "0" + "]";
      ==
      "[[1, 300], [(-1), 1]]['1'.to_i][0]";
    }
    NestedSubscriptParts(fmt);
  }

  lemma NestedSubscriptParts(fmt: FloatFormat)
    ensures Translate(
              Subscript(
                Subscript(List([List([Int(1), Int(300)]), List([UnaryOp(Neg, Int(1)), Int(1)])]),
                          Attribute(Str("1"), "to_i")),
                Int(0)), fmt)
         == "[[1, 300], [(-1), 1]]" + "[" + "'1'.to_i" + "]" + "[" + "0" + "]"
  {
    NestedListStep(fmt);
    assert Translate(Attribute(Str("1"), "to_i"), fmt) == "'1'.to_i";
  }
}
