/**
  The renderer (src/translator.rs): `translate` turns an expression tree into
  the exact text the Kaitai Struct compiler reads.
*/
module Translator {
  import opened Wrappers
  import opened Binary64
  import opened Utils
  import opened Ast
  import opened Decimal

  /**
    Rust's shortest round-trip conversions of an `f64` to text, which this
    model takes as given: `format!("{:e}", v)` and `v.to_string()`.
  */
  datatype FloatFormat = FloatFormat(lowerExp: F64 -> string, display: F64 -> string)

  /** The one thing `translate` demands: no string literal in the tree contains `'`. */
  predicate QuoteFree(e: Expr) {
    match e
    case Str(s) => '\'' !in s
    case List(items) => forall i :: 0 <= i < |items| ==> QuoteFree(items[i])
    case Attribute(value, _) => QuoteFree(value)
    case MethodCall(value, _, args) => QuoteFree(value) && forall i :: 0 <= i < |args| ==> QuoteFree(args[i])
    case UnaryOp(_, v) => QuoteFree(v)
    case BinaryOp(l, _, r) => QuoteFree(l) && QuoteFree(r)
    case CondOp(c, t, f) => QuoteFree(c) && QuoteFree(t) && QuoteFree(f)
    case Subscript(value, idx) => QuoteFree(value) && QuoteFree(idx)
    case _ => true
  }

  /** `[String]::join`. */
  function Join(parts: seq<string>, sep: string): string {
    if |parts| == 0 then ""
    else if |parts| == 1 then parts[0]
    else parts[0] + sep + Join(parts[1..], sep)
  }

  function TranslateUnaryOp(op: UnaryOp): string {
    match op
    case Neg => "-"
    case Not => "not "
    case Inv => "~"
  }

  function TranslateBinaryOp(op: BinaryOp): string {
    match op
    case Add => "+"
    case Sub => "-"
    case Mul => "*"
    case Div => "/"
    case Rem => "%"
    case Eq => "=="
    case Ne => "!="
    case Lt => "<"
    case Le => "<="
    case Gt => ">"
    case Ge => ">="
    case And => "and"
    case Or => "or"
    case BitOr => "|"
    case BitXor => "^"
    case BitAnd => "&"
    case Shl => "<<"
    case Shr => ">>"
  }

  /** The `f64` literal `1e-4`: the double nearest to 0.0001. */
  const ONE_E_MINUS_4 := F64(0x3F1A_36E2_EB1C_432D)
  /** The `f64` literal `1e16`, which is exact. */
  const ONE_E_16 := F64(0x4341_C379_37E0_8000)
  /** The double just below `1e-4`, printed as `9.999999999999999e-5`. */
  const BELOW_1E_MINUS_4 := F64(0x3F1A_36E2_EB1C_432C)
  /** The double just below `1e16`, printed as `9999999999999998`. */
  const BELOW_1E16 := F64(0x4341_C379_37E0_7FFF)

  /** Exponent notation for everything but zero and the range `1e-4..1e16`. */
  function ShouldFormatFloatWithExponent(value: F64): bool {
    if Equal(value, POSITIVE_ZERO) then false
    else !(LessOrEqual(ONE_E_MINUS_4, value) && Less(value, ONE_E_16))
  }

  /** The notation chosen, before the `.0` guard. */
  function FormatFloat(value: F64, fmt: FloatFormat): string {
    if ShouldFormatFloatWithExponent(value) then fmt.lowerExp(value) else fmt.display(value)
  }

  /**
    A float literal: the formatted text, with `.0` appended when that text
    would otherwise read as an integer literal.
  */
  function TranslateFloat(x: PositiveFiniteF64, fmt: FloatFormat): (r: string)
    ensures !AllAsciiDigits(r)
    ensures var formatted := FormatFloat(Value(x), fmt);
            if AllAsciiDigits(formatted) then r == formatted + ".0" else r == formatted
  {
    var formatted := FormatFloat(Value(x), fmt);
    if AllAsciiDigits(formatted) then
      assert !IsAsciiDigit((formatted + ".0")[|formatted|]);
      formatted + ".0"
    else
      formatted
  }

  /**
    `translate`. Its properties, variant by variant, are the lemmas below;
    they are kept out of its own contract so that evaluating it on concrete
    trees stays cheap.
  */
  function Translate(e: Expr, fmt: FloatFormat): string
    requires QuoteFree(e)
    decreases e
  {
    match e
    case Int(n) => DecimalDigits(n)
    case Float(x) => TranslateFloat(x, fmt)
    case Str(s) => "'" + s + "'"
    case Bool(b) => if b then "true" else "false"
    case EnumMember(enumPath, enumLabel) => Join(enumPath + [enumLabel], "::")
    case List(items) => "[" + Join(TranslateEach(items, fmt), ", ") + "]"
    case Name(name) => name
    case Attribute(value, attrName) => Translate(value, fmt) + "." + attrName
    case MethodCall(value, methodName, args) =>
      Translate(value, fmt) + "." + methodName + "(" + Join(TranslateEach(args, fmt), ", ") + ")"
    case UnaryOp(op, v) => "(" + TranslateUnaryOp(op) + Translate(v, fmt) + ")"
    case BinaryOp(l, op, r) =>
      "(" + Translate(l, fmt) + " " + TranslateBinaryOp(op) + " " + Translate(r, fmt) + ")"
    case CondOp(cond, ifTrue, ifFalse) =>
      "(" + Translate(cond, fmt) + " ? " + Translate(ifTrue, fmt) + " : " + Translate(ifFalse, fmt) + ")"
    case Subscript(value, idx) => Translate(value, fmt) + "[" + Translate(idx, fmt) + "]"
  }

  /** `items.iter().map(translate).collect()`. */
  function TranslateEach(items: seq<Expr>, fmt: FloatFormat): (r: seq<string>)
    requires forall i :: 0 <= i < |items| ==> QuoteFree(items[i])
    ensures |r| == |items|
    ensures forall i :: 0 <= i < |items| ==> r[i] == Translate(items[i], fmt)
    decreases items
  {
    if items == [] then [] else [Translate(items[0], fmt)] + TranslateEach(items[1..], fmt)
  }

  // ---------------------------------------------------------------------
  // Operator tokens

  /** The emitted unary tokens are the documented ones, `not` followed by a space. */
  lemma UnaryTokensMatchDocs(op: UnaryOp)
    ensures TranslateUnaryOp(op) == UnaryOpDocToken(op) + (if op == Not then " " else "")
  {
  }

  /** The emitted binary tokens are the documented ones, so the token identifies the operator. */
  lemma BinaryTokensMatchDocs()
    ensures forall op :: TranslateBinaryOp(op) == BinaryOpDocToken(op)
    ensures forall a, b :: TranslateBinaryOp(a) == TranslateBinaryOp(b) ==> a == b
  {
    BinaryDocTokensDistinct();
  }

  // ---------------------------------------------------------------------
  // Float notation

  /**
    On the values a `PositiveFiniteF64` can hold, the notation test is a test
    on the bit pattern: plain notation for +0.0 and for the patterns from
    that of `1e-4` (inclusive) to that of `1e16` (exclusive).
  */
  lemma ShouldFormatFloatWithExponentBits(value: F64)
    requires IsFinite(value) && IsSignPositive(value)
    ensures ShouldFormatFloatWithExponent(value)
        <==> value.bits != 0 && !(ONE_E_MINUS_4.bits <= value.bits < ONE_E_16.bits)
  {
    SignClearOrder(value, POSITIVE_ZERO);
    SignClearOrder(ONE_E_MINUS_4, value);
    SignClearOrder(value, ONE_E_16);
  }

  /** NaN never equals 0.0 and lies in no range; infinities lie outside `1e-4..1e16`. */
  lemma NonFiniteUsesExponent(value: F64)
    requires !IsFinite(value)
    ensures ShouldFormatFloatWithExponent(value)
  {
  }

  /**
    The bounds are the literals they stand for: `1e16` is exactly 10^16, and
    `1e-4` is N * 2^-66 with N within half a unit of 2^66 / 10^4.
  */
  lemma ExponentBoundsAreTheLiterals()
    ensures IsFinite(ONE_E_16) && ScaledValue(ONE_E_16) == 10_000_000_000_000_000 * Pow2(1074)
    ensures BiasedExponent(ONE_E_MINUS_4) == 1009 && IsSignPositive(ONE_E_MINUS_4)
    ensures var n := Significand(ONE_E_MINUS_4);
            -5000 <= 10000 * n - 0x4_0000_0000_0000_0000 <= 5000
  {
    assert BiasedExponent(ONE_E_16) == 1076;
    assert Significand(ONE_E_16) * 2 == 10_000_000_000_000_000;
    assert Pow2(1075) == 2 * Pow2(1074);
  }

  /** The boundary cases of the tests at src/translator.rs:135-177. */
  lemma NotationBoundaries()
    ensures !ShouldFormatFloatWithExponent(POSITIVE_ZERO)
    ensures !ShouldFormatFloatWithExponent(ONE_E_MINUS_4)
    ensures ShouldFormatFloatWithExponent(BELOW_1E_MINUS_4)
    ensures !ShouldFormatFloatWithExponent(BELOW_1E16)
    ensures ShouldFormatFloatWithExponent(ONE_E_16)
  {
    ShouldFormatFloatWithExponentBits(POSITIVE_ZERO);
    ShouldFormatFloatWithExponentBits(ONE_E_MINUS_4);
    ShouldFormatFloatWithExponentBits(BELOW_1E_MINUS_4);
    ShouldFormatFloatWithExponentBits(BELOW_1E16);
    ShouldFormatFloatWithExponentBits(ONE_E_16);
  }

  // ---------------------------------------------------------------------
  // String literals

  /**
    How Kaitai Struct reads a single-quoted literal at the start of `text`:
    everything up to the next `'` is taken literally. Gives the content and
    the text after the closing quote.
  */
  function ReadSingleQuoted(text: string): Option<(string, string)> {
    if |text| == 0 || text[0] != '\'' then None else ReadUntilQuote(text[1..])
  }

  function ReadUntilQuote(text: string): (r: Option<(string, string)>)
    ensures r.Some? ==> '\'' !in r.value.0 && |r.value.0| < |text|
  {
    if text == [] then None
    else if text[0] == '\'' then Some(([], text[1..]))
    else match ReadUntilQuote(text[1..])
      case None => None
      case Some((content, rest)) => Some(([text[0]] + content, rest))
  }

  lemma {:induction false} ReadUntilQuoteLiteral(s: string, rest: string)
    requires '\'' !in s
    ensures ReadUntilQuote(s + "'" + rest) == Some((s, rest))
  {
    if s != [] {
      assert (s + "'" + rest)[1..] == s[1..] + "'" + rest;
      ReadUntilQuoteLiteral(s[1..], rest);
      assert [s[0]] + s[1..] == s;
    }
  }

  /**
    A string literal reads back as itself, whatever follows it, exactly when
    it holds no `'`; with one, the reader stops at the first `'` inside it.
    Hence the precondition of `translate`: quoting such a string would
    silently change it.
  */
  lemma StringLiteralReadsBack(s: string, rest: string)
    ensures ReadSingleQuoted("'" + s + "'" + rest) == Some((s, rest)) <==> '\'' !in s
  {
    var text := "'" + s + "'" + rest;
    assert text[1..] == s + "'" + rest;
    if '\'' !in s {
      ReadUntilQuoteLiteral(s, rest);
    } else {
      var r := ReadUntilQuote(text[1..]);
      assert r.Some? ==> r.value.0 != s;
    }
  }

  /** `translate(Str(s))` is `s` between single quotes, every character passed through. */
  lemma StrRendering(s: string, fmt: FloatFormat, rest: string)
    requires '\'' !in s
    ensures Translate(Str(s), fmt) == "'" + s + "'"
    ensures forall i :: 0 <= i < |s| ==> Translate(Str(s), fmt)[i + 1] == s[i]
    ensures ReadSingleQuoted(Translate(Str(s), fmt) + rest) == Some((s, rest))
  {
    StringLiteralReadsBack(s, rest);
  }

  // ---------------------------------------------------------------------
  // Joined forms: enum members, lists, method arguments

  lemma {:induction false} JoinAppend(parts: seq<string>, last: string, sep: string)
    requires |parts| > 0
    ensures Join(parts + [last], sep) == Join(parts, sep) + sep + last
  {
    if |parts| > 1 {
      assert (parts + [last])[1..] == parts[1..] + [last];
      JoinAppend(parts[1..], last, sep);
    }
  }

  lemma {:induction false} JoinEnds(parts: seq<string>, sep: string)
    requires |parts| > 0
    ensures |Join(parts, sep)| >= |parts[0]| && Join(parts, sep)[..|parts[0]|] == parts[0]
    ensures var j, z := Join(parts, sep), parts[|parts| - 1];
            |j| >= |z| && j[|j| - |z|..] == z
  {
    if |parts| > 1 {
      JoinEnds(parts[1..], sep);
    }
  }

  /**
    How Kaitai Struct splits a scoped name at its `::` separators. A segment
    of an enum path is an identifier, so it holds no `:`.
  */
  function SplitScopes(text: string): (parts: seq<string>)
    ensures |parts| > 0
  {
    if |text| >= 2 && text[0] == ':' && text[1] == ':' then [""] + SplitScopes(text[2..])
    else if text == [] then [""]
    else
      var tail := SplitScopes(text[1..]);
      [[text[0]] + tail[0]] + tail[1..]
  }

  lemma {:induction false} SplitScopesPrefix(s: string, t: string)
    requires ':' !in s
    ensures var tail := SplitScopes(t); SplitScopes(s + t) == [s + tail[0]] + tail[1..]
  {
    var tail := SplitScopes(t);
    if s == [] {
      assert s + t == t && s + tail[0] == tail[0];
      assert [tail[0]] + tail[1..] == tail;
    } else {
      var text := s + t;
      assert text[0] == s[0] && s[0] != ':';
      assert text[1..] == s[1..] + t;
      SplitScopesPrefix(s[1..], t);
      assert [s[0]] + (s[1..] + tail[0]) == s + tail[0];
    }
  }

  lemma {:induction false} SplitScopesOfJoin(parts: seq<string>)
    requires |parts| > 0
    requires forall i :: 0 <= i < |parts| ==> ':' !in parts[i]
    ensures SplitScopes(Join(parts, "::")) == parts
  {
    if |parts| == 1 {
      SplitScopesPrefix(parts[0], "");
      assert parts[0] + "" == parts[0];
    } else {
      var rest := Join(parts[1..], "::");
      SplitScopesOfJoin(parts[1..]);
      var after := "::" + rest;
      assert after[0] == ':' && after[1] == ':' && after[2..] == rest;
      assert SplitScopes(after) == [""] + parts[1..];
      assert Join(parts, "::") == parts[0] + after;
      SplitScopesPrefix(parts[0], after);
      assert parts[0] + "" == parts[0];
      assert ([""] + parts[1..])[1..] == parts[1..];
      assert parts == [parts[0]] + parts[1..];
    }
  }

  /**
    An enum member is its path segments followed by its label, separated by
    `::`; a reader splitting at `::` gets the segments and the label back.
  */
  lemma EnumMemberRendering(enumPath: seq<string>, enumLabel: string, fmt: FloatFormat)
    ensures var r := Translate(EnumMember(enumPath, enumLabel), fmt);
            r == if enumPath == [] then enumLabel else Join(enumPath, "::") + "::" + enumLabel
    ensures (forall i :: 0 <= i < |enumPath| ==> ':' !in enumPath[i]) && ':' !in enumLabel ==>
            SplitScopes(Translate(EnumMember(enumPath, enumLabel), fmt)) == enumPath + [enumLabel]
  {
    if enumPath != [] {
      JoinAppend(enumPath, enumLabel, "::");
    }
    var parts := enumPath + [enumLabel];
    if (forall i :: 0 <= i < |enumPath| ==> ':' !in enumPath[i]) && ':' !in enumLabel {
      assert forall i :: 0 <= i < |parts| ==> ':' !in parts[i] by {
        forall i | 0 <= i < |parts| ensures ':' !in parts[i] {
          if i < |enumPath| { assert parts[i] == enumPath[i]; }
        }
      }
      SplitScopesOfJoin(parts);
    }
  }

  predicate IsPrefix(p: string, s: string) {
    |p| <= |s| && s[..|p|] == p
  }

  predicate IsSuffix(p: string, s: string) {
    |p| <= |s| && s[|s| - |p|..] == p
  }

  lemma PrefixInside(open: string, p: string, s: string, close: string)
    requires IsPrefix(p, s)
    ensures IsPrefix(open + p, open + s + close)
  {
    assert (open + s + close)[..|open| + |p|] == open + s[..|p|];
  }

  lemma SuffixInside(open: string, p: string, s: string, close: string)
    requires IsSuffix(p, s)
    ensures IsSuffix(p + close, open + s + close)
  {
    var r := open + s + close;
    assert r[|r| - |p| - |close|..] == s[|s| - |p|..] + close;
  }

  /** A bracketed join opens with its first part and closes with its last. */
  lemma BracketedJoinEnds(parts: seq<string>, sep: string, open: string, close: string)
    requires |parts| > 0
    ensures IsPrefix(open + parts[0], open + Join(parts, sep) + close)
    ensures IsSuffix(parts[|parts| - 1] + close, open + Join(parts, sep) + close)
  {
    JoinEnds(parts, sep);
    PrefixInside(open, parts[0], Join(parts, sep), close);
    SuffixInside(open, parts[|parts| - 1], Join(parts, sep), close);
  }

  /**
    A list is `[`, its elements joined by `, `, then `]`: `[]` when empty,
    `[x]` for one element, and for more the first element, `, ` and the
    rendering of the rest without its `[`. It opens with the first element's
    rendering and closes with the last one's.
  */
  lemma ListRendering(items: seq<Expr>, fmt: FloatFormat)
    requires forall i :: 0 <= i < |items| ==> QuoteFree(items[i])
    ensures items == [] ==> Translate(List(items), fmt) == "[]"
    ensures |items| == 1 ==> Translate(List(items), fmt) == "[" + Translate(items[0], fmt) + "]"
    ensures |items| >= 2 ==>
              Translate(List(items), fmt) == "[" + Translate(items[0], fmt) + ", " + Translate(List(items[1..]), fmt)[1..]
    ensures items != [] ==>
              && IsPrefix("[" + Translate(items[0], fmt), Translate(List(items), fmt))
              && IsSuffix(Translate(items[|items| - 1], fmt) + "]", Translate(List(items), fmt))
  {
    var parts := TranslateEach(items, fmt);
    assert Translate(List(items), fmt) == "[" + Join(parts, ", ") + "]";
    if items != [] {
      BracketedJoinEnds(parts, ", ", "[", "]");
      assert parts[0] == Translate(items[0], fmt);
      assert parts[|parts| - 1] == Translate(items[|items| - 1], fmt);
    }
    if |items| >= 2 {
      ListCons(items, fmt);
    }
  }

  /** The cons step of a list's rendering, on at least two elements. */
  lemma ListCons(items: seq<Expr>, fmt: FloatFormat)
    requires |items| >= 2
    requires forall i :: 0 <= i < |items| ==> QuoteFree(items[i])
    ensures Translate(List(items), fmt) == "[" + Translate(items[0], fmt) + ", " + Translate(List(items[1..]), fmt)[1..]
  {
    var rest := Join(TranslateEach(items[1..], fmt), ", ");
    assert TranslateEach(items, fmt)[1..] == TranslateEach(items[1..], fmt);
    assert Join(TranslateEach(items, fmt), ", ") == Translate(items[0], fmt) + ", " + rest;
    DropOpening("[", rest + "]");
  }

  lemma DropOpening(open: string, s: string)
    requires |open| == 1
    ensures (open + s)[1..] == s
  {
  }

  // ---------------------------------------------------------------------
  // Bases that are not wrapped

  /**
    Attribute access, method calls and subscripts start with the base's own
    rendering, unparenthesised, followed by `.` or `[`; then comes the
    attribute name, the method name with its arguments laid out as a list
    between `(` and `)`, or the index and `]`.
  */
  lemma BaseNotWrapped(e: Expr, fmt: FloatFormat)
    requires e.Attribute? || e.MethodCall? || e.Subscript?
    requires QuoteFree(e)
    ensures var base, r := Translate(e.value, fmt), Translate(e, fmt);
            && |r| > |base| && r[..|base|] == base
            && r[|base|] == (if e.Subscript? then '[' else '.')
    ensures e.Attribute? ==> Translate(e, fmt) == Translate(e.value, fmt) + "." + e.attrName
    ensures e.Subscript? ==> Translate(e, fmt) == Translate(e.value, fmt) + "[" + Translate(e.idx, fmt) + "]"
    ensures e.MethodCall? ==>
              var args := Translate(List(e.args), fmt);
              Translate(e, fmt) == Translate(e.value, fmt) + "." + e.methodName + "(" + args[1..|args| - 1] + ")"
  {
    if e.MethodCall? {
      var joined := Join(TranslateEach(e.args, fmt), ", ");
      assert Translate(List(e.args), fmt)[1..|Translate(List(e.args), fmt)| - 1] == joined;
    }
  }

  /** The three operator forms: parenthesised whatever their operands are. */
  lemma OperatorFormsParenthesised(e: Expr, fmt: FloatFormat)
    requires e.UnaryOp? || e.BinaryOp? || e.CondOp?
    requires QuoteFree(e)
    ensures var r := Translate(e, fmt);
            r[0] == '(' && r[|r| - 1] == ')'
    ensures e.UnaryOp? ==> Translate(e, fmt) == "(" + TranslateUnaryOp(e.op) + Translate(e.v, fmt) + ")"
    ensures e.BinaryOp? ==>
              Translate(e, fmt) == "(" + Translate(e.l, fmt) + " " + TranslateBinaryOp(e.bop) + " " + Translate(e.r, fmt) + ")"
    ensures e.CondOp? ==>
              Translate(e, fmt)
              == "(" + Translate(e.cond, fmt) + " ? " + Translate(e.ifTrue, fmt) + " : " + Translate(e.ifFalse, fmt) + ")"
  {
  }
}
