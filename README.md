# Kaitai Struct expression translator, modelled in Dafny

This project models the expression pretty-printer of a Kaitai Struct test generator. The printer takes an expression tree (`Expr`) and renders it as the exact text the Kaitai Struct compiler reads. The project has three parts:

- The data model of `src/ast.rs` (module `Ast`): the thirteen `Expr` variants, the three `UnaryOp` tags and the eighteen `BinaryOp` tags.
- The validated float of `src/ast/utils.rs` (module `Utils`): `PositiveFiniteF64`, `InvalidFloatError`, `try_from` and `value()`.
- The renderer of `src/translator.rs` (module `Translator`): `translate`, `translate_unary_op`, `translate_binary_op`, `should_format_float_with_exponent` and the `.0` guard for floats.

Supporting modules:

- `Binary64` models an `f64` by its 64-bit pattern, as in section 3.4 of IEEE 754-2008. The pattern has a sign bit, an 11-bit biased exponent and a 52-bit trailing significand.
  - `ScaledValue` gives the exact value of a finite pattern, multiplied by 2^1074, so it is an integer.
  - Rust's `==`, `<` and `<=` on `f64` are defined through that integer. NaN and the infinities get the IEEE treatment.
  - `SignClearOrder` proves that, for patterns with the sign bit clear, numeric order is the unsigned order of the bits. The model assumes nothing here: it is a lemma with a proof.
- `Decimal` models the base-10 rendering of the integer payload. `ParseDecimal` is its inverse.
- `Wrappers` holds `Option` and `Result`.
- `TranslatorExamples` derives, from the model, the expected outputs that the tests in `src/translator.rs` assert.

`translate` demands one thing of its input: no string literal in the tree may contain `'`. The source panics on such a string. The model states this as the precondition `QuoteFree` of `Translate`.

Rust's float-to-decimal digit generation (`format!("{:e}", v)` and `v.to_string()`) is a parameter of type `FloatFormat`. The notation choice and the `.0` guard are modelled concretely.

## Model

| member | source | states |
|---|---|---|
| Utils.TryFrom | src/ast/utils.rs:15-26 | accepts exactly the finite values with the sign bit clear and keeps them unchanged; `NonFinite` exactly for NaN of either sign and the infinities; `Negative` exactly for finite values with the sign bit set |
| Utils.Value | src/ast/utils.rs:29-31 | the wrapped value is finite, has the sign bit clear and is numerically at least zero |
| Utils.TryFromNumeric | src/ast/utils.rs:15-26 | numerically, `try_from` accepts the finite values that are at least zero, except negative zero; it gives `Negative` for finite values below zero and for negative zero |
| Utils.NanOfEitherSignIsNonFinite | src/ast/utils.rs:16-24 | finiteness is checked before the sign, so a NaN with the sign bit set is `NonFinite`, not `Negative` |
| Utils.TryFromTestPatterns | src/ast/utils.rs:38-149 | the outcome of every test pattern: both NaNs and both infinities are rejected as non-finite; +0, the subnormal extremes, MIN_POSITIVE, MAX and pi are accepted; their negatives are `Negative` |
| Binary64.SignClearOrder | src/translator.rs:109-115 | with the sign bit clear, `<` and `==` on the numeric value agree with `<` and `==` on the bit pattern |
| Ast.OperatorTagsEnumerated | src/ast.rs:47-101 | `UnaryOp` has exactly 3 tags and `BinaryOp` exactly 18, each listed once |
| Ast.BinaryOpOfDocToken | src/ast.rs:58-101 | reads a documented binary token back as its operator; fails on any other text |
| Ast.BinaryDocTokensDistinct | src/ast.rs:58-101 | reading back a tag's documented token gives that tag, so the 18 documented tokens are pairwise distinct |
| Decimal.DecimalDigits | src/translator.rs:5 | an integer renders as non-empty ASCII digits, with no sign and no leading zero except in "0" |
| Decimal.ParseDecimalOfDigits | src/translator.rs:5 | reading the rendering back gives the integer again |
| Decimal.DigitsOfParseDecimal | src/translator.rs:5 | every canonical digit string is the rendering of exactly one integer |
| Decimal.U64MaxDigits | src/translator.rs:123-127 | `u64::MAX` renders as `18446744073709551615` |
| Translator.TranslateFloat | src/translator.rs:6-21 | a float never renders as digits only: an all-digit formatting gets `.0` appended, and any other formatting is returned unchanged |
| Translator.TranslateEach | src/translator.rs:39-42 | mapping `translate` over a list keeps its length and renders each element in place |
| Translator.UnaryTokensMatchDocs | src/translator.rs:78-84 | the emitted unary tokens are the documented `-`, `not` and `~`, and `not` is followed by a space |
| Translator.BinaryTokensMatchDocs | src/translator.rs:86-107 | every emitted binary token is the documented one, and different operators emit different tokens |
| Translator.ShouldFormatFloatWithExponentBits | src/translator.rs:109-115 | on a finite value with the sign bit clear: plain notation exactly for +0 and for the patterns from `0x3F1A36E2EB1C432D` (1e-4) up to but excluding `0x4341C37937E08000` (1e16) |
| Translator.NonFiniteUsesExponent | src/translator.rs:109-115 | NaN and the infinities fall outside the plain range |
| Translator.ExponentBoundsAreTheLiterals | src/translator.rs:113 | the bound `1e16` is exactly 10^16, and the bound `1e-4` is the double nearest 0.0001 (within half a unit in the last place) |
| Translator.NotationBoundaries | src/translator.rs:135-177 | 0, 0.0001 and 9999999999999998 use plain notation; 9.999999999999999e-5 and 1e16 use exponent notation |
| Translator.StringLiteralReadsBack | src/translator.rs:22-31 | a single-quoted literal reads back as itself, whatever follows it, exactly when it contains no `'` |
| Translator.StrRendering | src/translator.rs:22-31 | a quote-free string renders between single quotes with every character passed through unescaped, and reads back as itself |
| Translator.EnumMemberRendering | src/translator.rs:34-38 | an enum member is its path segments followed by its label, joined by `::`; when no segment contains `:`, splitting at `::` gives the segments and the label back |
| Translator.ListRendering | src/translator.rs:39-42 | a list renders as `[]` when empty and as `[x]` with one element; with more, as `[`, the first element, `, ` and the rendering of the rest without its `[`, so the elements appear in order separated by `, `; it opens with `[` and the first element and closes with the last element and `]` |
| Translator.BaseNotWrapped | src/translator.rs:45-74 | attribute access is the base, `.` and the attribute name; a subscript is the base, `[`, the index and `]`; a method call is the base, `.`, the method name and, between `(` and `)`, its arguments as they appear inside their list rendering, joined by `, `; in each the base appears with its own rendering, unparenthesised |
| Translator.OperatorFormsParenthesised | src/translator.rs:57-73 | unary, binary and conditional forms always start with `(` and end with `)`, with the exact layout of tokens and spaces |
| TranslatorExamples.FloatPi | src/translator.rs:129-133 | pi renders as printed |
| TranslatorExamples.FloatWhole | src/translator.rs:135-145 | 0 renders as `0.0` and 13 as `13.0` |
| TranslatorExamples.FloatUpperBoundary | src/translator.rs:147-161 | `9999999999999998.0` below the upper bound, `1e16` at it |
| TranslatorExamples.FloatLowerBoundary | src/translator.rs:163-177 | `0.0001` at the lower bound, `9.999999999999999e-5` below it |
| TranslatorExamples.FloatMax | src/translator.rs:179-183 | `f64::MAX` is outside the plain range and renders as its exponent form `1.7976931348623157e308` |
| TranslatorExamples.FloatMinPositive | src/translator.rs:185-189 | `f64::MIN_POSITIVE` is below `1e-4` and renders as `2.2250738585072014e-308` |
| TranslatorExamples.FloatMaxSubnormal | src/translator.rs:191-199 | the largest subnormal, pattern `0x000FFFFFFFFFFFFF`, renders as `2.225073858507201e-308` |
| TranslatorExamples.FloatMinSubnormal | src/translator.rs:201-209 | the smallest subnormal renders as `5e-324` |
| TranslatorExamples.StrLiterals | src/translator.rs:211-239 | the empty string, a backslash and a double quote render between single quotes, unescaped |
| TranslatorExamples.BoolLiterals | src/translator.rs:251-262 | `false` and `true` |
| TranslatorExamples.EnumMemberLiteral | src/translator.rs:263-274 | `some_type::port::http` |
| TranslatorExamples.NameExamples | src/translator.rs:292-302 | `note_len` and `_parent` pass through unchanged |
| TranslatorExamples.AttributeIntExamples | src/translator.rs:304-323 | attribute access on `0` gives `0.to_s`, and on `(-3)` gives `(-3).to_s`, with the base unparenthesised beyond its own rendering |
| TranslatorExamples.ListExample | src/translator.rs:275-290 | a three-element list with a string, a name and a concatenation |
| TranslatorExamples.UnaryExamples | src/translator.rs:375-400 | the unary forms `(-100)`, `(not false)` and `(~3)` |
| TranslatorExamples.MethodCallExample | src/translator.rs:358-373 | `(str_0_to_4 + '56789').substring(2, 7)` |
| TranslatorExamples.BinaryEqExample | src/translator.rs:462-477 | `(false == (true ? _io.eof : false))` |
| TranslatorExamples.CondOpExample | src/translator.rs:657-672 | `((true == false) ? 'nonsense' : 'makes sense')` |
| TranslatorExamples.SubscriptAttrExample | src/translator.rs:674-684 | `cont.items[0]` |
| TranslatorExamples.NestedSubscriptExample | src/translator.rs:686-711 | `[[1, 300], [(-1), 1]]['1'.to_i][0]` |

## Left out

- Rust's shortest round-trip float-to-decimal conversion (`format!("{:e}")` and `f64::to_string`) is floating-point digit generation. It is the `FloatFormat` parameter. The float examples state its output for their inputs as preconditions.
- The panic on a string containing `'`, with its message text, is not modelled as unwinding. `QuoteFree` is a precondition of `Translate`, and `StringLiteralReadsBack` shows why such strings are refused.
- The `num_bigint::BigUint` library. The integer payload is a `nat`, and its `to_string` is `DecimalDigits`.
- Translator.Translate: carries no contract of its own. Its properties are the per-variant lemmas above, which keeps evaluation on concrete trees cheap.
- Float arithmetic in the test helpers of `src/ast/utils.rs` (`exp2` and `value * 0.5 == 0.0`). The model uses the bit patterns those tests assert.
- The `Debug` derive on `PositiveFiniteF64`, and the `Copy`/`Eq`/`Hash` derives on the operator enums. They add no behaviour to verify.
- The tests for float attributes, enum attributes and the remaining binary operators (`src/translator.rs:325-356`, `402-461` and `479-655`) have no example lemma of their own. `OperatorFormsParenthesised`, `BaseNotWrapped` and `BinaryTokensMatchDocs` give the exact layout of those forms for all operands; the expected strings that involve floats also depend on the `FloatFormat` output for those values.
- `src/ast.rs:6` declares the integer payload as `u64`, but the tests build it from `BigUint`. The model follows the tests and allows any natural number.
- `src/ast.rs` declares eighteen binary operators, and the model has all eighteen.
