/** Tokens of the signal language.  Texts of numbers and names are not modelled: a number token carries the
    bits of its value, an identifier token its name. */
module Tokens {
  import opened Ast

  datatype Token =
    | TNumber(bits: Bits64) | TIdent(name: string)
    | TSignal | TIf | TThen | TElse | TAssign | TLParen | TRParen | TComma | TEof
    | TOp(op: BinaryOpKind)

  /** Plus and minus signs are the same tokens whether they stand before or between operands. */
  function UnaryToken(op: UnaryOpKind): Token {
    if op == Plus then TOp(Add) else TOp(Sub)
  }

  const SIGN_BIT: Bits64 := 0x8000_0000_0000_0000
  const INFINITY: Bits64 := 0x7FF0_0000_0000_0000

  function Magnitude(b: Bits64): Bits64 {
    b % SIGN_BIT
  }

  predicate Negative(b: Bits64) {
    b >= SIGN_BIT
  }
}
