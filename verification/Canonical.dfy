/** The canonical text of a tree, the part of the compile-cache key that stands for its structure.

    `decimal` stands for the `%.17g` rendering of a literal; all that matters of it is that it never
    contains a bracket.  Numbers in the text are written out digit by digit. */
module Canonical {
  import opened Ast

  predicate IsLetter(c: char) {
    'a' <= c <= 'z' || 'A' <= c <= 'Z' || c == '_'
  }

  predicate IsDigit(c: char) {
    '0' <= c <= '9'
  }

  /** Names the lexer produces. */
  predicate IsIdentifier(s: string) {
    |s| > 0 && IsLetter(s[0]) && forall i | 0 <= i < |s| :: IsLetter(s[i]) || IsDigit(s[i])
  }

  function DigitChar(d: nat): (c: char)
    requires d < 16
    ensures IsDigit(c) || 'a' <= c <= 'f'
  {
    if d < 10 then '0' + d as char else 'a' + (d - 10) as char
  }

  datatype Radix = Decimal | Hex

  function Quotient(n: nat, radix: Radix): nat {
    if radix == Decimal then n / 10 else n / 16
  }

  function Remainder(n: nat, radix: Radix): (d: nat)
    ensures d < 16
  {
    if radix == Decimal then n % 10 else n % 16
  }

  function Digits(n: nat, radix: Radix): (s: string)
    ensures |s| > 0
    ensures forall c <- s :: IsDigit(c) || 'a' <= c <= 'f'
  {
    if Quotient(n, radix) == 0 then [DigitChar(Remainder(n, radix))]
    else Digits(Quotient(n, radix), radix) + [DigitChar(Remainder(n, radix))]
  }

  function Signed(n: int): string {
    if n < 0 then "-" + Digits(-n, Decimal) else Digits(n, Decimal)
  }

  function UnaryCode(op: UnaryOpKind): nat {
    if op == Plus then 0 else 1
  }

  function BinaryCode(op: BinaryOpKind): nat {
    match op
    case Add => 0 case Sub => 1 case Mul => 2 case Div => 3 case Gt => 4 case Lt => 5
    case Gte => 6 case Lte => 7 case Eq => 8 case NotEq => 9 case And => 10 case Or => 11
  }

  function CanonicalDouble(b: Bits64, decimal: Bits64 -> string): string {
    decimal(b) + "[" + Digits(b, Hex) + "]"
  }

  function Canonical(e: Expr, decimal: Bits64 -> string): string
    decreases e, 1
  {
    match e
    case Num(b) => "n(" + CanonicalDouble(b, decimal) + ")"
    case Ident(n) => "id(" + n + ")"
    case Param(n, i) => "param(" + n + "," + Signed(i) + ")"
    case Unary(op, x) => "u(" + Digits(UnaryCode(op), Decimal) + "," + Canonical(x, decimal) + ")"
    case Binary(op, l, r) =>
      "b(" + Digits(BinaryCode(op), Decimal) + "," + Canonical(l, decimal) + "," + Canonical(r, decimal) + ")"
    case Cond(c, t, f) =>
      "if(" + Canonical(c, decimal) + "," + Canonical(t, decimal) + "," + Canonical(f, decimal) + ")"
    case Call(n, args, _) => "f(" + n + "," + Digits(|args|, Decimal) + CanonicalArgs(args, decimal) + ")"
  }

  function CanonicalArgs(args: seq<Expr>, decimal: Bits64 -> string): string
    decreases args, 0
  {
    if args == [] then "" else "," + Canonical(args[0], decimal) + CanonicalArgs(args[1..], decimal)
  }

  /** The same text followed by `k`, written from left to right. */
  function Text(e: Expr, decimal: Bits64 -> string, k: string): string
    decreases e, 1
  {
    match e
    case Num(b) => "n(" + (decimal(b) + ("[" + (Digits(b, Hex) + ("])" + k))))
    case Ident(n) => "id(" + (n + (")" + k))
    case Param(n, i) => "param(" + (n + ("," + (Signed(i) + (")" + k))))
    case Unary(op, x) => "u(" + (Digits(UnaryCode(op), Decimal) + ("," + Text(x, decimal, ")" + k)))
    case Binary(op, l, r) =>
      "b(" + (Digits(BinaryCode(op), Decimal) + ("," + Text(l, decimal, "," + Text(r, decimal, ")" + k))))
    case Cond(c, t, f) =>
      "if(" + Text(c, decimal, "," + Text(t, decimal, "," + Text(f, decimal, ")" + k)))
    case Call(n, args, _) => "f(" + (n + ("," + (Digits(|args|, Decimal) + TextArgs(args, decimal, ")" + k))))
  }

  function TextArgs(args: seq<Expr>, decimal: Bits64 -> string, k: string): string
    decreases args, 0
  {
    if args == [] then k else "," + Text(args[0], decimal, TextArgs(args[1..], decimal, k))
  }

  lemma Join3(a: string, b: string, c: string, k: string)
    ensures (a + b + c) + k == a + (b + (c + k))
  {
  }

  lemma Join5(a: string, b: string, c: string, d: string, e: string, k: string)
    ensures (a + b + c + d + e) + k == a + (b + (c + (d + (e + k))))
  {
    Join3(a + b + c, d, e, k);
    Join3(a, b, c, d + (e + k));
  }

  lemma Join7(a: string, b: string, c: string, d: string, e: string, f: string, g: string, k: string)
    ensures (a + b + c + d + e + f + g) + k == a + (b + (c + (d + (e + (f + (g + k))))))
  {
    Join3(a + b + c + d + e, f, g, k);
    Join5(a, b, c, d, e, f + (g + k));
  }

  lemma {:induction false} TextIsCanonical(e: Expr, decimal: Bits64 -> string, k: string)
    ensures Text(e, decimal, k) == Canonical(e, decimal) + k
    decreases e, 1
  {
    match e
    case Num(b) =>
      var d, h := decimal(b), Digits(b, Hex);
      assert "])" + k == "]" + (")" + k);
      Join3("n(", d + "[" + h + "]", ")", k);
      Join3(d, "[" + h, "]", ")" + k);
      Join3("[", h, "]", ")" + k);
    case Ident(n) => Join3("id(", n, ")", k);
    case Param(n, i) => Join5("param(", n, ",", Signed(i), ")", k);
    case Unary(op, x) =>
      TextIsCanonical(x, decimal, ")" + k);
      Join5("u(", Digits(UnaryCode(op), Decimal), ",", Canonical(x, decimal), ")", k);
    case Binary(_, l, r) => TextIsCanonicalBinary(e, decimal, k);
    case Cond(c, t, f) => TextIsCanonicalCond(e, decimal, k);
    case Call(n, args, _) =>
      TextIsCanonicalArgs(args, decimal, ")" + k);
      Join3("f(" + n + "," + Digits(|args|, Decimal), CanonicalArgs(args, decimal), ")", k);
      Join3("f(", n, ",", Digits(|args|, Decimal) + (CanonicalArgs(args, decimal) + (")" + k)));
      assert "f(" + n + "," + Digits(|args|, Decimal) + (CanonicalArgs(args, decimal) + (")" + k)) ==
             "f(" + n + "," + (Digits(|args|, Decimal) + (CanonicalArgs(args, decimal) + (")" + k)));
  }

  lemma {:induction false} TextIsCanonicalBinary(e: Expr, decimal: Bits64 -> string, k: string)
    requires e.Binary?
    ensures Text(e, decimal, k) == Canonical(e, decimal) + k
    decreases e, 0
  {
    var l, r := Canonical(e.left, decimal), Canonical(e.right, decimal);
    TextIsCanonical(e.right, decimal, ")" + k);
    TextIsCanonical(e.left, decimal, "," + (r + (")" + k)));
    Join7("b(", Digits(BinaryCode(e.bop), Decimal), ",", l, ",", r, ")", k);
  }

  lemma {:induction false} TextIsCanonicalCond(e: Expr, decimal: Bits64 -> string, k: string)
    requires e.Cond?
    ensures Text(e, decimal, k) == Canonical(e, decimal) + k
    decreases e, 0
  {
    var c, t, f := Canonical(e.cond, decimal), Canonical(e.thn, decimal), Canonical(e.els, decimal);
    TextIsCanonical(e.els, decimal, ")" + k);
    TextIsCanonical(e.thn, decimal, "," + (f + (")" + k)));
    TextIsCanonical(e.cond, decimal, "," + (t + ("," + (f + (")" + k)))));
    Join7("if(", c, ",", t, ",", f, ")", k);
  }

  lemma {:induction false} TextIsCanonicalArgs(args: seq<Expr>, decimal: Bits64 -> string, k: string)
    ensures TextArgs(args, decimal, k) == CanonicalArgs(args, decimal) + k
    decreases args, 0
  {
    if args != [] {
      TextIsCanonicalArgs(args[1..], decimal, k);
      TextIsCanonical(args[0], decimal, CanonicalArgs(args[1..], decimal) + k);
    }
  }

  /** A common prefix can be cut off. */
  lemma CutPrefix(p: string, s: string, t: string)
    requires p + s == p + t
    ensures s == t
  {
    assert s == (p + s)[|p|..];
    assert t == (p + t)[|p|..];
  }

  lemma FieldChars(a: string, rest: string)
    ensures forall i | 0 <= i < |a| :: (a + rest)[i] in a
    ensures rest != "" ==> (a + rest)[|a|] == rest[0]
  {
  }

  /** Two fields over one alphabet, each ended by a character outside it. */
  lemma CutWhole(a: string, b: string, s: string, t: string)
    requires s != "" && t != "" && s[0] !in a && s[0] !in b && t[0] !in a && t[0] !in b
    requires a + s == b + t
    ensures a == b && s == t
  {
    FieldChars(a, s);
    FieldChars(b, t);
    assert (a + s)[|a|] == s[0] && (b + t)[|b|] == t[0];
    assert |a| == |b|;
    assert a == (a + s)[..|a|] && b == (b + t)[..|a|];
    assert s == (a + s)[|a|..] && t == (b + t)[|a|..];
  }

  /** A field ends at the first separator. */
  lemma CutField(a: string, b: string, sep: char, s: string, t: string)
    requires sep !in a && sep !in b
    requires a + ([sep] + s) == b + ([sep] + t)
    ensures a == b && s == t
  {
    CutWhole(a, b, [sep] + s, [sep] + t);
    CutPrefix([sep], s, t);
  }

  function DigitValue(c: char): nat {
    if IsDigit(c) then c as nat - '0' as nat else if 'a' <= c then c as nat - 'a' as nat + 10 else 0
  }

  function Value(s: string, radix: Radix): nat {
    if s == "" then 0
    else
      var high := Value(s[..|s| - 1], radix);
      (if radix == Decimal then 10 * high else 16 * high) + DigitValue(s[|s| - 1])
  }

  lemma DigitReadsBack(d: nat)
    requires d < 16
    ensures DigitValue(DigitChar(d)) == d
  {
  }

  /** Written numbers can be read back. */
  lemma {:induction false} ValueOfDigits(n: nat, radix: Radix)
    ensures Value(Digits(n, radix), radix) == n
    decreases n
  {
    var s, q, r := Digits(n, radix), Quotient(n, radix), Remainder(n, radix);
    DigitReadsBack(r);
    hide DigitChar, DigitValue, IsDigit;
    if q == 0 {
      assert s[..0] == "" && Value("", radix) == 0;
    } else {
      ValueOfDigits(q, radix);
      assert s[..|s| - 1] == Digits(q, radix);
    }
  }

  lemma DigitsInjective(m: nat, n: nat, radix: Radix)
    requires Digits(m, radix) == Digits(n, radix)
    ensures m == n
  {
    ValueOfDigits(m, radix);
    ValueOfDigits(n, radix);
  }

  lemma SignMarks(i: int)
    ensures Signed(i) != "" && (Signed(i)[0] == '-' <==> i < 0)
  {
    if i >= 0 { assert Digits(i, Decimal)[0] in Digits(i, Decimal); }
  }

  lemma SignedInjective(i: int, j: int)
    requires Signed(i) == Signed(j)
    ensures i == j
  {
    SignMarks(i);
    SignMarks(j);
    if i < 0 {
      CutPrefix("-", Digits(-i, Decimal), Digits(-j, Decimal));
      DigitsInjective(-i, -j, Decimal);
    } else {
      DigitsInjective(i, j, Decimal);
    }
  }

  predicate Lexical(e: Expr)
    decreases e, 1
  {
    match e
    case Num(_) => true
    case Ident(n) => IsIdentifier(n)
    case Param(n, _) => IsIdentifier(n)
    case Unary(_, x) => Lexical(x)
    case Binary(_, l, r) => Lexical(l) && Lexical(r)
    case Cond(c, t, f) => Lexical(c) && Lexical(t) && Lexical(f)
    case Call(n, args, _) => IsIdentifier(n) && LexicalArgs(args)
  }

  predicate LexicalArgs(args: seq<Expr>)
    decreases args, 0
  {
    args == [] || (Lexical(args[0]) && LexicalArgs(args[1..]))
  }

  ghost predicate Bracketless(decimal: Bits64 -> string) {
    forall b :: '[' !in decimal(b)
  }

  /** The first two characters of a text tell its kind. */
  lemma SameKind(a: Expr, b: Expr, decimal: Bits64 -> string, x: string, y: string)
    requires Text(a, decimal, x) == Text(b, decimal, y)
    ensures a.Num? == b.Num? && a.Ident? == b.Ident? && a.Param? == b.Param? && a.Unary? == b.Unary?
    ensures a.Binary? == b.Binary? && a.Cond? == b.Cond? && a.Call? == b.Call?
  {
    TextHead(a, decimal, x);
    TextHead(b, decimal, y);
  }

  lemma TextHead(e: Expr, decimal: Bits64 -> string, k: string)
    ensures var s := Text(e, decimal, k);
      |s| >= 2 && s[0] == (match e case Num(_) => 'n' case Ident(_) => 'i' case Param(_, _) => 'p'
                           case Unary(_, _) => 'u' case Binary(_, _, _) => 'b' case Cond(_, _, _) => 'i'
                           case Call(_, _, _) => 'f')
      && (e.Ident? ==> s[1] == 'd') && (e.Cond? ==> s[1] == 'f')
  {
  }

  lemma NameField(n: string, sep: char)
    requires IsIdentifier(n) && sep in {',', ')'}
    ensures sep !in n
  {
    forall c | c in n ensures c != sep {
      var i :| 0 <= i < |n| && n[i] == c;
      assert IsLetter(n[i]) || IsDigit(n[i]);
    }
  }

  /** Texts decode uniquely, whatever follows them. */
  lemma {:induction false} Decodes(a: Expr, b: Expr, decimal: Bits64 -> string, x: string, y: string)
    requires Bracketless(decimal) && Lexical(a) && Lexical(b)
    requires Text(a, decimal, x) == Text(b, decimal, y)
    ensures AstEquals(a, b) && x == y
    decreases a, 1
  {
    SameKind(a, b, decimal, x, y);
    match a
    case Num(_) => DecodesNum(a, b, decimal, x, y);
    case Ident(n) =>
      CutPrefix("id(", n + (")" + x), b.name + (")" + y));
      NameField(n, ')'); NameField(b.name, ')');
      CutField(n, b.name, ')', x, y);
    case Param(_, _) => DecodesParam(a, b, decimal, x, y);
    case Unary(op, e) =>
      var s, t := Text(e, decimal, ")" + x), Text(b.operand, decimal, ")" + y);
      CutPrefix("u(", Digits(UnaryCode(op), Decimal) + ("," + s), Digits(UnaryCode(b.uop), Decimal) + ("," + t));
      CutField(Digits(UnaryCode(op), Decimal), Digits(UnaryCode(b.uop), Decimal), ',', s, t);
      DigitsInjective(UnaryCode(op), UnaryCode(b.uop), Decimal);
      Decodes(e, b.operand, decimal, ")" + x, ")" + y);
      CutPrefix(")", x, y);
    case Binary(_, _, _) => DecodesBinary(a, b, decimal, x, y);
    case Cond(_, _, _) => DecodesCond(a, b, decimal, x, y);
    case Call(_, _, _) => DecodesCall(a, b, decimal, x, y);
  }

  lemma DecodesNum(a: Expr, b: Expr, decimal: Bits64 -> string, x: string, y: string)
    requires Bracketless(decimal) && a.Num? && b.Num?
    requires Text(a, decimal, x) == Text(b, decimal, y)
    ensures AstEquals(a, b) && x == y
  {
    var d, d', h, h' := decimal(a.bits), decimal(b.bits), Digits(a.bits, Hex), Digits(b.bits, Hex);
    var s, t := h + ("])" + x), h' + ("])" + y);
    CutPrefix("n(", d + ("[" + s), d' + ("[" + t));
    CutField(d, d', '[', s, t);
    assert "])" + x == [']'] + (")" + x) && "])" + y == [']'] + (")" + y);
    CutField(h, h', ']', ")" + x, ")" + y);
    DigitsInjective(a.bits, b.bits, Hex);
    CutPrefix(")", x, y);
  }

  lemma DecodesParam(a: Expr, b: Expr, decimal: Bits64 -> string, x: string, y: string)
    requires Lexical(a) && Lexical(b) && a.Param? && b.Param?
    requires Text(a, decimal, x) == Text(b, decimal, y)
    ensures AstEquals(a, b) && x == y
  {
    var s, t := Signed(a.id) + (")" + x), Signed(b.id) + (")" + y);
    CutPrefix("param(", a.name + ("," + s), b.name + ("," + t));
    NameField(a.name, ','); NameField(b.name, ',');
    CutField(a.name, b.name, ',', s, t);
    CutField(Signed(a.id), Signed(b.id), ')', x, y);
    SignedInjective(a.id, b.id);
  }

  lemma {:induction false} DecodesBinary(a: Expr, b: Expr, decimal: Bits64 -> string, x: string, y: string)
    requires Bracketless(decimal) && Lexical(a) && Lexical(b) && a.Binary? && b.Binary?
    requires Text(a, decimal, x) == Text(b, decimal, y)
    ensures AstEquals(a, b) && x == y
    decreases a, 0
  {
    var r, r' := "," + Text(a.right, decimal, ")" + x), "," + Text(b.right, decimal, ")" + y);
    var s, t := Text(a.left, decimal, r), Text(b.left, decimal, r');
    var c, c' := Digits(BinaryCode(a.bop), Decimal), Digits(BinaryCode(b.bop), Decimal);
    CutPrefix("b(", c + ("," + s), c' + ("," + t));
    CutField(c, c', ',', s, t);
    DigitsInjective(BinaryCode(a.bop), BinaryCode(b.bop), Decimal);
    Decodes(a.left, b.left, decimal, r, r');
    CutPrefix(",", Text(a.right, decimal, ")" + x), Text(b.right, decimal, ")" + y));
    Decodes(a.right, b.right, decimal, ")" + x, ")" + y);
    CutPrefix(")", x, y);
  }

  lemma {:induction false} DecodesCond(a: Expr, b: Expr, decimal: Bits64 -> string, x: string, y: string)
    requires Bracketless(decimal) && Lexical(a) && Lexical(b) && a.Cond? && b.Cond?
    requires Text(a, decimal, x) == Text(b, decimal, y)
    ensures AstEquals(a, b) && x == y
    decreases a, 0
  {
    var f, f' := Text(a.els, decimal, ")" + x), Text(b.els, decimal, ")" + y);
    var t, t' := Text(a.thn, decimal, "," + f), Text(b.thn, decimal, "," + f');
    CutPrefix("if(", Text(a.cond, decimal, "," + t), Text(b.cond, decimal, "," + t'));
    Decodes(a.cond, b.cond, decimal, "," + t, "," + t');
    CutPrefix(",", t, t');
    Decodes(a.thn, b.thn, decimal, "," + f, "," + f');
    CutPrefix(",", f, f');
    Decodes(a.els, b.els, decimal, ")" + x, ")" + y);
    CutPrefix(")", x, y);
  }

  lemma {:induction false} DecodesCall(a: Expr, b: Expr, decimal: Bits64 -> string, x: string, y: string)
    requires Bracketless(decimal) && Lexical(a) && Lexical(b) && a.Call? && b.Call?
    requires Text(a, decimal, x) == Text(b, decimal, y)
    ensures AstEquals(a, b) && x == y
    decreases a, 0
  {
    var c, c' := Digits(|a.args|, Decimal), Digits(|b.args|, Decimal);
    var s, t := TextArgs(a.args, decimal, ")" + x), TextArgs(b.args, decimal, ")" + y);
    CutPrefix("f(", a.name + ("," + (c + s)), b.name + ("," + (c' + t)));
    NameField(a.name, ','); NameField(b.name, ',');
    CutField(a.name, b.name, ',', c + s, c' + t);
    CutCount(|a.args|, |b.args|, s, t) by { ArgsHead(a.args, decimal, x); ArgsHead(b.args, decimal, y); }
    DecodesArgs(a.args, b.args, decimal, ")" + x, ")" + y);
    CutPrefix(")", x, y);
  }

  lemma ArgsHead(args: seq<Expr>, decimal: Bits64 -> string, k: string)
    ensures var s := TextArgs(args, decimal, ")" + k); |s| > 0 && s[0] in {',', ')'}
  {
  }

  /** The argument count is followed by a separator, so it ends where its digits end. */
  lemma CutCount(m: nat, n: nat, s: string, t: string)
    requires |s| > 0 && |t| > 0 && s[0] in {',', ')'} && t[0] in {',', ')'}
    requires Digits(m, Decimal) + s == Digits(n, Decimal) + t
    ensures m == n && s == t
  {
    CutWhole(Digits(m, Decimal), Digits(n, Decimal), s, t);
    DigitsInjective(m, n, Decimal);
  }

  lemma {:induction false} DecodesArgs(a: seq<Expr>, b: seq<Expr>, decimal: Bits64 -> string, x: string, y: string)
    requires Bracketless(decimal) && LexicalArgs(a) && LexicalArgs(b) && |a| == |b|
    requires TextArgs(a, decimal, x) == TextArgs(b, decimal, y)
    ensures ArgsEqual(a, b) && x == y
    decreases a, 0
  {
    if a != [] {
      var s, t := TextArgs(a[1..], decimal, x), TextArgs(b[1..], decimal, y);
      CutPrefix(",", Text(a[0], decimal, s), Text(b[0], decimal, t));
      Decodes(a[0], b[0], decimal, s, t);
      DecodesArgs(a[1..], b[1..], decimal, x, y);
    }
  }

  lemma {:induction false} EqualTreesEqualText(a: Expr, b: Expr, decimal: Bits64 -> string)
    requires AstEquals(a, b)
    ensures Canonical(a, decimal) == Canonical(b, decimal)
    decreases a, 1
  {
    match a
    case Num(_) => {}
    case Ident(_) => {}
    case Param(_, _) => {}
    case Unary(_, x) => EqualTreesEqualText(x, b.operand, decimal);
    case Binary(_, l, r) => EqualTreesEqualText(l, b.left, decimal); EqualTreesEqualText(r, b.right, decimal);
    case Cond(c, t, f) =>
      EqualTreesEqualText(c, b.cond, decimal);
      EqualTreesEqualText(t, b.thn, decimal);
      EqualTreesEqualText(f, b.els, decimal);
    case Call(_, args, _) => EqualArgsEqualText(args, b.args, decimal);
  }

  lemma {:induction false} EqualArgsEqualText(a: seq<Expr>, b: seq<Expr>, decimal: Bits64 -> string)
    requires |a| == |b| && ArgsEqual(a, b)
    ensures CanonicalArgs(a, decimal) == CanonicalArgs(b, decimal)
    decreases a, 0
  {
    if a != [] {
      EqualTreesEqualText(a[0], b[0], decimal);
      EqualArgsEqualText(a[1..], b[1..], decimal);
    }
  }

  /** Equal keys mean equal trees and the other way round; and a text decodes uniquely even with arbitrary
      text after it, so that keys of several signals can be joined. */
  lemma CanonicalIffEqual(a: Expr, b: Expr, decimal: Bits64 -> string, x: string, y: string)
    requires Bracketless(decimal) && Lexical(a) && Lexical(b)
    ensures Canonical(a, decimal) == Canonical(b, decimal) <==> AstEquals(a, b)
    ensures Canonical(a, decimal) + x == Canonical(b, decimal) + y <==> AstEquals(a, b) && x == y
  {
    TextIsCanonical(a, decimal, x);
    TextIsCanonical(b, decimal, y);
    TextIsCanonical(a, decimal, "");
    TextIsCanonical(b, decimal, "");
    var ca, cb := Canonical(a, decimal), Canonical(b, decimal);
    assert ca + "" == ca && cb + "" == cb;
    if ca == cb { Decodes(a, b, decimal, "", ""); }
    if ca + x == cb + y { Decodes(a, b, decimal, x, y); }
    if AstEquals(a, b) { EqualTreesEqualText(a, b, decimal); }
  }

  /** The text as it is built: appended to one string. */
  class TextBuilder {
    var out: string

    constructor ()
      ensures out == ""
    {
      out := "";
    }

    method CanonicalAppend(e: Expr, decimal: Bits64 -> string)
      modifies this
      ensures out == old(out) + Canonical(e, decimal)
      decreases e, 1
    {
      match e
      case Num(b) =>
        Grow3(out, "n(", CanonicalDouble(b, decimal), ")");
        out := out + "n(" + CanonicalDouble(b, decimal) + ")";
      case Ident(n) =>
        Grow3(out, "id(", n, ")");
        out := out + "id(" + n + ")";
      case Param(n, i) =>
        Grow5(out, "param(", n, ",", Signed(i), ")");
        out := out + "param(" + n + "," + Signed(i) + ")";
      case Unary(op, x) =>
        Grow5(out, "u(", Digits(UnaryCode(op), Decimal), ",", Canonical(x, decimal), ")");
        out := out + "u(" + Digits(UnaryCode(op), Decimal) + ",";
        CanonicalAppend(x, decimal);
        out := out + ")";
      case Binary(op, l, r) =>
        Grow7(out, "b(", Digits(BinaryCode(op), Decimal), ",", Canonical(l, decimal), ",", Canonical(r, decimal), ")");
        out := out + "b(" + Digits(BinaryCode(op), Decimal) + ",";
        CanonicalAppend(l, decimal);
        out := out + ",";
        CanonicalAppend(r, decimal);
        out := out + ")";
      case Cond(c, t, f) =>
        Grow7(out, "if(", Canonical(c, decimal), ",", Canonical(t, decimal), ",", Canonical(f, decimal), ")");
        out := out + "if(";
        CanonicalAppend(c, decimal);
        out := out + ",";
        CanonicalAppend(t, decimal);
        out := out + ",";
        CanonicalAppend(f, decimal);
        out := out + ")";
      case Call(_, _, _) => AppendCall(e, decimal);
    }

    method AppendCall(e: Expr, decimal: Bits64 -> string)
      requires e.Call?
      modifies this
      ensures out == old(out) + Canonical(e, decimal)
      decreases e, 0
    {
      ghost var start, head := out, "f(" + e.name + "," + Digits(|e.args|, Decimal);
      assert Canonical(e, decimal) == head + CanonicalArgs(e.args, decimal) + ")";
      Grow5(start, "f(", e.name, ",", Digits(|e.args|, Decimal), "");
      out := out + "f(" + e.name + "," + Digits(|e.args|, Decimal);
      assert out == start + head;
      hide Canonical, CanonicalArgs;
      NoArgs(decimal);
      assert e.args[..0] == [] && start + head + "" == start + head;
      for i := 0 to |e.args|
        invariant out == start + head + CanonicalArgs(e.args[..i], decimal)
      {
        ghost var done := CanonicalArgs(e.args[..i], decimal);
        assert e.args[..i + 1] == e.args[..i] + [e.args[i]];
        ArgsSnoc(e.args[..i], e.args[i], decimal);
        Grow3(start + head, done, ",", Canonical(e.args[i], decimal));
        out := out + ",";
        CanonicalAppend(e.args[i], decimal);
      }
      assert e.args[..|e.args|] == e.args;
      Grow3(start, head, CanonicalArgs(e.args, decimal), ")");
      out := out + ")";
    }
  }

  lemma NoArgs(decimal: Bits64 -> string)
    ensures CanonicalArgs([], decimal) == ""
  {
  }

  lemma {:induction false} ArgsSnoc(args: seq<Expr>, last: Expr, decimal: Bits64 -> string)
    ensures CanonicalArgs(args + [last], decimal) == CanonicalArgs(args, decimal) + "," + Canonical(last, decimal)
    decreases |args|
  {
    if args == [] {
      assert [] + [last] == [last] && [last][1..] == [];
    } else {
      assert (args + [last])[1..] == args[1..] + [last];
      ArgsSnoc(args[1..], last, decimal);
      Grow3("," + Canonical(args[0], decimal), CanonicalArgs(args[1..], decimal), ",", Canonical(last, decimal));
    }
  }

  lemma Grow3(o: string, a: string, b: string, c: string)
    ensures o + a + b + c == o + (a + b + c)
  {
  }

  lemma Grow5(o: string, a: string, b: string, c: string, d: string, e: string)
    ensures o + a + b + c + d + e == o + (a + b + c + d + e)
  {
    Grow3(o, a, b, c);
    Grow3(o, a + b + c, d, e);
  }

  lemma Grow7(o: string, a: string, b: string, c: string, d: string, e: string, f: string, g: string)
    ensures o + a + b + c + d + e + f + g == o + (a + b + c + d + e + f + g)
  {
    Grow5(o, a, b, c, d, e);
    Grow3(o, a + b + c + d + e, f, g);
  }
}
