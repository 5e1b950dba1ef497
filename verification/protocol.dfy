/**
 * The request logic of a connection handler: a request is one chunk of
 * bytes read from the client; a blank chunk closes the connection; any other
 * chunk is read as a decimal integer n, and the reply is the ASCII decimal
 * text of `Algorithm(n)` (that is, n + 42) followed by a newline. A chunk
 * that is not an integer makes the handler raise.
 */
module Protocol {
  import opened Base

  newtype byte = x: int | 0 <= x < 256

  type Bytes = seq<byte>

  const Space: byte := 32
  const Newline: byte := 10
  const Plus: byte := 43
  const Minus: byte := 45
  const Zero: byte := 48

  /** ASCII whitespace, the set both `bytes.strip()` and `int()` remove:
      tab, newline, vertical tab, form feed, carriage return and space. */
  predicate IsSpace(b: byte) {
    b == Space || 9 <= b <= 13
  }

  predicate IsDigit(b: byte) {
    Zero <= b <= Zero + 9
  }

  predicate AllSpace(s: Bytes) {
    forall i :: 0 <= i < |s| ==> IsSpace(s[i])
  }

  predicate AllDigits(s: Bytes) {
    forall i :: 0 <= i < |s| ==> IsDigit(s[i])
  }

  /** A non-empty run of digits without a redundant leading zero. */
  predicate CanonicalDigits(ds: Bytes) {
    ds != [] && AllDigits(ds) && (ds[0] == Zero ==> |ds| == 1)
  }

  /** The shape of Python's `str(n)` for an integer n: canonical digits,
      optionally after a minus sign that never precedes a lone zero. */
  predicate IsCanonical(t: Bytes) {
    CanonicalDigits(t) || (|t| >= 2 && t[0] == Minus && CanonicalDigits(t[1..]) && t[1..] != [Zero])
  }

  /** Removes leading whitespace: the result is the suffix of `s` that starts
      at its first non-space byte. */
  function TrimLeft(s: Bytes): (r: Bytes)
    ensures |r| <= |s| && r == s[|s| - |r|..]
    ensures AllSpace(s[..|s| - |r|])
    ensures r == [] || !IsSpace(r[0])
  {
    if s != [] && IsSpace(s[0]) then
      var r := TrimLeft(s[1..]);
      assert s[..|s| - |r|] == [s[0]] + s[1..][..|s[1..]| - |r|];
      r
    else
      s
  }

  /** Removes trailing whitespace: the result is the prefix of `s` that ends
      at its last non-space byte. */
  function TrimRight(s: Bytes): (r: Bytes)
    ensures |r| <= |s| && r == s[..|r|]
    ensures AllSpace(s[|r|..])
    ensures r == [] || !IsSpace(r[|r| - 1])
  {
    if s != [] && IsSpace(s[|s| - 1]) then
      var r := TrimRight(s[..|s| - 1]);
      assert s[..|s| - 1][..|r|] == s[..|r|];
      assert s[|r|..] == s[..|s| - 1][|r|..] + [s[|s| - 1]];
      r
    else
      s
  }

  /** `bytes.strip()`: the request with surrounding whitespace removed. It is
      empty exactly when the request is blank, and otherwise starts and ends
      with a non-space byte. */
  function Strip(s: Bytes): (r: Bytes)
    ensures r == [] <==> AllSpace(s)
    ensures r != [] ==> !IsSpace(r[0]) && !IsSpace(r[|r| - 1])
  {
    var l := TrimLeft(s);
    var r := TrimRight(l);
    assert r == [] ==> AllSpace(l) by {
      if r == [] { assert l[|r|..] == l; }
    }
    assert l != [] ==> !IsSpace(s[|s| - |l|]) by {
      if l != [] { assert l[0] == s[|s| - |l|]; }
    }
    assert l == [] ==> s[..|s| - |l|] == s;
    r
  }

  /** Stripping leading whitespace stops exactly at the first non-space byte. */
  lemma {:induction false} TrimLeftPadded(p: Bytes, x: Bytes)
    requires AllSpace(p)
    requires x == [] || !IsSpace(x[0])
    ensures TrimLeft(p + x) == x
  {
    if p != [] {
      assert (p + x)[1..] == p[1..] + x;
      TrimLeftPadded(p[1..], x);
    } else {
      assert p + x == x;
    }
  }

  /** Stripping trailing whitespace stops exactly at the last non-space byte. */
  lemma {:induction false} TrimRightPadded(x: Bytes, q: Bytes)
    requires AllSpace(q)
    requires x == [] || !IsSpace(x[|x| - 1])
    ensures TrimRight(x + q) == x
  {
    if q != [] {
      assert (x + q)[..|x + q| - 1] == x + q[..|q| - 1];
      TrimRightPadded(x, q[..|q| - 1]);
    } else {
      assert x + q == x;
    }
  }

  /** Whatever whitespace surrounds a core that starts and ends with a
      non-space byte, stripping recovers exactly that core. */
  lemma StripPadded(a: Bytes, b: Bytes, c: Bytes)
    requires AllSpace(a) && AllSpace(c)
    requires b == [] || (!IsSpace(b[0]) && !IsSpace(b[|b| - 1]))
    ensures Strip(a + b + c) == b
  {
    var s := a + b + c;
    if b == [] {
      assert AllSpace(s) by {
        forall i | 0 <= i < |s| ensures IsSpace(s[i]) {
          if i < |a| { assert s[i] == a[i]; } else { assert s[i] == c[i - |a|]; }
        }
      }
    } else {
      assert s == a + (b + c);
      TrimLeftPadded(a, b + c);
      TrimRightPadded(b, c);
    }
  }

  /** The value of a run of decimal digits, most significant first. */
  function DigitsValue(ds: Bytes): nat
    requires AllDigits(ds)
  {
    if ds == [] then 0 else 10 * DigitsValue(ds[..|ds| - 1]) + (ds[|ds| - 1] as int - Zero as int)
  }

  function DigitByte(d: nat): (b: byte)
    requires d < 10
    ensures IsDigit(b) && b as int - Zero as int == d
  {
    (Zero as int + d) as byte
  }

  /** Decimal text of a natural number: canonical digits whose value is `n`. */
  function FormatNat(n: nat): (r: Bytes)
    ensures CanonicalDigits(r)
    ensures DigitsValue(r) == n
  {
    if n < 10 then
      [DigitByte(n)]
    else
      var r := FormatNat(n / 10) + [DigitByte(n % 10)];
      assert r[..|r| - 1] == FormatNat(n / 10);
      r
  }

  /** Python's `str(n)` for an integer, as ASCII bytes. */
  function FormatInt(n: int): (r: Bytes)
    ensures IsCanonical(r)
    ensures r[0] == Minus <==> n < 0
  {
    if n < 0 then
      var r := [Minus] + FormatNat(-n);
      assert r[1..] == FormatNat(-n);
      r
    else
      FormatNat(n)
  }

  /** `int()` on text with the surrounding whitespace already removed: an
      optional sign and one or more ASCII digits (leading zeros allowed).
      Anything else is `None`, the `ValueError` case. */
  function ParseStripped(t: Bytes): (r: Option<int>)
    ensures r.Some? ==> t != []
  {
    if t == [] then
      None
    else if t[0] == Minus || t[0] == Plus then
      var ds := t[1..];
      if ds != [] && AllDigits(ds) then
        var v: int := DigitsValue(ds);
        Some(if t[0] == Minus then -v else v)
      else
        None
    else if AllDigits(t) then
      Some(DigitsValue(t))
    else
      None
  }

  /** Python's `int(request)` on bytes, restricted to base-10 literals:
      surrounding ASCII whitespace is ignored and the rest must be a signed
      or unsigned run of digits. A blank request is never an integer. */
  function ParseInt(s: Bytes): (r: Option<int>)
    ensures r.Some? ==> !AllSpace(s)
  {
    ParseStripped(Strip(s))
  }

  /** Canonical digits have no whitespace at either end. */
  lemma CanonicalUnpadded(t: Bytes)
    requires IsCanonical(t)
    ensures !IsSpace(t[0]) && !IsSpace(t[|t| - 1])
  {
    if !CanonicalDigits(t) {
      assert t[|t| - 1] == t[1..][|t| - 2];
    }
  }

  /** `int()` reads the decimal text of `n` as `n`. */
  lemma ParseStrippedFormat(n: int)
    ensures ParseStripped(FormatInt(n)) == Some(n)
  {
    var t := FormatInt(n);
    if n < 0 {
      assert t[1..] == FormatNat(-n);
    } else {
      assert t[0] != Minus && t[0] != Plus;
    }
  }

  /** Parsing the decimal text of `n`, padded with any whitespace, gives back `n`. */
  lemma ParsePadded(a: Bytes, n: int, c: Bytes)
    requires AllSpace(a) && AllSpace(c)
    ensures ParseInt(a + FormatInt(n) + c) == Some(n)
  {
    CanonicalUnpadded(FormatInt(n));
    StripPadded(a, FormatInt(n), c);
    ParseStrippedFormat(n);
  }

  /** Round trip: parsing the text of `n` yields `n`. */
  lemma ParseFormat(n: int)
    ensures ParseInt(FormatInt(n)) == Some(n)
  {
    CanonicalUnpadded(FormatInt(n));
    StripUnpadded(FormatInt(n));
    ParseStrippedFormat(n);
  }

  /** The sign an integer literal may start with: none, `+` or `-`. */
  predicate IsSign(sign: Bytes) {
    sign == [] || sign == [Plus] || sign == [Minus]
  }

  /** The number an optional sign followed by digits denotes. */
  function SignedValue(sign: Bytes, ds: Bytes): int
    requires AllDigits(ds)
  {
    if sign == [Minus] then -(DigitsValue(ds) as int) else DigitsValue(ds)
  }

  /** The pieces of a request `int()` accepts: whitespace `a`, an optional
      sign, one or more ASCII digits (leading zeros allowed) and whitespace
      `c`. */
  predicate Literal(a: Bytes, sign: Bytes, ds: Bytes, c: Bytes) {
    AllSpace(a) && IsSign(sign) && ds != [] && AllDigits(ds) && AllSpace(c)
  }

  /** An optional sign followed by digits has no whitespace at either end,
      and `int()` reads it as its signed value. */
  lemma StrippedSigned(sign: Bytes, ds: Bytes)
    requires IsSign(sign) && ds != [] && AllDigits(ds)
    ensures var t := sign + ds; !IsSpace(t[0]) && !IsSpace(t[|t| - 1])
    ensures ParseStripped(sign + ds) == Some(SignedValue(sign, ds))
  {
    var t := sign + ds;
    assert t[|t| - 1] == ds[|ds| - 1];
    if sign == [] {
      assert t == ds;
    } else {
      assert t[0] == sign[0] && t[1..] == ds;
    }
  }

  /** Every request of that shape is read as its signed value, so "+5",
      "007" and "-0" are 5, 7 and 0, with or without whitespace around. */
  lemma ParseDigitsPadded(a: Bytes, sign: Bytes, ds: Bytes, c: Bytes)
    requires Literal(a, sign, ds, c)
    ensures ParseInt(a + (sign + ds) + c) == Some(SignedValue(sign, ds))
  {
    var t := sign + ds;
    StrippedSigned(sign, ds);
    assert Strip(a + t + c) == t by {
      StripPadded(a, t, c);
    }
  }

  /** `t` sits at `k` in `s`, with only whitespace before and after it. */
  predicate PaddedAt(s: Bytes, k: nat, t: Bytes) {
    k + |t| <= |s| && AllSpace(s[..k]) && s[k..k + |t|] == t && AllSpace(s[k + |t|..])
  }

  /** `strip()` splits a request into a whitespace prefix, the stripped
      text and a whitespace suffix. */
  lemma StripSplits(s: Bytes)
    ensures PaddedAt(s, |s| - |TrimLeft(s)|, Strip(s))
  {
    TrimsSplit(s);
  }

  /** The same split, stated for the two trims `strip()` is made of. */
  lemma TrimsSplit(s: Bytes)
    ensures PaddedAt(s, |s| - |TrimLeft(s)|, TrimRight(TrimLeft(s)))
  {
    var l := TrimLeft(s);
    SuffixPrefix(s, |s| - |l|, l, TrimRight(l));
  }

  /** A prefix `r` of the suffix `l` of `s` that starts at `k` sits at `k`
      in `s`, and what follows it in `l` is what follows it in `s`. */
  lemma SuffixPrefix(s: Bytes, k: nat, l: Bytes, r: Bytes)
    requires k <= |s| && l == s[k..] && AllSpace(s[..k])
    requires |r| <= |l| && r == l[..|r|] && AllSpace(l[|r|..])
    ensures PaddedAt(s, k, r)
  {
    assert s[k + |r|..] == l[|r|..];
  }

  /** Any two cut points split a sequence into three consecutive parts. */
  lemma Split3(s: Bytes, i: nat, j: nat)
    requires i <= j <= |s|
    ensures s == s[..i] + s[i..j] + s[j..]
  {
  }

  /** Stripped text that `int()` accepts is an optional sign followed by
      digits, and its value is theirs. */
  lemma StrippedLiteral(t: Bytes)
    requires ParseStripped(t).Some?
    ensures exists sign, ds :: (IsSign(sign) && ds != [] && AllDigits(ds) && t == sign + ds
      && ParseStripped(t).value == SignedValue(sign, ds))
  {
    if t[0] == Minus || t[0] == Plus {
      assert t == [t[0]] + t[1..];
      assert ParseStripped(t).value == SignedValue([t[0]], t[1..]);
    } else {
      assert t == [] + t;
      assert ParseStripped(t).value == SignedValue([], t);
    }
  }

  /** Text `int()` accepts, cut out of `s` between two whitespace runs,
      makes `s` a literal of that text's value. */
  lemma LiteralAround(s: Bytes, k: nat, t: Bytes)
    requires PaddedAt(s, k, t) && ParseStripped(t).Some?
    ensures exists a, sign, ds, c :: (Literal(a, sign, ds, c) && s == a + (sign + ds) + c
      && ParseStripped(t).value == SignedValue(sign, ds))
  {
    Split3(s, k, k + |t|);
    StrippedLiteral(t);
    var sign, ds :| IsSign(sign) && ds != [] && AllDigits(ds) && t == sign + ds
      && ParseStripped(t).value == SignedValue(sign, ds);
    assert Literal(s[..k], sign, ds, s[k + |t|..]);
  }

  /** Conversely, a request `int()` accepts has that shape, and its value
      is the signed value of its digits. */
  lemma ParsedLiteral(s: Bytes)
    requires ParseInt(s).Some?
    ensures exists a, sign, ds, c :: (Literal(a, sign, ds, c) && s == a + (sign + ds) + c
      && ParseInt(s).value == SignedValue(sign, ds))
  {
    StripSplits(s);
    LiteralAround(s, |s| - |TrimLeft(s)|, Strip(s));
  }

  /** `int()` accepts exactly the requests made of whitespace, an optional
      sign, digits and whitespace; every other request raises ValueError. */
  lemma ParseIntAccepts(s: Bytes)
    ensures ParseInt(s).Some? <==> exists a, sign, ds, c :: Literal(a, sign, ds, c) && s == a + (sign + ds) + c
  {
    if exists a, sign, ds, c :: Literal(a, sign, ds, c) && s == a + (sign + ds) + c {
      var a, sign, ds, c :| Literal(a, sign, ds, c) && s == a + (sign + ds) + c;
      ParseDigitsPadded(a, sign, ds, c);
    }
    if ParseInt(s).Some? {
      ParsedLiteral(s);
    }
  }

  /** Canonical digits that do not start with zero denote a positive number. */
  lemma {:induction false} LeadingNonZeroPositive(ds: Bytes)
    requires ds != [] && AllDigits(ds) && ds[0] != Zero
    ensures DigitsValue(ds) >= 1
  {
    if |ds| > 1 {
      LeadingNonZeroPositive(ds[..|ds| - 1]);
    }
  }

  lemma DivModTen(q: nat, d: nat)
    requires d < 10
    ensures (10 * q + d) / 10 == q && (10 * q + d) % 10 == d
  {
  }

  /** Canonical digits are the decimal text of their own value. */
  lemma {:induction false} FormatDigitsValue(ds: Bytes)
    requires CanonicalDigits(ds)
    ensures FormatNat(DigitsValue(ds)) == ds
    decreases |ds|
  {
    var v := DigitsValue(ds);
    if |ds| == 1 {
      assert ds[..0] == [];
      assert DigitsValue(ds[..0]) == 0;
      assert v == ds[0] as int - Zero as int;
      assert FormatNat(v) == [DigitByte(v)];
    } else {
      var pre := ds[..|ds| - 1];
      var last: nat := ds[|ds| - 1] as int - Zero as int;
      assert CanonicalDigits(pre);
      LeadingNonZeroPositive(pre);
      FormatDigitsValue(pre);
      assert v == 10 * DigitsValue(pre) + last;
      DivModTen(DigitsValue(pre), last);
      assert FormatNat(v) == FormatNat(DigitsValue(pre)) + [DigitByte(last)];
      assert DigitByte(last) == ds[|ds| - 1];
      assert ds == pre + [ds[|ds| - 1]];
    }
  }

  /** Text with no whitespace at either end has nothing for `strip()` to
      remove. */
  lemma StripUnpadded(x: Bytes)
    requires x == [] || (!IsSpace(x[0]) && !IsSpace(x[|x| - 1]))
    ensures Strip(x) == x
  {
    assert [] + x == x;
    TrimLeftPadded([], x);
    assert x + [] == x;
    TrimRightPadded(x, []);
  }

  lemma FormatParseDigits(t: Bytes)
    requires CanonicalDigits(t)
    ensures ParseStripped(t).Some? && FormatInt(ParseStripped(t).value) == t
  {
    assert t[0] != Minus && t[0] != Plus;
    FormatDigitsValue(t);
  }

  /** A minus sign and the canonical digits of `v` are the text of -v. */
  lemma FormatNegative(ds: Bytes)
    requires CanonicalDigits(ds) && ds != [Zero]
    ensures FormatInt(-(DigitsValue(ds) as int)) == [Minus] + ds
  {
    FormatDigitsValue(ds);
    LeadingNonZeroPositive(ds);
  }

  lemma FormatParseNegative(t: Bytes)
    requires IsCanonical(t) && !CanonicalDigits(t)
    ensures ParseStripped(t).Some? && FormatInt(ParseStripped(t).value) == t
  {
    var ds := t[1..];
    assert ParseStripped(t) == Some(-(DigitsValue(ds) as int));
    FormatNegative(ds);
    assert t == [Minus] + ds;
  }

  /** The other direction of the round trip: canonical text parses to a
      number whose text is that same canonical text. */
  lemma FormatParse(t: Bytes)
    requires IsCanonical(t)
    ensures ParseInt(t).Some? && FormatInt(ParseInt(t).value) == t
  {
    CanonicalUnpadded(t);
    StripUnpadded(t);
    if CanonicalDigits(t) {
      FormatParseDigits(t);
    } else {
      FormatParseNegative(t);
    }
  }

  /** The transform applied to each request number. */
  function Algorithm(n: int): int {
    n + 42
  }

  /** What the handler does with one received chunk. */
  datatype Response =
    | Close            // blank request: close the connection, no reply
    | Reply(data: Bytes) // the bytes sent back
    | Fail             // `int()` raised ValueError

  /** Reading a reply line back as an integer recovers the number it was
      made from; the newline is whitespace to `int()`. */
  lemma ReplyLineParses(m: int)
    ensures ParseInt(FormatInt(m) + [Newline]) == Some(m)
  {
    var line := FormatInt(m) + [Newline];
    assert [] + FormatInt(m) + [Newline] == line by {
      assert [] + FormatInt(m) == FormatInt(m);
    }
    assert AllSpace([Newline]) by {
      assert IsSpace([Newline][0]);
    }
    ParsePadded([], m, [Newline]);
  }

  /** The reply line for result `m`: its decimal text and a newline. */
  function ReplyLine(m: int): Bytes {
    FormatInt(m) + [Newline]
  }

  /** A reply line is canonical text followed by a newline, and reading it
      back as an integer recovers the number it was made from. */
  lemma ReplyLineShape(m: int)
    ensures var d := ReplyLine(m);
      && ParseInt(d) == Some(m)
      && |d| >= 2 && d[|d| - 1] == Newline && IsCanonical(d[..|d| - 1])
  {
    ReplyLineParses(m);
    assert ReplyLine(m)[..|FormatInt(m)|] == FormatInt(m);
  }

  /** One iteration of the handler loop after `recv` returns `request`:
      a blank request closes, a request that is not an integer raises, and
      any other request is answered. */
  function Respond(request: Bytes): (r: Response)
    ensures r.Close? <==> AllSpace(request)
    ensures r.Fail? <==> !AllSpace(request) && ParseInt(request).None?
  {
    if Strip(request) == [] then
      Close
    else
      match ParseInt(request)
      case None => Fail
      case Some(n) => Reply(ReplyLine(Algorithm(n)))
  }

  /** The reply to a request is a line holding the request's number plus
      42: reading it back with `int()` gives that number. */
  lemma RespondReply(request: Bytes)
    requires Respond(request).Reply?
    ensures ParseInt(request).Some?
    ensures var d := Respond(request).data;
      && ParseInt(d) == Some(Algorithm(ParseInt(request).value))
      && |d| >= 2 && d[|d| - 1] == Newline && IsCanonical(d[..|d| - 1])
  {
    ReplyLineShape(Algorithm(ParseInt(request).value));
  }

  /** A request that `int()` reads as `n` is answered with the text of
      `Algorithm(n)` and a newline. */
  lemma RespondParsed(request: Bytes, n: int)
    requires ParseInt(request) == Some(n)
    ensures Respond(request) == Reply(FormatInt(Algorithm(n)) + [Newline])
  {
    assert Strip(request) != [];
  }

  /** A request holding the text of `n`, with any surrounding whitespace, is
      answered with the text of `Algorithm(n)` and a newline. */
  lemma RespondRoundTrip(a: Bytes, n: int, c: Bytes)
    requires AllSpace(a) && AllSpace(c)
    ensures Respond(a + FormatInt(n) + c) == Reply(FormatInt(Algorithm(n)) + [Newline])
  {
    ParsePadded(a, n, c);
    RespondParsed(a + FormatInt(n) + c, n);
  }

  /** A request that is exactly the text of `n` and a newline. */
  lemma RespondLine(n: int)
    ensures Respond(FormatInt(n) + [Newline]) == Reply(FormatInt(Algorithm(n)) + [Newline])
  {
    ReplyLineParses(n);
    RespondParsed(FormatInt(n) + [Newline], n);
  }

  /** The decimal texts used by the exchanges below. */
  lemma FormatExamples()
    ensures FormatInt(5) + [Newline] == [53, 10]
    ensures FormatInt(47) + [Newline] == [52, 55, 10]
    ensures FormatInt(100) + [Newline] == [49, 48, 48, 10]
    ensures FormatInt(142) + [Newline] == [49, 52, 50, 10]
  {
    assert FormatNat(47) == FormatNat(4) + [DigitByte(7)];
    assert FormatNat(100) == FormatNat(10) + [DigitByte(0)];
    assert FormatNat(10) == FormatNat(1) + [DigitByte(0)];
    assert FormatNat(142) == FormatNat(14) + [DigitByte(2)];
    assert FormatNat(14) == FormatNat(1) + [DigitByte(4)];
  }

  /** "5\n" is answered with "47\n"; "100\n" with "142\n". */
  lemma ExampleReplies()
    ensures Respond([53, 10]) == Reply([52, 55, 10])
    ensures Respond([49, 48, 48, 10]) == Reply([49, 52, 50, 10])
  {
    FormatExamples();
    RespondLine(5);
    RespondLine(100);
  }

  /** A blank or empty request closes the connection without a reply. */
  lemma ExampleBlank()
    ensures Respond([32, 32, 32, 10]) == Close
    ensures Respond([]) == Close
  {
  }

  /** A request whose stripped text starts with neither a sign nor a digit
      is not an integer: `int()` raises. */
  lemma RespondMalformed(req: Bytes)
    requires Strip(req) != []
    requires !IsDigit(Strip(req)[0]) && Strip(req)[0] != Minus && Strip(req)[0] != Plus
    ensures Respond(req) == Fail
  {
    var t := Strip(req);
    assert !AllDigits(t);
    assert ParseInt(req) == None;
  }

  /** The handler raises exactly on a request that is not blank and not
      made of whitespace, an optional sign, digits and whitespace. */
  lemma RespondFails(req: Bytes)
    ensures Respond(req) == Fail <==>
      !AllSpace(req) && !exists a, sign, ds, c :: Literal(a, sign, ds, c) && req == a + (sign + ds) + c
  {
    ParseIntAccepts(req);
  }

  /** `int()` accepts a plus sign: "+5" is 5. */
  lemma ExamplePlus()
    ensures ParseInt([43, 53]) == Some(5)
  {
    var t: Bytes := [43, 53];
    StripUnpadded(t);
    assert t[1..] == [53];
  }

  predicate AllZeros(zs: Bytes) {
    forall i :: 0 <= i < |zs| ==> zs[i] == Zero
  }

  /** A run of zeros is worth nothing. */
  lemma {:induction false} ZerosValue(zs: Bytes)
    requires AllZeros(zs)
    ensures AllDigits(zs) && DigitsValue(zs) == 0
  {
    if zs != [] {
      ZerosValue(zs[..|zs| - 1]);
    }
  }

  /** Leading zeros do not change the value of a run of digits. */
  lemma {:induction false} LeadingZerosValue(zs: Bytes, ds: Bytes)
    requires AllZeros(zs) && AllDigits(ds)
    ensures AllDigits(zs + ds) && DigitsValue(zs + ds) == DigitsValue(ds)
  {
    if ds == [] {
      assert zs + ds == zs;
      ZerosValue(zs);
    } else {
      var x := zs + ds;
      assert x[..|x| - 1] == zs + ds[..|ds| - 1];
      LeadingZerosValue(zs, ds[..|ds| - 1]);
    }
  }

  /** `int()` accepts leading zeros: any number of zeros before the text of
      a natural number n, followed by whitespace, is read as n ("007\n" is
      7). */
  lemma ParseLeadingZeros(zs: Bytes, n: nat, c: Bytes)
    requires AllZeros(zs) && AllSpace(c)
    ensures ParseInt(zs + FormatInt(n) + c) == Some(n)
  {
    var ds := zs + FormatInt(n);
    assert [] + ([] + ds) + c == zs + FormatInt(n) + c;
    LeadingZerosValue(zs, FormatInt(n));
    ParseDigitsPadded([], [], ds, c);
  }

  /** `int()` reads any run of zeros as 0, whatever its sign: "-0\n" and
      "+000" are both 0. */
  lemma ParseSignedZeros(a: Bytes, sign: Bytes, zs: Bytes, c: Bytes)
    requires AllSpace(a) && IsSign(sign) && zs != [] && AllZeros(zs) && AllSpace(c)
    ensures ParseInt(a + (sign + zs) + c) == Some(0)
  {
    ZerosValue(zs);
    ParseDigitsPadded(a, sign, zs, c);
  }

  /** A request whose stripped text has a byte other than a digit after its
      first byte is not an integer: `int()` raises. */
  lemma RespondNonDigit(req: Bytes, i: nat)
    requires 1 <= i < |Strip(req)| && !IsDigit(Strip(req)[i])
    ensures Respond(req) == Fail
  {
    var t := Strip(req);
    assert t[1..][i - 1] == t[i];
    assert !AllDigits(t);
    assert ParseInt(req) == None;
  }

  /** A stray letter makes `int()` raise: "5a\n" fails. */
  lemma ExampleLetter()
    ensures Respond([53, 97, 10]) == Fail
  {
    var t: Bytes := [53, 97];
    StripPadded([], t, [Newline]);
    assert [] + t + [Newline] == [53, 97, 10];
    RespondNonDigit([53, 97, 10], 1);
  }

  /** An inner space makes `int()` raise: "4 2\n" fails. */
  lemma ExampleInnerSpace()
    ensures Respond([52, 32, 50, 10]) == Fail
  {
    var t: Bytes := [52, 32, 50];
    StripPadded([], t, [Newline]);
    assert [] + t + [Newline] == [52, 32, 50, 10];
    RespondNonDigit([52, 32, 50, 10], 1);
  }

  /** A space between the sign and the digits makes `int()` raise: "- 5\n"
      fails. */
  lemma ExampleSpacedSign()
    ensures Respond([45, 32, 53, 10]) == Fail
  {
    var t: Bytes := [45, 32, 53];
    StripPadded([], t, [Newline]);
    assert [] + t + [Newline] == [45, 32, 53, 10];
    RespondNonDigit([45, 32, 53, 10], 1);
  }

  /** "abc\n" is not an integer: `int()` raises. */
  lemma ExampleMalformed()
    ensures Respond([97, 98, 99, 10]) == Fail
  {
    var abc: Bytes := [97, 98, 99];
    StripPadded([], abc, [Newline]);
    assert [] + abc + [Newline] == [97, 98, 99, 10];
    RespondMalformed([97, 98, 99, 10]);
  }
}
