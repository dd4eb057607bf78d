/**
 Topics of indexed event parameters, as the section "Encoding of Indexed Event Parameters" of
 the Solidity Contract ABI Specification defines them.
 */
module AbiTopics {
  import opened Wrappers

  type Byte = b: int | 0 <= b < 256

  /** The fields of a struct, or the elements of an array of any dimension. */
  datatype Labels = Elements | Fields(name: string, keys: seq<string>)

  /** `raw` is what the hexadecimal digits of an address stand for. */
  datatype Value =
    | Integer(n: int)
    | MalformedInteger
    | Boolean(b: bool)
    | Address(raw: seq<Byte>)
    | String(utf8: seq<Byte>)
    | Bytes(bytes: seq<Byte>)
    | Group(labels: Labels, parts: seq<Value>)
    | NotSupported

  // ----- bytes and numbers

  function Zeros(n: nat): (z: seq<Byte>)
    ensures |z| == n && forall i | 0 <= i < n :: z[i] == 0
  {
    if n == 0 then [] else Zeros(n - 1) + [0]
  }

  function Pow256(n: nat): (p: nat)
    ensures p > 0
  {
    if n == 0 then 1 else 256 * Pow256(n - 1)
  }

  function BigEndian(n: nat, size: nat): (s: seq<Byte>)
    ensures |s| == size
    decreases size
  {
    if size == 0 then [] else BigEndian(n / 256, size - 1) + [n % 256]
  }

  function Number(s: seq<Byte>): nat {
    if s == [] then 0 else 256 * Number(s[..|s| - 1]) + s[|s| - 1]
  }

  lemma {:induction false} NumberOfBigEndian(n: nat, size: nat)
    ensures Number(BigEndian(n, size)) == n % Pow256(size)
    decreases size
  {
    if size > 0 {
      NumberOfBigEndian(n / 256, size - 1);
      var s := BigEndian(n, size);
      assert s[..size - 1] == BigEndian(n / 256, size - 1);
      ModOfProduct(n, Pow256(size - 1));
    }
  }

  lemma ModOfProduct(n: nat, p: nat)
    requires p > 0
    ensures n % (256 * p) == 256 * ((n / 256) % p) + n % 256
  {
    var q := n / 256;
    var r := 256 * (q % p) + n % 256;
    assert q == (q / p) * p + q % p;
    assert n == 256 * q + n % 256;
    assert n == (q / p) * (256 * p) + r by {
      assert 256 * ((q / p) * p) == (q / p) * (256 * p);
    }
    assert 0 <= r < 256 * p;
    UniqueRemainder(n, 256 * p, q / p, r);
  }

  lemma UniqueRemainder(n: int, m: nat, q: int, r: int)
    requires m > 0 && n == q * m + r && 0 <= r < m
    ensures n % m == r
  {
    var d := n / m - q;
    assert n == (n / m) * m + n % m;
    assert d * m == r - n % m by {
      assert (n / m - q) * m == (n / m) * m - q * m;
    }
    MultipleBounds(d, m);
  }

  lemma MultipleBounds(d: int, m: int)
    requires m > 0
    ensures d >= 1 ==> d * m >= m
    ensures d <= -1 ==> d * m <= -m
  {
  }

  // ----- the source's encoding

  const WORD: nat := 32

  function PaddedSize(n: nat): (p: nat)
    ensures n <= p < n + WORD && p % WORD == 0
    ensures n % WORD == 0 ==> p == n
  {
    (n + 31) / 32 * 32
  }

  function RightPad(s: seq<Byte>): (p: seq<Byte>)
    ensures |p| == PaddedSize(|s|)
  {
    s + Zeros(PaddedSize(|s|) - |s|)
  }

  /** A number modulo 2^256 - negative ones in two's complement - as one word. */
  function U256Bytes(n: int): (w: seq<Byte>)
    ensures |w| == WORD
  {
    BigEndian(n % Pow256(WORD), WORD)
  }

  /** The last 20 bytes, or as many zeros in front as it takes. */
  function Address20(raw: seq<Byte>): (a: seq<Byte>)
    ensures |a| == 20
  {
    if |raw| > 20 then raw[|raw| - 20..] else Zeros(20 - |raw|) + raw
  }

  function Words(v: Value): Option<seq<Byte>>
    decreases v, 0
  {
    match v
    case Bytes(s) => Some(RightPad(s))
    case String(s) => Some(RightPad(s))
    case Integer(n) => Some(U256Bytes(n))
    case MalformedInteger => None
    case Boolean(b) => Some(U256Bytes(if b then 1 else 0))
    case Address(raw) => Some(Zeros(12) + Address20(raw))
    case Group(_, parts) => PartWords(parts, |parts|)
    case NotSupported => None
  }

  function PartWords(parts: seq<Value>, n: nat): Option<seq<Byte>>
    requires n <= |parts|
    decreases parts, n
  {
    if n == 0 then Some([])
    else
      var init := PartWords(parts, n - 1);
      var last := Words(parts[n - 1]);
      if init.None? || last.None? then None else Some(init.value + last.value)
  }

  function Topic(v: Value, keccak: seq<Byte> -> seq<Byte>): Option<seq<Byte>> {
    match v
    case Integer(_) => Words(v)
    case Boolean(_) => Words(v)
    case Address(_) => Words(v)
    case String(s) => Some(keccak(s))
    case Bytes(s) => Some(keccak(s))
    case _ =>
      var w := Words(v);
      if w.None? then None else Some(keccak(w.value))
  }

  // ----- the standard's encoding

  predicate Supported(v: Value)
    decreases v, 0
  {
    match v
    case MalformedInteger => false
    case NotSupported => false
    case Group(_, parts) => PartsSupported(parts, |parts|)
    case _ => true
  }

  predicate PartsSupported(parts: seq<Value>, n: nat)
    requires n <= |parts|
    decreases parts, n
  {
    n == 0 || (PartsSupported(parts, n - 1) && Supported(parts[n - 1]))
  }

  predicate IsValueType(v: Value) {
    v.Integer? || v.Boolean? || v.Address?
  }

  /** A value type is its word; bytes and strings are their contents, without padding or length;
      structs and arrays the encodings of their members, each padded to whole words. */
  function Encoding(v: Value): seq<Byte>
    requires Supported(v)
    decreases v, 0
  {
    match v
    case Integer(n) => U256Bytes(n)
    case Boolean(b) => U256Bytes(if b then 1 else 0)
    case Address(raw) => Zeros(12) + Address20(raw)
    case String(s) => s
    case Bytes(s) => s
    case Group(_, parts) => PartEncodings(parts, |parts|)
  }

  function PartEncodings(parts: seq<Value>, n: nat): seq<Byte>
    requires n <= |parts| && PartsSupported(parts, n)
    decreases parts, n
  {
    if n == 0 then [] else PartEncodings(parts, n - 1) + RightPad(Encoding(parts[n - 1]))
  }

  lemma RightPadOfWords(s: seq<Byte>)
    requires |s| % WORD == 0
    ensures RightPad(s) == s
  {
  }

  lemma {:induction false} WordsExactlyWhenSupported(v: Value)
    ensures Words(v).Some? <==> Supported(v)
    decreases v, 0
  {
    if v.Group? {
      PartWordsExactlyWhenSupported(v.parts, |v.parts|);
    }
  }

  lemma {:induction false} PartWordsExactlyWhenSupported(parts: seq<Value>, n: nat)
    requires n <= |parts|
    ensures PartWords(parts, n).Some? <==> PartsSupported(parts, n)
    decreases parts, n
  {
    if n > 0 {
      PartWordsExactlyWhenSupported(parts, n - 1);
      WordsExactlyWhenSupported(parts[n - 1]);
    }
  }

  /** The words are the standard's encoding padded to whole words. */
  lemma {:induction false} WordsArePaddedEncoding(v: Value)
    requires Supported(v)
    ensures Words(v) == Some(RightPad(Encoding(v)))
    decreases v, 0
  {
    match v
    case Integer(n) => RightPadOfWords(U256Bytes(n));
    case Boolean(b) => RightPadOfWords(U256Bytes(if b then 1 else 0));
    case Address(raw) => RightPadOfWords(Zeros(12) + Address20(raw));
    case Group(_, parts) =>
      PartWordsArePaddedEncodings(parts, |parts|);
      PartEncodingsAreWhole(parts, |parts|);
      RightPadOfWords(Encoding(v));
    case _ =>
  }

  lemma {:induction false} PartWordsArePaddedEncodings(parts: seq<Value>, n: nat)
    requires n <= |parts| && PartsSupported(parts, n)
    ensures PartWords(parts, n) == Some(PartEncodings(parts, n))
    decreases parts, n
  {
    if n > 0 {
      PartWordsArePaddedEncodings(parts, n - 1);
      WordsArePaddedEncoding(parts[n - 1]);
    }
  }

  lemma {:induction false} PartEncodingsAreWhole(parts: seq<Value>, n: nat)
    requires n <= |parts| && PartsSupported(parts, n)
    ensures |PartEncodings(parts, n)| % WORD == 0
  {
    if n > 0 {
      PartEncodingsAreWhole(parts, n - 1);
      SumIsWhole(|PartEncodings(parts, n - 1)|, |RightPad(Encoding(parts[n - 1]))|);
    }
  }

  lemma SumIsWhole(a: nat, b: nat)
    requires a % WORD == 0 && b % WORD == 0
    ensures (a + b) % WORD == 0
  {
  }

  /** Encoding fails exactly for what it does not support, and always makes whole words. */
  lemma WordsAreWhole(v: Value)
    ensures Words(v).Some? <==> Supported(v)
    ensures Supported(v) ==> |Words(v).value| % WORD == 0
  {
    WordsExactlyWhenSupported(v);
    if Supported(v) {
      WordsArePaddedEncoding(v);
    }
  }

  /** The standard's topics: the word itself of a value type, the hash of the encoding of anything else. */
  lemma TopicsAreStandard(v: Value, keccak: seq<Byte> -> seq<Byte>)
    ensures Topic(v, keccak) ==
            if !Supported(v) then None
            else if IsValueType(v) then Some(Encoding(v))
            else Some(keccak(Encoding(v)))
  {
    WordsExactlyWhenSupported(v);
    if Supported(v) && !v.String? && !v.Bytes? {
      WordsArePaddedEncoding(v);
      if v.Group? {
        PartEncodingsAreWhole(v.parts, |v.parts|);
      }
      RightPadOfWords(Encoding(v));
    }
  }

  // ----- decoding

  /** What two values must share for their encodings to tell them apart: the range of an integer
      type, lengths, and the structure. `lo` is 0 for unsigned and -2^255 for signed integers. */
  datatype Shape =
    | IntegerShape(lo: int)
    | BooleanShape
    | AddressShape
    | TextShape(length: nat)
    | BytesShape(length: nat)
    | GroupShape(labels: Labels, parts: seq<Shape>)

  predicate Fits(v: Value, s: Shape)
    decreases v, 0
  {
    match v
    case Integer(n) => s.IntegerShape? && s.lo <= n < s.lo + Pow256(WORD)
    case Boolean(_) => s.BooleanShape?
    case Address(raw) => s.AddressShape? && |raw| == 20
    case String(t) => s.TextShape? && |t| == s.length
    case Bytes(t) => s.BytesShape? && |t| == s.length
    case Group(labels, parts) =>
      s.GroupShape? && s.labels == labels && |parts| == |s.parts| && PartsFit(parts, s.parts, |parts|)
    case _ => false
  }

  predicate PartsFit(parts: seq<Value>, shapes: seq<Shape>, n: nat)
    requires n <= |parts| == |shapes|
    decreases parts, n
  {
    n == 0 || (PartsFit(parts, shapes, n - 1) && Fits(parts[n - 1], shapes[n - 1]))
  }

  function Size(s: Shape): nat
    decreases s, 0
  {
    match s
    case TextShape(length) => PaddedSize(length)
    case BytesShape(length) => PaddedSize(length)
    case GroupShape(_, parts) => PartSizes(parts, |parts|)
    case _ => WORD
  }

  function PartSizes(parts: seq<Shape>, n: nat): nat
    requires n <= |parts|
    decreases parts, n
  {
    if n == 0 then 0 else PartSizes(parts, n - 1) + Size(parts[n - 1])
  }

  /** The only number of its range that is this word. */
  function DecodeInteger(lo: int, w: seq<Byte>): int {
    lo + (Number(w) - lo) % Pow256(|w|)
  }

  function Decode(s: Shape, w: seq<Byte>): Value
    requires |w| == Size(s)
    decreases s, 0
  {
    match s
    case IntegerShape(lo) => Integer(DecodeInteger(lo, w))
    case BooleanShape => Boolean(Number(w) != 0)
    case AddressShape => Address(w[12..])
    case TextShape(length) => String(w[..length])
    case BytesShape(length) => Bytes(w[..length])
    case GroupShape(labels, parts) => Group(labels, DecodeParts(parts, |parts|, w))
  }

  function DecodeParts(parts: seq<Shape>, n: nat, w: seq<Byte>): seq<Value>
    requires n <= |parts| && |w| == PartSizes(parts, n)
    decreases parts, n
  {
    if n == 0 then []
    else
      var at := PartSizes(parts, n - 1);
      DecodeParts(parts, n - 1, w[..at]) + [Decode(parts[n - 1], w[at..])]
  }

  lemma InWindow(lo: int, n: int, m: nat)
    requires lo <= n < lo + m
    ensures lo + (n % m - lo) % m == n
  {
    assert n == (n / m) * m + n % m;
    assert n % m - lo == (-(n / m)) * m + (n - lo) by {
      assert (-(n / m)) * m == -((n / m) * m);
    }
    UniqueRemainder(n % m - lo, m, -(n / m), n - lo);
  }

  lemma NumberOfU256(n: int)
    ensures Number(U256Bytes(n)) == n % Pow256(WORD)
  {
    NumberOfReduced(n, WORD);
  }

  lemma NumberOfReduced(n: int, size: nat)
    ensures Number(BigEndian(n % Pow256(size), size)) == n % Pow256(size)
  {
    NumberOfBigEndian(n % Pow256(size), size);
    ModOfMod(n, Pow256(size));
  }

  lemma IntegerRoundTrip(lo: int, n: int, size: nat)
    requires lo <= n < lo + Pow256(size)
    ensures DecodeInteger(lo, BigEndian(n % Pow256(size), size)) == n
  {
    NumberOfReduced(n, size);
    InWindow(lo, n, Pow256(size));
  }

  lemma ModOfMod(n: int, m: nat)
    requires m > 0
    ensures (n % m) % m == n % m
  {
    UniqueRemainder(n % m, m, 0, n % m);
  }

  lemma BooleanRoundTrip(b: bool)
    ensures Number(U256Bytes(if b then 1 else 0)) != 0 <==> b
  {
    var n := if b then 1 else 0;
    assert Pow256(WORD) == 256 * Pow256(31);
    UniqueRemainder(n, Pow256(WORD), 0, n);
    NumberOfU256(n);
  }

  /** Decoding by its shape gives back every value that fits: numbers of their type's range,
      addresses of 20 bytes, texts and bytes of the given lengths, nested to any depth. */
  lemma {:induction false} RoundTrip(v: Value, s: Shape)
    requires Fits(v, s)
    ensures Words(v).Some? && |Words(v).value| == Size(s) && Decode(s, Words(v).value) == v
    decreases v, 0
  {
    match v
    case Integer(n) => IntegerRoundTrip(s.lo, n, WORD);
    case Boolean(b) => BooleanRoundTrip(b);
    case Address(raw) => assert (Zeros(12) + raw)[12..] == raw;
    case Group(_, parts) => PartsRoundTrip(parts, s.parts, |parts|);
    case _ =>
  }

  lemma DecodePartsStep(shapes: seq<Shape>, n: nat, init: seq<Byte>, last: seq<Byte>, front: seq<Value>, back: Value)
    requires 0 < n <= |shapes| && |init| == PartSizes(shapes, n - 1) && |last| == Size(shapes[n - 1])
    requires DecodeParts(shapes, n - 1, init) == front && Decode(shapes[n - 1], last) == back
    ensures |init + last| == PartSizes(shapes, n) && DecodeParts(shapes, n, init + last) == front + [back]
  {
    assert (init + last)[..|init|] == init && (init + last)[|init|..] == last;
  }

  lemma PartWordsStep(parts: seq<Value>, n: nat, init: seq<Byte>, last: seq<Byte>)
    requires 0 < n <= |parts| && PartWords(parts, n - 1) == Some(init) && Words(parts[n - 1]) == Some(last)
    ensures PartWords(parts, n) == Some(init + last)
  {
  }

  /** The first `n` parts have words of the sizes of their shapes, which decode to them. */
  predicate PartsReturn(parts: seq<Value>, shapes: seq<Shape>, n: nat, words: seq<Byte>)
    requires n <= |parts| == |shapes|
  {
    |words| == PartSizes(shapes, n) && DecodeParts(shapes, n, words) == parts[..n]
  }

  lemma PartsReturnStep(parts: seq<Value>, shapes: seq<Shape>, n: nat, init: seq<Byte>, last: seq<Byte>)
    requires 0 < n <= |parts| == |shapes| && PartsReturn(parts, shapes, n - 1, init)
    requires |last| == Size(shapes[n - 1]) && Decode(shapes[n - 1], last) == parts[n - 1]
    ensures PartsReturn(parts, shapes, n, init + last)
  {
    DecodePartsStep(shapes, n, init, last, parts[..n - 1], parts[n - 1]);
    assert parts[..n] == parts[..n - 1] + [parts[n - 1]];
  }

  lemma {:induction false} PartsRoundTrip(parts: seq<Value>, shapes: seq<Shape>, n: nat)
    requires n <= |parts| == |shapes| && PartsFit(parts, shapes, n)
    ensures PartWords(parts, n).Some? && PartsReturn(parts, shapes, n, PartWords(parts, n).value)
    decreases parts, n
  {
    if n > 0 {
      PartsRoundTrip(parts, shapes, n - 1);
      RoundTrip(parts[n - 1], shapes[n - 1]);
      var init, last := PartWords(parts, n - 1).value, Words(parts[n - 1]).value;
      PartWordsStep(parts, n, init, last);
      PartsReturnStep(parts, shapes, n, init, last);
    }
  }

  /** Values of one shape have the same words only if they are the same. */
  lemma WordsAreInjective(v: Value, w: Value, s: Shape)
    requires Fits(v, s) && Fits(w, s)
    ensures Words(v) == Words(w) <==> v == w
  {
    RoundTrip(v, s);
    RoundTrip(w, s);
  }

  /** Outside a range of 2^256 numbers, words coincide exactly for numbers that are congruent. */
  lemma IntegerWordsCoincide(m: int, n: int)
    ensures Words(Integer(m)) == Words(Integer(n)) <==> m % Pow256(WORD) == n % Pow256(WORD)
  {
    NumberOfU256(m);
    NumberOfU256(n);
  }

  // ----- the bytes themselves

  /** `w` are the words of `v`, byte by byte: numbers are digits to the base 256, negative ones of their
      two's complement; addresses their last 20 bytes, or all of them, behind zeros; texts and bytes their
      contents and then zeros up to the next whole word; members stand one after another, at any nesting. */
  ghost predicate Spells(v: Value, w: seq<Byte>)
    decreases v, 0
  {
    match v
    case Integer(n) => |w| == 32 && forall i | 0 <= i < 32 :: w[i] == n / Pow256(31 - i) % 256
    case Boolean(b) => |w| == 32 && (forall i | 0 <= i < 31 :: w[i] == 0) && w[31] == if b then 1 else 0
    case Address(raw) =>
      |w| == 32 && forall i | 0 <= i < 32 ::
        w[i] == if i >= 12 && |raw| + i >= 32 then raw[|raw| + i - 32] else 0
    case String(s) => SpellsText(s, w)
    case Bytes(s) => SpellsText(s, w)
    case Group(_, parts) => SpellsParts(parts, |parts|, w)
    case _ => false
  }

  ghost predicate SpellsText(s: seq<Byte>, w: seq<Byte>) {
    |w| % 32 == 0 && |s| <= |w| < |s| + 32 && forall i | 0 <= i < |w| :: w[i] == if i < |s| then s[i] else 0
  }

  /** The words of the first `n` parts; those of the last of them begin at some place. */
  ghost predicate SpellsParts(parts: seq<Value>, n: nat, w: seq<Byte>)
    requires n <= |parts|
    decreases parts, n
  {
    if n == 0 then w == []
    else exists at | 0 <= at <= |w| :: SpellsParts(parts, n - 1, w[..at]) && Spells(parts[n - 1], w[at..])
  }

  lemma {:induction false} BigEndianDigit(n: nat, size: nat, i: nat)
    requires i < size
    ensures BigEndian(n, size)[i] == n / Pow256(size - 1 - i) % 256
    decreases size
  {
    if i == size - 1 {
      assert Pow256(0) == 1;
    } else {
      BigEndianDigit(n / 256, size - 1, i);
      DivideTwice(n, 256, Pow256(size - 2 - i));
    }
  }

  lemma DivideTwice(n: int, a: nat, b: nat)
    requires a > 0 && b > 0
    ensures a * b > 0 && n / a / b == n / (a * b)
  {
    var q, r := n / a / b, n / a % b;
    assert n == a * (n / a) + n % a && n / a == b * q + r;
    assert n == q * (a * b) + (a * r + n % a) by {
      assert a * (b * q + r) == a * (b * q) + a * r && a * (b * q) == q * (a * b);
    }
    assert a * r + n % a < a * b by {
      assert a * r <= a * (b - 1) == a * b - a;
    }
    assert a * r >= 0;
    UniqueQuotient(n, a * b, q, a * r + n % a);
  }

  lemma UniqueQuotient(n: int, m: nat, q: int, r: int)
    requires m > 0 && n == q * m + r && 0 <= r < m
    ensures n / m == q
  {
    UniqueRemainder(n, m, q, r);
    assert (n / m - q) * m == 0 by {
      assert (n / m - q) * m == (n / m) * m - q * m;
    }
    MultipleBounds(n / m - q, m);
  }

  lemma Pow256Splits(a: nat, b: nat)
    ensures Pow256(a + b) == Pow256(a) * Pow256(b)
  {
    if a > 0 {
      Pow256Splits(a - 1, b);
    }
  }

  lemma MultipleOfBoth(q: int, p: nat, rest: nat)
    ensures q * (p * (256 * rest)) == q * rest * 256 * p
  {
    assert p * (256 * rest) == 256 * (p * rest);
    assert q * (p * rest) == q * rest * p;
  }

  lemma DigitOfRemainder(n: int, p: nat, rest: nat)
    requires p > 0 && rest > 0 && p * (256 * rest) > 0
    ensures n % (p * (256 * rest)) / p % 256 == n / p % 256
  {
    var m := p * (256 * rest);
    var q, r := n / m, n % m;
    var high, d := q * rest, r / p;
    MultipleOfBoth(q, p, rest);
    assert n == high * 256 * p + r;
    SumOfMultiples(high * 256, d, p);
    assert n == (high * 256 + d) * p + r % p;
    UniqueQuotient(n, p, high * 256 + d, r % p);
    UniqueRemainder(high * 256 + d, 256, high + d / 256, d % 256);
  }

  lemma SumOfMultiples(a: int, b: int, p: int)
    ensures a * p + b * p == (a + b) * p
  {
  }

  /** Reducing a number modulo a power of the base does not change its digits below that. */
  lemma DigitOfReduced(n: int, size: nat, k: nat)
    requires k < size
    ensures n % Pow256(size) / Pow256(k) % 256 == n / Pow256(k) % 256
  {
    Pow256Splits(k, size - k);
    DigitOfRemainder(n, Pow256(k), Pow256(size - k - 1));
  }

  lemma ReducedDigits(n: int, size: nat)
    ensures forall i | 0 <= i < size ::
              BigEndian(n % Pow256(size), size)[i] == n / Pow256(size - 1 - i) % 256
  {
    forall i | 0 <= i < size
      ensures BigEndian(n % Pow256(size), size)[i] == n / Pow256(size - 1 - i) % 256
    {
      BigEndianDigit(n % Pow256(size), size, i);
      DigitOfReduced(n, size, size - 1 - i);
    }
  }

  lemma IntegerSpelled(n: int)
    ensures Spells(Integer(n), U256Bytes(n))
  {
    ReducedDigits(n, WORD);
  }

  lemma {:induction false} SmallBigEndian(n: nat, size: nat, i: nat)
    requires n < 256 && i < size
    ensures BigEndian(n, size)[i] == if i == size - 1 then n else 0
    decreases size
  {
    if i < size - 1 {
      SmallBigEndian(0, size - 1, i);
    }
  }

  lemma SmallNumberDigits(n: nat, size: nat)
    requires n < 256 && size > 0
    ensures forall i | 0 <= i < size :: BigEndian(n % Pow256(size), size)[i] == if i == size - 1 then n else 0
  {
    UniqueRemainder(n, Pow256(size), 0, n);
    forall i | 0 <= i < size ensures BigEndian(n, size)[i] == if i == size - 1 then n else 0 {
      SmallBigEndian(n, size, i);
    }
  }

  lemma BooleanSpelled(b: bool)
    ensures Spells(Boolean(b), U256Bytes(if b then 1 else 0))
  {
    SmallNumberDigits(if b then 1 else 0, WORD);
  }

  /** No other words spell the value. */
  lemma {:induction false} SpelledOnce(v: Value, w: seq<Byte>, w': seq<Byte>)
    requires Spells(v, w) && Spells(v, w')
    ensures w == w'
    decreases v, 0
  {
    if v.Group? {
      PartsSpelledOnce(v.parts, |v.parts|, w, w');
    }
  }

  lemma {:induction false} PartsSpelledOnce(parts: seq<Value>, n: nat, w: seq<Byte>, w': seq<Byte>)
    requires n <= |parts| && SpellsParts(parts, n, w) && SpellsParts(parts, n, w')
    ensures w == w'
    decreases parts, n
  {
    if n > 0 {
      var at :| 0 <= at <= |w| && SpellsParts(parts, n - 1, w[..at]) && Spells(parts[n - 1], w[at..]);
      var at' :| 0 <= at' <= |w'| && SpellsParts(parts, n - 1, w'[..at']) && Spells(parts[n - 1], w'[at'..]);
      PartsSpelledOnce(parts, n - 1, w[..at], w'[..at']);
      SpelledOnce(parts[n - 1], w[at..], w'[at'..]);
      assert w == w[..at] + w[at..] && w' == w'[..at'] + w'[at'..];
    }
  }

  lemma {:induction false} WordsSpell(v: Value)
    requires Words(v).Some?
    ensures Spells(v, Words(v).value)
    decreases v, 0
  {
    match v
    case Integer(n) => IntegerSpelled(n);
    case Boolean(b) => BooleanSpelled(b);
    case Group(_, parts) => PartWordsSpell(parts, |parts|);
    case _ =>
  }

  lemma {:induction false} PartWordsSpell(parts: seq<Value>, n: nat)
    requires n <= |parts| && PartWords(parts, n).Some?
    ensures SpellsParts(parts, n, PartWords(parts, n).value)
    decreases parts, n
  {
    if n > 0 {
      PartWordsSpell(parts, n - 1);
      WordsSpell(parts[n - 1]);
      var init, last := PartWords(parts, n - 1).value, Words(parts[n - 1]).value;
      assert (init + last)[..|init|] == init && (init + last)[|init|..] == last;
    }
  }

  lemma {:induction false} SpelledIsSupported(v: Value, w: seq<Byte>)
    requires Spells(v, w)
    ensures Words(v).Some?
    decreases v, 0
  {
    if v.Group? {
      SpelledPartsAreSupported(v.parts, |v.parts|, w);
    }
  }

  lemma {:induction false} SpelledPartsAreSupported(parts: seq<Value>, n: nat, w: seq<Byte>)
    requires n <= |parts| && SpellsParts(parts, n, w)
    ensures PartWords(parts, n).Some?
    decreases parts, n
  {
    if n > 0 {
      var at :| 0 <= at <= |w| && SpellsParts(parts, n - 1, w[..at]) && Spells(parts[n - 1], w[at..]);
      SpelledPartsAreSupported(parts, n - 1, w[..at]);
      SpelledIsSupported(parts[n - 1], w[at..]);
    }
  }

  /** The encoder makes exactly the words that spell the value, and fails when there are none. */
  lemma WordsSpellExactly(v: Value, w: seq<Byte>)
    ensures Words(v) == Some(w) <==> Spells(v, w)
  {
    if Words(v).Some? {
      WordsSpell(v);
    }
    if Spells(v, w) {
      SpelledIsSupported(v, w);
      WordsSpell(v);
      SpelledOnce(v, w, Words(v).value);
    }
  }

  /** The contents of text and bytes at top level and the words of a group are hashed; a value type is
      its word. */
  ghost predicate IsTopic(v: Value, keccak: seq<Byte> -> seq<Byte>, t: seq<Byte>) {
    match v
    case Integer(_) => Spells(v, t)
    case Boolean(_) => Spells(v, t)
    case Address(_) => Spells(v, t)
    case String(s) => t == keccak(s)
    case Bytes(s) => t == keccak(s)
    case Group(_, _) => exists w :: Spells(v, w) && t == keccak(w)
    case _ => false
  }

  lemma TopicsSpell(v: Value, keccak: seq<Byte> -> seq<Byte>, t: seq<Byte>)
    ensures Topic(v, keccak) == Some(t) <==> IsTopic(v, keccak, t)
  {
    WordsSpellExactly(v, t);
    forall w ensures Words(v) == Some(w) <==> Spells(v, w) {
      WordsSpellExactly(v, w);
    }
  }

  // ----- the encoder

  method MakeWords(v: Value) returns (r: Option<seq<Byte>>)
    ensures r == Words(v) && forall w :: r == Some(w) <==> Spells(v, w)
    decreases v
  {
    forall w ensures Words(v) == Some(w) <==> Spells(v, w) {
      WordsSpellExactly(v, w);
    }
    match v
    case Bytes(s) => return Some(RightPad(s));
    case String(s) => return Some(RightPad(s));
    case Integer(n) => return Some(U256Bytes(n));
    case MalformedInteger => return None;
    case Boolean(b) => return Some(U256Bytes(if b then 1 else 0));
    case Address(raw) => return Some(Zeros(12) + Address20(raw));
    case NotSupported => return None;
    case Group(_, parts) =>
      var b: seq<Byte> := [];
      for i := 0 to |parts|
        invariant PartWords(parts, i) == Some(b)
      {
        var packed := MakeWords(parts[i]);
        if packed.None? {
          PartWordsFail(parts, i, |parts|);
          return None;
        }
        b := b + packed.value;
      }
      return Some(b);
  }

  lemma {:induction false} PartWordsFail(parts: seq<Value>, i: nat, n: nat)
    requires i < n <= |parts| && Words(parts[i]).None?
    ensures PartWords(parts, n).None?
  {
    if i < n - 1 {
      PartWordsFail(parts, i, n - 1);
    }
  }

  method NewTopic(v: Value, keccak: seq<Byte> -> seq<Byte>) returns (r: Option<seq<Byte>>)
    ensures r == Topic(v, keccak) && forall t :: r == Some(t) <==> IsTopic(v, keccak, t)
  {
    forall t ensures Topic(v, keccak) == Some(t) <==> IsTopic(v, keccak, t) {
      TopicsSpell(v, keccak, t);
    }
    if v.String? {
      return Some(keccak(v.utf8));
    }
    if v.Bytes? {
      return Some(keccak(v.bytes));
    }
    r := MakeWords(v);
    if !IsValueType(v) && r.Some? {
      r := Some(keccak(r.value));
    }
  }
}
