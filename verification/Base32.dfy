/**
  The base32 encoder of server identities (apps/desktop/src/security/identity.ts:6-30). Its
  accumulator is a signed 32-bit number that is never masked, so it overflows from the fourth
  byte on. The reference is the unpadded encoding of section 6 of RFC 4648, with the lower-case
  alphabet the source uses.
 */
module Base32 {
  import opened Base
  import opened Arith

  const ALPHABET := "abcdefghijklmnopqrstuvwxyz234567"

  // ----- 32-bit arithmetic of the source

  const WORD := 0x1_0000_0000

  /** Wrap-around into the signed 32-bit range. */
  function ToInt32(x: int): (r: int)
    ensures -0x8000_0000 <= r < 0x8000_0000
  {
    if x % WORD < 0x8000_0000 then x % WORD else x % WORD - WORD
  }

  function Pow2(k: nat): (r: nat)
    ensures r > 0
  {
    if k == 0 then 1 else 2 * Pow2(k - 1)
  }

  /** `(value << 8) | byte`: the shifted value has a zero low byte. */
  function ShiftIn(value: int, b: byte): int {
    ToInt32(value * 256) + b as int
  }

  /** `(value >> k) & 31`: arithmetic shift, then the five low bits of the two's complement. */
  function ShiftRight5(value: int, k: nat): (r: nat)
    ensures r < 32
  {
    (value / Pow2(k)) % 32
  }

  /** `(value << k) & 31`. */
  function ShiftLeft5(value: int, k: nat): (r: nat)
    ensures r < 32
  {
    ToInt32(value * Pow2(k)) % 32
  }

  // ----- bit strings

  type bit = b: nat | b < 2

  /** A bit string read as a number, first bit highest. */
  function Value(bs: seq<bit>): (r: nat)
    decreases |bs|
  {
    if bs == [] then 0 else 2 * Value(bs[..|bs| - 1]) + bs[|bs| - 1]
  }

  /** The low `k` bits of a number, highest first. */
  function Digits(v: nat, k: nat): (r: seq<bit>)
    ensures |r| == k
    decreases k
  {
    if k == 0 then [] else Digits(v / 2, k - 1) + [v % 2]
  }

  function BitsOf(input: Bytes): (r: seq<bit>)
    ensures |r| == 8 * |input|
    decreases |input|
  {
    if input == [] then [] else BitsOf(input[..|input| - 1]) + Digits(input[|input| - 1] as nat, 8)
  }

  function Zeros(k: nat): (r: seq<bit>)
    ensures |r| == k
  {
    if k == 0 then [] else Zeros(k - 1) + [0]
  }

  lemma Doubled(a: int, b: int)
    ensures 2 * (a * b) == a * (2 * b)
  {
  }

  lemma {:induction false} ValueConcat(x: seq<bit>, y: seq<bit>)
    ensures Value(x + y) == Value(x) * Pow2(|y|) + Value(y)
    decreases |y|
  {
    if y == [] {
      assert x + y == x;
    } else {
      var n := |y| - 1;
      assert (x + y)[..|x + y| - 1] == x + y[..n] && (x + y)[|x + y| - 1] == y[n];
      ValueConcat(x, y[..n]);
      Doubled(Value(x), Pow2(n));
    }
  }

  lemma {:induction false} ValueBound(bs: seq<bit>)
    ensures Value(bs) < Pow2(|bs|)
    decreases |bs|
  {
    if bs != [] {
      ValueBound(bs[..|bs| - 1]);
    }
  }

  lemma {:induction false} ValueOfDigits(v: nat, k: nat)
    requires v < Pow2(k)
    ensures Value(Digits(v, k)) == v
    decreases k
  {
    if k > 0 {
      ValueOfDigits(v / 2, k - 1);
      assert Digits(v, k)[..k - 1] == Digits(v / 2, k - 1);
    }
  }

  lemma {:induction false} DigitsOfValue(bs: seq<bit>)
    ensures Digits(Value(bs), |bs|) == bs
    decreases |bs|
  {
    if bs != [] {
      DigitsOfValue(bs[..|bs| - 1]);
    }
  }

  lemma {:induction false} ZerosAreZero(k: nat)
    ensures Value(Zeros(k)) == 0
  {
    if k > 0 {
      ZerosAreZero(k - 1);
      assert Zeros(k)[..k - 1] == Zeros(k - 1);
    }
  }

  // ----- the reference encoding

  /** Five bits at a time, the last group filled up with zeros. */
  function Quintets(bs: seq<bit>): (r: seq<nat>)
    ensures |r| == (|bs| + 4) / 5
    ensures forall i :: 0 <= i < |r| ==> r[i] < 32
    decreases |bs|
  {
    if bs == [] then []
    else if |bs| < 5 then
      QuintetBound(bs + Zeros(5 - |bs|));
      [Value(bs + Zeros(5 - |bs|))]
    else
      QuintetBound(bs[..5]);
      [Value(bs[..5])] + Quintets(bs[5..])
  }

  lemma QuintetBound(bs: seq<bit>)
    requires |bs| == 5
    ensures Value(bs) < 32
  {
    ValueBound(bs);
    assert Pow2(5) == 32;
  }

  function Spell(qs: seq<nat>): (r: string)
    requires forall i :: 0 <= i < |qs| ==> qs[i] < 32
    ensures |r| == |qs|
  {
    seq(|qs|, i requires 0 <= i < |qs| => ALPHABET[qs[i]])
  }

  function Encoding(input: Bytes): (r: string)
    ensures |r| == (8 * |input| + 4) / 5
  {
    Spell(Quintets(BitsOf(input)))
  }

  // ----- the accumulator

  /** The lost high bits never matter: only the low `bits` bits of the accumulator are tied to the input. */
  ghost predicate Holds(value: int, pending: seq<bit>) {
    value % Pow2(|pending|) == Value(pending)
  }

  lemma Pow2Values()
    ensures Pow2(1) == 2 && Pow2(2) == 4 && Pow2(3) == 8 && Pow2(4) == 16 && Pow2(5) == 32 && Pow2(6) == 64
    ensures Pow2(7) == 128 && Pow2(8) == 256 && Pow2(9) == 512 && Pow2(10) == 1024 && Pow2(11) == 2048
        && Pow2(12) == 4096
  {
    assert Pow2(4) == 16;
    assert Pow2(8) == 256;
  }

  /** Wrapping does not change a residue whose modulus divides the word size. */
  lemma WrapKeepsResidue(x: int, m: int, c: int)
    requires m > 0 && c * m == WORD
    ensures ToInt32(x) % m == x % m
  {
    var j := if x % WORD < 0x8000_0000 then x / WORD else x / WORD + 1;
    assert ToInt32(x) == x - j * WORD;
    assert j * WORD == (j * c) * m;
    Spread(x / m, j * c, m);
    ModIs(ToInt32(x), x / m - j * c, x % m, m);
  }

  lemma ShiftInMod(value: int, b: byte, m: int, c: int)
    requires m > 0 && c * (m * 256) == WORD
    ensures ShiftIn(value, b) % (m * 256) == (value % m) * 256 + b as int
  {
    var w, r := ToInt32(value * 256), value % m;
    WrapKeepsResidue(value * 256, m * 256, c);
    assert value * 256 == (value / m) * (m * 256) + r * 256;
    ModIs(value * 256, value / m, r * 256, m * 256);
    ModIs(w + b as int, w / (m * 256), r * 256 + b as int, m * 256);
  }

  lemma PowersDivideWord(bits: nat) returns (c: nat)
    requires bits <= 4
    ensures c * (Pow2(bits) * 256) == WORD
    ensures Pow2(bits + 8) == Pow2(bits) * 256
  {
    Pow2Values();
    c := match bits
      case 0 => 0x100_0000
      case 1 => 0x80_0000
      case 2 => 0x40_0000
      case 3 => 0x20_0000
      case _ => 0x10_0000;
  }

  /** A whole byte enters. */
  lemma ByteEnters(value: int, pending: seq<bit>, b: byte)
    requires Holds(value, pending) && |pending| <= 4
    ensures Holds(ShiftIn(value, b), pending + Digits(b as nat, 8))
  {
    var c := PowersDivideWord(|pending|);
    ShiftInMod(value, b, Pow2(|pending|), c);
    ValueConcat(pending, Digits(b as nat, 8));
    Pow2Values();
    ValueOfDigits(b as nat, 8);
  }

  /** The low `s + 5` bits are five bits above the low `s`. */
  lemma SplitMod(value: int, m: int)
    requires m > 0
    ensures ((value / m) % 32) * m + value % m == value % (m * 32)
  {
    var q, r := value / m, value % m;
    var h, l := q / 32, q % 32;
    Regroup(h, l, m);
    Below(l, r, m);
    ModIs(value, h, l * m + r, m * 32);
  }

  lemma Regroup(h: int, l: int, m: int)
    ensures (h * 32 + l) * m == h * (m * 32) + l * m
  {
  }

  lemma Below(l: int, r: int, m: int)
    requires 0 <= l < 32 && 0 <= r < m
    ensures 0 <= l * m + r < m * 32
  {
    assert l * m <= 31 * m;
  }

  lemma {:induction false} Pow2Adds(j: nat, k: nat)
    ensures Pow2(j + k) == Pow2(j) * Pow2(k)
  {
    if k > 0 {
      Pow2Adds(j, k - 1);
      assert 2 * (Pow2(j) * Pow2(k - 1)) == Pow2(j) * (2 * Pow2(k - 1));
    }
  }

  /** A group of five leaves: the index is its value, the rest stays pending. */
  lemma QuintetLeaves(value: int, pending: seq<bit>)
    requires Holds(value, pending) && 5 <= |pending| <= 12
    ensures ShiftRight5(value, |pending| - 5) == Value(pending[..5])
    ensures Holds(value, pending[5..])
  {
    var s := |pending| - 5;
    Pow2Adds(s, 5);
    Pow2Values();
    SplitMod(value, Pow2(s));
    assert pending[..5] + pending[5..] == pending;
    ValueConcat(pending[..5], pending[5..]);
    ValueBound(pending[5..]);
    UniqueSplit(ShiftRight5(value, s), value % Pow2(s), Value(pending[..5]), Value(pending[5..]), Pow2(s));
  }

  /** The left shift keeps the five low bits of the product, wrap-around or not. */
  lemma ShiftLeftIs(value: int, k: nat)
    ensures ShiftLeft5(value, k) == (value * Pow2(k)) % 32
  {
    WrapKeepsResidue(value * Pow2(k), 32, WORD / 32);
  }

  /** Filled up with zeros, the pending bits are shifted left. */
  lemma FilledValue(pending: seq<bit>, k: nat)
    ensures Value(pending + Zeros(k)) == Value(pending) * Pow2(k)
  {
    ValueConcat(pending, Zeros(k));
    ZerosAreZero(k);
  }

  lemma FiveBits(n: nat, k: nat)
    requires n + k == 5
    ensures Pow2(n) * Pow2(k) == 32
  {
    Pow2Adds(n, k);
    Pow2Values();
  }

  /** The last group is filled with zeros. */
  lemma RestLeaves(value: int, pending: seq<bit>)
    requires Holds(value, pending) && 1 <= |pending| <= 4
    ensures ShiftLeft5(value, 5 - |pending|) == Value(pending + Zeros(5 - |pending|))
  {
    var k, m := 5 - |pending|, Pow2(|pending|);
    assert value % m == Value(pending);
    hide *;
    ShiftLeftIs(value, k);
    FilledValue(pending, k);
    FiveBits(|pending|, k);
    FillMod(value, m, Pow2(k));
  }

  lemma FillMod(value: int, m: int, n: int)
    requires m > 0 && n > 0
    ensures (value * n) % (m * n) == (value % m) * n
  {
    var q, r := value / m, value % m;
    assert value * n == q * (m * n) + r * n by {
      assert value == q * m + r;
    }
    assert 0 <= r * n < m * n by {
      assert r * n <= (m - 1) * n;
      Spread(m, 1, n);
    }
    ModIs(value * n, q, r * n, m * n);
  }

  // ----- the encoder

  lemma {:induction false} QuintetsConcat(x: seq<bit>, y: seq<bit>)
    requires |x| % 5 == 0
    ensures Quintets(x + y) == Quintets(x) + Quintets(y)
    decreases |x|
  {
    if x == [] {
      assert x + y == y;
    } else {
      assert (x + y)[..5] == x[..5] && (x + y)[5..] == x[5..] + y;
      QuintetsConcat(x[5..], y);
    }
  }

  lemma SpellConcat(a: seq<nat>, b: seq<nat>)
    requires forall i :: 0 <= i < |a| ==> a[i] < 32
    requires forall i :: 0 <= i < |b| ==> b[i] < 32
    ensures Spell(a + b) == Spell(a) + Spell(b)
  {
  }

  /** The output spells the finished groups, and the stream is the finished groups and the pending bits. */
  ghost predicate Written(stream: seq<bit>, output: string, pending: seq<bit>) {
    var n := |stream| - |pending|;
    && n >= 0 && n % 5 == 0
    && stream[n..] == pending
    && output == Spell(Quintets(stream[..n]))
  }

  lemma WriteQuintet(stream: seq<bit>, output: string, pending: seq<bit>)
    requires Written(stream, output, pending) && |pending| >= 5
    ensures Value(pending[..5]) < 32
    ensures Written(stream, output + [ALPHABET[Value(pending[..5])]], pending[5..])
  {
    var n := |stream| - |pending|;
    var g := pending[..5];
    QuintetBound(g);
    assert stream[..n + 5] == stream[..n] + g && stream[n + 5..] == pending[5..];
    QuintetsConcat(stream[..n], g);
    assert g[..5] == g && g[5..] == [];
    assert Quintets(g) == [Value(g)];
    SpellConcat(Quintets(stream[..n]), [Value(g)]);
  }

  lemma WrittenAppend(stream: seq<bit>, output: string, pending: seq<bit>, more: seq<bit>)
    requires Written(stream, output, pending)
    ensures Written(stream + more, output, pending + more)
  {
    var n := |stream| - |pending|;
    assert (stream + more)[..n] == stream[..n] && (stream + more)[n..] == pending + more;
    hide Spell, Quintets;
  }

  lemma WriteByte(input: Bytes, i: nat, output: string, pending: seq<bit>)
    requires i < |input| && Written(BitsOf(input[..i]), output, pending)
    ensures Written(BitsOf(input[..i + 1]), output, pending + Digits(input[i] as nat, 8))
  {
    hide Written, Digits;
    assert input[..i + 1][..i] == input[..i];
    assert BitsOf(input[..i + 1]) == BitsOf(input[..i]) + Digits(input[i] as nat, 8);
    WrittenAppend(BitsOf(input[..i]), output, pending, Digits(input[i] as nat, 8));
  }

  lemma WriteRest(stream: seq<bit>, output: string, pending: seq<bit>)
    requires Written(stream, output, pending) && |pending| <= 4
    ensures pending == [] ==> output == Spell(Quintets(stream))
    ensures pending != [] ==>
              && Value(pending + Zeros(5 - |pending|)) < 32
              && output + [ALPHABET[Value(pending + Zeros(5 - |pending|))]] == Spell(Quintets(stream))
  {
    var n := |stream| - |pending|;
    hide Value, Zeros, Spell;
    assert stream[..n] + pending == stream;
    QuintetsConcat(stream[..n], pending);
    if pending != [] {
      QuintetBound(pending + Zeros(5 - |pending|));
      assert Quintets(pending) == [Value(pending + Zeros(5 - |pending|))];
      hide Quintets;
      SpellConcat(Quintets(stream[..n]), Quintets(pending));
      SpellOne(Value(pending + Zeros(5 - |pending|)));
    } else {
      assert stream[..n] == stream;
    }
  }

  lemma SpellOne(q: nat)
    requires q < 32
    ensures Spell([q]) == [ALPHABET[q]]
  {
  }

  /** What the last, partly filled group adds. */
  lemma LastLetter(value: int, input: Bytes, output: string, pending: seq<bit>)
    requires Written(BitsOf(input), output, pending) && |pending| <= 4 && Holds(value, pending)
    ensures |pending| == 0 ==> output == Encoding(input)
    ensures |pending| > 0 ==> output + [ALPHABET[ShiftLeft5(value, 5 - |pending|)]] == Encoding(input)
  {
    WriteRest(BitsOf(input), output, pending);
    if pending != [] {
      RestLeaves(value, pending);
    }
  }

  /** The inner loop: groups of five leave until fewer than five bits are pending. */
  method EmitQuintets(value: int, bits: nat, output: string, ghost stream: seq<bit>, ghost pending: seq<bit>)
    returns (left: nat, text: string, ghost rest: seq<bit>)
    requires |pending| == bits <= 12 && Holds(value, pending) && Written(stream, output, pending)
    ensures |rest| == left <= 4 && Holds(value, rest) && Written(stream, text, rest)
  {
    left, text, rest := bits, output, pending;
    while left >= 5
      invariant |rest| == left <= 12 && Holds(value, rest)
      invariant Written(stream, text, rest)
    {
      QuintetLeaves(value, rest);
      WriteQuintet(stream, text, rest);
      var index := ShiftRight5(value, left - 5);
      text := text + [ALPHABET[index]];
      left := left - 5;
      rest := rest[5..];
    }
  }

  lemma NothingWritten(input: Bytes)
    ensures Holds(0, []) && Written(BitsOf(input[..0]), "", [])
  {
    assert BitsOf(input[..0]) == [];
  }

  /** The last letter: the bits that are left, filled up with zeros. */
  method EmitRest(ghost input: Bytes, value: int, bits: nat, output: string,
                  ghost pending: seq<bit>) returns (text: string)
    requires |pending| == bits <= 4 && Holds(value, pending) && Written(BitsOf(input), output, pending)
    ensures text == Encoding(input)
  {
    hide Encoding, Written, Holds, BitsOf, ShiftLeft5;
    LastLetter(value, input, output, pending);
    text := output;
    if bits > 0 {
      var index := ShiftLeft5(value, 5 - bits);
      text := text + [ALPHABET[index]];
    }
  }

  /** `base32Encode`: for byte strings of every length the wrapping encoder is the reference encoding. */
  method Base32Encode(input: Bytes) returns (output: string)
    ensures output == Encoding(input)
  {
    hide *;
    var bits: nat, value := 0, 0;
    output := "";
    ghost var pending: seq<bit> := [];
    NothingWritten(input);
    for i := 0 to |input|
      invariant |pending| == bits <= 4 && Holds(value, pending)
      invariant Written(BitsOf(input[..i]), output, pending)
    {
      ByteEnters(value, pending, input[i]);
      WriteByte(input, i, output, pending);
      value := ShiftIn(value, input[i]);
      bits, output, pending := EmitQuintets(value, bits + 8, output, BitsOf(input[..i + 1]),
                                            pending + Digits(input[i] as nat, 8));
    }
    assert input[..|input|] == input;
    output := EmitRest(input, value, bits, output, pending);
  }

  // ----- the reference decoder

  function SymbolValue(c: char): (r: Option<nat>)
    ensures r.Some? ==> r.value < 32
  {
    if 'a' <= c <= 'z' then Some(c as int - 'a' as int)
    else if '2' <= c <= '7' then Some(c as int - '2' as int + 26)
    else None
  }

  function Unspell(s: string): (r: Option<seq<nat>>)
    ensures r.Some? ==> |r.value| == |s| && forall i :: 0 <= i < |s| ==> r.value[i] < 32
  {
    if s == "" then Some([])
    else match (SymbolValue(s[0]), Unspell(s[1..]))
      case (Some(v), Some(vs)) => Some([v] + vs)
      case _ => None
  }

  function BitsOfQuintets(qs: seq<nat>): seq<bit> {
    if qs == [] then [] else Digits(qs[0], 5) + BitsOfQuintets(qs[1..])
  }

  /** Whole bytes from the front; what is left over is fill. */
  function BytesOf(bs: seq<bit>): Bytes
    decreases |bs|
  {
    if |bs| < 8 then []
    else
      ByteBound(bs[..8]);
      [Value(bs[..8]) as byte] + BytesOf(bs[8..])
  }

  lemma ByteBound(bs: seq<bit>)
    requires |bs| == 8
    ensures Value(bs) < 256
  {
    ValueBound(bs);
    Pow2Values();
  }

  function Decoding(s: string): Option<Bytes> {
    match Unspell(s)
    case Some(qs) => Some(BytesOf(BitsOfQuintets(qs)))
    case None => None
  }

  lemma FirstLetters(i: nat)
    requires i < 16
    ensures SymbolValue(ALPHABET[i]) == Some(i)
  {
    if i < 8 {
      assert ALPHABET[0] == 'a' && ALPHABET[1] == 'b' && ALPHABET[2] == 'c' && ALPHABET[3] == 'd';
      assert ALPHABET[4] == 'e' && ALPHABET[5] == 'f' && ALPHABET[6] == 'g' && ALPHABET[7] == 'h';
    } else {
      assert ALPHABET[8] == 'i' && ALPHABET[9] == 'j' && ALPHABET[10] == 'k' && ALPHABET[11] == 'l';
      assert ALPHABET[12] == 'm' && ALPHABET[13] == 'n' && ALPHABET[14] == 'o' && ALPHABET[15] == 'p';
    }
  }

  lemma LetterAt(i: nat)
    requires i < 32
    ensures SymbolValue(ALPHABET[i]) == Some(i)
  {
    if i < 16 {
      FirstLetters(i);
    } else if i < 24 {
      assert ALPHABET[16] == 'q' && ALPHABET[17] == 'r' && ALPHABET[18] == 's' && ALPHABET[19] == 't';
      assert ALPHABET[20] == 'u' && ALPHABET[21] == 'v' && ALPHABET[22] == 'w' && ALPHABET[23] == 'x';
    } else {
      assert ALPHABET[24] == 'y' && ALPHABET[25] == 'z' && ALPHABET[26] == '2' && ALPHABET[27] == '3';
      assert ALPHABET[28] == '4' && ALPHABET[29] == '5' && ALPHABET[30] == '6' && ALPHABET[31] == '7';
    }
  }

  lemma {:induction false} UnspellSpell(qs: seq<nat>)
    requires forall i :: 0 <= i < |qs| ==> qs[i] < 32
    ensures Unspell(Spell(qs)) == Some(qs)
  {
    if qs != [] {
      LetterAt(qs[0]);
      assert Spell(qs)[1..] == Spell(qs[1..]) && Spell(qs)[0] == ALPHABET[qs[0]];
      UnspellSpell(qs[1..]);
      assert [qs[0]] + qs[1..] == qs;
    }
  }

  /** Groups expand to the bits they came from, and fewer than five fill bits. */
  lemma {:induction false} ExpandQuintets(bs: seq<bit>)
    ensures var fill := 5 * |Quintets(bs)| - |bs|;
            0 <= fill < 5 && BitsOfQuintets(Quintets(bs)) == bs + Zeros(fill)
    decreases |bs|
  {
    hide Value, Digits, Zeros;
    if bs == [] {
      NoZeros();
      assert BitsOfQuintets([]) == [];
    } else if |bs| < 5 {
      DigitsOfValue(bs + Zeros(5 - |bs|));
      ExpandFirst(Value(bs + Zeros(5 - |bs|)), []);
      assert BitsOfQuintets([]) == [];
      assert [Value(bs + Zeros(5 - |bs|))] + [] == Quintets(bs);
    } else {
      DigitsOfValue(bs[..5]);
      ExpandQuintets(bs[5..]);
      ExpandFirst(Value(bs[..5]), Quintets(bs[5..]));
      assert bs[..5] + bs[5..] == bs;
    }
  }

  lemma NoZeros()
    ensures Zeros(0) == []
  {
  }

  lemma ExpandFirst(q: nat, qs: seq<nat>)
    ensures BitsOfQuintets([q] + qs) == Digits(q, 5) + BitsOfQuintets(qs)
  {
    assert ([q] + qs)[1..] == qs;
  }

  lemma {:induction false} BitsOfFront(input: Bytes)
    requires input != []
    ensures BitsOf(input) == Digits(input[0] as nat, 8) + BitsOf(input[1..])
    decreases |input|
  {
    hide Digits, BitsOf;
    var n := |input| - 1;
    if n == 0 {
      NoBits();
      BitsOfSnoc([], input[0]);
      assert input[..0] == [] && input[1..] == [] && input == [] + [input[0]];
    } else {
      var front := input[..n];
      BitsOfFront(front);
      var mid := front[1..];
      assert input[1..] == mid + [input[n]] && input == front + [input[n]];
      BitsOfSnoc(mid, input[n]);
      BitsOfSnoc(front, input[n]);
    }
  }

  lemma NoBits()
    ensures BitsOf([]) == []
  {
  }

  lemma BitsOfSnoc(front: Bytes, b: byte)
    ensures BitsOf(front + [b]) == BitsOf(front) + Digits(b as nat, 8)
  {
    hide Digits;
    assert (front + [b])[..|front|] == front;
  }

  lemma FirstByte(b: byte, rest: seq<bit>)
    ensures BytesOf(Digits(b as nat, 8) + rest) == [b] + BytesOf(rest)
  {
    var bs := Digits(b as nat, 8) + rest;
    assert bs[..8] == Digits(b as nat, 8) && bs[8..] == rest;
    Pow2Values();
    ValueOfDigits(b as nat, 8);
  }

  lemma {:induction false} BytesOfBits(input: Bytes, fill: seq<bit>)
    requires |fill| < 8
    ensures BytesOf(BitsOf(input) + fill) == input
    decreases |input|
  {
    if input == [] {
      assert BitsOf(input) + fill == fill;
    } else {
      BytesOfBits(input[1..], fill);
      PeelByte(input, fill);
      assert [input[0]] + input[1..] == input;
    }
  }

  lemma PeelByte(input: Bytes, fill: seq<bit>)
    requires input != []
    ensures BytesOf(BitsOf(input) + fill) == [input[0]] + BytesOf(BitsOf(input[1..]) + fill)
  {
    hide Digits, BytesOf, BitsOf;
    BitsOfFront(input);
    var rest := BitsOf(input[1..]) + fill;
    assert BitsOf(input) + fill == Digits(input[0] as nat, 8) + rest;
    FirstByte(input[0], rest);
  }

  /** The decoder recovers every input. */
  lemma DecodesBack(input: Bytes)
    ensures Decoding(Encoding(input)) == Some(input)
  {
    var qs := Quintets(BitsOf(input));
    UnspellSpell(qs);
    ExpandQuintets(BitsOf(input));
    BytesOfBits(input, Zeros(5 * |qs| - 8 * |input|));
  }

  /** Different byte strings, of equal length or not, never share an encoding. */
  lemma EncodingIsInjective(a: Bytes, b: Bytes)
    requires Encoding(a) == Encoding(b)
    ensures a == b
  {
    DecodesBack(a);
    DecodesBack(b);
  }

  // ----- letter by letter

  /** The `k`-th bit of the input, the highest of each byte first, and zero past its end. */
  function InputBit(input: Bytes, k: nat): bit {
    if k < 8 * |input| then (input[k / 8] as int / [128, 64, 32, 16, 8, 4, 2, 1][k % 8]) % 2 else 0
  }

  lemma HalfFirst(v: nat, p: nat)
    requires p > 0
    ensures v / 2 / p == v / (2 * p)
  {
    var q, r := v / 2 / p, v / 2 % p;
    assert v == 2 * (v / 2) + v % 2 && v / 2 == q * p + r;
    Doubled(q, p);
    ModIs(v, q, 2 * r + v % 2, 2 * p);
  }

  lemma {:induction false} DigitAt(v: nat, k: nat, i: nat)
    requires i < k
    ensures Digits(v, k)[i] == v / Pow2(k - 1 - i) % 2
    decreases k
  {
    if i < k - 1 {
      DigitAt(v / 2, k - 1, i);
      HalfFirst(v, Pow2(k - 2 - i));
    }
  }

  lemma ByteBit(b: byte, i: nat)
    requires i < 8
    ensures Digits(b as nat, 8)[i] == b as int / [128, 64, 32, 16, 8, 4, 2, 1][i] % 2
  {
    DigitAt(b as nat, 8, i);
    Pow2Values();
    hide Digits;
    assert Pow2(7 - i) == [128, 64, 32, 16, 8, 4, 2, 1][i];
  }

  lemma {:induction false} BitAt(input: Bytes, k: nat)
    requires k < 8 * |input|
    ensures BitsOf(input)[k] == InputBit(input, k)
    decreases |input|
  {
    var n := |input| - 1;
    if k < 8 * n {
      BitAt(input[..n], k);
    } else {
      ByteBit(input[n], k - 8 * n);
      assert k / 8 == n && k % 8 == k - 8 * n;
      hide Digits;
    }
  }

  function BitOrZero(bs: seq<bit>, k: nat): bit {
    if k < |bs| then bs[k] else 0
  }

  lemma ValueOfFive(bs: seq<bit>)
    requires |bs| == 5
    ensures Value(bs) == 16 * bs[0] as nat + 8 * bs[1] as nat + 4 * bs[2] as nat + 2 * bs[3] as nat + bs[4] as nat
  {
    assert bs[..4][..3] == bs[..3] && bs[..3][..2] == bs[..2] && bs[..2][..1] == bs[..1] && bs[..1][..0] == [];
    assert Value(bs[..1]) == bs[0];
    assert Value(bs[..2]) == 2 * bs[0] as nat + bs[1] as nat;
    assert Value(bs[..3]) == 4 * bs[0] as nat + 2 * bs[1] as nat + bs[2] as nat;
    assert Value(bs[..4]) == 8 * bs[0] as nat + 4 * bs[1] as nat + 2 * bs[2] as nat + bs[3] as nat;
  }

  lemma {:induction false} ZeroAt(k: nat, i: nat)
    requires i < k
    ensures Zeros(k)[i] == 0
  {
    if i < k - 1 {
      ZeroAt(k - 1, i);
    }
  }

  lemma {:induction false} QuintetAt(bs: seq<bit>, j: nat)
    requires j < |Quintets(bs)|
    ensures Quintets(bs)[j] == 16 * BitOrZero(bs, 5 * j) + 8 * BitOrZero(bs, 5 * j + 1)
                               + 4 * BitOrZero(bs, 5 * j + 2) + 2 * BitOrZero(bs, 5 * j + 3) + BitOrZero(bs, 5 * j + 4)
    decreases j
  {
    if j > 0 {
      QuintetAt(bs[5..], j - 1);
      assert forall k: nat :: BitOrZero(bs[5..], k) == BitOrZero(bs, k + 5);
    } else if |bs| >= 5 {
      ValueOfFive(bs[..5]);
    } else {
      var filled := bs + Zeros(5 - |bs|);
      ValueOfFive(filled);
      forall k: nat | k < 5 ensures filled[k] == BitOrZero(bs, k) {
        if k >= |bs| {
          ZeroAt(5 - |bs|, k - |bs|);
        }
      }
    }
  }

  /** Letter `j` spells the five input bits from number 5j on, as section 6 of RFC 4648 has it, in lower case. */
  lemma LetterIs(input: Bytes, j: nat)
    requires j < |Encoding(input)|
    ensures var q := 16 * InputBit(input, 5 * j) + 8 * InputBit(input, 5 * j + 1) + 4 * InputBit(input, 5 * j + 2)
                     + 2 * InputBit(input, 5 * j + 3) + InputBit(input, 5 * j + 4);
            Encoding(input)[j] == "abcdefghijklmnopqrstuvwxyz234567"[q]
  {
    var bs := BitsOf(input);
    forall k: nat ensures BitOrZero(bs, k) == InputBit(input, k) {
      if k < |bs| {
        BitAt(input, k);
      }
    }
    hide InputBit, BitsOf, Quintets;
    QuintetAt(bs, j);
  }
}
