/**
 * The Base32 codec of the one-time-password helper (backend/src/modules/auth/totp.util.ts), with
 * its 32-bit shift registers, against the definition by groups of bits (RFC 4648, section 6).
 */
module Base32 {
  import opened Wrappers

  const ALPHABET := "ABCDEFGH" + "IJKLMNOP" + "QRSTUVWX" + "YZ234567"

  datatype CodecError = InvalidSecret

  // ---------- Bits of a register ----------

  function Mask(k: nat): bv32
    requires k < 12
  {
    if k == 0 then 1 else if k == 1 then 2 else if k == 2 then 4 else if k == 3 then 8
    else if k == 4 then 16 else if k == 5 then 32 else if k == 6 then 64 else if k == 7 then 128
    else if k == 8 then 256 else if k == 9 then 512 else if k == 10 then 1024 else 2048
  }

  predicate TestBit(v: bv32, k: nat)
    requires k < 12
  {
    v & Mask(k) != 0
  }

  /** The last n bits of a register, most significant first. */
  function Tail(v: bv32, n: nat): (s: seq<bool>)
    requires n <= 12
    ensures |s| == n
  {
    seq(n, i requires 0 <= i < n => TestBit(v, n - 1 - i))
  }

  lemma LowFive(v: bv32, j: nat)
    requires j < 5
    ensures TestBit(v & 31, j) == TestBit(v, j)
  {
  }

  lemma LowEight(v: bv32, j: nat)
    requires j < 8
    ensures TestBit(v & 255, j) == TestBit(v, j)
  {
  }

  lemma ByteIn(v: bv32, byte: bv32, j: nat)
    requires j < 12 && byte < 256
    ensures TestBit((v << 8) | byte, j) == if j < 8 then TestBit(byte, j) else TestBit(v, j - 8)
  {
  }

  lemma SymbolIn(v: bv32, symbol: bv32, j: nat)
    requires j < 12 && symbol < 32
    ensures TestBit((v << 5) | symbol, j) == if j < 5 then TestBit(symbol, j) else TestBit(v, j - 5)
  {
  }

  lemma RightBy0(v: bv32, k: nat, j: nat)
    requires k == 0 && j < 12
    ensures TestBit(v >> k, j) == TestBit(v, j + 0)
  {
    assert v >> k == v >> 0;
  }

  lemma RightBy1(v: bv32, k: nat, j: nat)
    requires k == 1 && j < 11
    ensures TestBit(v >> k, j) == TestBit(v, j + 1)
  {
    assert v >> k == v >> 1;
  }

  lemma RightBy2(v: bv32, k: nat, j: nat)
    requires k == 2 && j < 10
    ensures TestBit(v >> k, j) == TestBit(v, j + 2)
  {
    assert v >> k == v >> 2;
  }

  lemma RightBy3(v: bv32, k: nat, j: nat)
    requires k == 3 && j < 9
    ensures TestBit(v >> k, j) == TestBit(v, j + 3)
  {
    assert v >> k == v >> 3;
  }

  lemma RightBy4(v: bv32, k: nat, j: nat)
    requires k == 4 && j < 8
    ensures TestBit(v >> k, j) == TestBit(v, j + 4)
  {
    assert v >> k == v >> 4;
  }

  lemma RightBy5(v: bv32, k: nat, j: nat)
    requires k == 5 && j < 7
    ensures TestBit(v >> k, j) == TestBit(v, j + 5)
  {
    assert v >> k == v >> 5;
  }

  lemma RightBy6(v: bv32, k: nat, j: nat)
    requires k == 6 && j < 6
    ensures TestBit(v >> k, j) == TestBit(v, j + 6)
  {
    assert v >> k == v >> 6;
  }

  lemma RightBy7(v: bv32, k: nat, j: nat)
    requires k == 7 && j < 5
    ensures TestBit(v >> k, j) == TestBit(v, j + 7)
  {
    assert v >> k == v >> 7;
  }

  lemma ShiftedRight(v: bv32, k: nat, j: nat)
    requires k <= 7 && k + j < 12
    ensures TestBit(v >> k, j) == TestBit(v, k + j)
  {
    hide TestBit;
    if k == 0 {
      RightBy0(v, k, j);
    } else if k == 1 {
      RightBy1(v, k, j);
    } else if k == 2 {
      RightBy2(v, k, j);
    } else if k == 3 {
      RightBy3(v, k, j);
    } else if k == 4 {
      RightBy4(v, k, j);
    } else if k == 5 {
      RightBy5(v, k, j);
    } else if k == 6 {
      RightBy6(v, k, j);
    } else {
      RightBy7(v, k, j);
    }
  }

  lemma LeftBy1(v: bv32, k: nat, j: nat)
    requires k == 1 && j < 5
    ensures TestBit(v << k, j) == (j >= 1 && TestBit(v, j - 1))
  {
    assert v << k == v << 1;
  }

  lemma LeftBy2(v: bv32, k: nat, j: nat)
    requires k == 2 && j < 5
    ensures TestBit(v << k, j) == (j >= 2 && TestBit(v, j - 2))
  {
    assert v << k == v << 2;
  }

  lemma LeftBy3(v: bv32, k: nat, j: nat)
    requires k == 3 && j < 5
    ensures TestBit(v << k, j) == (j >= 3 && TestBit(v, j - 3))
  {
    assert v << k == v << 3;
  }

  lemma LeftBy4(v: bv32, k: nat, j: nat)
    requires k == 4 && j < 5
    ensures TestBit(v << k, j) == (j >= 4 && TestBit(v, j - 4))
  {
    assert v << k == v << 4;
  }

  lemma ShiftedLeft(v: bv32, k: nat, j: nat)
    requires 1 <= k <= 4 && j < 5
    ensures TestBit(v << k, j) == (j >= k && TestBit(v, j - k))
  {
    hide TestBit;
    if k == 1 {
      LeftBy1(v, k, j);
    } else if k == 2 {
      LeftBy2(v, k, j);
    } else if k == 3 {
      LeftBy3(v, k, j);
    } else {
      LeftBy4(v, k, j);
    }
  }

  // ---------- One register operation, as an operation on bits ----------

  lemma FeedByte(v: bv32, byte: bv32, bits: nat)
    requires bits <= 4 && byte < 256
    ensures Tail((v << 8) | byte, bits + 8) == Tail(v, bits) + Tail(byte, 8)
  {
    var w := (v << 8) | byte;
    forall i | 0 <= i < bits + 8 ensures Tail(w, bits + 8)[i] == (Tail(v, bits) + Tail(byte, 8))[i] {
      ByteIn(v, byte, bits + 7 - i);
    }
  }

  lemma FeedSymbol(v: bv32, symbol: bv32, bits: nat)
    requires bits <= 7 && symbol < 32
    ensures Tail((v << 5) | symbol, bits + 5) == Tail(v, bits) + Tail(symbol, 5)
  {
    var w := (v << 5) | symbol;
    forall i | 0 <= i < bits + 5 ensures Tail(w, bits + 5)[i] == (Tail(v, bits) + Tail(symbol, 5))[i] {
      SymbolIn(v, symbol, bits + 4 - i);
    }
  }

  /** A group that holds the topmost of the pending bits splits off them. */
  lemma TakeGroup(v: bv32, g: bv32, bits: nat, width: nat)
    requires width <= bits <= 12
    requires forall j | 0 <= j < width :: TestBit(g, j) == TestBit(v, bits - width + j)
    ensures Tail(g, width) + Tail(v, bits - width) == Tail(v, bits)
  {
    hide TestBit;
  }

  lemma TakeSymbol(v: bv32, bits: nat)
    requires 5 <= bits <= 12
    ensures Tail((v >> (bits - 5)) & 31, 5) + Tail(v, bits - 5) == Tail(v, bits)
  {
    hide TestBit;
    var k := bits - 5;
    var g := (v >> k) & 31;
    forall j | 0 <= j < 5 ensures TestBit(g, j) == TestBit(v, k + j) {
      LowFive(v >> k, j);
      ShiftedRight(v, k, j);
    }
    TakeGroup(v, g, bits, 5);
  }

  lemma TakeByte(v: bv32, bits: nat)
    requires 8 <= bits <= 12
    ensures Tail((v >> (bits - 8)) & 255, 8) + Tail(v, bits - 8) == Tail(v, bits)
  {
    hide TestBit;
    var k := bits - 8;
    var g := (v >> k) & 255;
    forall j | 0 <= j < 8 ensures TestBit(g, j) == TestBit(v, k + j) {
      LowEight(v >> k, j);
      ShiftedRight(v, k, j);
    }
    TakeGroup(v, g, bits, 8);
  }

  function Zeros(n: nat): seq<bool> {
    seq(n, _ => false)
  }

  lemma LastSymbol(v: bv32, bits: nat)
    requires 0 < bits <= 4
    ensures Tail((v << (5 - bits)) & 31, 5) == Tail(v, bits) + Zeros(5 - bits)
  {
    hide TestBit;
    var k := 5 - bits;
    var g := (v << k) & 31;
    forall j | 0 <= j < 5 ensures TestBit(g, j) == (j >= k && TestBit(v, j - k)) {
      LowFive(v << k, j);
      ShiftedLeft(v, k, j);
    }
  }

  // ---------- Streams of bits ----------

  /** The bits of a sequence of groups, each of the given width. */
  function Stream(groups: seq<bv32>, width: nat): (s: seq<bool>)
    requires width <= 12
    ensures |s| == width * |groups|
  {
    if groups == [] then []
    else Stream(groups[..|groups| - 1], width) + Tail(groups[|groups| - 1], width)
  }

  lemma StreamAppend(groups: seq<bv32>, g: bv32, width: nat)
    requires width <= 12
    ensures Stream(groups + [g], width) == Stream(groups, width) + Tail(g, width)
  {
    assert (groups + [g])[..|groups|] == groups;
  }

  lemma SameLowFive(a: bv32, b: bv32)
    requires forall j | 0 <= j < 5 :: TestBit(a, j) == TestBit(b, j)
    requires a < 32 && b < 32
    ensures a == b
  {
    assert TestBit(a, 0) == TestBit(b, 0) && TestBit(a, 1) == TestBit(b, 1) && TestBit(a, 2) == TestBit(b, 2)
        && TestBit(a, 3) == TestBit(b, 3) && TestBit(a, 4) == TestBit(b, 4);
  }

  lemma SameLowEight(a: bv32, b: bv32)
    requires forall j | 0 <= j < 8 :: TestBit(a, j) == TestBit(b, j)
    requires a < 256 && b < 256
    ensures a == b
  {
    assert TestBit(a, 0) == TestBit(b, 0) && TestBit(a, 1) == TestBit(b, 1) && TestBit(a, 2) == TestBit(b, 2)
        && TestBit(a, 3) == TestBit(b, 3) && TestBit(a, 4) == TestBit(b, 4) && TestBit(a, 5) == TestBit(b, 5)
        && TestBit(a, 6) == TestBit(b, 6) && TestBit(a, 7) == TestBit(b, 7);
  }

  lemma SameTail(a: bv32, b: bv32, width: nat)
    requires width == 5 || width == 8
    requires Tail(a, width) == Tail(b, width)
    requires a < (if width == 5 then 32 else 256) && b < (if width == 5 then 32 else 256)
    ensures a == b
  {
    hide TestBit;
    forall j | 0 <= j < width ensures TestBit(a, j) == TestBit(b, j) {
      assert Tail(a, width)[width - 1 - j] == Tail(b, width)[width - 1 - j];
    }
    if width == 5 {
      SameLowFive(a, b);
    } else {
      SameLowEight(a, b);
    }
  }

  ghost predicate Groups(groups: seq<bv32>, width: nat) {
    (width == 5 || width == 8) && forall i | 0 <= i < |groups| :: groups[i] < (if width == 5 then 32 else 256)
  }

  /** A stream of groups determines the groups. */
  lemma {:induction false} StreamInjective(a: seq<bv32>, b: seq<bv32>, width: nat)
    requires Groups(a, width) && Groups(b, width)
    requires Stream(a, width) == Stream(b, width)
    ensures a == b
  {
    assert width * |a| == width * |b|;
    assert |a| == |b|;
    if a != [] {
      var k := |a| - 1;
      var sa, sb := Stream(a[..k], width), Stream(b[..k], width);
      assert |sa| == |sb| == width * k;
      assert Stream(a, width)[..|sa|] == sa && Stream(b, width)[..|sa|] == sb;
      assert Stream(a, width)[|sa|..] == Tail(a[k], width) && Stream(b, width)[|sa|..] == Tail(b[k], width);
      StreamInjective(a[..k], b[..k], width);
      SameTail(a[k], b[k], width);
      assert a == a[..k] + [a[k]] && b == b[..k] + [b[k]];
    }
  }

  // ---------- The encoder ----------

  type Bytes = seq<bv8>

  function Widen(byte: bv8): (w: bv32)
    ensures w < 256
  {
    byte as bv32
  }

  function Narrow(v: bv32): (byte: bv8)
    requires v < 256
    ensures Widen(byte) == v
  {
    v as bv8
  }

  /** The bytes as register values. */
  function Wide(input: Bytes): (w: seq<bv32>)
    ensures |w| == |input| && forall i | 0 <= i < |w| :: w[i] == Widen(input[i])
    ensures Groups(w, 8)
  {
    seq(|input|, i requires 0 <= i < |input| => Widen(input[i]))
  }

  /** What the alphabet positions of an encoding are: the input's bits in fives, padded with zeros. */
  ghost predicate Encodes(input: Bytes, symbols: seq<bv32>) {
    && Groups(symbols, 5)
    && |symbols| == (8 * |input| + 4) / 5
    && Stream(symbols, 5) == Stream(Wide(input), 8) + Zeros(5 * |symbols| - 8 * |input|)
  }

  function Letters(symbols: seq<bv32>): (s: string)
    requires Groups(symbols, 5)
    ensures |s| == |symbols|
    ensures forall i | 0 <= i < |s| :: s[i] == ALPHABET[symbols[i] as int]
  {
    seq(|symbols|, i requires 0 <= i < |symbols| => ALPHABET[symbols[i] as int])
  }

  /** After some bytes: the symbols written and the pending bits are the bits read. */
  ghost predicate Encoding(read: Bytes, symbols: seq<bv32>, output: string, value: bv32, bits: nat) {
    && bits <= 12 && 5 * |symbols| + bits == 8 * |read|
    && Groups(symbols, 5) && output == Letters(symbols)
    && Stream(symbols, 5) + Tail(value, bits) == Stream(Wide(read), 8)
  }

  lemma ReadByte(read: Bytes, symbols: seq<bv32>, output: string, value: bv32, bits: nat, byte: bv8)
    requires Encoding(read, symbols, output, value, bits) && bits <= 4
    ensures Encoding(read + [byte], symbols, output, (value << 8) | Widen(byte), bits + 8)
  {
    hide Tail, Stream, Letters, Groups, Widen;
    FeedByte(value, Widen(byte), bits);
    assert Wide(read + [byte]) == Wide(read) + [Widen(byte)];
    StreamAppend(Wide(read), Widen(byte), 8);
  }

  lemma LettersAppend(symbols: seq<bv32>, symbol: bv32)
    requires Groups(symbols, 5) && symbol < 32
    ensures Groups(symbols + [symbol], 5)
    ensures Letters(symbols + [symbol]) == Letters(symbols) + [ALPHABET[symbol as int]]
  {
  }

  lemma WriteSymbol(read: Bytes, symbols: seq<bv32>, output: string, value: bv32, bits: nat)
    requires Encoding(read, symbols, output, value, bits) && bits >= 5
    ensures var symbol := (value >> (bits - 5)) & 31;
            symbol < 32 && Encoding(read, symbols + [symbol], output + [ALPHABET[symbol as int]], value, bits - 5)
  {
    hide Tail, Stream, Letters, Groups;
    var symbol := (value >> (bits - 5)) & 31;
    TakeSymbol(value, bits);
    StreamAppend(symbols, symbol, 5);
    LettersAppend(symbols, symbol);
  }

  lemma WriteLast(read: Bytes, symbols: seq<bv32>, output: string, value: bv32, bits: nat)
    requires Encoding(read, symbols, output, value, bits) && 0 < bits <= 4
    ensures var symbol := (value << (5 - bits)) & 31;
            symbol < 32 && Encodes(read, symbols + [symbol])
            && Letters(symbols + [symbol]) == output + [ALPHABET[symbol as int]]
  {
    hide Tail, Stream, Letters, Groups;
    var symbol := (value << (5 - bits)) & 31;
    LastSymbol(value, bits);
    StreamAppend(symbols, symbol, 5);
    LettersAppend(symbols, symbol);
  }

  lemma NothingPending(read: Bytes, symbols: seq<bv32>, output: string, value: bv32)
    requires Encoding(read, symbols, output, value, 0)
    ensures Encodes(read, symbols) && output == Letters(symbols)
  {
    hide Stream, Letters, Groups;
  }

  /** The alphabet positions the encoder writes for an input; there is only one choice. */
  lemma EncodingUnique(input: Bytes, a: seq<bv32>, b: seq<bv32>)
    requires Encodes(input, a) && Encodes(input, b)
    ensures a == b
  {
    StreamInjective(a, b, 5);
  }

  method EncodeBase32(input: Bytes) returns (output: string, ghost symbols: seq<bv32>)
    ensures Encodes(input, symbols) && output == Letters(symbols)
    ensures |output| == (8 * |input| + 4) / 5
  {
    hide Encoding, Tail, Stream, Letters, Groups;
    var bits: nat := 0;
    var value: bv32 := 0;
    output, symbols := "", [];
    StartEncoding(value);
    for n := 0 to |input|
      invariant bits <= 4 && Encoding(input[..n], symbols, output, value, bits)
    {
      ReadByte(input[..n], symbols, output, value, bits, input[n]);
      assert input[..n + 1] == input[..n] + [input[n]];
      value := (value << 8) | Widen(input[n]);
      bits := bits + 8;
      while bits >= 5
        invariant bits <= 12 && Encoding(input[..n + 1], symbols, output, value, bits)
      {
        WriteSymbol(input[..n + 1], symbols, output, value, bits);
        var symbol := (value >> (bits - 5)) & 31;
        output := output + [ALPHABET[symbol as int]];
        symbols := symbols + [symbol];
        bits := bits - 5;
      }
    }
    assert input[..|input|] == input;
    if bits > 0 {
      WriteLast(input, symbols, output, value, bits);
      var symbol := (value << (5 - bits)) & 31;
      output := output + [ALPHABET[symbol as int]];
      symbols := symbols + [symbol];
    } else {
      NothingPending(input, symbols, output, value);
    }
  }

  lemma StartEncoding(value: bv32)
    ensures Encoding([], [], "", value, 0)
  {
  }

  // ---------- The decoder ----------

  /**
   * A character in upper case. Beyond ASCII only the characters whose upper case is made of letters of
   * the alphabet are mapped; any other has some character outside it, before and after.
   */
  function Upper(c: char): string {
    if 'a' <= c <= 'z' then [(c as int - 'a' as int + 'A' as int) as char]
    else if c == '\U{0131}' then "I"
    else if c == '\U{017F}' then "S"
    else if c == '\U{00DF}' then "SS"
    else if c == '\U{FB00}' then "FF"
    else if c == '\U{FB01}' then "FI"
    else if c == '\U{FB02}' then "FL"
    else if c == '\U{FB03}' then "FFI"
    else if c == '\U{FB04}' then "FFL"
    else if c == '\U{FB05}' || c == '\U{FB06}' then "ST"
    else [c]
  }

  function Uppercased(text: string): string {
    if text == "" then "" else Upper(text[0]) + Uppercased(text[1..])
  }

  /** What the decoder walks over: the text without its padding, in upper case. */
  function Cleaned(text: string): string {
    Uppercased(TrimPadding(text))
  }

  /** The text without trailing padding signs. */
  function TrimPadding(text: string): (s: string)
    ensures s <= text && (s == "" || s[|s| - 1] != '=')
    ensures forall i | |s| <= i < |text| :: text[i] == '='
  {
    if text != "" && text[|text| - 1] == '=' then TrimPadding(text[..|text| - 1]) else text
  }

  /** A character's position in the alphabet, or -1. */
  function IndexOf(c: char): (k: int)
    ensures -1 <= k < 32
  {
    if 'A' <= c <= 'Z' then c as int - 'A' as int
    else if '2' <= c <= '7' then c as int - '2' as int + 26
    else -1
  }

  function LetterAt(k: nat): char
    requires k < 32
  {
    if k < 26 then ('A' as int + k) as char else ('2' as int + k - 26) as char
  }

  lemma LetterIndex(k: nat)
    requires k < 32
    ensures ALPHABET[k] == LetterAt(k) && IndexOf(ALPHABET[k]) == k && Upper(ALPHABET[k]) == [ALPHABET[k]]
  {
    if k < 8 {
      assert ALPHABET[k] == "ABCDEFGH"[k];
    } else if k < 16 {
      assert ALPHABET[k] == "IJKLMNOP"[k - 8];
    } else if k < 24 {
      assert ALPHABET[k] == "QRSTUVWX"[k - 16];
    } else {
      assert ALPHABET[k] == "YZ234567"[k - 24];
    }
  }

  /** A character has a position exactly when it is in the alphabet, and it is the letter there. */
  lemma IndexOfLetter(c: char)
    ensures IndexOf(c) >= 0 <==> c in ALPHABET
    ensures IndexOf(c) >= 0 ==> ALPHABET[IndexOf(c)] == c
  {
    forall k: nat | k < 32 ensures IndexOf(ALPHABET[k]) == k {
      LetterIndex(k);
    }
    if IndexOf(c) >= 0 {
      LetterIndex(IndexOf(c));
      assert c == LetterAt(IndexOf(c));
    }
  }

  /** Every character is a letter of the alphabet. */
  predicate Readable(text: string) {
    forall i | 0 <= i < |text| :: IndexOf(text[i]) >= 0
  }

  function ToRegister(k: int): (p: bv32)
    requires 0 <= k < 32
    ensures p < 32
  {
    (k as bv32) & 31
  }

  function Position(c: char): (p: bv32)
    requires IndexOf(c) >= 0
    ensures p < 32
  {
    ToRegister(IndexOf(c))
  }

  lemma RegisterOf(v: bv32)
    requires v < 32
    ensures 0 <= v as int < 32 && ToRegister(v as int) == v
  {
  }

  /** The alphabet positions of a readable text. */
  function Positions(text: string): (s: seq<bv32>)
    requires Readable(text)
    ensures |s| == |text| && Groups(s, 5)
    ensures forall i | 0 <= i < |s| :: s[i] == Position(text[i])
  {
    seq(|text|, i requires 0 <= i < |text| => Position(text[i]))
  }

  /** The bytes whose bits are the symbols' bits, as far as they make up whole bytes. */
  ghost predicate Decodes(symbols: seq<bv32>, bytes: Bytes) {
    && |bytes| == 5 * |symbols| / 8
    && Stream(Wide(bytes), 8) <= Stream(symbols, 5)
  }

  ghost predicate Decoding(read: seq<bv32>, bytes: Bytes, buffer: bv32, bits: nat) {
    && bits <= 12 && 8 * |bytes| + bits == 5 * |read|
    && Stream(Wide(bytes), 8) + Tail(buffer, bits) == Stream(read, 5)
  }

  lemma ReadSymbol(read: seq<bv32>, bytes: Bytes, buffer: bv32, bits: nat, index: bv32)
    requires Decoding(read, bytes, buffer, bits) && bits <= 7 && index < 32
    ensures Decoding(read + [index], bytes, (buffer << 5) | index, bits + 5)
  {
    hide Tail, Stream;
    FeedSymbol(buffer, index, bits);
    StreamAppend(read, index, 5);
  }

  lemma WriteByte(read: seq<bv32>, bytes: Bytes, buffer: bv32, bits: nat)
    requires Decoding(read, bytes, buffer, bits) && bits >= 8
    ensures var byte := (buffer >> (bits - 8)) & 255;
            byte < 256 && Decoding(read, bytes + [Narrow(byte)], buffer, bits - 8)
  {
    hide Tail, Stream;
    var byte := (buffer >> (bits - 8)) & 255;
    TakeByte(buffer, bits);
    var narrow := Narrow(byte);
    assert Wide(bytes + [narrow]) == Wide(bytes) + [byte];
    StreamAppend(Wide(bytes), byte, 8);
  }

  method DecodeBase32(text: string) returns (r: Result<Bytes, CodecError>)
    ensures r.Ok? <==> Readable(Cleaned(text))
    ensures r.Ok? ==> Decodes(Positions(Cleaned(text)), r.value)
  {
    hide Decoding, Tail, Stream, Groups, IndexOf, Upper, Uppercased, TrimPadding, ToRegister, Decodes;
    var bits: nat := 0;
    var buffer: bv32 := 0;
    var bytes: Bytes := [];
    var clean := Cleaned(text);
    ghost var read: seq<bv32> := [];
    StartDecoding(buffer);
    for n := 0 to |clean|
      invariant Readable(clean[..n]) && read == Positions(clean[..n])
      invariant bits <= 7 && Decoding(read, bytes, buffer, bits)
    {
      var index := IndexOf(clean[n]);
      if index < 0 {
        return Err(InvalidSecret);
      }
      var symbol := ToRegister(index);
      ReadSymbol(read, bytes, buffer, bits, symbol);
      buffer := (buffer << 5) | symbol;
      bits := bits + 5;
      read := read + [symbol];
      assert clean[..n + 1] == clean[..n] + [clean[n]];
      if bits >= 8 {
        WriteByte(read, bytes, buffer, bits);
        bytes := bytes + [Narrow((buffer >> (bits - 8)) & 255)];
        bits := bits - 8;
      }
    }
    assert clean[..|clean|] == clean;
    EndDecoding(read, bytes, buffer, bits);
    return Ok(bytes);
  }

  lemma StartDecoding(buffer: bv32)
    ensures Decoding([], [], buffer, 0)
  {
  }

  lemma EndDecoding(read: seq<bv32>, bytes: Bytes, buffer: bv32, bits: nat)
    requires Decoding(read, bytes, buffer, bits) && bits <= 7
    ensures Decodes(read, bytes)
  {
    hide Tail, Stream;
  }

  // ---------- Round trips ----------

  lemma DecodingUnique(symbols: seq<bv32>, a: Bytes, b: Bytes)
    requires Decodes(symbols, a) && Decodes(symbols, b)
    ensures a == b
  {
    assert Stream(Wide(a), 8) == Stream(symbols, 5)[..8 * |a|] == Stream(Wide(b), 8);
    StreamInjective(Wide(a), Wide(b), 8);
    assert forall i | 0 <= i < |a| :: Wide(a)[i] == Wide(b)[i];
  }

  /** The bits of an encoding, cut to whole bytes, are the bytes that were encoded. */
  lemma DecodingUndoesEncoding(input: Bytes, symbols: seq<bv32>, bytes: Bytes)
    requires Encodes(input, symbols) && Decodes(symbols, bytes)
    ensures bytes == input
  {
    DecodingUnique(symbols, bytes, input);
  }

  /** Text that reads as the encoder's, whatever the case of its letters and its padding. */
  ghost predicate SpellingOf(text: string, output: string) {
    Cleaned(text) == output
  }

  /** Letter by letter in either case is a spelling. */
  lemma {:induction false} SpelledLetterByLetter(text: string, output: string)
    requires |text| == |output| && forall i | 0 <= i < |text| :: Upper(text[i]) == [output[i]]
    ensures Uppercased(text) == output
  {
    if text != "" {
      SpelledLetterByLetter(text[1..], output[1..]);
      assert output == [output[0]] + output[1..];
    }
  }

  lemma SpelledPositions(text: string, symbols: seq<bv32>)
    requires Groups(symbols, 5) && SpellingOf(text, Letters(symbols))
    ensures Readable(Cleaned(text)) && Positions(Cleaned(text)) == symbols
  {
    hide IndexOf, Upper, Uppercased, TrimPadding;
    var clean := Cleaned(text);
    forall i | 0 <= i < |clean| ensures IndexOf(clean[i]) >= 0 && Position(clean[i]) == symbols[i] {
      PositionOfLetter(symbols[i]);
    }
  }

  lemma PositionOfLetter(symbol: bv32)
    requires symbol < 32
    ensures 0 <= symbol as int < 32
    ensures IndexOf(ALPHABET[symbol as int]) >= 0 && Position(ALPHABET[symbol as int]) == symbol
  {
    hide ToRegister;
    RegisterOf(symbol);
    LetterIndex(symbol as int);
  }

  lemma {:induction false} PaddingTrimmed(output: string, pad: nat)
    requires output == "" || output[|output| - 1] != '='
    ensures TrimPadding(output + Padding(pad)) == output
  {
    if pad == 0 {
      assert output + Padding(0) == output;
    } else {
      PaddingTrimmed(output, pad - 1);
      var text := output + Padding(pad);
      assert text[..|text| - 1] == output + Padding(pad - 1);
    }
  }

  /** An encoding in either case, followed by any number of padding signs, is a spelling of itself. */
  lemma PaddedSpelling(symbols: seq<bv32>, written: string, pad: nat)
    requires Groups(symbols, 5) && |written| == |symbols|
    requires forall i | 0 <= i < |written| :: written[i] in EitherCase(symbols[i])
    ensures SpellingOf(written + Padding(pad), Letters(symbols))
  {
    hide IndexOf, TrimPadding, Padding, Upper, Uppercased, EitherCase;
    var output := Letters(symbols);
    forall i | 0 <= i < |written| ensures written[i] != '=' && Upper(written[i]) == [output[i]] {
      PlainLetter(symbols[i], written[i]);
    }
    PaddingTrimmed(written, pad);
    SpelledLetterByLetter(written, output);
  }

  /** The letter of a symbol and its lower case; a digit has no other. */
  function EitherCase(symbol: bv32): set<char>
    requires symbol < 32
  {
    var letter := ALPHABET[symbol as int];
    {letter, if 'A' <= letter <= 'Z' then (letter as int + 32) as char else letter}
  }

  lemma PlainLetter(symbol: bv32, c: char)
    requires symbol < 32 && c in EitherCase(symbol)
    ensures c != '=' && Upper(c) == [ALPHABET[symbol as int]]
  {
    LetterIndex(symbol as int);
  }

  function Padding(n: nat): string {
    seq(n, _ => '=')
  }

  /** No symbol beyond the last whole byte, and no bit set after it. */
  ghost predicate Canonical(symbols: seq<bv32>) {
    var whole := 8 * (5 * |symbols| / 8);
    && |symbols| == (whole + 4) / 5
    && Stream(symbols, 5)[whole..] == Zeros(5 * |symbols| - whole)
  }

  /** Encoding what was decoded gives the same symbols back exactly for canonical ones. */
  lemma EncodingUndoesDecoding(symbols: seq<bv32>, bytes: Bytes, again: seq<bv32>)
    requires Groups(symbols, 5) && Decodes(symbols, bytes) && Encodes(bytes, again)
    ensures again == symbols <==> Canonical(symbols)
  {
    hide Groups, Tail;
    var whole := 8 * |bytes|;
    var bits := Stream(symbols, 5);
    assert bits == bits[..whole] + bits[whole..];
    assert bits[..whole] == Stream(Wide(bytes), 8);
    if Canonical(symbols) {
      EncodingUnique(bytes, again, symbols);
    }
  }

  /** Decoding any spelling of an encoding gives the encoded bytes back, whatever their number. */
  method RoundTrip(input: Bytes, text: string) returns (r: Result<Bytes, CodecError>)
    requires forall symbols | Encodes(input, symbols) :: SpellingOf(text, Letters(symbols))
    ensures r == Ok(input)
  {
    var output, symbols := EncodeBase32(input);
    SpelledPositions(text, symbols);
    r := DecodeBase32(text);
    DecodingUndoesEncoding(input, symbols, r.value);
  }

  lemma KnownByte()
    ensures Tail(0x66, 8) == [false, true, true, false, false, true, true, false]
  {
    var byte: bv32 := 0x66;
    assert byte & 128 == 0 && byte & 64 == 64 && byte & 32 == 32 && byte & 16 == 0;
    assert byte & 8 == 0 && byte & 4 == 4 && byte & 2 == 2 && byte & 1 == 0;
    assert Tail(byte, 8) == [false, true, true, false, false, true, true, false];
  }

  lemma KnownFirst()
    ensures Tail(12, 5) == [false, true, true, false, false]
  {
    var first: bv32 := 12;
    assert first & 16 == 0 && first & 8 == 8 && first & 4 == 4 && first & 2 == 0 && first & 1 == 0;
    assert Tail(first, 5) == [false, true, true, false, false];
  }

  lemma KnownSecond()
    ensures Tail(24, 5) == [true, true, false, false, false]
  {
    var second: bv32 := 24;
    assert second & 16 == 16 && second & 8 == 8 && second & 4 == 0 && second & 2 == 0 && second & 1 == 0;
    assert Tail(second, 5) == [true, true, false, false, false];
  }

  /** The two letters for the byte 0x66: 01100 110|00. */
  lemma KnownSymbols()
    ensures Encodes([0x66], [12, 24])
  {
    hide Tail;
    KnownByte();
    KnownFirst();
    KnownSecond();
    var wide := Wide([0x66]);
    assert wide == [0x66];
    StreamAppend([], 0x66, 8);
    StreamAppend([], 12, 5);
    StreamAppend([12], 24, 5);
    assert [] + [0x66 as bv32] == wide && [] + [12 as bv32] == [12] && [12 as bv32] + [24] == [12, 24];
  }

  /** The first of the known answers of RFC 4648, section 10: the byte of "f" is written MY. */
  method KnownAnswer() returns (output: string)
    ensures output == "MY"
  {
    KnownSymbols();
    ghost var symbols;
    output, symbols := EncodeBase32([0x66]);
    EncodingUnique([0x66], symbols, [12, 24]);
    LetterIndex(12);
    LetterIndex(24);
  }
}
