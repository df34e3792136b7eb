/** The indexer's hand-written ABI decoding, over hexadecimal strings and Go's 64-bit ints, against the
    Solidity Contract ABI Specification ("Formal Specification of the Encoding", "Events"). */
module Abi {
  import opened Types
  import P = Projection
  import W = World
  import I = Instance

  type Byte = b: int | 0 <= b < 256
  type Bytes = seq<Byte>

  // ---- Hexadecimal --------------------------------------------------------------------------

  function HexDigit(n: nat): char
    requires n < 16
  {
    "0123456789abcdef"[n]
  }

  function HexValue(c: char): Option<nat> {
    if '0' <= c <= '9' then Some((c - '0') as nat)
    else if 'a' <= c <= 'f' then Some((c - 'a') as nat + 10)
    else if 'A' <= c <= 'F' then Some((c - 'A') as nat + 10)
    else None
  }

  function HexOf(bs: Bytes): string {
    if bs == [] then "" else HexOf(bs[..|bs| - 1]) + [HexDigit(bs[|bs| - 1] / 16), HexDigit(bs[|bs| - 1] % 16)]
  }

  /** big.Int.SetString(s, 16) on unsigned digits. */
  function ParseHex(s: string): Option<nat>
    requires s != ""
  {
    var last := HexValue(s[|s| - 1]);
    if last.None? then None
    else if |s| == 1 then last
    else
      var init := ParseHex(s[..|s| - 1]);
      if init.None? then None else Some(16 * init.value + last.value)
  }

  /** hex.DecodeString */
  function HexDecode(s: string): Option<Bytes> {
    if s == "" then Some([])
    else if |s| == 1 then None
    else
      var high, low, init := HexValue(s[|s| - 2]), HexValue(s[|s| - 1]), HexDecode(s[..|s| - 2]);
      if high.None? || low.None? || init.None? || high.value >= 16 || low.value >= 16 then None
      else Some(init.value + [16 * high.value + low.value])
  }

  function Lower(c: char): char { if 'A' <= c <= 'Z' then ((c - 'A') + 'a') else c }

  function ToLower(s: string): string { seq(|s|, i requires 0 <= i < |s| => Lower(s[i])) }

  function TrimPrefix(s: string): string { if "0x" <= s then s[2..] else s }

  function Zeros(n: nat): string { seq(n, i => '0') }

  // ---- The decoder --------------------------------------------------------------------------

  /** A Go slice expression data[start:end]; None is a run-time panic. */
  function Slice(data: string, start: int, end: int): Option<string> {
    if 0 <= start <= end <= |data| then Some(data[start..end]) else None
  }

  function SlotHex(data: string, idx: int): (r: Option<string>)
    ensures r.Some? ==> |r.value| == 64
  {
    var start := Wrap64(idx * 64);
    var end := Wrap64(start + 64);
    if |data| < end then Some(Zeros(64))
    else if end < start then None
    else Slice(data, start, end)
  }

  function SlotToInt(data: string, idx: int): Option<int> {
    match SlotHex(data, idx)
    case None => None
    case Some(s) => match ParseHex(s) case None => Some(0) case Some(n) => Some(Wrap64(n))
  }

  function SlotToAddr(data: string, idx: int): Option<string> {
    match SlotHex(data, idx)
    case None => None
    case Some(s) => Some("0x" + ToLower(s[24..]))
  }

  function SlotToBool(data: string, idx: int): Option<bool> {
    match SlotHex(data, idx)
    case None => None
    case Some(s) => Some(s[62..] == "01")
  }

  /** Go's `/` on ints truncates toward zero. */
  function Quotient(x: int, d: nat): int
    requires d > 0
  {
    if x >= 0 then x / d else -((-x) / d)
  }

  function DecodeString(data: string, slot: int): Option<Bytes> {
    match SlotToInt(data, slot)
    case None => None
    case Some(offset) =>
      var lenSlot := Quotient(offset, 32);
      match SlotToInt(data, lenSlot)
      case None => None
      case Some(length) => DecodeContent(data, lenSlot, length)
  }

  function DecodeContent(data: string, lenSlot: int, length: int): Option<Bytes> {
    if length == 0 then Some([])
    else
      var dataStart := Wrap64(Wrap64(lenSlot + 1) * 64);
      var dataEnd := Wrap64(dataStart + Wrap64(length * 2));
      if |data| < dataEnd then Some([])
      else match Slice(data, dataStart, dataEnd)
           case None => None
           case Some(s) => match HexDecode(s) case None => Some([]) case Some(b) => Some(b)
  }

  function DecodeArrayLength(data: string, slot: int): Option<int> {
    match SlotToInt(data, slot)
    case None => None
    case Some(offset) => SlotToInt(data, Quotient(offset, 32))
  }

  function TopicToAddr(topic: string): string {
    var t := TrimPrefix(topic);
    if |t| < 40 then "0x" + Zeros(40) else "0x" + ToLower(t[|t| - 40..])
  }

  /** topicToBigInt(topic).Int64() */
  function TopicToInt64(topic: string): int {
    var t := TrimPrefix(topic);
    if t == "" then 0 else match ParseHex(t) case None => 0 case Some(n) => Wrap64(n)
  }

  /** big.Int.String() of a number that is not negative. */
  function Decimal(n: nat): string {
    if n < 10 then [DecimalDigit(n)] else Decimal(n / 10) + [DecimalDigit(n % 10)]
  }

  function DecimalDigit(n: nat): char
    requires n < 10
  {
    "0123456789"[n]
  }

  function SlotToUint256Str(data: string, idx: int): Option<string> {
    match SlotHex(data, idx)
    case None => None
    case Some(s) => match ParseHex(s) case None => Some("0") case Some(n) => Some(Decimal(n))
  }

  function SlotToBytes32(data: string, idx: int): Option<string> {
    match SlotHex(data, idx)
    case None => None
    case Some(s) => Some("0x" + ToLower(s))
  }

  function MasjidStatusStr(v: int): string {
    if v == 1 then "pending"
    else if v == 2 then "rejected"
    else if v == 3 then "verified"
    else if v == 4 then "flagged"
    else if v == 5 then "revoked"
    else "none"
  }

  /** masjidStatusStr(uint8(slotToInt(data, idx))) */
  function SlotToStatus(data: string, idx: int): Option<string> {
    match SlotToInt(data, idx)
    case None => None
    case Some(n) => Some(MasjidStatusStr(n % 256))
  }

  // ---- The encoder, from the specification --------------------------------------------------

  function BigEndian(n: nat, width: nat): (r: Bytes)
    ensures |r| == width
  {
    if width == 0 then [] else BigEndian(n / 256, width - 1) + [n % 256]
  }

  /** uint256 */
  function Word(n: nat): (r: Bytes)
    ensures |r| == 32
  {
    BigEndian(n, 32)
  }

  function ZeroBytes(n: nat): Bytes { seq(n, i => 0) }

  type RawAddress = a: Bytes | |a| == 20 witness ZeroBytes(20)

  /** An address is left-padded to a word. */
  function AddressWord(a: RawAddress): (r: Bytes)
    ensures |r| == 32
  {
    ZeroBytes(12) + a
  }

  function PaddingOf(n: nat): nat { (32 - n % 32) % 32 }

  /** bytes and string: the length, then the content right-padded to whole words. */
  function EncodeBytes(b: Bytes): Bytes { Word(|b|) + b + ZeroBytes(PaddingOf(|b|)) }

  function EncodeAddresses(board: seq<RawAddress>): Bytes {
    if board == [] then [] else EncodeAddresses(board[..|board| - 1]) + AddressWord(board[|board| - 1])
  }

  /** The non-indexed data of MasjidRegistered: (string, string, address, address[]). */
  function EncodeRegistered(name: Bytes, uri: Bytes, stablecoin: RawAddress, board: seq<RawAddress>): Bytes {
    var nameTail, uriTail := EncodeBytes(name), EncodeBytes(uri);
    Word(128) + Word(128 + |nameTail|) + AddressWord(stablecoin) + Word(128 + |nameTail| + |uriTail|)
    + nameTail + uriTail + (Word(|board|) + EncodeAddresses(board))
  }

  /** The non-indexed data of MasjidAttested: (bool, uint32, uint32). */
  function EncodeAttested(support: bool, yes: nat, no: nat): Bytes {
    Word(if support then 1 else 0) + Word(yes) + Word(no)
  }

  // ---- Decoding undoes encoding -------------------------------------------------------------

  lemma {:induction false} HexLength(bs: Bytes)
    ensures |HexOf(bs)| == 2 * |bs|
  {
    if bs == [] {
    } else {
      HexLength(bs[..|bs| - 1]);
    }
  }

  lemma {:induction false} HexAppends(a: Bytes, b: Bytes)
    ensures HexOf(a + b) == HexOf(a) + HexOf(b)
    decreases |b|
  {
    if b == [] {
      assert a + b == a;
    } else {
      assert (a + b)[..|a + b| - 1] == a + b[..|b| - 1];
      HexAppends(a, b[..|b| - 1]);
    }
  }

  /** Bytes i to j of the data are digits 2i to 2j of the string. */
  lemma HexSlice(bs: Bytes, i: nat, j: nat)
    requires i <= j <= |bs|
    ensures |HexOf(bs)| == 2 * |bs| && HexOf(bs)[2 * i..2 * j] == HexOf(bs[i..j])
  {
    HexAppends(bs[..i], bs[i..j]);
    HexAppends(bs[..j], bs[j..]);
    assert bs == bs[..j] + bs[j..] && bs[..j] == bs[..i] + bs[i..j];
    HexLength(bs);
    HexLength(bs[..i]);
    HexLength(bs[..j]);
    HexLength(bs[i..j]);
  }

  lemma DigitValue(n: nat)
    requires n < 16
    ensures HexValue(HexDigit(n)) == Some(n) && Lower(HexDigit(n)) == HexDigit(n)
  {
  }

  function ToNat(bs: Bytes): nat {
    if bs == [] then 0 else 256 * ToNat(bs[..|bs| - 1]) + bs[|bs| - 1]
  }

  lemma ByteDigits(b: Byte)
    ensures HexValue(HexDigit(b / 16)) == Some(b / 16) && HexValue(HexDigit(b % 16)) == Some(b % 16)
    ensures b / 16 < 16 && b % 16 < 16 && 16 * (b / 16) + b % 16 == b
  {
  }

  lemma ParseHexAppends(s: string, c: char, value: nat, digit: nat)
    requires if s == "" then value == 0 else ParseHex(s) == Some(value)
    requires HexValue(c) == Some(digit)
    ensures ParseHex(s + [c]) == Some(16 * value + digit)
  {
  }

  lemma {:induction false} ParseHexOf(bs: Bytes)
    requires bs != []
    ensures HexOf(bs) != "" && ParseHex(HexOf(bs)) == Some(ToNat(bs))
  {
    hide HexValue, HexDigit, ParseHex;
    var init, last := bs[..|bs| - 1], bs[|bs| - 1];
    var high, low := HexDigit(last / 16), HexDigit(last % 16);
    ByteDigits(last);
    if init != [] { ParseHexOf(init); }
    ParseHexAppends(HexOf(init), high, ToNat(init), last / 16);
    ParseHexAppends(HexOf(init) + [high], low, 16 * ToNat(init) + last / 16, last % 16);
    assert HexOf(bs) == HexOf(init) + [high] + [low];
  }

  lemma HexDecodeAppends(s: string, high: char, low: char, bs: Bytes, b: Byte)
    requires HexDecode(s) == Some(bs)
    requires HexValue(high) == Some(b / 16) && HexValue(low) == Some(b % 16)
    ensures HexDecode(s + [high, low]) == Some(bs + [b])
  {
  }

  lemma {:induction false} HexDecodeOf(bs: Bytes)
    ensures HexDecode(HexOf(bs)) == Some(bs)
  {
    hide HexValue, HexDigit;
    if bs == [] {
    } else {
      var init, last := bs[..|bs| - 1], bs[|bs| - 1];
      hide HexDecode;
      HexDecodeOf(init);
      ByteDigits(last);
      HexDecodeAppends(HexOf(init), HexDigit(last / 16), HexDigit(last % 16), init, last);
      assert bs == init + [last];
    }
  }

  lemma {:induction false} LowerHex(bs: Bytes)
    ensures ToLower(HexOf(bs)) == HexOf(bs)
  {
    if bs == [] {
    } else {
      LowerHex(bs[..|bs| - 1]);
      var last := bs[|bs| - 1];
      DigitValue(last / 16);
      DigitValue(last % 16);
      var s, init := HexOf(bs), HexOf(bs[..|bs| - 1]);
      forall i | 0 <= i < |s| ensures Lower(s[i]) == s[i] {
        if i < |init| { assert ToLower(init)[i] == init[i]; }
      }
    }
  }

  function Pow256(k: nat): nat { if k == 0 then 1 else 256 * Pow256(k - 1) }

  lemma {:induction false} BigEndianToNat(n: nat, width: nat)
    requires n < Pow256(width)
    ensures ToNat(BigEndian(n, width)) == n
  {
    if width == 0 {
    } else {
      BigEndianToNat(n / 256, width - 1);
    }
  }

  lemma {:induction false} Pow256Grows(j: nat, k: nat)
    requires j <= k
    ensures Pow256(j) <= Pow256(k)
  {
    if j == k {
    } else {
      Pow256Grows(j, k - 1);
    }
  }

  lemma WordToNat(n: nat)
    requires n <= MAX_UINT256
    ensures ToNat(Word(n)) == n
  {
    PowersOf256();
    BigEndianToNat(n, 32);
  }

  lemma PowersOf256()
    ensures Pow256(32) == MAX_UINT256 + 1
  {
    SmallPower();
    hide Pow256;
    PowAdds(4, 4);
    PowAdds(8, 8);
    PowAdds(16, 16);
  }

  lemma SmallPower()
    ensures Pow256(4) == 0x1_0000_0000
  {
  }

  lemma {:induction false} PowAdds(j: nat, k: nat)
    ensures Pow256(j + k) == Pow256(j) * Pow256(k)
    decreases j
  {
    if j == 0 {
    } else {
      PowAdds(j - 1, k);
    }
  }

  lemma WrapKeeps(x: int)
    requires -TWO_63 <= x < TWO_63
    ensures Wrap64(x) == x
  {
  }

  /** Slot `idx` of well-formed data is the word at byte 32 * idx. */
  lemma SlotIsWord(bs: Bytes, idx: nat)
    requires 32 * (idx + 1) <= |bs| && 2 * |bs| < TWO_63
    ensures SlotHex(HexOf(bs), idx) == Some(HexOf(bs[32 * idx..32 * idx + 32]))
  {
    hide HexOf, Wrap64;
    HexSlice(bs, 32 * idx, 32 * idx + 32);
    WrapKeeps(idx * 64);
    WrapKeeps(idx * 64 + 64);
  }

  lemma SlotReadsWord(bs: Bytes, idx: nat, n: nat)
    requires 32 * (idx + 1) <= |bs| && 2 * |bs| < TWO_63
    requires bs[32 * idx..32 * idx + 32] == Word(n) && n <= MAX_UINT256
    ensures SlotHex(HexOf(bs), idx) == Some(HexOf(Word(n)))
    ensures HexOf(Word(n)) != "" && ParseHex(HexOf(Word(n))) == Some(n)
  {
    hide HexOf, Wrap64, Word, ParseHex, SlotHex, ToNat, MAX_UINT256;
    SlotIsWord(bs, idx);
    ParseHexOf(Word(n));
    WordToNat(n);
  }

  /** A slot read as an int64 is the low half of its word, as a signed number: the word itself if and only
      if it is below 2^63. */
  lemma SlotReadsInt64(bs: Bytes, idx: nat, n: nat)
    requires 32 * (idx + 1) <= |bs| && 2 * |bs| < TWO_63
    requires bs[32 * idx..32 * idx + 32] == Word(n) && n <= MAX_UINT256
    ensures SlotToInt(HexOf(bs), idx) == Some(Wrap64(n))
    ensures SlotToInt(HexOf(bs), idx) == Some(n) <==> n < TWO_63
  {
    hide HexOf, Word, ParseHex, SlotHex, MAX_UINT256;
    SlotReadsWord(bs, idx, n);
  }

  lemma SlotReadsInt(bs: Bytes, idx: nat, n: nat)
    requires 32 * (idx + 1) <= |bs| && 2 * |bs| < TWO_63
    requires bs[32 * idx..32 * idx + 32] == Word(n) && n < TWO_63
    ensures SlotToInt(HexOf(bs), idx) == Some(n)
  {
    hide HexOf, Word, SlotToInt, Wrap64;
    SlotReadsInt64(bs, idx, n);
  }

  /** A string whose head word, at slot `slot`, points at its encoding decodes to itself. */
  lemma StringDecodes(bs: Bytes, slot: nat, offset: nat, content: Bytes)
    requires 32 * (slot + 1) <= |bs| && 2 * |bs| < TWO_63
    requires bs[32 * slot..32 * slot + 32] == Word(offset) && offset % 32 == 0
    requires offset + 32 + |content| <= |bs|
    requires bs[offset..offset + 32] == Word(|content|)
    requires bs[offset + 32..offset + 32 + |content|] == content
    ensures DecodeString(HexOf(bs), slot) == Some(content)
  {
    hide SlotToInt, DecodeContent, HexOf, Word;
    var lenSlot := offset / 32;
    assert Quotient(offset, 32) == lenSlot && 32 * lenSlot == offset;
    SlotReadsInt(bs, slot, offset);
    SlotReadsInt(bs, lenSlot, |content|);
    ContentDecodes(bs, lenSlot, content);
  }

  lemma ContentDecodes(bs: Bytes, lenSlot: nat, content: Bytes)
    requires 32 * lenSlot + 32 + |content| <= |bs| && 2 * |bs| < TWO_63
    requires bs[32 * lenSlot + 32..32 * lenSlot + 32 + |content|] == content
    ensures DecodeContent(HexOf(bs), lenSlot, |content|) == Some(content)
  {
    hide HexDecode, HexOf, Wrap64, Slice;
    ContentIsSliced(bs, lenSlot, content);
    HexDecodeOf(content);
  }

  lemma ContentIsSliced(bs: Bytes, lenSlot: nat, content: Bytes)
    requires 32 * lenSlot + 32 + |content| <= |bs| && 2 * |bs| < TWO_63
    requires bs[32 * lenSlot + 32..32 * lenSlot + 32 + |content|] == content
    ensures var start := Wrap64(Wrap64(lenSlot + 1) * 64);
            var end := Wrap64(start + Wrap64(|content| * 2));
            end <= |HexOf(bs)| && Slice(HexOf(bs), start, end) == Some(HexOf(content))
  {
    hide HexOf, Wrap64, Slice;
    ContentOffsets(lenSlot, |content|);
    BytesAreSliced(bs, 32 * lenSlot + 32, 32 * lenSlot + 32 + |content|);
  }

  lemma BytesAreSliced(bs: Bytes, i: nat, j: nat)
    requires i <= j <= |bs|
    ensures 2 * j <= |HexOf(bs)| && Slice(HexOf(bs), 2 * i, 2 * j) == Some(HexOf(bs[i..j]))
  {
    hide HexOf;
    HexSlice(bs, i, j);
  }

  lemma ContentOffsets(lenSlot: nat, length: nat)
    requires 2 * (32 * lenSlot + 32 + length) < TWO_63
    ensures var start := Wrap64(Wrap64(lenSlot + 1) * 64);
            start == 2 * (32 * lenSlot + 32) && Wrap64(start + Wrap64(length * 2)) == 2 * (32 * lenSlot + 32 + length)
  {
    hide Wrap64;
    WrapKeeps(lenSlot + 1);
    WrapKeeps((lenSlot + 1) * 64);
    WrapKeeps(length * 2);
    WrapKeeps(2 * (32 * lenSlot + 32 + length));
  }

  lemma ArrayLengthDecodes(bs: Bytes, slot: nat, offset: nat, length: nat)
    requires 32 * (slot + 1) <= |bs| && 2 * |bs| < TWO_63
    requires bs[32 * slot..32 * slot + 32] == Word(offset) && offset % 32 == 0
    requires offset + 32 <= |bs| && bs[offset..offset + 32] == Word(length) && length < TWO_63
    ensures DecodeArrayLength(HexOf(bs), slot) == Some(length)
  {
    hide SlotToInt, HexOf, Word;
    SlotReadsInt(bs, slot, offset);
    assert 32 * (offset / 32) == offset;
    SlotReadsInt(bs, offset / 32, length);
  }

  lemma AddressDecodes(bs: Bytes, slot: nat, a: RawAddress)
    requires 32 * (slot + 1) <= |bs| && 2 * |bs| < TWO_63
    requires bs[32 * slot..32 * slot + 32] == AddressWord(a)
    ensures SlotToAddr(HexOf(bs), slot) == Some("0x" + HexOf(a))
  {
    hide SlotHex, HexOf, ToLower;
    SlotIsWord(bs, slot);
    AddressDigits(a);
  }

  lemma AddressDigits(a: RawAddress)
    ensures var s := HexOf(AddressWord(a)); |s| == 64 && s[24..] == HexOf(a) && ToLower(s[24..]) == HexOf(a)
  {
    hide HexOf, ToLower;
    var s := HexOf(AddressWord(a));
    HexSlice(AddressWord(a), 12, 32);
    assert AddressWord(a)[12..32] == a;
    assert s[24..] == s[2 * 12..2 * 32];
    LowerHex(a);
  }

  lemma BoolDecodes(bs: Bytes, slot: nat, b: bool)
    requires 32 * (slot + 1) <= |bs| && 2 * |bs| < TWO_63
    requires bs[32 * slot..32 * slot + 32] == Word(if b then 1 else 0)
    ensures SlotToBool(HexOf(bs), slot) == Some(b)
  {
    hide SlotHex, HexOf, Word;
    SlotIsWord(bs, slot);
    BoolDigits(b);
  }

  lemma BoolDigits(b: bool)
    ensures var s := HexOf(Word(if b then 1 else 0)); |s| == 64 && (s[62..] == "01" <==> b)
  {
    hide HexOf;
    var w := Word(if b then 1 else 0);
    HexSlice(w, 31, 32);
    assert w[31..32] == [if b then 1 else 0];
    assert HexOf(w)[62..] == HexOf(w)[2 * 31..2 * 32];
    OneByte(if b then 1 else 0);
  }

  lemma OneByte(n: nat)
    requires n < 16
    ensures HexOf([n]) == ['0', HexDigit(n)]
  {
  }

  lemma EncodedLength(b: Bytes)
    ensures |EncodeBytes(b)| % 32 == 0 && |EncodeBytes(b)| >= 32 + |b|
    ensures EncodeBytes(b)[..32] == Word(|b|) && EncodeBytes(b)[32..32 + |b|] == b
  {
    hide Word;
  }

  /** Where the parts of the encoding of MasjidRegistered lie. */
  lemma RegisteredLayout(name: Bytes, uri: Bytes, coin: RawAddress, board: seq<RawAddress>)
    ensures var bs := EncodeRegistered(name, uri, coin, board);
            var uriAt := 128 + |EncodeBytes(name)|;
            var boardAt := uriAt + |EncodeBytes(uri)|;
            && uriAt % 32 == 0 && boardAt % 32 == 0 && boardAt + 32 <= |bs|
            && bs[0..32] == Word(128) && bs[32..64] == Word(uriAt)
            && bs[64..96] == AddressWord(coin) && bs[96..128] == Word(boardAt)
            && bs[128..uriAt] == EncodeBytes(name) && bs[uriAt..boardAt] == EncodeBytes(uri)
            && bs[boardAt..boardAt + 32] == Word(|board|)
  {
    hide EncodeBytes, Word, AddressWord, EncodeAddresses;
    EncodedLength(name);
    EncodedLength(uri);
  }

  lemma SliceOfSlice<T>(s: seq<T>, i: nat, j: nat, k: nat, l: nat)
    requires i <= j <= |s| && k <= l <= j - i
    ensures s[i..j][k..l] == s[i + k..i + l]
  {
    forall x | 0 <= x < l - k ensures s[i..j][k..l][x] == s[i + k..i + l][x] { assert s[i..j][k + x] == s[i + k + x]; }
  }

  lemma EncodedInside(bs: Bytes, at: nat, b: Bytes)
    requires at + |EncodeBytes(b)| <= |bs| && bs[at..at + |EncodeBytes(b)|] == EncodeBytes(b)
    ensures at + 32 + |b| <= |bs|
    ensures bs[at..at + 32] == Word(|b|) && bs[at + 32..at + 32 + |b|] == b
  {
    hide EncodeBytes, Word;
    EncodedLength(b);
    var e := EncodeBytes(b);
    SliceOfSlice(bs, at, at + |e|, 0, 32);
    SliceOfSlice(bs, at, at + |e|, 32, 32 + |b|);
  }

  /** What handleMasjidRegistered decodes from the data of a MasjidRegistered log is what the contract
      put there, whenever the data is small enough for Go's ints. */
  lemma RegisteredRoundTrip(name: Bytes, uri: Bytes, coin: RawAddress, board: seq<RawAddress>)
    requires 2 * |EncodeRegistered(name, uri, coin, board)| < TWO_63 && |board| < TWO_63
    ensures var data := TrimPrefix("0x" + HexOf(EncodeRegistered(name, uri, coin, board)));
            && DecodeString(data, 0) == Some(name)
            && DecodeString(data, 1) == Some(uri)
            && SlotToAddr(data, 2) == Some("0x" + HexOf(coin))
            && DecodeArrayLength(data, 3) == Some(|board|)
  {
    hide EncodeRegistered, EncodeBytes, Word, AddressWord, HexOf, DecodeString, SlotToAddr, DecodeArrayLength;
    var bs := EncodeRegistered(name, uri, coin, board);
    var uriAt := 128 + |EncodeBytes(name)|;
    RegisteredLayout(name, uri, coin, board);
    EncodedInside(bs, 128, name);
    EncodedInside(bs, uriAt, uri);
    StringDecodes(bs, 0, 128, name);
    StringDecodes(bs, 1, uriAt, uri);
    AddressDecodes(bs, 2, coin);
    ArrayLengthDecodes(bs, 3, uriAt + |EncodeBytes(uri)|, |board|);
  }

  lemma AttestedRoundTrip(support: bool, yes: nat, no: nat)
    requires yes <= MAX_UINT32 && no <= MAX_UINT32
    ensures var data := TrimPrefix("0x" + HexOf(EncodeAttested(support, yes, no)));
            SlotToBool(data, 0) == Some(support) && SlotToInt(data, 1) == Some(yes) && SlotToInt(data, 2) == Some(no)
  {
    hide Word, HexOf, SlotToBool, SlotToInt;
    var bs := EncodeAttested(support, yes, no);
    assert bs[0..32] == Word(if support then 1 else 0) && bs[32..64] == Word(yes) && bs[64..96] == Word(no);
    BoolDecodes(bs, 0, support);
    SlotReadsInt(bs, 1, yes);
    SlotReadsInt(bs, 2, no);
  }

  /** An indexed address is its word as a topic. */
  lemma TopicRoundTrip(a: RawAddress)
    ensures TopicToAddr("0x" + HexOf(AddressWord(a))) == "0x" + HexOf(a)
  {
    hide HexOf, ToLower;
    AddressDigits(a);
    assert ("0x" + HexOf(AddressWord(a)))[2..] == HexOf(AddressWord(a));
  }

  // ---- Logs of instances, and what the handlers make of them --------------------------------

  function ParseDecimal(s: string): Option<nat>
    requires s != ""
  {
    var c := s[|s| - 1];
    if !('0' <= c <= '9') then None
    else if |s| == 1 then Some((c - '0') as nat)
    else
      var init := ParseDecimal(s[..|s| - 1]);
      if init.None? then None else Some(10 * init.value + (c - '0') as nat)
  }

  /** The amount columns lose nothing: different numbers have different decimals. */
  lemma {:induction false} DecimalRoundTrip(n: nat)
    ensures Decimal(n) != "" && ParseDecimal(Decimal(n)) == Some(n)
  {
    if n >= 10 {
      DecimalRoundTrip(n / 10);
      var s := Decimal(n);
      assert s[..|s| - 1] == Decimal(n / 10);
    }
  }

  lemma AmountDecodes(bs: Bytes, idx: nat, n: nat)
    requires 32 * (idx + 1) <= |bs| && 2 * |bs| < TWO_63
    requires bs[32 * idx..32 * idx + 32] == Word(n) && n <= MAX_UINT256
    ensures SlotToUint256Str(HexOf(bs), idx) == Some(Decimal(n))
  {
    hide HexOf, Word, ParseHex, SlotHex, Decimal, MAX_UINT256;
    SlotReadsWord(bs, idx, n);
  }

  /** A request id is recovered from its topic if and only if it is below 2^63. */
  lemma RequestIdRoundTrip(n: nat)
    requires n <= MAX_UINT256
    ensures TopicToInt64("0x" + HexOf(Word(n))) == Wrap64(n)
    ensures TopicToInt64("0x" + HexOf(Word(n))) == n <==> n < TWO_63
  {
    hide HexOf, Word, ParseHex, ToNat, MAX_UINT256;
    ParseHexOf(Word(n));
    WordToNat(n);
    assert ("0x" + HexOf(Word(n)))[2..] == HexOf(Word(n));
  }

  type RawHash = h: Bytes | |h| == 32 witness ZeroBytes(32)

  /** The non-indexed data of CashOutProposed: (uint256, bytes32, uint64). */
  function EncodeProposed(amount: nat, noteHash: RawHash, expiresAt: nat): Bytes {
    Word(amount) + noteHash + Word(expiresAt)
  }

  /** What handleCashOutProposed decodes from the data: the amount and the note in full, and the expiry as
      the projection stores it. */
  lemma ProposedRoundTrip(e: I.Event, noteHash: RawHash, timestamp: int)
    requires e.CashOutProposed? && e.amount <= MAX_UINT256 && e.expiresAt < TWO_64
    ensures var data := TrimPrefix("0x" + HexOf(EncodeProposed(e.amount, noteHash, e.expiresAt)));
            && SlotToUint256Str(data, 0) == Some(Decimal(e.amount))
            && SlotToBytes32(data, 1) == Some("0x" + HexOf(noteHash))
            && SlotToInt(data, 2) == Some(P.NewRequest(e, timestamp).terms.expiresAt)
  {
    hide HexOf, Word, SlotToUint256Str, SlotToInt, SlotHex, MAX_UINT256, Wrap64, ToLower;
    var bs := EncodeProposed(e.amount, noteHash, e.expiresAt);
    assert bs[0..32] == Word(e.amount) && bs[32..64] == noteHash && bs[64..96] == Word(e.expiresAt);
    assert MAX_UINT256 > TWO_64 by { MaxIsLarge(); }
    AmountDecodes(bs, 0, e.amount);
    SlotIsWord(bs, 1);
    LowerHex(noteHash);
    SlotReadsInt64(bs, 2, e.expiresAt);
  }

  lemma MaxIsLarge()
    ensures MAX_UINT256 > TWO_64
  {
  }

  /** What handleCashOutApproved decodes: the tally that the projection stores. */
  lemma ApprovedRoundTrip(e: I.Event)
    requires e.CashOutApproved? && e.approvals <= MAX_UINT32
    ensures SlotToInt(TrimPrefix("0x" + HexOf(Word(e.approvals))), 0) == Some(e.approvals)
  {
    hide HexOf, Word, SlotToInt;
    assert Word(e.approvals)[0..32] == Word(e.approvals);
    SlotReadsInt(Word(e.approvals), 0, e.approvals);
  }

  /** The enum as the contract encodes it. */
  function StatusCode(s: W.Status): nat {
    match s
    case NoStatus => 0
    case Pending => 1
    case Rejected => 2
    case Verified => 3
    case Flagged => 4
    case Revoked => 5
  }

  /** What handleStatus decodes from the two statuses: the string that the projection stores. */
  lemma StatusRoundTrip(previous: W.Status, status: W.Status)
    ensures var data := TrimPrefix("0x" + HexOf(Word(StatusCode(previous)) + Word(StatusCode(status))));
            SlotToStatus(data, 1) == Some(P.StatusStr(status))
  {
    hide HexOf, Word, SlotToInt;
    var bs := Word(StatusCode(previous)) + Word(StatusCode(status));
    assert bs[32..64] == Word(StatusCode(status));
    SlotReadsInt(bs, 1, StatusCode(status));
  }

  /** What handleMasjidRegistered makes of the decoded board length is the projection's threshold. */
  lemma ThresholdRoundTrip(e: W.Event, name: Bytes, uri: Bytes, coin: RawAddress, board: seq<RawAddress>,
                           timestamp: int)
    requires e.MasjidRegistered? && |board| == |e.boardMembers|
    requires 2 * |EncodeRegistered(name, uri, coin, board)| < TWO_63 && |board| < TWO_63
    ensures var length := DecodeArrayLength(TrimPrefix("0x" + HexOf(EncodeRegistered(name, uri, coin, board))), 3);
            && length.Some?
            && Quotient(length.value, 2) + 1 == P.NewMasjid(e, timestamp).terms.cashOutThreshold
  {
    hide EncodeRegistered, HexOf, DecodeArrayLength;
    RegisteredRoundTrip(name, uri, coin, board);
  }
}
