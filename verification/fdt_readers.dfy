/** The two device tree readers of kernel/core/dtd.c, over the bytes at the start of the
    tree and against its tokens. */
module FdtReaders {
  import opened Arithmetic
  import opened Fdt

  const U64 := 0x1_0000_0000_0000_0000

  // ----- Names -----

  predicate IsMemoryName(name: seq<byte>) {
    |name| >= 6 && name[0] == 'm' as int && name[1] == 'e' as int && name[5] == 'y' as int
  }

  predicate IsVirtioName(name: seq<byte>) {
    |name| >= 3 && name[0] == 'v' as int && name[1] == 'i' as int && name[2] == 'r' as int
  }

  /** A tree's bytes: the offsets of its two blocks, and the tokens of the structure block. */
  ghost predicate Block(b: seq<byte>, offStruct: nat, offStrings: nat, tokens: seq<Token>) {
    && 16 <= |b| && ReadB32(b, 8) == offStruct && ReadB32(b, 12) == offStrings
    && offStruct % 4 == 0 && offStrings <= |b|
    && AllWellFormed(tokens, |b| - offStrings)
    && At(b, offStruct, Encode(tokens, 0))
  }

  /** A whole tree: magic and size, the two offsets, the rest of the header, the structure
      block, the strings. */
  function Blob(magic: seq<byte>, header: seq<byte>, tokens: seq<Token>, names: seq<byte>): seq<byte>
    requires |magic| == 8 && |header| == 24
  {
    magic + (Word(40) + (Word(40 + |Encode(tokens, 0)|) + (header + (Encode(tokens, 0) + names))))
  }

  /** Every tree of well-formed tokens that fits 32-bit offsets is one the readers accept. */
  lemma BlobIsBlock(magic: seq<byte>, header: seq<byte>, tokens: seq<Token>, names: seq<byte>)
    requires |magic| == 8 && |header| == 24 && 40 + |Encode(tokens, 0)| < WORD_LIMIT && AllWellFormed(tokens, |names|)
    ensures Block(Blob(magic, header, tokens, names), 40, 40 + |Encode(tokens, 0)|, tokens)
  {
    var b, code := Blob(magic, header, tokens, names), Encode(tokens, 0);
    var offset := 40 + |code|;
    var rest1 := Word(offset) + (header + (code + names));
    assert At(b, 0, magic + (Word(40) + rest1));
    AtParts(b, 0, magic, Word(40) + rest1);
    AtParts(b, 8, Word(40), rest1);
    AtParts(b, 12, Word(offset), header + (code + names));
    AtParts(b, 16, header, code + names);
    AtParts(b, 40, code, names);
    ReadWord(b, 8, 40);
    ReadWord(b, 12, offset);
  }

  predicate NamesReg(b: seq<byte>, s: nat, nameOff: nat)
    requires s + nameOff + 3 <= |b|
  {
    b[s + nameOff] == 'r' as int && b[s + nameOff + 2] == 'g' as int
  }

  predicate NamesInt(b: seq<byte>, s: nat, nameOff: nat)
    requires s + nameOff + 3 <= |b|
  {
    b[s + nameOff] == 'i' as int && b[s + nameOff + 1] == 'n' as int && b[s + nameOff + 2] == 't' as int
  }

  ghost predicate IsReg(b: seq<byte>, s: nat, t: Token) {
    t.Prop? && s + t.nameOff + 3 <= |b| && NamesReg(b, s, t.nameOff)
  }

  ghost predicate IsInt(b: seq<byte>, s: nat, t: Token) {
    t.Prop? && s + t.nameOff + 3 <= |b| && NamesInt(b, s, t.nameOff)
  }

  /** Two words as one number. */
  function Cell2(v: seq<byte>, i: nat): nat
    requires i + 8 <= |v|
  {
    ReadB32(v, i) * WORD_LIMIT + ReadB32(v, i + 4)
  }

  /** The sizes of the first n address-and-size entries of a reg property. */
  function SumSizes(value: seq<byte>, n: nat): nat
    requires 16 * n <= |value|
  {
    if n == 0 then 0 else SumSizes(value, n - 1) + Cell2(value, 16 * (n - 1) + 8)
  }

  // ----- What the readers compute over the tokens -----

  /** The total, from token k on. */
  ghost function RamScan(b: seq<byte>, s: nat, tokens: seq<Token>, k: nat, inside: bool): nat
    requires k <= |tokens|
    decreases |tokens| - k
  {
    if k == |tokens| then 0
    else match tokens[k]
      case Begin(name) => RamScan(b, s, tokens, k + 1, IsMemoryName(name))
      case Prop(_, value) =>
        if inside && IsReg(b, s, tokens[k]) then SumSizes(value, |value| / 16) % U64
        else RamScan(b, s, tokens, k + 1, inside)
      case EndNode => RamScan(b, s, tokens, k + 1, false)
      case Nop => RamScan(b, s, tokens, k + 1, inside)
      case Other(_, _) => 0
  }

  /** The five results, from token k on, in a structure block at `start`. */
  ghost function DriveScan(b: seq<byte>, s: nat, start: nat, tokens: seq<Token>, k: nat, inside: bool, res: seq<nat>)
    : seq<nat>
    requires k <= |tokens| && |res| >= 5
    decreases |tokens| - k
  {
    if k == |tokens| then res
    else match tokens[k]
      case Begin(name) => DriveScan(b, s, start, tokens, k + 1, IsVirtioName(name), res)
      case Prop(_, _) =>
        if inside && Stops(b, s, tokens[k]) then WithReg(res, b, ValueOf(start, tokens, k))
        else
          var noted := if inside && Notes(b, s, tokens[k]) then WithInt(res, b, ValueOf(start, tokens, k)) else res;
          DriveScan(b, s, start, tokens, k + 1, inside, noted)
      case EndNode => DriveScan(b, s, start, tokens, k + 1, false, res)
      case Nop => DriveScan(b, s, start, tokens, k + 1, inside, res)
      case Other(_, _) => DriveScan(b, s, start, tokens, k + 1, inside, res)
  }

  /** The index of the value of property token k. */
  ghost function ValueOf(start: nat, tokens: seq<Token>, k: nat): nat
    requires k <= |tokens|
  {
    Position(start, tokens, k) + 12
  }

  /** A non-empty reg property ends the drive reader's search. */
  ghost predicate Stops(b: seq<byte>, s: nat, t: Token) {
    IsReg(b, s, t) && |t.value| > 0
  }

  ghost predicate Notes(b: seq<byte>, s: nat, t: Token) {
    IsInt(b, s, t) && |t.value| > 0
  }

  /** Address and size in 2 + 2 cells, from the bytes at `at` on. */
  function WithReg(res: seq<nat>, b: seq<byte>, at: nat): seq<nat>
    requires |res| >= 5
  {
    if at + 16 <= |b| then res[0 := Cell2(b, at)][1 := Cell2(b, at + 8)] else res
  }

  /** Type, number and edge, from the bytes at `at` on. */
  function WithInt(res: seq<nat>, b: seq<byte>, at: nat): seq<nat>
    requires |res| >= 5
  {
    if at + 12 <= |b| then res[2 := ReadB32(b, at)][3 := ReadB32(b, at + 4)][4 := ReadB32(b, at + 8)] else res
  }

  // ----- The code -----

  /** The cursor behind the name: past its NUL and up to the next multiple of 4. */
  method SkipName(b: seq<byte>, start: nat, ghost name: seq<byte>) returns (p: nat)
    requires start % 4 == 0 && NameAt(b, start, name)
    ensures p == start + Length(Begin(name))
  {
    forall q | start <= q < start + |name| ensures b[q] != 0 {
      assert b[start + (q - start)] == name[q - start];
    }
    p := start;
    while b[p] != 0
      invariant start <= p <= start + |name|
      decreases start + |name| - p
    {
      p := p + 1;
    }
    p := p + 1;
    p := AlignUp(p);
    PadShift(start, |name| + 1);
  }

  lemma PadShift(start: nat, n: nat)
    requires start % 4 == 0
    ensures Pad(start + n) == Pad(n)
  {
  }

  method AlignUp(start: nat) returns (p: nat)
    ensures p == start + Pad(start)
  {
    p := start;
    while p % 4 != 0
      invariant start <= p <= start + Pad(start)
      decreases start + Pad(start) - p
    {
      p := p + 1;
    }
  }

  // ----- The cursor -----

  /** The index of token k in a structure block at `start`. */
  ghost function Position(start: nat, tokens: seq<Token>, k: nat): nat
    requires k <= |tokens|
  {
    if k == 0 then start else Position(start, tokens, k - 1) + 4 + Length(tokens[k - 1])
  }

  /** From the start of a block every token is met, inside the block. */
  lemma {:induction false} CursorAt(b: seq<byte>, start: nat, tokens: seq<Token>, k: nat)
    requires k <= |tokens| && Cursor(b, start, tokens, 0)
    ensures Cursor(b, Position(start, tokens, k), tokens, k)
    decreases k
  {
    if k > 0 {
      var j := k - 1;
      var p, p' := Position(start, tokens, j), Position(start, tokens, k);
      CursorAt(b, start, tokens, j);
      assert p' == p + 4 + Length(tokens[j]);
      NextCursor(b, p, tokens, j, p', k);
    }
  }

  lemma NextCursor(b: seq<byte>, p: nat, tokens: seq<Token>, k: nat, p': nat, k': nat)
    requires k < |tokens| && Cursor(b, p, tokens, k)
    requires k' == k + 1 && p' == p + 4 + Length(tokens[k])
    ensures Cursor(b, p', tokens, k')
  {
  }

  lemma {:induction false} PositionIsAligned(start: nat, tokens: seq<Token>, k: nat)
    requires k <= |tokens| && start % 4 == 0
    ensures Position(start, tokens, k) % 4 == 0
    decreases k
  {
    if k > 0 {
      PositionIsAligned(start, tokens, k - 1);
      LengthIsAligned(tokens[k - 1]);
      AlignedSum(Position(start, tokens, k - 1), Length(tokens[k - 1]));
    }
  }

  lemma AlignedSum(p: nat, n: nat)
    requires p % 4 == 0 && n % 4 == 0
    ensures (p + 4) % 4 == 0 && (p + 4 + n) % 4 == 0
  {
  }

  /** What a reader finds at token k: an aligned word and what the token carries, all of it
      inside the block. */
  lemma FoundAtCursor(b: seq<byte>, p: nat, tokens: seq<Token>, k: nat, strings: nat)
    requires k < |tokens| && AllWellFormed(tokens, strings) && Cursor(b, p, tokens, k) && p % 4 == 0
    ensures Found(b, p, tokens[k], strings)
  {
    FirstWordAt(b, p, tokens[k], strings);
    AlignedSum(p, 0);
    if tokens[k].Begin? {
      SixthByte(b, p, tokens, k, strings, p + 4);
    } else if tokens[k].Prop? {
      PropAt(b, p + 4, tokens[k], strings);
    }
  }

  /** The same at every token. */
  ghost predicate Readable(b: seq<byte>, start: nat, tokens: seq<Token>, strings: nat) {
    && ReadsWord(b, Position(start, tokens, |tokens|), TOKEN_END)
    && forall k {:trigger Found(b, Position(start, tokens, k), tokens[k], strings)} ::
         0 <= k < |tokens| ==> Found(b, Position(start, tokens, k), tokens[k], strings)
  }

  lemma BlockIsReadable(b: seq<byte>, start: nat, tokens: seq<Token>, strings: nat)
    requires AllWellFormed(tokens, strings) && At(b, start, Encode(tokens, 0)) && start % 4 == 0
    ensures Readable(b, start, tokens, strings)
  {
    EncodingIsFollowed(b, start, tokens, 0, strings);
    CursorAt(b, start, tokens, |tokens|);
    EndWordAt(b, Position(start, tokens, |tokens|));
    PositionIsAligned(start, tokens, |tokens|);
    AlignedSum(Position(start, tokens, |tokens|), 0);
    forall k | 0 <= k < |tokens| ensures Found(b, Position(start, tokens, k), tokens[k], strings) {
      CursorAt(b, start, tokens, k);
      PositionIsAligned(start, tokens, k);
      FoundAtCursor(b, Position(start, tokens, k), tokens, k, strings);
    }
  }

  ghost predicate ReadsWord(b: seq<byte>, p: nat, w: nat) {
    p + 4 <= |b| && (p + 4) % 4 == 0 && ReadB32(b, p) == w
  }

  ghost predicate Found(b: seq<byte>, p: nat, t: Token, strings: nat) {
    match t
    case Begin(name) => ReadsWord(b, p, TOKEN_BEGIN_NODE) && NameAt(b, p + 4, name) && NotSixthY(b, p + 4, name)
    case Prop(_, _) => ReadsWord(b, p, TOKEN_PROP) && PropFound(b, p + 4, t, strings)
    case EndNode => ReadsWord(b, p, TOKEN_END_NODE)
    case Nop => ReadsWord(b, p, TOKEN_NOP)
    case Other(_, _) => ReadsOther(b, p)
  }

  ghost predicate ReadsOther(b: seq<byte>, p: nat) {
    p + 4 <= |b| && (p + 4) % 4 == 0 && ReadB32(b, p) !in {1, 2, 3, 4, 9}
  }

  ghost predicate NotSixthY(b: seq<byte>, p: nat, name: seq<byte>) {
    p + 5 < |b| && (2 <= |name| < 6 ==> b[p + 5] != 'y' as int)
  }

  /** Length, name offset and value of a property. */
  ghost predicate PropFound(b: seq<byte>, p: nat, t: Token, strings: nat)
    requires t.Prop?
  {
    && p + 8 <= |b| && ReadB32(b, p) == |t.value| && ReadB32(b, p + 4) == t.nameOff
    && At(b, p + 8, t.value) && t.nameOff + 3 <= strings
  }

  ghost predicate NameAt(b: seq<byte>, p: nat, name: seq<byte>) {
    && p + |name| < |b| && b[p + |name|] == 0
    && forall i :: 0 <= i < |name| ==> b[p + i] == name[i] && name[i] != 0
  }

  lemma NameThenZeros(b: seq<byte>, p: nat, name: seq<byte>)
    requires At(b, p, Payload(Begin(name))) && forall i :: 0 <= i < |name| ==> name[i] != 0
    ensures NameAt(b, p, name)
    ensures 4 <= |name| < 6 ==> p + 5 < |b| && b[p + 5] == 0
  {
    var tail := [0] + Zeros(Pad(|name| + 1));
    AtParts(b, p, name, tail);
    forall i | 0 <= i < |name| ensures b[p + i] == name[i] {
      AtByte(b, p, name, i);
    }
    AtByte(b, p + |name|, tail, 0);
    if 4 <= |name| < 6 {
      AtByte(b, p + |name|, tail, 5 - |name|);
    }
  }

  /** The sixth byte at a name shorter than six characters: padding, or the second byte of
      the next token. */
  lemma SixthByte(b: seq<byte>, p: nat, tokens: seq<Token>, k: nat, strings: nat, start: nat)
    requires start == p + 4
    requires k < |tokens| && AllWellFormed(tokens, strings) && Cursor(b, p, tokens, k) && tokens[k].Begin?
    ensures NameAt(b, start, tokens[k].name) && NotSixthY(b, start, tokens[k].name)
  {
    var name, p', k' := tokens[k].name, p + 4 + Length(tokens[k]), k + 1;
    NextCursor(b, p, tokens, k, p', k');
    SecondByte(b, p', tokens, k', strings);
    assert At(b, start, Payload(tokens[k]));
    NameThenZeros(b, start, name);
    SixthFromNext(b, start, name, p');
  }

  lemma SecondByte(b: seq<byte>, p: nat, tokens: seq<Token>, k: nat, strings: nat)
    requires k <= |tokens| && AllWellFormed(tokens, strings) && Cursor(b, p, tokens, k)
    ensures p + 4 <= |b| && b[p + 1] != 'y' as int
  {
    if k < |tokens| {
      FirstWordAt(b, p, tokens[k], strings);
    } else {
      EndWordAt(b, p);
    }
  }

  lemma SixthFromNext(b: seq<byte>, p: nat, name: seq<byte>, next: nat)
    requires next == p + Length(Begin(name)) && next + 4 <= |b| && b[next + 1] != 'y' as int
    requires 4 <= |name| < 6 ==> p + 5 < |b| && b[p + 5] == 0
    ensures NotSixthY(b, p, name)
  {
    if |name| < 4 {
      ShortNameLength(name);
      assert next + 1 == p + 5;
    }
  }

  lemma ShortNameLength(name: seq<byte>)
    requires |name| < 4
    ensures Length(Begin(name)) == 4
  {
  }

  /** Whether the name behind a begin token is a memory node's. A name of fewer than six
      characters is settled by its padding and the token behind it. */
  method TestMemoryName(b: seq<byte>, p: nat, ghost name: seq<byte>) returns (inside: bool)
    requires NameAt(b, p, name) && NotSixthY(b, p, name)
    ensures inside == IsMemoryName(name)
  {
    if b[p] == 0 {
      inside := false;
    } else if b[p] == 'm' as int && b[p + 1] == 'e' as int && b[p + 5] == 'y' as int {
      inside := true;
    } else {
      inside := false;
    }
  }

  method TestVirtioName(b: seq<byte>, p: nat, ghost name: seq<byte>) returns (inside: bool)
    requires NameAt(b, p, name)
    ensures inside == IsVirtioName(name)
  {
    if b[p] == 0 {
      inside := false;
    } else if b[p] == 'v' as int && b[p + 1] == 'i' as int && b[p + 2] == 'r' as int {
      inside := true;
    } else {
      inside := false;
    }
  }

  /** The sum of the size cells of `max` entries, on 64 bits. */
  method SumRegs(b: seq<byte>, start: nat, max: nat, ghost value: seq<byte>) returns (total: nat)
    requires At(b, start, value) && 16 * max <= |value|
    ensures total == SumSizes(value, max) % U64
  {
    var p := start;
    total := 0;
    var i := 0;
    while i < max
      invariant 0 <= i <= max && p == start + 16 * i
      invariant total == SumSizes(value, i) % U64
    {
      EntryAt(b, start, value, i, p);
      var add2 := ReadB32(b, p);
      var add1 := ReadB32(b, p + 4);
      var size2 := ReadB32(b, p + 8);
      var size1 := ReadB32(b, p + 12);
      p := p + 16;
      AddOn64Bits(SumSizes(value, i), size2 * WORD_LIMIT + size1);
      total := (total + (size2 * WORD_LIMIT + size1)) % U64;
      i := i + 1;
    }
  }

  /** The i-th entry of a reg property, read at the cursor. */
  lemma EntryAt(b: seq<byte>, start: nat, value: seq<byte>, i: nat, p: nat)
    requires At(b, start, value) && 16 * i + 16 <= |value| && p == start + 16 * i
    ensures p + 16 <= |b|
    ensures ReadB32(b, p + 8) * WORD_LIMIT + ReadB32(b, p + 12) == SumSizes(value, i + 1) - SumSizes(value, i)
  {
    ValueWord(b, start, value, 16 * i + 8);
    ValueWord(b, start, value, 16 * i + 12);
    assert start + (16 * i + 8) == p + 8 && start + (16 * i + 12) == p + 12;
  }

  lemma AddOn64Bits(x: nat, y: nat)
    ensures (x % U64 + y) % U64 == (x + y) % U64
  {
    DivModUnique(x + y, U64, x / U64 + (x % U64 + y) / U64, (x % U64 + y) % U64);
  }

  lemma ValueWord(b: seq<byte>, start: nat, value: seq<byte>, i: nat)
    requires At(b, start, value) && i + 4 <= |value|
    ensures start + i + 4 <= |b| && ReadB32(b, start + i) == ReadB32(value, i)
  {
    AtByte(b, start, value, i);
    AtByte(b, start, value, i + 1);
    AtByte(b, start, value, i + 2);
    AtByte(b, start, value, i + 3);
  }

  /** They can be read back from its payload. */
  lemma PropAt(b: seq<byte>, p: nat, t: Token, strings: nat)
    requires t.Prop? && WellFormed(t, strings) && At(b, p, Payload(t))
    ensures PropFound(b, p, t, strings)
  {
    var rest := t.value + Zeros(Pad(|t.value|));
    AtParts(b, p, Word(|t.value|), Word(t.nameOff) + rest);
    AtParts(b, p + 4, Word(t.nameOff), rest);
    AtParts(b, p + 8, t.value, Zeros(Pad(|t.value|)));
    ReadWord(b, p, |t.value|);
    ReadWord(b, p + 4, t.nameOff);
  }

  /** The total of one reg property of a memory node, or where the property ends. */
  method RamProp(b: seq<byte>, start: nat, s: nat, inside: bool, ghost t: Token, ghost strings: nat)
    returns (p: nat, found: bool, total: nat)
    requires t.Prop? && PropFound(b, start, t, strings) && start % 4 == 0 && s + strings == |b|
    ensures found == (inside && IsReg(b, s, t))
    ensures found ==> total == SumSizes(t.value, |t.value| / 16) % U64
    ensures !found ==> p == start + Length(t)
  {
    var len := ReadB32(b, start);
    var nameOff := ReadB32(b, start + 4);
    p := start + 8;
    if inside && b[s + nameOff] == 'r' as int && b[s + nameOff + 2] == 'g' as int {
      if len <= 0 { return p, true, 0; }
      total := SumRegs(b, p, len / 16, t.value);
      return p, true, total;
    }
    PadShift(p, len);
    p := AlignUp(p + len);
    return p, false, 0;
  }

  method GetTotalRam(b: seq<byte>, ghost offStruct: nat, ghost offStrings: nat, ghost tokens: seq<Token>)
    returns (ram: nat)
    requires Block(b, offStruct, offStrings, tokens)
    ensures ram == RamScan(b, offStrings, tokens, 0, false)
  {
    var start, s := Header(b, offStruct, offStrings, tokens);
    ram := TotalRamOf(b, start, s, tokens);
  }

  /** Where the two blocks start, and that the cursor meets every token from there. */
  method Header(b: seq<byte>, ghost offStruct: nat, ghost offStrings: nat, ghost tokens: seq<Token>)
    returns (start: nat, s: nat)
    requires Block(b, offStruct, offStrings, tokens)
    ensures start == offStruct && s == offStrings && s <= |b| && Readable(b, start, tokens, |b| - s)
  {
    BlockIsReadable(b, offStruct, tokens, |b| - offStrings);
    start, s := ReadB32(b, 8), ReadB32(b, 12);
  }

  /** The loop of get_total_ram, from the cursor's start and the strings block. */
  method TotalRamOf(b: seq<byte>, start: nat, s: nat, ghost tokens: seq<Token>) returns (ram: nat)
    requires s <= |b| && Readable(b, start, tokens, |b| - s)
    ensures ram == RamScan(b, s, tokens, 0, false)
  {
    var p := start;
    var inside := false;
    ghost var k := 0;
    while true
      invariant k <= |tokens| && p == Position(start, tokens, k)
      invariant RamScan(b, s, tokens, k, inside) == RamScan(b, s, tokens, 0, false)
      decreases |tokens| - k
    {
      assert k < |tokens| ==> Found(b, Position(start, tokens, k), tokens[k], |b| - s);
      var token := ReadB32(b, p);
      p := p + 4;
      if token == TOKEN_BEGIN_NODE {
        inside := TestMemoryName(b, p, tokens[k].name);
        p := SkipName(b, p, tokens[k].name);
      } else if token == TOKEN_PROP {
        var found, total;
        p, found, total := RamProp(b, p, s, inside, tokens[k], |b| - s);
        if found { return total; }
      } else if token == TOKEN_END_NODE {
        inside := false;
      } else if token == TOKEN_NOP {
      } else if token == TOKEN_END {
        return 0;
      } else {
        return 0;
      }
      k := k + 1;
    }
  }

  /** A reg or an interrupt property is empty or long enough to hold what the reader takes
      from it. */
  ghost predicate LongProp(b: seq<byte>, s: nat, t: Token) {
    && (IsReg(b, s, t) ==> |t.value| == 0 || |t.value| >= 16)
    && (IsInt(b, s, t) ==> |t.value| == 0 || |t.value| >= 12)
  }

  /** Every property the reader looks at is: those of virtio nodes, from token k on, up to
      the one that ends the search. */
  ghost predicate LongEnough(b: seq<byte>, s: nat, tokens: seq<Token>, k: nat, inside: bool)
    requires k <= |tokens|
    decreases |tokens| - k
  {
    if k == |tokens| then true
    else if tokens[k].Prop? && inside then
      LongProp(b, s, tokens[k]) && (Stops(b, s, tokens[k]) || LongEnough(b, s, tokens, k + 1, inside))
    else LongEnough(b, s, tokens, k + 1, Inside(tokens[k], IsVirtioName, inside))
  }

  /** What the reader takes from a property lies inside the tree's bytes. */
  ghost predicate InReach(b: seq<byte>, s: nat, t: Token, at: nat) {
    (Stops(b, s, t) ==> at + 16 <= |b|) && (Notes(b, s, t) ==> at + 12 <= |b|)
  }

  /** So it is for every property of a virtio node, from token k on, up to the one that ends
      the search. */
  ghost predicate AllInReach(b: seq<byte>, s: nat, start: nat, tokens: seq<Token>, k: nat, inside: bool)
    requires k <= |tokens|
    decreases |tokens| - k
  {
    if k == |tokens| then true
    else if tokens[k].Prop? && inside then
      && InReach(b, s, tokens[k], ValueOf(start, tokens, k))
      && (Stops(b, s, tokens[k]) || AllInReach(b, s, start, tokens, k + 1, inside))
    else AllInReach(b, s, start, tokens, k + 1, Inside(tokens[k], IsVirtioName, inside))
  }

  /** Properties that are long enough are in reach. */
  lemma {:induction false} LongIsInReach(b: seq<byte>, s: nat, start: nat, tokens: seq<Token>, k: nat, inside: bool)
    requires s <= |b| && Readable(b, start, tokens, |b| - s) && k <= |tokens|
    requires LongEnough(b, s, tokens, k, inside)
    ensures AllInReach(b, s, start, tokens, k, inside)
    decreases |tokens| - k
  {
    if k < |tokens| {
      assert Found(b, Position(start, tokens, k), tokens[k], |b| - s);
      if !(tokens[k].Prop? && inside && Stops(b, s, tokens[k])) {
        LongIsInReach(b, s, start, tokens, k + 1, Inside(tokens[k], IsVirtioName, inside));
      }
    }
  }

  method GetDriveInfo(b: seq<byte>, ghost offStruct: nat, ghost offStrings: nat, ghost tokens: seq<Token>,
                      result: array<nat>)
    requires Block(b, offStruct, offStrings, tokens)
    requires AllInReach(b, offStrings, offStruct, tokens, 0, false) && result.Length >= 5
    modifies result
    ensures result[..] == DriveScan(b, offStrings, offStruct, tokens, 0, false, old(result[..]))
  {
    var start, s := Header(b, offStruct, offStrings, tokens);
    DriveInfoOf(b, start, s, tokens, result);
  }

  /** The loop of get_drive_info. */
  method DriveInfoOf(b: seq<byte>, start: nat, s: nat, ghost tokens: seq<Token>, result: array<nat>)
    requires s <= |b| && Readable(b, start, tokens, |b| - s) && AllInReach(b, s, start, tokens, 0, false)
    requires result.Length >= 5
    modifies result
    ensures result[..] == DriveScan(b, s, start, tokens, 0, false, old(result[..]))
  {
    var p := start;
    var inside := false;
    ghost var k := 0;
    while true
      invariant k <= |tokens| && p == Position(start, tokens, k)
      invariant AllInReach(b, s, start, tokens, k, inside)
      invariant DriveScan(b, s, start, tokens, k, inside, result[..])
             == DriveScan(b, s, start, tokens, 0, false, old(result[..]))
      decreases |tokens| - k
    {
      assert k < |tokens| ==> Found(b, Position(start, tokens, k), tokens[k], |b| - s);
      var token := ReadB32(b, p);
      p := p + 4;
      if token == TOKEN_BEGIN_NODE {
        inside := TestVirtioName(b, p, tokens[k].name);
        p := SkipName(b, p, tokens[k].name);
      } else if token == TOKEN_PROP {
        var stop;
        p, stop := DriveProp(b, p, s, inside, tokens[k], |b| - s, result);
        if stop { return; }
      } else if token == TOKEN_END_NODE {
        inside := false;
      } else if token == TOKEN_NOP {
      } else if token == TOKEN_END {
        return;
      } else {
        p := p + 4;
      }
      k := k + 1;
    }
  }

  /** One property in the drive reader: where it ends, and whether it ends the search. */
  method DriveProp(b: seq<byte>, start: nat, s: nat, inside: bool, ghost t: Token, ghost strings: nat,
                   result: array<nat>)
    returns (p: nat, stop: bool)
    requires t.Prop? && PropFound(b, start, t, strings) && start % 4 == 0 && s + strings == |b|
    requires (inside ==> InReach(b, s, t, start + 8)) && result.Length >= 5
    modifies result
    ensures stop == (inside && Stops(b, s, t))
    ensures result[..] == if stop then WithReg(old(result[..]), b, start + 8)
      else if inside && Notes(b, s, t) then WithInt(old(result[..]), b, start + 8) else old(result[..])
    ensures !stop ==> p == start + Length(t)
  {
    var len := ReadB32(b, start);
    var nameOff := ReadB32(b, start + 4);
    p := start + 8;
    stop := TakeProp(b, p, s, len, nameOff, inside, t, result);
    if stop { return; }
    PadShift(p, len);
    p := AlignUp(p + len);
  }

  /** What the drive reader does with one property; true when it is done. */
  method TakeProp(b: seq<byte>, p: nat, s: nat, len: nat, nameOff: nat, inside: bool, ghost t: Token,
                  result: array<nat>)
    returns (stop: bool)
    requires t.Prop? && len == |t.value| && nameOff == t.nameOff && s + nameOff + 3 <= |b|
    requires (inside ==> InReach(b, s, t, p)) && result.Length >= 5
    modifies result
    ensures stop == (inside && Stops(b, s, t))
    ensures result[..] == if stop then WithReg(old(result[..]), b, p)
      else if inside && Notes(b, s, t) then WithInt(old(result[..]), b, p) else old(result[..])
  {
    if inside && NamesReg(b, s, nameOff) {
      if len <= 0 { return false; }
      result[0] := ReadB32(b, p) * WORD_LIMIT + ReadB32(b, p + 4);
      result[1] := ReadB32(b, p + 8) * WORD_LIMIT + ReadB32(b, p + 12);
      return true;
    } else if inside && NamesInt(b, s, nameOff) {
      if len <= 0 { return false; }
      result[2] := ReadB32(b, p);
      result[3] := ReadB32(b, p + 4);
      result[4] := ReadB32(b, p + 8);
    }
    stop := false;
  }

  // ----- On trees -----

  ghost predicate NoOther(tokens: seq<Token>) {
    forall i :: 0 <= i < |tokens| ==> !tokens[i].Other?
  }

  /** The first reg property of a list decides. */
  ghost function RamOf(b: seq<byte>, s: nat, props: seq<Token>): nat {
    if props == [] then 0
    else if IsReg(b, s, props[0]) then SumSizes(props[0].value, |props[0].value| / 16) % U64
    else RamOf(b, s, props[1..])
  }

  lemma {:induction false} RamScanSeesProps(b: seq<byte>, s: nat, tokens: seq<Token>, k: nat, inside: bool)
    requires k <= |tokens| && NoOther(tokens)
    ensures RamScan(b, s, tokens, k, inside) == RamOf(b, s, Visible(tokens[k..], IsMemoryName, inside))
    decreases |tokens| - k
  {
    if k < |tokens| {
      var t, rest := tokens[k], tokens[k + 1..];
      assert tokens[k..] == [t] + rest;
      RamScanSeesProps(b, s, tokens, k + 1, Inside(t, IsMemoryName, inside));
      VisibleStep(t, rest, IsMemoryName, inside);
    }
  }

  ghost predicate FirstReg(b: seq<byte>, s: nat, props: seq<Token>, i: nat) {
    i < |props| && IsReg(b, s, props[i]) && forall j :: 0 <= j < i ==> !IsReg(b, s, props[j])
  }

  lemma {:induction false} RamOfFirst(b: seq<byte>, s: nat, props: seq<Token>, i: nat)
    ensures FirstReg(b, s, props, i) ==> RamOf(b, s, props) == SumSizes(props[i].value, |props[i].value| / 16) % U64
    ensures (forall j :: 0 <= j < |props| ==> !IsReg(b, s, props[j])) ==> RamOf(b, s, props) == 0
    decreases |props|
  {
    if props != [] && !IsReg(b, s, props[0]) {
      var rest := props[1..];
      RamOfFirst(b, s, rest, if i > 0 then i - 1 else 0);
      assert forall j :: 0 <= j < |rest| ==> rest[j] == props[j + 1];
    }
  }

  /** get_total_ram on the bytes of any tree, with NOP tokens anywhere: the sum of the sizes
      in the first reg property, in document order, of a node named as memory; 0 if there
      is none. The sum is taken on 64 bits. */
  lemma TotalRamOfTree(b: seq<byte>, s: nat, tokens: seq<Token>, n: Node, i: nat)
    requires Serializes(tokens, n)
    ensures var props := PropsOf(n, IsMemoryName); var ram := RamScan(b, s, tokens, 0, false);
      && (FirstReg(b, s, props, i) ==> ram == SumSizes(props[i].value, |props[i].value| / 16) % U64)
      && ((forall j :: 0 <= j < |props| ==> !IsReg(b, s, props[j])) ==> ram == 0)
  {
    TreesHaveNoOther(tokens, n);
    RamScanSeesProps(b, s, tokens, 0, false);
    assert tokens[0..] == tokens;
    VisibleIsDocumentOrder(tokens, n, IsMemoryName);
    RamOfFirst(b, s, PropsOf(n, IsMemoryName), i);
  }

  lemma TreesHaveNoOther(tokens: seq<Token>, n: Node)
    requires Serializes(tokens, n)
    ensures NoOther(tokens)
  {
    FlattenHasNoOther(n);
    KeptByWithoutNops(tokens);
  }

  lemma {:induction false} FlattenHasNoOther(n: Node)
    requires IsTree(n)
    ensures NoOther(Flatten(n))
    decreases n, |n.children| + 1
  {
    ChildrenHaveNoOther(n, |n.children|);
  }

  lemma {:induction false} ChildrenHaveNoOther(n: Node, k: nat)
    requires IsTree(n) && k <= |n.children|
    ensures NoOther(FlattenAll(n, k))
    decreases n, k
  {
    if k > 0 {
      ChildrenHaveNoOther(n, k - 1);
      FlattenHasNoOther(n.children[k - 1]);
    }
  }

  lemma {:induction false} KeptByWithoutNops(tokens: seq<Token>)
    requires NoOther(WithoutNops(tokens))
    ensures NoOther(tokens)
    decreases |tokens|
  {
    if tokens != [] {
      var t, rest := tokens[0], WithoutNops(tokens[1..]);
      if !t.Nop? {
        assert WithoutNops(tokens)[0] == t;
        assert forall i :: 0 <= i < |rest| ==> WithoutNops(tokens)[i + 1] == rest[i];
      }
      KeptByWithoutNops(tokens[1..]);
      assert tokens == [t] + tokens[1..];
    }
  }

  ghost function DriveOf(b: seq<byte>, s: nat, props: seq<Token>, res: seq<nat>): seq<nat>
    requires |res| >= 5
  {
    if props == [] then res
    else if Stops(b, s, props[0]) then WithReg(res, props[0].value, 0)
    else DriveOf(b, s, props[1..], if Notes(b, s, props[0]) then WithInt(res, props[0].value, 0) else res)
  }

  lemma {:induction false} DriveScanSeesProps(b: seq<byte>, s: nat, start: nat, tokens: seq<Token>, k: nat,
                                              inside: bool, res: seq<nat>)
    requires s <= |b| && Readable(b, start, tokens, |b| - s) && k <= |tokens| && |res| >= 5
    requires LongEnough(b, s, tokens, k, inside)
    ensures DriveScan(b, s, start, tokens, k, inside, res)
      == DriveOf(b, s, Visible(tokens[k..], IsVirtioName, inside), res)
    decreases |tokens| - k
  {
    if k < |tokens| {
      var t, rest, at := tokens[k], tokens[k + 1..], ValueOf(start, tokens, k);
      assert tokens[k..] == [t] + rest;
      VisibleStep(t, rest, IsVirtioName, inside);
      assert Found(b, Position(start, tokens, k), tokens[k], |b| - s);
      if t.Prop? && inside {
        TakenFromValue(b, s, t, at, res);
      }
      if !(t.Prop? && inside && Stops(b, s, t)) {
        var res' := if t.Prop? && inside && Notes(b, s, t) then WithInt(res, t.value, 0) else res;
        DriveScanSeesProps(b, s, start, tokens, k + 1, Inside(t, IsVirtioName, inside), res');
      }
    }
  }

  /** From a long enough property nothing but its value is taken. */
  lemma TakenFromValue(b: seq<byte>, s: nat, t: Token, at: nat, res: seq<nat>)
    requires t.Prop? && At(b, at, t.value) && LongProp(b, s, t) && |res| >= 5
    ensures Stops(b, s, t) ==> WithReg(res, b, at) == WithReg(res, t.value, 0)
    ensures Notes(b, s, t) ==> WithInt(res, b, at) == WithInt(res, t.value, 0)
  {
    if Stops(b, s, t) {
      ValueWord(b, at, t.value, 0);
      ValueWord(b, at, t.value, 4);
      ValueWord(b, at, t.value, 8);
      ValueWord(b, at, t.value, 12);
    } else if Notes(b, s, t) {
      ValueWord(b, at, t.value, 0);
      ValueWord(b, at, t.value, 4);
      ValueWord(b, at, t.value, 8);
    }
  }

  /** i is the first property that ends the search, or the end of the list. */
  ghost predicate FirstStop(b: seq<byte>, s: nat, props: seq<Token>, i: nat) {
    i <= |props| && (i < |props| ==> Stops(b, s, props[i])) && forall j :: 0 <= j < i ==> !Stops(b, s, props[j])
  }

  /** l is the last interrupt property before i; -1 when there is none. */
  ghost predicate LastNote(b: seq<byte>, s: nat, props: seq<Token>, i: nat, l: int) {
    && i <= |props| && -1 <= l < i && (l >= 0 ==> Notes(b, s, props[l]))
    && forall j :: l < j < i ==> !Notes(b, s, props[j])
  }

  /** The five results, from the property that ended the search and the last interrupt
      property before it. */
  ghost function DriveResult(props: seq<Token>, i: nat, l: int, res: seq<nat>): seq<nat>
    requires |res| >= 5 && i <= |props| && -1 <= l < i
    requires (i < |props| ==> props[i].Prop?) && (l >= 0 ==> props[l].Prop?)
  {
    var noted := if l >= 0 then WithInt(res, props[l].value, 0) else res;
    if i < |props| then WithReg(noted, props[i].value, 0) else noted
  }

  lemma {:induction false} DriveOfFirst(b: seq<byte>, s: nat, props: seq<Token>, i: nat, l: int, res: seq<nat>)
    requires |res| >= 5 && FirstStop(b, s, props, i) && LastNote(b, s, props, i, l) && AllLong(b, s, props, i)
    ensures DriveOf(b, s, props, res) == DriveResult(props, i, l, res)
    decreases |props|
  {
    if i > 0 {
      var noted := if Notes(b, s, props[0]) then WithInt(res, props[0].value, 0) else res;
      DropFirst(b, s, props, i, l);
      OneMoreLong(b, s, props, props[1..], i);
      DriveOfFirst(b, s, props[1..], i - 1, if l >= 0 then l - 1 else -1, noted);
    }
  }

  lemma DropFirst(b: seq<byte>, s: nat, props: seq<Token>, i: nat, l: int)
    requires 0 < i && FirstStop(b, s, props, i) && LastNote(b, s, props, i, l)
    ensures !Stops(b, s, props[0]) && FirstStop(b, s, props[1..], i - 1)
    ensures LastNote(b, s, props[1..], i - 1, if l >= 0 then l - 1 else -1)
    ensures if l >= 0 then Notes(b, s, props[0]) || l > 0 else !Notes(b, s, props[0])
  {
    var rest := props[1..];
    assert forall j :: 0 <= j < |rest| ==> rest[j] == props[j + 1];
  }

  /** The properties up to the i-th are long enough. */
  ghost predicate AllLong(b: seq<byte>, s: nat, props: seq<Token>, i: nat) {
    forall j :: 0 <= j < |props| && j <= i ==> LongProp(b, s, props[j])
  }

  /** LongEnough on a tree: the properties of its virtio nodes are long enough, up to the one
      that ends the search. Other nodes may hold any reg or interrupt property. */
  lemma LongEnoughInTree(b: seq<byte>, s: nat, tokens: seq<Token>, n: Node, i: nat)
    requires Serializes(tokens, n) && FirstStop(b, s, PropsOf(n, IsVirtioName), i)
    ensures LongEnough(b, s, tokens, 0, false) <==> AllLong(b, s, PropsOf(n, IsVirtioName), i)
  {
    assert tokens[0..] == tokens;
    VisibleIsDocumentOrder(tokens, n, IsVirtioName);
    LongEnoughSeesProps(b, s, tokens, 0, false, i);
  }

  lemma {:induction false} LongEnoughSeesProps(b: seq<byte>, s: nat, tokens: seq<Token>, k: nat, inside: bool, i: nat)
    requires k <= |tokens| && FirstStop(b, s, Visible(tokens[k..], IsVirtioName, inside), i)
    ensures LongEnough(b, s, tokens, k, inside) <==> AllLong(b, s, Visible(tokens[k..], IsVirtioName, inside), i)
    decreases |tokens| - k
  {
    if k < |tokens| {
      var t, rest, now := tokens[k], tokens[k + 1..], Inside(tokens[k], IsVirtioName, inside);
      var props, after := Visible(tokens[k..], IsVirtioName, inside), Visible(rest, IsVirtioName, now);
      assert tokens[k..] == [t] + rest;
      VisibleStep(t, rest, IsVirtioName, inside);
      if !(t.Prop? && inside) {
        LongEnoughSeesProps(b, s, tokens, k + 1, now, i);
      } else if i > 0 {
        assert forall j :: 0 <= j < |after| ==> after[j] == props[j + 1];
        assert FirstStop(b, s, after, i - 1);
        LongEnoughSeesProps(b, s, tokens, k + 1, now, i - 1);
        OneMoreLong(b, s, props, after, i);
      }
    }
  }

  lemma OneMoreLong(b: seq<byte>, s: nat, props: seq<Token>, after: seq<Token>, i: nat)
    requires 0 < i && 0 < |props| && props[1..] == after
    ensures AllLong(b, s, props, i) <==> LongProp(b, s, props[0]) && AllLong(b, s, after, i - 1)
  {
    if LongProp(b, s, props[0]) && AllLong(b, s, after, i - 1) {
      forall j | 0 <= j < |props| && j <= i ensures LongProp(b, s, props[j]) {
        assert j > 0 ==> props[j] == after[j - 1];
      }
    }
    assert forall j :: 0 <= j < |after| ==> after[j] == props[j + 1];
  }

  /** get_drive_info on the bytes of any tree, with NOP tokens anywhere: address and size
      come from the first non-empty reg property, in document order, of a virtio node;
      type, number and edge from the last non-empty interrupt property of a virtio node
      before it, whichever node that is; whatever has no source keeps its old value. */
  lemma DriveInfoOfTree(b: seq<byte>, offStruct: nat, s: nat, tokens: seq<Token>, n: Node, i: nat, l: int,
                        res: seq<nat>)
    requires Block(b, offStruct, s, tokens) && Serializes(tokens, n) && |res| >= 5
    requires FirstStop(b, s, PropsOf(n, IsVirtioName), i) && LastNote(b, s, PropsOf(n, IsVirtioName), i, l)
    requires AllLong(b, s, PropsOf(n, IsVirtioName), i)
    ensures AllInReach(b, s, offStruct, tokens, 0, false)
    ensures DriveScan(b, s, offStruct, tokens, 0, false, res) == DriveResult(PropsOf(n, IsVirtioName), i, l, res)
  {
    BlockIsReadable(b, offStruct, tokens, |b| - s);
    LongEnoughInTree(b, s, tokens, n, i);
    LongIsInReach(b, s, offStruct, tokens, 0, false);
    DriveScanSeesProps(b, s, offStruct, tokens, 0, false, res);
    assert tokens[0..] == tokens;
    VisibleIsDocumentOrder(tokens, n, IsVirtioName);
    DriveOfFirst(b, s, PropsOf(n, IsVirtioName), i, l, res);
  }

  // ----- In numbers and names -----

  /** A 64-bit number in two big-endian words. */
  function TwoWords(x: nat): (v: seq<byte>)
    ensures |v| == 8
  {
    Word(x / 0x1_0000_0000) + Word(x % 0x1_0000_0000)
  }

  lemma CellOfNumber(v: seq<byte>, p: nat, x: nat)
    requires x < U64 && At(v, p, TwoWords(x))
    ensures p + 8 <= |v| && Cell2(v, p) == x
  {
    AtParts(v, p, Word(x / 0x1_0000_0000), Word(x % 0x1_0000_0000));
    ReadWord(v, p, x / 0x1_0000_0000);
    ReadWord(v, p + 4, x % 0x1_0000_0000);
  }

  datatype Region = Region(address: nat, size: nat)

  /** The value of a reg property with 2 + 2 cells. */
  function RegValue(regions: seq<Region>): (v: seq<byte>)
    ensures |v| == 16 * |regions|
  {
    if regions == [] then []
    else
      var last := regions[|regions| - 1];
      RegValue(regions[..|regions| - 1]) + (TwoWords(last.address) + TwoWords(last.size))
  }

  function TotalSize(regions: seq<Region>): nat {
    if regions == [] then 0 else TotalSize(regions[..|regions| - 1]) + regions[|regions| - 1].size
  }

  lemma {:induction false} SumOfRegions(regions: seq<Region>, rest: seq<byte>)
    requires forall i :: 0 <= i < |regions| ==> regions[i].address < U64 && regions[i].size < U64
    ensures SumSizes(RegValue(regions) + rest, |regions|) == TotalSize(regions)
    decreases |regions|
  {
    if regions != [] {
      var k := |regions| - 1;
      var last, before := regions[k], RegValue(regions[..k]);
      var entry := TwoWords(last.address) + TwoWords(last.size);
      var value := RegValue(regions) + rest;
      Regroup(before, entry, rest);
      SumOfRegions(regions[..k], entry + rest);
      SizeAt(value, before, TwoWords(last.address), TwoWords(last.size), rest);
      SumStep(value, k, last.size);
    }
  }

  lemma Regroup(a: seq<byte>, b: seq<byte>, c: seq<byte>)
    ensures (a + b) + c == a + (b + c)
  {
  }

  lemma SizeAt(value: seq<byte>, before: seq<byte>, address: seq<byte>, size: seq<byte>, rest: seq<byte>)
    requires value == before + ((address + size) + rest) && |address| == 8
    ensures At(value, |before| + 8, size)
  {
    forall i | 0 <= i < |size| ensures value[|before| + 8 + i] == size[i] {
      assert ((address + size) + rest)[8 + i] == (address + size)[8 + i] == size[i];
    }
  }

  lemma SumStep(value: seq<byte>, k: nat, size: nat)
    requires 16 * k + 16 <= |value| && size < U64 && At(value, 16 * k + 8, TwoWords(size))
    ensures SumSizes(value, k + 1) == SumSizes(value, k) + size
  {
    var n, p := k + 1, 16 * k + 8;
    CellOfNumber(value, p, size);
    assert 16 * (n - 1) + 8 == p;
    assert SumSizes(value, n) == SumSizes(value, n - 1) + Cell2(value, p);
  }

  /** The strings block names a property. */
  ghost predicate Named(b: seq<byte>, s: nat, nameOff: nat, name: seq<byte>) {
    At(b, s + nameOff, name)
  }

  /** "memory", "virtio_mmio", "reg" and its NUL, "interrupts". */
  const MEMORY: seq<byte> := [0x6D, 0x65, 0x6D, 0x6F, 0x72, 0x79]
  const VIRTIO_MMIO: seq<byte> := [0x76, 0x69, 0x72, 0x74, 0x69, 0x6F, 0x5F, 0x6D, 0x6D, 0x69, 0x6F]
  const REG: seq<byte> := [0x72, 0x65, 0x67, 0]
  const INTERRUPTS: seq<byte> := [0x69, 0x6E, 0x74, 0x65, 0x72, 0x72, 0x75, 0x70, 0x74, 0x73, 0]

  /** The bytes of a name that the readers look at. */
  lemma NamesInBytes(name: seq<byte>, b: seq<byte>, s: nat, nameOff: nat)
    requires s + nameOff + 3 <= |b|
    ensures IsMemoryName(name) <==> |name| >= 6 && name[0] == 0x6D && name[1] == 0x65 && name[5] == 0x79
    ensures IsVirtioName(name) <==> |name| >= 3 && name[0] == 0x76 && name[1] == 0x69 && name[2] == 0x72
    ensures NamesReg(b, s, nameOff) <==> b[s + nameOff] == 0x72 && b[s + nameOff + 2] == 0x67
    ensures NamesInt(b, s, nameOff) <==>
      b[s + nameOff] == 0x69 && b[s + nameOff + 1] == 0x6E && b[s + nameOff + 2] == 0x74
  {
  }

  lemma NamedReg(b: seq<byte>, s: nat, t: Token)
    requires t.Prop? && Named(b, s, t.nameOff, REG)
    ensures IsReg(b, s, t) && !IsInt(b, s, t)
  {
    AtByte(b, s + t.nameOff, REG, 0);
    AtByte(b, s + t.nameOff, REG, 2);
  }

  lemma NamedInterrupts(b: seq<byte>, s: nat, t: Token)
    requires t.Prop? && Named(b, s, t.nameOff, INTERRUPTS)
    ensures IsInt(b, s, t) && !IsReg(b, s, t)
  {
    AtByte(b, s + t.nameOff, INTERRUPTS, 0);
    AtByte(b, s + t.nameOff, INTERRUPTS, 1);
    AtByte(b, s + t.nameOff, INTERRUPTS, 2);
  }

  /** The properties of a wanted first child come first, when the root is not wanted. */
  lemma FirstChildFirst(n: Node, wanted: seq<byte> -> bool)
    requires !wanted(n.name) && n.children != [] && wanted(n.children[0].name)
    ensures n.children[0].props <= PropsOf(n, wanted)
  {
    PrefixOfChildren(n, wanted, |n.children|);
  }

  lemma {:induction false} PrefixOfChildren(n: Node, wanted: seq<byte> -> bool, k: nat)
    requires 1 <= k <= |n.children| && wanted(n.children[0].name)
    ensures n.children[0].props <= PropsOfChildren(n, wanted, k)
    decreases k
  {
    if k > 1 {
      PrefixOfChildren(n, wanted, k - 1);
    } else {
      assert PropsOfChildren(n, wanted, 0) == [];
    }
  }

  /** get_total_ram in numbers: on a tree whose root has no name and whose first subnode is
      named memory..., with a first property named reg that lists regions, it returns the
      sum of their sizes, whatever else the tree holds. */
  lemma TotalRamInNumbers(b: seq<byte>, s: nat, tokens: seq<Token>, n: Node, reg: Token, regions: seq<Region>)
    requires Serializes(tokens, n) && n.name == [] && n.children != []
    requires MEMORY <= n.children[0].name && [reg] <= n.children[0].props
    requires reg.Prop? && Named(b, s, reg.nameOff, REG) && reg.value == RegValue(regions)
    requires forall i :: 0 <= i < |regions| ==> regions[i].address < U64 && regions[i].size < U64
    ensures RamScan(b, s, tokens, 0, false) == TotalSize(regions) % 0x1_0000_0000_0000_0000
  {
    MemoryRegFirst(b, s, n, reg);
    TotalRamOfTree(b, s, tokens, n, 0);
    SumOfAll(regions);
  }

  lemma MemoryRegFirst(b: seq<byte>, s: nat, n: Node, reg: Token)
    requires n.name == [] && n.children != []
    requires MEMORY <= n.children[0].name && [reg] <= n.children[0].props
    requires reg.Prop? && Named(b, s, reg.nameOff, REG)
    ensures FirstReg(b, s, PropsOf(n, IsMemoryName), 0) && PropsOf(n, IsMemoryName)[0] == reg
  {
    var name, props := n.children[0].name, PropsOf(n, IsMemoryName);
    assert name[0] == MEMORY[0] && name[1] == MEMORY[1] && name[5] == MEMORY[5];
    FirstChildFirst(n, IsMemoryName);
    assert props[0] == n.children[0].props[0] == reg;
    NamedReg(b, s, reg);
  }

  lemma SumOfAll(regions: seq<Region>)
    requires forall i :: 0 <= i < |regions| ==> regions[i].address < U64 && regions[i].size < U64
    ensures SumSizes(RegValue(regions), |RegValue(regions)| / 16) == TotalSize(regions)
  {
    SumOfRegions(regions, []);
    assert RegValue(regions) + [] == RegValue(regions);
    DivModUnique(|RegValue(regions)|, 16, |regions|, 0);
  }

  /** get_drive_info in numbers: entries 0 and 1 are the address and the size that the reg
      property which ends the search begins with; entries 2, 3 and 4 the three numbers that
      the last interrupt property before it begins with; all others keep their values. */
  lemma DriveInfoInNumbers(b: seq<byte>, offStruct: nat, s: nat, tokens: seq<Token>, n: Node, i: nat, l: int,
                           res: seq<nat>, address: nat, size: nat, kind: nat, number: nat, edge: nat)
    requires Block(b, offStruct, s, tokens) && Serializes(tokens, n) && |res| >= 5
    requires FirstStop(b, s, PropsOf(n, IsVirtioName), i) && LastNote(b, s, PropsOf(n, IsVirtioName), i, l)
    requires AllLong(b, s, PropsOf(n, IsVirtioName), i)
    requires address < U64 && size < U64 && kind < WORD_LIMIT && number < WORD_LIMIT && edge < WORD_LIMIT
    requires i < |PropsOf(n, IsVirtioName)| ==>
               TwoWords(address) + TwoWords(size) <= PropsOf(n, IsVirtioName)[i].value
    requires l >= 0 ==> Word(kind) + Word(number) + Word(edge) <= PropsOf(n, IsVirtioName)[l].value
    ensures var out := DriveScan(b, s, offStruct, tokens, 0, false, res);
      && |out| == |res|
      && (i < |PropsOf(n, IsVirtioName)| ==> out[0] == address && out[1] == size)
      && (i == |PropsOf(n, IsVirtioName)| ==> out[0] == res[0] && out[1] == res[1])
      && (l >= 0 ==> out[2] == kind && out[3] == number && out[4] == edge)
      && (l < 0 ==> out[2] == res[2] && out[3] == res[3] && out[4] == res[4])
      && out[5..] == res[5..]
  {
    var props := PropsOf(n, IsVirtioName);
    DriveInfoOfTree(b, offStruct, s, tokens, n, i, l, res);
    if i < |props| {
      RegNumbers(props[i].value, address, size);
    }
    if l >= 0 {
      IntNumbers(props[l].value, kind, number, edge);
    }
  }

  lemma RegNumbers(v: seq<byte>, address: nat, size: nat)
    requires address < U64 && size < U64 && TwoWords(address) + TwoWords(size) <= v
    ensures Cell2(v, 0) == address && Cell2(v, 8) == size
  {
    AtParts(v, 0, TwoWords(address), TwoWords(size));
    CellOfNumber(v, 0, address);
    CellOfNumber(v, 8, size);
  }

  lemma IntNumbers(v: seq<byte>, kind: nat, number: nat, edge: nat)
    requires kind < WORD_LIMIT && number < WORD_LIMIT && edge < WORD_LIMIT
    requires Word(kind) + Word(number) + Word(edge) <= v
    ensures ReadB32(v, 0) == kind && ReadB32(v, 4) == number && ReadB32(v, 8) == edge
  {
    AtParts(v, 0, Word(kind) + Word(number), Word(edge));
    AtParts(v, 0, Word(kind), Word(number));
    ReadWord(v, 0, kind);
    ReadWord(v, 4, number);
    ReadWord(v, 8, edge);
  }

  /** The same on a tree as QEMU makes it: a first subnode named virtio_mmio..., with the
      properties interrupts and reg in this order. */
  lemma DriveInfoOfVirtioNode(b: seq<byte>, offStruct: nat, s: nat, tokens: seq<Token>, n: Node, res: seq<nat>,
                              irq: Token, reg: Token, address: nat, size: nat, kind: nat, number: nat, edge: nat)
    requires Block(b, offStruct, s, tokens) && Serializes(tokens, n) && |res| >= 5
    requires n.name == [] && n.children != [] && VIRTIO_MMIO <= n.children[0].name
    requires [irq, reg] <= n.children[0].props && irq.Prop? && reg.Prop?
    requires Named(b, s, irq.nameOff, INTERRUPTS) && irq.value == Word(kind) + Word(number) + Word(edge)
    requires Named(b, s, reg.nameOff, REG) && reg.value == TwoWords(address) + TwoWords(size)
    requires address < U64 && size < U64 && kind < WORD_LIMIT && number < WORD_LIMIT && edge < WORD_LIMIT
    ensures DriveScan(b, s, offStruct, tokens, 0, false, res) == [address, size, kind, number, edge] + res[5..]
  {
    var name, props := n.children[0].name, PropsOf(n, IsVirtioName);
    assert name[0] == VIRTIO_MMIO[0] && name[1] == VIRTIO_MMIO[1] && name[2] == VIRTIO_MMIO[2];
    FirstChildFirst(n, IsVirtioName);
    assert props[0] == n.children[0].props[0] == irq && props[1] == n.children[0].props[1] == reg;
    NamedReg(b, s, reg);
    NamedInterrupts(b, s, irq);
    DriveInfoInNumbers(b, offStruct, s, tokens, n, 1, 0, res, address, size, kind, number, edge);
    var out := DriveScan(b, s, offStruct, tokens, 0, false, res);
    assert out == out[..5] + out[5..];
  }
}
