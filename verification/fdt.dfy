/** The structure block of a flattened device tree (Devicetree Specification, section 5.4):
    tokens, their bytes, trees, and what a reader that follows the current node sees. */
module Fdt {

  type byte = x: int | 0 <= x < 256

  const WORD_LIMIT := 0x1_0000_0000
  const TOKEN_BEGIN_NODE := 1
  const TOKEN_END_NODE := 2
  const TOKEN_PROP := 3
  const TOKEN_NOP := 4
  const TOKEN_END := 9

  // ----- Bytes -----

  /** A big-endian word. */
  function Word(w: nat): (bs: seq<byte>)
    ensures |bs| == 4
  {
    [w / 256 / 256 / 256 % 256, w / 256 / 256 % 256, w / 256 % 256, w % 256]
  }

  function ReadB32(b: seq<byte>, p: nat): (w: nat)
    requires p + 4 <= |b|
    ensures w < WORD_LIMIT
  {
    (b[p] as int) * 0x100_0000 + (b[p + 1] as int) * 0x1_0000 + (b[p + 2] as int) * 0x100 + b[p + 3] as int
  }

  /** The bytes `s` stand at index p. */
  ghost predicate At(b: seq<byte>, p: nat, s: seq<byte>) {
    p + |s| <= |b| && forall i {:trigger s[i]} :: 0 <= i < |s| ==> b[p + i] == s[i]
  }

  lemma AtParts(b: seq<byte>, p: nat, s: seq<byte>, t: seq<byte>)
    ensures At(b, p, s + t) <==> At(b, p, s) && At(b, p + |s|, t)
  {
    if At(b, p, s + t) {
      forall i | 0 <= i < |s| ensures b[p + i] == s[i] {
        assert (s + t)[i] == s[i];
      }
      forall i | 0 <= i < |t| ensures b[p + |s| + i] == t[i] {
        assert (s + t)[|s| + i] == t[i];
      }
    }
  }

  lemma AtByte(b: seq<byte>, p: nat, s: seq<byte>, i: nat)
    requires At(b, p, s) && i < |s|
    ensures b[p + i] == s[i]
  {
  }

  /** Reading back a word that was written. */
  lemma ReadWord(b: seq<byte>, p: nat, w: nat)
    requires w < WORD_LIMIT && At(b, p, Word(w))
    ensures ReadB32(b, p) == w
  {
    AtByte(b, p, Word(w), 0);
    AtByte(b, p, Word(w), 1);
    AtByte(b, p, Word(w), 2);
    AtByte(b, p, Word(w), 3);
    BytesOfWord(w);
  }

  lemma BytesOfWord(w: nat)
    requires w < WORD_LIMIT
    ensures ReadB32(Word(w), 0) == w
  {
    var q := w / 256;
    var r := q / 256;
    assert w == 256 * q + w % 256;
    assert q == 256 * r + q % 256;
    assert r == 256 * (r / 256) + r % 256;
  }

  /** Bytes up to the next multiple of 4. */
  function Pad(n: nat): (k: nat)
    ensures k < 4
  {
    if n % 4 == 0 then 0 else 4 - n % 4
  }

  lemma PadAligns(n: nat)
    ensures (n + Pad(n)) % 4 == 0
  {
  }

  function Zeros(n: nat): (s: seq<byte>)
    requires n < 4
    ensures |s| == n
  {
    [0, 0, 0][..n]
  }

  // ----- Tokens -----

  /** Other is any word that is no token, with the word behind it. */
  datatype Token =
    | Begin(name: seq<byte>)
    | Prop(nameOff: nat, value: seq<byte>)
    | EndNode
    | Nop
    | Other(word: seq<byte>, skipped: seq<byte>)

  function Code(t: Token): nat
    requires t.Other? ==> |t.word| == 4
  {
    match t
    case Begin(_) => TOKEN_BEGIN_NODE
    case Prop(_, _) => TOKEN_PROP
    case EndNode => TOKEN_END_NODE
    case Nop => TOKEN_NOP
    case Other(word, _) => ReadB32(word, 0)
  }

  /** What the specification asks of a token, for a strings block with `strings` bytes
      behind it. */
  ghost predicate WellFormed(t: Token, strings: nat) {
    match t
    case Begin(name) => forall i :: 0 <= i < |name| ==> name[i] != 0
    case Prop(nameOff, value) => nameOff + 3 <= strings && nameOff < WORD_LIMIT && |value| < WORD_LIMIT
    case EndNode => true
    case Nop => true
    case Other(word, skipped) =>
      |word| == |skipped| == 4 && ReadB32(word, 0) !in {1, 2, 3, 4, 9} && word[1] != 'y' as int
  }

  ghost predicate AllWellFormed(tokens: seq<Token>, strings: nat) {
    forall i :: 0 <= i < |tokens| ==> WellFormed(tokens[i], strings)
  }

  function Payload(t: Token): seq<byte> {
    match t
    case Begin(name) => name + ([0] + Zeros(Pad(|name| + 1)))
    case Prop(nameOff, value) => Word(|value|) + (Word(nameOff) + (value + Zeros(Pad(|value|))))
    case EndNode => []
    case Nop => []
    case Other(_, skipped) => skipped
  }

  const END_WORD: seq<byte> := [0, 0, 0, TOKEN_END]

  function FirstWord(t: Token): (s: seq<byte>) {
    match t
    case Begin(_) => [0, 0, 0, TOKEN_BEGIN_NODE]
    case Prop(_, _) => [0, 0, 0, TOKEN_PROP]
    case EndNode => [0, 0, 0, TOKEN_END_NODE]
    case Nop => [0, 0, 0, TOKEN_NOP]
    case Other(word, _) => word
  }

  /** The bytes of the payload. */
  function Length(t: Token): nat {
    match t
    case Begin(name) => |name| + 1 + Pad(|name| + 1)
    case Prop(_, value) => 8 + (|value| + Pad(|value|))
    case EndNode => 0
    case Nop => 0
    case Other(_, _) => 4
  }

  function EncodeToken(t: Token): (s: seq<byte>) {
    FirstWord(t) + Payload(t)
  }

  /** The tokens from k on, and the end token. */
  function Encode(tokens: seq<Token>, k: nat): (s: seq<byte>)
    requires k <= |tokens|
    decreases |tokens| - k
  {
    if k == |tokens| then END_WORD else EncodeToken(tokens[k]) + Encode(tokens, k + 1)
  }

  /** Every token advances the cursor by a positive multiple of 4. */
  lemma LengthIsAligned(t: Token)
    ensures Length(t) % 4 == 0
  {
    if t.Begin? {
      PadAligns(|t.name| + 1);
    } else if t.Prop? {
      PadAligns(|t.value|);
      EightMore(|t.value| + Pad(|t.value|));
    }
  }

  lemma EightMore(n: nat)
    requires n % 4 == 0
    ensures (8 + n) % 4 == 0
  {
  }

  lemma LengthOfToken(t: Token)
    requires t.Other? ==> |t.word| == |t.skipped| == 4
    ensures |FirstWord(t)| == 4 && |Payload(t)| == Length(t)
  {
  }

  /** The specification's bytes: two nodes, named a and abc. */
  lemma NodesInBytes()
    ensures EncodeToken(Begin([0x61])) == [0, 0, 0, 1, 0x61, 0, 0, 0]
    ensures EncodeToken(Begin([0x61, 0x62, 0x63])) == [0, 0, 0, 1, 0x61, 0x62, 0x63, 0]
    ensures EncodeToken(EndNode) == [0, 0, 0, 2] && EncodeToken(Nop) == [0, 0, 0, 4] && END_WORD == [0, 0, 0, 9]
  {
  }

  /** And a property with the name at offset 5 and the value 7. */
  lemma PropInBytes()
    ensures EncodeToken(Prop(5, [7])) == [0, 0, 0, 3, 0, 0, 0, 1, 0, 0, 0, 5, 7, 0, 0, 0]
    ensures Word(0x0102_0304) == [1, 2, 3, 4] && ReadB32([1, 2, 3, 4], 0) == 0x0102_0304
  {
  }

  /** The cursor stands at token k: its word and payload are there, and behind them the
      cursor stands at token k + 1. */
  ghost predicate Cursor(b: seq<byte>, p: nat, tokens: seq<Token>, k: nat)
    requires k <= |tokens|
    decreases |tokens| - k
  {
    if k == |tokens| then At(b, p, END_WORD)
    else
      && At(b, p, FirstWord(tokens[k]))
      && At(b, p + 4, Payload(tokens[k]))
      && Cursor(b, p + 4 + Length(tokens[k]), tokens, k + 1)
  }

  /** Where the encoding stands, a cursor can follow it. */
  lemma {:induction false} EncodingIsFollowed(b: seq<byte>, p: nat, tokens: seq<Token>, k: nat, strings: nat)
    requires k <= |tokens| && AllWellFormed(tokens, strings) && At(b, p, Encode(tokens, k))
    ensures Cursor(b, p, tokens, k)
    decreases |tokens| - k
  {
    if k < |tokens| {
      var t, k' := tokens[k], k + 1;
      var rest, p' := Encode(tokens, k'), p + 4 + Length(t);
      OtherLengths(t, strings);
      TokenThenRest(b, p, t, rest, Encode(tokens, k), p');
      EncodingIsFollowed(b, p', tokens, k', strings);
    }
  }

  lemma OtherLengths(t: Token, strings: nat)
    requires WellFormed(t, strings)
    ensures t.Other? ==> |t.word| == |t.skipped| == 4
  {
  }

  lemma TokenThenRest(b: seq<byte>, p: nat, t: Token, rest: seq<byte>, all: seq<byte>, p': nat)
    requires (t.Other? ==> |t.word| == |t.skipped| == 4) && all == EncodeToken(t) + rest && At(b, p, all)
    requires p' == p + 4 + Length(t)
    ensures At(b, p, FirstWord(t)) && At(b, p + 4, Payload(t)) && At(b, p', rest)
  {
    var first, payload := FirstWord(t), Payload(t);
    LengthOfToken(t);
    AtParts(b, p, first + payload, rest);
    AtParts(b, p, first, payload);
  }

  lemma FirstWordAt(b: seq<byte>, p: nat, t: Token, strings: nat)
    requires WellFormed(t, strings) && At(b, p, FirstWord(t))
    ensures p + 4 <= |b| && ReadB32(b, p) == Code(t) && b[p + 1] != 'y' as int
  {
    AtByte(b, p, FirstWord(t), 0);
    AtByte(b, p, FirstWord(t), 1);
    AtByte(b, p, FirstWord(t), 2);
    AtByte(b, p, FirstWord(t), 3);
  }

  lemma EndWordAt(b: seq<byte>, p: nat)
    requires At(b, p, END_WORD)
    ensures p + 4 <= |b| && ReadB32(b, p) == TOKEN_END && b[p + 1] == 0
  {
    AtByte(b, p, END_WORD, 0);
    AtByte(b, p, END_WORD, 1);
    AtByte(b, p, END_WORD, 2);
    AtByte(b, p, END_WORD, 3);
  }

  // ----- What a reader sees -----

  /** The properties met while the current node is one of the wanted ones: a node's name
      decides for the properties behind it, up to the next node or end of node. */
  ghost function Visible(tokens: seq<Token>, wanted: seq<byte> -> bool, inside: bool): (props: seq<Token>)
    ensures forall i :: 0 <= i < |props| ==> props[i].Prop?
  {
    if tokens == [] then []
    else match tokens[0]
      case Begin(name) => Visible(tokens[1..], wanted, wanted(name))
      case Prop(_, _) => (if inside then [tokens[0]] else []) + Visible(tokens[1..], wanted, inside)
      case EndNode => Visible(tokens[1..], wanted, false)
      case Nop => Visible(tokens[1..], wanted, inside)
      case Other(_, _) => Visible(tokens[1..], wanted, inside)
  }

  /** Whether the reader is inside a wanted node behind a token. */
  function Inside(t: Token, wanted: seq<byte> -> bool, inside: bool): bool {
    if t.Begin? then wanted(t.name) else if t.EndNode? then false else inside
  }

  lemma VisibleStep(t: Token, rest: seq<Token>, wanted: seq<byte> -> bool, inside: bool)
    ensures var props := Visible([t] + rest, wanted, inside);
      var after := Visible(rest, wanted, Inside(t, wanted, inside));
      if t.Prop? && inside then props != [] && props[0] == t && props[1..] == after else props == after
  {
    assert ([t] + rest)[1..] == rest;
  }

  // ----- Trees -----

  datatype Node = Node(name: seq<byte>, props: seq<Token>, children: seq<Node>)

  /** A node lists its properties before its subnodes. */
  function Flatten(n: Node): seq<Token>
    decreases n, |n.children| + 1
  {
    [Begin(n.name)] + n.props + FlattenAll(n, |n.children|) + [EndNode]
  }

  function FlattenAll(n: Node, k: nat): seq<Token>
    requires k <= |n.children|
    decreases n, k
  {
    if k == 0 then [] else FlattenAll(n, k - 1) + Flatten(n.children[k - 1])
  }

  ghost predicate PropsOnly(props: seq<Token>) {
    forall i :: 0 <= i < |props| ==> props[i].Prop?
  }

  ghost predicate IsTree(n: Node) {
    PropsOnly(n.props) && forall i :: 0 <= i < |n.children| ==> IsTree(n.children[i])
  }

  /** The properties of the wanted nodes, in document order. */
  ghost function PropsOf(n: Node, wanted: seq<byte> -> bool): seq<Token>
    decreases n, |n.children| + 1
  {
    (if wanted(n.name) then n.props else []) + PropsOfChildren(n, wanted, |n.children|)
  }

  ghost function PropsOfChildren(n: Node, wanted: seq<byte> -> bool, k: nat): seq<Token>
    requires k <= |n.children|
    decreases n, k
  {
    if k == 0 then [] else PropsOfChildren(n, wanted, k - 1) + PropsOf(n.children[k - 1], wanted)
  }

  lemma {:induction false} VisibleProps(props: seq<Token>, rest: seq<Token>, wanted: seq<byte> -> bool, inside: bool)
    requires PropsOnly(props)
    ensures Visible(props + rest, wanted, inside) == (if inside then props else []) + Visible(rest, wanted, inside)
    decreases |props|
  {
    if props == [] {
      assert props + rest == rest;
    } else {
      assert (props + rest)[1..] == props[1..] + rest;
      VisibleProps(props[1..], rest, wanted, inside);
    }
  }

  /** A reader that follows the tokens of a tree sees exactly the properties of the wanted
      nodes, in document order, and leaves the tree outside every node. */
  lemma {:induction false} VisibleInTree(n: Node, rest: seq<Token>, wanted: seq<byte> -> bool, inside: bool)
    requires IsTree(n)
    ensures Visible(Flatten(n) + rest, wanted, inside) == PropsOf(n, wanted) + Visible(rest, wanted, false)
    decreases n, |n.children| + 1
  {
    var body := FlattenAll(n, |n.children|) + ([EndNode] + rest);
    var tokens := Flatten(n) + rest;
    assert tokens[0] == Begin(n.name);
    assert tokens[1..] == n.props + body;
    VisibleProps(n.props, body, wanted, wanted(n.name));
    VisibleInChildren(n, |n.children|, [EndNode] + rest, wanted, wanted(n.name));
    assert ([EndNode] + rest)[1..] == rest;
  }

  lemma {:induction false} VisibleInChildren(n: Node, k: nat, rest: seq<Token>, wanted: seq<byte> -> bool, inside: bool)
    requires IsTree(n) && k <= |n.children|
    ensures Visible(FlattenAll(n, k) + rest, wanted, inside)
      == PropsOfChildren(n, wanted, k) + Visible(rest, wanted, if k == 0 then inside else false)
    decreases n, k
  {
    if k == 0 {
      assert [] + rest == rest;
    } else {
      var last := Flatten(n.children[k - 1]);
      assert FlattenAll(n, k) + rest == FlattenAll(n, k - 1) + (last + rest);
      VisibleInChildren(n, k - 1, last + rest, wanted, inside);
      VisibleInTree(n.children[k - 1], rest, wanted, if k == 1 then inside else false);
    }
  }

  function WithoutNops(tokens: seq<Token>): seq<Token> {
    if tokens == [] then []
    else if tokens[0].Nop? then WithoutNops(tokens[1..])
    else [tokens[0]] + WithoutNops(tokens[1..])
  }

  /** NOP tokens, anywhere, change nothing. */
  lemma {:induction false} NopsAreInvisible(tokens: seq<Token>, wanted: seq<byte> -> bool, inside: bool)
    ensures Visible(WithoutNops(tokens), wanted, inside) == Visible(tokens, wanted, inside)
    decreases |tokens|
  {
    if tokens != [] {
      var t := tokens[0];
      NopsAreInvisible(tokens[1..], wanted, Inside(t, wanted, inside));
      if !t.Nop? {
        assert WithoutNops(tokens)[1..] == WithoutNops(tokens[1..]);
      }
    }
  }

  /** A block whose tokens, without its NOPs, are those of a tree. */
  ghost predicate Serializes(tokens: seq<Token>, n: Node) {
    IsTree(n) && WithoutNops(tokens) == Flatten(n)
  }

  lemma VisibleIsDocumentOrder(tokens: seq<Token>, n: Node, wanted: seq<byte> -> bool)
    requires Serializes(tokens, n)
    ensures Visible(tokens, wanted, false) == PropsOf(n, wanted)
  {
    NopsAreInvisible(tokens, wanted, false);
    VisibleInTree(n, [], wanted, false);
    assert Flatten(n) + [] == Flatten(n);
  }
}
