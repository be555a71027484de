/**
 * HID short items: the byte-level syntax of a report descriptor
 * (section 6.2.2.2 of the USB Device Class Definition for HID 1.11).
 *
 * A short item is one prefix byte followed by 0, 1, 2 or 4 data bytes.  The
 * prefix packs bTag (bits 7..4), bType (bits 3..2: 0 Main, 1 Global, 2 Local,
 * 3 reserved) and bSize (bits 1..0: 0, 1, 2 or, for code 3, 4 data bytes).
 * The prefix 0xFE opens a long item (section 6.2.2.3), which no report
 * descriptor of this device uses and this parser refuses.
 */
module HidItems {
  import opened Wrappers

  datatype ItemType = Main | Global | Local

  /** One short item: its type, its 4-bit tag and its data bytes. */
  datatype Item = Item(kind: ItemType, tag: bv8, data: seq<bv8>)

  /** Where, counted in bytes from the start of the descriptor, parsing stopped. */
  datatype ParseError =
    | Truncated(offset: nat)     // the item's data runs past the end
    | LongItem(offset: nat)      // prefix 0xFE
    | ReservedType(offset: nat)  // bType == 3

  const LongItemPrefix: bv8 := 0xFE

  predicate ValidDataSize(n: nat) {
    n == 0 || n == 1 || n == 2 || n == 4
  }

  /** An item that has a short-item encoding. */
  predicate WellFormed(it: Item) {
    it.tag < 16 && ValidDataSize(|it.data|)
  }

  predicate AllWellFormed(items: seq<Item>) {
    forall k :: 0 <= k < |items| ==> WellFormed(items[k])
  }

  function TypeCode(t: ItemType): (c: bv8)
    ensures c < 3
  {
    match t
    case Main => 0
    case Global => 1
    case Local => 2
  }

  function TypeOfCode(c: bv8): (t: ItemType)
    requires c < 3
    ensures TypeCode(t) == c
  {
    if c == 0 then Main else if c == 1 then Global else Local
  }

  function SizeCode(n: nat): (c: bv8)
    requires ValidDataSize(n)
    ensures c < 4
  {
    if n == 4 then 3 else n as bv8
  }

  function DataSize(c: bv8): (n: nat)
    requires c < 4
    ensures ValidDataSize(n) && SizeCode(n) == c
  {
    if c == 3 then 4 else c as nat
  }

  function Prefix(it: Item): bv8
    requires WellFormed(it)
  {
    (it.tag << 4) | (TypeCode(it.kind) << 2) | SizeCode(|it.data|)
  }

  /** The prefix of a well-formed item gives back its tag, type and size. */
  lemma PrefixFields(it: Item)
    requires WellFormed(it)
    ensures Prefix(it) != LongItemPrefix
    ensures Prefix(it) >> 4 == it.tag
    ensures (Prefix(it) >> 2) & 3 == TypeCode(it.kind)
    ensures Prefix(it) & 3 == SizeCode(|it.data|)
  {
  }

  /** A prefix byte of a non-reserved type is rebuilt from the fields the parser reads. */
  lemma PrefixOfFields(p: bv8, data: seq<bv8>)
    requires (p >> 2) & 3 < 3
    requires |data| == DataSize(p & 3)
    ensures WellFormed(Item(TypeOfCode((p >> 2) & 3), p >> 4, data))
    ensures Prefix(Item(TypeOfCode((p >> 2) & 3), p >> 4, data)) == p
  {
    var it := Item(TypeOfCode((p >> 2) & 3), p >> 4, data);
    assert TypeCode(it.kind) == (p >> 2) & 3;
    assert SizeCode(|data|) == p & 3;
    assert ((p >> 4) << 4) | (((p >> 2) & 3) << 2) | (p & 3) == p;
  }

  function EncodeItem(it: Item): (r: seq<bv8>)
    requires WellFormed(it)
    ensures |r| == 1 + |it.data|
  {
    [Prefix(it)] + it.data
  }

  /** The descriptor bytes of a sequence of items. */
  function Encode(items: seq<Item>): seq<bv8>
    requires AllWellFormed(items)
  {
    if items == [] then [] else EncodeItem(items[0]) + Encode(items[1..])
  }

  function ShiftError(e: ParseError, n: nat): (r: ParseError)
    ensures r.offset == e.offset + n
  {
    match e
    case Truncated(k) => Truncated(k + n)
    case LongItem(k) => LongItem(k + n)
    case ReservedType(k) => ReservedType(k + n)
  }

  /**
   * Reads the short item at the start of non-empty bytes `s`, giving the
   * item and the number of bytes it occupies.
   */
  function ParseHead(s: seq<bv8>): (r: Result<(Item, nat), ParseError>)
    requires s != []
    ensures r.Ok? ==> WellFormed(r.value.0) && r.value.1 == 1 + |r.value.0.data| <= |s|
    ensures r.Ok? ==> s[..r.value.1] == EncodeItem(r.value.0)
    ensures r.Err? ==> r.error.offset == 0
  {
    var p := s[0];
    if p == LongItemPrefix then Err(LongItem(0))
    else if (p >> 2) & 3 == 3 then Err(ReservedType(0))
    else
      var n := DataSize(p & 3);
      if |s| < 1 + n then Err(Truncated(0))
      else
        PrefixOfFields(p, s[1..1 + n]);
        Ok((Item(TypeOfCode((p >> 2) & 3), p >> 4, s[1..1 + n]), 1 + n))
  }

  /** The head of an encoding is read back as the item that was encoded. */
  lemma ParseHeadEncode(it: Item, tail: seq<bv8>)
    requires WellFormed(it)
    ensures ParseHead(EncodeItem(it) + tail) == Ok((it, 1 + |it.data|))
  {
    var s := EncodeItem(it) + tail;
    PrefixFields(it);
    var p := Prefix(it);
    assert s[0] == p;
    assert TypeOfCode((p >> 2) & 3) == it.kind;
    assert DataSize(p & 3) == |it.data|;
    assert s[1..1 + |it.data|] == it.data;
  }

  /**
   * Splits descriptor bytes into short items.  On success every item is
   * well formed; on failure the offset names a byte of the input.
   */
  function Parse(s: seq<bv8>): (r: Result<seq<Item>, ParseError>)
    ensures r.Ok? ==> AllWellFormed(r.value)
    ensures r.Err? ==> r.error.offset < |s|
    decreases |s|
  {
    if s == [] then Ok([])
    else
      match ParseHead(s)
      case Err(e) => Err(e)
      case Ok((it, n)) =>
        match Parse(s[n..])
        case Ok(rest) => Ok([it] + rest)
        case Err(e) => Err(ShiftError(e, n))
  }

  /** Parsing the encoding of well-formed items gives those items back. */
  lemma {:induction false} ParseEncode(items: seq<Item>)
    requires AllWellFormed(items)
    ensures Parse(Encode(items)) == Ok(items)
  {
    if items != [] {
      var it := items[0];
      var tail := Encode(items[1..]);
      ParseHeadEncode(it, tail);
      assert (EncodeItem(it) + tail)[1 + |it.data|..] == tail;
      ParseEncode(items[1..]);
      assert [it] + items[1..] == items;
    }
  }

  /** How a successful parse of non-empty bytes is put together. */
  lemma ParseCons(s: seq<bv8>)
    requires s != [] && Parse(s).Ok?
    ensures ParseHead(s).Ok?
    ensures Parse(s[ParseHead(s).value.1..]).Ok?
    ensures Parse(s).value == [ParseHead(s).value.0] + Parse(s[ParseHead(s).value.1..]).value
  {
  }

  /** A successful parse accounts for every byte: encoding its items gives the input back. */
  lemma {:induction false} EncodeParse(s: seq<bv8>)
    requires Parse(s).Ok?
    ensures Encode(Parse(s).value) == s
    decreases |s|
  {
    if s != [] {
      ParseCons(s);
      var (it, n) := ParseHead(s).value;
      var items := Parse(s).value;
      EncodeParse(s[n..]);
      assert items[0] == it && items[1..] == Parse(s[n..]).value;
      assert Encode(items) == s[..n] + s[n..];
      SplitAt(s, n);
    }
  }

  lemma SplitAt(s: seq<bv8>, n: nat)
    requires n <= |s|
    ensures s[..n] + s[n..] == s
  {
  }

  /** Encoding distributes over concatenation: items are encoded one after the other. */
  lemma {:induction false} EncodeAppend(a: seq<Item>, b: seq<Item>)
    requires AllWellFormed(a) && AllWellFormed(b)
    ensures AllWellFormed(a + b)
    ensures Encode(a + b) == Encode(a) + Encode(b)
    decreases |a|
  {
    if a == [] {
      assert a + b == b;
    } else {
      EncodeAppend(a[1..], b);
      assert (a + b)[0] == a[0] && (a + b)[1..] == a[1..] + b;
      assert Encode(a + b) == EncodeItem(a[0]) + (Encode(a[1..]) + Encode(b));
    }
  }
}
