/** The fixed-layout trade order record (`struct Order`) and its helpers
    (`namespace OrderUtils`). The record is a value: it is copied whole into
    the ring buffer's slots and the batcher's pending list, so it is a
    datatype here, and its in-place setters return an updated copy. */
module Orders {
  import opened Wrappers
  import Bits

  type U8 = x: int | 0 <= x < 0x100
  type U16 = x: int | 0 <= x < 0x1_0000
  type U32 = x: int | 0 <= x < 0x1_0000_0000
  type U64 = x: int | 0 <= x < 0x1_0000_0000_0000_0000

  /** The string terminator `'\0'`. */
  const NUL: U8 := 0

  /** Size of the `char symbol[16]` field; at most SYMBOL_SIZE - 1 bytes are significant. */
  const SYMBOL_SIZE: nat := 16

  type SymbolBytes = s: seq<U8> | |s| == SYMBOL_SIZE witness seq(SYMBOL_SIZE, _ => NUL)

  datatype OrderType = Buy | Sell

  datatype OrderStatus = Pending | Filled | Cancelled | Rejected

  datatype Order = Order(
    orderId: U64,
    timestampNs: U64,
    symbol: SymbolBytes,
    quantity: U32,
    priceCents: U32,
    orderType: OrderType,
    status: OrderStatus,
    reserved: U16)

  // ---------------------------------------------------------------------------
  // C strings

  /** The bytes a C string reader sees: everything before the first NUL
      (all of `s` when it holds none). This is what `std::string(symbol)`
      copies and where `strncpy` stops reading its source. */
  function CString(s: seq<U8>): (r: seq<U8>)
    ensures r <= s
    ensures NUL !in r
    ensures |r| < |s| ==> s[|r|] == NUL
  {
    if s == [] || s[0] == NUL then [] else [s[0]] + CString(s[1..])
  }

  /** The three properties of CString determine it. */
  lemma CStringUnique(s: seq<U8>, t: seq<U8>)
    requires t <= s && NUL !in t && (|t| < |s| ==> s[|t|] == NUL)
    ensures CString(s) == t
  {
  }

  /** The first n elements of s, or all of s when it is shorter. */
  function Truncate(s: seq<U8>, n: nat): (r: seq<U8>)
  {
    if |s| <= n then s else s[..n]
  }

  // ---------------------------------------------------------------------------
  // Construction and the symbol field

  /** The symbol field after `strncpy(symbol, sym.c_str(), 15); symbol[15] = '\0';`:
      the bytes of sym before its first NUL, at most 15 of them, then NUL padding. */
  function SymbolField(sym: seq<U8>): (f: SymbolBytes)
  {
    var src := CString(sym);
    seq(SYMBOL_SIZE, i requires 0 <= i < SYMBOL_SIZE =>
      if i < SYMBOL_SIZE - 1 && i < |src| then src[i] else NUL)
  }

  /** Reading the symbol back gives the input up to its first NUL, cut to 15 bytes. */
  lemma SymbolRoundTrip(sym: seq<U8>)
    ensures CString(SymbolField(sym)) == Truncate(CString(sym), SYMBOL_SIZE - 1)
    ensures SymbolField(sym)[SYMBOL_SIZE - 1] == NUL
  {
    var src := CString(sym);
    var t := Truncate(src, SYMBOL_SIZE - 1);
    var f := SymbolField(sym);
    assert t <= f by {
      forall i | 0 <= i < |t| ensures t[i] == f[i] {
      }
    }
    assert f[|t|] == NUL;
    CStringUnique(f, t);
  }

  /** For a symbol without embedded NUL, the round trip is plain truncation to 15 bytes. */
  lemma SymbolRoundTripNulFree(sym: seq<U8>)
    requires NUL !in sym
    ensures CString(SymbolField(sym)) == Truncate(sym, SYMBOL_SIZE - 1)
  {
    CStringUnique(sym, sym);
    SymbolRoundTrip(sym);
  }

  /** `Order()`: every field zero, BUY, PENDING, an all-NUL symbol. */
  function DefaultOrder(): (o: Order)
    ensures !IsValid(o)
    ensures IsBuy(o) && IsPending(o)
    ensures o.symbol == SymbolField([]) && GetSymbol(o) == []
    ensures ValueCents(o) == 0
  {
    Order(0, 0, seq(SYMBOL_SIZE, _ => NUL), 0, 0, Buy, Pending, 0)
  }

  /** `Order(id, sym, t, price, qty)`, with the price already in cents and the
      creation time passed in as timestampNs. */
  function NewOrder(id: U64, sym: seq<U8>, t: OrderType, priceCents: U32, qty: U32, timestampNs: U64): (o: Order)
    ensures GetSymbol(o) == Truncate(CString(sym), SYMBOL_SIZE - 1)
    ensures o.symbol[SYMBOL_SIZE - 1] == NUL
    ensures IsPending(o) && (IsBuy(o) <==> t == Buy)
    ensures IsValid(o) <==> id != 0 && qty > 0 && priceCents > 0 && CString(sym) != []
  {
    SymbolRoundTrip(sym);
    Order(id, timestampNs, SymbolField(sym), qty, priceCents, t, Pending, 0)
  }

  /** `get_symbol()`: the symbol up to its first NUL. */
  function GetSymbol(o: Order): (s: seq<U8>)
    ensures s == [] <==> o.symbol[0] == NUL
    ensures o.symbol[SYMBOL_SIZE - 1] == NUL ==> |s| < SYMBOL_SIZE
  {
    CString(o.symbol)
  }

  /** `set_symbol(sym)`: replaces the symbol field and nothing else. */
  function SetSymbol(o: Order, sym: seq<U8>): (r: Order)
    ensures GetSymbol(r) == Truncate(CString(sym), SYMBOL_SIZE - 1)
    ensures r.symbol[SYMBOL_SIZE - 1] == NUL
    ensures r.(symbol := o.symbol) == o
  {
    SymbolRoundTrip(sym);
    o.(symbol := SymbolField(sym))
  }

  // ---------------------------------------------------------------------------
  // Predicates and derived values

  /** `is_valid()`. */
  predicate IsValid(o: Order)
  {
    o.orderId != 0 && o.quantity > 0 && o.priceCents > 0 && o.symbol[0] != NUL && o.reserved == 0
  }

  /** `OrderUtils::validate_order`: its extra checks (positive price, positive
      quantity, non-empty symbol) are all implied by `is_valid()`. */
  function ValidateOrder(o: Order): (ok: bool)
    ensures ok <==> IsValid(o)
  {
    IsValid(o) && o.priceCents > 0 && o.quantity > 0 && GetSymbol(o) != []
  }

  predicate IsBuy(o: Order)
  {
    o.orderType == Buy
  }

  /** `is_sell()`: every order is exactly one of buy and sell. */
  function IsSell(o: Order): (r: bool)
    ensures r <==> !IsBuy(o)
  {
    o.orderType == Sell
  }

  predicate IsPending(o: Order) { o.status == Pending }
  predicate IsFilled(o: Order) { o.status == Filled }
  predicate IsCancelled(o: Order) { o.status == Cancelled }
  predicate IsRejected(o: Order) { o.status == Rejected }

  /** `get_status_string()`: each status has its own name, and the name
      identifies which status predicate holds. */
  function GetStatusString(o: Order): (name: string)
    ensures name == "PENDING" <==> IsPending(o)
    ensures name == "FILLED" <==> IsFilled(o)
    ensures name == "CANCELLED" <==> IsCancelled(o)
    ensures name == "REJECTED" <==> IsRejected(o)
    ensures name != "UNKNOWN"
  {
    match o.status
    case Pending => "PENDING"
    case Filled => "FILLED"
    case Cancelled => "CANCELLED"
    case Rejected => "REJECTED"
  }

  lemma MulMono(a: nat, x: nat, y: nat)
    requires x <= y
    ensures a * x <= a * y
  {
    assert a * y == a * x + a * (y - x);
  }

  /** `get_value_cents()`: the 64-bit product `uint64_t(quantity) * price_cents`
      never wraps, because both factors are below 2^32. */
  function ValueCents(o: Order): (v: U64)
    ensures v == o.quantity * o.priceCents
  {
    var q, p := o.quantity, o.priceCents;
    ProductFits64(q, p);
    Bits.ModUnique(q * p, Bits.TWO64, 0, q * p);
    (q * p) % Bits.TWO64
  }

  /** The product of two 32-bit values fits in 64 bits. */
  lemma ProductFits64(q: U32, p: U32)
    ensures 0 <= q * p < Bits.TWO64
  {
    MulMono(q, p, 0xFFFF_FFFF);
    MulMono(0xFFFF_FFFF, q, 0xFFFF_FFFF);
    assert 0xFFFF_FFFF * 0xFFFF_FFFF < Bits.TWO64;
  }

  // ---------------------------------------------------------------------------
  // Comparison: by order id only

  /** `operator<`. */
  predicate Less(a: Order, b: Order)
  {
    a.orderId < b.orderId
  }

  /** `operator==`. */
  predicate Equal(a: Order, b: Order)
  {
    a.orderId == b.orderId
  }

  /** `operator!=`: the negation of `operator==`. */
  function NotEqual(a: Order, b: Order): (r: bool)
    ensures r <==> !Equal(a, b)
  {
    a.orderId != b.orderId
  }

  /** `<` is a strict total order on ids and `==` is its equivalence. */
  lemma IdOrderTotal(a: Order, b: Order, c: Order)
    ensures !Less(a, a) && Equal(a, a)
    ensures Less(a, b) && Less(b, c) ==> Less(a, c)
    ensures Equal(a, b) && Equal(b, c) ==> Equal(a, c)
    ensures Equal(a, b) ==> Equal(b, a)
    ensures (Less(a, b) || Equal(a, b) || Less(b, a))
    ensures !(Less(a, b) && Equal(a, b)) && !(Less(a, b) && Less(b, a))
  {
  }

  /** Orders that compare equal need not be the same record: equality looks at the id only. */
  lemma EqualIgnoresPayload()
    ensures exists a: Order, b: Order :: Equal(a, b) && a != b
  {
    var a := DefaultOrder();
    var b := a.(quantity := 1);
    assert Equal(a, b) && a != b;
  }

  // ---------------------------------------------------------------------------
  // Binary encoding: each field in turn, little-endian, with no padding.

  function Pow256(n: nat): (r: nat)
    ensures r >= 1
  {
    if n == 0 then 1 else 256 * Pow256(n - 1)
  }

  lemma Pow256Values()
    ensures Pow256(2) == 0x1_0000
    ensures Pow256(4) == 0x1_0000_0000
    ensures Pow256(8) == 0x1_0000_0000_0000_0000
  {
  }

  /** The n low-order bytes of x, least significant first. */
  function EncodeLE(x: nat, n: nat): (r: seq<U8>)
    requires x < Pow256(n)
    ensures |r| == n
  {
    if n == 0 then [] else [x % 256] + EncodeLE(x / 256, n - 1)
  }

  /** The number whose little-endian bytes are b. */
  function DecodeLE(b: seq<U8>): (x: nat)
    ensures x < Pow256(|b|)
  {
    if b == [] then 0 else b[0] + 256 * DecodeLE(b[1..])
  }

  lemma {:induction false} DecodeEncodeLE(x: nat, n: nat)
    requires x < Pow256(n)
    ensures DecodeLE(EncodeLE(x, n)) == x
  {
    if n > 0 {
      DecodeEncodeLE(x / 256, n - 1);
      assert EncodeLE(x, n)[1..] == EncodeLE(x / 256, n - 1);
    }
  }

  lemma {:induction false} EncodeDecodeLE(b: seq<U8>)
    ensures EncodeLE(DecodeLE(b), |b|) == b
  {
    if b != [] {
      var x, rest := DecodeLE(b), DecodeLE(b[1..]);
      Bits.ModUnique(x, 256, rest, b[0]);
      EncodeDecodeLE(b[1..]);
      assert EncodeLE(x, |b|) == [b[0]] + EncodeLE(rest, |b| - 1);
      assert [b[0]] + b[1..] == b;
    }
  }

  /** Length of the field encoding: the sum of the field widths (8 + 8 + 16 + 4 + 4 + 1 + 1 + 2).
      It is not a claim about the in-memory size of the record. */
  const ENCODED_SIZE: nat := 44

  function TypeCode(t: OrderType): U8
  {
    match t
    case Buy => 0
    case Sell => 1
  }

  function StatusCode(s: OrderStatus): U8
  {
    match s
    case Pending => 0
    case Filled => 1
    case Cancelled => 2
    case Rejected => 3
  }

  function TypeOfCode(c: U8): (r: Option<OrderType>)
    ensures r.Some? ==> TypeCode(r.value) == c
  {
    if c == 0 then Some(Buy) else if c == 1 then Some(Sell) else None
  }

  function StatusOfCode(c: U8): (r: Option<OrderStatus>)
    ensures r.Some? ==> StatusCode(r.value) == c
  {
    if c == 0 then Some(Pending)
    else if c == 1 then Some(Filled)
    else if c == 2 then Some(Cancelled)
    else if c == 3 then Some(Rejected)
    else None
  }

  /** `serialize(buffer)`, as a field-by-field encoding: each field in turn,
      followed by the encoding of the fields after it. */
  function Serialize(o: Order): (b: seq<U8>)
    ensures |b| == ENCODED_SIZE
  {
    Pow256Values();
    EncodeLE(o.orderId, 8) + (EncodeLE(o.timestampNs, 8) + (o.symbol + (EncodeLE(o.quantity, 4)
      + (EncodeLE(o.priceCents, 4) + ([TypeCode(o.orderType), StatusCode(o.status)]
      + EncodeLE(o.reserved, 2))))))
  }

  /** `deserialize(buffer)`: reads the fields back in turn from the front of
      the buffer; bytes past ENCODED_SIZE are ignored. None when the buffer is
      too short or a type or status byte names no enumerator. */
  function Deserialize(b: seq<U8>): (r: Option<Order>)
    ensures r.Some? ==> |b| >= ENCODED_SIZE
  {
    if |b| < ENCODED_SIZE then None
    else
      Pow256Values();
      var id, afterId := b[..8], b[8..];
      var ts, afterTs := afterId[..8], afterId[8..];
      var sym, afterSym := afterTs[..16], afterTs[16..];
      var qty, afterQty := afterSym[..4], afterSym[4..];
      var price, rest := afterQty[..4], afterQty[4..];
      match (TypeOfCode(rest[0]), StatusOfCode(rest[1]))
      case (Some(t), Some(st)) =>
        Some(Order(DecodeLE(id), DecodeLE(ts), sym, DecodeLE(qty), DecodeLE(price), t, st, DecodeLE(rest[2..4])))
      case _ => None
  }

  /** Deserializing a serialized order reproduces every field. */
  lemma SerializeRoundTrip(o: Order)
    ensures Deserialize(Serialize(o)) == Some(o)
  {
    Pow256Values();
    DecodeEncodeLE(o.orderId, 8);
    DecodeEncodeLE(o.timestampNs, 8);
    DecodeEncodeLE(o.quantity, 4);
    DecodeEncodeLE(o.priceCents, 4);
    DecodeEncodeLE(o.reserved, 2);
    var tail := [TypeCode(o.orderType), StatusCode(o.status)] + EncodeLE(o.reserved, 2);
    assert tail[2..4] == EncodeLE(o.reserved, 2);
  }

  /** Conversely, a buffer that deserializes is the encoding of what it yields
      (on its first ENCODED_SIZE bytes). */
  lemma DeserializeInverse(b: seq<U8>)
    requires Deserialize(b).Some?
    ensures Serialize(Deserialize(b).value) == b[..ENCODED_SIZE]
  {
    Pow256Values();
    var afterId := b[8..];
    var afterTs := afterId[8..];
    var afterSym := afterTs[16..];
    var afterQty := afterSym[4..];
    var rest := afterQty[4..];
    EncodeDecodeLE(b[..8]);
    EncodeDecodeLE(afterId[..8]);
    EncodeDecodeLE(afterSym[..4]);
    EncodeDecodeLE(afterQty[..4]);
    EncodeDecodeLE(rest[2..4]);
    assert rest[..4] == [rest[0], rest[1]] + rest[2..4];
    TakeSplit(afterQty, 4, 4);
    TakeSplit(afterSym, 4, 8);
    TakeSplit(afterTs, 16, 12);
    TakeSplit(afterId, 8, 28);
    TakeSplit(b, 8, 36);
  }

  /** The first m + n elements are the first m followed by the n after them. */
  lemma TakeSplit(s: seq<U8>, m: nat, n: nat)
    requires m + n <= |s|
    ensures s[..m + n] == s[..m] + s[m..][..n]
  {
  }
}
