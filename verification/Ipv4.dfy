/**
 * IPv4 addresses as text and as 32-bit numbers, CIDR blocks, and the address pool of a node. The
 * number operators are JavaScript's: they work on 32 bits and all but `>>>` yield a signed result.
 */
module Ipv4 {
  import opened Rows
  import opened Text

  // ------------------------------------------------- 32-bit operators ----

  function Pow2(n: nat): (p: nat)
    ensures p > 0
  {
    if n == 0 then 1 else 2 * Pow2(n - 1)
  }

  const WORD := 0x1_0000_0000

  function ToUint32(x: int): (u: nat)
    ensures u < WORD
  {
    x % WORD
  }

  function ToInt32(x: int): int {
    if ToUint32(x) >= 0x8000_0000 then ToUint32(x) - WORD else ToUint32(x)
  }

  function Or(a: nat, b: nat): nat {
    if a == 0 then b else if b == 0 then a else (if a % 2 == 1 || b % 2 == 1 then 1 else 0) + 2 * Or(a / 2, b / 2)
  }

  function And(a: nat, b: nat): nat {
    if a == 0 || b == 0 then 0 else (if a % 2 == 1 && b % 2 == 1 then 1 else 0) + 2 * And(a / 2, b / 2)
  }

  function ShiftLeft(x: int, k: nat): int {
    ToInt32(ToUint32(x) * Pow2(k))
  }

  function BitOr(x: int, y: int): int {
    ToInt32(Or(ToUint32(x), ToUint32(y)))
  }

  function BitAnd(x: int, y: int): int {
    ToInt32(And(ToUint32(x), ToUint32(y)))
  }

  /** `>>>` by whole octets, the only shifts to the right there are. */
  function UnsignedShiftRight(x: int, octets: nat): nat
    requires octets < 4
  {
    var u := ToUint32(x);
    match octets
    case 0 => u
    case 1 => u / 0x100
    case 2 => u / 0x1_0000
    case 3 => u / 0x100_0000
  }

  /** The last `h` bits. */
  function Low(v: nat, h: nat): (l: nat)
    ensures l < Pow2(h)
  {
    if h == 0 then 0 else v % 2 + 2 * Low(v / 2, h - 1)
  }

  /** What is left when the last `h` bits are shifted out. */
  function High(v: nat, h: nat): nat {
    if h == 0 then v else High(v / 2, h - 1)
  }

  lemma {:induction false} HighAndLow(v: nat, h: nat)
    ensures v == High(v, h) * Pow2(h) + Low(v, h)
    decreases h
  {
    if h > 0 {
      HighAndLow(v / 2, h - 1);
      assert High(v, h) * Pow2(h) == 2 * (High(v / 2, h - 1) * Pow2(h - 1));
    }
  }

  lemma {:induction false} OrOfDisjoint(x: nat, y: nat, k: nat)
    requires y < Pow2(k)
    ensures Or(x * Pow2(k), y) == x * Pow2(k) + y
    decreases k
  {
    if k > 0 {
      var a := x * Pow2(k);
      assert a == 2 * (x * Pow2(k - 1));
      OrOfDisjoint(x, y / 2, k - 1);
    }
  }

  lemma {:induction false} AndLowMask(v: nat, h: nat)
    ensures And(v, Pow2(h) - 1) == Low(v, h)
    decreases h
  {
    if h > 0 {
      assert (Pow2(h) - 1) / 2 == Pow2(h - 1) - 1 && (Pow2(h) - 1) % 2 == 1;
      if v == 0 { LowOfZero(h); } else { AndLowMask(v / 2, h - 1); }
    }
  }

  lemma {:induction false} LowOfZero(h: nat)
    ensures Low(0, h) == 0
  {
    if h > 0 { LowOfZero(h - 1); }
  }

  lemma {:induction false} LowOfSmall(v: nat, h: nat)
    requires v < Pow2(h)
    ensures Low(v, h) == v
    decreases h
  {
    if h > 0 { LowOfSmall(v / 2, h - 1); }
  }

  /** A mask of `n` ones followed by `h` zeros clears the last `h` bits. */
  lemma {:induction false} AndHighMask(v: nat, mask: nat, n: nat, h: nat)
    requires v < Pow2(n + h) && mask == (Pow2(n) - 1) * Pow2(h)
    ensures And(v, mask) == v - Low(v, h)
    decreases h
  {
    if h == 0 {
      AndLowMask(v, n);
      LowOfSmall(v, n);
    } else {
      var half := mask / 2;
      HalfMask(mask, Pow2(n) - 1, Pow2(h - 1));
      AndHighMask(v / 2, half, n, h - 1);
      if v == 0 { LowOfZero(h); } else if mask == 0 { NoMask(v, n, h); }
    }
  }

  lemma HalfMask(mask: nat, ones: nat, half: nat)
    requires mask == ones * (2 * half)
    ensures mask % 2 == 0 && mask / 2 == ones * half
  {
    assert mask == 2 * (ones * half);
  }

  lemma NoMask(v: nat, n: nat, h: nat)
    requires (Pow2(n) - 1) * Pow2(h) == 0 && v < Pow2(n + h)
    ensures Low(v, h) == v
  {
    ZeroFactor(Pow2(n) - 1, Pow2(h));
    LowOfSmallest(v, n, h);
  }

  lemma ZeroFactor(a: nat, b: nat)
    requires b > 0 && a * b == 0
    ensures a == 0
  {
    assert a * b >= a;
  }

  lemma LowOfSmallest(v: nat, n: nat, h: nat)
    requires Pow2(n) == 1 && v < Pow2(n + h)
    ensures Low(v, h) == v
  {
    assert n == 0;
    LowOfSmall(v, h);
  }

  // ------------------------------------------------------------- text ----

  datatype IpError = InvalidAddress | InvalidCidr

  predicate IsOctetText(part: string) {
    1 <= |part| <= 3 && forall i :: 0 <= i < |part| ==> IsDigit(part[i])
  }

  // -------------------------------------------------------- addresses ----

  function Address(a: nat, b: nat, c: nat, d: nat): nat {
    ((a * 256 + b) * 256 + c) * 256 + d
  }

  /** The value of a dotted quad, or why it is not one; octets may have leading zeros. */
  function IpToInt(ip: string): Result<nat, IpError> {
    FromParts(Split(Trim(ip), '.'))
  }

  predicate IsOctet(part: string) {
    IsOctetText(part) && DecimalValue(part) <= 255
  }

  function FromParts(parts: seq<string>): Result<nat, IpError> {
    if |parts| != 4 || !(forall k :: 0 <= k < 4 ==> IsOctet(parts[k])) then Err(InvalidAddress)
    else Ok(Address(DecimalValue(parts[0]), DecimalValue(parts[1]), DecimalValue(parts[2]), DecimalValue(parts[3])))
  }

  lemma Pow2Of8()
    ensures Pow2(8) == 256
  {
    assert Pow2(4) == 16;
  }

  lemma Wraps(x: int)
    ensures ToUint32(ToInt32(x)) == ToUint32(x)
    ensures 0 <= x < WORD ==> ToUint32(x) == x
  {
  }

  lemma ShiftedByAnOctet(value: int)
    ensures ToUint32(ShiftLeft(value, 8)) == (ToUint32(value) % 0x100_0000) * 256
  {
    Pow2Of8();
    Wraps(ToUint32(value) * 256);
  }

  lemma OrAnOctet(low: nat, octet: nat)
    requires octet < 256
    ensures Or(low * 256, octet) == low * 256 + octet
  {
    Pow2Of8();
    OrOfDisjoint(low, octet, 8);
  }

  lemma DropsTheFirstOctet(u: nat, octet: nat)
    requires u < WORD && octet < 256
    ensures (u % 0x100_0000) * 256 + octet == (u * 256 + octet) % WORD
  {
  }

  lemma OrOfShifted(shifted: int, low: nat, octet: nat)
    requires ToUint32(shifted) == low * 256 && low < 0x100_0000 && octet < 256
    ensures BitOr(shifted, octet) == ToInt32(low * 256 + octet)
  {
    OrAnOctet(low, octet);
    Wraps(octet);
  }

  /** One to three digits that stand for no more than 255. */
  predicate IsByte(part: string) {
    1 <= |part| <= 3 && (forall i :: 0 <= i < |part| ==> '0' <= part[i] <= '9') && DecimalValue(part) <= 255
  }

  /** Four bytes with dots between them, and the number they stand for. */
  predicate IsQuad(text: string, a: string, b: string, c: string, d: string, value: nat) {
    && text == a + "." + b + "." + c + "." + d && IsByte(a) && IsByte(b) && IsByte(c) && IsByte(d)
    && value == DecimalValue(a) * 0x100_0000 + DecimalValue(b) * 0x1_0000 + DecimalValue(c) * 0x100 + DecimalValue(d)
  }

  /** A text is an address exactly when, white space around it apart, it is four bytes in dotted form; it is their number. */
  lemma ParsesIff(ip: string, value: nat)
    ensures IpToInt(ip) == Ok(value) <==> exists a, b, c, d :: IsQuad(Trim(ip), a, b, c, d, value)
  {
    var parts := Split(Trim(ip), '.');
    if IpToInt(ip).Ok? {
      JoinOfSplit(Trim(ip), '.');
      FourJoined(parts);
      assert IsOctet(parts[0]) && IsOctet(parts[1]) && IsOctet(parts[2]) && IsOctet(parts[3]);
      assert IsQuad(Trim(ip), parts[0], parts[1], parts[2], parts[3], IpToInt(ip).value);
    }
    forall a, b, c, d | IsQuad(Trim(ip), a, b, c, d, value) ensures IpToInt(ip) == Ok(value) {
      FourJoined([a, b, c, d]);
      SplitOfJoin([a, b, c, d], '.');
      assert parts == [a, b, c, d];
    }
  }

  lemma FourJoined(parts: seq<string>)
    requires |parts| == 4
    ensures Join(parts, ".") == parts[0] + "." + parts[1] + "." + parts[2] + "." + parts[3]
  {
    assert Join(parts[3..], ".") == parts[3];
    assert Join(parts[2..], ".") == parts[2] + "." + parts[3] by { assert parts[2..][1..] == parts[3..]; }
    assert Join(parts[1..], ".") == parts[1] + "." + (parts[2] + "." + parts[3]) by { assert parts[1..][1..] == parts[2..]; }
  }

  /** One turn of the loop: on 32 bits the shift and the or append an octet, dropping what leaves the word. */
  method Accumulate(value: int, octet: nat) returns (next: int)
    requires octet < 256
    ensures ToUint32(next) == (ToUint32(value) * 256 + octet) % WORD
    ensures -0x8000_0000 <= next < 0x8000_0000
  {
    var shifted := ShiftLeft(value, 8);
    next := BitOr(shifted, octet);
    Appended(value, octet);
  }

  lemma Appended(value: int, octet: nat)
    requires octet < 256
    ensures ToUint32(BitOr(ShiftLeft(value, 8), octet)) == (ToUint32(value) * 256 + octet) % WORD
  {
    var low := ToUint32(value) % 0x100_0000;
    ShiftedByAnOctet(value);
    OrOfShifted(ShiftLeft(value, 8), low, octet);
    Wraps(low * 256 + octet);
    DropsTheFirstOctet(ToUint32(value), octet);
  }

  method ParseIp(ip: string) returns (r: Result<nat, IpError>)
    ensures r == IpToInt(ip)
  {
    var parts := Split(Trim(ip), '.');
    if |parts| != 4 { return Err(InvalidAddress); }
    var value := 0;
    for i := 0 to 4
      invariant forall k :: 0 <= k < i ==> IsOctet(parts[k])
      invariant ToUint32(value) == Prefix(parts, i)
    {
      if !IsOctetText(parts[i]) { return Err(InvalidAddress); }
      var octet := DecimalValue(parts[i]);
      if octet > 255 { return Err(InvalidAddress); }
      value := Accumulate(value, octet);
    }
    FourOctets(parts);
    return Ok(UnsignedShiftRight(value, 0));
  }

  lemma FourOctets(parts: seq<string>)
    requires |parts| == 4 && forall k :: 0 <= k < 4 ==> IsOctet(parts[k])
    ensures Prefix(parts, 4) == Address(DecimalValue(parts[0]), DecimalValue(parts[1]), DecimalValue(parts[2]), DecimalValue(parts[3]))
  {
    assert Prefix(parts, 1) == DecimalValue(parts[0]);
    assert Prefix(parts, 2) == DecimalValue(parts[0]) * 256 + DecimalValue(parts[1]);
    assert Prefix(parts, 3) == (DecimalValue(parts[0]) * 256 + DecimalValue(parts[1])) * 256 + DecimalValue(parts[2]);
  }

  /** The number the first `i` octets stand for. */
  function Prefix(parts: seq<string>, i: nat): (v: nat)
    requires i <= |parts| && forall k :: 0 <= k < i ==> IsOctet(parts[k])
  {
    if i == 0 then 0
    else
      assert IsOctet(parts[i - 1]);
      (Prefix(parts, i - 1) * 256 + DecimalValue(parts[i - 1])) % WORD
  }

  function IntToIp(value: int): string {
    Join([Decimal(Octet(value, 3)), Decimal(Octet(value, 2)), Decimal(Octet(value, 1)), Decimal(Octet(value, 0))], ".")
  }

  function Octet(value: int, k: nat): (o: nat)
    requires k < 4
    ensures o == UnsignedShiftRight(value, k) % 256
  {
    AndWithByte(UnsignedShiftRight(value, k));
    BitAnd(UnsignedShiftRight(value, k), 255)
  }

  lemma AndWithByte(x: nat)
    requires x < WORD
    ensures BitAnd(x, 255) == x % 256
  {
    Wraps(x);
    AndByte(x);
    LastOctet(x);
    Wraps(x % 256);
  }

  lemma LastOctet(v: nat)
    ensures Low(v, 8) == v % 256
  {
    Pow2Of8();
    HighAndLow(v, 8);
    assert v == High(v, 8) * 256 + Low(v, 8);
  }

  lemma AndByte(v: nat)
    ensures And(v, 255) == Low(v, 8)
  {
    Pow2Of8();
    AndLowMask(v, 8);
  }

  lemma OctetsRebuild(value: int)
    ensures Address(Octet(value, 3), Octet(value, 2), Octet(value, 1), Octet(value, 0)) == ToUint32(value)
  {
    WordInOctets(ToUint32(value));
  }

  lemma WordInOctets(v: nat)
    requires v < WORD
    ensures Address(v / 0x100_0000 % 256, v / 0x1_0000 % 256, v / 0x100 % 256, v % 256) == v
  {
    Quotients(v);
    LastDigit(v);
    LastDigit(v / 0x100);
    LastDigit(v / 0x1_0000);
  }

  lemma Quotients(v: nat)
    requires v < WORD
    ensures v / 0x100 / 256 == v / 0x1_0000 && v / 0x1_0000 / 256 == v / 0x100_0000 && v / 0x100_0000 < 256
  {
  }

  lemma LastDigit(u: nat)
    ensures u == (u / 256) * 256 + u % 256
  {
  }

  lemma DecimalOctet(n: nat)
    requires n < 256
    ensures IsOctetText(Decimal(n)) && DecimalValue(Decimal(n)) == n && '.' !in Decimal(n)
  {
    DecimalRoundTrip(n);
    assert forall c :: c in Decimal(n) ==> IsDigit(c);
  }

  /** Printing a number, wrapped to 32 bits, and parsing the text gives the number back. */
  lemma IpRoundTrip(value: int)
    ensures IpToInt(IntToIp(value)) == Ok(ToUint32(value))
  {
    QuadParses(Octet(value, 3), Octet(value, 2), Octet(value, 1), Octet(value, 0));
    OctetsRebuild(value);
  }

  lemma QuadParses(a: nat, b: nat, c: nat, d: nat)
    requires a < 256 && b < 256 && c < 256 && d < 256
    ensures IpToInt(Join([Decimal(a), Decimal(b), Decimal(c), Decimal(d)], ".")) == Ok(Address(a, b, c, d))
  {
    var parts := [Decimal(a), Decimal(b), Decimal(c), Decimal(d)];
    DecimalOctet(a); DecimalOctet(b); DecimalOctet(c); DecimalOctet(d);
    PartsParse(parts);
  }

  lemma PartsParse(parts: seq<string>)
    requires |parts| == 4 && forall k :: 0 <= k < 4 ==> IsOctet(parts[k]) && '.' !in parts[k]
    ensures IpToInt(Join(parts, ".")) == FromParts(parts)
  {
    SplitOfJoin(parts, '.');
    QuadEnds(parts);
    TrimLeaves(Join(parts, "."));
  }

  lemma {:induction false} QuadEnds(parts: seq<string>)
    requires parts != [] && forall k :: 0 <= k < |parts| ==> IsOctet(parts[k])
    ensures var text := Join(parts, "."); text != "" && IsDigit(text[0]) && IsDigit(text[|text| - 1])
    decreases |parts|
  {
    assert IsOctet(parts[0]);
    if |parts| > 1 { QuadEnds(parts[1..]); }
  }

  /** Parsing and printing brings every valid spelling to one text, which is its own normal form. */
  lemma NormalForm(ip: string, other: string)
    requires IpToInt(ip).Ok? && IpToInt(other).Ok?
    ensures var normal := IntToIp(IpToInt(ip).value);
      && IpToInt(normal) == IpToInt(ip) && IntToIp(IpToInt(normal).value) == normal
      && (IpToInt(ip) == IpToInt(other) <==> normal == IntToIp(IpToInt(other).value))
  {
    IpRoundTrip(IpToInt(ip).value);
    IpRoundTrip(IpToInt(other).value);
    ValuesAreWords(ip);
    ValuesAreWords(other);
  }

  lemma ValuesAreWords(ip: string)
    requires IpToInt(ip).Ok?
    ensures IpToInt(ip).value < WORD && ToUint32(IpToInt(ip).value) == IpToInt(ip).value
  {
  }

  // ------------------------------------------------------------- blocks ----

  datatype Block = Block(network: nat, prefix: nat, size: nat)

  /** (0xffffffff << (32 - prefix)) >>> 0 */
  function Mask(prefix: nat): nat
    requires prefix <= 32
  {
    UnsignedShiftRight(ShiftLeft(0xffff_ffff, 32 - prefix), 0)
  }

  function Masked(value: nat, prefix: nat): nat
    requires prefix <= 32
  {
    UnsignedShiftRight(BitAnd(value, Mask(prefix)), 0)
  }

  /** `ip` and `prefix` are the two halves of the text; a prefix that is not an integer number is None. */
  function ParseCidr(ip: string, prefix: Option<int>): Result<Block, IpError> {
    if ip == "" || prefix.None? || prefix.value < 16 || prefix.value > 30 then Err(InvalidCidr)
    else
      var value := IpToInt(ip);
      if value.Err? then Err(value.error)
      else Ok(Block(Masked(value.value, prefix.value), prefix.value, Pow2(32 - prefix.value)))
  }

  function IsIpInCidr(ip: string, block: Block): Result<bool, IpError>
    requires block.prefix <= 32
  {
    var value := IpToInt(ip);
    if value.Err? then Err(value.error) else Ok(Masked(value.value, block.prefix) == block.network)
  }

  lemma {:induction false} Pow2Adds(a: nat, b: nat)
    ensures Pow2(a + b) == Pow2(a) * Pow2(b)
    decreases a
  {
    if a > 0 { Pow2Adds(a - 1, b); }
  }

  lemma Pow2Of32()
    ensures Pow2(32) == WORD
  {
    Pow2Of8();
    Pow2Adds(8, 8);
    Pow2Adds(16, 16);
  }

  lemma MaskIs(prefix: nat)
    requires 0 < prefix <= 32
    ensures Pow2(prefix) * Pow2(32 - prefix) == WORD
    ensures Mask(prefix) == (Pow2(prefix) - 1) * Pow2(32 - prefix) < WORD
  {
    Pow2Of32();
    Pow2Adds(prefix, 32 - prefix);
    var blocks, size := Pow2(prefix), Pow2(32 - prefix);
    assert blocks >= 2;
    SizeOfBlocks(blocks, size);
    ShiftsOnes(size);
    Wraps(0xffff_ffff * size);
  }

  lemma SizeOfBlocks(blocks: nat, size: nat)
    requires blocks * size == WORD && blocks >= 2
    ensures 0 < size < WORD && (blocks - 1) * size == WORD - size
  {
    assert blocks * size >= 2 * size;
  }

  lemma ShiftsOnes(size: nat)
    requires 0 < size < WORD
    ensures ToUint32(0xffff_ffff * size) == WORD - size
  {
    assert 0xffff_ffff * size == (size - 1) * WORD + (WORD - size);
  }

  /** Masking rounds down to a multiple of the block's size. */
  lemma MaskedIs(value: nat, prefix: nat)
    requires value < WORD && 0 < prefix <= 32
    ensures Masked(value, prefix) == High(value, 32 - prefix) * Pow2(32 - prefix)
    ensures Masked(value, prefix) <= value < Masked(value, prefix) + Pow2(32 - prefix) <= WORD
  {
    var h := 32 - prefix;
    MaskedDropsLow(value, prefix);
    HighAndLow(value, h);
    MaskIs(prefix);
    FitsInWord(High(value, h), Pow2(h), Pow2(prefix), value);
  }

  lemma MaskedDropsLow(value: nat, prefix: nat)
    requires value < WORD && 0 < prefix <= 32
    ensures Masked(value, prefix) == value - Low(value, 32 - prefix)
  {
    Pow2Of32();
    MaskIs(prefix);
    AndHighMask(value, Mask(prefix), prefix, 32 - prefix);
    Wraps(value);
    Wraps(Mask(prefix));
    Wraps(value - Low(value, 32 - prefix));
  }

  lemma FitsInWord(q: nat, size: nat, blocks: nat, value: nat)
    requires blocks * size == WORD && q * size <= value < WORD
    ensures q * size + size <= WORD
  {
    SmallerFactor(q, blocks, size);
    assert (q + 1) * size <= blocks * size;
  }

  lemma SmallerFactor(a: nat, b: nat, size: nat)
    ensures a * size < b * size ==> a < b
  {
    if a >= b { assert a * size >= b * size; }
  }

  lemma SameMultiple(a: nat, b: nat, size: nat, v: nat)
    requires a * size <= v < a * size + size && b * size <= v < b * size + size
    ensures a == b
  {
    SmallerFactor(a, b + 1, size);
    SmallerFactor(b, a + 1, size);
    assert (b + 1) * size == b * size + size && (a + 1) * size == a * size + size;
  }

  /** Membership by mask is membership in the range of the block. */
  lemma InCidrIff(ip: string, prefix: int, block: Block, other: string)
    requires ParseCidr(ip, Some(prefix)) == Ok(block) && IpToInt(other).Ok?
    ensures IsIpInCidr(other, block) == Ok(block.network <= IpToInt(other).value < block.network + block.size)
  {
    ValuesAreWords(ip);
    ValuesAreWords(other);
    MaskedIff(IpToInt(ip).value, IpToInt(other).value, prefix);
  }

  lemma MaskedIff(w: nat, v: nat, prefix: nat)
    requires w < WORD && v < WORD && 0 < prefix <= 32
    ensures Masked(v, prefix) == Masked(w, prefix) <==> Masked(w, prefix) <= v < Masked(w, prefix) + Pow2(32 - prefix)
  {
    var h := 32 - prefix;
    MaskedIs(w, prefix);
    MaskedIs(v, prefix);
    if Masked(w, prefix) <= v < Masked(w, prefix) + Pow2(h) {
      SameMultiple(High(w, h), High(v, h), Pow2(h), v);
    }
  }

  // --------------------------------------------------------------- pool ----

  /** `pool` spells the client addresses of a block in order, from the one after the gateway to the last but one. */
  ghost predicate ListsClients(pool: seq<string>, block: Block) {
    |pool| == block.size - 3 && forall k :: 0 <= k < |pool| ==> IpToInt(pool[k]) == Ok(block.network + 2 + k)
  }

  method UsableHostIps(block: Block, reservedHosts: nat) returns (ips: seq<string>)
    ensures |ips| == Max(block.size - 2 - reservedHosts, 0)
    ensures forall k :: 0 <= k < |ips| ==> ips[k] == IntToIp(block.network + 1 + reservedHosts + k)
    ensures reservedHosts == 1 && block.size >= 3 && block.network + block.size <= WORD ==> ListsClients(ips, block)
  {
    ips := [];
    var offset := 1 + reservedHosts;
    while offset < block.size - 1
      invariant 1 + reservedHosts <= offset
      invariant |ips| == offset - 1 - reservedHosts && (offset <= block.size - 1 || |ips| == 0)
      invariant forall k :: 0 <= k < |ips| ==> ips[k] == IntToIp(block.network + 1 + reservedHosts + k)
    {
      ips := ips + [IntToIp(block.network + offset)];
      offset := offset + 1;
    }
    if reservedHosts == 1 && block.size >= 3 && block.network + block.size <= WORD {
      assert forall k :: 0 <= k < |ips| ==> ips[k] == IntToIp(block.network + 2 + k);
      AllListed(ips, block);
    }
  }

  lemma AllListed(ips: seq<string>, block: Block)
    requires |ips| == block.size - 3 && block.network + block.size <= WORD
    requires forall k :: 0 <= k < |ips| ==> ips[k] == IntToIp(block.network + 2 + k)
    ensures ListsClients(ips, block)
  {
    forall k | 0 <= k < |ips| ensures IpToInt(ips[k]) == Ok(block.network + 2 + k) {
      AddressOf(block.network + 2 + k, ips[k]);
    }
  }

  lemma AddressOf(address: nat, text: string)
    requires address < WORD && text == IntToIp(address)
    ensures IpToInt(text) == Ok(address)
  {
    IpRoundTrip(address);
    Wraps(address);
  }

  lemma BlockFits(ip: string, prefix: int, block: Block)
    requires ParseCidr(ip, Some(prefix)) == Ok(block)
    ensures 4 <= block.size <= 0x1_0000 && block.network + block.size <= WORD
  {
    ValuesAreWords(ip);
    MaskedIs(IpToInt(ip).value, prefix);
    Pow2Of8();
    Pow2Adds(8, 8);
    Pow2Ascends(2, 32 - prefix);
    Pow2Ascends(32 - prefix, 16);
  }

  /**
   * For every block of prefix 16 to 30 the pool has exactly size - 3 addresses, pairwise different,
   * all inside the block, and none of them the network, gateway or broadcast address.
   */
  lemma PoolIsSound(ip: string, prefix: int, block: Block, pool: seq<string>, i: nat, j: nat)
    requires ParseCidr(ip, Some(prefix)) == Ok(block) && ListsClients(pool, block) && i < |pool| && j < |pool|
    ensures block.size >= 4 && (pool[i] == pool[j] <==> i == j)
    ensures IsIpInCidr(pool[i], block) == Ok(true)
    ensures IpToInt(pool[i]).Ok? && IpToInt(pool[i]).value !in {block.network, block.network + 1, block.network + block.size - 1}
  {
    BlockFits(ip, prefix, block);
    InCidrIff(ip, prefix, block, pool[i]);
  }

  /** And nothing is missing: an address of the block, however it is spelled, is listed unless it is one of those three. */
  lemma PoolIsComplete(ip: string, prefix: int, block: Block, pool: seq<string>, other: string)
    requires ParseCidr(ip, Some(prefix)) == Ok(block) && ListsClients(pool, block)
    requires IpToInt(other).Ok? && IsIpInCidr(other, block) == Ok(true)
    ensures (exists k :: 0 <= k < |pool| && IpToInt(pool[k]) == IpToInt(other)) <==>
      IpToInt(other).value !in {block.network, block.network + 1, block.network + block.size - 1}
  {
    BlockFits(ip, prefix, block);
    InCidrIff(ip, prefix, block, other);
    var k := IpToInt(other).value - block.network - 2;
    if 0 <= k < |pool| { assert IpToInt(pool[k]) == IpToInt(other); }
  }

  lemma {:induction false} Pow2Ascends(a: nat, b: nat)
    requires a <= b
    ensures Pow2(a) <= Pow2(b)
    decreases b
  {
    if a < b { Pow2Ascends(a, b - 1); }
  }
}
