/** Base64url: the alphabet of section 5 of RFC 4648, without padding on output.  Characters and
    bytes are octets; the accumulators are 32 bits wide and wrap. */
module Base64Url {
  import opened Bytes

  type Text = seq<bv8>
  type Data = seq<bv8>

  datatype Result<+T> = Ok(value: T) | Err(why: Refusal)

  datatype Refusal = IsEmpty | InvalidPadding | InvalidLength | InvalidCharacters | UnexpectedLength

  const PAD: bv8 := 61

  // ----- The alphabet: A to Z, a to z, 0 to 9, - and _ in ASCII -----

  function EncodeLookup(v: bv8): bv8
    requires v < 64
  {
    if v < 26 then v + 65
    else if v < 52 then v - 26 + 97
    else if v < 62 then v - 52 + 48
    else if v == 62 then 45
    else 95
  }

  /** 64 for a character that is not in the alphabet. */
  function DecodeLookup(c: bv8): (v: bv8)
    ensures v <= 64
  {
    if 65 <= c <= 90 then c - 65
    else if 97 <= c <= 122 then c - 71
    else if 48 <= c <= 57 then c + 4
    else if c == 45 then 62
    else if c == 95 then 63
    else 64
  }

  predicate IsEncodedChar(c: bv8)
  {
    65 <= c <= 90 || 97 <= c <= 122 || 48 <= c <= 57 || c == 45 || c == 95 || c == PAD
  }

  /** The two tables are inverse to each other, and 64 stands for everything else. */
  lemma LookupsAreInverse(v: bv8, c: bv8)
    requires v < 64
    ensures DecodeLookup(EncodeLookup(v)) == v && EncodeLookup(v) != PAD && IsEncodedChar(EncodeLookup(v))
    ensures DecodeLookup(c) < 64 <==> IsEncodedChar(c) && c != PAD
    ensures DecodeLookup(c) < 64 ==> EncodeLookup(DecodeLookup(c)) == c
  {
  }

  // ----- Encoding -----

  /** Byte number k of the data, zero past its end. */
  function ByteAt(s: Data, k: nat): bv8
  {
    if k < |s| then s[k] else 0
  }

  /** Six of the 24 bits of three bytes, from the highest on. */
  function Six(x1: bv8, x2: bv8, x3: bv8, r: nat): (v: bv8)
    ensures v < 64
  {
    match r
    case 0 => x1 >> 2
    case 1 => ((x1 & 3) << 4) | (x2 >> 4)
    case 2 => ((x2 & 15) << 2) | (x3 >> 6)
    case _ => x3 & 63
  }

  /** Bits 6m to 6m + 5 of the data, the highest bit of the first byte being bit 0. */
  function Sextet(s: Data, m: nat): (v: bv8)
    ensures v < 64
  {
    var k := m / 4 * 3;
    Six(ByteAt(s, k), ByteAt(s, k + 1), ByteAt(s, k + 2), m % 4)
  }

  /** Four letters for three bytes, rounded up. */
  function EncodedLength(n: nat): nat { (4 * n + 2) / 3 }

  /** The letters so far are those of the first sextets. */
  ghost predicate Emitted(result: Text, s: Data)
  {
    forall m :: 0 <= m < |result| ==> result[m] == EncodeLookup(Sextet(s, m))
  }

  /** Section 5 of RFC 4648 without padding: a letter for every six bits of the data. */
  ghost predicate Encodes(text: Text, s: Data)
  {
    |text| == EncodedLength(|s|) && Emitted(text, s)
  }

  /** The last two bytes that went into the accumulator. */
  predicate Accumulates(i: bv32, s: Data, k: nat)
    requires k <= |s|
  {
    && (k >= 1 ==> (i & 0xFF) as bv8 == s[k - 1])
    && (k >= 2 ==> ((i >> 8) & 0xFF) as bv8 == s[k - 2])
  }

  /** `(i >> j) & 0x3F` for the shifts that the loop makes. */
  function Take(i: bv32, j: int): (v: bv8)
    ensures v < 64
  {
    ((if j == 0 then i else if j == 2 then i >> 2 else if j == 4 then i >> 4 else i >> 6) & 0x3F) as bv8
  }

  /** Which sextet the shift selects, by the bytes read and the letters written. */
  lemma PlaceOfShift(k: nat, m: nat, j: int)
    requires 0 <= j <= 6 && j == 8 * k - 6 * m - 6
    ensures j == 2 || j == 4 || j == 6 || j == 0
    ensures j == 2 ==> k == m / 4 * 3 + 1 && m % 4 == 0
    ensures j == 4 ==> k == m / 4 * 3 + 2 && m % 4 == 1
    ensures j == 6 ==> k == m / 4 * 3 + 3 && m % 4 == 2
    ensures j == 0 ==> k == m / 4 * 3 + 3 && m % 4 == 3
  {
  }

  lemma TakeIsSextet(i: bv32, j: int, s: Data, k: nat, m: nat)
    requires 1 <= k <= |s| && Accumulates(i, s, k)
    requires 0 <= j <= 6 && j == 8 * k - 6 * m - 6
    ensures Take(i, j) == Sextet(s, m)
  {
    PlaceOfShift(k, m, j);
  }

  lemma Shifted(i: bv32, s: Data, k: nat)
    requires k < |s| && Accumulates(i, s, k)
    ensures Accumulates((i << 8) + s[k] as bv32, s, k + 1)
  {
  }

  /** The inner loop: the letters that the first k bytes of the data complete. */
  method Emit(result0: Text, i: bv32, j0: int, ghost s: Data, ghost k: nat) returns (result: Text, j: int)
    requires 1 <= k <= |s| && Accumulates(i, s, k)
    requires j0 == 8 * k - 6 * |result0| - 6 && 0 <= j0 < 8 && Emitted(result0, s)
    ensures j == 8 * k - 6 * |result| - 6 && -6 <= j < 0 && Emitted(result, s)
  {
    result, j := result0, j0;
    while j >= 0
      invariant j == 8 * k - 6 * |result| - 6 && -6 <= j < 8 && Emitted(result, s)
    {
      TakeIsSextet(i, j, s, k, |result|);
      result := result + [EncodeLookup(Take(i, j))];
      j := j - 6;
    }
  }

  /** The bits that the accumulator loses when it wraps are out already. */
  method Encode(s: Data) returns (result: Text)
    ensures Encodes(result, s)
  {
    result := [];
    var i: bv32, j: int := 0, -6;
    for k := 0 to |s|
      invariant j == 8 * k - 6 * |result| - 6 && -6 <= j < 0
      invariant Accumulates(i, s, k) && Emitted(result, s)
    {
      Shifted(i, s, k);
      i := (i << 8) + s[k] as bv32;
      j := j + 8;
      result, j := Emit(result, i, j, s, k + 1);
    }
    if j > -6 {
      LastSextet(i, j, s, |result|);
      result := result + [EncodeLookup(Take(i << 8, j + 8))];
    }
  }

  lemma LastSextet(i: bv32, j: int, s: Data, m: nat)
    requires |s| >= 1 && Accumulates(i, s, |s|) && -6 < j < 0 && j == 8 * |s| - 6 * m - 6
    ensures Take(i << 8, j + 8) == Sextet(s, m)
  {
    if j == -4 {
      assert |s| == m / 4 * 3 + 1 && m % 4 == 1;
    } else {
      assert j == -2 && |s| == m / 4 * 3 + 2 && m % 4 == 2;
    }
  }

  // ----- Decoding -----

  /** How many padding characters the text ends with. */
  function Trailing(t: Text): (n: nat)
    ensures n <= |t|
  {
    if t != [] && t[|t| - 1] == PAD then 1 + Trailing(t[..|t| - 1]) else 0
  }

  /** Six bits for every character but the padding, whose count is kept in eight bits. */
  function DecodeLength(t: Text): nat
  {
    3 * (|t| - Trailing(t) % 256) / 4
  }

  method CountPadding(t: Text) returns (count: nat)
    ensures count == Trailing(t) % 256
  {
    count := 0;
    var last := |t|;
    assert t[..|t|] == t;
    while last > 0 && t[last - 1] == PAD
      invariant 0 <= last <= |t| && count == (|t| - last) % 256
      invariant Trailing(t) == |t| - last + Trailing(t[..last])
    {
      assert t[..last][..last - 1] == t[..last - 1];
      OneMoreModulo(|t| - last);
      count := (count + 1) % 256;
      last := last - 1;
    }
  }

  lemma OneMoreModulo(n: nat)
    ensures (n % 256 + 1) % 256 == (n + 1) % 256
  {
  }

  method GetDecodeLength(t: Text) returns (r: nat)
    ensures r == DecodeLength(t)
  {
    var count := CountPadding(t);
    var inputSize := |t| - count;
    count := 0;
    ghost var letters := inputSize;
    while inputSize % 4 != 0
      invariant inputSize == letters + count && Filling(letters, count)
      decreases 4 - count
    {
      NotYetFull(letters, count);
      inputSize := inputSize + 1;
      count := count + 1;
    }
    FullGroups(inputSize, count);
    r := 6 * inputSize / 8 - count;
  }

  /** `count` characters fill up the last group of four at most. */
  predicate Filling(letters: nat, count: nat)
  {
    if letters % 4 == 0 then count == 0 else count + letters % 4 <= 4
  }

  lemma NotYetFull(letters: nat, count: nat)
    requires (letters + count) % 4 != 0 && Filling(letters, count)
    ensures Filling(letters, count + 1) && count < 4
  {
    if letters % 4 > 0 && count + letters % 4 == 4 {
      QuotientIs(letters + count, 4, letters / 4 + 1, 0);
    }
  }

  lemma FullGroups(size: nat, count: nat)
    requires size % 4 == 0 && count <= 3 && count <= size
    ensures 6 * size / 8 - count == 3 * (size - count) / 4
  {
  }

  /** The six bits that the character at `pos` stands for; none past the end and for padding. */
  function Code(t: Text, pos: nat): (v: bv8)
    ensures v <= 64
  {
    if pos >= |t| || t[pos] == PAD then 0 else DecodeLookup(t[pos])
  }

  /** Four characters' bits; the 64 of an unknown character runs into its neighbour. */
  function Joined(c1: bv8, c2: bv8, c3: bv8, c4: bv8): bv32
  {
    (c1 as bv32 << 18) | (c2 as bv32 << 12) | (c3 as bv32 << 6) | c4 as bv32
  }

  function GroupData(t: Text, group: nat): bv32
  {
    Joined(Code(t, 4 * group), Code(t, 4 * group + 1), Code(t, 4 * group + 2), Code(t, 4 * group + 3))
  }

  /** One of the three low bytes, the highest first. */
  function Third(data: bv32, r: nat): bv8
  {
    match r
    case 0 => ((data >> 16) & 0xFF) as bv8
    case 1 => ((data >> 8) & 0xFF) as bv8
    case _ => (data & 0xFF) as bv8
  }

  /** Byte number b of what the text stands for. */
  function DecodedByte(t: Text, b: nat): bv8
  {
    Third(GroupData(t, b / 3), b % 3)
  }

  ghost predicate Decodes(out: Data, t: Text)
  {
    |out| == DecodeLength(t) && forall b :: 0 <= b < |out| ==> out[b] == DecodedByte(t, b)
  }

  method NextChar(t: Text, pos0: nat) returns (c: bv8, pos: nat)
    ensures c == Code(t, pos0) && pos == if pos0 < |t| then pos0 + 1 else pos0
  {
    pos := pos0;
    if pos >= |t| {
      return 0, pos;
    }
    var ch := t[pos];
    pos := pos + 1;
    if ch == PAD {
      return 0, pos;
    }
    return DecodeLookup(ch), pos;
  }

  method NextGroup(t: Text, pos0: nat, ghost group: nat) returns (data: bv32, pos: nat)
    requires pos0 < |t| && pos0 == 4 * group
    ensures data == GroupData(t, group) && pos == if pos0 + 4 < |t| then pos0 + 4 else |t|
  {
    var c1, c2, c3, c4;
    c1, pos := NextChar(t, pos0);
    c2, pos := NextChar(t, pos);
    c3, pos := NextChar(t, pos);
    c4, pos := NextChar(t, pos);
    data := Joined(c1, c2, c3, c4);
  }

  /** The first j bytes are the wanted ones. */
  ghost predicate Matches(out: Data, want: nat -> bv8, j: nat)
    requires j <= |out|
  {
    forall b :: 0 <= b < j ==> out[b] == want(b)
  }

  /** Stores the bytes of a group, as many as there is room for. */
  method PutGroup(out0: Data, j0: nat, data: bv32, ghost want: nat -> bv8, ghost group: nat) returns (out: Data, j: nat)
    requires j0 == (if 3 * group < |out0| then 3 * group else |out0|) && Matches(out0, want, j0)
    requires want(3 * group) == Third(data, 0) && want(3 * group + 1) == Third(data, 1)
    requires want(3 * group + 2) == Third(data, 2)
    ensures |out| == |out0| && j == (if 3 * group + 3 < |out| then 3 * group + 3 else |out|) && Matches(out, want, j)
  {
    out, j := out0, j0;
    if j < |out| {
      out := out[j := ((data >> 16) & 0xFF) as bv8];
      j := j + 1;
    }
    if j < |out| {
      out := out[j := ((data >> 8) & 0xFF) as bv8];
      j := j + 1;
    }
    if j < |out| {
      out := out[j := (data & 0xFF) as bv8];
      j := j + 1;
    }
  }

  /** The bytes that the text stands for. */
  ghost function Wanted(t: Text): nat -> bv8
  {
    (b: nat) => DecodedByte(t, b)
  }

  /** One round of the loop: four characters to three bytes. */
  method DecodeGroup(t: Text, pos0: nat, out0: Data, j0: nat, ghost group: nat) returns (pos: nat, out: Data, j: nat)
    requires pos0 < |t| && pos0 == 4 * group
    requires j0 == (if 3 * group < |out0| then 3 * group else |out0|) && Matches(out0, Wanted(t), j0)
    ensures pos == if pos0 + 4 < |t| then pos0 + 4 else |t|
    ensures |out| == |out0| && j == (if 3 * group + 3 < |out| then 3 * group + 3 else |out|)
    ensures Matches(out, Wanted(t), j)
  {
    var data;
    data, pos := NextGroup(t, pos0, group);
    out, j := PutGroup(out0, j0, data, Wanted(t), group);
  }

  /** There is never more room than the groups fill. */
  lemma NoRoomLeft(t: Text, group: nat)
    requires |t| <= 4 * group
    ensures DecodeLength(t) <= 3 * group
  {
  }

  /** The output never has to be shortened at the end, whatever the input is. */
  method Decode(t: Text) returns (out: Data)
    ensures Decodes(out, t)
  {
    var outputSize := GetDecodeLength(t);
    out := seq(outputSize, _ => 0);
    var pos, j := 0, 0;
    ghost var group, want := 0, Wanted(t);
    while pos < |t|
      invariant pos == (if 4 * group < |t| then 4 * group else |t|)
      invariant j == (if 3 * group < |out| then 3 * group else |out|)
      invariant |out| == outputSize && Matches(out, want, j)
    {
      pos, out, j := DecodeGroup(t, pos, out, j, group);
      group := group + 1;
    }
    NoRoomLeft(t, group);
    if j < outputSize {
      assert false;
    }
  }

  // ----- Checked decoding -----

  /** Padding only at the end and at most two characters of it. */
  predicate ValidPadding(t: Text)
  {
    forall i :: 0 <= i < |t| && t[i] == PAD ==> i + 2 >= |t| && t[|t| - 1] == PAD
  }

  method HasValidPadding(t: Text) returns (ok: bool)
    ensures ok == ValidPadding(t)
  {
    var firstPadding := 0;
    while firstPadding < |t| && t[firstPadding] != PAD
      invariant firstPadding <= |t| && forall i :: 0 <= i < firstPadding ==> t[i] != PAD
    {
      firstPadding := firstPadding + 1;
    }
    if firstPadding == |t| {
      return true;
    }
    for i := firstPadding to |t|
      invariant forall k :: firstPadding <= k < i ==> t[k] == PAD
    {
      if t[i] != PAD {
        assert t[firstPadding] == PAD && i > firstPadding;
        return false;
      }
    }
    ok := |t| - firstPadding <= 2;
  }

  predicate AllEncodedChars(t: Text)
  {
    forall i :: 0 <= i < |t| ==> IsEncodedChar(t[i])
  }

  /** The first reason to refuse a text, in the order of the checks. */
  function Refused(t: Text, expected: Option<nat>): Option<Refusal>
  {
    if t == [] then Some(IsEmpty)
    else if !ValidPadding(t) then Some(InvalidPadding)
    else if |t| % 4 == 1 then Some(InvalidLength)
    else if expected.Some? && DecodeLength(t) != expected.value then Some(UnexpectedLength)
    else if !AllEncodedChars(t) then Some(InvalidCharacters)
    else None
  }

  /** `expected` is the length that one of the two overloads asks for. */
  method DecodeChecked(t: Text, expected: Option<nat>) returns (r: Result<Data>)
    ensures match Refused(t, expected)
            case Some(why) => r == Err(why)
            case None => r.Ok? && Decodes(r.value, t)
  {
    if t == [] {
      return Err(IsEmpty);
    }
    var valid := HasValidPadding(t);
    if !valid {
      return Err(InvalidPadding);
    }
    if |t| % 4 == 1 {
      return Err(InvalidLength);
    }
    if expected.Some? {
      var length := GetDecodeLength(t);
      if length != expected.value {
        return Err(UnexpectedLength);
      }
    }
    for i := 0 to |t|
      invariant forall k :: 0 <= k < i ==> IsEncodedChar(t[k])
    {
      if !IsEncodedChar(t[i]) {
        return Err(InvalidCharacters);
      }
    }
    var out := Decode(t);
    return Ok(out);
  }

  // ----- The two directions -----

  /** Three bytes cut into four codes and joined again. */
  lemma SixThenThird(x1: bv8, x2: bv8, x3: bv8)
    ensures var data := Joined(Six(x1, x2, x3, 0), Six(x1, x2, x3, 1), Six(x1, x2, x3, 2), Six(x1, x2, x3, 3));
            Third(data, 0) == x1 && Third(data, 1) == x2 && Third(data, 2) == x3
  {
  }

  /** Four codes joined and cut again. */
  lemma ThirdThenSix(c1: bv8, c2: bv8, c3: bv8, c4: bv8)
    requires c1 < 64 && c2 < 64 && c3 < 64 && c4 < 64
    ensures var data := Joined(c1, c2, c3, c4);
            var x1, x2, x3 := Third(data, 0), Third(data, 1), Third(data, 2);
            Six(x1, x2, x3, 0) == c1 && Six(x1, x2, x3, 1) == c2 && Six(x1, x2, x3, 2) == c3 && Six(x1, x2, x3, 3) == c4
  {
  }

  lemma ThreeCodes(c1: bv8, c2: bv8, c3: bv8)
    requires c1 < 64 && c2 < 64 && c3 < 64
    ensures var data := Joined(c1, c2, c3, 0);
            var x1, x2 := Third(data, 0), Third(data, 1);
            Six(x1, x2, 0, 0) == c1 && Six(x1, x2, 0, 1) == c2 && Six(x1, x2, 0, 2) == c3 & 0x3C
  {
  }

  lemma TwoCodes(c1: bv8, c2: bv8)
    requires c1 < 64 && c2 < 64
    ensures var x1 := Third(Joined(c1, c2, 0, 0), 0);
            Six(x1, 0, 0, 0) == c1 && Six(x1, 0, 0, 1) == c2 & 0x30
  {
  }

  /** Every code of an encoding is the sextet of the data at its place; past the end both are 0. */
  lemma CodeOfEncoding(text: Text, s: Data, m: nat)
    requires Encodes(text, s)
    ensures Code(text, m) == Sextet(s, m)
  {
    if m < |text| {
      LookupsAreInverse(Sextet(s, m), PAD);
    } else {
      PastTheData(s, m);
    }
  }

  lemma PastTheData(s: Data, m: nat)
    requires m >= EncodedLength(|s|)
    ensures Sextet(s, m) == 0
  {
  }

  lemma SextetInGroup(s: Data, group: nat, r: nat)
    requires r < 4
    ensures Sextet(s, 4 * group + r) == Six(ByteAt(s, 3 * group), ByteAt(s, 3 * group + 1), ByteAt(s, 3 * group + 2), r)
  {
    QuotientIs(4 * group + r, 4, group, r);
  }

  lemma DecodedInGroup(t: Text, group: nat, r: nat)
    requires r < 3
    ensures DecodedByte(t, 3 * group + r) == Third(GroupData(t, group), r)
  {
    QuotientIs(3 * group + r, 3, group, r);
  }

  lemma CodeInGroup(text: Text, s: Data, group: nat, r: nat, x1: bv8, x2: bv8, x3: bv8)
    requires Encodes(text, s) && r < 4
    requires x1 == ByteAt(s, 3 * group) && x2 == ByteAt(s, 3 * group + 1) && x3 == ByteAt(s, 3 * group + 2)
    ensures Code(text, 4 * group + r) == Six(x1, x2, x3, r)
  {
    CodeOfEncoding(text, s, 4 * group + r);
    SextetInGroup(s, group, r);
  }

  /** The codes of a group are the sextets of three bytes. */
  predicate EncodesGroup(text: Text, group: nat, x1: bv8, x2: bv8, x3: bv8)
  {
    && Code(text, 4 * group) == Six(x1, x2, x3, 0)
    && Code(text, 4 * group + 1) == Six(x1, x2, x3, 1)
    && Code(text, 4 * group + 2) == Six(x1, x2, x3, 2)
    && Code(text, 4 * group + 3) == Six(x1, x2, x3, 3)
  }

  lemma GroupOfEncoding(text: Text, s: Data, group: nat, x1: bv8, x2: bv8, x3: bv8)
    requires Encodes(text, s)
    requires x1 == ByteAt(s, 3 * group) && x2 == ByteAt(s, 3 * group + 1) && x3 == ByteAt(s, 3 * group + 2)
    ensures EncodesGroup(text, group, x1, x2, x3)
  {
    CodeInGroup(text, s, group, 0, x1, x2, x3);
    CodeInGroup(text, s, group, 1, x1, x2, x3);
    CodeInGroup(text, s, group, 2, x1, x2, x3);
    CodeInGroup(text, s, group, 3, x1, x2, x3);
  }

  lemma BytesOfGroup(text: Text, group: nat, r: nat, x1: bv8, x2: bv8, x3: bv8)
    requires EncodesGroup(text, group, x1, x2, x3) && r < 3
    ensures DecodedByte(text, 3 * group + r) == if r == 0 then x1 else if r == 1 then x2 else x3
  {
    DecodedInGroup(text, group, r);
    SixThenThird(x1, x2, x3);
  }

  lemma ByteRoundTrip(text: Text, s: Data, group: nat, r: nat)
    requires Encodes(text, s) && r < 3
    ensures DecodedByte(text, 3 * group + r) == ByteAt(s, 3 * group + r)
  {
    var x1, x2, x3 := ByteAt(s, 3 * group), ByteAt(s, 3 * group + 1), ByteAt(s, 3 * group + 2);
    GroupOfEncoding(text, s, group, x1, x2, x3);
    BytesOfGroup(text, group, r, x1, x2, x3);
  }

  lemma EncodingHasNoPadding(text: Text, s: Data)
    requires Encodes(text, s)
    ensures AllEncodedChars(text) && PAD !in text && Trailing(text) == 0
  {
    forall m | 0 <= m < |text| ensures IsEncodedChar(text[m]) && text[m] != PAD {
      LookupsAreInverse(Sextet(s, m), text[m]);
    }
  }

  lemma LengthsAreInverse(n: nat)
    ensures 3 * EncodedLength(n) / 4 == n && EncodedLength(n) % 4 != 1
  {
  }

  /** What was encoded is accepted, unless it is empty, and decoded to the same bytes; any length
      expected other than the right one is refused. */
  lemma EncodedIsDecoded(text: Text, s: Data, out: Data, expected: nat)
    requires Encodes(text, s)
    ensures DecodeLength(text) == |s|
    ensures Refused(text, None) == if s == [] then Some(IsEmpty) else None
    ensures s != [] ==> (Refused(text, Some(expected)) == None <==> expected == |s|)
    ensures Decodes(out, text) <==> out == s
  {
    EncodingHasNoPadding(text, s);
    LengthsAreInverse(|s|);
    DecodingOfEncoding(text, s, out);
  }

  lemma EveryByte(text: Text, s: Data, b: nat)
    requires Encodes(text, s) && b < |s|
    ensures DecodedByte(text, b) == s[b]
  {
    var group, r := b / 3, b % 3;
    ByteRoundTrip(text, s, group, r);
  }

  lemma DecodingOfEncoding(text: Text, s: Data, out: Data)
    requires Encodes(text, s) && DecodeLength(text) == |s|
    ensures Decodes(out, text) <==> out == s
  {
    forall b | 0 <= b < |s| ensures DecodedByte(text, b) == s[b] {
      EveryByte(text, s, b);
    }
  }

  // ----- Texts that are accepted although they are no encoding -----

  /** The part of a letter that the decoded bytes keep, when `left` characters are left at its
      group's start and it is number r of the group. */
  function Kept(left: nat, r: nat, c: bv8): bv8
  {
    if left == 2 && r == 1 then c & 0x30 else if left == 3 && r == 2 then c & 0x3C else c
  }

  function KeptCode(t: Text, group: nat, r: nat): bv8
    requires 4 * group + r < |t|
  {
    Kept(|t| - 4 * group, r, Code(t, 4 * group + r))
  }

  /** The bits of the last letter that no byte takes. */
  predicate TrailingBitsAreZero(t: Text)
  {
    && (|t| % 4 == 2 ==> Code(t, |t| - 1) & 0x30 == Code(t, |t| - 1))
    && (|t| % 4 == 3 ==> Code(t, |t| - 1) & 0x3C == Code(t, |t| - 1))
  }

  /** From the bytes of the last or an earlier group back to one of its codes; `left` characters
      are left at the group's start. */
  lemma SextetOfCodes(left: nat, r: nat, x1: bv8, x2: bv8, x3: bv8, c1: bv8, c2: bv8, c3: bv8, c4: bv8)
    requires r < 4 && r < left && left != 1
    requires c1 < 64 && c2 < 64 && c3 < 64 && c4 < 64
    requires (left <= 3 ==> c4 == 0) && (left <= 2 ==> c3 == 0)
    requires x1 == Third(Joined(c1, c2, c3, c4), 0)
    requires x2 == if left > 2 then Third(Joined(c1, c2, c3, c4), 1) else 0
    requires x3 == if left > 3 then Third(Joined(c1, c2, c3, c4), 2) else 0
    ensures Six(x1, x2, x3, r) == Kept(left, r, if r == 0 then c1 else if r == 1 then c2 else if r == 2 then c3 else c4)
  {
    if left >= 4 {
      ThirdThenSix(c1, c2, c3, c4);
    } else if left == 3 {
      ThreeCodes(c1, c2, c3);
    } else {
      TwoCodes(c1, c2);
    }
  }

  /** The bytes of a group, as far as the output goes; beyond it there are no characters either. */
  predicate DecodesGroup(t: Text, out: Data, group: nat)
    requires 4 * group < |t|
  {
    && ByteAt(out, 3 * group) == Third(GroupData(t, group), 0)
    && ByteAt(out, 3 * group + 1) == (if |t| - 4 * group > 2 then Third(GroupData(t, group), 1) else 0)
    && ByteAt(out, 3 * group + 2) == (if |t| - 4 * group > 3 then Third(GroupData(t, group), 2) else 0)
  }

  lemma SextetOfDecoded(t: Text, out: Data, group: nat, r: nat, c1: bv8, c2: bv8, c3: bv8, c4: bv8)
    requires |t| % 4 != 1 && r < 4 && 4 * group + r < |t| && DecodesGroup(t, out, group)
    requires Code(t, 4 * group) == c1 && Code(t, 4 * group + 1) == c2
    requires Code(t, 4 * group + 2) == c3 && Code(t, 4 * group + 3) == c4
    requires c1 < 64 && c2 < 64 && c3 < 64 && c4 < 64
    ensures Sextet(out, 4 * group + r) == KeptCode(t, group, r)
  {
    SextetInGroup(out, group, r);
    LeftInGroup(t, group);
    SextetOfCodes(|t| - 4 * group, r, ByteAt(out, 3 * group), ByteAt(out, 3 * group + 1), ByteAt(out, 3 * group + 2),
                  c1, c2, c3, c4);
  }

  lemma LeftInGroup(t: Text, group: nat)
    requires |t| % 4 != 1 && 4 * group < |t|
    ensures |t| - 4 * group != 1
    ensures |t| - 4 * group <= 3 ==> Code(t, 4 * group + 3) == 0
    ensures |t| - 4 * group <= 2 ==> Code(t, 4 * group + 2) == 0
  {
  }

  lemma CodesAreSmall(t: Text, pos: nat)
    requires AllEncodedChars(t)
    ensures Code(t, pos) < 64 && Code(t, pos + 1) < 64 && Code(t, pos + 2) < 64 && Code(t, pos + 3) < 64
  {
    forall p | pos <= p < |t| ensures Code(t, p) < 64 {
      LookupsAreInverse(0, t[p]);
    }
  }

  lemma DecodedGroup(t: Text, out: Data, group: nat)
    requires |t| % 4 != 1 && Decodes(out, t) && |out| == 3 * |t| / 4 && 4 * group < |t|
    ensures DecodesGroup(t, out, group)
  {
    RoomForGroup(|t|, group);
    DecodedAt(t, out, group, 0);
    DecodedAt(t, out, group, 1);
    DecodedAt(t, out, group, 2);
  }

  lemma GroupOfDecoding(t: Text, out: Data, group: nat)
    requires PAD !in t && |t| % 4 != 1 && Decodes(out, t) && 4 * group < |t|
    ensures DecodesGroup(t, out, group)
  {
    NoTrailing(t);
    DecodedGroup(t, out, group);
  }

  lemma DecodedAt(t: Text, out: Data, group: nat, r: nat)
    requires Decodes(out, t) && r < 3
    ensures ByteAt(out, 3 * group + r) == if 3 * group + r < |out| then Third(GroupData(t, group), r) else 0
  {
    DecodedInGroup(t, group, r);
  }

  lemma RoomForGroup(n: nat, group: nat)
    requires n % 4 != 1 && 4 * group < n
    ensures 3 * group < 3 * n / 4
    ensures 3 * group + 1 < 3 * n / 4 <==> n - 4 * group > 2
    ensures 3 * group + 2 < 3 * n / 4 <==> n - 4 * group > 3
  {
  }

  lemma NoTrailing(t: Text)
    requires PAD !in t
    ensures DecodeLength(t) == 3 * |t| / 4
  {
  }

  /** Of the accepted texts exactly those without padding and without stray trailing bits are the
      encoding of what they decode to. */
  lemma AcceptedIsCanonical(t: Text, out: Data)
    requires Refused(t, None) == None && Decodes(out, t)
    ensures Encodes(t, out) <==> PAD !in t && TrailingBitsAreZero(t)
  {
    if PAD !in t {
      NoTrailing(t);
      LengthOfAccepted(|t|);
      LetterByLetter(t, out);
    } else if Encodes(t, out) {
      EncodingHasNoPadding(t, out);
      assert false;
    }
  }

  lemma LengthOfAccepted(n: nat)
    requires n % 4 != 1
    ensures EncodedLength(3 * n / 4) == n
  {
  }

  lemma LetterByLetter(t: Text, out: Data)
    requires AllEncodedChars(t) && PAD !in t && |t| % 4 != 1 && Decodes(out, t)
    ensures Emitted(t, out) <==> TrailingBitsAreZero(t)
  {
    forall m | 0 <= m < |t| ensures t[m] == EncodeLookup(Sextet(out, m)) <==> LetterIsKept(t, m) {
      OneLetter(t, out, m);
    }
    LastLetterDecides(t);
  }

  predicate LetterIsKept(t: Text, m: nat)
    requires m < |t|
  {
    KeptCode(t, m / 4, m % 4) == Code(t, m)
  }

  lemma OneLetter(t: Text, out: Data, m: nat)
    requires AllEncodedChars(t) && PAD !in t && |t| % 4 != 1 && Decodes(out, t) && m < |t|
    ensures t[m] == EncodeLookup(Sextet(out, m)) <==> LetterIsKept(t, m)
  {
    var group, r := m / 4, m % 4;
    GroupOfDecoding(t, out, group);
    CodesAreSmall(t, 4 * group);
    SextetOfDecoded(t, out, group, r, Code(t, 4 * group), Code(t, 4 * group + 1), Code(t, 4 * group + 2),
                    Code(t, 4 * group + 3));
    LookupsAreInverse(Sextet(out, m), t[m]);
  }

  lemma LastLetterDecides(t: Text)
    requires |t| % 4 != 1
    ensures (forall m :: 0 <= m < |t| ==> LetterIsKept(t, m)) <==> TrailingBitsAreZero(t)
  {
    if |t| % 4 > 1 {
      assert LetterIsKept(t, |t| - 1) <==> TrailingBitsAreZero(t);
    }
  }

  // ----- Padding -----

  function Pads(n: nat): Text
  {
    seq(n, _ => PAD)
  }

  lemma {:induction false} TrailingOfPadded(u: Text, n: nat)
    requires u != [] ==> u[|u| - 1] != PAD
    ensures Trailing(u + Pads(n)) == n
    decreases n
  {
    if n == 0 {
      assert u + Pads(0) == u;
    } else {
      assert (u + Pads(n))[..|u| + n - 1] == u + Pads(n - 1);
      TrailingOfPadded(u, n - 1);
    }
  }

  /** Padding does not count towards the decoded length, as far as its count fits in eight bits. */
  lemma LengthOfPadded(u: Text, n: nat)
    requires u != [] ==> u[|u| - 1] != PAD
    ensures DecodeLength(u + Pads(n)) == 3 * (|u| + n - n % 256) / 4
    ensures n < 256 ==> DecodeLength(u + Pads(n)) == 3 * |u| / 4
  {
    TrailingOfPadded(u, n);
  }

  lemma GroupOfPadded(u: Text, n: nat, group: nat)
    ensures GroupData(u + Pads(n), group) == GroupData(u, group)
  {
    CodeOfPadded(u, n, 4 * group);
    CodeOfPadded(u, n, 4 * group + 1);
    CodeOfPadded(u, n, 4 * group + 2);
    CodeOfPadded(u, n, 4 * group + 3);
  }

  /** Padding stands for no bits, as does the end of the text. */
  lemma CodeOfPadded(u: Text, n: nat, pos: nat)
    ensures Code(u + Pads(n), pos) == Code(u, pos)
  {
  }

  lemma ByteOfPadded(u: Text, n: nat, b: nat)
    ensures DecodedByte(u + Pads(n), b) == DecodedByte(u, b)
  {
    GroupOfPadded(u, n, b / 3);
  }

  lemma PaddedDecodesAlike(u: Text, n: nat, out: Data)
    requires n < 256 && (u != [] ==> u[|u| - 1] != PAD)
    ensures Decodes(out, u + Pads(n)) <==> Decodes(out, u)
  {
    LengthOfPadded(u, n);
    LengthOfPadded(u, 0);
    assert u + Pads(0) == u;
    forall b | 0 <= b < |out| ensures DecodedByte(u + Pads(n), b) == DecodedByte(u, b) {
      ByteOfPadded(u, n, b);
    }
  }

  /** Every accepted text is some letters of the alphabet and at most two padding characters behind
      them; its decoded length is three quarters of the letters, and it decodes to what they decode to. */
  lemma PaddingIsTransparent(t: Text, out: Data) returns (u: Text, n: nat)
    requires Refused(t, None) == None
    ensures t == u + Pads(n) && n <= 2 && (forall i :: 0 <= i < |u| ==> IsEncodedChar(u[i]) && u[i] != PAD)
    ensures DecodeLength(t) == 3 * |u| / 4
    ensures Decodes(out, t) <==> Decodes(out, u)
  {
    u, n := WithoutPadding(t);
    LengthOfPadded(u, n);
    PaddedDecodesAlike(u, n, out);
  }

  lemma WithoutPadding(t: Text) returns (u: Text, n: nat)
    requires ValidPadding(t) && AllEncodedChars(t)
    ensures t == u + Pads(n) && n <= 2 && (forall i :: 0 <= i < |u| ==> IsEncodedChar(u[i]) && u[i] != PAD)
  {
    if t == [] || t[|t| - 1] != PAD {
      u, n := t, 0;
    } else if |t| == 1 || t[|t| - 2] != PAD {
      u, n := t[..|t| - 1], 1;
    } else {
      u, n := t[..|t| - 2], 2;
    }
    assert t == u + Pads(n);
    forall i | 0 <= i < |u| ensures IsEncodedChar(u[i]) && u[i] != PAD {
      assert u[i] == t[i];
    }
  }

  /** The padding of section 4 of RFC 4648 for data of n bytes. */
  function PadLength(n: nat): nat { (3 - n % 3) % 3 }

  lemma PaddedToGroups(n: nat)
    ensures (EncodedLength(n) + PadLength(n)) % 4 == 0 && PadLength(n) <= 2
  {
  }

  /** The encoding of any data followed by its RFC 4648 padding is accepted as well - with the data's
      length if one is expected - and decodes to the data alone. */
  lemma PaddedEncodingIsDecoded(text: Text, s: Data, out: Data, expected: nat)
    requires Encodes(text, s) && s != []
    ensures var t := text + Pads(PadLength(|s|));
            && |t| % 4 == 0 && DecodeLength(t) == |s| && Refused(t, None) == None
            && (Refused(t, Some(expected)) == None <==> expected == |s|)
            && (Decodes(out, t) <==> out == s)
  {
    var n := PadLength(|s|);
    EncodingHasNoPadding(text, s);
    EncodedIsDecoded(text, s, out, expected);
    PaddedToGroups(|s|);
    LengthOfPadded(text, n);
    LengthOfPadded(text, 0);
    assert text + Pads(0) == text;
    PaddedDecodesAlike(text, n, out);
    PaddedIsAccepted(text, n);
  }

  lemma PaddedIsAccepted(u: Text, n: nat)
    requires u != [] && n <= 2 && AllEncodedChars(u) && PAD !in u
    ensures var t := u + Pads(n);
            t != [] && ValidPadding(t) && AllEncodedChars(t)
  {
  }
}
