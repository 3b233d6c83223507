/** Base64 as keys are written (src/wireguard.ts, toBase64 and fromBase64). */
module Base64 {
  import opened Wrappers
  import opened Arithmetic

  /** Six bits. */
  type Six = v: int | 0 <= v < 64

  // ----- The alphabet -----

  function Letter(v: Six): char {
    if v < 26 then 'A' + v as char
    else if v < 52 then 'a' + (v - 26) as char
    else if v < 62 then '0' + (v - 52) as char
    else if v == 62 then '+'
    else '/'
  }

  /** A letter's place in the alphabet; None for one not in it. */
  function IndexOf(c: char): Option<Six> {
    if 'A' <= c <= 'Z' then Some((c - 'A') as int)
    else if 'a' <= c <= 'z' then Some((c - 'a') as int + 26)
    else if '0' <= c <= '9' then Some((c - '0') as int + 52)
    else if c == '+' then Some(62)
    else if c == '/' then Some(63)
    else None
  }

  lemma {:induction false} LetterBack(v: Six)
    ensures IndexOf(Letter(v)) == Some(v) && Letter(v) != '='
  {
  }

  // ----- Sixes -----

  /** The sixes of three bytes, or of the one or two left over, what is missing taken for zero. */
  function Sixes(bytes: Bytes): seq<Six>
    decreases |bytes|
  {
    if bytes == [] then []
    else if |bytes| == 1 then [bytes[0] / 4, bytes[0] % 4 * 16]
    else if |bytes| == 2 then [bytes[0] / 4, bytes[0] % 4 * 16 + bytes[1] / 16, bytes[1] % 16 * 4]
    else [bytes[0] / 4, bytes[0] % 4 * 16 + bytes[1] / 16, bytes[1] % 16 * 4 + bytes[2] / 64, bytes[2] % 64] + Sixes(bytes[3..])
  }

  function Letters(sixes: seq<Six>): string {
    seq(|sixes|, i requires 0 <= i < |sixes| => Letter(sixes[i]))
  }

  function Padding(n: nat): string {
    if n % 3 == 1 then "==" else if n % 3 == 2 then "=" else ""
  }

  function Encoded(bytes: Bytes): string {
    Letters(Sixes(bytes)) + Padding(|bytes|)
  }

  function At(bytes: Bytes, i: nat): Byte {
    if i < |bytes| then bytes[i] else 0
  }

  /** Six of the bits of three bytes as one number. */
  function SixOf(n: nat, unit: nat): Six
    requires unit > 0
  {
    (n / unit) % 64
  }

  lemma {:induction false} SixesOf(a: Byte, b: Byte, c: Byte)
    ensures var n := a * 65536 + b * 256 + c;
      && SixOf(n, 262144) == a / 4 && SixOf(n, 4096) == a % 4 * 16 + b / 16
      && SixOf(n, 64) == b % 16 * 4 + c / 64 && SixOf(n, 1) == c % 64
  {
    var n := a * 65536 + b * 256 + c;
    Quotient(n, a / 4, (a % 4) * 65536 + b * 256 + c, 262144);
    Quotient(n, a * 16 + b / 16, (b % 16) * 256 + c, 4096);
    Quotient(a * 16 + b / 16, a / 4, a % 4 * 16 + b / 16, 64);
    Quotient(n, a * 1024 + b * 4 + c / 64, c % 64, 64);
    Quotient(a * 1024 + b * 4 + c / 64, a * 16 + b / 16, b % 16 * 4 + c / 64, 64);
    Quotient(a / 4, 0, a / 4, 64);
  }

  lemma {:induction false} LettersJoined(a: seq<Six>, b: seq<Six>)
    ensures Letters(a + b) == Letters(a) + Letters(b)
  {
  }

  /** What is written, and what is left to write. */
  predicate IsSoFar(bytes: Bytes, i: nat, out: string) {
    if i <= |bytes| then Encoded(bytes) == out + Encoded(bytes[i..]) else out == Encoded(bytes)
  }

  method ToBase64(bytes: Bytes) returns (out: string)
    ensures out == Encoded(bytes)
  {
    out := "";
    var i := 0;
    Starts(bytes);
    while i < |bytes|
      invariant 0 <= i && IsSoFar(bytes, i, out)
    {
      var group := Group(bytes[i..]);
      Turn(bytes, i, out, group);
      out := out + group;
      i := i + 3;
    }
    Finishes(bytes, i, out);
  }

  lemma {:induction false} Starts(bytes: Bytes)
    ensures IsSoFar(bytes, 0, "")
  {
    assert bytes[0..] == bytes;
  }

  lemma {:induction false} Turn(bytes: Bytes, i: nat, out: string, group: string)
    requires i < |bytes| && IsSoFar(bytes, i, out) && IsGroup(bytes[i..], group)
    ensures IsSoFar(bytes, i + 3, out + group)
  {
    GroupEncoded(bytes[i..], group);
    if i + 3 <= |bytes| {
      assert bytes[i..][3..] == bytes[i + 3..];
      assert out + (group + Encoded(bytes[i + 3..])) == out + group + Encoded(bytes[i + 3..]);
    }
  }

  lemma {:induction false} Finishes(bytes: Bytes, i: nat, out: string)
    requires i >= |bytes| && IsSoFar(bytes, i, out)
    ensures out == Encoded(bytes)
  {
    if i == |bytes| { assert bytes[i..] == [] && Encoded([]) == "" && out + "" == out; }
  }

  /** One turn of the loop: three bytes as one number, six bits at a time. */
  method Group(bytes: Bytes) returns (group: string)
    requires bytes != []
    ensures IsGroup(bytes, group)
  {
    var a, b, c := bytes[0], At(bytes, 1), At(bytes, 2);
    var n: int := a as int * 65536 + b as int * 256 + c as int;
    SixesOf(a, b, c);
    group := [
      Letter(SixOf(n, 262144)), Letter(SixOf(n, 4096)),
      if 1 < |bytes| then Letter(SixOf(n, 64)) else '=', if 2 < |bytes| then Letter(SixOf(n, 1)) else '='];
  }

  predicate IsGroup(bytes: Bytes, group: string)
    requires bytes != []
  {
    var (a, b, c) := (bytes[0], At(bytes, 1), At(bytes, 2));
    && |group| == 4
    && group[0] == Letter(a / 4) && group[1] == Letter(a % 4 * 16 + b / 16)
    && group[2] == (if |bytes| > 1 then Letter(b % 16 * 4 + c / 64) else '=')
    && group[3] == (if |bytes| > 2 then Letter(c % 64) else '=')
  }

  /** The four letters of the first group, and the rest. */
  lemma {:induction false} GroupEncoded(bytes: Bytes, group: string)
    requires bytes != [] && IsGroup(bytes, group)
    ensures |bytes| < 3 ==> Encoded(bytes) == group
    ensures |bytes| >= 3 ==> Encoded(bytes) == group + Encoded(bytes[3..])
  {
    if |bytes| >= 3 { WholeGroup(bytes, group); } else { LastGroup(bytes, group); }
  }

  lemma {:induction false} WholeGroup(bytes: Bytes, group: string)
    requires |bytes| >= 3 && IsGroup(bytes, group)
    ensures Encoded(bytes) == group + Encoded(bytes[3..])
  {
    var first := [bytes[0] / 4, bytes[0] % 4 * 16 + bytes[1] / 16, bytes[1] % 16 * 4 + bytes[2] / 64, bytes[2] % 64];
    LettersJoined(first, Sixes(bytes[3..]));
    assert Letters(first) == group;
    assert Padding(|bytes|) == Padding(|bytes| - 3);
  }

  lemma {:induction false} LastGroup(bytes: Bytes, group: string)
    requires 0 < |bytes| < 3 && IsGroup(bytes, group)
    ensures Encoded(bytes) == group
  {
    var sixes := Sixes(bytes);
    if |bytes| == 1 {
      assert sixes == [bytes[0] / 4, bytes[0] % 4 * 16];
    } else {
      assert sixes == [bytes[0] / 4, bytes[0] % 4 * 16 + bytes[1] / 16, bytes[1] % 16 * 4];
    }
    assert Letters(sixes) + Padding(|bytes|) == group;
  }

  // ----- Reading -----

  /** How many values some bits left over have. */
  function Unit(bits: nat): nat {
    if bits == 0 then 1 else if bits == 2 then 4 else if bits == 4 then 16 else 64
  }

  predicate IsLeft(left: nat, bits: nat) {
    (bits == 0 || bits == 2 || bits == 4 || bits == 6) && left < Unit(bits)
  }

  /** The bytes of sixes, after some bits left over. */
  function BytesOf(sixes: seq<Six>, left: nat, bits: nat): Bytes
    requires IsLeft(left, bits)
    decreases |sixes|
  {
    if sixes == [] then []
    else
      var total := left * 64 + sixes[0];
      if bits == 0 then BytesOf(sixes[1..], total, 6)
      else
        TotalSplits(left, sixes[0], bits);
        [total / Unit(bits - 2)] + BytesOf(sixes[1..], total % Unit(bits - 2), bits - 2)
  }

  lemma {:induction false} TotalSplits(left: nat, six: Six, bits: nat)
    requires IsLeft(left, bits) && bits > 0
    ensures var total := left * 64 + six; 0 <= total / Unit(bits - 2) < 256 && IsLeft(total % Unit(bits - 2), bits - 2)
  {
  }

  function Stripped(text: string): string {
    if text != "" && text[|text| - 1] == '=' then Stripped(text[..|text| - 1]) else text
  }

  /** The sixes of letters; None for one not in the alphabet. */
  function Indexes(text: string): Option<seq<Six>> {
    if text == "" then Some([])
    else if IndexOf(text[0]).None? || Indexes(text[1..]).None? then None
    else Some([IndexOf(text[0]).value] + Indexes(text[1..]).value)
  }

  function Decoded(text: string): Result<Bytes> {
    match Indexes(Stripped(text))
    case None => Err
    case Some(sixes) => Ok(BytesOf(sixes, 0, 0))
  }

  const WIDTH := 0x1_0000_0000

  /** A buffer that keeps its low bits right, though its high ones are lost past 32. */
  predicate Keeps(buffer: nat, left: nat, bits: nat) {
    IsLeft(left, bits) && buffer % Unit(bits) == left
  }

  lemma {:induction false} Shifts(buffer: nat, left: nat, bits: nat, six: Six)
    requires Keeps(buffer, left, bits)
    ensures var (next, total) := ((buffer * 64 + six) % WIDTH, left * 64 + six);
      if bits == 0 then Keeps(next, total, 6)
      else (next / Unit(bits - 2)) % 256 == total / Unit(bits - 2) && Keeps(next, total % Unit(bits - 2), bits - 2)
  {
    var all := buffer * 64 + six;
    var high := buffer / Unit(bits);
    assert buffer == high * Unit(bits) + left;
    assert all == all / WIDTH * WIDTH + all % WIDTH;
    if bits == 0 {
      Quotient(all % WIDTH, buffer - all / WIDTH * 67108864, six, 64);
    } else if bits == 2 {
      NextByte(all % WIDTH, high - all / WIDTH * 16777216, left * 64 + six, 1);
    } else if bits == 4 {
      NextByte(all % WIDTH, high - all / WIDTH * 4194304, left * 64 + six, 4);
    } else {
      NextByte(all % WIDTH, high - all / WIDTH * 1048576, left * 64 + six, 16);
    }
  }

  /** The byte above some bits, whatever is above it. */
  lemma {:induction false} NextByte(next: nat, times: int, total: nat, unit: nat)
    requires unit > 0 && next == times * (256 * unit) + total && total < 256 * unit
    ensures (next / unit) % 256 == total / unit && next % unit == total % unit
  {
    var (q, r) := (total / unit, total % unit);
    assert total == q * unit + r;
    assert next == (times * 256 + q) * unit + r by { assert times * (256 * unit) == (times * 256) * unit; }
    Quotient(next, times * 256 + q, r, unit);
    AtLeast(q - 255, unit);
    assert (q - 255) * unit == q * unit - 255 * unit;
    Quotient(times * 256 + q, times, q, 256);
  }

  /** The bytes read, and what is left to read, after the bits left over. */
  predicate IsReadSoFar(clean: string, i: nat, bytes: Bytes, left: nat, bits: nat)
    requires i <= |clean| && IsLeft(left, bits)
  {
    && (Indexes(clean).None? <==> Indexes(clean[i..]).None?)
    && (Indexes(clean).Some? ==> BytesOf(Indexes(clean).value, 0, 0) == bytes + BytesOf(Indexes(clean[i..]).value, left, bits))
  }

  method FromBase64(text: string) returns (result: Result<Bytes>)
    ensures result == Decoded(text)
  {
    var clean := Stripped(text);
    var bytes: Bytes, buffer: nat, bits: nat := [], 0, 0;
    ghost var left: nat := 0;
    var i := 0;
    ReadStarts(clean);
    while i < |clean|
      invariant 0 <= i <= |clean| && Keeps(buffer, left, bits)
      invariant IsReadSoFar(clean, i, bytes, left, bits)
    {
      var value := IndexOf(clean[i]);
      ReadTurn(clean, i, bytes, left, bits);
      if value.None? { return Err; }
      Shifts(buffer, left, bits, value.value);
      left := left * 64 + value.value;
      buffer := (buffer * 64 + value.value) % WIDTH;
      bits := bits + 6;
      if bits >= 8 {
        bits := bits - 8;
        left := left % Unit(bits);
        bytes := bytes + [(buffer / Unit(bits)) % 256];
      }
      i := i + 1;
    }
    ReadEnds(clean, bytes, left, bits);
    return Ok(bytes);
  }

  lemma {:induction false} ReadStarts(clean: string)
    ensures IsReadSoFar(clean, 0, [], 0, 0)
  {
    assert clean[0..] == clean;
    if Indexes(clean).Some? { assert [] + BytesOf(Indexes(clean).value, 0, 0) == BytesOf(Indexes(clean).value, 0, 0); }
  }

  lemma {:induction false} ReadEnds(clean: string, bytes: Bytes, left: nat, bits: nat)
    requires IsLeft(left, bits) && IsReadSoFar(clean, |clean|, bytes, left, bits)
    ensures Indexes(clean) != None && BytesOf(Indexes(clean).value, 0, 0) == bytes
  {
    assert clean[|clean|..] == "" && bytes + [] == bytes;
  }

  lemma {:induction false} ReadTurn(clean: string, i: nat, bytes: Bytes, left: nat, bits: nat)
    requires i < |clean| && IsLeft(left, bits) && IsReadSoFar(clean, i, bytes, left, bits)
    ensures IndexOf(clean[i]).None? ==> Indexes(clean).None?
    ensures IndexOf(clean[i]).Some? && bits == 0 ==> IsReadSoFar(clean, i + 1, bytes, left * 64 + IndexOf(clean[i]).value, 6)
    ensures IndexOf(clean[i]).Some? && bits > 0 ==>
      var total := left * 64 + IndexOf(clean[i]).value;
      0 <= total / Unit(bits - 2) < 256 && IsLeft(total % Unit(bits - 2), bits - 2)
      && IsReadSoFar(clean, i + 1, bytes + [total / Unit(bits - 2)], total % Unit(bits - 2), bits - 2)
  {
    assert clean[i..][0] == clean[i] && clean[i..][1..] == clean[i + 1..];
    if IndexOf(clean[i]).Some? && Indexes(clean[i + 1..]).Some? {
      var six, rest := IndexOf(clean[i]).value, Indexes(clean[i + 1..]).value;
      assert Indexes(clean[i..]).value == [six] + rest && ([six] + rest)[1..] == rest;
      if bits > 0 {
        var total := left * 64 + six;
        TotalSplits(left, six, bits);
        var (byte, after) := (total / Unit(bits - 2), BytesOf(rest, total % Unit(bits - 2), bits - 2));
        assert bytes + ([byte] + after) == bytes + [byte] + after;
      }
    } else if IndexOf(clean[i]).Some? && bits > 0 {
      TotalSplits(left, IndexOf(clean[i]).value, bits);
    }
  }

  // ----- There and back -----

  lemma {:induction false} GroupBack(a: Byte, b: Byte, c: Byte, rest: seq<Six>)
    ensures BytesOf([a / 4, a % 4 * 16 + b / 16, b % 16 * 4 + c / 64, c % 64] + rest, 0, 0) == [a, b, c] + BytesOf(rest, 0, 0)
  {
    var s1, s2, s3 := [a % 4 * 16 + b / 16, b % 16 * 4 + c / 64, c % 64] + rest, [b % 16 * 4 + c / 64, c % 64] + rest, [c % 64] + rest;
    var all := [a / 4, a % 4 * 16 + b / 16, b % 16 * 4 + c / 64, c % 64] + rest;
    assert all[1..] == s1 && s1[1..] == s2 && s2[1..] == s3 && s3[1..] == rest;
    Quotient((a / 4) * 64 + s1[0], a, b / 16, 16);
    Quotient((b / 16) * 64 + s2[0], b, c / 64, 4);
    assert BytesOf(all, 0, 0) == BytesOf(s1, a / 4, 6);
    assert BytesOf(s1, a / 4, 6) == [a] + BytesOf(s2, b / 16, 4);
    assert BytesOf(s2, b / 16, 4) == [b] + BytesOf(s3, c / 64, 2);
    assert BytesOf(s3, c / 64, 2) == [c] + BytesOf(rest, 0, 0);
  }

  lemma {:induction false} SixesBack(bytes: Bytes)
    ensures BytesOf(Sixes(bytes), 0, 0) == bytes
    decreases |bytes|
  {
    if |bytes| >= 3 {
      SixesBack(bytes[3..]);
      GroupBack(bytes[0], bytes[1], bytes[2], Sixes(bytes[3..]));
      assert bytes == [bytes[0], bytes[1], bytes[2]] + bytes[3..];
    } else if |bytes| == 2 {
      TwoBack(bytes[0], bytes[1]);
    } else if |bytes| == 1 {
      OneBack(bytes[0]);
    }
  }

  lemma {:induction false} OneBack(a: Byte)
    ensures BytesOf([a / 4, a % 4 * 16], 0, 0) == [a]
  {
    assert [a / 4, a % 4 * 16][1..] == [a % 4 * 16] && [a % 4 * 16][1..] == [];
    Quotient((a / 4) * 64 + a % 4 * 16, a, 0, 16);
    assert BytesOf([a / 4, a % 4 * 16], 0, 0) == BytesOf([a % 4 * 16], a / 4, 6);
  }

  lemma {:induction false} TwoBack(a: Byte, b: Byte)
    ensures BytesOf([a / 4, a % 4 * 16 + b / 16, b % 16 * 4], 0, 0) == [a, b]
  {
    var s1, s2 := [a % 4 * 16 + b / 16, b % 16 * 4], [b % 16 * 4];
    var all := [a / 4, a % 4 * 16 + b / 16, b % 16 * 4];
    assert all[1..] == s1 && s1[1..] == s2 && s2[1..] == [];
    Quotient((a / 4) * 64 + s1[0], a, b / 16, 16);
    Quotient((b / 16) * 64 + s2[0], b, 0, 4);
    assert BytesOf(all, 0, 0) == BytesOf(s1, a / 4, 6);
    assert BytesOf(s1, a / 4, 6) == [a] + BytesOf(s2, b / 16, 4);
  }

  lemma {:induction false} IndexesBack(sixes: seq<Six>)
    ensures Indexes(Letters(sixes)) == Some(sixes)
    decreases |sixes|
  {
    if sixes != [] {
      LetterBack(sixes[0]);
      IndexesBack(sixes[1..]);
      assert Letters(sixes)[1..] == Letters(sixes[1..]);
      assert [sixes[0]] + sixes[1..] == sixes;
    }
  }

  lemma {:induction false} PaddingStripped(sixes: seq<Six>, n: nat)
    ensures Stripped(Letters(sixes) + Padding(n)) == Letters(sixes)
  {
    var text := Letters(sixes);
    assert text == text + "";
    if sixes != [] { LetterBack(sixes[|sixes| - 1]); }
    assert Stripped(text) == text;
    assert (text + "=")[..|text|] == text && (text + "==")[..|text| + 1] == text + "=";
    assert Stripped(text + "=") == text;
  }

  /** Any bytes, written and read, are the same bytes. */
  lemma {:induction false} RoundTrip(bytes: Bytes)
    ensures Decoded(Encoded(bytes)) == Ok(bytes)
  {
    PaddingStripped(Sixes(bytes), |bytes|);
    IndexesBack(Sixes(bytes));
    SixesBack(bytes);
  }

  /** And so no two byte strings are written alike. */
  lemma {:induction false} EncodedOnce(a: Bytes, b: Bytes)
    requires Encoded(a) == Encoded(b)
    ensures a == b
  {
    RoundTrip(a);
    RoundTrip(b);
  }

  /** As section 10 of RFC 4648 has them: one, two and three bytes. */
  lemma {:induction false} Vectors()
    ensures Encoded([0x66]) == "Zg==" && Encoded([0x66, 0x6f]) == "Zm8=" && Encoded([0x66, 0x6f, 0x6f]) == "Zm9v"
    ensures Encoded([0xfb, 0xf0, 0x00]) == "+/AA"
  {
    assert Sixes([0x66]) == [25, 32];
    assert Sixes([0x66, 0x6f]) == [25, 38, 60];
    assert [0x66, 0x6f, 0x6f][3..] == [] && [0xfb, 0xf0, 0x00][3..] == [];
    assert Sixes([0x66, 0x6f, 0x6f]) == [25, 38, 61, 47];
    assert Sixes([0xfb, 0xf0, 0x00]) == [62, 63, 0, 0];
  }
}
