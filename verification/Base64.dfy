/** The hand-written base64 decoder with its 32-bit buffer, and Basic authentication. */
module Base64 {
  import opened Text
  import opened Wrappers

  /** The standard alphabet: `A`-`Z`, `a`-`z`, `0`-`9`, `+`, `/`. */
  function Alphabet(): (r: string)
    ensures |r| == 64 && forall i :: 0 <= i < 64 ==> r[i] == Letter(i)
  {
    seq(64, i requires 0 <= i < 64 => Letter(i))
  }

  function Letter(value: nat): (c: char)
    requires value < 64
    ensures c != '='
  {
    if value < 26 then 'A' + value as char
    else if value < 52 then 'a' + (value - 26) as char
    else if value < 62 then '0' + (value - 52) as char
    else if value == 62 then '+' else '/'
  }

  predicate IsByte(c: char) { c as int < 256 }

  predicate IsBytes(s: string) { forall i :: 0 <= i < |s| ==> IsByte(s[i]) }

  predicate IsPad(c: char) { c == '=' }

  /** The position of a digit in the alphabet. */
  function Digit(c: char): (r: Option<nat>)
    ensures r.Some? ==> r.value < 64
  {
    Find(Alphabet(), [c])
  }

  // ----- The decoder on unbounded numbers -----

  predicate Sextet(values: seq<nat>) { forall i :: 0 <= i < |values| ==> values[i] < 64 }

  /** The digits' values, if every character is a digit. */
  function Values(digits: string): (r: Option<seq<nat>>)
    ensures r.Some? ==> Sextet(r.value)
  {
    if digits == "" then Some([])
    else
      match (Digit(digits[0]), Values(digits[1..]))
      case (Some(v), Some(vs)) => Some([v] + vs)
      case _ => None
  }

  /** Where the decoder can be between digits: 0, 2, 4 or 6 pending bits, and their value. */
  predicate Pending(buffer: nat, bits: nat) {
    || (bits == 0 && buffer == 0)
    || (bits == 2 && buffer < 4)
    || (bits == 4 && buffer < 16)
    || (bits == 6 && buffer < 64)
  }

  /** One digit more: the byte it completes, if any, and the bits then pending. */
  function Taken(value: nat, buffer: nat, bits: nat): (r: (string, nat, nat))
    requires value < 64 && Pending(buffer, bits)
    ensures Pending(r.1, r.2)
  {
    var shifted := buffer * 64 + value;
    match bits
    case 0 => ("", shifted, 6)
    case 2 => ([shifted as char], 0, 0)
    case 4 => ([(shifted / 4) as char], shifted % 4, 2)
    case _ => ([(shifted / 16) as char], shifted % 16, 4)
  }

  /** The bytes that digits complete, given the pending bits. */
  function Bytes(values: seq<nat>, buffer: nat, bits: nat): string
    requires Pending(buffer, bits) && Sextet(values)
    decreases |values|
  {
    if values == [] then ""
    else
      var (out, buffer', bits') := Taken(values[0], buffer, bits);
      out + Bytes(values[1..], buffer', bits')
  }

  function DecodeFrom(digits: string, buffer: nat, bits: nat): Option<string>
    requires Pending(buffer, bits)
  {
    match Values(digits)
    case None => None
    case Some(values) => Some(Bytes(values, buffer, bits))
  }

  function Decode(input: string): Option<string> { DecodeFrom(TrimRight(input, IsPad), 0, 0) }

  // ----- The decoder on machine words -----

  function Pow2(n: nat): (p: nat)
    ensures p >= 1
  {
    if n == 0 then 1 else 2 * Pow2(n - 1)
  }

  lemma PowTable()
    ensures Pow2(0) == 1 && Pow2(2) == 4 && Pow2(4) == 16
  {
    assert Pow2(1) == 2;
    assert Pow2(3) == 8;
  }

  /** One turn of the loop: `buffer` is a u32 and a pushed byte is a u8, both cut to their width,
      and neither loses a bit. */
  method TakeDigit(value: nat, buffer0: nat, bits0: nat) returns (output: string, buffer: nat, bits: nat)
    requires value < 64 && Pending(buffer0, bits0)
    ensures (output, buffer, bits) == Taken(value, buffer0, bits0)
  {
    PowTable();
    assert (buffer0 * 64) % 0x1_0000_0000 == buffer0 * 64;
    output := "";
    buffer := (buffer0 * 64) % 0x1_0000_0000 + value;
    bits := bits0 + 6;
    if bits >= 8 {
      bits := bits - 8;
      output := [((buffer / Pow2(bits)) % 256) as char];
      buffer := buffer % Pow2(bits);
    }
  }

  function Append(prefix: string, rest: Option<string>): Option<string> {
    if rest.None? then None else Some(prefix + rest.value)
  }

  lemma DecodeOne(digits: string, buffer: nat, bits: nat, before: string)
    requires digits != "" && Pending(buffer, bits)
    ensures Digit(digits[0]).None? ==> DecodeFrom(digits, buffer, bits) == None
    ensures Digit(digits[0]).Some? ==>
              var (out, buffer', bits') := Taken(Digit(digits[0]).value, buffer, bits);
              Append(before, DecodeFrom(digits, buffer, bits)) ==
                  Append(before + out, DecodeFrom(digits[1..], buffer', bits'))
  {
    if Digit(digits[0]).Some? && Values(digits[1..]).Some? {
      var v, vs := Digit(digits[0]).value, Values(digits[1..]).value;
      var (out, buffer', bits') := Taken(v, buffer, bits);
      BytesStep(v, vs, buffer, bits);
      assert before + (out + Bytes(vs, buffer', bits')) == before + out + Bytes(vs, buffer', bits');
    }
  }

  method Base64Decode(input: string) returns (r: Option<string>)
    ensures r == Decode(input)
  {
    var digits := TrimRight(input, IsPad);
    var output := "";
    var buffer: nat, bits: nat := 0, 0;
    assert digits[0..] == digits;
    assert forall s: string :: "" + s == s;
    for i := 0 to |digits|
      invariant Pending(buffer, bits)
      invariant Decode(input) == Append(output, DecodeFrom(digits[i..], buffer, bits))
    {
      DecodeOne(digits[i..], buffer, bits, output);
      assert digits[i..][1..] == digits[i + 1..];
      var value := Digit(digits[i]);
      if value.None? {
        return None;
      }
      var more;
      more, buffer, bits := TakeDigit(value.value, buffer, bits);
      output := output + more;
    }
    assert output + "" == output;
    return Some(output);
  }

  // ----- The encoder of section 4 of RFC 4648 -----

  /** The 6-bit values of a byte string: three bytes make four. */
  function Sextets(s: string): (r: seq<nat>)
    requires IsBytes(s)
    ensures Sextet(r)
    decreases |s|
  {
    if s == "" then []
    else
      var a := s[0] as nat;
      if |s| == 1 then [a / 4, a % 4 * 16]
      else
        var b := s[1] as nat;
        if |s| == 2 then [a / 4, a % 4 * 16 + b / 16, b % 16 * 4]
        else
          var c := s[2] as nat;
          [a / 4, a % 4 * 16 + b / 16, b % 16 * 4 + c / 64, c % 64] + Sextets(s[3..])
  }

  function Spell(values: seq<nat>): (r: string)
    requires Sextet(values)
    ensures |r| == |values| && forall i :: 0 <= i < |values| ==> r[i] == Letter(values[i])
  {
    seq(|values|, i requires 0 <= i < |values| => Letter(values[i]))
  }

  function Encode(s: string): string
    requires IsBytes(s)
  {
    Spell(Sextets(s)) + (match |s| % 3 case 0 => "" case 1 => "==" case _ => "=")
  }

  // ----- Decoding undoes encoding -----

  lemma DigitOfLetter(v: nat)
    requires v < 64
    ensures Digit(Letter(v)) == Some(v)
  {
    var c := Letter(v);
    assert Alphabet()[v..v + 1] == [c];
    forall j | 0 <= j < v
      ensures !At(Alphabet(), [c], j)
    {
      assert Alphabet()[j..j + 1][0] == Alphabet()[j] == Letter(j);
    }
    FindIs(Alphabet(), [c], v);
  }

  lemma {:induction false} ValuesOfSpell(values: seq<nat>)
    requires Sextet(values)
    ensures Values(Spell(values)) == Some(values)
    decreases |values|
  {
    if values == [] {
    } else {
      DigitOfLetter(values[0]);
      assert Spell(values)[1..] == Spell(values[1..]);
      ValuesOfSpell(values[1..]);
      assert [values[0]] + values[1..] == values;
    }
  }

  lemma BytesStep(v: nat, rest: seq<nat>, buffer: nat, bits: nat)
    requires v < 64 && Sextet(rest) && Pending(buffer, bits)
    ensures var (out, buffer', bits') := Taken(v, buffer, bits);
            Bytes([v] + rest, buffer, bits) == out + Bytes(rest, buffer', bits')
  {
    assert ([v] + rest)[1..] == rest;
  }

  lemma Joined(a: nat, high: nat)
    requires a < 256 && high < 16
    ensures a / 4 * 64 + (a % 4 * 16 + high) == a * 16 + high
    ensures (a * 16 + high) / 16 == a && (a * 16 + high) % 16 == high
  {
  }

  /** Two values give back a byte and leave the high half of the next one pending. */
  lemma FirstByte(a: nat, high: nat, rest: seq<nat>)
    requires a < 256 && high < 16 && Sextet(rest)
    ensures Bytes([a / 4] + ([a % 4 * 16 + high] + rest), 0, 0) == [a as char] + Bytes(rest, high, 4)
  {
    BytesStep(a / 4, [a % 4 * 16 + high] + rest, 0, 0);
    BytesStep(a % 4 * 16 + high, rest, a / 4, 6);
    Joined(a, high);
  }

  lemma SecondByte(b: nat, high: nat, rest: seq<nat>)
    requires b < 256 && high < 4 && Sextet(rest)
    ensures Bytes([b % 16 * 4 + high] + rest, b / 16, 4) == [b as char] + Bytes(rest, high, 2)
  {
    BytesStep(b % 16 * 4 + high, rest, b / 16, 4);
    assert b / 16 * 64 + (b % 16 * 4 + high) == b * 4 + high;
  }

  lemma ThirdByte(c: nat, rest: seq<nat>)
    requires c < 256 && Sextet(rest)
    ensures Bytes([c % 64] + rest, c / 64, 2) == [c as char] + Bytes(rest, 0, 0)
  {
    BytesStep(c % 64, rest, c / 64, 2);
  }

  function Second(a: nat, b: nat): nat { a % 4 * 16 + b / 16 }

  function Third(b: nat, c: nat): nat { b % 16 * 4 + c / 64 }

  lemma SextetTail(b: nat, c: nat, rest: seq<nat>)
    requires b < 256 && c < 256 && Sextet(rest)
    ensures Sextet([Third(b, c)] + ([c % 64] + rest))
  {
  }

  lemma FirstByteThen(a: nat, b: nat, tail: seq<nat>, out: string)
    requires a < 256 && b < 256 && Sextet(tail) && Bytes(tail, b / 16, 4) == out
    ensures Bytes([a / 4] + ([Second(a, b)] + tail), 0, 0) == [a as char] + out
  {
    FirstByte(a, b / 16, tail);
  }

  lemma LastBytes(b: nat, c: nat, rest: seq<nat>)
    requires b < 256 && c < 256 && Sextet(rest)
    ensures Bytes([Third(b, c)] + ([c % 64] + rest), b / 16, 4) == [b as char] + ([c as char] + Bytes(rest, 0, 0))
  {
    SecondByte(b, c / 64, [c % 64] + rest);
    ThirdByte(c, rest);
  }

  /** Four values give back the three bytes they were made of, and leave nothing pending. */
  lemma ThreeBytes(a: nat, b: nat, c: nat, rest: seq<nat>)
    requires a < 256 && b < 256 && c < 256 && Sextet(rest)
    ensures Bytes([a / 4] + ([Second(a, b)] + ([Third(b, c)] + ([c % 64] + rest))), 0, 0)
         == [a as char] + ([b as char] + ([c as char] + Bytes(rest, 0, 0)))
  {
    var tail := [Third(b, c)] + ([c % 64] + rest);
    LastBytes(b, c, rest);
    SextetTail(b, c, rest);
    FirstByteThen(a, b, tail, [b as char] + ([c as char] + Bytes(rest, 0, 0)));
  }

  lemma TwoBytes(a: nat, b: nat)
    requires a < 256 && b < 256
    ensures Bytes([a / 4] + ([Second(a, b)] + ([Third(b, 0)] + [])), 0, 0) == [a as char] + ([b as char] + "")
  {
    SecondByte(b, 0, []);
    FirstByteThen(a, b, [Third(b, 0)] + [], [b as char] + "");
  }

  lemma OneByte(a: nat)
    requires a < 256
    ensures Bytes([a / 4] + ([Second(a, 0)] + []), 0, 0) == [a as char] + ""
  {
    FirstByte(a, 0, []);
  }

  lemma SextetsOfThree(a: char, b: char, c: char, s: string)
    requires IsBytes([a, b, c] + s) && IsBytes(s)
    ensures var x, y, z := a as nat, b as nat, c as nat;
            Sextets([a, b, c] + s) == [x / 4] + ([Second(x, y)] + ([Third(y, z)] + ([z % 64] + Sextets(s))))
  {
    assert ([a, b, c] + s)[3..] == s;
  }

  lemma BytesOfThree(a: char, b: char, c: char, s: string)
    requires IsBytes([a, b, c] + s) && IsBytes(s) && Bytes(Sextets(s), 0, 0) == s
    ensures Bytes(Sextets([a, b, c] + s), 0, 0) == [a, b, c] + s
  {
    var whole := [a, b, c] + s;
    assert whole[0] as nat < 256 && whole[1] as nat < 256 && whole[2] as nat < 256;
    SextetsOfThree(a, b, c, s);
    ThreeBytes(a as nat, b as nat, c as nat, Sextets(s));
  }

  lemma BytesOfTwo(s: string)
    requires IsBytes(s) && |s| == 2
    ensures Bytes(Sextets(s), 0, 0) == s
  {
    var a, b := s[0] as nat, s[1] as nat;
    TwoBytes(a, b);
    assert Sextets(s) == [a / 4] + ([Second(a, b)] + ([Third(b, 0)] + []));
  }

  lemma BytesOfOne(s: string)
    requires IsBytes(s) && |s| == 1
    ensures Bytes(Sextets(s), 0, 0) == s
  {
    var a := s[0] as nat;
    OneByte(a);
    assert Sextets(s) == [a / 4] + ([Second(a, 0)] + []);
  }

  lemma {:induction false} BytesOfSextets(s: string)
    requires IsBytes(s)
    ensures Bytes(Sextets(s), 0, 0) == s
    decreases |s|
  {
    if |s| > 2 {
      assert s == [s[0], s[1], s[2]] + s[3..];
      BytesOfSextets(s[3..]);
      BytesOfThree(s[0], s[1], s[2], s[3..]);
    } else if |s| == 2 {
      BytesOfTwo(s);
    } else if |s| == 1 {
      BytesOfOne(s);
    }
  }

  lemma TrimPadding(digits: string, pad: string)
    requires forall i :: 0 <= i < |digits| ==> !IsPad(digits[i])
    requires pad == "" || pad == "=" || pad == "=="
    ensures TrimRight(digits + pad, IsPad) == digits
  {
    assert TrimRight(digits, IsPad) == digits;
    assert (digits + "=")[..|digits|] == digits;
    assert TrimRight(digits + "=", IsPad) == digits;
    assert (digits + "==")[..|digits| + 1] == digits + "=";
    assert digits + "" == digits;
  }

  /** For every byte string, decoding its encoding gives it back. */
  lemma DecodeUndoesEncode(s: string)
    requires IsBytes(s)
    ensures Decode(Encode(s)) == Some(s)
  {
    TrimPadding(Spell(Sextets(s)), match |s| % 3 case 0 => "" case 1 => "==" case _ => "=");
    ValuesOfSpell(Sextets(s));
    BytesOfSextets(s);
  }

  // ----- Basic authentication, section 2 of RFC 7617 -----

  datatype Credentials = Credentials(user: string, password: string)

  /** `utf8` says which byte strings are valid UTF-8. */
  function DecodeBasicAuth(header: string, utf8: string -> bool): Option<Credentials> {
    if !StartsWith(header, "Basic ") then None
    else
      match Decode(header[6..])
      case None => None
      case Some(decoded) =>
        if !utf8(decoded) then None
        else
          match Find(decoded, ":")
          case None => None
          case Some(k) => Some(Credentials(decoded[..k], decoded[k + 1..]))
  }

  /** Any user without a colon and any password survive encoding and decoding. */
  lemma BasicAuthRoundTrip(user: string, password: string, utf8: string -> bool)
    requires IsBytes(user) && IsBytes(password) && ':' !in user && utf8(user + ":" + password)
    ensures DecodeBasicAuth("Basic " + Encode(user + ":" + password), utf8) == Some(Credentials(user, password))
  {
    var token := user + ":" + password;
    var header := "Basic " + Encode(token);
    assert header[6..] == Encode(token);
    DecodeUndoesEncode(token);
    FindAfter(user, ":", password);
    assert token[..|user|] == user && token[|user| + 1..] == password;
  }

  // ----- What is refused -----

  /** Table 1 of RFC 4648: three runs and two signs. */
  lemma AlphabetIs(v: nat)
    requires v < 64
    ensures Alphabet()[0] == 'A' && Alphabet()[25] == 'Z' && Alphabet()[26] == 'a' && Alphabet()[51] == 'z'
    ensures Alphabet()[52] == '0' && Alphabet()[61] == '9' && Alphabet()[62] == '+' && Alphabet()[63] == '/'
    ensures v < 61 && v != 25 && v != 51 ==> Alphabet()[v + 1] as int == Alphabet()[v] as int + 1
  {
  }

  /** A digit is worth its place in the table, and nothing else is a digit. */
  lemma DigitIff(c: char, v: nat)
    ensures Digit(c) == Some(v) <==> v < 64 && c == Alphabet()[v]
  {
    match Digit(c) {
      case Some(w) => assert Alphabet()[w..w + 1][0] == Alphabet()[w];
      case None =>
    }
    if v < 64 && c == Letter(v) {
      DigitOfLetter(v);
    }
  }

  predicate IsDigit(c: char) { Digit(c).Some? }

  lemma {:induction false} ValuesIff(digits: string)
    ensures Values(digits).Some? <==> forall i :: 0 <= i < |digits| ==> IsDigit(digits[i])
    ensures Values(digits).Some? ==>
              |Values(digits).value| == |digits| &&
              forall i :: 0 <= i < |digits| ==> digits[i] == Letter(Values(digits).value[i])
    decreases |digits|
  {
    if digits == "" {
    } else {
      var rest := digits[1..];
      ValuesIff(rest);
      assert digits == [digits[0]] + rest;
      if IsDigit(digits[0]) {
        DigitIff(digits[0], Digit(digits[0]).value);
      }
      assert (forall i :: 0 <= i < |digits| ==> IsDigit(digits[i])) <==>
             IsDigit(digits[0]) && forall i :: 0 <= i < |rest| ==> IsDigit(rest[i]);
    }
  }

  /** Decoding fails exactly if, without the padding at the end, there is a character outside the alphabet. */
  lemma DecodesIff(input: string)
    ensures Decode(input).Some? <==> exists digits: string, pad: string ::
              input == digits + pad && AllOf(pad, IsPad) && AllOf(digits, IsDigit)
  {
    var digits := TrimRight(input, IsPad);
    var pad := TrimRightIs(input, IsPad);
    ValuesIff(digits);
    if AllOf(digits, IsDigit) {
      assert input == digits + pad && AllOf(pad, IsPad) && AllOf(digits, IsDigit);
    }
    forall d: string, p: string | input == d + p && AllOf(p, IsPad) && AllOf(d, IsDigit)
      ensures AllOf(digits, IsDigit)
    {
      NotLonger(digits, pad, d, p);
      forall i | 0 <= i < |digits|
        ensures IsDigit(digits[i])
      {
        assert digits[i] == input[i] == d[i];
      }
    }
  }

  /** A text that does not end in padding is no longer than what stands before any padding. */
  lemma NotLonger(digits: string, pad: string, d: string, p: string)
    requires digits + pad == d + p && AllOf(p, IsPad) && (digits == "" || !IsPad(digits[|digits| - 1]))
    ensures |digits| <= |d|
  {
    assert forall i :: |d| <= i < |d + p| ==> (d + p)[i] == p[i - |d|];
    assert forall i :: 0 <= i < |digits| ==> (digits + pad)[i] == digits[i];
  }

  /** A header gives credentials exactly if it is `Basic ` and the encoding of valid UTF-8 text with a colon: the
      user is what stands before the first colon, and the password everything after it. */
  lemma BasicAuthIff(header: string, utf8: string -> bool, user: string, password: string)
    ensures DecodeBasicAuth(header, utf8) == Some(Credentials(user, password)) <==>
              && StartsWith(header, "Basic ") && ':' !in user && utf8(user + ":" + password)
              && Decode(header[6..]) == Some(user + ":" + password)
  {
    if StartsWith(header, "Basic ") && Decode(header[6..]).Some? {
      var decoded := Decode(header[6..]).value;
      var found := Find(decoded, ":");
      if found.Some? {
        var k := found.value;
        assert decoded[k..k + 1] == ":";
        assert decoded == decoded[..k] + ":" + decoded[k + 1..];
        forall i | 0 <= i < k
          ensures decoded[i] != ':'
        {
          assert decoded[i..i + 1] == [decoded[i]];
          assert !At(decoded, ":", i);
        }
      }
      if decoded == user + ":" + password && ':' !in user {
        FindAfter(user, ":", password);
        assert decoded[..|user|] == user && decoded[|user| + 1..] == password;
      }
    }
  }
}
