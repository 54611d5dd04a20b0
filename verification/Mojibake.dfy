/** gateway/internal/auth/mysql_user_store.go: repair of misread UTF-8. */
module Mojibake {
  import opened Basics

  // UTF-8 text that was misread as Latin-1 is restored. Strings are byte sequences, as in Go; UTF-8
  // is that of sections 3 and 4 of RFC 3629.

  /** What decoding at the front of a string meets. Go reports `Malformed` as U+FFFD of width 1. */
  datatype Decoded = Rune(scalar: int, width: nat) | Malformed

  predicate IsScalar(c: int) {
    0 <= c < 0xD800 || 0xE000 <= c <= 0x10FFFF
  }

  predicate IsTail(b: Byte) {
    0x80 <= b <= 0xBF
  }

  function Encode(c: int): seq<Byte>
    requires IsScalar(c)
  {
    if c < 0x80 then [c]
    else if c < 0x800 then [0xC0 + c / 64, 0x80 + c % 64]
    else if c < 0x10000 then [0xE0 + c / 4096, 0x80 + c / 64 % 64, 0x80 + c % 64]
    else [0xF0 + c / 262144, 0x80 + c / 4096 % 64, 0x80 + c / 64 % 64, 0x80 + c % 64]
  }

  /** The second byte that the leading byte of a sequence of three or four allows. */
  predicate SecondAllowed(lead: Byte, b: Byte) {
    IsTail(b)
    && (lead == 0xE0 ==> b >= 0xA0) && (lead == 0xED ==> b <= 0x9F)
    && (lead == 0xF0 ==> b >= 0x90) && (lead == 0xF4 ==> b <= 0x8F)
  }

  /** The six bits that a byte after the first carries. */
  function Bits(b: Byte): int
    requires IsTail(b)
  {
    b - 0x80
  }

  function DecodeRune(s: seq<Byte>): Decoded
    requires s != []
  {
    var b: int := s[0];
    if b < 0x80 then Rune(b, 1)
    else if 0xC2 <= b <= 0xDF then
      if |s| >= 2 && IsTail(s[1]) then Rune((b - 0xC0) * 64 + Bits(s[1]), 2) else Malformed
    else if 0xE0 <= b <= 0xEF then
      if |s| >= 3 && SecondAllowed(b, s[1]) && IsTail(s[2])
      then Rune((b - 0xE0) * 4096 + Bits(s[1]) * 64 + Bits(s[2]), 3) else Malformed
    else if 0xF0 <= b <= 0xF4 then
      if |s| >= 4 && SecondAllowed(b, s[1]) && IsTail(s[2]) && IsTail(s[3])
      then Rune((b - 0xF0) * 262144 + Bits(s[1]) * 4096 + Bits(s[2]) * 64 + Bits(s[3]), 4) else Malformed
    else Malformed
  }

  lemma SixBitParts(c: int)
    requires IsScalar(c)
    ensures c == c / 64 * 64 + c % 64
    ensures c == c / 4096 * 4096 + c / 64 % 64 * 64 + c % 64
    ensures c == c / 262144 * 262144 + c / 4096 % 64 * 4096 + c / 64 % 64 * 64 + c % 64
  {
    assert c / 64 / 64 == c / 4096;
    assert c / 4096 / 64 == c / 262144;
  }

  /** Decoding undoes encoding, whatever follows. */
  lemma DecodeUndoesEncode(c: int, rest: seq<Byte>)
    requires IsScalar(c)
    ensures DecodeRune(Encode(c) + rest) == Rune(c, |Encode(c)|)
  {
    var e := Encode(c);
    var s := e + rest;
    SixBitParts(c);
    if c < 0x80 {
      assert s[0] == c;
    } else if c < 0x800 {
      DecodeTwo(s, c / 64, c % 64);
    } else if c < 0x10000 {
      DecodeThree(s, c / 4096, c / 64 % 64, c % 64);
    } else {
      DecodeFour(s, c / 262144, c / 4096 % 64, c / 64 % 64, c % 64);
    }
  }

  lemma DecodeTwo(s: seq<Byte>, a: nat, b: nat)
    requires |s| >= 2 && s[0] == 0xC0 + a && s[1] == 0x80 + b && 2 <= a < 32 && b < 64
    ensures DecodeRune(s) == Rune(a * 64 + b, 2)
  {}

  lemma DecodeThree(s: seq<Byte>, a: nat, b: nat, c: nat)
    requires |s| >= 3 && s[0] == 0xE0 + a && s[1] == 0x80 + b && s[2] == 0x80 + c && a < 16 && b < 64 && c < 64
    requires IsScalar(a * 4096 + b * 64 + c) && a * 4096 + b * 64 + c >= 0x800
    ensures DecodeRune(s) == Rune(a * 4096 + b * 64 + c, 3)
  {}

  lemma DecodeFour(s: seq<Byte>, a: nat, b: nat, c: nat, d: nat)
    requires |s| >= 4 && s[0] == 0xF0 + a && s[1] == 0x80 + b && s[2] == 0x80 + c && s[3] == 0x80 + d
    requires a < 5 && b < 64 && c < 64 && d < 64
    requires 0x10000 <= a * 262144 + b * 4096 + c * 64 + d <= 0x10FFFF
    ensures DecodeRune(s) == Rune(a * 262144 + b * 4096 + c * 64 + d, 4)
  {}

  lemma EncodeUndoesDecode(s: seq<Byte>)
    requires s != [] && DecodeRune(s).Rune?
    ensures var r := DecodeRune(s); IsScalar(r.scalar) && 0 < r.width <= |s| && s[..r.width] == Encode(r.scalar)
  {
    var r := DecodeRune(s);
    if r.width == 3 {
      ThreeParts(s[0] as int - 0xE0, Bits(s[1]), Bits(s[2]));
    } else if r.width == 4 {
      FourParts(s[0] as int - 0xF0, Bits(s[1]), Bits(s[2]), Bits(s[3]));
    }
  }

  lemma ThreeParts(a: nat, b: nat, c: nat)
    requires b < 64 && c < 64
    ensures var v := a * 4096 + b * 64 + c; v / 4096 == a && v / 64 % 64 == b && v % 64 == c
  {
    var v := a * 4096 + b * 64 + c;
    assert v / 64 == a * 64 + b;
  }

  lemma FourParts(a: nat, b: nat, c: nat, d: nat)
    requires b < 64 && c < 64 && d < 64
    ensures var v := a * 262144 + b * 4096 + c * 64 + d;
      v / 262144 == a && v / 4096 % 64 == b && v / 64 % 64 == c && v % 64 == d
  {
    var v := a * 262144 + b * 4096 + c * 64 + d;
    assert v / 4096 == a * 64 + b;
    assert v / 64 == a * 4096 + b * 64 + c;
    ThreeParts(a, b, c);
  }

  /** utf8.Valid */
  predicate IsValidUtf8(s: seq<Byte>) {
    s == [] || (DecodeRune(s).Rune? && IsValidUtf8(Tail(s)))
  }

  /** What follows the first rune. */
  function Tail(s: seq<Byte>): seq<Byte>
    requires s != []
    ensures |Tail(s)| < |s|
  {
    match DecodeRune(s)
    case Rune(_, n) => if 0 < n <= |s| then s[n..] else []
    case Malformed => s[1..]
  }

  predicate AreScalars(cs: seq<int>) {
    forall i :: 0 <= i < |cs| ==> IsScalar(cs[i])
  }

  function EncodeAll(cs: seq<int>): seq<Byte>
    requires AreScalars(cs)
  {
    if cs == [] then [] else Encode(cs[0]) + EncodeAll(cs[1..])
  }

  lemma TailAfterEncode(c: int, rest: seq<Byte>)
    requires IsScalar(c)
    ensures Tail(Encode(c) + rest) == rest
  {
    DecodeUndoesEncode(c, rest);
  }

  lemma {:induction false} EncodedIsValid(cs: seq<int>)
    requires AreScalars(cs)
    ensures IsValidUtf8(EncodeAll(cs))
  {
    if cs != [] {
      DecodeUndoesEncode(cs[0], EncodeAll(cs[1..]));
      TailAfterEncode(cs[0], EncodeAll(cs[1..]));
      EncodedIsValid(cs[1..]);
    }
  }

  lemma {:induction false} ValidIsEncoded(s: seq<Byte>) returns (cs: seq<int>)
    requires IsValidUtf8(s)
    ensures AreScalars(cs) && s == EncodeAll(cs)
  {
    if s == [] {
      cs := [];
    } else {
      EncodeUndoesDecode(s);
      var rest := ValidIsEncoded(Tail(s));
      var r := DecodeRune(s);
      cs := [r.scalar] + rest;
      assert cs[1..] == rest;
      assert s == s[..r.width] + s[r.width..];
    }
  }

  /** The decoder accepts exactly the encodings of scalar value sequences. */
  lemma ValidExactlyWhen(s: seq<Byte>)
    ensures IsValidUtf8(s) <==> exists cs :: AreScalars(cs) && s == EncodeAll(cs)
  {
    if IsValidUtf8(s) {
      var cs := ValidIsEncoded(s);
    }
    forall cs | AreScalars(cs) && s == EncodeAll(cs) ensures IsValidUtf8(s) {
      EncodedIsValid(cs);
    }
  }

  // ---------------------------------------------------------------- the misreading

  /** The UTF-8 text one gets by reading each byte as a Latin-1 character. */
  function Misread(bytes: seq<Byte>): seq<Byte> {
    EncodeAll(bytes)
  }

  predicate HasNonAscii(bytes: seq<Byte>) {
    exists i :: 0 <= i < |bytes| && bytes[i] >= 128
  }

  /** `value` is the Latin-1 misreading of the valid, not purely ASCII text `original`. */
  predicate IsMisreadingOf(value: seq<Byte>, original: seq<Byte>) {
    IsValidUtf8(original) && HasNonAscii(original) && value == Misread(original)
  }

  /** The bytes that were misread, if every character of the value is one of Latin-1. */
  function Unread(value: seq<Byte>): Option<seq<Byte>> {
    if value == [] then Some([])
    else
      var r := DecodeRune(value);
      if r.Malformed? || r.scalar < 0 || r.scalar > 255 then None
      else Prepend(r.scalar, Unread(Tail(value)))
  }

  function Prepend(b: Byte, rest: Option<seq<Byte>>): Option<seq<Byte>> {
    if rest.None? then None else Some([b] + rest.value)
  }

  lemma {:induction false} UnreadUndoesMisread(bytes: seq<Byte>)
    ensures Unread(Misread(bytes)) == Some(bytes)
  {
    if bytes != [] {
      var rest := EncodeAll(bytes[1..]);
      DecodeUndoesEncode(bytes[0], rest);
      TailAfterEncode(bytes[0], rest);
      UnreadUndoesMisread(bytes[1..]);
      assert bytes == [bytes[0]] + bytes[1..];
    }
  }

  lemma EncodeAllCons(c: int, cs: seq<int>)
    requires IsScalar(c) && AreScalars(cs)
    ensures EncodeAll([c] + cs) == Encode(c) + EncodeAll(cs)
  {
    assert ([c] + cs)[1..] == cs;
  }

  lemma {:induction false} MisreadUndoesUnread(value: seq<Byte>)
    requires Unread(value).Some?
    ensures Misread(Unread(value).value) == value
  {
    if value != [] {
      var r := DecodeRune(value);
      EncodeUndoesDecode(value);
      var tail := Unread(Tail(value));
      MisreadUndoesUnread(Tail(value));
      EncodeAllCons(r.scalar, tail.value);
      assert value == value[..r.width] + value[r.width..];
    }
  }

  /** Each misread byte outside ASCII takes two. */
  lemma {:induction false} MisreadGrows(bytes: seq<Byte>)
    ensures |Misread(bytes)| >= |bytes|
    ensures HasNonAscii(bytes) ==> |Misread(bytes)| > |bytes|
  {
    if bytes != [] {
      MisreadGrows(bytes[1..]);
      if HasNonAscii(bytes) && bytes[0] < 128 {
        var i :| 0 <= i < |bytes| && bytes[i] >= 128;
        assert bytes[1..][i - 1] >= 128;
      }
    }
  }

  // ---------------------------------------------------------------- the repair

  /** What the repair gives, as a function of the value. */
  function Repaired(value: seq<Byte>): (r: seq<Byte>)
    ensures |r| <= |value|
    ensures r != value ==> |r| < |value|
  {
    var u := Unread(value);
    if u.Some? && HasNonAscii(u.value) && IsValidUtf8(u.value) then
      MisreadUndoesUnread(value);
      MisreadGrows(u.value);
      u.value
    else value
  }

  /** repairLatin1Mojibake. It succeeds on exactly the misreadings, gives back the bytes that
      were misread, and those are fewer; elsewhere the value comes back unchanged. The last
      comparison of the source never stops a repair. */
  method RepairLatin1Mojibake(value: seq<Byte>) returns (repaired: seq<Byte>, ok: bool)
    ensures ok <==> exists original :: IsMisreadingOf(value, original)
    ensures ok ==> IsMisreadingOf(value, repaired) && |repaired| < |value|
    ensures !ok ==> repaired == value
    ensures repaired == Repaired(value)
  {
    var bytes: seq<Byte> := [];
    var changed := false;
    var rest := value;
    MisreadingsUnread(value);
    if Unread(value).Some? { assert [] + Unread(value).value == Unread(value).value; }
    while rest != []
      invariant changed <==> HasNonAscii(bytes)
      invariant Unread(value) == After(bytes, Unread(rest))
      decreases |rest|
    {
      var r := DecodeRune(rest);
      if r.Malformed? || r.scalar > 255 {
        return value, false;
      }
      EncodeUndoesDecode(rest);
      if r.scalar >= 128 {
        changed := true;
      }
      ghost var before := bytes;
      bytes := bytes + [r.scalar];
      NonAsciiExtends(before, r.scalar);
      AfterShifts(before, r.scalar, Unread(Tail(rest)));
      rest := Tail(rest);
    }
    assert bytes + [] == bytes;
    MisreadUndoesUnread(value);
    if !changed || !IsValidUtf8(bytes) {
      return value, false;
    }
    MisreadGrows(bytes);
    assert IsMisreadingOf(value, bytes);
    repaired := bytes;
    ok := repaired != value;
    if !ok {
      repaired := value;
    }
  }

  function After(bytes: seq<Byte>, rest: Option<seq<Byte>>): Option<seq<Byte>> {
    if rest.None? then None else Some(bytes + rest.value)
  }

  lemma AfterShifts(bytes: seq<Byte>, b: Byte, rest: Option<seq<Byte>>)
    ensures After(bytes, Prepend(b, rest)) == After(bytes + [b], rest)
  {
    if rest.Some? {
      assert bytes + ([b] + rest.value) == bytes + [b] + rest.value;
    }
  }

  lemma NonAsciiExtends(bytes: seq<Byte>, b: Byte)
    ensures HasNonAscii(bytes + [b]) <==> HasNonAscii(bytes) || b >= 128
  {
    var t := bytes + [b];
    assert t[|bytes|] == b;
    assert forall i :: 0 <= i < |bytes| ==> t[i] == bytes[i];
  }

  /** A misreading has one original, the bytes that Unread finds. */
  lemma MisreadingsUnread(value: seq<Byte>)
    ensures forall original :: IsMisreadingOf(value, original) ==> Unread(value) == Some(original)
  {
    forall original | IsMisreadingOf(value, original) ensures Unread(value) == Some(original) {
      UnreadUndoesMisread(original);
    }
  }

  /** Repairing again and again, until nothing changes. */
  function Settled(value: seq<Byte>): (r: seq<Byte>)
    ensures Repaired(r) == r
    decreases |value|
  {
    var r := Repaired(value);
    if r == value then value else Settled(r)
  }

  function Iterate<T>(f: T -> T, x: T, k: nat): T {
    if k == 0 then x else f(Iterate(f, x, k - 1))
  }

  /** Steps that `back` undoes one at a time are undone by as many steps back. */
  lemma {:induction false} StepsBack<T>(f: T -> T, back: T -> T, x: T, k: nat, n: nat)
    requires forall i: nat :: i < k ==> back(Iterate(f, x, i + 1)) == Iterate(f, x, i)
    requires n <= k
    ensures Iterate(back, Iterate(f, x, k), n) == Iterate(f, x, k - n)
  {
    if n > 0 {
      StepsBack(f, back, x, k, n - 1);
      assert back(Iterate(f, x, (k - n) + 1)) == Iterate(f, x, k - n);
    }
  }

  lemma {:induction false} MisreadTimesStaysText(s: seq<Byte>, k: nat)
    requires IsValidUtf8(s) && HasNonAscii(s)
    ensures IsValidUtf8(Iterate(Misread, s, k)) && HasNonAscii(Iterate(Misread, s, k))
  {
    if k > 0 {
      var t := Iterate(Misread, s, k - 1);
      MisreadTimesStaysText(s, k - 1);
      EncodedIsValid(t);
      MisreadKeepsNonAscii(t);
    }
  }

  lemma {:induction false} MisreadKeepsNonAscii(bytes: seq<Byte>)
    requires HasNonAscii(bytes)
    ensures HasNonAscii(Misread(bytes))
  {
    var head, rest := Encode(bytes[0]), EncodeAll(bytes[1..]);
    if bytes[0] >= 128 {
      assert (head + rest)[0] == head[0] >= 128;
    } else {
      var i :| 0 <= i < |bytes| && bytes[i] >= 128;
      assert bytes[1..][i - 1] >= 128;
      MisreadKeepsNonAscii(bytes[1..]);
      var j :| 0 <= j < |rest| && rest[j] >= 128;
      assert (head + rest)[|head| + j] == rest[j];
    }
  }

  lemma RepairUndoesMisread(s: seq<Byte>)
    requires IsValidUtf8(s) && HasNonAscii(s)
    ensures Repaired(Misread(s)) == s
  {
    UnreadUndoesMisread(s);
  }

  /** Text misread any number of times is restored by as many repairs. */
  lemma RepairsUndoMisreadings(s: seq<Byte>, k: nat)
    requires IsValidUtf8(s) && HasNonAscii(s)
    ensures Iterate(Repaired, Iterate(Misread, s, k), k) == s
  {
    forall i: nat | i < k ensures Repaired(Iterate(Misread, s, i + 1)) == Iterate(Misread, s, i) {
      MisreadTimesStaysText(s, i);
      RepairUndoesMisread(Iterate(Misread, s, i));
    }
    StepsBack(Misread, Repaired, s, k, k);
  }

  /** A text is left alone exactly when it is no misreading of another. */
  lemma FixedExactlyWhen(value: seq<Byte>)
    ensures Repaired(value) == value <==> !exists original :: IsMisreadingOf(value, original)
  {
    MisreadingsUnread(value);
    var u := Unread(value);
    if u.Some? && HasNonAscii(u.value) && IsValidUtf8(u.value) {
      MisreadUndoesUnread(value);
      MisreadGrows(u.value);
      assert IsMisreadingOf(value, u.value);
    }
  }
}
