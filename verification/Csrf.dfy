/**
 The masking of the anti-forgery token. `None` stands for a panic: a character outside the table, or
 a cut inside a character.
 */
module Csrf {
  import opened Wrappers

  const CSRF_SECRET_LENGTH := 32
  const CSRF_TOKEN_LENGTH := CSRF_SECRET_LENGTH * 2
  const LOWER_CASE := "abcdefghijklmnopqrstuvwxyz"
  const UPPER_CASE := "ABCDEFGHIJKLMNOPQRSTUVWXYZ"
  const DIGITS := "0123456789"
  const ALPHANUMERIC_CHARS: string := LOWER_CASE + UPPER_CASE + DIGITS
  const ALPHANUMERIC_RANGE := 62

  /** 62 different one-byte characters. Everything below holds for any such table. */
  predicate Alphabet(table: string) {
    && |table| == ALPHANUMERIC_RANGE
    && (forall i, j | 0 <= i < j < |table| :: table[i] != table[j])
    && (forall i | 0 <= i < |table| :: Bytes(table[i]) == 1)
  }

  /** The code points of the table in closed form: lower case, upper case, digits. */
  function TableCode(i: nat): nat
    requires i < ALPHANUMERIC_RANGE
  {
    if i < 26 then 97 + i else if i < 52 then 65 + (i - 26) else 48 + (i - 52)
  }

  lemma LowerCaseCode(i: nat)
    requires i < 26
    ensures |LOWER_CASE| == 26 && LOWER_CASE[i] as int == 97 + i
  {
  }

  lemma UpperCaseCode(i: nat)
    requires i < 26
    ensures |UPPER_CASE| == 26 && UPPER_CASE[i] as int == 65 + i
  {
  }

  lemma DigitCode(i: nat)
    requires i < 10
    ensures |DIGITS| == 10 && DIGITS[i] as int == 48 + i
  {
  }

  lemma TableCodes(i: nat)
    requires i < ALPHANUMERIC_RANGE
    ensures |ALPHANUMERIC_CHARS| == ALPHANUMERIC_RANGE
    ensures ALPHANUMERIC_CHARS[i] as int == TableCode(i)
  {
    LowerCaseCode(if i < 26 then i else 0);
    UpperCaseCode(if 26 <= i < 52 then i - 26 else 0);
    DigitCode(if 52 <= i then i - 52 else 0);
  }

  /** The server's table is one. */
  lemma AlphanumericIsAlphabet()
    ensures Alphabet(ALPHANUMERIC_CHARS)
  {
    TableCodes(0);
    forall i | 0 <= i < |ALPHANUMERIC_CHARS|
      ensures ALPHANUMERIC_CHARS[i] as int == TableCode(i)
    {
      TableCodes(i);
    }
  }

  /** The first position of a character in the table, from `from` on. */
  function PositionFrom(table: string, c: char, from: nat): (r: Option<nat>)
    requires from <= |table|
    ensures r.Some? ==> from <= r.value < |table| && table[r.value] == c
    ensures r.None? ==> c !in table[from..]
    decreases |table| - from
  {
    if from == |table| then None
    else if table[from] == c then Some(from)
    else PositionFrom(table, c, from + 1)
  }

  function Position(table: string, c: char): (r: Option<nat>)
    ensures r.Some? ==> r.value < |table| && table[r.value] == c
    ensures r.None? <==> c !in table
  {
    assert table[0..] == table;
    PositionFrom(table, c, 0)
  }

  /** Position and indexing are inverse on the table. */
  lemma PositionOfTableChar(table: string, i: nat)
    requires Alphabet(table) && i < ALPHANUMERIC_RANGE
    ensures Position(table, table[i]) == Some(i)
  {
    var r := Position(table, table[i]);
    assert table[i] in table;
  }

  /** Subtraction modulo 62 by way of wrapping subtraction of machine words with the given maximum. */
  function OverflowingSubChars(x: nat, y: nat, max: nat): (r: nat)
    requires x < ALPHANUMERIC_RANGE && y < ALPHANUMERIC_RANGE && max >= ALPHANUMERIC_RANGE - 1
    ensures r < ALPHANUMERIC_RANGE
    ensures r == (x - y) % ALPHANUMERIC_RANGE
    ensures (r + y) % ALPHANUMERIC_RANGE == x
  {
    var value := if x < y then x - y + max + 1 else x - y;
    if x < y then
      var value := max - value;
      ALPHANUMERIC_RANGE - 1 - value
    else value
  }

  function Combine(x: nat, y: nat, add: bool, max: nat): (r: nat)
    requires x < ALPHANUMERIC_RANGE && y < ALPHANUMERIC_RANGE && max >= ALPHANUMERIC_RANGE - 1
    ensures r < ALPHANUMERIC_RANGE
  {
    if add then (x + y) % ALPHANUMERIC_RANGE else OverflowingSubChars(x, y, max)
  }

  lemma CombineInverts(x: nat, y: nat, add: bool, max: nat)
    requires x < ALPHANUMERIC_RANGE && y < ALPHANUMERIC_RANGE && max >= ALPHANUMERIC_RANGE - 1
    ensures Combine(Combine(x, y, add, max), y, !add, max) == x
  {
  }

  /** Zips, characters first, so one character more than the mask has is still looked up. */
  function MaskOp(table: string, mask: string, chars: string, add: bool, max: nat): Option<string>
    requires Alphabet(table) && max >= ALPHANUMERIC_RANGE - 1
  {
    if chars == "" then Some("")
    else match Position(table, chars[0])
      case None => None
      case Some(x) =>
        if mask == "" then Some("")
        else match Position(table, mask[0])
          case None => None
          case Some(y) =>
            match MaskOp(table, mask[1..], chars[1..], add, max)
            case None => None
            case Some(rest) => Some([table[Combine(x, y, add, max)]] + rest)
  }

  predicate Alphanumeric(table: string, s: string) {
    forall i | 0 <= i < |s| :: s[i] in table
  }

  lemma {:induction false} MaskOpTotal(table: string, mask: string, chars: string, add: bool, max: nat)
    requires Alphabet(table) && max >= ALPHANUMERIC_RANGE - 1
    requires Alphanumeric(table, mask) && Alphanumeric(table, chars)
    ensures var r := MaskOp(table, mask, chars, add, max);
            && r.Some? && Alphanumeric(table, r.value)
            && |r.value| == if |mask| < |chars| then |mask| else |chars|
  {
    if chars != "" && mask != "" {
      MaskOpTotal(table, mask[1..], chars[1..], add, max);
    }
  }

  /** Masking and unmasking with the same mask undo each other, in both orders. */
  lemma {:induction false} MaskOpInverts(table: string, mask: string, chars: string, add: bool, max: nat)
    requires Alphabet(table) && max >= ALPHANUMERIC_RANGE - 1
    requires Alphanumeric(table, mask) && Alphanumeric(table, chars) && |mask| == |chars|
    ensures var r := MaskOp(table, mask, chars, add, max);
            r.Some? && MaskOp(table, mask, r.value, !add, max) == Some(chars)
  {
    hide Combine;
    hide Position;
    if chars != "" {
      MaskOpTotal(table, mask, chars, add, max);
      MaskOpInverts(table, mask[1..], chars[1..], add, max);
      var x, y := Position(table, chars[0]).value, Position(table, mask[0]).value;
      var z := Combine(x, y, add, max);
      PositionOfTableChar(table, z);
      CombineInverts(x, y, add, max);
      var rest := MaskOp(table, mask[1..], chars[1..], add, max).value;
      var r := [table[z]] + rest;
      assert r[1..] == rest && MaskOp(table, mask, chars, add, max) == Some(r);
      assert [chars[0]] + chars[1..] == chars;
    }
  }

  // Strings are cut and measured in bytes

  function Bytes(c: char): nat {
    var code := c as int;
    if code < 0x80 then 1 else if code < 0x800 then 2 else if code < 0x1_0000 then 3 else 4
  }

  function Pow2(n: nat): nat {
    if n == 0 then 1 else 2 * Pow2(n - 1)
  }

  /** The bits that `n` bytes of UTF-8 have for a code point: 6 in each but the first, which gives up `n + 1`. */
  function PayloadBits(n: nat): nat
    requires 0 < n <= 4
  {
    if n == 1 then 7 else (8 - (n + 1)) + 6 * (n - 1)
  }

  /** A character takes the fewest bytes that its code point fits in. */
  lemma BytesIsLeast(c: char)
    ensures 1 <= Bytes(c) <= 4 && c as int < Pow2(PayloadBits(Bytes(c)))
    ensures forall n: nat | 0 < n < Bytes(c) :: c as int >= Pow2(PayloadBits(n))
  {
    Powers();
  }

  lemma Powers()
    ensures Pow2(7) == 0x80 && Pow2(11) == 0x800 && Pow2(16) == 0x1_0000 && Pow2(21) == 0x20_0000
  {
    assert Pow2(4) == 16;
    assert Pow2(8) == 256;
    assert Pow2(12) == 0x1000;
    assert Pow2(16) == 0x1_0000;
    assert Pow2(20) == 0x10_0000;
  }

  function ByteLength(s: string): nat {
    if s == "" then 0 else Bytes(s[0]) + ByteLength(s[1..])
  }

  /** `(&s[..at], &s[at..])`, if the cut falls between two characters. */
  function SplitAt(s: string, at: nat): Option<(string, string)> {
    if at == 0 then Some(("", s))
    else if s == "" || at < Bytes(s[0]) then None
    else match SplitAt(s[1..], at - Bytes(s[0]))
      case None => None
      case Some((front, back)) => Some(([s[0]] + front, back))
  }

  function UnmaskCsrf(table: string, token: string, max: nat): Option<string>
    requires Alphabet(table) && max >= ALPHANUMERIC_RANGE - 1
  {
    match SplitAt(token, CSRF_SECRET_LENGTH)
    case None => None
    case Some((mask, masked)) => MaskOp(table, mask, masked, false, max)
  }

  /** The token for a secret, with the given random mask. */
  function MaskCsrf(table: string, mask: string, secret: string, max: nat): Option<string>
    requires Alphabet(table) && max >= ALPHANUMERIC_RANGE - 1
  {
    match MaskOp(table, mask, secret, true, max)
    case None => None
    case Some(masked) => Some(mask + masked)
  }

  function ValidateToken(table: string, requestToken: string, secret: string, max: nat): Option<bool>
    requires Alphabet(table) && max >= ALPHANUMERIC_RANGE - 1
  {
    if ByteLength(requestToken) == CSRF_TOKEN_LENGTH then
      match UnmaskCsrf(table, requestToken, max)
      case None => None
      case Some(token) => Some(token == secret)
    else Some(requestToken == secret)
  }

  lemma {:induction false} AlphanumericLength(table: string, s: string)
    requires Alphabet(table) && Alphanumeric(table, s)
    ensures ByteLength(s) == |s|
  {
    if s != "" {
      AlphanumericLength(table, s[1..]);
    }
  }

  lemma {:induction false} AlphanumericSplits(table: string, s: string, at: nat)
    requires Alphabet(table) && Alphanumeric(table, s) && at <= |s|
    ensures SplitAt(s, at) == Some((s[..at], s[at..]))
  {
    if at > 0 {
      var rest := s[1..];
      AlphanumericSplits(table, rest, at - 1);
      assert [s[0]] + rest[..at - 1] == s[..at];
      assert rest[at - 1..] == s[at..];
    } else {
      assert s[..0] == "" && s[0..] == s;
    }
  }

  lemma {:induction false} SplitParts(s: string, at: nat)
    requires SplitAt(s, at).Some?
    ensures var (front, back) := SplitAt(s, at).value;
            s == front + back && ByteLength(front) == at && ByteLength(s) == at + ByteLength(back)
  {
    if at > 0 {
      SplitParts(s[1..], at - Bytes(s[0]));
      var (front, back) := SplitAt(s[1..], at - Bytes(s[0])).value;
      assert ([s[0]] + front)[1..] == front;
    }
  }

  /** On halves of the same byte length the operation panics exactly at a character outside the table. */
  lemma {:induction false} MaskOpPanics(table: string, mask: string, chars: string, add: bool, max: nat)
    requires Alphabet(table) && max >= ALPHANUMERIC_RANGE - 1
    requires ByteLength(mask) == ByteLength(chars)
    ensures MaskOp(table, mask, chars, add, max).Some? <==> Alphanumeric(table, mask) && Alphanumeric(table, chars)
  {
    if chars == "" {
      assert mask == "";
    } else if Position(table, chars[0]).Some? {
      assert mask != "";
      if Position(table, mask[0]).Some? {
        MaskOpPanics(table, mask[1..], chars[1..], add, max);
        assert mask == [mask[0]] + mask[1..] && chars == [chars[0]] + chars[1..];
      } else {
        assert mask[0] !in table;
      }
    } else {
      assert chars[0] !in table;
    }
  }

  predicate Secret(table: string, s: string) {
    Alphanumeric(table, s) && |s| == CSRF_SECRET_LENGTH
  }

  /** Every masked secret is a token of 64 characters that unmasks to the secret. */
  lemma UnmaskInvertsMask(table: string, mask: string, secret: string, max: nat)
    requires Alphabet(table) && max >= ALPHANUMERIC_RANGE - 1 && Secret(table, mask) && Secret(table, secret)
    ensures var token := MaskCsrf(table, mask, secret, max);
            && token.Some? && Alphanumeric(table, token.value) && |token.value| == CSRF_TOKEN_LENGTH
            && token.value[..CSRF_SECRET_LENGTH] == mask
            && UnmaskCsrf(table, token.value, max) == Some(secret)
  {
    MaskOpTotal(table, mask, secret, true, max);
    MaskOpInverts(table, mask, secret, true, max);
    var token := MaskCsrf(table, mask, secret, max).value;
    AlphanumericSplits(table, token, CSRF_SECRET_LENGTH);
    AlphanumericLength(table, token);
    assert token[..CSRF_SECRET_LENGTH] == mask;
    assert token[CSRF_SECRET_LENGTH..] == MaskOp(table, mask, secret, true, max).value;
  }

  /** Conversely, every alphanumeric token of 64 characters is the masking of what it unmasks to. */
  lemma MaskInvertsUnmask(table: string, token: string, max: nat)
    requires Alphabet(table) && max >= ALPHANUMERIC_RANGE - 1
    requires Alphanumeric(table, token) && |token| == CSRF_TOKEN_LENGTH
    ensures UnmaskCsrf(table, token, max).Some? && Secret(table, UnmaskCsrf(table, token, max).value)
    ensures MaskCsrf(table, token[..CSRF_SECRET_LENGTH], UnmaskCsrf(table, token, max).value, max) == Some(token)
  {
    var mask, masked := token[..CSRF_SECRET_LENGTH], token[CSRF_SECRET_LENGTH..];
    AlphanumericSplits(table, token, CSRF_SECRET_LENGTH);
    MaskOpTotal(table, mask, masked, false, max);
    MaskOpInverts(table, mask, masked, false, max);
    assert token == mask + masked;
  }

  /** Validation of a token of 64 bytes panics exactly if some character is not alphanumeric. */
  lemma ValidatePanics(table: string, token: string, secret: string, max: nat)
    requires Alphabet(table) && max >= ALPHANUMERIC_RANGE - 1 && ByteLength(token) == CSRF_TOKEN_LENGTH
    ensures ValidateToken(table, token, secret, max).Some? <==> Alphanumeric(table, token)
  {
    if SplitAt(token, CSRF_SECRET_LENGTH).Some? {
      SplitParts(token, CSRF_SECRET_LENGTH);
      var (mask, masked) := SplitAt(token, CSRF_SECRET_LENGTH).value;
      MaskOpPanics(table, mask, masked, false, max);
      assert Alphanumeric(table, token) <==> Alphanumeric(table, mask) && Alphanumeric(table, masked) by {
        assert forall i | 0 <= i < |mask| :: token[i] == mask[i];
        assert forall i | 0 <= i < |masked| :: token[|mask| + i] == masked[i];
      }
    } else if Alphanumeric(table, token) {
      AlphanumericLength(table, token);
      AlphanumericSplits(table, token, CSRF_SECRET_LENGTH);
    }
  }

  /** For a 64-byte token, and each mask, exactly the masking of the secret with that mask is accepted. */
  lemma ValidateAcceptsOnePerMask(table: string, token: string, secret: string, max: nat)
    requires Alphabet(table) && max >= ALPHANUMERIC_RANGE - 1 && ByteLength(token) == CSRF_TOKEN_LENGTH
    ensures ValidateToken(table, token, secret, max) == Some(true) <==>
            && Secret(table, secret)
            && exists mask :: Secret(table, mask) && MaskCsrf(table, mask, secret, max) == Some(token)
  {
    ValidatePanics(table, token, secret, max);
    if ValidateToken(table, token, secret, max) == Some(true) {
      AlphanumericLength(table, token);
      MaskInvertsUnmask(table, token, max);
      assert Secret(table, token[..CSRF_SECRET_LENGTH]);
    }
    if mask :| Secret(table, secret) && Secret(table, mask) && MaskCsrf(table, mask, secret, max) == Some(token) {
      UnmaskInvertsMask(table, mask, secret, max);
    }
  }

  /**
   Over all tokens: accepted are the secret itself, if it is not 64 bytes long, and the maskings of the
   secret. So the 32 characters of a secret are accepted without a mask, and no other token of another
   length is.
   */
  lemma ValidateAcceptsIff(table: string, token: string, secret: string, max: nat)
    requires Alphabet(table) && max >= ALPHANUMERIC_RANGE - 1
    ensures ValidateToken(table, token, secret, max) == Some(true) <==>
            || (token == secret && ByteLength(token) != 64)
            || (ByteLength(token) == 64 && Secret(table, secret) &&
                exists mask :: Secret(table, mask) && MaskCsrf(table, mask, secret, max) == Some(token))
    ensures ByteLength(token) != 64 ==> ValidateToken(table, token, secret, max) == Some(token == secret)
    ensures Secret(table, secret) ==> ValidateToken(table, secret, secret, max) == Some(true)
  {
    if ByteLength(token) == 64 {
      ValidateAcceptsOnePerMask(table, token, secret, max);
    }
    if Secret(table, secret) {
      AlphanumericLength(table, secret);
    }
  }

  lemma CombineMeans(x: nat, y: nat, add: bool, max: nat)
    requires x < ALPHANUMERIC_RANGE && y < ALPHANUMERIC_RANGE && max >= ALPHANUMERIC_RANGE - 1
    ensures Combine(x, y, add, max) == if add then (x + y) % 62 else (x - y) % 62
  {
  }

  lemma {:induction false} MaskOpAt(table: string, mask: string, chars: string, add: bool, max: nat, i: nat)
    requires Alphabet(table) && max >= ALPHANUMERIC_RANGE - 1
    requires Alphanumeric(table, mask) && Alphanumeric(table, chars) && i < |mask| && i < |chars|
    ensures var r := MaskOp(table, mask, chars, add, max);
            var x, y := Position(table, chars[i]).value, Position(table, mask[i]).value;
            && r.Some? && |r.value| == (if |mask| < |chars| then |mask| else |chars|)
            && r.value[i] == table[Combine(x, y, add, max)]
  {
    hide Combine;
    hide Position;
    var x, y := Position(table, chars[0]).value, Position(table, mask[0]).value;
    MaskOpTotal(table, mask[1..], chars[1..], add, max);
    var rest := MaskOp(table, mask[1..], chars[1..], add, max).value;
    assert MaskOp(table, mask, chars, add, max) == Some([table[Combine(x, y, add, max)]] + rest);
    if i > 0 {
      MaskOpAt(table, mask[1..], chars[1..], add, max, i - 1);
    }
  }

  /** The second half of a token is the secret plus the mask, modulo 62, position by position. */
  lemma MaskAdds(table: string, mask: string, secret: string, max: nat, i: nat)
    requires Alphabet(table) && max >= ALPHANUMERIC_RANGE - 1
    requires Secret(table, mask) && Secret(table, secret) && i < 32
    ensures var token := MaskCsrf(table, mask, secret, max);
            && token.Some? && |token.value| == 64 && token.value[i] == mask[i]
            && token.value[32 + i] == table[(Position(table, secret[i]).value + Position(table, mask[i]).value) % 62]
  {
    hide Position;
    MaskOpAt(table, mask, secret, true, max, i);
    CombineMeans(Position(table, secret[i]).value, Position(table, mask[i]).value, true, max);
  }
}
