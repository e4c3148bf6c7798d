/** Guest ids derived from a phone number: the digits, their 32-bit rolling
    hash in hexadecimal, and the last eight digits. */
module Hash {
  import opened JsText

  const TwoTo32: nat := 0x1_0000_0000

  /** The value of the accumulator after the loop has read all of `s`: each
      step multiplies by 31, adds the character code and keeps the low 32
      bits (`>>> 0`). */
  function HashOf(s: string): (h: nat)
    ensures h < TwoTo32
  {
    if s == [] then 0 else (HashOf(s[..|s| - 1]) * 31 + s[|s| - 1] as int) % TwoTo32
  }

  /** `hash.toString(16).slice(0, 8)`. */
  function HashHex(s: string): string {
    Take(NatToString(HashOf(s), 16), 8)
  }

  /** `simpleHash(str)`. */
  method SimpleHash(str: string) returns (hex: string)
    ensures hex == HashHex(str)
  {
    var hash: nat := 0;
    for i := 0 to |str|
      invariant hash == HashOf(str[..i])
    {
      assert str[..i + 1][..i] == str[..i];
      hash := (hash * 31 + str[i] as int) % TwoTo32;
    }
    assert str[..|str|] == str;
    hex := Take(NatToString(hash, 16), 8);
  }

  /** The hash fits in eight hexadecimal digits, so the slice drops nothing:
      the text is 1 to 8 lower-case hex digits that read back as the hash. */
  lemma {:induction false} HashHexReadsBack(s: string)
    ensures 1 <= |HashHex(s)| <= 8
    ensures forall i :: 0 <= i < |HashHex(s)| ==> IsLowerHex(HashHex(s)[i])
    ensures ParseNat(HashHex(s), 16) == HashOf(s)
  {
    assert Pow(16, 8) == TwoTo32;
    NatToStringLength(HashOf(s), 16, 8);
    NatToStringDigits(HashOf(s), 16);
    ParseNatToString(HashOf(s), 16);
  }

  /** `makeGuestIdFromPhone(phone)`: `guest-<hash of the digits>-<last 8 digits>`. */
  function GuestIdOf(phone: string): string {
    var digits := KeepDigits(phone);
    "guest-" + HashHex(digits) + "-" + TakeLast(digits, 8)
  }

  method MakeGuestIdFromPhone(phone: string) returns (id: string)
    ensures id == GuestIdOf(phone)
  {
    var digits := KeepDigits(phone);
    var last8 := TakeLast(digits, 8);
    var hashed := SimpleHash(digits);
    id := "guest-" + hashed + "-" + last8;
  }

  /** The segment after the last `-` of a guest id is the key `last8`: the
      last eight digits of the phone number, or all of them if there are
      fewer. The id starts with `guest-`. */
  lemma GuestIdKey(phone: string)
    ensures AfterLast(GuestIdOf(phone), '-') == TakeLast(KeepDigits(phone), 8)
    ensures GuestIdOf(phone)[..6] == "guest-"
  {
    var digits := KeepDigits(phone);
    var last8 := TakeLast(digits, 8);
    var head := "guest-" + HashHex(digits);
    assert GuestIdOf(phone) == head + ['-'] + last8;
    assert AfterLast(head + ['-'] + last8, '-') == last8 by {
      assert '-' !in last8 by {
        forall i | 0 <= i < |last8| ensures last8[i] != '-' {
          assert last8[i] == digits[|digits| - |last8| + i];
        }
      }
      AfterLastOfJoin(head, '-', last8);
    }
    assert (head + ['-'] + last8)[..6] == "guest-";
  }

  /** Characters other than digits do not matter: dropping one from the phone
      number keeps its digits, and the guest id depends on nothing else. */
  lemma GuestIdIgnoresSeparator(before: string, c: char, after: string)
    requires !IsDigit(c)
    ensures KeepDigits(before + [c] + after) == KeepDigits(before + after)
    ensures GuestIdOf(before + [c] + after) == GuestIdOf(before + after)
  {
    assert KeepDigits([c]) == [] by {
      assert [c][1..] == [];
    }
    KeepDigitsAppend(before + [c], after);
    KeepDigitsAppend(before, [c]);
    KeepDigitsAppend(before, after);
    assert KeepDigits(before) + [] == KeepDigits(before);
  }

  /** The two ways of writing a mobile number give the same guest id. */
  lemma GuestIdExample(dashed: string, plain: string)
    requires dashed == "010-1234-5678" && plain == "01012345678"
    ensures GuestIdOf(dashed) == GuestIdOf(plain)
  {
    var a, b, c := "010", "1234", "5678";
    assert KeepDigits(dashed) == KeepDigits(a + (b + ['-'] + c)) by {
      assert dashed == a + ['-'] + (b + ['-'] + c);
      GuestIdIgnoresSeparator(a, '-', b + ['-'] + c);
    }
    assert KeepDigits(a + (b + ['-'] + c)) == KeepDigits(plain) by {
      assert a + (b + ['-'] + c) == (a + b) + ['-'] + c;
      assert plain == (a + b) + c;
      GuestIdIgnoresSeparator(a + b, '-', c);
    }
  }
}
