/** `create-address.dto.ts`: the constraints a new address must meet before
    `AddressService.create` sees it, and the same checks in the address form
    of the client. */
module AddressDto {
  import opened Wrappers
  import opened Address

  /** One position of an anchored regular expression without repetition
      operators: a literal character or a character range. */
  datatype CharClass = Exactly(literal: char) | Between(lo: char, hi: char)

  predicate InClass(c: char, cls: CharClass)
  {
    match cls
    case Exactly(d) => c == d
    case Between(lo, hi) => lo <= c <= hi
  }

  /** `pattern.test(s)` for a pattern `^c1c2...cn$` of single-character classes. */
  predicate MatchesAnchored(pattern: seq<CharClass>, s: string)
  {
    |s| == |pattern| && forall k :: 0 <= k < |s| ==> InClass(s[k], pattern[k])
  }

  /** `/^1[3-9]\d{9}$/`, with `\d{9}` written out; without the `u` flag `\d`
      is the ASCII digits only. */
  const PhonePattern: seq<CharClass> := [
    Exactly('1'), Between('3', '9'),
    Digit, Digit, Digit, Digit, Digit, Digit, Digit, Digit, Digit]

  /** `\d` */
  const Digit: CharClass := Between('0', '9')

  predicate ValidPhone(phone: string)
  {
    MatchesAnchored(PhonePattern, phone)
  }

  predicate IsAsciiDigit(c: char)
  {
    '0' <= c <= '9'
  }

  /** A mainland mobile number: eleven ASCII digits, a 1 and then a digit
      from 3 to 9. Anything longer or shorter, with a sign, a space or a
      separator, is refused. */
  lemma ValidPhoneSpec(phone: string)
    ensures ValidPhone(phone) <==>
      |phone| == 11 && phone[0] == '1' && '3' <= phone[1] <= '9'
      && forall k :: 0 <= k < |phone| ==> IsAsciiDigit(phone[k])
  {
    assert |PhonePattern| == 11;
    assert forall k :: 2 <= k < 11 ==> PhonePattern[k] == Digit;
    if |phone| == 11 && phone[0] == '1' && '3' <= phone[1] <= '9'
       && forall k :: 0 <= k < |phone| ==> IsAsciiDigit(phone[k]) {
      forall k | 0 <= k < |phone| ensures InClass(phone[k], PhonePattern[k]) {
        if k >= 2 { assert IsAsciiDigit(phone[k]); }
      }
    }
  }

  /** `@IsString() @IsNotEmpty()`: a string other than the empty one. */
  predicate NotEmpty(s: string)
  {
    s != ""
  }

  /** Everything `CreateAddressDto` demands; `postalCode` and `isDefault`
      may be left out. */
  predicate ValidCreateAddress(input: AddressInput)
  {
    NotEmpty(input.name) && NotEmpty(input.phone) && ValidPhone(input.phone)
    && NotEmpty(input.province) && NotEmpty(input.city)
    && NotEmpty(input.district) && NotEmpty(input.detail)
  }

  /** A valid request has the six required fields filled and an 11-digit
      mobile number; the optional fields never make it invalid. */
  lemma ValidCreateAddressSpec(input: AddressInput, postalCode: Option<string>, isDefault: Option<bool>)
    ensures ValidCreateAddress(input) ==>
      |input.phone| == 11 && input.name != "" && input.province != ""
      && input.city != "" && input.district != "" && input.detail != ""
    ensures ValidCreateAddress(input) <==>
      ValidCreateAddress(input.(postalCode := postalCode, isDefault := isDefault))
  {
    ValidPhoneSpec(input.phone);
  }

  /** The address form's `handleSubmit` checks: the required fields first,
      then the phone pattern; `None` lets the request go to the server. */
  function ClientCheck(form: AddressInput): (r: Option<string>)
    ensures r.Some? ==> r.value in {"请填写完整信息", "请输入正确的手机号"}
  {
    if form.name == "" || form.phone == "" || form.province == "" || form.city == ""
       || form.district == "" || form.detail == "" then Some("请填写完整信息")
    else if !ValidPhone(form.phone) then Some("请输入正确的手机号")
    else None
  }

  /** The client lets a form through exactly when the server would accept
      it, and names a missing field before a malformed phone. */
  lemma ClientMatchesServer(form: AddressInput)
    ensures ClientCheck(form).None? <==> ValidCreateAddress(form)
    ensures ClientCheck(form) == Some("请填写完整信息") <==>
      form.name == "" || form.phone == "" || form.province == "" || form.city == ""
      || form.district == "" || form.detail == ""
  {
  }
}
