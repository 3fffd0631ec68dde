/**
 * Phone-number normalisation and validation for Japanese mobile numbers, and
 * `sendSms`, which validates before it calls the carrier. The carrier client
 * is an oracle: `reply` is what `client.messages.create` would do if called.
 */
module Twilio {
  import opened Wrappers
  import opened Text

  /** `phone.replace(/\D/g, '')`: the ASCII digits of `phone`, in order. */
  function Digits(s: string): (r: string)
    ensures |r| <= |s|
    ensures forall k :: 0 <= k < |r| ==> IsAsciiDigit(r[k])
  {
    if s == [] then []
    else (if IsAsciiDigit(s[0]) then [s[0]] else []) + Digits(s[1..])
  }

  predicate AllDigits(s: string) {
    forall k :: 0 <= k < |s| ==> IsAsciiDigit(s[k])
  }

  lemma {:induction false} DigitsOfDigits(s: string)
    requires AllDigits(s)
    ensures Digits(s) == s
  {
    if s != [] {
      DigitsOfDigits(s[1..]);
    }
  }

  lemma {:induction false} DigitsAppend(a: string, b: string)
    ensures Digits(a + b) == Digits(a) + Digits(b)
  {
    if a != [] {
      assert (a + b)[1..] == a[1..] + b;
      DigitsAppend(a[1..], b);
    } else {
      assert a + b == b;
    }
  }

  /** `normalizePhoneNumber`: drop every non-digit, then write the number in `+81` form. */
  function NormalizePhoneNumber(phone: string): (r: string)
    ensures |r| >= 1 && r[0] == '+'
    ensures AllDigits(r[1..])
  {
    var digits := Digits(phone);
    if StartsWith(digits, "0") then "+81" + digits[1..]
    else if StartsWith(digits, "81") then "+" + digits
    else "+" + digits
  }

  /** A leading trunk `0` becomes the country code `81`. */
  lemma NormalizeTrunkPrefix(phone: string)
    requires StartsWith(Digits(phone), "0")
    ensures NormalizePhoneNumber(phone) == "+81" + Digits(phone)[1..]
  {
  }

  /** Any other digit string is only prefixed with `+`. */
  lemma NormalizeOtherPrefix(phone: string)
    requires !StartsWith(Digits(phone), "0")
    ensures NormalizePhoneNumber(phone) == "+" + Digits(phone)
  {
  }

  /** Only the digits matter: separators and other characters never change the result. */
  lemma NormalizeSeesOnlyDigits(a: string, b: string)
    requires Digits(a) == Digits(b)
    ensures NormalizePhoneNumber(a) == NormalizePhoneNumber(b)
  {
  }

  /** `81…` and `+81…` normalise alike. */
  lemma NormalizeIgnoresPlus(phone: string)
    ensures NormalizePhoneNumber("+" + phone) == NormalizePhoneNumber(phone)
  {
    DigitsAppend("+", phone);
    assert Digits("+") == [];
  }

  /** The digits of a normalised number are everything after its `+`. */
  lemma DigitsOfNormalized(phone: string)
    ensures Digits(NormalizePhoneNumber(phone)) == NormalizePhoneNumber(phone)[1..]
  {
    var n := NormalizePhoneNumber(phone);
    var rest := n[1..];
    assert n == "+" + rest;
    DigitsAppend("+", rest);
    assert Digits("+") == [];
    DigitsOfDigits(rest);
  }

  /** Normalising a normalised number changes nothing. */
  lemma NormalizeIdempotent(phone: string)
    ensures NormalizePhoneNumber(NormalizePhoneNumber(phone)) == NormalizePhoneNumber(phone)
  {
    var n := NormalizePhoneNumber(phone);
    var rest := n[1..];
    DigitsOfNormalized(phone);
    var d := Digits(phone);
    if StartsWith(d, "0") {
      assert rest == "81" + d[1..];
      assert !StartsWith(rest, "0") by { assert rest[0] == '8'; }
    } else {
      assert rest == d;
    }
  }

  /** The pattern `^\+81[789]0\d{8}$`. */
  predicate IsMobileE164(n: string) {
    |n| == 13 && n[..3] == "+81" && n[3] in "789" && n[4] == '0' && AllDigits(n[5..])
  }

  /** `validatePhoneNumber`. */
  function ValidatePhoneNumber(phone: string): bool {
    IsMobileE164(NormalizePhoneNumber(phone))
  }

  /** 070/080/090 followed by eight digits: the national writing of a mobile number. */
  predicate IsNationalMobile(d: string) {
    |d| == 11 && d[0] == '0' && d[1] in "789" && d[2] == '0' && AllDigits(d)
  }

  /** The same number with the country code 81 in place of the trunk 0. */
  predicate IsInternationalMobile(d: string) {
    |d| == 12 && d[..2] == "81" && d[2] in "789" && d[3] == '0' && AllDigits(d)
  }

  /**
   * A number validates exactly when its digits are a mobile number written
   * nationally (11 digits) or with the country code (12 digits).
   */
  lemma ValidateIff(phone: string)
    ensures ValidatePhoneNumber(phone) <==>
      IsNationalMobile(Digits(phone)) || IsInternationalMobile(Digits(phone))
  {
    var d := Digits(phone);
    var n := NormalizePhoneNumber(phone);
    if StartsWith(d, "0") {
      assert n == "+81" + d[1..];
      if IsMobileE164(n) {
        assert d == [d[0]] + d[1..];
        assert IsNationalMobile(d);
      }
      if IsNationalMobile(d) {
        assert n[5..] == d[3..];
      }
      assert !IsInternationalMobile(d);
    } else {
      assert n == "+" + d;
      if IsMobileE164(n) {
        assert d == n[1..];
        assert IsInternationalMobile(d);
      }
      if IsInternationalMobile(d) {
        assert n[5..] == d[4..];
      }
    }
  }

  /**
   * What the tests refuse: a national number must have 11 digits (not 10 or
   * 12) and a second digit of 7, 8 or 9 (not a 03 landline or a 060 number);
   * the empty string has no digits at all.
   */
  lemma ValidateRefuses(phone: string)
    requires var d := Digits(phone);
      d == [] || (StartsWith(d, "0") && (|d| != 11 || d[1] !in "789" || d[2] != '0'))
    ensures !ValidatePhoneNumber(phone)
  {
    ValidateIff(phone);
  }

  /** The environment `sendSms` reads, and whether the lazy client already exists. */
  datatype TwilioEnv = TwilioEnv(
    accountSid: string,
    authToken: string,
    fromNumber: string,
    clientCreated: bool)

  /** A value thrown by the carrier client: an `Error` with a message, or anything else. */
  datatype Thrown = ErrorObject(message: string) | OtherValue

  /** What `client.messages.create` does when it is called. */
  datatype CarrierReply = Created(sid: string) | Threw(thrown: Thrown)

  /** The message handed to the carrier. */
  datatype CarrierRequest = CarrierRequest(body: string, from: string, to: string)

  /** `SendSmsResult`. */
  datatype SendSmsResult = SendSmsResult(success: bool, messageId: Option<string>, error: Option<string>)

  /** The carrier request made, if any, and the result `sendSms` resolves to. */
  datatype SendAttempt = SendAttempt(request: Option<CarrierRequest>, result: SendSmsResult)

  const CredentialsMissing := "Twilio credentials are not configured"
  const FromNumberMissing := "TWILIO_PHONE_NUMBER is not configured"
  const InvalidNumberPrefix := "無効な電話番号形式: "
  const UnknownError := "不明なエラー"

  /** The error `getClient` or the sender-number check throws, checked in that order. */
  function ConfigError(env: TwilioEnv): Option<string> {
    if !env.clientCreated && (env.accountSid == "" || env.authToken == "") then Some(CredentialsMissing)
    else if env.fromNumber == "" then Some(FromNumberMissing)
    else None
  }

  /** The `catch` clause: an `Error`'s message, otherwise the generic text. */
  function ErrorText(t: Thrown): string {
    match t
    case ErrorObject(m) => m
    case OtherValue => UnknownError
  }

  function Fail(error: string): SendSmsResult {
    SendSmsResult(false, None, Some(error))
  }

  /** `sendSms(to, message)`. */
  function SendSms(env: TwilioEnv, to: string, message: string, reply: CarrierReply): (a: SendAttempt)
    ensures a.request.Some? <==> ConfigError(env).None? && ValidatePhoneNumber(to)
    ensures a.request.Some? ==>
      a.request.value == CarrierRequest(message, env.fromNumber, NormalizePhoneNumber(to))
    ensures a.result.success <==> a.request.Some? && reply.Created?
    ensures a.result.success ==> a.result.messageId == Some(reply.sid) && a.result.error.None?
    ensures !a.result.success ==> a.result.error.Some? && a.result.messageId.None?
    ensures ConfigError(env).Some? ==> a.result.error == ConfigError(env)
    ensures ConfigError(env).None? && !ValidatePhoneNumber(to) ==>
      a.result.error == Some(InvalidNumberPrefix + to)
    ensures a.request.Some? && reply.Threw? ==> a.result.error == Some(ErrorText(reply.thrown))
  {
    match ConfigError(env)
    case Some(e) => SendAttempt(None, Fail(e))
    case None =>
      var normalizedTo := NormalizePhoneNumber(to);
      if !ValidatePhoneNumber(to) then SendAttempt(None, Fail(InvalidNumberPrefix + to))
      else
        var request := CarrierRequest(message, env.fromNumber, normalizedTo);
        match reply
        case Created(sid) => SendAttempt(Some(request), SendSmsResult(true, Some(sid), None))
        case Threw(t) => SendAttempt(Some(request), Fail(ErrorText(t)))
  }

  /**
   * `getClient` creates the client on its first call when the credentials
   * are present, and keeps it for every later call.
   */
  function AfterSend(env: TwilioEnv): (e: TwilioEnv)
    ensures e.clientCreated <==> env.clientCreated || (env.accountSid != "" && env.authToken != "")
    ensures e.accountSid == env.accountSid && e.authToken == env.authToken && e.fromNumber == env.fromNumber
  {
    env.(clientCreated := env.clientCreated || (env.accountSid != "" && env.authToken != ""))
  }

  /** Creating the client never changes which configuration error a later call reports. */
  lemma AfterSendKeepsConfig(env: TwilioEnv)
    ensures ConfigError(AfterSend(env)) == ConfigError(env)
  {
  }

  /** `sendSms` sees the environment only through its configuration error and sender number. */
  lemma SendSmsSameConfig(e1: TwilioEnv, e2: TwilioEnv, to: string, message: string, reply: CarrierReply)
    requires ConfigError(e1) == ConfigError(e2) && e1.fromNumber == e2.fromNumber
    ensures SendSms(e1, to, message, reply) == SendSms(e2, to, message, reply)
  {
  }
}
