/** `RedisOTPService` of app/infrastructure/services/otps/redis.py. */
module Otps {
  import opened Wrappers
  import opened Values
  import opened SingleUseCodes
  import Decimal

  datatype OtpError =
    | OtpWasNotFound(otp: string)
    | OtpsAreNotEqual(otp: string, cachedOtp: string, userEmail: string)

  class RedisOtpService {
    /** The Redis keys this service uses: user email to pending OTP. */
    var cache: map<string, string>

    constructor (cache: map<string, string>)
      ensures this.cache == cache
    {
      this.cache := cache;
    }

    /** A random six-digit OTP, stored under the user's email in place of any earlier one. */
    method GenerateOtp(email: UserEmail) returns (otp: string)
      modifies this
      ensures IsSixDigitCode(otp)
      ensures cache == old(cache)[email.AsGenericType() := otp]
    {
      var n: nat :| 100000 <= n <= 999999;
      DrawnCodes(n, n);
      otp := Decimal.SixDigits(n);
      cache := cache[email.AsGenericType() := otp];
    }

    /** Not found, then not equal; a matching OTP is deleted. Only the user's email key is read or written. */
    method Validate(otp: string, email: UserEmail) returns (r: Outcome<OtpError>)
      modifies this
      ensures cache == AfterCheck(old(cache), email.AsGenericType(), otp)
      ensures match Check(old(cache), email.AsGenericType(), otp)
        case NotFound => r == Fail(OtpWasNotFound(otp))
        case NotEqual => r == Fail(OtpsAreNotEqual(otp, old(cache)[email.AsGenericType()], email.AsGenericType()))
        case Matched => r == Pass
    {
      var key := email.AsGenericType();
      if key !in cache { return Fail(OtpWasNotFound(otp)); }
      var cached := cache[key];
      if cached != otp { return Fail(OtpsAreNotEqual(otp, cached, key)); }
      cache := cache - {key};
      r := Pass;
    }
  }
}
