/** `RedisCodeService` of app/infrastructure/services/codes/redis.py. */
module Codes {
  import opened Wrappers
  import opened Values
  import opened SingleUseCodes
  import Decimal

  datatype CodeError =
    | CodeWasNotFound(code: string)
    | CodesAreNotEqual(code: string, cachedCode: string, userEmail: string)

  class RedisCodeService {
    /** The Redis keys this service uses: user email to pending code. */
    var cache: map<string, string>

    constructor (cache: map<string, string>)
      ensures this.cache == cache
    {
      this.cache := cache;
    }

    /** A random six-digit code, stored under the user's email in place of any earlier one, and returned. */
    method GenerateCode(email: UserEmail) returns (code: string)
      modifies this
      ensures IsSixDigitCode(code)
      ensures cache == old(cache)[email.AsGenericType() := code]
    {
      var n: nat :| 100000 <= n <= 999999;
      DrawnCodes(n, n);
      code := Decimal.SixDigits(n);
      cache := cache[email.AsGenericType() := code];
    }

    /** Not found, then not equal; a matching code is deleted. Only the user's email key is read or written. */
    method Validate(code: string, email: UserEmail) returns (r: Outcome<CodeError>)
      modifies this
      ensures cache == AfterCheck(old(cache), email.AsGenericType(), code)
      ensures match Check(old(cache), email.AsGenericType(), code)
        case NotFound => r == Fail(CodeWasNotFound(code))
        case NotEqual => r == Fail(CodesAreNotEqual(code, old(cache)[email.AsGenericType()], email.AsGenericType()))
        case Matched => r == Pass
    {
      var key := email.AsGenericType();
      if key !in cache { return Fail(CodeWasNotFound(code)); }
      var cached := cache[key];
      if cached != code { return Fail(CodesAreNotEqual(code, cached, key)); }
      cache := cache - {key};
      r := Pass;
    }
  }
}
