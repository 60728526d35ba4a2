/**
 * The single-slot, single-use code cache shared by the OTP service
 * (app/infrastructure/services/otps/redis.py) and the code service
 * (app/infrastructure/services/codes/redis.py): at most one pending code per email,
 * a new code overwrites the old one, and a matching check deletes it.
 *
 * The cache is a map from key (the user's email) to the stored code; what a check
 * finds and what it leaves behind are the functions `Check` and `AfterCheck`.
 */
module SingleUseCodes {
  import Decimal

  /** What a check finds: no code, a different code, or the submitted code. */
  datatype Verdict = NotFound | NotEqual | Matched

  function Check(cache: map<string, string>, key: string, code: string): (v: Verdict)
    ensures v == NotFound <==> key !in cache
    ensures v == Matched <==> key in cache && cache[key] == code
  {
    if key !in cache then NotFound
    else if cache[key] != code then NotEqual
    else Matched
  }

  /** The cache after a check: only a matching check changes it, by deleting that one key. */
  function AfterCheck(cache: map<string, string>, key: string, code: string): (c: map<string, string>)
    ensures Check(cache, key, code) == Matched ==> key !in c
    ensures Check(cache, key, code) != Matched ==> c == cache
    ensures forall k :: k != key ==> (k in c <==> k in cache) && (k in c ==> c[k] == cache[k])
  {
    if Check(cache, key, code) == Matched then cache - {key} else cache
  }

  /** A code as `str(randint(10**5, 10**6 - 1))` produces it. */
  predicate IsSixDigitCode(code: string) {
    |code| == 6 && Decimal.AllDigits(code) && 100000 <= Decimal.Value(code) <= 999999
  }

  /** Every number the generator may draw renders as a six-digit code, and different draws as different codes. */
  lemma {:induction false} DrawnCodes(m: nat, n: nat)
    requires 100000 <= m <= 999999 && 100000 <= n <= 999999
    ensures IsSixDigitCode(Decimal.SixDigits(n))
    ensures Decimal.SixDigits(m) == Decimal.SixDigits(n) <==> m == n
  {
    if Decimal.SixDigits(m) == Decimal.SixDigits(n) {
      Decimal.ToDecimalInjective(m, n);
    }
  }

  /** A freshly stored code checks out once; checking it again right after finds nothing. */
  lemma {:induction false} SingleUse(cache: map<string, string>, key: string, code: string)
    ensures Check(cache[key := code], key, code) == Matched
    ensures var after := AfterCheck(cache[key := code], key, code);
      Check(after, key, code) == NotFound
  {
    var c := cache[key := code];
    assert key in c && c[key] == code;
  }

  /** Storing a new code overwrites the pending one: the older code no longer checks out. */
  lemma OverwriteReplacesPending(cache: map<string, string>, key: string, older: string, newer: string, submitted: string)
    requires submitted != newer
    ensures Check(cache[key := older][key := newer], key, submitted) == NotEqual
  {
  }

  /** A failed check leaves the pending code in place, so a later check with the right code still succeeds. */
  lemma MismatchKeepsPending(cache: map<string, string>, key: string, code: string, wrong: string)
    requires key in cache && cache[key] == code && wrong != code
    ensures Check(cache, key, wrong) == NotEqual
    ensures Check(AfterCheck(cache, key, wrong), key, code) == Matched
  {
  }
}
