/**
 * `Base.__tablename__` of app/infrastructure/models/common/base.py: the table name of
 * a model class is derived from its class name. The name is split into the matches
 * of `[A-Z][a-z0-9]*`, each match is lower-cased, matches equal to "model" are
 * dropped, and the rest are joined with "_" and followed by "s".
 */
module TableNames {

  predicate IsUpper(c: char) {
    'A' <= c <= 'Z'
  }

  predicate IsLowerOrDigit(c: char) {
    'a' <= c <= 'z' || '0' <= c <= '9'
  }

  /** One match of `[A-Z][a-z0-9]*`. */
  predicate IsWord(w: string) {
    |w| >= 1 && IsUpper(w[0]) && forall i :: 1 <= i < |w| ==> IsLowerOrDigit(w[i])
  }

  predicate NoUpper(s: string) {
    forall i :: 0 <= i < |s| ==> !IsUpper(s[i])
  }

  /** The length of the longest prefix of `s` made of `[a-z0-9]`. */
  function RunLength(s: string): (n: nat)
    ensures n <= |s|
    ensures forall i :: 0 <= i < n ==> IsLowerOrDigit(s[i])
    ensures n < |s| ==> !IsLowerOrDigit(s[n])
  {
    if s == [] || !IsLowerOrDigit(s[0]) then 0 else 1 + RunLength(s[1..])
  }

  /** `re.findall("[A-Z][a-z0-9]*", s)`: scanning left to right, every uppercase letter starts a match. */
  function Words(s: string): (ws: seq<string>)
    ensures forall i :: 0 <= i < |ws| ==> IsWord(ws[i])
    ensures ws == [] <==> NoUpper(s)
    decreases |s|
  {
    if s == [] then []
    else if IsUpper(s[0]) then
      var n := RunLength(s[1..]);
      [s[..n + 1]] + Words(s[n + 1..])
    else
      assert forall i :: 1 <= i < |s| ==> s[i] == s[1..][i - 1];
      Words(s[1..])
  }

  function Concat(ws: seq<string>): string {
    if ws == [] then "" else ws[0] + Concat(ws[1..])
  }

  /** The run of `[a-z0-9]` ends exactly where a word ends when the next word (or the end) follows. */
  lemma RunLengthOfWordTail(w: string, rest: string)
    requires IsWord(w) && (rest == [] || IsUpper(rest[0]))
    ensures RunLength((w + rest)[1..]) == |w| - 1
  {
    var s := (w + rest)[1..];
    assert forall i :: 0 <= i < |w| - 1 ==> s[i] == w[i + 1];
    if |w| - 1 < |s| {
      assert s[|w| - 1] == rest[0];
    }
  }

  /** Splitting a string made of words gives back exactly those words. */
  lemma {:induction false} WordsOfConcat(ws: seq<string>)
    requires forall i :: 0 <= i < |ws| ==> IsWord(ws[i])
    ensures Words(Concat(ws)) == ws
  {
    if ws != [] {
      var rest := Concat(ws[1..]);
      if ws[1..] != [] {
        assert rest == ws[1] + Concat(ws[2..]);
        assert IsUpper(rest[0]);
      }
      var s := ws[0] + rest;
      RunLengthOfWordTail(ws[0], rest);
      assert s[..|ws[0]|] == ws[0];
      assert s[|ws[0]|..] == rest;
      WordsOfConcat(ws[1..]);
    }
  }

  /** The positions from `i` on that hold an uppercase letter, in increasing order. */
  function UppersFrom(s: string, i: nat): seq<nat>
    requires i <= |s|
    decreases |s| - i
  {
    if i == |s| then []
    else if IsUpper(s[i]) then [i] + UppersFrom(s, i + 1)
    else UppersFrom(s, i + 1)
  }

  lemma {:induction false} UppersInRange(s: string, i: nat)
    requires i <= |s|
    ensures forall k :: 0 <= k < |UppersFrom(s, i)| ==>
      i <= UppersFrom(s, i)[k] < |s| && IsUpper(s[UppersFrom(s, i)[k]])
    decreases |s| - i
  {
    if i < |s| {
      UppersInRange(s, i + 1);
      var ps, rest := UppersFrom(s, i), UppersFrom(s, i + 1);
      if IsUpper(s[i]) {
        assert ps == [i] + rest;
        forall k | 0 <= k < |ps|
          ensures i <= ps[k] < |s| && IsUpper(s[ps[k]])
        {
          if k > 0 { assert ps[k] == rest[k - 1]; } else { assert ps[k] == i; }
        }
      }
    }
  }

  lemma {:induction false} UppersIncreasing(s: string, i: nat)
    requires i <= |s|
    ensures forall k, l :: 0 <= k < l < |UppersFrom(s, i)| ==> UppersFrom(s, i)[k] < UppersFrom(s, i)[l]
    decreases |s| - i
  {
    if i < |s| {
      UppersIncreasing(s, i + 1);
      UppersInRange(s, i + 1);
      var ps, rest := UppersFrom(s, i), UppersFrom(s, i + 1);
      if IsUpper(s[i]) {
        assert ps == [i] + rest;
        forall k, l | 0 <= k < l < |ps|
          ensures ps[k] < ps[l]
        {
          assert ps[l] == rest[l - 1] && i + 1 <= rest[l - 1];
          if k > 0 { assert ps[k] == rest[k - 1]; }
        }
      }
    }
  }

  lemma {:induction false} UppersComplete(s: string, i: nat)
    requires i <= |s|
    ensures forall j :: i <= j < |s| && IsUpper(s[j]) ==> j in UppersFrom(s, i)
    decreases |s| - i
  {
    if i < |s| {
      UppersComplete(s, i + 1);
      var ps, rest := UppersFrom(s, i), UppersFrom(s, i + 1);
      if IsUpper(s[i]) {
        assert ps == [i] + rest;
      } else {
        assert ps == rest;
      }
    }
  }

  /** `UppersFrom` lists exactly the uppercase positions from `i` on, in increasing order. */
  lemma UppersFromMeaning(s: string, i: nat)
    requires i <= |s|
    ensures var ps := UppersFrom(s, i);
      (forall k :: 0 <= k < |ps| ==> i <= ps[k] < |s| && IsUpper(s[ps[k]])) &&
      (forall k, l :: 0 <= k < l < |ps| ==> ps[k] < ps[l]) &&
      (forall j :: i <= j < |s| && IsUpper(s[j]) ==> j in ps)
  {
    UppersInRange(s, i);
    UppersIncreasing(s, i);
    UppersComplete(s, i);
  }

  /** Skipping a stretch without uppercase letters skips no position. */
  lemma {:induction false} UppersSkip(s: string, i: nat, j: nat)
    requires i <= j <= |s|
    requires forall m :: i <= m < j ==> !IsUpper(s[m])
    ensures UppersFrom(s, i) == UppersFrom(s, j)
    decreases j - i
  {
    if i < j {
      UppersSkip(s, i + 1, j);
    }
  }

  /** The match of `[A-Z][a-z0-9]*` that starts at position `p`: the letter and the longest run after it. */
  function MatchAt(s: string, p: nat): string
    requires p < |s|
  {
    s[p..p + 1 + RunLength(s[p + 1..])]
  }

  /** Predicate form of the correspondence between matches and match positions. */
  predicate MatchesAt(s: string, ws: seq<string>, ps: seq<nat>) {
    |ws| == |ps| && forall k :: 0 <= k < |ps| ==> ps[k] < |s| && ws[k] == MatchAt(s, ps[k])
  }

  /** The characters after an uppercase letter up to the end of its run are not uppercase. */
  lemma RunHasNoUpper(s: string, i: nat)
    requires i < |s|
    ensures var j := i + 1 + RunLength(s[i + 1..]);
      j <= |s| && forall m :: i + 1 <= m < j ==> !IsUpper(s[m])
  {
    var r := s[i + 1..];
    var j := i + 1 + RunLength(r);
    forall m | i + 1 <= m < j
      ensures !IsUpper(s[m])
    {
      assert s[m] == r[m - i - 1];
    }
  }

  /** At an uppercase letter the scan takes the match starting there and goes on after it. */
  lemma UpperStep(s: string, i: nat)
    requires i < |s| && IsUpper(s[i])
    ensures var j := i + 1 + RunLength(s[i + 1..]);
      j <= |s| && Words(s[i..]) == [MatchAt(s, i)] + Words(s[j..])
  {
    var t := s[i..];
    var n := RunLength(s[i + 1..]);
    assert t[0] == s[i] && t[1..] == s[i + 1..];
    assert t[..n + 1] == MatchAt(s, i);
    assert t[n + 1..] == s[i + 1 + n..];
  }

  /** At an uppercase letter the listed positions are that one, then those after its run. */
  lemma UpperStepPositions(s: string, i: nat)
    requires i < |s| && IsUpper(s[i])
    ensures var j := i + 1 + RunLength(s[i + 1..]);
      j <= |s| && UppersFrom(s, i) == [i] + UppersFrom(s, j)
  {
    RunHasNoUpper(s, i);
    UppersSkip(s, i + 1, i + 1 + RunLength(s[i + 1..]));
  }

  /** Any other character is skipped. */
  lemma OtherStep(s: string, i: nat)
    requires i < |s| && !IsUpper(s[i])
    ensures Words(s[i..]) == Words(s[i + 1..]) && UppersFrom(s, i) == UppersFrom(s, i + 1)
  {
    var t := s[i..];
    assert t[0] == s[i] && t[1..] == s[i + 1..];
  }

  lemma MatchesAtCons(s: string, p: nat, ws: seq<string>, ps: seq<nat>)
    requires p < |s| && MatchesAt(s, ws, ps)
    ensures MatchesAt(s, [MatchAt(s, p)] + ws, [p] + ps)
  {
    var ws', ps' := [MatchAt(s, p)] + ws, [p] + ps;
    forall k | 0 <= k < |ps'|
      ensures ps'[k] < |s| && ws'[k] == MatchAt(s, ps'[k])
    {
      if k > 0 {
        assert ws'[k] == ws[k - 1] && ps'[k] == ps[k - 1];
      }
    }
  }

  /**
   * The matches in `s[i..]` correspond one to one with the uppercase letters from `i` on:
   * the k-th match is the one starting at the k-th of them.
   */
  lemma {:induction false} WordsFrom(s: string, i: nat)
    requires i <= |s|
    ensures MatchesAt(s, Words(s[i..]), UppersFrom(s, i))
    decreases |s| - i
  {
    if i < |s| {
      if IsUpper(s[i]) {
        UpperStep(s, i);
        UpperStepPositions(s, i);
        var j := i + 1 + RunLength(s[i + 1..]);
        WordsFrom(s, j);
        MatchesAtCons(s, i, Words(s[j..]), UppersFrom(s, j));
      } else {
        OtherStep(s, i);
        WordsFrom(s, i + 1);
      }
    }
  }

  /** `re.findall` returns one match per uppercase letter of `s`, each maximal, in order of position. */
  lemma WordsAtUppers(s: string)
    ensures MatchesAt(s, Words(s), UppersFrom(s, 0))
  {
    assert s[0..] == s;
    WordsFrom(s, 0);
  }

  /** `str.lower` on a match (ASCII letters and digits only). */
  function Lower(w: string): (l: string)
    ensures |l| == |w|
    ensures forall i :: 0 <= i < |w| ==> l[i] == (if IsUpper(w[i]) then (w[i] as int + 32) as char else w[i])
  {
    if w == [] then [] else [if IsUpper(w[0]) then (w[0] as int + 32) as char else w[0]] + Lower(w[1..])
  }

  /** The lower-cased words other than "model", in order. */
  function Kept(ws: seq<string>): (ks: seq<string>)
    ensures |ks| <= |ws|
  {
    if ws == [] then []
    else if Lower(ws[0]) == "model" then Kept(ws[1..])
    else [Lower(ws[0])] + Kept(ws[1..])
  }

  /** `"_".join(ws)`. */
  function JoinUnderscore(ws: seq<string>): string {
    if ws == [] then "" else if |ws| == 1 then ws[0] else ws[0] + "_" + JoinUnderscore(ws[1..])
  }

  /** A character a derived table name may contain. */
  predicate IsTableChar(c: char) {
    IsLowerOrDigit(c) || c == '_'
  }

  predicate AllTableChars(s: string) {
    forall i :: 0 <= i < |s| ==> IsTableChar(s[i])
  }

  lemma {:induction false} KeptAreLower(ws: seq<string>)
    requires forall i :: 0 <= i < |ws| ==> IsWord(ws[i])
    ensures forall i :: 0 <= i < |Kept(ws)| ==> AllTableChars(Kept(ws)[i])
  {
    if ws != [] {
      KeptAreLower(ws[1..]);
      var l := Lower(ws[0]);
      assert AllTableChars(l) by {
        forall i | 0 <= i < |l| ensures IsTableChar(l[i]) {
          if i > 0 { assert IsLowerOrDigit(ws[0][i]); }
        }
      }
    }
  }

  lemma {:induction false} JoinKeepsTableChars(ws: seq<string>)
    requires forall i :: 0 <= i < |ws| ==> AllTableChars(ws[i])
    ensures AllTableChars(JoinUnderscore(ws))
  {
    if |ws| > 1 {
      JoinKeepsTableChars(ws[1..]);
      var j := JoinUnderscore(ws[1..]);
      assert AllTableChars(ws[0] + "_" + j) by {
        var s := ws[0] + "_" + j;
        forall i | 0 <= i < |s| ensures IsTableChar(s[i]) {
          if i < |ws[0]| { assert s[i] == ws[0][i]; }
          else if i > |ws[0]| { assert s[i] == j[i - |ws[0]| - 1]; }
        }
      }
    }
  }

  /** `__tablename__` for a class named `name`: always ends in "s" and holds only `[a-z0-9_]`. */
  function TableName(name: string): (r: string)
    ensures |r| >= 1 && r[|r| - 1] == 's'
    ensures AllTableChars(r)
  {
    var ws := Words(name);
    KeptAreLower(ws);
    JoinKeepsTableChars(Kept(ws));
    JoinUnderscore(Kept(ws)) + "s"
  }

  /** A class name without an uppercase letter yields "s". */
  lemma TableNameWithoutUpper(name: string)
    requires NoUpper(name)
    ensures TableName(name) == "s"
  {
  }

  /** `UserModel` is stored in the table "users". */
  lemma UserModelTable()
    ensures TableName("UserModel") == "users"
  {
    UserModelWords();
    UserModelKept();
    var kept := Kept(Words("UserModel"));
    assert kept == ["user"];
    assert JoinUnderscore(kept) == "user";
    assert TableName("UserModel") == JoinUnderscore(kept) + "s";
  }

  lemma UserModelWords()
    ensures Words("UserModel") == ["User", "Model"]
  {
    assert IsWord("User") && IsWord("Model");
    assert Concat(["User", "Model"]) == "UserModel";
    WordsOfConcat(["User", "Model"]);
  }

  lemma UserModelKept()
    ensures Kept(["User", "Model"]) == ["user"]
  {
    var ws := ["User", "Model"];
    LowerUser();
    LowerModel();
    assert ws[1..] == ["Model"];
    assert Kept(ws[1..]) == [];
  }

  lemma LowerUser()
    ensures Lower("User") == "user"
  {
  }

  lemma LowerModel()
    ensures Lower("Model") == "model"
  {
  }
}
