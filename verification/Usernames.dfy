/** The migration that gives every existing user a unique name. */
module Usernames {
  import opened Common
  import opened Text

  const MAX_NAME := 150
  const MAX_BASE := 140

  /** The part of an address before its first '@', character by character. */
  function LocalPart(email: string): string {
    if email == "" || email[0] == '@' then "" else [email[0]] + LocalPart(email[1..])
  }

  function Base(email: string): (b: string)
    ensures 0 < |b| <= MAX_BASE
  {
    var stripped := Strip(if email != "" then LocalPart(email) else "user");
    var cut := if |stripped| > MAX_BASE then stripped[..MAX_BASE] else stripped;
    if cut == "" then "user" else cut
  }

  predicate IsDigit(c: char) {
    '0' <= c <= '9'
  }

  function Digit(n: nat): char
    requires n < 10
  {
    '0' + n as char
  }

  function Decimal(n: nat): (s: string)
    ensures s != "" && forall c :: c in s ==> IsDigit(c)
  {
    if n < 10 then [Digit(n)] else Decimal(n / 10) + [Digit(n % 10)]
  }

  function Suffix(counter: nat): string {
    "-" + Decimal(counter)
  }

  /** The first `n` characters; a negative `n` drops characters from the end. */
  function Prefix(s: string, n: int): string {
    if n >= |s| then s else if n >= 0 then s[..n] else if |s| + n > 0 then s[..|s| + n] else ""
  }

  /** The name tried in attempt `k`: the base first, then the base with a number. */
  function Candidate(base: string, k: nat): string {
    if k == 0 then base else Prefix(base, MAX_NAME - |Suffix(k)|) + Suffix(k)
  }

  /** Lower-casing as a character map that fixes digits and the hyphen. */
  type CharMap = char -> char

  predicate FixesSuffixes(fold: CharMap) {
    fold('-') == '-' && forall c :: IsDigit(c) ==> fold(c) == c
  }

  function Lower(s: string, fold: CharMap): (r: string)
    ensures |r| == |s| && forall i :: 0 <= i < |s| ==> r[i] == fold(s[i])
  {
    seq(|s|, i requires 0 <= i < |s| => fold(s[i]))
  }

  // ---------------------------------------------------------------- what a name is made of

  /** The part of an address before its first '@'; all of it, if it has none. */
  ghost predicate IsLocalPart(email: string, local: string) {
    '@' !in local && (email == local || exists rest :: email == local + "@" + rest)
  }

  lemma UpToTheAt(email: string, local: string)
    requires IsLocalPart(email, local)
    ensures |local| <= |email| && local == email[..|local|]
    ensures forall k :: 0 <= k < |local| ==> email[k] != '@'
    ensures |local| < |email| ==> email[|local|] == '@'
  {
    assert forall k :: 0 <= k < |local| ==> local[k] in local;
  }

  lemma {:induction false} LocalPartIsLocal(email: string)
    ensures IsLocalPart(email, LocalPart(email))
  {
    var mine := LocalPart(email);
    if email != "" && email[0] == '@' {
      assert email == "" + "@" + email[1..];
    } else if email != "" {
      LocalPartIsLocal(email[1..]);
      if email[1..] != mine[1..] {
        var rest :| email[1..] == mine[1..] + "@" + rest;
        assert email == mine + "@" + rest;
      }
    }
  }

  lemma LocalPartIs(email: string, local: string)
    ensures IsLocalPart(email, local) <==> local == LocalPart(email)
  {
    LocalPartIsLocal(email);
    UpToTheAt(email, LocalPart(email));
    if IsLocalPart(email, local) {
      UpToTheAt(email, local);
    }
  }

  /** What a name starts from: the trimmed local part, at most 140 characters of it, or "user". */
  ghost predicate IsBase(email: string, text: string) {
    exists local, trimmed :: IsLocalPart(email, local) && IsTrimmed(local, trimmed)
      && text == if trimmed == "" then "user" else if |trimmed| > 140 then trimmed[..140] else trimmed
  }

  lemma BaseIs(email: string, text: string)
    ensures IsBase(email, text) <==> text == Base(email)
  {
    hide Strip, LocalPart, IsLocalPart, IsTrimmed, Base;
    forall local ensures IsLocalPart(email, local) <==> local == LocalPart(email) {
      LocalPartIs(email, local);
    }
    forall trimmed ensures IsTrimmed(LocalPart(email), trimmed) <==> trimmed == Strip(LocalPart(email)) {
      StripTrims(LocalPart(email), trimmed);
    }
    EmptyAddress();
    BaseOfTrimmed(email, Strip(LocalPart(email)));
    assert IsLocalPart(email, LocalPart(email)) && IsTrimmed(LocalPart(email), Strip(LocalPart(email)));
  }

  lemma BaseOfTrimmed(email: string, trimmed: string)
    requires trimmed == Strip(LocalPart(email))
    ensures Base(email) == if trimmed == "" then "user" else if |trimmed| > 140 then trimmed[..140] else trimmed
  {
    hide Strip, LocalPart;
    EmptyAddress();
  }

  lemma EmptyAddress()
    ensures LocalPart("") == "" && Strip("") == "" && Strip("user") == "user"
  {
    assert "" + "user" + "" == "user";
    StripOfSpaced("", "user", "");
  }

  function Value(digits: string): int {
    if digits == "" then 0
    else 10 * Value(digits[..|digits| - 1]) + (digits[|digits| - 1] as int - '0' as int)
  }

  /** The decimal digits of a number, without leading zeros. */
  predicate IsNumeral(digits: string, n: nat) {
    digits != "" && (forall c :: c in digits ==> IsDigit(c)) && (digits[0] != '0' || digits == "0") && Value(digits) == n
  }

  lemma {:induction false} DecimalIsNumeral(n: nat)
    ensures IsNumeral(Decimal(n), n)
  {
    if n < 10 {
      assert Decimal(n)[..0] == "" && Value("") == 0;
    } else {
      DecimalIsNumeral(n / 10);
      var s := Decimal(n);
      assert s[..|s| - 1] == Decimal(n / 10) && s[0] == Decimal(n / 10)[0];
      assert Decimal(n / 10) == "0" ==> Value("0") == 0 by {
        assert "0"[..0] == "";
      }
    }
  }

  /** The name with a number: what fits of the text, a hyphen, and the number. */
  ghost predicate IsNumbered(text: string, n: nat, name: string) {
    exists digits :: IsNumeral(digits, n) && EndsInNumber(text, digits, name)
  }

  predicate EndsInNumber(text: string, digits: string, name: string) {
    var room := if |digits| < 149 then 149 - |digits| else 0;
    |digits| <= 149 && name == (if |text| <= room then text else text[..room]) + "-" + digits
  }

  lemma CandidateIsNumbered(base: string, k: nat)
    requires 0 < k < Power10(MAX_NAME - 1)
    ensures IsNumbered(base, k, Candidate(base, k))
  {
    DecimalLength(k, MAX_NAME - 1);
    DecimalIsNumeral(k);
    assert EndsInNumber(base, Decimal(k), Candidate(base, k));
  }

  /** No earlier row has the name, ignoring case. */
  predicate IsFree(names: seq<Option<string>>, i: nat, name: string, fold: CharMap)
    requires i <= |names|
  {
    forall j :: 0 <= j < i && names[j].Some? ==> Lower(names[j].value, fold) != Lower(name, fold)
  }

  /** An earlier row has the text with this number, ignoring case. */
  ghost predicate IsTaken(text: string, n: nat, names: seq<Option<string>>, i: nat, fold: CharMap)
    requires i <= |names|
  {
    exists tried :: IsNumbered(text, n, tried) && !IsFree(names, i, tried, fold)
  }

  /** Row i holds the base of its address when that is free, and otherwise the base with the first number
      that makes it so. */
  ghost predicate FollowsAddress(emails: seq<string>, names: seq<Option<string>>, i: nat, fold: CharMap)
    requires i < |emails| == |names|
  {
    exists text :: IsBase(emails[i], text) && names[i].Some?
      && if IsFree(names, i, text, fold) then names[i].value == text
         else exists k: nat :: 1 <= k <= i && IsNumbered(text, k, names[i].value)
                && IsFree(names, i, names[i].value, fold)
                && forall j: nat :: 1 <= j < k ==> IsTaken(text, j, names, i, fold)
  }

  lemma FreeIsUnused(names: seq<Option<string>>, i: nat, name: string, fold: CharMap)
    requires i <= |names|
    ensures IsFree(names, i, name, fold) <==> Lower(name, fold) !in UsedBy(names[..i], fold)
  {
    if Lower(name, fold) in UsedBy(names[..i], fold) {
      var j :| 0 <= j < |names[..i]| && names[..i][j].Some? && Lower(names[..i][j].value, fold) == Lower(name, fold);
      assert names[j] == names[..i][j];
    } else {
      assert forall j :: 0 <= j < i ==> names[..i][j] == names[j];
    }
  }

  lemma NamedFollowsAddress(emails: seq<string>, names: seq<Option<string>>, i: nat, fold: CharMap)
    requires i < |emails| == |names| && Named(emails, names, i, fold) && i < Power10(MAX_NAME - 1)
    ensures FollowsAddress(emails, names, i, fold)
  {
    hide Base, Candidate, IsNumbered, IsFree, UsedBy, IsBase, Power10;
    var text := Base(emails[i]);
    var k: nat :| k <= i && IsFirstFree(text, k, UsedBy(names[..i], fold), fold) && names[i] == Some(Candidate(text, k));
    BaseIs(emails[i], text);
    CandidateIs(text, 0);
    FreeIsUnused(names, i, text, fold);
    FreeIsUnused(names, i, Candidate(text, k), fold);
    if k > 0 {
      CandidateIsNumbered(text, k);
      forall j: nat | 1 <= j < k ensures IsTaken(text, j, names, i, fold) {
        CandidateIsNumbered(text, j);
        FreeIsUnused(names, i, Candidate(text, j), fold);
        assert Lower(Candidate(text, j), fold) in UsedBy(names[..i], fold);
      }
      assert IsNumbered(text, k, names[i].value) && IsFree(names, i, names[i].value, fold);
    }
    assert IsBase(emails[i], text);
  }

  // ---------------------------------------------------------------- candidates differ

  lemma {:induction false} DecimalIsInjective(a: nat, b: nat)
    requires Decimal(a) == Decimal(b)
    ensures a == b
  {
    var s, t := Decimal(a), Decimal(b);
    assert s[|s| - 1] == Digit(a % 10) && t[|t| - 1] == Digit(b % 10);
    if a < 10 || b < 10 {
      assert |s| == 1 && |t| == 1;
    } else {
      assert s[..|s| - 1] == Decimal(a / 10) && t[..|t| - 1] == Decimal(b / 10);
      DecimalIsInjective(a / 10, b / 10);
    }
  }

  /** The digits a text ends in. */
  function Tail(s: string): string {
    if s == "" || !IsDigit(s[|s| - 1]) then "" else Tail(s[..|s| - 1]) + [s[|s| - 1]]
  }

  lemma {:induction false} TailAfterHyphen(p: string, a: string)
    requires forall c :: c in a ==> IsDigit(c)
    ensures Tail(p + "-" + a) == a
  {
    var s := p + "-" + a;
    if a == "" {
      assert s[|s| - 1] == '-';
    } else {
      assert s[|s| - 1] == a[|a| - 1] && a[|a| - 1] in a;
      assert s[..|s| - 1] == p + "-" + a[..|a| - 1];
      TailAfterHyphen(p, a[..|a| - 1]);
    }
  }

  /** Two texts that end in a hyphen and digits only agree if the digits do. */
  lemma SameTail(p: string, a: string, q: string, b: string)
    requires p + "-" + a == q + "-" + b
    requires (forall c :: c in a ==> IsDigit(c)) && forall c :: c in b ==> IsDigit(c)
    ensures a == b
  {
    TailAfterHyphen(p, a);
    TailAfterHyphen(q, b);
  }

  lemma LowerOfSum(a: string, b: string, fold: CharMap)
    ensures Lower(a + b, fold) == Lower(a, fold) + Lower(b, fold)
  {
  }

  lemma LowerOfSuffix(k: nat, fold: CharMap)
    requires FixesSuffixes(fold)
    ensures Lower(Suffix(k), fold) == Suffix(k)
  {
    var digits := Decimal(k);
    assert forall i :: 0 <= i < |digits| ==> digits[i] in digits;
  }

  lemma LowerOfCandidate(base: string, k: nat, fold: CharMap)
    requires k > 0 && FixesSuffixes(fold)
    ensures Lower(Candidate(base, k), fold) == Lower(Prefix(base, MAX_NAME - |Suffix(k)|), fold) + "-" + Decimal(k)
  {
    hide Lower, FixesSuffixes, Prefix, Decimal;
    var front := Prefix(base, MAX_NAME - |Suffix(k)|);
    LowerOfSum(front, Suffix(k), fold);
    LowerOfSuffix(k, fold);
    assert Lower(front, fold) + "-" + Decimal(k) == Lower(front, fold) + ("-" + Decimal(k));
  }

  lemma CandidateIsLonger(base: string, k: nat)
    requires k > 0 && 0 < |base| <= MAX_BASE
    ensures |Candidate(base, k)| > |base|
  {
  }

  lemma CandidatesDiffer(base: string, j: nat, k: nat, fold: CharMap)
    requires 0 < |base| <= MAX_BASE && FixesSuffixes(fold) && j < k
    ensures Lower(Candidate(base, j), fold) != Lower(Candidate(base, k), fold)
  {
    CandidateIsLonger(base, k);
    if j > 0 && Lower(Candidate(base, j), fold) == Lower(Candidate(base, k), fold) {
      LowerOfCandidate(base, j, fold);
      LowerOfCandidate(base, k, fold);
      SameTail(Lower(Prefix(base, MAX_NAME - |Suffix(j)|), fold), Decimal(j),
               Lower(Prefix(base, MAX_NAME - |Suffix(k)|), fold), Decimal(k));
      DecimalIsInjective(j, k);
    }
  }

  // ---------------------------------------------------------------- lengths

  function Power10(n: nat): nat {
    if n == 0 then 1 else 10 * Power10(n - 1)
  }

  lemma {:induction false} DecimalLength(n: nat, k: nat)
    requires n < Power10(k) && k > 0
    ensures |Decimal(n)| <= k
  {
    assert Power10(k) == 10 * Power10(k - 1) && Power10(0) == 1;
    if n >= 10 {
      DecimalLength(n / 10, k - 1);
    }
  }

  /** A name fits its column as long as the number in it has at most 149 digits. */
  lemma CandidateFits(base: string, k: nat)
    requires 0 < |base| <= MAX_BASE && k < Power10(MAX_NAME - 1)
    ensures 0 < |Candidate(base, k)| <= MAX_NAME
  {
    DecimalLength(k, MAX_NAME - 1);
  }

  // ---------------------------------------------------------------- the backfill

  /** The names given to the first users, as compared by the loop. */
  function UsedBy(names: seq<Option<string>>, fold: CharMap): set<string> {
    set i | 0 <= i < |names| && names[i].Some? :: Lower(names[i].value, fold)
  }

  /** The smallest attempt whose name is not among the used ones. */
  predicate IsFirstFree(base: string, k: nat, used: set<string>, fold: CharMap) {
    && Lower(Candidate(base, k), fold) !in used
    && forall j :: 0 <= j < k ==> Lower(Candidate(base, j), fold) in used
  }

  /** No two rows share a name, ignoring case. */
  ghost predicate DistinctNames(names: seq<Option<string>>, fold: CharMap) {
    forall i, j :: 0 <= i < j < |names| && names[i].Some? && names[j].Some? ==>
      Lower(names[i].value, fold) != Lower(names[j].value, fold)
  }

  /** Row i holds the first free candidate of its address, found within i attempts. */
  ghost predicate Named(emails: seq<string>, names: seq<Option<string>>, i: nat, fold: CharMap)
    requires i < |emails| == |names|
  {
    exists k: nat :: k <= i && IsFirstFree(Base(emails[i]), k, UsedBy(names[..i], fold), fold)
                     && names[i] == Some(Candidate(Base(emails[i]), k))
  }

  /** Another row of the table holds exactly this name. */
  predicate TakenInTable(names: seq<Option<string>>, row: nat, name: string) {
    exists i :: 0 <= i < |names| && i != row && names[i] == Some(name)
  }

  /** The search for one user's name: the first free candidate, found within one attempt more than
      there are used names. */
  method FindFree(base: string, used: set<string>, names: seq<Option<string>>, n: nat, fold: CharMap)
    returns (username: string)
    requires 0 < |base| <= MAX_BASE && FixesSuffixes(fold)
    requires n < |names| && used == UsedBy(names[..n], fold) && forall i :: n <= i < |names| ==> names[i] == None
    ensures exists k: nat :: k <= |used| && IsFirstFree(base, k, used, fold) && username == Candidate(base, k)
  {
    hide Candidate, Lower, UsedBy, IsTried, TakenInTable;
    CandidateIs(base, 0);
    username := base;
    var counter := 1;
    ghost var tried: set<string> := {};
    NothingTried(base, fold);
    while Lower(username, fold) in used || TakenInTable(names, n, username)
      invariant counter >= 1 && username == Candidate(base, counter - 1)
      invariant forall j :: 0 <= j < counter - 1 ==> Lower(Candidate(base, j), fold) in used
      invariant IsTried(base, counter - 1, tried, fold)
      invariant |tried| == counter - 1 && tried <= used
      decreases |used| - |tried|
    {
      TableAddsNothing(names, n, username, fold);
      MoreTried(base, counter - 1, tried, fold);
      tried := tried + {Lower(username, fold)};
      SubsetIsSmaller(tried, used);
      var suffix := Suffix(counter);
      username := Prefix(base, MAX_NAME - |suffix|) + suffix;
      CandidateIs(base, counter);
      counter := counter + 1;
    }
    SubsetIsSmaller(tried, used);
    assert IsFirstFree(base, counter - 1, used, fold);
  }

  /** Fills the name column, user by user in the order of creation. */
  method PopulateUsernames(emails: seq<string>, column: array<Option<string>>, fold: CharMap)
    requires column.Length == |emails| && FixesSuffixes(fold)
    requires forall i :: 0 <= i < column.Length ==> column[i] == None
    modifies column
    ensures forall i :: 0 <= i < column.Length ==> Named(emails, column[..], i, fold)
    ensures forall i :: 0 <= i < column.Length ==> column[i].Some? && column[i].value != ""
    ensures forall i :: 0 <= i < column.Length && i < Power10(149) ==> |column[i].value| <= 150
    ensures forall i :: 0 <= i < column.Length && i < Power10(MAX_NAME - 1) ==> FollowsAddress(emails, column[..], i, fold)
    ensures DistinctNames(column[..], fold)
  {
    hide Base, Candidate, IsFirstFree, Power10, FollowsAddress;
    var used: set<string> := {};
    var n := 0;
    while n < |emails|
      invariant 0 <= n <= |emails|
      invariant forall i :: n <= i < column.Length ==> column[i] == None
      invariant used == UsedBy(column[..n], fold) && |used| == n
      invariant NamedUpTo(emails, column[..], n, fold)
    {
      ghost var before := column[..];
      assert before[..n] == column[..n];
      var base := Base(emails[n]);
      var username := FindFree(base, used, column[..], n, fold);
      ghost var attempts: nat :| attempts <= |used| && IsFirstFree(base, attempts, used, fold)
                                 && username == Candidate(base, attempts);
      column[n] := Some(username);
      OneMoreNamed(emails, before, n, attempts, fold);
      assert column[..] == before[n := Some(username)];
      assert column[..n + 1] == column[..][..n + 1];
      used := used + {Lower(username, fold)};
      n := n + 1;
    }
    assert column[..n] == column[..];
    forall i | 0 <= i < n
      ensures column[i].Some? && column[i].value != ""
      ensures i < Power10(MAX_NAME - 1) ==> |column[i].value| <= MAX_NAME && FollowsAddress(emails, column[..], i, fold) {
      assert Named(emails, column[..], i, fold);
      var k: nat :| k <= i && IsFirstFree(Base(emails[i]), k, UsedBy(column[..][..i], fold), fold)
                    && column[..][i] == Some(Candidate(Base(emails[i]), k));
      CandidateIsUsable(Base(emails[i]), k, i);
      if i < Power10(MAX_NAME - 1) {
        NamedFollowsAddress(emails, column[..], i, fold);
      }
    }
  }

  /** The first n rows are named, and named apart. */
  ghost predicate NamedUpTo(emails: seq<string>, names: seq<Option<string>>, n: nat, fold: CharMap)
    requires n <= |emails| == |names|
  {
    && (forall i :: 0 <= i < n ==> Named(emails, names, i, fold))
    && DistinctNames(names[..n], fold)
  }

  lemma OneMoreNamed(emails: seq<string>, names: seq<Option<string>>, n: nat, k: nat, fold: CharMap)
    requires n < |emails| == |names| && NamedUpTo(emails, names, n, fold)
    requires k <= n && IsFirstFree(Base(emails[n]), k, UsedBy(names[..n], fold), fold)
    requires |UsedBy(names[..n], fold)| == n
    ensures var name := Candidate(Base(emails[n]), k);
            var after := names[n := Some(name)];
            && NamedUpTo(emails, after, n + 1, fold)
            && UsedBy(after[..n + 1], fold) == UsedBy(names[..n], fold) + {Lower(name, fold)}
            && Lower(name, fold) !in UsedBy(names[..n], fold)
  {
    hide Base, Candidate;
    var name := Candidate(Base(emails[n]), k);
    var after := names[n := Some(name)];
    forall i | 0 <= i < n ensures Named(emails, after, i, fold) {
      assert Named(emails, names, i, fold);
      assert after[..i] == names[..i];
    }
    assert after[..n] == names[..n];
    assert after[..n + 1] == names[..n] + [Some(name)];
    UsedByOneMore(names[..n], name, fold);
    forall i | 0 <= i < n && names[i].Some? ensures Lower(names[i].value, fold) in UsedBy(names[..n], fold) {
      assert names[..n][i] == names[i];
    }
  }

  lemma UsedByOneMore(names: seq<Option<string>>, name: string, fold: CharMap)
    ensures UsedBy(names + [Some(name)], fold) == UsedBy(names, fold) + {Lower(name, fold)}
  {
    var longer := names + [Some(name)];
    forall x | x in UsedBy(names, fold) ensures x in UsedBy(longer, fold) {
      var i :| 0 <= i < |names| && names[i].Some? && Lower(names[i].value, fold) == x;
      assert longer[i] == names[i];
    }
    assert longer[|names|] == Some(name);
    assert Lower(name, fold) in UsedBy(longer, fold);
  }

  /** The table lookup never adds anything to the set of used names. */
  lemma TableAddsNothing(names: seq<Option<string>>, n: nat, name: string, fold: CharMap)
    requires n < |names| && forall i :: n <= i < |names| ==> names[i] == None
    ensures TakenInTable(names, n, name) ==> Lower(name, fold) in UsedBy(names[..n], fold)
  {
    if TakenInTable(names, n, name) {
      var i :| 0 <= i < |names| && i != n && names[i] == Some(name);
      assert names[..n][i] == Some(name);
    }
  }

  /** The names of the first k candidates. */
  ghost predicate IsTried(base: string, k: nat, tried: set<string>, fold: CharMap) {
    forall x :: x in tried <==> exists j :: 0 <= j < k && Lower(Candidate(base, j), fold) == x
  }

  lemma NothingTried(base: string, fold: CharMap)
    ensures IsTried(base, 0, {}, fold)
  {
  }

  lemma CandidateIs(base: string, k: nat)
    ensures Candidate(base, k) == if k == 0 then base else Prefix(base, MAX_NAME - |Suffix(k)|) + Suffix(k)
  {
  }

  lemma MoreTried(base: string, k: nat, tried: set<string>, fold: CharMap)
    requires 0 < |base| <= MAX_BASE && FixesSuffixes(fold) && IsTried(base, k, tried, fold)
    ensures Lower(Candidate(base, k), fold) !in tried
    ensures IsTried(base, k + 1, tried + {Lower(Candidate(base, k), fold)}, fold)
  {
    hide Candidate, Lower, FixesSuffixes;
    forall j | 0 <= j < k ensures Lower(Candidate(base, j), fold) != Lower(Candidate(base, k), fold) {
      CandidatesDiffer(base, j, k, fold);
    }
  }

  lemma CandidateIsUsable(base: string, k: nat, i: nat)
    requires 0 < |base| <= MAX_BASE && k <= i
    ensures Candidate(base, k) != ""
    ensures i < Power10(MAX_NAME - 1) ==> |Candidate(base, k)| <= MAX_NAME
  {
    hide Candidate, Power10;
    if k < Power10(MAX_NAME - 1) {
      CandidateFits(base, k);
    } else {
      CandidateIsNotEmpty(base, k);
    }
  }

  lemma CandidateIsNotEmpty(base: string, k: nat)
    requires base != ""
    ensures Candidate(base, k) != ""
  {
  }
}
