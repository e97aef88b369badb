/** When numbered candidates coincide, and how many names the bounded allocator can try. */
module UsernameCollisions {
  import opened Values
  import opened Usernames
  import opened UsernameAllocators

  /** All attempts try different names. */
  ghost predicate AllDiffer(base: string) {
    forall i, j :: 0 <= i < j < ATTEMPTS ==> Fold(Tried(base, i)) != Fold(Tried(base, j))
  }

  /** A nonzero digit where the base is cut off for a suffix of two to four digits, or, for
      an uncut base, a last digit that a suffix of one digit puts back. */
  predicate CanCoincide(base: string) {
    || (exists i :: 46 <= i < 49 && i < |base| && '1' <= base[i] <= '9')
    || (|base| == 50 && '2' <= base[49] <= '9')
  }

  // ----- Decimal texts -----

  lemma {:induction false} LeadingDigit(n: nat)
    requires n >= 1
    ensures '1' <= Decimal(n)[0] <= '9'
    ensures n < 10 ==> Decimal(n) == [Digit(n)]
  {
    if n >= 10 {
      LeadingDigit(n / 10);
    }
  }

  lemma Tens(c: nat, p: nat, n: nat)
    ensures (c * (10 * p) + n) / 10 == c * p + n / 10 && (c * (10 * p) + n) % 10 == n % 10
  {
    assert c * (10 * p) + n == 10 * (c * p + n / 10) + n % 10;
  }

  /** A digit written before a number. */
  lemma {:induction false} DecimalJoined(c: nat, n: nat)
    requires 1 <= c < 10
    ensures Decimal(c * Pow10(|Decimal(n)|) + n) == [Digit(c)] + Decimal(n)
  {
    var d := |Decimal(n)|;
    Tens(c, Pow10(d - 1), n);
    assert Pow10(d) == 10 * Pow10(d - 1);
    Product(c, Pow10(d - 1));
    if n < 10 {
      assert Pow10(0) == 1;
      LeadingDigit(c);
    } else {
      DecimalJoined(c, n / 10);
    }
  }

  lemma Product(c: nat, p: nat)
    requires c >= 1 && p >= 1
    ensures c * (10 * p) >= 10
  {
    assert c * (10 * p) == 10 * (c * p);
  }

  /** The number of digits of the suffix of an attempt. */
  lemma SuffixLength(j: nat)
    requires 0 < j < ATTEMPTS
    ensures 1 <= |Decimal(j + 1)| <= 4
    ensures |Decimal(j + 1)| == if j < 9 then 1 else if j < 99 then 2 else if j < 999 then 3 else 4
  {
    FivePowers();
    assert Pow10(1) == 10 && Pow10(2) == 100;
    DecimalLength(j + 1, 1);
    DecimalLength(j + 1, 2);
    DecimalLength(j + 1, 3);
    DecimalLength(j + 1, 4);
  }

  // ----- Exactly when all names differ -----

  lemma SameLengthDiffer(base: string, i: nat, j: nat)
    requires 0 < i < j < ATTEMPTS && |Decimal(i + 1)| == |Decimal(j + 1)|
    ensures Fold(Tried(base, i)) != Fold(Tried(base, j))
  {
    CandidatesDiffer(base, i + 1, j + 1);
  }

  /** A shorter suffix gives the same name only where the base has a nonzero digit at the cut. */
  lemma LongerSuffix(base: string, i: nat, j: nat)
    requires |base| <= MAX_LENGTH && i < j < ATTEMPTS
    requires i == 0 || |Decimal(i + 1)| < |Decimal(j + 1)|
    requires Fold(Tried(base, i)) == Fold(Tried(base, j))
    ensures CanCoincide(base)
  {
    var a, b := Tried(base, i), Tried(base, j);
    SuffixLength(j);
    if i > 0 {
      SuffixLength(i);
    }
    var cut := MAX_LENGTH - |Decimal(j + 1)|;
    assert |a| == |Fold(a)| == |Fold(b)| == |b|;
    assert cut < |base| && b[cut] == Decimal(j + 1)[0] && a[cut] == base[cut];
    LeadingDigit(j + 1);
    assert Lower(a[cut]) == Fold(a)[cut] == Fold(b)[cut] == Lower(b[cut]);
    assert base[cut] == Decimal(j + 1)[0];
    if cut == 49 {
      assert i == 0 && |base| == 50;
    }
  }

  /** With a digit at the cut, a suffix and the same suffix after that digit give one name. */
  lemma CoincideAt(base: string, p: nat, c: nat, n: nat)
    requires |base| <= MAX_LENGTH && 1 <= c < 10 && 46 <= p < 49 && p < |base| && base[p] == Digit(c)
    requires |Decimal(n)| == 49 - p
    ensures Candidate(base, n) == Candidate(base, c * Pow10(49 - p) + n)
  {
    DecimalJoined(c, n);
    assert base[..p + 1] == base[..p] + [base[p]];
    assert Candidate(base, n) == base[..p + 1] + Decimal(n);
    assert Candidate(base, c * Pow10(49 - p) + n) == base[..p] + ([Digit(c)] + Decimal(n));
  }

  lemma DigitAt(x: char) returns (c: nat)
    requires '0' <= x <= '9'
    ensures c < 10 && x == Digit(c) && (x >= '1' ==> c >= 1) && (x >= '2' ==> c >= 2)
  {
    c := x as int - '0' as int;
  }

  lemma SmallLengths()
    ensures |Decimal(2)| == 1 && |Decimal(20)| == 2 && |Decimal(200)| == 3
    ensures Pow10(1) == 10 && Pow10(2) == 100 && Pow10(3) == 1000
  {
    SuffixLength(1);
    SuffixLength(19);
    SuffixLength(199);
    FivePowers();
    assert Pow10(1) == 10 && Pow10(2) == 100;
  }

  lemma CutCoincides(base: string, p: nat) returns (i: nat, j: nat)
    requires |base| <= MAX_LENGTH && 46 <= p < 49 && p < |base| && '1' <= base[p] <= '9'
    ensures i < j < ATTEMPTS && Tried(base, i) == Tried(base, j)
  {
    hide Candidate, Decimal;
    SmallLengths();
    var c := DigitAt(base[p]);
    var n := if p == 48 then 2 else if p == 47 then 20 else 200;
    CoincideAt(base, p, c, n);
    i, j := n - 1, c * Pow10(49 - p) + n - 1;
  }

  lemma LastCoincides(base: string) returns (j: nat)
    requires |base| == MAX_LENGTH && '2' <= base[49] <= '9'
    ensures 0 < j < ATTEMPTS && Tried(base, 0) == Tried(base, j)
  {
    var c := DigitAt(base[49]);
    LeadingDigit(c);
    j := c - 1;
    assert base == base[..49] + [base[49]];
  }

  lemma CoincidenceExists(base: string) returns (i: nat, j: nat)
    requires |base| <= MAX_LENGTH && CanCoincide(base)
    ensures i < j < ATTEMPTS && Tried(base, i) == Tried(base, j)
  {
    if p :| 46 <= p < 49 && p < |base| && '1' <= base[p] <= '9' {
      i, j := CutCoincides(base, p);
    } else {
      i := 0;
      j := LastCoincides(base);
    }
  }

  /** The attempts try pairwise different names exactly when the base, as it is before the
      first attempt, has no such digit. */
  lemma AttemptsDifferExactly(base: string)
    requires |base| <= MAX_LENGTH
    ensures AllDiffer(base) <==> !CanCoincide(base)
  {
    if CanCoincide(base) {
      var i, j := CoincidenceExists(base);
      assert Fold(Tried(base, i)) == Fold(Tried(base, j));
    } else {
      forall i, j | 0 <= i < j < ATTEMPTS ensures Fold(Tried(base, i)) != Fold(Tried(base, j)) {
        SuffixLength(j);
        if i > 0 {
          SuffixLength(i);
        }
        if i > 0 && |Decimal(i + 1)| == |Decimal(j + 1)| {
          SameLengthDiffer(base, i, j);
        } else if Fold(Tried(base, i)) == Fold(Tried(base, j)) {
          LongerSuffix(base, i, j);
        }
      }
    }
  }

  // ----- How many names there are -----

  /** The names of the attempts from `lo` up to `hi`. */
  ghost function NamesOf(base: string, lo: nat, hi: nat): set<string> {
    set k: nat | lo <= k < hi :: Fold(Tried(base, k))
  }

  ghost function TriedNames(base: string): set<string> {
    NamesOf(base, 0, ATTEMPTS)
  }

  /** So many attempts try at most so many names. */
  lemma {:induction false} NamesAtMost(base: string, lo: nat, hi: nat)
    requires lo <= hi
    ensures |NamesOf(base, lo, hi)| <= hi - lo
    decreases hi
  {
    if lo < hi {
      NamesAtMost(base, lo, hi - 1);
      assert NamesOf(base, lo, hi) == NamesOf(base, lo, hi - 1) + {Fold(Tried(base, hi - 1))};
    } else {
      assert NamesOf(base, lo, hi) == {};
    }
  }

  lemma NamesAreBounded(base: string)
    ensures 9000 <= |TriedNames(base)| <= ATTEMPTS
  {
    var names := TriedNames(base);
    forall j: nat | j < ATTEMPTS ensures Fold(Tried(base, j)) in names {}
    ExhaustionNeedsManyNames(base, names);
    NamesAtMost(base, 0, ATTEMPTS);
  }

  lemma CoincidenceCosts(base: string, i: nat, j: nat)
    requires i < j < ATTEMPTS && Tried(base, i) == Tried(base, j)
    ensures |TriedNames(base)| < ATTEMPTS
  {
    var front, back := NamesOf(base, 0, j), NamesOf(base, j + 1, ATTEMPTS);
    assert Fold(Tried(base, i)) in front;
    assert TriedNames(base) == front + back;
    NamesAtMost(base, 0, j);
    NamesAtMost(base, j + 1, ATTEMPTS);
  }

  /** There are as many names as attempts exactly without such a digit, and never fewer than
      9000. */
  lemma NamesAreCounted(base: string)
    requires |base| <= MAX_LENGTH
    ensures 9000 <= |TriedNames(base)| <= ATTEMPTS
    ensures |TriedNames(base)| == ATTEMPTS <==> !CanCoincide(base)
  {
    NamesAreBounded(base);
    if CanCoincide(base) {
      var i, j := CoincidenceExists(base);
      CoincidenceCosts(base, i, j);
    } else {
      AttemptsDifferExactly(base);
      Pigeonhole((k: nat) => Fold(Tried(base, k)), 0, ATTEMPTS, TriedNames(base));
    }
  }

  // ----- The least number is reached -----

  lemma FourDigits(stem: string)
    requires |stem| == 46
    ensures Tried(stem + "1112", 1111) == stem + "1112"
  {
    assert Decimal(11) == "11" && Decimal(111) == "111" && Decimal(1112) == "1112";
    assert (stem + "1112")[..46] == stem;
  }

  lemma RepeatsLonger(stem: string, j: nat)
    requires |stem| == 46 && 0 < j < 999
    ensures var k := j + Pow10(|Decimal(j + 1)|);
            j < k < ATTEMPTS && Tried(stem + "1112", j) == Tried(stem + "1112", k)
  {
    hide Candidate, Decimal;
    var base := stem + "1112";
    var d := |Decimal(j + 1)|;
    SuffixLength(j);
    SmallLengths();
    assert base[49 - d] == '1' == Digit(1);
    CoincideAt(base, 49 - d, 1, j + 1);
  }

  /** Every shorter suffix only repeats a name of four digits. */
  lemma {:induction false} RepeatsFourDigits(stem: string, j: nat) returns (k: nat)
    requires |stem| == 46 && 0 < j < ATTEMPTS
    ensures 999 <= k < ATTEMPTS && Tried(stem + "1112", j) == Tried(stem + "1112", k)
    decreases ATTEMPTS - j
  {
    k := j;
    if j < 999 {
      RepeatsLonger(stem, j);
      k := RepeatsFourDigits(stem, j + Pow10(|Decimal(j + 1)|));
    }
  }

  /** For such a base the 9999 attempts try exactly 9000 names. */
  lemma NineThousandIsReached(stem: string)
    requires |stem| == 46
    ensures |TriedNames(stem + "1112")| == 9000
  {
    var base := stem + "1112";
    NamesAreBounded(base);
    FourDigits(stem);
    forall j: nat | j < ATTEMPTS ensures Fold(Tried(base, j)) in NamesOf(base, 999, ATTEMPTS) {
      if j > 0 {
        var k := RepeatsFourDigits(stem, j);
      }
    }
    NamesAtMost(base, 999, ATTEMPTS);
    SubsetSize(TriedNames(base), NamesOf(base, 999, ATTEMPTS));
  }

  // ----- Such bases come from addresses -----

  lemma {:induction false} LocalPartOf(u: string, domain: string)
    requires '@' !in u
    ensures LocalPart(u + "@" + domain) == u
  {
    if u != "" {
      assert (u + "@" + domain)[1..] == u[1..] + "@" + domain;
      LocalPartOf(u[1..], domain);
    }
  }

  lemma {:induction false} KeepAll(s: string, p: char -> bool)
    requires forall i :: 0 <= i < |s| ==> p(s[i])
    ensures Keep(s, p) == s
  {
    if s != "" {
      KeepAll(s[1..], p);
    }
  }

  /** A username that ends in no mark is the base of its own address. */
  lemma OwnBase(u: string, domain: string)
    requires IsUsername(u) && !IsMark(u[|u| - 1])
    ensures UsernameBase(u + "@" + domain) == u
  {
    assert '@' !in u by {
      assert forall i :: 0 <= i < |u| ==> IsLegal(u[i]);
    }
    LocalPartOf(u, domain);
    KeepAll(u, IsLegal);
  }

  /** 9000 accounts can keep an address from getting a username at all. */
  lemma NineThousandExhaust(stem: string, domain: string)
    requires |stem| == 46 && forall i :: 0 <= i < 46 ==> IsLetter(stem[i])
    ensures var email := stem + "1112" + "@" + domain;
            |TriedNames(UsernameBase(email))| == 9000
            && forall j: nat :: j < ATTEMPTS ==> Fold(Tried(UsernameBase(email), j)) in TriedNames(UsernameBase(email))
  {
    OwnBase(stem + "1112", domain);
    NineThousandIsReached(stem);
  }
}
