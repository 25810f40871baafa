/** Object names derived from run, runner and suite names. The hash of a name
    (the first 8 hexadecimal digits of a SHA-256 digest) is a parameter here. */
module Names {
  import opened Types

  const HASH_LENGTH := 8
  const MAX_NAME := 63
  const MAX_JOB_NAME := 57

  ghost predicate IsHash(hash: string -> string) {
    forall s :: |hash(s)| == HASH_LENGTH
  }

  /** The part of a truncated name that replaces the tail of a long one. */
  function Shortened(hash: string -> string, name: string, maxLen: int): string
    requires HASH_LENGTH + 1 <= maxLen < |name|
  {
    name[..maxLen - (HASH_LENGTH + 1)] + "-" + hash(name)
  }

  /** None stands for the slice bounds panic the program runs into when a long name
      has to fit in fewer than 9 characters. */
  function TruncateName(hash: string -> string, name: string, maxLen: int): Option<string> {
    if |name| <= maxLen then Some(name)
    else if maxLen < HASH_LENGTH + 1 then None
    else Some(Shortened(hash, name, maxLen))
  }

  lemma TruncateNameFits(hash: string -> string, name: string, maxLen: int)
    requires IsHash(hash)
    ensures TruncateName(hash, name, maxLen).Some? <==> |name| <= maxLen || maxLen >= HASH_LENGTH + 1
    ensures TruncateName(hash, name, maxLen).Some? ==> |TruncateName(hash, name, maxLen).value| <= maxLen
    ensures TruncateName(hash, name, maxLen) == Some(name) <==>
      |name| <= maxLen || (maxLen >= HASH_LENGTH + 1 && Shortened(hash, name, maxLen) == name)
  {
  }

  /** Two names collide through the hash: both were shortened to the same prefix and
      digest, or one is short and happens to spell the other's shortened form. */
  ghost predicate HashCoincidence(hash: string -> string, a: string, b: string, maxLen: int)
    requires maxLen >= HASH_LENGTH + 1
  {
    || (|a| > maxLen && |b| > maxLen && hash(a) == hash(b)
        && a[..maxLen - (HASH_LENGTH + 1)] == b[..maxLen - (HASH_LENGTH + 1)])
    || (|a| <= maxLen < |b| && a == Shortened(hash, b, maxLen))
    || (|b| <= maxLen < |a| && b == Shortened(hash, a, maxLen))
  }

  lemma TruncateNameInjective(hash: string -> string, a: string, b: string, maxLen: int)
    requires IsHash(hash) && maxLen >= HASH_LENGTH + 1 && a != b
    ensures TruncateName(hash, a, maxLen) == TruncateName(hash, b, maxLen) <==> HashCoincidence(hash, a, b, maxLen)
  {
    if |a| > maxLen && |b| > maxLen {
      var p := maxLen - (HASH_LENGTH + 1);
      var sa, sb := Shortened(hash, a, maxLen), Shortened(hash, b, maxLen);
      assert sa[..p] == a[..p] && sb[..p] == b[..p];
      assert sa[p + 1..] == hash(a) && sb[p + 1..] == hash(b);
    }
  }

  function JobName(hash: string -> string, run: string, runner: string): Option<string> {
    TruncateName(hash, run + "-" + runner, MAX_JOB_NAME)
  }

  lemma PrefixedNamesDiffer(prefix: string, a: string, b: string)
    requires a != b
    ensures prefix + a != prefix + b
  {
    assert (prefix + a)[|prefix|..] == a && (prefix + b)[|prefix|..] == b;
  }

  /** Within one run, distinct runners own distinct Jobs unless the hash coincides. */
  lemma JobNamesDistinct(hash: string -> string, run: string, r1: string, r2: string)
    requires IsHash(hash) && r1 != r2
    ensures JobName(hash, run, r1) == JobName(hash, run, r2) <==>
      HashCoincidence(hash, run + "-" + r1, run + "-" + r2, MAX_JOB_NAME)
  {
    PrefixedNamesDiffer(run + "-", r1, r2);
    TruncateNameInjective(hash, run + "-" + r1, run + "-" + r2, MAX_JOB_NAME);
  }

  // ------------------------------------------------------- scheduled run names

  function Digit(d: int): char
    requires 0 <= d < 10
  {
    "0123456789"[d]
  }

  function DecimalNat(n: nat): (s: string)
    ensures |s| > 0 && '0' <= s[0] <= '9'
  {
    if n < 10 then [Digit(n)] else DecimalNat(n / 10) + [Digit(n % 10)]
  }

  /** The %d rendering of a Unix timestamp. */
  function Decimal(n: int): string {
    if n < 0 then "-" + DecimalNat(-n) else DecimalNat(n)
  }

  /** What a string of decimal digits stands for. */
  function ValueOf(digits: string): int {
    if |digits| == 0 then 0
    else 10 * ValueOf(digits[..|digits| - 1]) + (digits[|digits| - 1] as int - '0' as int)
  }

  /** The rendering reads back as the number, in digits and without a leading zero. */
  lemma {:induction false} DecimalReadsBack(n: nat)
    ensures ValueOf(DecimalNat(n)) == n
    ensures forall i :: 0 <= i < |DecimalNat(n)| ==> '0' <= DecimalNat(n)[i] <= '9'
    ensures n > 0 ==> DecimalNat(n)[0] != '0'
  {
    var s := DecimalNat(n);
    DigitValue(n % 10);
    assert s[|s| - 1] == Digit(n % 10);
    if n >= 10 {
      DecimalReadsBack(n / 10);
      assert s[..|s| - 1] == DecimalNat(n / 10);
    } else {
      assert ValueOf(s[..0]) == 0;
    }
  }

  lemma DigitValue(d: int)
    requires 0 <= d < 10
    ensures '0' <= Digit(d) <= '9' && Digit(d) as int - '0' as int == d
  {
  }

  lemma DecimalNatInjective(a: nat, b: nat)
    requires DecimalNat(a) == DecimalNat(b)
    ensures a == b
  {
    hide DecimalNat, ValueOf;
    DecimalReadsBack(a);
    DecimalReadsBack(b);
  }

  lemma DecimalInjective(a: int, b: int)
    requires Decimal(a) == Decimal(b)
    ensures a == b
  {
    if a < 0 && b < 0 {
      assert Decimal(a)[1..] == DecimalNat(-a) && Decimal(b)[1..] == DecimalNat(-b);
      DecimalNatInjective(-a, -b);
    } else if a >= 0 && b >= 0 {
      DecimalNatInjective(a, b);
    }
  }

  /** Seconds since the epoch, rounded towards the past as Go's Time.Unix does. */
  function Unix(t: int): int {
    t / SECOND
  }

  function FullTickName(suite: string, tick: int): string {
    suite + "-" + Decimal(Unix(tick))
  }

  function TickName(hash: string -> string, suite: string, tick: int): string
  {
    TruncateName(hash, FullTickName(suite, tick), MAX_NAME).value
  }

  function FullManualName(hash: string -> string, suite: string, trigger: string): string {
    suite + "-manual-" + hash(trigger)
  }

  function ManualName(hash: string -> string, suite: string, trigger: string): string
  {
    TruncateName(hash, FullManualName(hash, suite, trigger), MAX_NAME).value
  }

  /** `name` as it is if it fits, and otherwise its beginning, a dash and its hash. */
  ghost predicate Fitted(hash: string -> string, full: string, maxLen: int, name: string)
    requires maxLen >= 9
  {
    && |name| <= maxLen
    && (|full| <= maxLen ==> name == full)
    && (|full| > maxLen ==> name == full[..maxLen - 9] + "-" + hash(full))
  }

  /** Jobs are named after run and runner in at most 57 characters; runs after suite and
      tick, in seconds, or after suite and hashed trigger in at most 63. */
  lemma DerivedNames(hash: string -> string, run: string, runner: string, suite: string, tick: int, trigger: string)
    requires IsHash(hash)
    ensures JobName(hash, run, runner).Some? && Fitted(hash, run + "-" + runner, 57, JobName(hash, run, runner).value)
    ensures Fitted(hash, suite + "-" + Decimal(tick / 1_000_000_000), 63, TickName(hash, suite, tick))
    ensures Fitted(hash, suite + "-manual-" + hash(trigger), 63, ManualName(hash, suite, trigger))
  {
  }

  /** A short enough name of a tick's run ends in the second the tick is in, in plain digits. */
  lemma TickNameReadsBack(hash: string -> string, suite: string, tick: int)
    requires tick >= 0 && |suite| + 1 + |Decimal(tick / 1_000_000_000)| <= 63
    ensures var name := TickName(hash, suite, tick); var second := ValueOf(name[|suite| + 1..]);
      name[..|suite|] == suite && second * 1_000_000_000 <= tick < (second + 1) * 1_000_000_000
  {
    DecimalReadsBack(Unix(tick));
    assert TickName(hash, suite, tick) == FullTickName(suite, tick);
    assert FullTickName(suite, tick)[|suite| + 1..] == DecimalNat(Unix(tick));
  }

  /** Ticks are whole seconds, so distinct ticks of one suite name distinct runs
      unless the hash coincides. */
  lemma TickNamesDistinct(hash: string -> string, suite: string, t1: int, t2: int)
    requires IsHash(hash) && t1 != t2 && t1 % SECOND == 0 && t2 % SECOND == 0
    ensures TickName(hash, suite, t1) == TickName(hash, suite, t2) <==>
      HashCoincidence(hash, FullTickName(suite, t1), FullTickName(suite, t2), MAX_NAME)
  {
    if Decimal(Unix(t1)) == Decimal(Unix(t2)) {
      DecimalInjective(Unix(t1), Unix(t2));
      assert false;
    }
    PrefixedNamesDiffer(suite + "-", Decimal(Unix(t1)), Decimal(Unix(t2)));
    TruncateNameInjective(hash, FullTickName(suite, t1), FullTickName(suite, t2), MAX_NAME);
  }

  /** A manual run never takes a scheduled run's name unless the hash coincides. */
  lemma ManualNamesDistinct(hash: string -> string, suite: string, trigger: string, tick: int)
    requires IsHash(hash)
    ensures ManualName(hash, suite, trigger) == TickName(hash, suite, tick) <==>
      HashCoincidence(hash, FullManualName(hash, suite, trigger), FullTickName(suite, tick), MAX_NAME)
  {
    var m, t := FullManualName(hash, suite, trigger), FullTickName(suite, tick);
    assert m[|suite| + 1] == 'm';
    assert t[|suite| + 1] == Decimal(Unix(tick))[0];
    assert m != t;
    TruncateNameInjective(hash, m, t, MAX_NAME);
  }

  /** Two triggers of one suite name the same run exactly when their hashes agree, or a long
      name's does coincide. */
  lemma ManualNamesShared(hash: string -> string, suite: string, a: string, b: string)
    requires IsHash(hash)
    ensures ManualName(hash, suite, a) == ManualName(hash, suite, b) <==>
      hash(a) == hash(b) || HashCoincidence(hash, FullManualName(hash, suite, a), FullManualName(hash, suite, b), MAX_NAME)
  {
    if hash(a) != hash(b) {
      PrefixedNamesDiffer(suite + "-manual-", hash(a), hash(b));
      TruncateNameInjective(hash, FullManualName(hash, suite, a), FullManualName(hash, suite, b), MAX_NAME);
    }
  }
}
