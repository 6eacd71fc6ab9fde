/**
 * Shared vocabulary of the recorder model: optional values and results for
 * the source's nulls and exceptions, the string helpers the Java code gets
 * from java.lang.String, the (id, type, url) triples the browser reports for
 * its targets, and the running statistics kept by the capture and session
 * components.
 */
module Common {

  datatype Option<T> = None | Some(value: T)

  /** A value or the message of the exception the source would throw. */
  datatype Result<T> = Ok(value: T) | Err(message: string)

  function Min(a: int, b: int): int { if a <= b then a else b }
  function Max(a: int, b: int): int { if a >= b then a else b }

  // ---------------------------------------------------------------------
  // Strings (java.lang.String, ASCII letters only)
  // ---------------------------------------------------------------------

  function LowerChar(c: char): (r: char)
    ensures 'A' <= c <= 'Z' ==> r as int == c as int + 32
    ensures !('A' <= c <= 'Z') ==> r == c
  {
    if 'A' <= c <= 'Z' then (c as int + 32) as char else c
  }

  /** String.toLowerCase, for ASCII letters. */
  function ToLower(s: string): (r: string)
    ensures |r| == |s|
    ensures forall i :: 0 <= i < |s| ==> r[i] == LowerChar(s[i])
  {
    if s == [] then [] else [LowerChar(s[0])] + ToLower(s[1..])
  }

  lemma {:induction false} ToLowerIdempotent(s: string)
    ensures ToLower(ToLower(s)) == ToLower(s)
  {
    var once := ToLower(s);
    assert forall i :: 0 <= i < |s| ==> ToLower(once)[i] == LowerChar(LowerChar(s[i]));
  }

  /** String.equalsIgnoreCase, for ASCII letters. */
  predicate EqualsIgnoreCase(a: string, b: string)
  {
    ToLower(a) == ToLower(b)
  }

  /** `needle` occurs in `s` starting at position `i`. */
  predicate OccursAt(s: string, needle: string, i: int)
  {
    0 <= i && i + |needle| <= |s| && s[i..i + |needle|] == needle
  }

  /** String.contains. */
  predicate Contains(s: string, needle: string)
  {
    exists i | 0 <= i <= |s| - |needle| :: OccursAt(s, needle, i)
  }

  /** String.replace(char, char), applied to every occurrence. */
  function ReplaceChar(s: string, from: char, to: char): (r: string)
    ensures |r| == |s|
    ensures forall i {:trigger r[i]} :: 0 <= i < |s| ==> r[i] == (if s[i] == from then to else s[i])
  {
    if s == [] then [] else [if s[0] == from then to else s[0]] + ReplaceChar(s[1..], from, to)
  }

  /** Replacing distributes over concatenation. */
  lemma ReplaceCharConcat(a: string, b: string, from: char, to: char)
    ensures ReplaceChar(a + b, from, to) == ReplaceChar(a, from, to) + ReplaceChar(b, from, to)
  {
    var r := ReplaceChar(a + b, from, to);
    var e := ReplaceChar(a, from, to) + ReplaceChar(b, from, to);
    forall i | 0 <= i < |r|
      ensures r[i] == e[i]
    {
      if i < |a| {
        assert (a + b)[i] == a[i];
      } else {
        assert (a + b)[i] == b[i - |a|];
      }
    }
  }

  /** A string without the replaced character is left as it is. */
  lemma ReplaceCharAbsent(s: string, from: char, to: char)
    requires forall i :: 0 <= i < |s| ==> s[i] != from
    ensures ReplaceChar(s, from, to) == s
  {
    var r := ReplaceChar(s, from, to);
    assert forall i :: 0 <= i < |s| ==> r[i] == s[i];
  }

  predicate IsDigit(ch: char)
  {
    '0' <= ch <= '9'
  }

  /** String.valueOf for a non-negative int: the shortest decimal text. */
  function NatToString(n: nat): (s: string)
    ensures |s| >= 1
    ensures forall i :: 0 <= i < |s| ==> IsDigit(s[i])
    ensures |s| > 1 ==> s[0] != '0'
  {
    if n < 10 then [('0' as int + n) as char]
    else NatToString(n / 10) + [('0' as int + n % 10) as char]
  }

  // ---------------------------------------------------------------------
  // Browser targets
  // ---------------------------------------------------------------------

  /** One entry of the browser's target list: id, type ("page", ...) and URL. */
  datatype TargetInfo = TargetInfo(id: string, kind: string, url: string)

  /** An opaque instrumentation (DevTools) handle. */
  type Handle = nat

  // ---------------------------------------------------------------------
  // Running statistics (replaced as a whole value on every update)
  // ---------------------------------------------------------------------

  /**
   * Attempt statistics: how many attempts, how many succeeded, the longest
   * duration and the sum of durations. The source keeps a running average
   * instead of the sum; Average below is that average.
   */
  datatype Stats = Stats(total: nat, successful: nat, maxTime: int, sumTime: int)

  const EmptyStats := Stats(0, 0, 0, 0)

  /** One update: one more attempt, one more success iff `success`, a running max. */
  function Record(s: Stats, duration: int, success: bool): (r: Stats)
    ensures r.total == s.total + 1
    ensures r.successful == s.successful + 1 <==> success
    ensures r.successful <= s.successful + 1 && r.successful >= s.successful
    ensures r.maxTime >= duration && r.maxTime >= s.maxTime
    ensures r.maxTime == duration || r.maxTime == s.maxTime
    ensures s.successful <= s.total ==> r.successful <= r.total
    ensures Average(r) * r.total as real == s.sumTime as real + duration as real
  {
    Stats(s.total + 1,
          if success then s.successful + 1 else s.successful,
          if duration > s.maxTime then duration else s.maxTime,
          s.sumTime + duration)
  }

  function Average(s: Stats): real
  {
    if s.total == 0 then 0.0 else s.sumTime as real / s.total as real
  }

  /** getSuccessRate of both statistics classes: successes as a percentage of attempts, 0 with none. */
  function SuccessRate(s: Stats): real
  {
    if s.total > 0 then s.successful as real / s.total as real * 100.0 else 0.0
  }

  /** The success rate is a percentage: 100 when every attempt succeeded, 0 when none did. */
  lemma SuccessRateBounds(s: Stats)
    requires s.successful <= s.total
    ensures 0.0 <= SuccessRate(s) <= 100.0
    ensures s.total > 0 && s.successful == s.total ==> SuccessRate(s) == 100.0
    ensures s.successful == 0 ==> SuccessRate(s) == 0.0
  {
    if s.total > 0 {
      var t := s.total as real;
      var q := s.successful as real / t;
      assert q * t == s.successful as real <= t;
      assert (1.0 - q) * t >= 0.0;
      if s.successful == s.total {
        assert q == 1.0;
      }
    }
  }

  /**
   * The source keeps the average incrementally, as
   * (average * total + duration) / (total + 1); in exact arithmetic that is
   * the sum of durations divided by the count.
   */
  lemma RunningAverageIsMean(s: Stats, duration: int, success: bool)
    requires s.total == 0 ==> s.sumTime == 0
    ensures Average(Record(s, duration, success))
         == (Average(s) * s.total as real + duration as real) / (s.total as real + 1.0)
  {
    if s.total > 0 {
      calc {
        Average(s) * s.total as real;
        (s.sumTime as real / s.total as real) * s.total as real;
        s.sumTime as real;
      }
    }
    assert Record(s, duration, success).sumTime as real == s.sumTime as real + duration as real;
  }
}
