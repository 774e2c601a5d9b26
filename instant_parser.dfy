/**
 * The hand-written identifier scanner of the Instant parser: an
 * identifier is a non-empty run of ASCII letters, digits and `_` that
 * does not begin with a digit. The scanner returns the unread rest of the
 * input and the identifier, or the custom error 6 at the start of input.
 */
module InstantParser {
  /** Nom's result: `Done(rest, output)` or an error at a position of the input. */
  datatype IResult = Done(rest: string, out: string) | Error(kind: nat, at: string)

  /** The custom error code the scanner reports. */
  const IdentError: nat := 6

  predicate IsDigit(c: char)
  {
    '0' <= c <= '9'
  }

  /** Nom's `is_alphanumeric` on a byte, or an underscore. */
  predicate IsIdentChar(c: char)
  {
    'a' <= c <= 'z' || 'A' <= c <= 'Z' || IsDigit(c) || c == '_'
  }

  /** A character that may begin an identifier. */
  predicate IsIdentStart(c: char)
  {
    IsIdentChar(c) && !IsDigit(c)
  }

  /** The length of the longest prefix made of identifier characters. */
  function RunLength(s: string): (n: nat)
    ensures n <= |s|
    decreases |s|
  {
    if |s| == 0 || !IsIdentChar(s[0]) then 0 else 1 + RunLength(s[1..])
  }

  /** What the scanner returns for an input. */
  function ScanIdent(s: string): IResult
  {
    if |s| == 0 || !IsIdentStart(s[0]) then Error(IdentError, s)
    else Done(s[RunLength(s)..], s[..RunLength(s)])
  }

  /** A whole identifier. */
  predicate ValidIdent(x: string)
  {
    |x| > 0 && IsIdentStart(x[0]) && forall i :: 0 <= i < |x| ==> IsIdentChar(x[i])
  }

  /** The run is the longest prefix of identifier characters: all of it qualifies and what follows does not. */
  lemma {:induction false} RunLengthSpec(s: string)
    ensures forall i :: 0 <= i < RunLength(s) ==> IsIdentChar(s[i])
    ensures RunLength(s) < |s| ==> !IsIdentChar(s[RunLength(s)])
    decreases |s|
  {
    if |s| > 0 && IsIdentChar(s[0]) {
      RunLengthSpec(s[1..]);
      forall i | 0 <= i < RunLength(s)
        ensures IsIdentChar(s[i])
      {
        if i > 0 {
          assert s[i] == s[1..][i - 1];
        }
      }
    }
  }

  /**
   * `_identifier`: empty input and an input whose first character is a
   * digit or not an identifier character are errors at the start; otherwise
   * the scan stops at the first character that is not an identifier
   * character, or consumes everything.
   */
  method Identifier(input: string) returns (r: IResult)
    ensures r == ScanIdent(input)
    ensures r.Error? <==> |input| == 0 || !IsIdentStart(input[0])
    ensures r.Error? ==> r.kind == IdentError && r.at == input
    ensures r.Done? ==> r.out + r.rest == input && |r.out| > 0 && ValidIdent(r.out) &&
                        (|r.rest| == 0 || !IsIdentChar(r.rest[0]))
  {
    RunLengthSpec(input);
    if |input| == 0 {
      return Error(IdentError, input);
    }
    var idx := 0;
    while idx < |input|
      invariant 0 <= idx <= |input|
      invariant idx == 0 || IsIdentStart(input[0])
      invariant forall i :: 0 <= i < idx ==> IsIdentChar(input[i])
    {
      var c := input[idx];
      if !IsIdentChar(c) || (IsDigit(c) && idx == 0) {
        if idx == 0 {
          return Error(IdentError, input);
        } else {
          RunLengthIsFirstStop(input, idx);
          assert input[..idx] + input[idx..] == input;
          return Done(input[idx..], input[..idx]);
        }
      }
      idx := idx + 1;
    }
    RunLengthIsFirstStop(input, |input|);
    assert input[..|input|] == input;
    return Done(input[|input|..], input);
  }

  /** Where the first non-identifier character sits, the run ends. */
  lemma {:induction false} RunLengthIsFirstStop(s: string, k: nat)
    requires k <= |s|
    requires forall i :: 0 <= i < k ==> IsIdentChar(s[i])
    requires k < |s| ==> !IsIdentChar(s[k])
    ensures RunLength(s) == k
    decreases |s|
  {
    if k > 0 {
      assert IsIdentChar(s[0]);
      forall i | 0 <= i < k - 1
        ensures IsIdentChar(s[1..][i])
      {
        assert s[1..][i] == s[i + 1];
      }
      if k - 1 < |s[1..]| {
        assert s[1..][k - 1] == s[k];
      }
      RunLengthIsFirstStop(s[1..], k - 1);
    }
  }

  /**
   * A whole identifier followed by a character that cannot continue it is
   * read as that identifier, and the rest is left unread.
   */
  lemma ScanValidIdent(x: string, t: string)
    requires ValidIdent(x) && (|t| == 0 || !IsIdentChar(t[0]))
    ensures ScanIdent(x + t) == Done(t, x)
  {
    var s := x + t;
    forall i | 0 <= i < |x|
      ensures IsIdentChar(s[i])
    {
      assert s[i] == x[i];
    }
    if |x| < |s| {
      assert s[|x|] == t[0];
    }
    RunLengthIsFirstStop(s, |x|);
    assert s[..|x|] == x && s[|x|..] == t;
  }

  /** The scanner accepts a whole input exactly when it is an identifier. */
  lemma WholeInput(x: string)
    ensures ScanIdent(x) == Done("", x) <==> ValidIdent(x)
  {
    RunLengthSpec(x);
    if ValidIdent(x) {
      ScanValidIdent(x, "");
      assert x + "" == x;
    }
  }
}
