/**
 * Stack frames as the builder receives them, and the placeholder frame it
 * appends when a backtrace was truncated.
 */
module Backtrace {

  /**
   * One stack frame (Profiling::BacktraceLocation). The fields are listed in
   * the order of that class's constructor arguments: base label, line
   * number, path. Frames are compared by value.
   */
  datatype BacktraceLocation = BacktraceLocation(baseLabel: string, lineno: int, path: string)

  const DescFrameOmitted: string := "frame omitted"
  const DescFramesOmitted: string := "frames omitted"

  predicate IsDigit(c: char) {
    '0' <= c <= '9'
  }

  function DigitChar(d: nat): (c: char)
    requires d < 10
    ensures IsDigit(c)
  {
    ('0' as int + d) as char
  }

  /** The number a string of decimal digits denotes, most significant digit first. */
  function DigitsValue(s: string): nat
    requires forall i | 0 <= i < |s| :: IsDigit(s[i])
    decreases |s|
  {
    if |s| == 0 then 0
    else
      assert IsDigit(s[|s| - 1]);
      DigitsValue(s[..|s| - 1]) * 10 + (s[|s| - 1] as int - '0' as int)
  }

  /** Decimal rendering of a natural number, as Ruby's string interpolation writes it. */
  function NatToString(n: nat): (s: string)
    ensures |s| > 0 && forall i | 0 <= i < |s| :: IsDigit(s[i])
    ensures DigitsValue(s) == n
    ensures |s| == 1 <==> n < 10
    ensures s[0] == '0' ==> n == 0
  {
    if n < 10 then [DigitChar(n)]
    else
      var front := NatToString(n / 10);
      var s := front + [DigitChar(n % 10)];
      assert s[..|s| - 1] == front;
      s
  }

  /** Different numbers are rendered differently: the digits read back as the number. */
  lemma NatToStringInjective(a: nat, b: nat)
    requires NatToString(a) == NatToString(b)
    ensures a == b
  {
    assert DigitsValue(NatToString(a)) == DigitsValue(NatToString(b));
  }

  /** The text of the placeholder frame: "1 frame omitted", "2 frames omitted", ... */
  function OmittedLabel(omitted: nat): (r: string)
    ensures var digits := NatToString(omitted);
            |digits| < |r| && r[..|digits|] == digits && r[|digits|] == ' '
  {
    NatToString(omitted) + " " + (if omitted == 1 then DescFrameOmitted else DescFramesOmitted)
  }

  /** Distinct omitted counts give distinct placeholder texts. */
  lemma OmittedLabelInjective(a: nat, b: nat)
    requires OmittedLabel(a) == OmittedLabel(b)
    ensures a == b
  {
    var da, db := NatToString(a), NatToString(b);
    // The two descriptions differ in length by one and every rendering has
    // at least one digit, so the renderings have the same length.
    assert |da| == |db|;
    assert da == OmittedLabel(a)[..|da|] == OmittedLabel(b)[..|db|] == db;
    NatToStringInjective(a, b);
  }

  /** The singular wording is used exactly when one frame was omitted. */
  lemma OmittedLabelSingular(omitted: nat)
    ensures OmittedLabel(omitted) == "1 " + DescFrameOmitted <==> omitted == 1
  {
    assert OmittedLabel(1) == "1 " + DescFrameOmitted;
    if OmittedLabel(omitted) == "1 " + DescFrameOmitted {
      OmittedLabelInjective(omitted, 1);
    }
  }

  /** The frame standing for `omitted` missing frames, with line number 0. */
  function PlaceholderFrame(omitted: nat): BacktraceLocation {
    BacktraceLocation("", 0, OmittedLabel(omitted))
  }

  /**
   * The frames whose locations `build_locations` returns for a backtrace
   * captured with at most `length` frames: the backtrace itself, followed
   * by one placeholder when frames were omitted.
   */
  function FramesFor(backtrace: seq<BacktraceLocation>, length: int): (r: seq<BacktraceLocation>)
    ensures backtrace <= r
    ensures |r| == if length - |backtrace| > 0 then |backtrace| + 1 else |backtrace|
    ensures forall i | |backtrace| <= i < |r| :: r[i] == PlaceholderFrame(length - |backtrace|)
  {
    var omitted := length - |backtrace|;
    if omitted > 0 then backtrace + [PlaceholderFrame(omitted)] else backtrace
  }

  /** Two truncated backtraces share their placeholder frame exactly when the same number of frames was omitted. */
  lemma PlaceholderSharedIffSameCount(a: nat, b: nat)
    ensures PlaceholderFrame(a) == PlaceholderFrame(b) <==> a == b
  {
    if PlaceholderFrame(a) == PlaceholderFrame(b) {
      OmittedLabelInjective(a, b);
    }
  }
}
