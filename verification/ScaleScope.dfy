// The scale flags a training command records at its end, and the splitter
// that takes off exactly the rendering of a non-default ramp.
module ScaleScope {
  import opened Common
  import opened Geometry
  import opened Decimals
  import opened AnnealRamp

  const START_FLAG := "--environment-scale-start"
  const END_FLAG := "--environment-scale-end"

  // ---------------------------------------------------------------- tokens

  /** Parts between single spaces; never empty. */
  function Tokens(s: string): (tokens: seq<string>)
    ensures |tokens| >= 1
  {
    match FirstIndex(s, ' ')
    case None => [s]
    case Some(i) => [s[..i]] + Tokens(s[i + 1..])
  }

  predicate NoSpace(s: string) { forall i :: 0 <= i < |s| ==> s[i] != ' ' }

  lemma NoSpaceIsToken(s: string)
    requires NoSpace(s)
    ensures Tokens(s) == [s]
  {
  }

  lemma TokensOfFirst(before: string, after: string)
    requires NoSpace(before)
    ensures Tokens(before + " " + after) == [before] + Tokens(after)
  {
    var s := before + " " + after;
    FirstIndexOf(before, ' ', after);
    assert s == before + [' '] + after;
    assert s[..|before|] == before && s[|before| + 1..] == after;
  }

  lemma FirstIsSpaceless(s: string)
    ensures FirstIndex(s, ' ').None? ==> NoSpace(s)
    ensures FirstIndex(s, ' ').Some? ==>
      var i := FirstIndex(s, ' ').value; NoSpace(s[..i]) && s == s[..i] + " " + s[i + 1..]
  {
  }

  /** A space joins token lists. */
  lemma {:induction false} TokensJoin(a: string, b: string)
    ensures Tokens(a + " " + b) == Tokens(a) + Tokens(b)
    decreases |a|
  {
    hide FirstIndex, Tokens;
    FirstIsSpaceless(a);
    if FirstIndex(a, ' ').None? {
      TokensOfFirst(a, b);
      NoSpaceIsToken(a);
    } else {
      var i := FirstIndex(a, ' ').value;
      var rest := a[i + 1..];
      TokensJoin(rest, b);
      TokensOfFirst(a[..i], rest);
      TokensOfFirst(a[..i], rest + " " + b);
      Regroup(a[..i] + " ", rest, " " + b);
      Regroup(rest, " ", b);
      Regroup(a, " ", b);
    }
  }

  // ---------------------------------------------------------------- rendering and parsing one endpoint

  function DecimalText(bp: nat): string { DisplayDecimal(bp * 100) }

  /** Basis points of an endpoint text, unless it is finer than one basis point or out of range. */
  function CanonicalBp(text: string): Option<nat> {
    match ParseDecimal(text)
    case Refused(_) => None
    case Units(units) => if units % 100 != 0 || units > MAX_BP * 100 then None else Some(units / 100)
  }

  lemma EndpointRoundTrip(bp: nat)
    requires bp <= MAX_BP
    ensures CanonicalBp(DecimalText(bp)) == Some(bp)
  {
    hide DisplayDecimal, ParseDecimal;
    DecimalRoundTrip(bp * 100);
  }

  lemma DecimalHasNoSpace(units: nat)
    ensures NoSpace(DisplayDecimal(units))
  {
  }

  // ---------------------------------------------------------------- the suffix

  function ScopeSuffix(scale: AnnealScale): string {
    " " + START_FLAG + " " + DecimalText(scale.startBp) + " " + END_FLAG + " " + DecimalText(scale.endBp)
  }

  predicate EndsWith(s: string, suffix: string) {
    |suffix| <= |s| && s[|s| - |suffix|..] == suffix
  }

  /** Splits the trailing flags off a command, if they are the exact rendering of a non-default ramp. */
  function SplitScaleScope(command: string): (string, AnnealScale) {
    var tokens := Tokens(command);
    var n := |tokens|;
    if n < 4 || tokens[n - 4] != START_FLAG || tokens[n - 2] != END_FLAG then (command, FULL)
    else
      var startBp, endBp := CanonicalBp(tokens[n - 3]), CanonicalBp(tokens[n - 1]);
      if startBp.None? || endBp.None? then (command, FULL)
      else
        var scale := AnnealScale(startBp.value, endBp.value);
        if scale == FULL then (command, FULL)
        else
          var suffix := ScopeSuffix(scale);
          if EndsWith(command, suffix) then (command[..|command| - |suffix|], scale) else (command, FULL)
  }

  /** The command ends in the rendering of this ramp. */
  predicate RecordsScale(command: string, prefix: string, scale: AnnealScale) {
    ValidScale(scale) && scale != FULL && command == prefix + ScopeSuffix(scale)
  }

  lemma SuffixTokens(prefix: string, scale: AnnealScale)
    ensures Tokens(prefix + ScopeSuffix(scale))
         == Tokens(prefix) + [START_FLAG, DecimalText(scale.startBp), END_FLAG, DecimalText(scale.endBp)]
  {
    hide Tokens, DecimalText;
    var a, b := DecimalText(scale.startBp), DecimalText(scale.endBp);
    EndpointTokens(scale.startBp);
    EndpointTokens(scale.endBp);
    NoSpaceIsToken(START_FLAG);
    NoSpaceIsToken(END_FLAG);
    TokensJoin(END_FLAG, b);
    TokensJoin(a, END_FLAG + " " + b);
    TokensJoin(START_FLAG, a + " " + (END_FLAG + " " + b));
    TokensJoin(prefix, START_FLAG + " " + (a + " " + (END_FLAG + " " + b)));
    assert prefix + ScopeSuffix(scale) == prefix + " " + (START_FLAG + " " + (a + " " + (END_FLAG + " " + b)));
  }

  lemma EndpointTokens(bp: nat)
    ensures Tokens(DecimalText(bp)) == [DecimalText(bp)]
  {
    DecimalHasNoSpace(bp * 100);
    NoSpaceIsToken(DecimalText(bp));
  }

  /** A recorded ramp is split off exactly. */
  lemma RecordedScaleIsSplit(command: string, prefix: string, scale: AnnealScale)
    requires RecordsScale(command, prefix, scale)
    ensures SplitScaleScope(command) == (prefix, scale)
  {
    hide Tokens, DecimalText, CanonicalBp;
    SuffixTokens(prefix, scale);
    EndpointRoundTrip(scale.startBp);
    EndpointRoundTrip(scale.endBp);
    assert command[|command| - |ScopeSuffix(scale)|..] == ScopeSuffix(scale);
    assert command[..|command| - |ScopeSuffix(scale)|] == prefix;
  }

  /** A command that does not end in the rendering of a valid non-default ramp comes back whole. */
  lemma SplitsExactlyRecordedScales(command: string)
    ensures (exists prefix, scale :: RecordsScale(command, prefix, scale)) <==> SplitScaleScope(command).1 != FULL
    ensures SplitScaleScope(command).1 != FULL ==>
      RecordsScale(command, SplitScaleScope(command).0, SplitScaleScope(command).1)
    ensures SplitScaleScope(command).1 == FULL ==> SplitScaleScope(command).0 == command
  {
    hide Tokens, DecimalText, CanonicalBp, ParseDecimal;
    forall prefix, scale | RecordsScale(command, prefix, scale) ensures SplitScaleScope(command).1 != FULL {
      RecordedScaleIsSplit(command, prefix, scale);
    }
    var (prefix, scale) := SplitScaleScope(command);
    if scale != FULL {
      SplitEndpointsInRange(command);
      assert RecordsScale(command, prefix, scale);
    }
  }

  lemma SplitEndpointsInRange(command: string)
    ensures ValidScale(SplitScaleScope(command).1)
  {
    hide Tokens, DecimalText, ParseDecimal;
  }

  /** No command records two different ramps. */
  lemma RecordingIsUnique(command: string, p: string, a: AnnealScale, q: string, b: AnnealScale)
    requires RecordsScale(command, p, a) && RecordsScale(command, q, b)
    ensures p == q && a == b
  {
    RecordedScaleIsSplit(command, p, a);
    RecordedScaleIsSplit(command, q, b);
    hide SplitScaleScope, RecordsScale;
  }
}
