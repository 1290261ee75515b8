/**
 * `analize_secuence` as a whole (src/morse.rs:45-85): estimate the timing from
 * the press statistics, classify the pulses into symbol groups, and decode
 * the groups into text.
 */
module Analysis {
  import opened Wrappers
  import opened Pulses
  import opened SpeedEstimator
  import opened Classifier
  import opened Decoder

  /** What one analysis produces: the groups handed to the decoder, and the decoded text. */
  datatype Decoded = Decoded(groups: seq<string>, text: string)

  /**
   * The analysis of one transmission. It fails exactly where the estimator
   * would divide by zero; otherwise the text is the decoding of the groups
   * the classifier builds with the estimated timing.
   */
  function Analyze(pulses: seq<PulseInfo>, totalPresses: nat, totalPressTime: nat): (r: Result<Decoded, SpeedError>)
    ensures r.Success? <==> EstimateTiming(totalPresses, totalPressTime).Success?
    ensures r.Failure? ==> r.error == EstimateTiming(totalPresses, totalPressTime).error
    ensures r.Success? ==> |r.value.groups| >= 1
    ensures r.Success? ==> var s := r.value.text; s == [] || (!IsWhitespace(s[0]) && !IsWhitespace(s[|s| - 1]))
  {
    match EstimateTiming(totalPresses, totalPressTime)
    case Failure(e) => Failure(e)
    case Success(t) =>
      var groups := Groups(pulses, t);
      Success(Decoded(groups, Decode(groups)))
  }

  /**
   * The body of `analize_secuence`: the estimate, the classifier loop and the
   * call to the decoder, in that order. Where the source's estimate would
   * panic on a zero divisor, the method returns the estimator's error instead.
   */
  method AnalyzeSequence(pulses: seq<PulseInfo>, totalPresses: nat, totalPressTime: nat)
    returns (r: Result<Decoded, SpeedError>)
    ensures r == Analyze(pulses, totalPresses, totalPressTime)
  {
    var estimate := EstimateTiming(totalPresses, totalPressTime);
    if estimate.Failure? {
      return Failure(estimate.error);
    }
    var t := estimate.value;
    var groups := ClassifyPulses(pulses, t);
    var text := ParseToText(groups);
    r := Success(Decoded(groups, text));
  }

  /** A transmission with no recorded press is never analysed. */
  lemma NoPressesRejected(pulses: seq<PulseInfo>, totalPressTime: nat)
    ensures Analyze(pulses, 0, totalPressTime).Failure?
  {
    EstimateDefinedIff(0, totalPressTime);
  }

  /**
   * What a successful analysis builds: groups that are each the word
   * sentinel or a string of marks, one more than the letter gaps plus two
   * per word gap, whose marks are exactly the presses in order.
   */
  lemma AnalyzedGroups(pulses: seq<PulseInfo>, totalPresses: nat, totalPressTime: nat)
    requires Analyze(pulses, totalPresses, totalPressTime).Success?
    ensures var t := EstimateTiming(totalPresses, totalPressTime).value;
            var gs := Analyze(pulses, totalPresses, totalPressTime).value.groups;
            && (forall k :: 0 <= k < |gs| ==> WellFormedGroup(gs[k]))
            && |gs| == 1 + CountOf(SkipFirst(pulses), t, LetterGap) + 2 * CountOf(SkipFirst(pulses), t, WordGap)
            && Marks(gs) == Keyed(SkipFirst(pulses), t)
  {
    var t := EstimateTiming(totalPresses, totalPressTime).value;
    GroupsWellFormed(pulses, t);
    GroupsLength(pulses, t);
    GroupsMarks(pulses, t);
  }

  // ----- SOS, end to end -----

  /** A short press (a dot at the rate below). */
  const DOT_PRESS: PulseInfo := PulseInfo(PULSE_HIGH, 100)

  /** A long press (a dash at the rate below). */
  const DASH_PRESS: PulseInfo := PulseInfo(PULSE_HIGH, 300)

  /** A release inside a letter. */
  const SYMBOL_PAUSE: PulseInfo := PulseInfo(PULSE_LOW, 100)

  /** A release between letters. */
  const LETTER_PAUSE: PulseInfo := PulseInfo(PULSE_LOW, 500)

  /** Nine presses over 1.5 s give 7 words per minute: a dot of 142 ms. */
  lemma SosTiming(totalPresses: nat, totalPressTime: nat)
    requires totalPresses == 9 && totalPressTime == 1500
    ensures EstimateTiming(totalPresses, totalPressTime) == Success(Timing(142, 426, 994, 71))
  {
    assert ScaledTime(totalPressTime) == 75;
    assert totalPresses * ONE_MINUTE / 75 == 7;
    assert 60000 / 420 == 142;
  }

  /** Three presses of one kind, with in-letter releases between them, add three marks to the letter. */
  lemma RunThreeMarks(a: seq<PulseInfo>, press: PulseInfo, t: Timing)
    requires t.threshold <= t.dash
    requires press.status == PULSE_HIGH && SYMBOL_PAUSE.millis <= t.dash
    ensures var s, c := Run(a, t), Kind(press, t).symbol;
            Run(a + [press, SYMBOL_PAUSE, press, SYMBOL_PAUSE, press], t) == State(s.groups, s.letter + [c, c, c])
  {
    var p1 := a + [press];
    var p2 := p1 + [SYMBOL_PAUSE];
    var p3 := p2 + [press];
    var p4 := p3 + [SYMBOL_PAUSE];
    assert a + [press, SYMBOL_PAUSE, press, SYMBOL_PAUSE, press] == p4 + [press];
    RunSnoc(a, press, t);
    RunSnoc(p1, SYMBOL_PAUSE, t);
    RunSnoc(p2, press, t);
    RunSnoc(p3, SYMBOL_PAUSE, t);
    RunSnoc(p4, press, t);
    var c := Kind(press, t).symbol;
    var l := Run(a, t).letter;
    assert (l + [c]) + [c] + [c] == l + [c, c, c];
  }

  /** A pause before the first press, then `... --- ...`, classified at that rate. */
  lemma SosGroups(pulses: seq<PulseInfo>, t: Timing)
    requires t == Timing(142, 426, 994, 71)
    requires pulses == [PulseInfo(PULSE_LOW, 5000),
                        DOT_PRESS, SYMBOL_PAUSE, DOT_PRESS, SYMBOL_PAUSE, DOT_PRESS, LETTER_PAUSE,
                        DASH_PRESS, SYMBOL_PAUSE, DASH_PRESS, SYMBOL_PAUSE, DASH_PRESS, LETTER_PAUSE,
                        DOT_PRESS, SYMBOL_PAUSE, DOT_PRESS, SYMBOL_PAUSE, DOT_PRESS]
    ensures Groups(pulses, t) == ["...", "---", "..."]
  {
    var s3 := [DOT_PRESS, SYMBOL_PAUSE, DOT_PRESS, SYMBOL_PAUSE, DOT_PRESS];
    var o3 := [DASH_PRESS, SYMBOL_PAUSE, DASH_PRESS, SYMBOL_PAUSE, DASH_PRESS];
    var a1 := [] + s3;
    var a2 := a1 + [LETTER_PAUSE];
    var a3 := a2 + o3;
    var a4 := a3 + [LETTER_PAUSE];
    var a5 := a4 + s3;
    assert SkipFirst(pulses) == a5;
    assert Kind(DOT_PRESS, t).symbol == '.' && Kind(DASH_PRESS, t).symbol == '-';
    RunThreeMarks([], DOT_PRESS, t);
    assert Run(a1, t) == State([], "...");
    RunSnoc(a1, LETTER_PAUSE, t);
    assert Run(a2, t) == State(["..."], "");
    RunThreeMarks(a2, DASH_PRESS, t);
    assert Run(a3, t) == State(["..."], "---");
    RunSnoc(a3, LETTER_PAUSE, t);
    assert Run(a4, t) == State(["...", "---"], "");
    RunThreeMarks(a4, DOT_PRESS, t);
    assert Run(a5, t) == State(["...", "---"], "...");
  }

  /** Keying `SOS` at about 7 words per minute is decoded as `SOS`. */
  lemma AnalyzeSos(pulses: seq<PulseInfo>, totalPresses: nat, totalPressTime: nat)
    requires totalPresses == 9 && totalPressTime == 1500
    requires pulses == [PulseInfo(PULSE_LOW, 5000),
                        DOT_PRESS, SYMBOL_PAUSE, DOT_PRESS, SYMBOL_PAUSE, DOT_PRESS, LETTER_PAUSE,
                        DASH_PRESS, SYMBOL_PAUSE, DASH_PRESS, SYMBOL_PAUSE, DASH_PRESS, LETTER_PAUSE,
                        DOT_PRESS, SYMBOL_PAUSE, DOT_PRESS, SYMBOL_PAUSE, DOT_PRESS]
    ensures Analyze(pulses, totalPresses, totalPressTime) == Success(Decoded(["...", "---", "..."], "SOS"))
  {
    SosTiming(totalPresses, totalPressTime);
    var t := Timing(142, 426, 994, 71);
    SosGroups(pulses, t);
    DecodeSos(Groups(pulses, t));
  }
}
