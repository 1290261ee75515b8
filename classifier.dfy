/**
 * The sequence classifier of `analize_secuence` (src/morse.rs:54-82): one pass
 * over the pulses after the first, building a letter of dots and dashes and
 * the list of finished symbol groups.
 */
module Classifier {
  import opened Pulses
  import opened SpeedEstimator

  /** The group pushed after a word gap. */
  const WORD_SENTINEL: string := " "

  /** The two buffers of the loop: the finished groups and the pending letter. */
  datatype State = State(groups: seq<string>, letter: string)

  /** Both buffers empty, as at src/morse.rs:54-55. */
  const START: State := State([], "")

  /**
   * The loop body for one pulse, with the source's branches and guards as
   * written (src/morse.rs:59-78). The subtraction `dash - threshold` is on
   * u128 in the source, so the timing must not make it negative.
   */
  function Step(s: State, p: PulseInfo, t: Timing): State
    requires t.threshold <= t.dash
  {
    if p.status == PULSE_HIGH then
      if p.millis <= t.dot + t.threshold then State(s.groups, s.letter + ".")
      else if p.millis > t.dot + t.threshold then State(s.groups, s.letter + "-")
      else s
    else if p.status == PULSE_LOW then
      if p.millis <= t.dash then s
      else if p.millis > t.dash - t.threshold && p.millis < t.word then
        State(s.groups + [s.letter], "")
      else if p.millis >= t.word then
        State(s.groups + [s.letter] + [WORD_SENTINEL], "")
      else s
    else s
  }

  /** The pulses the loop visits: `iter().skip(1)`. */
  function SkipFirst(pulses: seq<PulseInfo>): seq<PulseInfo> {
    if pulses == [] then [] else pulses[1..]
  }

  /** The buffers after the loop has visited every pulse of `ps`, in order. */
  function Run(ps: seq<PulseInfo>, t: Timing): State
    requires t.threshold <= t.dash
    decreases |ps|
  {
    if ps == [] then START else Step(Run(ps[..|ps| - 1], t), ps[|ps| - 1], t)
  }

  /** The group list `analize_secuence` hands to the decoder: the loop, then the final push. */
  function Groups(pulses: seq<PulseInfo>, t: Timing): seq<string>
    requires t.threshold <= t.dash
  {
    var s := Run(SkipFirst(pulses), t);
    s.groups + [s.letter]
  }

  /**
   * The classifier loop as the source runs it: it mutates the letter buffer
   * and the group vector pulse by pulse, then pushes the pending letter.
   */
  method ClassifyPulses(pulses: seq<PulseInfo>, t: Timing) returns (groups: seq<string>)
    requires t.threshold <= t.dash
    ensures groups == Groups(pulses, t)
  {
    var letter: string := "";
    groups := [];
    var rest := SkipFirst(pulses);
    for k := 0 to |rest|
      invariant State(groups, letter) == Run(rest[..k], t)
    {
      var pulse := rest[k];
      assert rest[..k + 1] == rest[..k] + [pulse];
      RunSnoc(rest[..k], pulse, t);
      if pulse.status == PULSE_HIGH {
        if pulse.millis <= t.dot + t.threshold {
          letter := letter + ".";
        } else if pulse.millis > t.dot + t.threshold {
          letter := letter + "-";
        }
      } else if pulse.status == PULSE_LOW {
        if pulse.millis <= t.dash {
          continue;
        } else if pulse.millis > t.dash - t.threshold && pulse.millis < t.word {
          groups := groups + [letter];
          letter := "";
        } else if pulse.millis >= t.word {
          groups := groups + [letter];
          letter := "";
          letter := letter + " ";
          assert letter == WORD_SENTINEL;
          groups := groups + [letter];
          letter := "";
        }
      }
    }
    assert rest[..|rest|] == rest;
    groups := groups + [letter];
  }

  // ----- A reference classification, free of the source's redundant guards -----

  /** What one pulse means to the classifier. */
  datatype PulseKind =
    | Mark(symbol: char)  // a press: '.' or '-'
    | SymbolGap           // a release inside a letter
    | LetterGap           // a release between letters
    | WordGap             // a release between words
    | Ignored             // a status that is neither PULSE_HIGH nor PULSE_LOW

  /** The classification by the plain inequalities: `<=` / `>` at the dot, `<=` at the dash, `<` / `>=` at the word. */
  function Kind(p: PulseInfo, t: Timing): PulseKind {
    if p.status == PULSE_HIGH then Mark(if p.millis <= t.dot + t.threshold then '.' else '-')
    else if p.status == PULSE_LOW then
      if p.millis <= t.dash then SymbolGap
      else if p.millis < t.word then LetterGap
      else WordGap
    else Ignored
  }

  /** What a pulse of each kind does to the buffers. */
  function Apply(s: State, k: PulseKind): State {
    match k
    case Mark(c) => State(s.groups, s.letter + [c])
    case SymbolGap => s
    case LetterGap => State(s.groups + [s.letter], "")
    case WordGap => State(s.groups + [s.letter, WORD_SENTINEL], "")
    case Ignored => s
  }

  /**
   * The loop body as written agrees with the reference classification for
   * every pulse: the two tests on a press are exhaustive, the guard
   * `millis > dash - threshold` never fails once `millis > dash`, a press never
   * finishes a group, and a word gap always finishes the letter AND adds the
   * sentinel. A status other than 0 or 1 changes nothing.
   */
  lemma StepIsApplyKind(s: State, p: PulseInfo, t: Timing)
    requires t.threshold <= t.dash
    ensures Step(s, p, t) == Apply(s, Kind(p, t))
    ensures p.status == PULSE_HIGH ==> Step(s, p, t).groups == s.groups
    ensures p.status != PULSE_HIGH && p.status != PULSE_LOW ==> Step(s, p, t) == s
  {
  }

  /** Appending one pulse runs one more loop iteration. */
  lemma RunSnoc(ps: seq<PulseInfo>, p: PulseInfo, t: Timing)
    requires t.threshold <= t.dash
    ensures Run(ps + [p], t) == Step(Run(ps, t), p, t)
  {
    assert (ps + [p])[..|ps|] == ps;
  }

  // ----- Independent descriptions of the output -----

  /** A string of dots and dashes only (possibly empty). */
  predicate IsMarks(s: string) {
    forall i :: 0 <= i < |s| ==> s[i] == '.' || s[i] == '-'
  }

  lemma SentinelIsNotMarks()
    ensures !IsMarks(WORD_SENTINEL)
  {
    assert WORD_SENTINEL[0] == ' ';
  }

  /** What a finished group can be. */
  predicate WellFormedGroup(g: string) {
    g == WORD_SENTINEL || IsMarks(g)
  }

  /** The number of pulses of kind `k` in `ps`. */
  function CountOf(ps: seq<PulseInfo>, t: Timing, k: PulseKind): nat
    decreases |ps|
  {
    if ps == [] then 0
    else CountOf(ps[..|ps| - 1], t, k) + (if Kind(ps[|ps| - 1], t) == k then 1 else 0)
  }

  /** The number of presses in `ps`. */
  function Presses(ps: seq<PulseInfo>): nat
    decreases |ps|
  {
    if ps == [] then 0
    else Presses(ps[..|ps| - 1]) + (if ps[|ps| - 1].status == PULSE_HIGH then 1 else 0)
  }

  /** The mark each press of `ps` keys, in order. */
  function Keyed(ps: seq<PulseInfo>, t: Timing): string
    decreases |ps|
  {
    if ps == [] then ""
    else
      var k := Kind(ps[|ps| - 1], t);
      Keyed(ps[..|ps| - 1], t) + (if k.Mark? then [k.symbol] else "")
  }

  /** The dots and dashes of a group list, in order, with the word sentinels left out. */
  function Marks(gs: seq<string>): string
    decreases |gs|
  {
    if gs == [] then ""
    else
      var g := gs[|gs| - 1];
      Marks(gs[..|gs| - 1]) + (if g == WORD_SENTINEL then "" else g)
  }

  lemma MarksSnoc(gs: seq<string>, g: string)
    ensures Marks(gs + [g]) == Marks(gs) + (if g == WORD_SENTINEL then "" else g)
  {
    assert (gs + [g])[..|gs|] == gs;
  }

  // ----- Properties of the loop -----

  /** Every finished group is a word sentinel or dots and dashes; the pending letter is dots and dashes. */
  lemma {:induction false} RunWellFormed(ps: seq<PulseInfo>, t: Timing)
    requires t.threshold <= t.dash
    ensures IsMarks(Run(ps, t).letter)
    ensures forall i :: 0 <= i < |Run(ps, t).groups| ==> WellFormedGroup(Run(ps, t).groups[i])
    decreases |ps|
  {
    if ps != [] {
      var front, p := ps[..|ps| - 1], ps[|ps| - 1];
      RunWellFormed(front, t);
      StepIsApplyKind(Run(front, t), p, t);
    }
  }

  /** Each letter gap finishes one group, each word gap two. */
  lemma {:induction false} RunLength(ps: seq<PulseInfo>, t: Timing)
    requires t.threshold <= t.dash
    ensures |Run(ps, t).groups| == CountOf(ps, t, LetterGap) + 2 * CountOf(ps, t, WordGap)
    decreases |ps|
  {
    if ps != [] {
      var front, p := ps[..|ps| - 1], ps[|ps| - 1];
      RunLength(front, t);
      StepIsApplyKind(Run(front, t), p, t);
    }
  }

  /** No mark is lost or reordered: the groups and the letter together hold every press's mark. */
  lemma {:induction false} RunMarks(ps: seq<PulseInfo>, t: Timing)
    requires t.threshold <= t.dash
    ensures Marks(Run(ps, t).groups) + Run(ps, t).letter == Keyed(ps, t)
    decreases |ps|
  {
    if ps != [] {
      var front, p := ps[..|ps| - 1], ps[|ps| - 1];
      var s := Run(front, t);
      RunMarks(front, t);
      RunWellFormed(front, t);
      StepIsApplyKind(s, p, t);
      SentinelIsNotMarks();
      match Kind(p, t)
      case LetterGap =>
        MarksSnoc(s.groups, s.letter);
      case WordGap =>
        assert s.groups + [s.letter, WORD_SENTINEL] == (s.groups + [s.letter]) + [WORD_SENTINEL];
        MarksSnoc(s.groups + [s.letter], WORD_SENTINEL);
        MarksSnoc(s.groups, s.letter);
      case _ =>
    }
  }

  /** One mark per press. */
  lemma {:induction false} KeyedLength(ps: seq<PulseInfo>, t: Timing)
    ensures |Keyed(ps, t)| == Presses(ps)
    ensures IsMarks(Keyed(ps, t))
    decreases |ps|
  {
    if ps != [] {
      KeyedLength(ps[..|ps| - 1], t);
    }
  }

  /**
   * A pulse that the classifier does not act on (a release inside a letter,
   * or an unknown status) can be inserted anywhere without changing the buffers.
   */
  lemma {:induction false} NeutralPulseInvisible(a: seq<PulseInfo>, p: PulseInfo, b: seq<PulseInfo>, t: Timing)
    requires t.threshold <= t.dash
    requires Kind(p, t) == SymbolGap || Kind(p, t) == Ignored
    ensures Run(a + [p] + b, t) == Run(a + b, t)
    decreases |b|
  {
    if b == [] {
      assert a + [p] + b == a + [p];
      assert a + b == a;
      RunSnoc(a, p, t);
      StepIsApplyKind(Run(a, t), p, t);
    } else {
      var front, x := b[..|b| - 1], b[|b| - 1];
      NeutralPulseInvisible(a, p, front, t);
      assert a + [p] + b == (a + [p] + front) + [x];
      assert a + b == (a + front) + [x];
      RunSnoc(a + [p] + front, x, t);
      RunSnoc(a + front, x, t);
    }
  }

  // ----- Properties of the group list -----

  /**
   * The group list is never empty and every group is a word sentinel or a
   * (possibly empty) string of dots and dashes.
   */
  lemma {:induction false} GroupsWellFormed(pulses: seq<PulseInfo>, t: Timing)
    requires t.threshold <= t.dash
    ensures |Groups(pulses, t)| >= 1
    ensures forall i :: 0 <= i < |Groups(pulses, t)| ==> WellFormedGroup(Groups(pulses, t)[i])
  {
    RunWellFormed(SkipFirst(pulses), t);
  }

  /** One group, plus one per letter gap, plus two per word gap, counted after the first pulse. */
  lemma {:induction false} GroupsLength(pulses: seq<PulseInfo>, t: Timing)
    requires t.threshold <= t.dash
    ensures |Groups(pulses, t)|
            == 1 + CountOf(SkipFirst(pulses), t, LetterGap) + 2 * CountOf(SkipFirst(pulses), t, WordGap)
  {
    RunLength(SkipFirst(pulses), t);
  }

  /**
   * The marks of the group list are exactly the marks of the presses after
   * the first pulse, in order; so there are as many dots and dashes as presses.
   */
  lemma {:induction false} GroupsMarks(pulses: seq<PulseInfo>, t: Timing)
    requires t.threshold <= t.dash
    ensures Marks(Groups(pulses, t)) == Keyed(SkipFirst(pulses), t)
    ensures |Marks(Groups(pulses, t))| == Presses(SkipFirst(pulses))
  {
    var s := Run(SkipFirst(pulses), t);
    RunMarks(SkipFirst(pulses), t);
    RunWellFormed(SkipFirst(pulses), t);
    KeyedLength(SkipFirst(pulses), t);
    SentinelIsNotMarks();
    MarksSnoc(s.groups, s.letter);
  }

  /** The first pulse never influences the groups, whatever its status or length. */
  lemma FirstPulseIgnored(p: PulseInfo, q: PulseInfo, rest: seq<PulseInfo>, t: Timing)
    requires t.threshold <= t.dash
    ensures Groups([p] + rest, t) == Groups([q] + rest, t)
    ensures Groups([p] + rest, t) == Run(rest, t).groups + [Run(rest, t).letter]
  {
    assert SkipFirst([p] + rest) == rest;
    assert SkipFirst([q] + rest) == rest;
  }

  /** A pulse the classifier does not act on, inserted after the first pulse, leaves the groups as they were. */
  lemma NeutralPulseLeavesGroups(pulses: seq<PulseInfo>, i: nat, p: PulseInfo, t: Timing)
    requires t.threshold <= t.dash
    requires 1 <= i <= |pulses|
    requires Kind(p, t) == SymbolGap || Kind(p, t) == Ignored
    ensures Groups(pulses[..i] + [p] + pulses[i..], t) == Groups(pulses, t)
  {
    var a, b := pulses[1..i], pulses[i..];
    assert SkipFirst(pulses[..i] + [p] + pulses[i..]) == a + [p] + b;
    assert SkipFirst(pulses) == a + b;
    NeutralPulseInvisible(a, p, b, t);
  }

  /**
   * There is a single group exactly when no release after the first pulse is
   * a letter or word gap; that group then holds one mark per press.
   */
  lemma {:induction false} SingleGroupIff(pulses: seq<PulseInfo>, t: Timing)
    requires t.threshold <= t.dash
    ensures |Groups(pulses, t)| == 1
            <==> CountOf(SkipFirst(pulses), t, LetterGap) == 0 && CountOf(SkipFirst(pulses), t, WordGap) == 0
    ensures |Groups(pulses, t)| == 1 ==> Groups(pulses, t) == [Keyed(SkipFirst(pulses), t)]
  {
    GroupsLength(pulses, t);
    if |Groups(pulses, t)| == 1 {
      // The only group is the pending letter, which is never the sentinel.
      var s := Run(SkipFirst(pulses), t);
      assert s.groups == [];
      var g := s.letter;
      assert Groups(pulses, t) == [] + [g];
      RunWellFormed(SkipFirst(pulses), t);
      SentinelIsNotMarks();
      MarksSnoc([], g);
      assert Marks([g]) == g;
      GroupsMarks(pulses, t);
      assert Keyed(SkipFirst(pulses), t) == g;
    }
  }
}
