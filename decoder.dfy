/**
 * The symbol decoder `parse_to_text` (src/morse.rs:14-43): each group is
 * looked up in a fixed table of 37 patterns, the characters found are
 * concatenated in order, groups with no entry are dropped, and the result
 * is trimmed.
 */
module Decoder {
  import opened Wrappers

  /** The table of src/morse.rs:14-23: pattern, then the text it stands for. */
  const MORSE_MAP: seq<(string, string)> := [
    (".-", "A"), ("-...", "B"), ("-.-.", "C"), ("-..", "D"), (".", "E"),
    ("..-.", "F"), ("--.", "G"), ("....", "H"), ("..", "I"), (".---", "J"),
    ("-.-", "K"), (".-..", "L"), ("--", "M"), ("-.", "N"), ("---", "O"),
    (".--.", "P"), ("--.-", "Q"), (".-.", "R"), ("...", "S"), ("-", "T"),
    ("..-", "U"), ("...-", "V"), (".--", "W"), ("-..-", "X"), ("-.--", "Y"),
    ("--..", "Z"), (".----", "1"), ("..---", "2"), ("...--", "3"),
    ("....-", "4"), (".....", "5"), ("-....", "6"), ("--...", "7"),
    ("---..", "8"), ("----.", "9"), ("-----", "0"), (" ", " ")
  ]

  /**
   * The position of the first entry of `table` whose pattern equals `key`,
   * if there is one.
   */
  function FirstIndex(table: seq<(string, string)>, key: string): (r: Option<nat>)
    ensures r.Some? ==> r.value < |table| && table[r.value].0 == key
    decreases |table|
  {
    if table == [] then None
    else if table[0].0 == key then Some(0)
    else
      match FirstIndex(table[1..], key)
      case None => None
      case Some(i) => Some(i + 1)
  }

  /** `iter().find` on a table of pairs: the text of the first entry whose pattern equals `key`. */
  function Find(table: seq<(string, string)>, key: string): Option<string> {
    match FirstIndex(table, key)
    case None => None
    case Some(i) => Some(table[i].1)
  }

  /** The lookup of one group in the Morse table. */
  function Lookup(group: string): Option<string> {
    Find(MORSE_MAP, group)
  }

  /** What one group adds to the text: its entry's text, or nothing. */
  function GroupText(table: seq<(string, string)>, group: string): string {
    match Find(table, group)
    case Some(ch) => ch
    case None => ""
  }

  /** The texts of the groups, one per group. */
  function Texts(table: seq<(string, string)>, groups: seq<string>): (r: seq<string>)
    ensures |r| == |groups|
  {
    seq(|groups|, k requires 0 <= k < |groups| => GroupText(table, groups[k]))
  }

  /** The parts, concatenated in order. */
  function Concat(parts: seq<string>): string
    decreases |parts|
  {
    if parts == [] then ""
    else Concat(parts[..|parts| - 1]) + parts[|parts| - 1]
  }

  /**
   * The untrimmed text: each group's text in `table`, in order; groups with
   * no entry add nothing. The decoder uses it with `MORSE_MAP`.
   */
  function Translate(table: seq<(string, string)>, groups: seq<string>): string {
    Concat(Texts(table, groups))
  }

  // ----- Rust's str::trim -----

  /** Rust's `char::is_whitespace`: the Unicode White_Space property. */
  predicate IsWhitespace(c: char) {
    || '\t' <= c <= '\r'
    || c == ' '
    || c == '\U{85}'
    || c == '\U{A0}'
    || c == '\U{1680}'
    || '\U{2000}' <= c <= '\U{200A}'
    || c == '\U{2028}'
    || c == '\U{2029}'
    || c == '\U{202F}'
    || c == '\U{205F}'
    || c == '\U{3000}'
  }

  /** The number of whitespace characters `s` starts with. */
  function LeadingWhitespace(s: string): (n: nat)
    ensures n <= |s|
    ensures forall k :: 0 <= k < n ==> IsWhitespace(s[k])
    ensures n < |s| ==> !IsWhitespace(s[n])
    decreases |s|
  {
    if s == [] || !IsWhitespace(s[0]) then 0
    else
      var n := LeadingWhitespace(s[1..]);
      assert forall k :: 1 <= k < n + 1 ==> s[k] == s[1..][k - 1];
      n + 1
  }

  /** The number of whitespace characters `s` ends with. */
  function TrailingWhitespace(s: string): (n: nat)
    ensures n <= |s|
    ensures forall k :: |s| - n <= k < |s| ==> IsWhitespace(s[k])
    ensures n < |s| ==> !IsWhitespace(s[|s| - 1 - n])
    decreases |s|
  {
    if s == [] || !IsWhitespace(s[|s| - 1]) then 0
    else
      var n := TrailingWhitespace(s[..|s| - 1]);
      assert forall k :: 0 <= k < |s| - 1 ==> s[k] == s[..|s| - 1][k];
      n + 1
  }

  /** `r` is the slice of `s` at offset `i`, with only whitespace on either side of it. */
  predicate TrimmedAt(s: string, r: string, i: nat) {
    && i + |r| <= |s|
    && r == s[i..i + |r|]
    && (forall k :: 0 <= k < i ==> IsWhitespace(s[k]))
    && (forall k :: i + |r| <= k < |s| ==> IsWhitespace(s[k]))
  }

  /**
   * `str::trim`: `s` with its leading and then its trailing whitespace
   * removed. The result is a slice of `s` with only whitespace cut off on
   * either side, and it neither starts nor ends with whitespace.
   */
  function Trim(s: string): (r: string)
    ensures |r| <= |s|
    ensures r == [] || (!IsWhitespace(r[0]) && !IsWhitespace(r[|r| - 1]))
    ensures exists i :: TrimmedAt(s, r, i)
  {
    var i := LeadingWhitespace(s);
    var u := s[i..];
    var j := TrailingWhitespace(u);
    var r := u[..|u| - j];
    assert r == s[i..i + |r|];
    assert forall k :: i + |r| <= k < |s| ==> s[k] == u[k - i];
    assert TrimmedAt(s, r, i);
    r
  }

  /** The text `parse_to_text` produces: the lookups, concatenated, then trimmed. */
  function Decode(groups: seq<string>): string {
    Trim(Translate(MORSE_MAP, groups))
  }

  /**
   * The loop of `parse_to_text` (src/morse.rs:27-34, 42): it appends each
   * group's table text to a mutable string, then trims it.
   */
  method ParseToText(morseCode: seq<string>) returns (text: string)
    ensures text == Decode(morseCode)
  {
    var morseParsed: string := "";
    for k := 0 to |morseCode|
      invariant morseParsed == Translate(MORSE_MAP, morseCode[..k])
    {
      var morseLetter := morseCode[k];
      assert morseCode[..k + 1] == morseCode[..k] + [morseLetter];
      TranslateSnoc(MORSE_MAP, morseCode[..k], morseLetter);
      var found := Find(MORSE_MAP, morseLetter);
      if found.Some? {
        morseParsed := morseParsed + found.value;
      }
    }
    assert morseCode[..|morseCode|] == morseCode;
    text := Trim(morseParsed);
  }

  // ----- The table -----

  /** The 37 patterns are pairwise distinct, so a first-match search finds the only match. */
  lemma PatternsDistinct()
    ensures |MORSE_MAP| == 37
    ensures forall i, j :: 0 <= i < j < |MORSE_MAP| ==> MORSE_MAP[i].0 != MORSE_MAP[j].0
  {
    // Checked in three blocks of pairs, each small enough for the solver.
    PatternsDistinctBelow19();
    PatternsDistinctFrom19();
    PatternsDistinctAcross19();
  }

  lemma PatternsDistinctBelow19()
    ensures forall i, j :: 0 <= i < j < 19 ==> MORSE_MAP[i].0 != MORSE_MAP[j].0
  {
  }

  lemma PatternsDistinctFrom19()
    ensures forall i, j :: 19 <= i < j < 37 ==> MORSE_MAP[i].0 != MORSE_MAP[j].0
  {
  }

  lemma PatternsDistinctAcross19()
    ensures forall i, j :: 0 <= i < 19 <= j < 37 ==> MORSE_MAP[i].0 != MORSE_MAP[j].0
  {
  }

  /** Every entry stands for a single character, and no two entries for the same one. */
  lemma TextsDistinctCharacters()
    ensures forall i :: 0 <= i < |MORSE_MAP| ==> |MORSE_MAP[i].1| == 1
    ensures forall i, j :: 0 <= i < j < |MORSE_MAP| ==> MORSE_MAP[i].1 != MORSE_MAP[j].1
  {
    TextsDistinctBelow19();
    TextsDistinctFrom19();
    TextsDistinctAcross19();
  }

  lemma TextsDistinctBelow19()
    ensures forall i, j :: 0 <= i < j < 19 ==> MORSE_MAP[i].1 != MORSE_MAP[j].1
  {
  }

  lemma TextsDistinctFrom19()
    ensures forall i, j :: 19 <= i < j < 37 ==> MORSE_MAP[i].1 != MORSE_MAP[j].1
  {
  }

  lemma TextsDistinctAcross19()
    ensures forall i, j :: 0 <= i < 19 <= j < 37 ==> MORSE_MAP[i].1 != MORSE_MAP[j].1
  {
  }

  /** The word sentinel is the last entry; every other pattern has one to five dots and dashes. */
  lemma PatternShapes()
    ensures MORSE_MAP[36] == (" ", " ")
    ensures forall i :: 0 <= i < 36 ==> 1 <= |MORSE_MAP[i].0| <= 5
  {
  }

  // ----- Lookup and translation, for any table -----

  /** Patterns of `table` are pairwise distinct. */
  predicate DistinctPatterns(table: seq<(string, string)>) {
    forall i, j :: 0 <= i < j < |table| ==> table[i].0 != table[j].0
  }

  /** The search finds the first match, and finds nothing only when no entry matches. */
  lemma {:induction false} FirstIndexIsFirst(table: seq<(string, string)>, key: string)
    ensures FirstIndex(table, key).Some? ==> forall j :: 0 <= j < FirstIndex(table, key).value ==> table[j].0 != key
    ensures FirstIndex(table, key).None? <==> forall j :: 0 <= j < |table| ==> table[j].0 != key
    decreases |table|
  {
    if table != [] && table[0].0 != key {
      FirstIndexIsFirst(table[1..], key);
      assert forall j :: 1 <= j < |table| ==> table[j] == table[1..][j - 1];
    }
  }

  /** With distinct patterns, first-match search finds each entry's own text. */
  lemma FindUnique(table: seq<(string, string)>, i: nat)
    requires DistinctPatterns(table)
    requires i < |table|
    ensures Find(table, table[i].0) == Some(table[i].1)
  {
    FirstIndexIsFirst(table, table[i].0);
  }

  /** Concatenation distributes over joining the lists of parts. */
  lemma {:induction false} ConcatAppend(a: seq<string>, b: seq<string>)
    ensures Concat(a + b) == Concat(a) + Concat(b)
    decreases |b|
  {
    if b == [] {
      assert a + b == a;
    } else {
      var front, g := b[..|b| - 1], b[|b| - 1];
      ConcatAppend(a, front);
      assert (a + b)[..|a + b| - 1] == a + front;
      var x, y := Concat(a), Concat(front);
      assert (x + y) + g == x + (y + g);
    }
  }

  /** Translation works group by group: the text of a concatenation is the concatenation of the texts. */
  lemma TranslateAppend(table: seq<(string, string)>, a: seq<string>, b: seq<string>)
    ensures Translate(table, a + b) == Translate(table, a) + Translate(table, b)
  {
    assert Texts(table, a + b) == Texts(table, a) + Texts(table, b);
    ConcatAppend(Texts(table, a), Texts(table, b));
  }

  /** One more group adds its own text at the end. */
  lemma TranslateSnoc(table: seq<(string, string)>, groups: seq<string>, g: string)
    ensures Translate(table, groups + [g]) == Translate(table, groups) + GroupText(table, g)
  {
    TranslateAppend(table, groups, [g]);
    assert Texts(table, [g]) == [GroupText(table, g)];
    assert Concat([GroupText(table, g)]) == Concat([]) + GroupText(table, g);
  }

  /** A group with no entry contributes nothing, wherever it stands. */
  lemma UnmatchedGroupDropped(table: seq<(string, string)>, a: seq<string>, g: string, b: seq<string>)
    requires Find(table, g) == None
    ensures Translate(table, a + [g] + b) == Translate(table, a + b)
  {
    TranslateAppend(table, a + [g], b);
    TranslateSnoc(table, a, g);
    TranslateAppend(table, a, b);
  }

  // ----- Trimming -----

  /** Trimming leaves a string alone that neither starts nor ends with whitespace. */
  lemma TrimIdentity(s: string)
    requires s == [] || (!IsWhitespace(s[0]) && !IsWhitespace(s[|s| - 1]))
    ensures Trim(s) == s
  {
    var r := Trim(s);
    var i: nat :| TrimmedAt(s, r, i);
  }

  /** Trimming a string of whitespace leaves nothing. */
  lemma TrimAllWhitespace(s: string)
    requires forall k :: 0 <= k < |s| ==> IsWhitespace(s[k])
    ensures Trim(s) == ""
  {
    var r := Trim(s);
    var i: nat :| TrimmedAt(s, r, i);
  }

  // ----- The Morse table in particular -----

  /** A pattern of the table is decoded to its own entry's text, whatever its position. */
  lemma LookupFindsEntry(i: nat)
    requires i < |MORSE_MAP|
    ensures Lookup(MORSE_MAP[i].0) == Some(MORSE_MAP[i].1)
  {
    PatternsDistinct();
    FindUnique(MORSE_MAP, i);
  }

  // Lemmas about particular groups take the group as a parameter fixed by a
  // requires clause, so that the search is not unrolled over the literal table.

  /** The word sentinel decodes to a space. */
  lemma LookupSpace(g: string)
    requires g == " "
    ensures Lookup(g) == Some(" ")
  {
    PatternShapes();
    LookupFindsEntry(36);
  }

  /** A group of no marks or of more than five has no entry. */
  lemma NoEntryOutsideLengths(g: string)
    requires |g| == 0 || |g| > 5
    ensures Lookup(g) == None
  {
    PatternShapes();
  }

  /** In particular the empty group and `..--..` decode to nothing. */
  lemma UnknownGroups(g: string)
    requires g == "" || g == "..--.."
    ensures Lookup(g) == None
  {
    NoEntryOutsideLengths(g);
  }

  /** Three groups translate to their three texts. */
  lemma TranslateThree(table: seq<(string, string)>, x: string, y: string, z: string)
    ensures Translate(table, [x, y, z]) == GroupText(table, x) + GroupText(table, y) + GroupText(table, z)
  {
    TranslateSnoc(table, [], x);
    TranslateSnoc(table, [x], y);
    TranslateSnoc(table, [x, y], z);
    assert [] + [x] == [x] && [x] + [y] == [x, y] && [x, y] + [z] == [x, y, z];
  }

  /** `SOS` keyed as three groups decodes to `SOS`. */
  lemma DecodeSos(groups: seq<string>)
    requires groups == ["...", "---", "..."]
    ensures Decode(groups) == "SOS"
  {
    // Each lookup is proved on its own; together they would be unrolled
    // against each other over the literal table.
    LookupS(groups[0]);
    LookupO(groups[1]);
    TranslateSos(groups[0], groups[1]);
    assert groups == [groups[0], groups[1], groups[0]];
    TrimIdentity("SOS");
  }

  /** Three dots stand for `S`. */
  lemma LookupS(g: string)
    requires g == "..."
    ensures GroupText(MORSE_MAP, g) == "S"
  {
    LookupFindsEntry(18);
  }

  /** Three dashes stand for `O`. */
  lemma LookupO(g: string)
    requires g == "---"
    ensures GroupText(MORSE_MAP, g) == "O"
  {
    LookupFindsEntry(14);
  }

  /** Whatever groups stand for `S` and `O`, the word `S O S` translates to `SOS`. */
  lemma TranslateSos(s: string, o: string)
    requires GroupText(MORSE_MAP, s) == "S" && GroupText(MORSE_MAP, o) == "O"
    ensures Translate(MORSE_MAP, [s, o, s]) == "SOS"
  {
    TranslateThree(MORSE_MAP, s, o, s);
    assert "S" + "O" + "S" == "SOS";
  }

  /** Groups that each add a space or nothing translate to spaces only. */
  lemma {:induction false} TranslateSpaces(table: seq<(string, string)>, groups: seq<string>)
    requires forall k :: 0 <= k < |groups| ==> GroupText(table, groups[k]) in {" ", ""}
    ensures forall k :: 0 <= k < |Translate(table, groups)| ==> Translate(table, groups)[k] == ' '
    decreases |groups|
  {
    if groups != [] {
      var front, g := groups[..|groups| - 1], groups[|groups| - 1];
      TranslateSpaces(table, front);
      assert groups == front + [g];
      TranslateSnoc(table, front, g);
    }
  }

  /**
   * A group list made only of word sentinels and groups without an entry
   * decodes to the empty string: the spaces are trimmed away.
   */
  lemma DecodeOnlySpaces(groups: seq<string>)
    requires forall k :: 0 <= k < |groups| ==> groups[k] == " " || Lookup(groups[k]) == None
    ensures Decode(groups) == ""
  {
    forall k | 0 <= k < |groups|
      ensures GroupText(MORSE_MAP, groups[k]) in {" ", ""}
    {
      if groups[k] == " " {
        LookupSpace(groups[k]);
      }
    }
    TranslateSpaces(MORSE_MAP, groups);
    TrimAllWhitespace(Translate(MORSE_MAP, groups));
  }

  // ----- A reference encoder, and the round trip through the decoder -----

  /** The table read the other way round: text, then pattern. */
  function Swapped(table: seq<(string, string)>): (r: seq<(string, string)>)
    ensures |r| == |table|
    ensures forall i :: 0 <= i < |table| ==> r[i].0 == table[i].1 && r[i].1 == table[i].0
  {
    seq(|table|, i requires 0 <= i < |table| => (table[i].1, table[i].0))
  }

  /** The pattern of the first entry of `table` that stands for the character `c`. */
  function PatternFor(table: seq<(string, string)>, c: char): Option<string> {
    Find(Swapped(table), [c])
  }

  /** Every character of `text` has an entry in `table`. */
  predicate Encodable(table: seq<(string, string)>, text: string) {
    forall k :: 0 <= k < |text| ==> PatternFor(table, text[k]).Some?
  }

  /** One group per character of `text`: the pattern that stands for it. */
  function Encode(table: seq<(string, string)>, text: string): (groups: seq<string>)
    requires Encodable(table, text)
    ensures |groups| == |text|
    decreases |text|
  {
    if text == [] then []
    else Encode(table, text[..|text| - 1]) + [PatternFor(table, text[|text| - 1]).value]
  }

  /** With distinct patterns, the pattern found for a character is looked up as that character. */
  lemma PatternForIsDecoded(table: seq<(string, string)>, c: char)
    requires DistinctPatterns(table)
    requires PatternFor(table, c).Some?
    ensures GroupText(table, PatternFor(table, c).value) == [c]
  {
    var i := FirstIndex(Swapped(table), [c]).value;
    FindUnique(table, i);
  }

  /** With distinct patterns, translating the encoding of a text gives the text back. */
  lemma {:induction false} TranslateEncode(table: seq<(string, string)>, text: string)
    requires DistinctPatterns(table)
    requires Encodable(table, text)
    ensures Translate(table, Encode(table, text)) == text
    decreases |text|
  {
    if text != [] {
      var front, c := text[..|text| - 1], text[|text| - 1];
      assert Encodable(table, front) by {
        assert forall k :: 0 <= k < |front| ==> front[k] == text[k];
      }
      TranslateEncode(table, front);
      TranslateSnoc(table, Encode(table, front), PatternFor(table, c).value);
      PatternForIsDecoded(table, c);
      assert text == front + [c];
    }
  }

  /**
   * Decoding the encoding of a text yields the text, trimmed: a text keyed
   * letter by letter, word sentinels for its spaces, reads back unchanged
   * up to the whitespace at its ends.
   */
  lemma DecodeEncode(text: string)
    requires Encodable(MORSE_MAP, text)
    ensures Decode(Encode(MORSE_MAP, text)) == Trim(text)
  {
    PatternsDistinct();
    TranslateEncode(MORSE_MAP, text);
  }

  /**
   * Every character of the table is encoded by its own entry's pattern; in
   * particular the space is encoded by the word sentinel.
   */
  lemma EncodeEntry(i: nat)
    requires i < |MORSE_MAP|
    ensures |MORSE_MAP[i].1| == 1
    ensures PatternFor(MORSE_MAP, MORSE_MAP[i].1[0]) == Some(MORSE_MAP[i].0)
  {
    TextsDistinctCharacters();
    var sw := Swapped(MORSE_MAP);
    assert DistinctPatterns(sw);
    FindUnique(sw, i);
    assert [MORSE_MAP[i].1[0]] == MORSE_MAP[i].1;
  }
}
