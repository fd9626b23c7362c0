/** The checks that `2.py` runs on itself, stated for the model. Each check is
    stated for parameters equal to its literals, and the literals are cut apart
    in small lemmas of their own: Dafny unfolds a recursive function applied to
    a literal without bound, so every step is kept small. */
module CubeGameExamples {
  import opened Wrappers
  import opened Text
  import opened CubeGame

  /** The numerals the examples write. */
  lemma Numerals()
    ensures NatToString(1) == "1" && NatToString(2) == "2" && NatToString(3) == "3"
    ensures NatToString(4) == "4" && NatToString(6) == "6"
    ensures NatToString(12) == "12" && NatToString(13) == "13"
    ensures NatToString(14) == "14" && NatToString(15) == "15"
    ensures NatToString(50) == "50"
  {
    assert DigitChar(0) == '0' && DigitChar(1) == '1' && DigitChar(2) == '2';
    assert DigitChar(3) == '3' && DigitChar(4) == '4' && DigitChar(5) == '5';
    assert DigitChar(6) == '6';
    assert 12 / 10 == 1 && 12 % 10 == 2 && 13 / 10 == 1 && 13 % 10 == 3;
    assert 14 / 10 == 1 && 14 % 10 == 4 && 15 / 10 == 1 && 15 % 10 == 5;
    assert 50 / 10 == 5 && 50 % 10 == 0;
  }

  /** Writing one more entry appends ", " and the entry. */
  lemma FormatRoundAppend(lead: string, entries: seq<(nat, string)>, count: nat, colour: string)
    requires |entries| >= 1
    ensures FormatRound(lead, entries + [(count, colour)]) ==
      FormatRound(lead, entries) + ", " + EntryText(count, colour)
  {
    var pieces := EntryPieces(lead, entries);
    assert EntryPieces(lead, entries + [(count, colour)]) == pieces + [" " + EntryText(count, colour)];
    JoinAppend(pieces, " " + EntryText(count, colour), ',');
  }

  /** A round of one entry is that entry after the lead. */
  lemma FormatRoundSingle(lead: string, count: nat, colour: string)
    ensures FormatRound(lead, [(count, colour)]) == lead + EntryText(count, colour)
  {
    assert EntryPieces(lead, [(count, colour)]) == [lead + EntryText(count, colour)];
  }

  /** The pieces between the semicolons of a written game. */
  function RoundPieces(lead: string, rounds: seq<seq<(nat, string)>>): seq<string>
    requires forall k :: 0 <= k < |rounds| ==> |rounds[k]| >= 1
  {
    seq(|rounds|, k requires 0 <= k < |rounds| => FormatRound(if k == 0 then lead else " ", rounds[k]))
  }

  /** Writing one more round appends ";", a space and the round. */
  lemma FormatGameAppend(lead: string, rounds: seq<seq<(nat, string)>>, round: seq<(nat, string)>)
    requires |rounds| >= 1 && forall k :: 0 <= k < |rounds| ==> |rounds[k]| >= 1
    requires |round| >= 1
    ensures FormatGame(lead, rounds + [round]) == FormatGame(lead, rounds) + ";" + FormatRound(" ", round)
  {
    assert FormatGame(lead, rounds) == Join(RoundPieces(lead, rounds), ';');
    assert RoundPieces(lead, rounds + [round]) == RoundPieces(lead, rounds) + [FormatRound(" ", round)];
    JoinAppend(RoundPieces(lead, rounds), FormatRound(" ", round), ';');
  }

  /** A game of one round is that round after the lead. */
  lemma FormatGameSingle(lead: string, round: seq<(nat, string)>)
    requires |round| >= 1
    ensures FormatGame(lead, [round]) == FormatRound(lead, round)
  {
    assert RoundPieces(lead, [round]) == [FormatRound(lead, round)];
  }

  /** The dict of one more entry is the dict updated with that entry. */
  lemma RoundOfAppend(entries: seq<(nat, string)>, count: nat, colour: string)
    ensures RoundOf(entries + [(count, colour)]) == RoundOf(entries)[colour := count]
  {
    assert (entries + [(count, colour)])[..|entries|] == entries;
  }

  /** A round of two entries, written. */
  lemma FormatTwo(lead: string, a: (nat, string), b: (nat, string))
    ensures FormatRound(lead, [a, b]) == lead + EntryText(a.0, a.1) + ", " + EntryText(b.0, b.1)
  {
    FormatRoundSingle(lead, a.0, a.1);
    FormatRoundAppend(lead, [a], b.0, b.1);
    assert [a] + [(b.0, b.1)] == [a, b];
  }

  /** A round of three entries, written. */
  lemma FormatThree(lead: string, a: (nat, string), b: (nat, string), c: (nat, string))
    ensures FormatRound(lead, [a, b, c]) ==
      lead + EntryText(a.0, a.1) + ", " + EntryText(b.0, b.1) + ", " + EntryText(c.0, c.1)
  {
    FormatTwo(lead, a, b);
    FormatRoundAppend(lead, [a, b], c.0, c.1);
    assert [a, b] + [(c.0, c.1)] == [a, b, c];
  }

  /** A game of two rounds, written. */
  lemma FormatGameTwo(lead: string, r0: seq<(nat, string)>, r1: seq<(nat, string)>)
    requires |r0| >= 1 && |r1| >= 1
    ensures FormatGame(lead, [r0, r1]) == FormatRound(lead, r0) + ";" + FormatRound(" ", r1)
  {
    FormatGameSingle(lead, r0);
    FormatGameAppend(lead, [r0], r1);
    assert [r0] + [r1] == [r0, r1];
  }

  /** A game of three rounds, written. */
  lemma FormatGameThree(lead: string, r0: seq<(nat, string)>, r1: seq<(nat, string)>, r2: seq<(nat, string)>)
    requires |r0| >= 1 && |r1| >= 1 && |r2| >= 1
    ensures FormatGame(lead, [r0, r1, r2]) ==
      FormatRound(lead, r0) + ";" + FormatRound(" ", r1) + ";" + FormatRound(" ", r2)
  {
    FormatGameTwo(lead, r0, r1);
    FormatGameAppend(lead, [r0, r1], r2);
    assert [r0, r1] + [r2] == [r0, r1, r2];
  }

  /** The dict of three entries. */
  lemma RoundOfThree(a: (nat, string), b: (nat, string), c: (nat, string))
    ensures RoundOf([a, b, c]) == map[a.1 := a.0][b.1 := b.0][c.1 := c.0]
  {
    RoundOfAppend([], a.0, a.1);
    RoundOfAppend([a], b.0, b.1);
    RoundOfAppend([a, b], c.0, c.1);
    assert [] + [(a.0, a.1)] == [a];
    assert [a] + [(b.0, b.1)] == [a, b];
    assert [a, b] + [(c.0, c.1)] == [a, b, c];
  }

  /** The dict of two entries. */
  lemma RoundOfTwo(a: (nat, string), b: (nat, string))
    ensures RoundOf([a, b]) == map[a.1 := a.0][b.1 := b.0]
  {
    RoundOfAppend([], a.0, a.1);
    RoundOfAppend([a], b.0, b.1);
    assert [] + [(a.0, a.1)] == [a];
    assert [a] + [(b.0, b.1)] == [a, b];
  }

  /** The cube entries of `test_parse_round` and `test_parse_game`. */
  lemma EntryTexts()
    ensures EntryText(50, "green") == "50 green" && EntryText(3, "blue") == "3 blue"
    ensures EntryText(4, "red") == "4 red" && EntryText(1, "red") == "1 red"
    ensures EntryText(2, "green") == "2 green" && EntryText(6, "blue") == "6 blue"
  {
    Numerals();
  }

  /** The cube entries of `test_check_round` and `test_check_game`. */
  lemma CheckEntryTexts()
    ensures EntryText(15, "blue") == "15 blue" && EntryText(12, "red") == "12 red"
    ensures EntryText(13, "green") == "13 green" && EntryText(14, "blue") == "14 blue"
  {
    Numerals();
  }

  /** The round of `test_parse_round`, written. */
  lemma ParseRoundText(s: string)
    requires s == "50 green, 3 blue, 4 red"
    ensures s == FormatRound("", [(50, "green"), (3, "blue"), (4, "red")])
  {
    EntryTexts();
    assert s == "" + "50 green" + ", " + "3 blue" + ", " + "4 red";
    FormatThree("", (50, "green"), (3, "blue"), (4, "red"));
  }

  /** `test_parse_round`. */
  lemma TestParseRound(s: string)
    requires s == "50 green, 3 blue, 4 red"
    ensures ParseRound(s) == Success(map["green" := 50, "blue" := 3, "red" := 4])
  {
    ParseRoundText(s);
    ParseRoundOfWritten("", [(50, "green"), (3, "blue"), (4, "red")]);
    RoundOfThree((50, "green"), (3, "blue"), (4, "red"));
  }

  /** The rounds of `test_parse_game` and `test_parse_line`. */
  const SampleRounds: seq<seq<(nat, string)>> :=
    [[(3, "blue"), (4, "red")], [(1, "red"), (2, "green"), (6, "blue")], [(2, "green")]]

  /** The game of `test_parse_game` and `test_parse_line`. */
  const SampleGame: Game :=
    [map["blue" := 3, "red" := 4], map["red" := 1, "green" := 2, "blue" := 6], map["green" := 2]]

  /** The rounds of the sample game, written. */
  lemma SampleRoundTexts()
    ensures FormatRound("", SampleRounds[0]) == "3 blue, 4 red"
    ensures FormatRound(" ", SampleRounds[0]) == " 3 blue, 4 red"
    ensures FormatRound(" ", SampleRounds[1]) == " 1 red, 2 green, 6 blue"
    ensures FormatRound(" ", SampleRounds[2]) == " 2 green"
  {
    EntryTexts();
    FormatTwo("", (3, "blue"), (4, "red"));
    FormatTwo(" ", (3, "blue"), (4, "red"));
    FormatThree(" ", (1, "red"), (2, "green"), (6, "blue"));
    FormatRoundSingle(" ", 2, "green");
    SampleRoundLiterals();
  }

  /** The written rounds, cut into entries. */
  lemma SampleRoundLiterals()
    ensures "3 blue, 4 red" == "" + "3 blue" + ", " + "4 red"
    ensures " 3 blue, 4 red" == " " + "3 blue" + ", " + "4 red"
    ensures " 1 red, 2 green, 6 blue" == " " + "1 red" + ", " + "2 green" + ", " + "6 blue"
    ensures " 2 green" == " " + "2 green"
  {
  }

  /** The sample game written after `lead`. */
  lemma SampleGameText(lead: string)
    ensures FormatGame(lead, SampleRounds) ==
      FormatRound(lead, SampleRounds[0]) + ";" + " 1 red, 2 green, 6 blue" + ";" + " 2 green"
  {
    var r := SampleRounds;
    SampleRoundTexts();
    FormatGameThree(lead, r[0], r[1], r[2]);
  }

  /** The sample rounds can be written after either lead. */
  lemma SampleRoundsWritable(lead: string)
    requires lead == "" || lead == " "
    ensures |SampleRounds| >= 1 && forall k :: 0 <= k < |SampleRounds| ==> |SampleRounds[k]| >= 1
    ensures forall k :: 0 <= k < |lead| ==> IsSpace(lead[k]) && lead[k] != ',' && lead[k] != ';' && lead[k] != ':'
    ensures forall k, j :: 0 <= k < |SampleRounds| && 0 <= j < |SampleRounds[k]| ==> IsColourWord(SampleRounds[k][j].1)
  {
  }

  /** The dicts of the sample rounds are the sample game. */
  lemma SampleRoundsRead()
    ensures seq(|SampleRounds|, k requires 0 <= k < |SampleRounds| => RoundOf(SampleRounds[k])) == SampleGame
  {
    var r := SampleRounds;
    RoundOfTwo((3, "blue"), (4, "red"));
    RoundOfThree((1, "red"), (2, "green"), (6, "blue"));
    RoundOfAppend([], 2, "green");
    assert [] + [(2, "green")] == r[2];
    var parsed := seq(|r|, k requires 0 <= k < |r| => RoundOf(r[k]));
    assert parsed == [parsed[0], parsed[1], parsed[2]];
  }

  /** What `parse_game` makes of the sample rounds. */
  lemma SampleGameParsed(lead: string)
    requires lead == "" || lead == " "
    ensures ':' !in FormatGame(lead, SampleRounds)
    ensures ParseGame(FormatGame(lead, SampleRounds)) == Success(SampleGame)
  {
    SampleRoundsWritable(lead);
    ParseGameOfWritten(lead, SampleRounds);
    SampleRoundsRead();
  }

  /** The sample texts, cut where the rounds start. */
  lemma SampleGameCut()
    ensures "3 blue, 4 red; 1 red, 2 green, 6 blue; 2 green" ==
      "3 blue, 4 red" + ";" + " 1 red, 2 green, 6 blue" + ";" + " 2 green"
  {
  }

  lemma SampleLineCut()
    ensures "Game 1: 3 blue, 4 red; 1 red, 2 green, 6 blue; 2 green" ==
      "Game 1: 3 blue, 4 red" + ";" + " 1 red, 2 green, 6 blue" + ";" + " 2 green"
  {
  }

  lemma SampleLineHead()
    ensures "Game 1: 3 blue, 4 red" == "Game" + " " + "1" + ":" + " 3 blue, 4 red"
  {
    assert "Game 1: 3 blue, 4 red" == "Game 1:" + " 3 blue, 4 red";
  }

  lemma Regroup(p: string, a: string, b: string, c: string, d: string, e: string)
    ensures p + (a + b + c + d + e) == p + a + b + c + d + e
  {
  }

  /** The game of `test_parse_game`, written. */
  lemma ParseGameText(s: string)
    requires s == "3 blue, 4 red; 1 red, 2 green, 6 blue; 2 green"
    ensures s == FormatGame("", SampleRounds)
  {
    SampleGameCut();
    SampleRoundTexts();
    SampleGameText("");
  }

  /** `test_parse_game`. */
  lemma TestParseGame(s: string)
    requires s == "3 blue, 4 red; 1 red, 2 green, 6 blue; 2 green"
    ensures ParseGame(s) == Success(SampleGame)
  {
    ParseGameText(s);
    SampleGameParsed("");
  }

  /** The line of `test_parse_line`, written. */
  lemma ParseLineText(s: string)
    requires s == "Game 1: 3 blue, 4 red; 1 red, 2 green, 6 blue; 2 green"
    ensures s == "Game" + " " + NatToString(1) + ":" + FormatGame(" ", SampleRounds)
  {
    SampleLineCut();
    SampleLineHead();
    SampleRoundTexts();
    SampleGameText(" ");
    Numerals();
    Regroup("Game" + " " + "1" + ":", " 3 blue, 4 red", ";", " 1 red, 2 green, 6 blue", ";", " 2 green");
  }

  /** The word before the id holds neither a space nor a colon. */
  lemma GameWord()
    ensures ' ' !in "Game" && ':' !in "Game"
  {
  }

  /** What `parse_line` makes of the sample game written after "Game 1:". */
  lemma SampleLineParsed(t: string)
    requires t == "Game" + " " + NatToString(1) + ":" + FormatGame(" ", SampleRounds)
    ensures ParseLine(t) == Success(Record(1, SampleGame))
  {
    SampleGameParsed(" ");
    GameWord();
    ParseLineOfRecord("Game", 1, FormatGame(" ", SampleRounds));
  }

  /** `test_parse_line`. */
  lemma TestParseLine(s: string)
    requires s == "Game 1: 3 blue, 4 red; 1 red, 2 green, 6 blue; 2 green"
    ensures ParseLine(s) == Success(Record(1, SampleGame))
  {
    ParseLineText(s);
    SampleLineParsed(s);
  }

  /** The rounds of `test_check_round` and `test_check_game`, as entries. */
  const RoundA: seq<(nat, string)> := [(15, "blue"), (12, "red"), (13, "green")]
  const RoundB: seq<(nat, string)> := [(13, "green"), (14, "blue"), (12, "red")]
  const RoundC: seq<(nat, string)> := [(14, "blue"), (12, "red"), (13, "green")]

  /** The same rounds, as dicts. */
  const MapA: Round := map["blue" := 15, "red" := 12, "green" := 13]
  const MapB: Round := map["green" := 13, "blue" := 14, "red" := 12]
  const MapC: Round := map["blue" := 14, "red" := 12, "green" := 13]

  /** The written rounds, cut into entries. */
  lemma CheckRoundLiteralA()
    ensures "15 blue, 12 red, 13 green" == "" + "15 blue" + ", " + "12 red" + ", " + "13 green"
  {
  }

  lemma CheckRoundLiteralB()
    ensures "13 green, 14 blue, 12 red" == "" + "13 green" + ", " + "14 blue" + ", " + "12 red"
    ensures " 13 green, 14 blue, 12 red" == " " + "13 green" + ", " + "14 blue" + ", " + "12 red"
  {
  }

  lemma CheckRoundLiteralC()
    ensures "14 blue, 12 red, 13 green" == "" + "14 blue" + ", " + "12 red" + ", " + "13 green"
  {
  }

  /** The rounds of `test_check_round` and `test_check_game`, written. */
  lemma CheckRoundTexts()
    ensures FormatRound("", RoundA) == "15 blue, 12 red, 13 green"
    ensures FormatRound("", RoundB) == "13 green, 14 blue, 12 red"
    ensures FormatRound(" ", RoundB) == " 13 green, 14 blue, 12 red"
    ensures FormatRound("", RoundC) == "14 blue, 12 red, 13 green"
  {
    CheckEntryTexts();
    CheckRoundLiteralA();
    CheckRoundLiteralB();
    CheckRoundLiteralC();
    FormatThree("", (15, "blue"), (12, "red"), (13, "green"));
    FormatThree("", (13, "green"), (14, "blue"), (12, "red"));
    FormatThree(" ", (13, "green"), (14, "blue"), (12, "red"));
    FormatThree("", (14, "blue"), (12, "red"), (13, "green"));
  }

  lemma ColourWords()
    ensures IsColourWord("red") && IsColourWord("green") && IsColourWord("blue")
  {
    assert !IsSpace('r') && !IsSpace('e') && !IsSpace('d') && !IsSpace('g') && !IsSpace('n');
    assert !IsSpace('b') && !IsSpace('l') && !IsSpace('u');
  }

  /** What `parse_round` makes of a written round of three entries. */
  lemma ThreeEntriesParsed(lead: string, a: (nat, string), b: (nat, string), c: (nat, string))
    requires lead == "" || lead == " "
    requires IsColourWord(a.1) && IsColourWord(b.1) && IsColourWord(c.1)
    ensures ';' !in FormatRound(lead, [a, b, c])
    ensures ParseRound(FormatRound(lead, [a, b, c])) == Success(map[a.1 := a.0][b.1 := b.0][c.1 := c.0])
  {
    FormatRoundSeparators(lead, [a, b, c]);
    ParseRoundOfWritten(lead, [a, b, c]);
    RoundOfThree(a, b, c);
  }

  /** What `parse_round` makes of each written round. */
  lemma CheckRoundsParsed(lead: string)
    requires lead == "" || lead == " "
    ensures ';' !in FormatRound(lead, RoundA) && ';' !in FormatRound(lead, RoundB)
    ensures ParseRound(FormatRound(lead, RoundA)) == Success(MapA)
    ensures ParseRound(FormatRound(lead, RoundB)) == Success(MapB)
    ensures ParseRound(FormatRound(lead, RoundC)) == Success(MapC)
  {
    ColourWords();
    ThreeEntriesParsed(lead, (15, "blue"), (12, "red"), (13, "green"));
    ThreeEntriesParsed(lead, (13, "green"), (14, "blue"), (12, "red"));
    ThreeEntriesParsed(lead, (14, "blue"), (12, "red"), (13, "green"));
  }

  /** `check_round` on the three rounds: 15 blue cubes are one too many. */
  lemma CheckRoundResults()
    ensures CheckRound(MapA, DefaultLimits) == Success(false)
    ensures CheckRound(MapB, DefaultLimits) == Success(true)
    ensures CheckRound(MapC, DefaultLimits) == Success(true)
  {
    assert MapA["blue"] > LimitOf(DefaultLimits)["blue"];
  }

  /** The first round of `test_check_round`, parsed. */
  lemma FirstCheckRoundParsed(t: string)
    requires t == "15 blue, 12 red, 13 green"
    ensures ParseRound(t) == Success(MapA)
  {
    CheckRoundTexts();
    CheckRoundsParsed("");
  }

  /** The second round of `test_check_round`, parsed. */
  lemma SecondCheckRoundParsed(t: string)
    requires t == "13 green, 14 blue, 12 red"
    ensures ParseRound(t) == Success(MapB)
  {
    CheckRoundTexts();
    CheckRoundsParsed("");
  }

  /** `test_check_round`. */
  lemma TestCheckRound(round1: string, round2: string)
    requires round1 == "15 blue, 12 red, 13 green"
    requires round2 == "13 green, 14 blue, 12 red"
    ensures ParseRound(round1).Success? && CheckRound(ParseRound(round1).value, DefaultLimits) == Success(false)
    ensures ParseRound(round2).Success? && CheckRound(ParseRound(round2).value, DefaultLimits) == Success(true)
  {
    FirstCheckRoundParsed(round1);
    SecondCheckRoundParsed(round2);
    CheckRoundResults();
  }

  /** Two round texts joined by ';' are parsed as the list of the two. */
  lemma TwoRoundsSplit(t0: string, t1: string)
    requires ';' !in t0 && ';' !in t1
    ensures ParseGame(t0 + ";" + t1) == ParseRounds([t0, t1])
  {
    SplitTwo(t0, t1);
  }

  /** Two round texts that parse, parsed in order. */
  lemma TwoRoundsParsed(t0: string, t1: string, m0: Round, m1: Round)
    requires ParseRound(t0) == Success(m0) && ParseRound(t1) == Success(m1)
    ensures ParseRounds([t0, t1]) == Success([m0, m1])
  {
    var texts, game := [t0, t1], [m0, m1];
    forall k | 0 <= k < 2 ensures ParseRound(texts[k]) == Success(game[k]) {
      if k == 1 {
        assert texts[k] == t1 && game[k] == m1;
      }
    }
    ParseRoundsOfParsed(texts, game);
  }

  /** Two texts without ';' joined by one split back into the two. */
  lemma SplitTwo(t0: string, t1: string)
    requires ';' !in t0 && ';' !in t1
    ensures Split(t0 + ";" + t1, ';') == [t0, t1]
  {
    assert Join([t0, t1], ';') == t0 + ";" + t1;
    SplitJoin([t0, t1], ';');
  }

  /** The first game of `test_check_game`, cut where its second round starts. */
  lemma CheckGameLiteral1()
    ensures "15 blue, 12 red, 13 green; 13 green, 14 blue, 12 red" ==
      "15 blue, 12 red, 13 green" + ";" + " 13 green, 14 blue, 12 red"
  {
  }

  /** The second game of `test_check_game`, cut where its second round starts. */
  lemma CheckGameLiteral2()
    ensures "14 blue, 12 red, 13 green; 13 green, 14 blue, 12 red" ==
      "14 blue, 12 red, 13 green" + ";" + " 13 green, 14 blue, 12 red"
  {
  }

  /** The games of `test_check_game`, written. */
  lemma CheckGameTexts(game1: string, game2: string)
    requires game1 == "15 blue, 12 red, 13 green; 13 green, 14 blue, 12 red"
    requires game2 == "14 blue, 12 red, 13 green; 13 green, 14 blue, 12 red"
    ensures game1 == FormatRound("", RoundA) + ";" + FormatRound(" ", RoundB)
    ensures game2 == FormatRound("", RoundC) + ";" + FormatRound(" ", RoundB)
  {
    CheckGameLiteral1();
    CheckGameLiteral2();
    CheckRoundTexts();
  }

  /** What `parse_game` makes of a written game of two rounds. */
  lemma TwoRoundGameParsed(t0: string, t1: string, m0: Round, m1: Round)
    requires ';' !in t0 && ';' !in t1
    requires ParseRound(t0) == Success(m0) && ParseRound(t1) == Success(m1)
    ensures ParseGame(t0 + ";" + t1) == Success([m0, m1])
  {
    TwoRoundsSplit(t0, t1);
    TwoRoundsParsed(t0, t1, m0, m1);
  }

  /** What `parse_game` makes of the written games. */
  lemma CheckGamesParsed()
    ensures ParseGame(FormatRound("", RoundA) + ";" + FormatRound(" ", RoundB)) == Success([MapA, MapB])
    ensures ParseGame(FormatRound("", RoundC) + ";" + FormatRound(" ", RoundB)) == Success([MapC, MapB])
  {
    ColourWords();
    ThreeEntriesParsed("", (15, "blue"), (12, "red"), (13, "green"));
    ThreeEntriesParsed(" ", (13, "green"), (14, "blue"), (12, "red"));
    ThreeEntriesParsed("", (14, "blue"), (12, "red"), (13, "green"));
    TwoRoundGameParsed(FormatRound("", RoundA), FormatRound(" ", RoundB), MapA, MapB);
    TwoRoundGameParsed(FormatRound("", RoundC), FormatRound(" ", RoundB), MapC, MapB);
  }

  /** `check_game` on the parsed games: the first has a round with 15 blue cubes. */
  lemma CheckGameResults()
    ensures CheckGame([MapA, MapB]) == Success(false)
    ensures CheckGame([MapC, MapB]) == Success(true)
  {
    CheckRoundResults();
    assert [MapA, MapB][0] == MapA;
    assert forall k :: 0 <= k < 2 ==> [MapC, MapB][k] == MapC || [MapC, MapB][k] == MapB;
  }

  /** `test_check_game`. */
  lemma TestCheckGame(game1: string, game2: string)
    requires game1 == "15 blue, 12 red, 13 green; 13 green, 14 blue, 12 red"
    requires game2 == "14 blue, 12 red, 13 green; 13 green, 14 blue, 12 red"
    ensures ParseGame(game1).Success? && CheckGame(ParseGame(game1).value) == Success(false)
    ensures ParseGame(game2).Success? && CheckGame(ParseGame(game2).value) == Success(true)
  {
    CheckGameTexts(game1, game2);
    CheckGamesParsed();
    CheckGameResults();
  }
}
