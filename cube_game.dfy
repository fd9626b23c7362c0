/** The cube-game script of `2.py`. Each input line records a game,
    `Game <id>: <round>; <round>; ...`, where a round lists cubes shown from a
    bag as `<count> <colour>, <count> <colour>, ...`. Part one sums the ids of the
    games that are possible with 12 red, 13 green and 14 blue cubes; part two
    sums, over all games, the product of the largest count shown of each colour. */
module CubeGame {
  import opened Wrappers
  import opened Sums
  import opened Text

  /** `Round`: colour name to the number of cubes of that colour shown. */
  type Round = map<string, nat>

  /** `Game`: the rounds of one game, in the order they were played. */
  type Game = seq<Round>

  /** `Line`: a parsed input line, the game id with its rounds. */
  datatype Record = Record(id: nat, game: Game)

  /** The Python exceptions the script lets propagate on unexpected input. */
  datatype Error =
    | IndexError  // a line without ':' or without a space before the id
    | ValueError  // an entry that is not "<count> <colour>", a non-numeral count or id, max() of []
    | KeyError    // a colour other than red, green and blue

  const ColourSet: set<string> := {"red", "green", "blue"}

  /* ---------- split_round, parse_round, parse_game, parse_line ---------- */

  /** `split_round`: the comma-separated cube entries, each stripped and split
      at single spaces into its fields. */
  function SplitRound(text: string): (entries: seq<seq<string>>)
    ensures |entries| == Occurrences(text, ',') + 1
    ensures forall k :: 0 <= k < |entries| ==> |entries[k]| >= 1
  {
    var cubes := Split(text, ',');
    seq(|cubes|, k requires 0 <= k < |cubes| => Split(Strip(cubes[k]), ' '))
  }

  /** Joining the fields of each entry with spaces gives back the stripped
      entry, and the entries are exactly the comma-separated parts of the text. */
  lemma SplitRoundRecoversText(text: string)
    ensures |SplitRound(text)| == |Split(text, ',')|
    ensures Join(Split(text, ','), ',') == text
    ensures forall k :: 0 <= k < |SplitRound(text)| ==>
      Join(SplitRound(text)[k], ' ') == Strip(Split(text, ',')[k])
  {
    JoinSplit(text, ',');
    var cubes := Split(text, ',');
    forall k | 0 <= k < |cubes|
      ensures Join(SplitRound(text)[k], ' ') == Strip(cubes[k])
    {
      JoinSplit(Strip(cubes[k]), ' ');
    }
  }

  /** An entry the dict comprehension of `parse_round` accepts: exactly two
      fields, the first of them a numeral. */
  predicate IsCubeEntry(entry: seq<string>)
  {
    |entry| == 2 && IsNumeral(entry[0])
  }

  /** No entry after `k` names the colour entry `k` names. */
  predicate LastOfColour(entries: seq<seq<string>>, k: nat)
    requires k < |entries| && |entries[k]| == 2
  {
    forall j :: k < j < |entries| && |entries[j]| == 2 ==> entries[j][1] != entries[k][1]
  }

  /** `{color: int(n) for n, color in entries}`: accepted exactly when every
      entry is a count followed by a colour. */
  function EntriesToRound(entries: seq<seq<string>>): (r: Result<Round, Error>)
    ensures r.Success? <==> forall k :: 0 <= k < |entries| ==> IsCubeEntry(entries[k])
    ensures r.Failure? ==> r.error == ValueError
  {
    if entries == [] then Success(map[])
    else
      var init, last := entries[..|entries| - 1], entries[|entries| - 1];
      match EntriesToRound(init)
      case Failure(e) => Failure(e)
      case Success(m) =>
        if |last| != 2 then Failure(ValueError)
        else match ParseNat(last[0])
          case None => Failure(ValueError)
          case Some(n) => Success(m[last[1] := n])
  }

  /** The dict has one key per colour named. */
  lemma {:induction false} EntriesToRoundKeys(entries: seq<seq<string>>)
    requires EntriesToRound(entries).Success?
    ensures forall c :: c in EntriesToRound(entries).value <==>
      exists k :: 0 <= k < |entries| && entries[k][1] == c
  {
    if entries != [] {
      var init, last := entries[..|entries| - 1], entries[|entries| - 1];
      EntriesToRoundKeys(init);
      var m0 := EntriesToRound(init).value;
      var m := EntriesToRound(entries).value;
      assert m == m0[last[1] := DecimalValue(last[0])];
      forall c ensures c in m <==> exists k :: 0 <= k < |entries| && entries[k][1] == c {
        if c in m0 {
          var k :| 0 <= k < |init| && init[k][1] == c;
          assert entries[k] == init[k];
        }
        if k :| 0 <= k < |entries| && entries[k][1] == c {
          if k < |init| {
            assert init[k] == entries[k];
          }
        }
      }
    }
  }

  /** When a colour is named more than once, the count of its last entry wins. */
  lemma {:induction false} EntriesToRoundLastWins(entries: seq<seq<string>>, k: nat)
    requires EntriesToRound(entries).Success?
    requires k < |entries| && LastOfColour(entries, k)
    ensures entries[k][1] in EntriesToRound(entries).value
    ensures EntriesToRound(entries).value[entries[k][1]] == DecimalValue(entries[k][0])
  {
    EntriesToRoundKeys(entries);
    var init, last := entries[..|entries| - 1], entries[|entries| - 1];
    if k < |init| {
      assert init[k] == entries[k];
      assert last[1] != entries[k][1];
      assert LastOfColour(init, k) by {
        forall j | k < j < |init| && |init[j]| == 2 ensures init[j][1] != init[k][1] {
          assert init[j] == entries[j];
        }
      }
      EntriesToRoundLastWins(init, k);
      EntriesToRoundKeys(init);
    }
  }

  /** `parse_round`: a round's text as a map from colour to count. It succeeds
      exactly when every entry of `split_round` is two fields with a numeral
      first; otherwise it raises `ValueError`, from the unpacking or from `int`. */
  function ParseRound(text: string): (r: Result<Round, Error>)
    ensures r.Success? <==> forall k :: 0 <= k < |SplitRound(text)| ==> IsCubeEntry(SplitRound(text)[k])
    ensures r.Failure? ==> r.error == ValueError
  {
    EntriesToRound(SplitRound(text))
  }

  /** Text with no entry at all, such as "", is refused by `int`, so a parsed
      round is never empty. */
  lemma ParsedRoundNotEmpty(text: string)
    requires ParseRound(text).Success?
    ensures |ParseRound(text).value| >= 1
  {
    var entries := SplitRound(text);
    EntriesToRoundKeys(entries);
    assert entries[0][1] in ParseRound(text).value;
  }

  /** A list comprehension whose element expression may raise: the results are
      taken in order and the first failure propagates. */
  function Collect(results: seq<Result<Round, Error>>): (r: Result<Game, Error>)
    ensures r.Success? ==> |r.value| == |results|
    ensures r.Failure? ==> exists k :: 0 <= k < |results| && results[k] == Failure(r.error)
  {
    if results == [] then Success([])
    else
      match results[0]
      case Failure(e) => Failure(e)
      case Success(round) =>
        match Collect(results[1..])
        case Failure(e) => Failure(e)
        case Success(rest) => Success([round] + rest)
  }

  /** Collecting succeeds exactly when every result does. */
  lemma {:induction false} CollectSucceeds(results: seq<Result<Round, Error>>)
    ensures Collect(results).Success? <==> forall k :: 0 <= k < |results| ==> results[k].Success?
  {
    if results != [] {
      CollectSucceeds(results[1..]);
      assert forall k :: 1 <= k < |results| ==> results[k] == results[1..][k - 1];
    }
  }

  /** Element `k` of a collected list is the value of result `k`; conversely,
      results that are all successes collect to their values. */
  lemma {:induction false} CollectInOrder(results: seq<Result<Round, Error>>, game: Game)
    ensures Collect(results) == Success(game) <==>
      |game| == |results| && forall k :: 0 <= k < |results| ==> results[k] == Success(game[k])
  {
    if results != [] && game != [] {
      CollectInOrder(results[1..], game[1..]);
      assert forall k :: 1 <= k < |results| ==> results[k] == results[1..][k - 1];
      assert forall k :: 1 <= k < |game| ==> game[k] == game[1..][k - 1];
      assert game == [game[0]] + game[1..];
    }
  }

  /** The parse of each round text, in order. */
  function RoundResults(texts: seq<string>): (results: seq<Result<Round, Error>>)
    ensures |results| == |texts|
    ensures forall k :: 0 <= k < |texts| ==> results[k] == ParseRound(texts[k])
  {
    seq(|texts|, k requires 0 <= k < |texts| => ParseRound(texts[k]))
  }

  /** The rounds of a game, parsed in order; the first bad round aborts. */
  function ParseRounds(texts: seq<string>): (r: Result<Game, Error>)
    ensures r.Success? ==> |r.value| == |texts|
    ensures r.Failure? ==> r.error == ValueError
  {
    Collect(RoundResults(texts))
  }

  /** Parsing the rounds succeeds exactly when every round text parses. */
  lemma ParseRoundsSucceeds(texts: seq<string>)
    ensures ParseRounds(texts).Success? <==> forall k :: 0 <= k < |texts| ==> ParseRound(texts[k]).Success?
  {
    CollectSucceeds(RoundResults(texts));
  }

  /** Round `k` of the result is the parse of text `k`. */
  lemma ParseRoundsInOrder(texts: seq<string>)
    requires ParseRounds(texts).Success?
    ensures forall k :: 0 <= k < |texts| ==> ParseRound(texts[k]) == Success(ParseRounds(texts).value[k])
  {
    CollectInOrder(RoundResults(texts), ParseRounds(texts).value);
  }

  /** `parse_game`: one round per ';'-separated part of the text; a round that
      does not parse raises `ValueError`. */
  function ParseGame(text: string): (r: Result<Game, Error>)
    ensures r.Success? ==> |r.value| == Occurrences(text, ';') + 1
    ensures r.Failure? ==> r.error == ValueError
  {
    ParseRounds(Split(text, ';'))
  }

  /** `parse_line`: the id is the second space-separated word before the first
      ':' (the first word is not looked at), the game is the text between the
      first and the second ':'. The errors come in the order Python meets them:
      `IndexError` when the text before the first ':' has no space, so `[1]`
      has nothing to take; `ValueError` when the second word there is not a
      numeral; then `IndexError` when the line has no ':' at all; and after
      that only the `ValueError` of a round that does not parse. */
  function ParseLine(line: string): (r: Result<Record, Error>)
    ensures r.Success? ==> ':' in line
    ensures ' ' !in Split(line, ':')[0] ==> r == Failure(IndexError)
    ensures ' ' in Split(line, ':')[0] && !IsNumeral(Split(Split(line, ':')[0], ' ')[1]) ==>
      r == Failure(ValueError)
    ensures ' ' in Split(line, ':')[0] && IsNumeral(Split(Split(line, ':')[0], ' ')[1]) ==>
      (':' !in line ==> r == Failure(IndexError)) && (':' in line && r.Failure? ==> r.error == ValueError)
  {
    var parts := Split(line, ':');
    var head := Split(parts[0], ' ');
    if |head| < 2 then Failure(IndexError)
    else
      match ParseNat(head[1])
      case None => Failure(ValueError)
      case Some(id) =>
        if |parts| < 2 then Failure(IndexError)
        else
          match ParseGame(parts[1])
          case Failure(e) => Failure(e)
          case Success(game) => Success(Record(id, game))
  }

  /** A line written as `<word> <id>:<rounds>` parses to that id and the rounds,
      whatever the word is. */
  lemma {:induction false} ParseLineOfRecord(word: string, id: nat, rounds: string)
    requires ' ' !in word && ':' !in word && ':' !in rounds
    ensures ParseLine(word + " " + NatToString(id) + ":" + rounds) ==
      match ParseGame(rounds)
      case Success(game) => Success(Record(id, game))
      case Failure(e) => Failure(e)
  {
    var numeral := NatToString(id);
    assert ' ' !in numeral && ':' !in numeral by {
      forall k | 0 <= k < |numeral| ensures numeral[k] != ' ' && numeral[k] != ':' {
        assert IsDecimalDigit(numeral[k]);
      }
    }
    var head := word + " " + numeral;
    assert ':' !in head by {
      forall k | 0 <= k < |head| ensures head[k] != ':' {
        if k < |word| { assert head[k] == word[k]; }
        else if k > |word| { assert head[k] == numeral[k - |word| - 1]; }
      }
    }
    assert word + " " + numeral + ":" + rounds == Join([head, rounds], ':');
    SplitJoin([head, rounds], ':');
    assert head == Join([word, numeral], ' ');
    SplitJoin([word, numeral], ' ');
    ParseNatToString(id);
  }

  /* ---------- records as the puzzle input writes them ---------- */

  /** A colour name that can stand in a record: not empty, with no white space
      and none of the separators ',', ';' and ':'. */
  predicate IsColourWord(w: string)
  {
    w != [] && forall k :: 0 <= k < |w| ==> !IsSpace(w[k]) && w[k] != ',' && w[k] != ';' && w[k] != ':'
  }

  /** One cube entry, `<count> <colour>`. */
  function EntryText(count: nat, colour: string): string
  {
    NatToString(count) + " " + colour
  }

  /** The dict built from `(count, colour)` pairs, a later pair overriding an
      earlier one of the same colour. */
  function RoundOf(entries: seq<(nat, string)>): Round
  {
    if entries == [] then map[]
    else
      var last := entries[|entries| - 1];
      RoundOf(entries[..|entries| - 1])[last.1 := last.0]
  }

  /** The pieces between the commas of a round: `lead` before the first entry,
      a single space before each later one. */
  function EntryPieces(lead: string, entries: seq<(nat, string)>): seq<string>
  {
    seq(|entries|, k requires 0 <= k < |entries| =>
      (if k == 0 then lead else " ") + EntryText(entries[k].0, entries[k].1))
  }

  /** A round written `<lead><count> <colour>, <count> <colour>, ...`. */
  function FormatRound(lead: string, entries: seq<(nat, string)>): string
    requires |entries| >= 1
  {
    Join(EntryPieces(lead, entries), ',')
  }

  /** A written entry holds none of the separators. */
  lemma EntryTextSeparators(lead: string, count: nat, colour: string)
    requires forall k :: 0 <= k < |lead| ==> lead[k] != ',' && lead[k] != ';' && lead[k] != ':'
    requires IsColourWord(colour)
    ensures ',' !in lead + EntryText(count, colour)
    ensures ';' !in lead + EntryText(count, colour)
    ensures ':' !in lead + EntryText(count, colour)
  {
    var numeral := NatToString(count);
    assert forall k :: 0 <= k < |numeral| ==> IsDecimalDigit(numeral[k]);
    assert ',' !in numeral && ';' !in numeral && ':' !in numeral;
    assert ',' !in colour && ';' !in colour && ':' !in colour;
    assert lead + EntryText(count, colour) == lead + numeral + " " + colour;
  }

  /** What `split_round` and `int` see of one written entry. */
  lemma EntryTextFields(lead: string, count: nat, colour: string)
    requires forall k :: 0 <= k < |lead| ==> IsSpace(lead[k])
    requires IsColourWord(colour)
    ensures Split(Strip(lead + EntryText(count, colour)), ' ') == [NatToString(count), colour]
  {
    var numeral := NatToString(count);
    var t := EntryText(count, colour);
    assert IsDecimalDigit(numeral[0]);
    assert t[0] == numeral[0] && t[|t| - 1] == colour[|colour| - 1];
    StripPadded(lead, t);
    assert ' ' !in colour by {
      forall k | 0 <= k < |colour| ensures colour[k] != ' ' {
        assert !IsSpace(colour[k]);
      }
    }
    assert ' ' !in numeral by {
      forall k | 0 <= k < |numeral| ensures numeral[k] != ' ' {
        assert IsDecimalDigit(numeral[k]);
      }
    }
    assert t == Join([numeral, colour], ' ');
    SplitJoin([numeral, colour], ' ');
  }

  /** `dict` from parsed entries whose fields are the written counts and colours. */
  lemma {:induction false} EntriesToRoundOfWritten(fields: seq<seq<string>>, entries: seq<(nat, string)>)
    requires |fields| == |entries|
    requires forall k :: 0 <= k < |entries| ==> fields[k] == [NatToString(entries[k].0), entries[k].1]
    ensures EntriesToRound(fields) == Success(RoundOf(entries))
  {
    if entries != [] {
      var n := |entries| - 1;
      EntriesToRoundOfWritten(fields[..n], entries[..n]);
      ParseNatToString(entries[n].0);
    }
  }

  /** Each comma-separated piece of a written round holds no comma and splits
      into the written count and colour. */
  lemma EntryPiecesFields(lead: string, entries: seq<(nat, string)>)
    requires forall k :: 0 <= k < |lead| ==> IsSpace(lead[k]) && lead[k] != ',' && lead[k] != ';' && lead[k] != ':'
    requires forall k :: 0 <= k < |entries| ==> IsColourWord(entries[k].1)
    ensures forall k :: 0 <= k < |entries| ==> ',' !in EntryPieces(lead, entries)[k]
    ensures forall k :: 0 <= k < |entries| ==>
      Split(Strip(EntryPieces(lead, entries)[k]), ' ') == [NatToString(entries[k].0), entries[k].1]
  {
    var pieces := EntryPieces(lead, entries);
    forall k | 0 <= k < |entries|
      ensures ',' !in pieces[k]
      ensures Split(Strip(pieces[k]), ' ') == [NatToString(entries[k].0), entries[k].1]
    {
      var l := if k == 0 then lead else " ";
      EntryTextSeparators(l, entries[k].0, entries[k].1);
      EntryTextFields(l, entries[k].0, entries[k].1);
    }
  }

  /** `parse_round` reads back a written round: the counts and colours written,
      a later entry of a colour overriding an earlier one. */
  lemma ParseRoundOfWritten(lead: string, entries: seq<(nat, string)>)
    requires |entries| >= 1
    requires forall k :: 0 <= k < |lead| ==> IsSpace(lead[k]) && lead[k] != ',' && lead[k] != ';' && lead[k] != ':'
    requires forall k :: 0 <= k < |entries| ==> IsColourWord(entries[k].1)
    ensures ParseRound(FormatRound(lead, entries)) == Success(RoundOf(entries))
  {
    var pieces := EntryPieces(lead, entries);
    EntryPiecesFields(lead, entries);
    SplitJoin(pieces, ',');
    var fields := SplitRound(FormatRound(lead, entries));
    assert forall k :: 0 <= k < |entries| ==> fields[k] == Split(Strip(pieces[k]), ' ');
    EntriesToRoundOfWritten(fields, entries);
  }

  /** A written round holds no ';' and no ':'. */
  lemma FormatRoundSeparators(lead: string, entries: seq<(nat, string)>)
    requires |entries| >= 1
    requires forall k :: 0 <= k < |lead| ==> lead[k] != ',' && lead[k] != ';' && lead[k] != ':'
    requires forall k :: 0 <= k < |entries| ==> IsColourWord(entries[k].1)
    ensures ';' !in FormatRound(lead, entries) && ':' !in FormatRound(lead, entries)
  {
    var pieces := EntryPieces(lead, entries);
    forall k | 0 <= k < |entries| ensures ';' !in pieces[k] && ':' !in pieces[k] {
      EntryTextSeparators(if k == 0 then lead else " ", entries[k].0, entries[k].1);
    }
    JoinWithout(pieces, ',', ';');
    JoinWithout(pieces, ',', ':');
  }

  /** A game written as its rounds: `lead` before the first round, a single
      space after each ';'. */
  function FormatGame(lead: string, rounds: seq<seq<(nat, string)>>): string
    requires |rounds| >= 1 && forall k :: 0 <= k < |rounds| ==> |rounds[k]| >= 1
  {
    Join(seq(|rounds|, k requires 0 <= k < |rounds| => FormatRound(if k == 0 then lead else " ", rounds[k])), ';')
  }

  /** Parsing texts that each parse to a round gives those rounds, in order. */
  lemma ParseRoundsOfParsed(texts: seq<string>, game: Game)
    requires |texts| == |game|
    requires forall k :: 0 <= k < |texts| ==> ParseRound(texts[k]) == Success(game[k])
    ensures ParseRounds(texts) == Success(game)
  {
    CollectInOrder(RoundResults(texts), game);
  }

  /** `parse_game` reads back a written game, round by round. */
  lemma ParseGameOfWritten(lead: string, rounds: seq<seq<(nat, string)>>)
    requires |rounds| >= 1 && forall k :: 0 <= k < |rounds| ==> |rounds[k]| >= 1
    requires forall k :: 0 <= k < |lead| ==> IsSpace(lead[k]) && lead[k] != ',' && lead[k] != ';' && lead[k] != ':'
    requires forall k, j :: 0 <= k < |rounds| && 0 <= j < |rounds[k]| ==> IsColourWord(rounds[k][j].1)
    ensures ':' !in FormatGame(lead, rounds)
    ensures ParseGame(FormatGame(lead, rounds)) ==
      Success(seq(|rounds|, k requires 0 <= k < |rounds| => RoundOf(rounds[k])))
  {
    var pieces := seq(|rounds|, k requires 0 <= k < |rounds| => FormatRound(if k == 0 then lead else " ", rounds[k]));
    var game := seq(|rounds|, k requires 0 <= k < |rounds| => RoundOf(rounds[k]));
    forall k | 0 <= k < |rounds|
      ensures ';' !in pieces[k] && ':' !in pieces[k]
      ensures ParseRound(pieces[k]) == Success(game[k])
    {
      var l := if k == 0 then lead else " ";
      FormatRoundSeparators(l, rounds[k]);
      ParseRoundOfWritten(l, rounds[k]);
    }
    JoinWithout(pieces, ';', ':');
    SplitJoin(pieces, ';');
    ParseRoundsOfParsed(pieces, game);
  }

  /** `parse_line` reads back a written line `<word> <id>:<rounds>`. */
  lemma ParseLineOfWritten(word: string, id: nat, lead: string, rounds: seq<seq<(nat, string)>>)
    requires ' ' !in word && ':' !in word
    requires |rounds| >= 1 && forall k :: 0 <= k < |rounds| ==> |rounds[k]| >= 1
    requires forall k :: 0 <= k < |lead| ==> IsSpace(lead[k]) && lead[k] != ',' && lead[k] != ';' && lead[k] != ':'
    requires forall k, j :: 0 <= k < |rounds| && 0 <= j < |rounds[k]| ==> IsColourWord(rounds[k][j].1)
    ensures ParseLine(word + " " + NatToString(id) + ":" + FormatGame(lead, rounds)) ==
      Success(Record(id, seq(|rounds|, k requires 0 <= k < |rounds| => RoundOf(rounds[k]))))
  {
    ParseGameOfWritten(lead, rounds);
    ParseLineOfRecord(word, id, FormatGame(lead, rounds));
  }

  /* ---------- check_round, check_game ---------- */

  /** The `max_` parameter of `check_round`: the cubes of each colour in the bag. */
  datatype Limits = Limits(red: nat, green: nat, blue: nat)

  /** The limits `check_game` uses. */
  const DefaultLimits: Limits := Limits(12, 13, 14)

  /** `max__`: the limits keyed by colour name. */
  function LimitOf(limits: Limits): (m: map<string, nat>)
    ensures m.Keys == ColourSet
  {
    map["red" := limits.red, "green" := limits.green, "blue" := limits.blue]
  }

  /** `check_round`: no colour of the round exceeds its limit. Colours the round
      does not mention are not constrained; a colour with no limit raises. */
  function CheckRound(round: Round, limits: Limits): (r: Result<bool, Error>)
    ensures r.Failure? <==> !(round.Keys <= ColourSet)
    ensures r.Failure? ==> r.error == KeyError
    ensures r.Success? ==> (r.value <==> forall c :: c in round ==> round[c] <= LimitOf(limits)[c])
  {
    var maxima := LimitOf(limits);
    if exists c :: c in round && c !in maxima then Failure(KeyError)
    else
      var over := set c | c in round && round[c] > maxima[c];
      assert |over| == 0 <==> forall c :: c in round ==> round[c] <= maxima[c] by {
        if c :| c in round && round[c] > maxima[c] {
          assert c in over;
        }
      }
      Success(|over| == 0)
  }

  /** `sum(not check_round(round_) for round_ in game)`: the number of rounds
      over the default limits. */
  function FailedRounds(game: Game): (r: Result<nat, Error>)
    ensures r.Failure? <==> exists k :: 0 <= k < |game| && CheckRound(game[k], DefaultLimits).Failure?
    ensures r.Failure? ==> r.error == KeyError
    ensures r.Success? ==> r.value <= |game|
    ensures r.Success? ==>
      (r.value == 0 <==> forall k :: 0 <= k < |game| ==> CheckRound(game[k], DefaultLimits) == Success(true))
  {
    if game == [] then Success(0)
    else
      match CheckRound(game[0], DefaultLimits)
      case Failure(e) => Failure(e)
      case Success(ok) =>
        match FailedRounds(game[1..])
        case Failure(e) => Failure(e)
        case Success(n) => Success((if ok then 0 else 1) + n)
  }

  /** `check_game`: every round passes `check_round` with the default limits. */
  function CheckGame(game: Game): (r: Result<bool, Error>)
    ensures r.Failure? <==> exists k :: 0 <= k < |game| && !(game[k].Keys <= ColourSet)
    ensures r.Failure? ==> r.error == KeyError
    ensures r.Success? ==>
      (r.value <==> forall k :: 0 <= k < |game| ==> CheckRound(game[k], DefaultLimits) == Success(true))
  {
    match FailedRounds(game)
    case Failure(e) => Failure(e)
    case Success(n) => Success(n == 0)
  }

  /* ---------- power_of_set_of_cubes ---------- */

  /** The counts of `colour` over the rounds that mention it, in round order:
      the list `cubes[colour]` that `power_of_set_of_cubes` builds. */
  function Counts(game: Game, colour: string): seq<nat>
  {
    if game == [] then []
    else
      var last := game[|game| - 1];
      Counts(game[..|game| - 1], colour) + (if colour in last then [last[colour]] else [])
  }

  /** Adding round `i` to the rounds before it appends its count of `colour`, if any. */
  lemma CountsStep(game: Game, i: nat, colour: string)
    requires i < |game|
    ensures Counts(game[..i + 1], colour) ==
      Counts(game[..i], colour) + (if colour in game[i] then [game[i][colour]] else [])
  {
    assert game[..i + 1][..i] == game[..i];
  }

  /** The counts of `colour` are exactly those that some round shows. */
  lemma {:induction false} CountsShown(game: Game, colour: string, n: nat)
    ensures n in Counts(game, colour) <==>
      exists k :: 0 <= k < |game| && colour in game[k] && game[k][colour] == n
  {
    if game != [] {
      var init := game[..|game| - 1];
      CountsShown(init, colour, n);
      assert forall k :: 0 <= k < |init| ==> init[k] == game[k];
    }
  }

  /** Some round of the game shows `colour`. */
  predicate Shows(game: Game, colour: string)
  {
    exists k :: 0 <= k < |game| && colour in game[k]
  }

  /** The list of counts of a colour is empty exactly when no round shows it. */
  lemma {:induction false} CountsEmpty(game: Game, colour: string)
    ensures Counts(game, colour) == [] <==> !Shows(game, colour)
  {
    if Counts(game, colour) != [] {
      CountsShown(game, colour, Counts(game, colour)[0]);
    }
    if k :| 0 <= k < |game| && colour in game[k] {
      CountsShown(game, colour, game[k][colour]);
    }
  }

  /** Python's `max` of a non-empty list. */
  function SeqMax(s: seq<nat>): (m: nat)
    requires s != []
    ensures m in s
    ensures forall k :: 0 <= k < |s| ==> s[k] <= m
  {
    if |s| == 1 then s[0]
    else
      var m := SeqMax(s[..|s| - 1]);
      if s[|s| - 1] > m then s[|s| - 1] else m
  }

  /** Every round names only red, green and blue. */
  predicate KnownColours(game: Game)
  {
    forall k :: 0 <= k < |game| ==> game[k].Keys <= ColourSet
  }

  /** The largest count of `colour` shown in the game. */
  function MostShown(game: Game, colour: string): nat
    requires Counts(game, colour) != []
  {
    SeqMax(Counts(game, colour))
  }

  /** The largest count of a colour is shown in some round, and no round shows more. */
  lemma MostShownIsShown(game: Game, colour: string)
    requires Counts(game, colour) != []
    ensures forall k :: 0 <= k < |game| && colour in game[k] ==> game[k][colour] <= MostShown(game, colour)
    ensures exists k :: 0 <= k < |game| && colour in game[k] && game[k][colour] == MostShown(game, colour)
  {
    forall k | 0 <= k < |game| && colour in game[k]
      ensures game[k][colour] <= MostShown(game, colour)
    {
      CountsShown(game, colour, game[k][colour]);
    }
    CountsShown(game, colour, MostShown(game, colour));
  }

  /** The result `power_of_set_of_cubes` promises: `KeyError` for an unknown
      colour, `ValueError` when a colour never shows, and otherwise the product of
      the largest red, green and blue counts. */
  function Power(game: Game): (r: Result<nat, Error>)
    ensures r.Success? <==> KnownColours(game) && Shows(game, "red") && Shows(game, "green") && Shows(game, "blue")
    ensures r.Failure? ==> (r.error == KeyError <==> !KnownColours(game))
    ensures r.Failure? ==> r.error == KeyError || r.error == ValueError
  {
    CountsEmpty(game, "red");
    CountsEmpty(game, "green");
    CountsEmpty(game, "blue");
    if !KnownColours(game) then Failure(KeyError)
    else if Counts(game, "red") == [] || Counts(game, "green") == [] || Counts(game, "blue") == [] then
      Failure(ValueError)
    else Success(Product([MostShown(game, "red"), MostShown(game, "green"), MostShown(game, "blue")]))
  }

  /** Product of a list, multiplied in from the left starting at 1. */
  function Product(s: seq<nat>): nat
  {
    if s == [] then 1 else Product(s[..|s| - 1]) * s[|s| - 1]
  }

  lemma ProductOfThree(a: nat, b: nat, c: nat)
    ensures Product([a, b, c]) == a * b * c
  {
    assert [a, b, c][..2] == [a, b];
    assert [a, b][..1] == [a];
    assert Product([a]) == a;
    assert [a][..0] == [];
  }

  /** The first loop of `power_of_set_of_cubes`, over one round: appends each
      count of the round to its colour's list, or fails on an unknown colour. */
  method AddRound(cubes: map<string, seq<nat>>, round: Round) returns (r: Result<map<string, seq<nat>>, Error>)
    requires cubes.Keys == ColourSet
    ensures r.Failure? <==> !(round.Keys <= ColourSet)
    ensures r.Failure? ==> r.error == KeyError
    ensures r.Success? ==> r.value.Keys == ColourSet && forall c :: c in ColourSet ==>
      r.value[c] == cubes[c] + (if c in round then [round[c]] else [])
  {
    var acc := cubes;
    var pending := round.Keys;
    while pending != {}
      invariant pending <= round.Keys
      invariant acc.Keys == ColourSet
      invariant round.Keys - pending <= ColourSet
      invariant forall c :: c in ColourSet ==>
        acc[c] == cubes[c] + (if c in round && c !in pending then [round[c]] else [])
      decreases pending
    {
      var colour :| colour in pending;
      if colour !in acc {
        return Failure(KeyError);
      }
      acc := acc[colour := acc[colour] + [round[colour]]];
      pending := pending - {colour};
    }
    return Success(acc);
  }

  /** The first loop of `power_of_set_of_cubes`: the list of counts of each
      colour, in round order, or `KeyError` when a round names another colour. */
  method CollectCounts(game: Game) returns (r: Result<map<string, seq<nat>>, Error>)
    ensures r.Failure? <==> !KnownColours(game)
    ensures r.Failure? ==> r.error == KeyError
    ensures r.Success? ==> r.value.Keys == ColourSet && forall c :: c in ColourSet ==> r.value[c] == Counts(game, c)
  {
    var cubes: map<string, seq<nat>> := map["red" := [], "green" := [], "blue" := []];
    var i := 0;
    while i < |game|
      invariant 0 <= i <= |game|
      invariant cubes.Keys == ColourSet
      invariant forall k :: 0 <= k < i ==> game[k].Keys <= ColourSet
      invariant forall c :: c in ColourSet ==> cubes[c] == Counts(game[..i], c)
    {
      var next := AddRound(cubes, game[i]);
      if next.Failure? {
        return next;
      }
      forall c | c in ColourSet
        ensures next.value[c] == Counts(game[..i + 1], c)
      {
        CountsStep(game, i, c);
      }
      cubes := next.value;
      i := i + 1;
    }
    assert game[..i] == game;
    return Success(cubes);
  }

  /** The last loop of `power_of_set_of_cubes`: multiplies the numbers in order. */
  method MultiplyAll(s: seq<nat>) returns (product: nat)
    ensures product == Product(s)
  {
    product := 1;
    var j := 0;
    while j < |s|
      invariant 0 <= j <= |s|
      invariant product == Product(s[..j])
    {
      assert s[..j + 1][..j] == s[..j];
      product := product * s[j];
      j := j + 1;
    }
    assert s[..j] == s;
  }

  /** `set_of_cubes`: the largest count of each colour, in the order red, green,
      blue; `max` of an empty list is a `ValueError`. */
  function Maxima(cubes: map<string, seq<nat>>): (r: Result<seq<nat>, Error>)
    requires cubes.Keys == ColourSet
    ensures r.Failure? <==> cubes["red"] == [] || cubes["green"] == [] || cubes["blue"] == []
    ensures r.Failure? ==> r.error == ValueError
    ensures r.Success? ==> (
      && |r.value| == 3
      && r.value[0] in cubes["red"] && r.value[1] in cubes["green"] && r.value[2] in cubes["blue"]
      && (forall n :: n in cubes["red"] ==> n <= r.value[0])
      && (forall n :: n in cubes["green"] ==> n <= r.value[1])
      && (forall n :: n in cubes["blue"] ==> n <= r.value[2]))
  {
    if cubes["red"] == [] || cubes["green"] == [] || cubes["blue"] == [] then Failure(ValueError)
    else Success([SeqMax(cubes["red"]), SeqMax(cubes["green"]), SeqMax(cubes["blue"])])
  }

  /** `power_of_set_of_cubes`: collects the counts of each colour, takes each
      colour's maximum and multiplies the maxima. */
  method PowerOfSetOfCubes(game: Game) returns (r: Result<nat, Error>)
    ensures r == Power(game)
  {
    var collected := CollectCounts(game);
    if collected.Failure? {
      return Failure(collected.error);
    }
    var maxima := Maxima(collected.value);
    if maxima.Failure? {
      return Failure(maxima.error);
    }
    var product := MultiplyAll(maxima.value);
    return Success(product);
  }

  /** The game is possible with the given limits. */
  predicate PossibleUnder(game: Game, limits: Limits)
  {
    forall k :: 0 <= k < |game| ==> CheckRound(game[k], limits) == Success(true)
  }

  /** No round shows more than `limit` cubes of `colour`. */
  predicate ColourWithin(game: Game, colour: string, limit: nat)
  {
    forall k :: 0 <= k < |game| && colour in game[k] ==> game[k][colour] <= limit
  }

  /** For games that name only known colours, possibility under some limits is
      decided colour by colour. */
  lemma PossibleUnderByColour(game: Game, limits: Limits)
    requires KnownColours(game)
    ensures PossibleUnder(game, limits) <==>
      ColourWithin(game, "red", limits.red) && ColourWithin(game, "green", limits.green)
        && ColourWithin(game, "blue", limits.blue)
  {
    var lim := LimitOf(limits);
    assert lim["red"] == limits.red && lim["green"] == limits.green && lim["blue"] == limits.blue;
    if PossibleUnder(game, limits) {
      forall k | 0 <= k < |game| ensures forall c :: c in game[k] ==> game[k][c] <= lim[c] {
        assert CheckRound(game[k], limits) == Success(true);
      }
    }
    if ColourWithin(game, "red", limits.red) && ColourWithin(game, "green", limits.green)
        && ColourWithin(game, "blue", limits.blue) {
      forall k | 0 <= k < |game| ensures CheckRound(game[k], limits) == Success(true) {
        forall c | c in game[k] ensures game[k][c] <= lim[c] {
          assert c in ColourSet;
        }
      }
    }
  }

  /** One colour stays within a limit exactly when its largest count does. */
  lemma ColourWithinMostShown(game: Game, colour: string, limit: nat)
    requires Counts(game, colour) != []
    ensures ColourWithin(game, colour, limit) <==> MostShown(game, colour) <= limit
  {
    MostShownIsShown(game, colour);
  }

  /** The largest counts are the fewest cubes the game is possible with: the game
      is possible under some limits exactly when each limit is at least the
      largest count of its colour, and the power is the product of those counts. */
  lemma FewestCubes(game: Game, limits: Limits)
    requires Power(game).Success?
    ensures PossibleUnder(game, limits) <==>
      MostShown(game, "red") <= limits.red && MostShown(game, "green") <= limits.green
        && MostShown(game, "blue") <= limits.blue
    ensures Power(game).value == MostShown(game, "red") * MostShown(game, "green") * MostShown(game, "blue")
  {
    PossibleUnderByColour(game, limits);
    ProductOfThree(MostShown(game, "red"), MostShown(game, "green"), MostShown(game, "blue"));
    ColourWithinMostShown(game, "red", limits.red);
    ColourWithinMostShown(game, "green", limits.green);
    ColourWithinMostShown(game, "blue", limits.blue);
  }

  lemma MultiplyBounded(a: nat, b: nat, c: nat, x: nat, y: nat, z: nat)
    requires a <= x && b <= y && c <= z
    ensures a * b * c <= x * y * z
  {
    MultiplyMonotone(a, x, b);
    MultiplyMonotone(b, y, x);
    MultiplyMonotone(a * b, x * y, c);
    MultiplyMonotone(c, z, x * y);
  }

  lemma MultiplyMonotone(a: nat, x: nat, b: nat)
    requires a <= x
    ensures a * b <= x * b && b * a <= b * x
  {
  }

  /** A game that passes `check_game` has a power of at most 12 * 13 * 14. */
  lemma PossibleGamePower(game: Game)
    requires CheckGame(game) == Success(true) && Power(game).Success?
    ensures Power(game).value <= 12 * 13 * 14
  {
    FewestCubes(game, DefaultLimits);
    MultiplyBounded(MostShown(game, "red"), MostShown(game, "green"), MostShown(game, "blue"), 12, 13, 14);
  }

  /* ---------- sum_file, sum_file2 ---------- */

  /** What one line adds under `sum_file`: its id when its game is possible, 0
      when it is not; a line that does not parse, or names an unknown colour,
      raises. */
  function LineScore(line: string): (r: Result<nat, Error>)
    ensures r.Success? && r.value > 0 <==>
      ParseLine(line).Success? && ParseLine(line).value.id > 0 && CheckGame(ParseLine(line).value.game) == Success(true)
    ensures r.Success? ==> r.value == 0 || r.value == ParseLine(line).value.id
    ensures ParseLine(line).Success? && r.Failure? ==> r.error == KeyError
    ensures r.Failure? <==> ParseLine(line).Failure? || !KnownColours(ParseLine(line).value.game)
    ensures ParseLine(line).Failure? ==> r == Failure(ParseLine(line).error)
  {
    match ParseLine(line)
    case Failure(e) => Failure(e)
    case Success(record) =>
      match CheckGame(record.game)
      case Failure(e) => Failure(e)
      case Success(possible) => Success(if possible then record.id else 0)
  }

  /** What one line adds under `sum_file2`: the power of its game, the product
      of the largest red, green and blue counts; a parse error propagates. */
  function LinePower(line: string): (r: Result<nat, Error>)
    ensures r.Success? <==> ParseLine(line).Success? && Power(ParseLine(line).value.game).Success?
    ensures ParseLine(line).Failure? ==> r == Failure(ParseLine(line).error)
    ensures r.Success? ==>
      var g := ParseLine(line).value.game;
      r.value == MostShown(g, "red") * MostShown(g, "green") * MostShown(g, "blue")
    ensures ParseLine(line).Success? && r.Failure? ==>
      (r.error == KeyError <==> CheckGame(ParseLine(line).value.game).Failure?)
  {
    match ParseLine(line)
    case Failure(e) => Failure(e)
    case Success(record) =>
      if Power(record.game).Success? then
        FewestCubes(record.game, DefaultLimits);
        Power(record.game)
      else Power(record.game)
  }

  /** A line that counts towards `sum_file` adds at most 12 * 13 * 14 to `sum_file2`. */
  lemma PossibleLinePower(line: string)
    requires ParseLine(line).Success? && CheckGame(ParseLine(line).value.game) == Success(true)
    requires LinePower(line).Success?
    ensures LinePower(line).value <= 12 * 13 * 14
  {
    PossibleGamePower(ParseLine(line).value.game);
  }

  /** The generator of `sum_file`, line by line. */
  function LineScores(lines: seq<string>): (scores: seq<Result<nat, Error>>)
    ensures |scores| == |lines|
  {
    seq(|lines|, k requires 0 <= k < |lines| => LineScore(lines[k]))
  }

  /** The generator of `sum_file2`, line by line. */
  function LinePowers(lines: seq<string>): (powers: seq<Result<nat, Error>>)
    ensures |powers| == |lines|
  {
    seq(|lines|, k requires 0 <= k < |lines| => LinePower(lines[k]))
  }

  /** `sum_file`: the sum of the ids of the possible games. */
  function SumFile(lines: seq<string>): (r: Result<nat, Error>)
    ensures r.Success? ==> forall k :: 0 <= k < |lines| ==>
      LineScore(lines[k]).Success? && LineScore(lines[k]).value <= r.value
    ensures |lines| == 1 ==> r == LineScore(lines[0])
  {
    var scores := LineScores(lines);
    assert forall k :: 0 <= k < |lines| ==> scores[k] == LineScore(lines[k]);
    Sum(scores)
  }

  /** `sum_file2`: the sum of the powers of all games, possible or not. */
  function SumFile2(lines: seq<string>): (r: Result<nat, Error>)
    ensures r.Success? ==> forall k :: 0 <= k < |lines| ==>
      LinePower(lines[k]).Success? && LinePower(lines[k]).value <= r.value
    ensures |lines| == 1 ==> r == LinePower(lines[0])
  {
    var powers := LinePowers(lines);
    assert forall k :: 0 <= k < |lines| ==> powers[k] == LinePower(lines[k]);
    Sum(powers)
  }

  /** `sum_file` succeeds exactly when every line parses and names only known
      colours. */
  lemma SumFileSucceeds(lines: seq<string>)
    ensures SumFile(lines).Success? <==> forall k :: 0 <= k < |lines| ==>
      ParseLine(lines[k]).Success? && KnownColours(ParseLine(lines[k]).value.game)
  {
    SumSucceeds(LineScores(lines));
  }

  /** A failing `sum_file` raises the error of the first line that fails. */
  lemma SumFileFailsFirst(lines: seq<string>, i: nat)
    requires i < |lines| && LineScore(lines[i]).Failure?
    requires forall k :: 0 <= k < i ==> LineScore(lines[k]).Success?
    ensures SumFile(lines) == Failure(LineScore(lines[i]).error)
  {
    SumFailsFirst(LineScores(lines), i);
  }

  /** A `sum_file` whose first failing line parses but names a colour other
      than red, green and blue raises `KeyError`. */
  lemma SumFileUnknownColour(lines: seq<string>, i: nat)
    requires i < |lines| && forall k :: 0 <= k < i ==> LineScore(lines[k]).Success?
    requires ParseLine(lines[i]).Success? && !KnownColours(ParseLine(lines[i]).value.game)
    ensures SumFile(lines) == Failure(KeyError)
  {
    var record := ParseLine(lines[i]).value;
    assert CheckGame(record.game).Failure?;
    assert LineScore(lines[i]) == Failure(KeyError);
    SumFileFailsFirst(lines, i);
  }

  /** `sum_file` over two files read one after the other is the sum of both;
      it fails when either does. */
  lemma SumFileAppend(a: seq<string>, b: seq<string>)
    ensures SumFile(a + b).Success? <==> SumFile(a).Success? && SumFile(b).Success?
    ensures SumFile(a + b).Success? ==> SumFile(a + b).value == SumFile(a).value + SumFile(b).value
  {
    var va, vb, vab := LineScores(a), LineScores(b), LineScores(a + b);
    assert vab == va + vb by {
      forall k | 0 <= k < |vab| ensures vab[k] == (va + vb)[k] {
        if k < |a| {
          assert (a + b)[k] == a[k];
        } else {
          assert (a + b)[k] == b[k - |a|];
        }
      }
    }
    SumAppend(va, vb);
  }

  /** `sum_file2` succeeds exactly when every line parses and its power exists. */
  lemma SumFile2Succeeds(lines: seq<string>)
    ensures SumFile2(lines).Success? <==> forall k :: 0 <= k < |lines| ==>
      ParseLine(lines[k]).Success? && Power(ParseLine(lines[k]).value.game).Success?
  {
    SumSucceeds(LinePowers(lines));
  }

  /** A failing `sum_file2` raises the error of the first line that fails. */
  lemma SumFile2FailsFirst(lines: seq<string>, i: nat)
    requires i < |lines| && LinePower(lines[i]).Failure?
    requires forall k :: 0 <= k < i ==> LinePower(lines[k]).Success?
    ensures SumFile2(lines) == Failure(LinePower(lines[i]).error)
  {
    SumFailsFirst(LinePowers(lines), i);
  }

  /** `sum_file2` over two files read one after the other is the sum of both;
      it fails when either does. */
  lemma SumFile2Append(a: seq<string>, b: seq<string>)
    ensures SumFile2(a + b).Success? <==> SumFile2(a).Success? && SumFile2(b).Success?
    ensures SumFile2(a + b).Success? ==> SumFile2(a + b).value == SumFile2(a).value + SumFile2(b).value
  {
    var va, vb, vab := LinePowers(a), LinePowers(b), LinePowers(a + b);
    assert vab == va + vb by {
      forall k | 0 <= k < |vab| ensures vab[k] == (va + vb)[k] {
        if k < |a| {
          assert (a + b)[k] == a[k];
        } else {
          assert (a + b)[k] == b[k - |a|];
        }
      }
    }
    SumAppend(va, vb);
  }
}
