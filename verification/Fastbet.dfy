/**
 * Cashiers' shorthand: an event number and a code, several of them separated by commas, semicolons or
 * plus signs. The pattern is matched as the regular expression matches it, and proved so.
 */
module Fastbet {
  import opened Wrappers
  import opened Decimal
  import opened Text
  import Evaluation
  import Sequences

  datatype Kind = MATCH_RESULT | DOUBLE_CHANCE | BOTH_TEAMS_TO_SCORE | OVER_UNDER

  /** What a code stands for; a line is counted in tenths of a goal. */
  datatype Code = Code(kind: Kind, selectionCode: string, line: Option<nat>, name: string)

  datatype Pick = Pick(event: nat, code: Code)

  datatype Error = NothingTyped | NotAnEntry(entry: string) | NoSuchEvent(event: nat) | NotACode(code: string)

  // ---- Codes ----

  function Fixed(raw: string): Option<Code> {
    match raw
    case "1" => Some(Code(MATCH_RESULT, "HOME", None, raw))
    case "X" => Some(Code(MATCH_RESULT, "DRAW", None, raw))
    case "2" => Some(Code(MATCH_RESULT, "AWAY", None, raw))
    case "1X" => Some(Code(DOUBLE_CHANCE, "HOME_DRAW", None, raw))
    case "12" => Some(Code(DOUBLE_CHANCE, "HOME_AWAY", None, raw))
    case "X2" => Some(Code(DOUBLE_CHANCE, "DRAW_AWAY", None, raw))
    case "GG" => Some(Code(BOTH_TEAMS_TO_SCORE, "YES", None, raw))
    case "NG" => Some(Code(BOTH_TEAMS_TO_SCORE, "NO", None, raw))
    case _ => None
  }

  /** The goals digit of `\d\.?5`. */
  function HalfLine(s: string): (r: Option<char>)
    ensures r.Some? ==> IsDigit(r.value)
  {
    if (|s| == 2 || (|s| == 3 && s[1] == '.')) && IsDigit(s[0]) && s[|s| - 1] == '5' then Some(s[0]) else None
  }

  function AfterWord(raw: string, word: string): Option<char> {
    if word <= raw then HalfLine(raw[|word|..]) else None
  }

  function Total(over: bool, goals: char): Code
    requires IsDigit(goals)
  {
    Code(OVER_UNDER, (if over then "OVER_" else "UNDER_") + [goals] + "_5", Some(10 * DigitValue(goals) + 5),
         (if over then "O" else "U") + [goals] + ".5")
  }

  function Totals(raw: string): Option<Code> {
    var o, ov, over := AfterWord(raw, "O"), AfterWord(raw, "OV"), AfterWord(raw, "OVER");
    var u, un, under := AfterWord(raw, "U"), AfterWord(raw, "UN"), AfterWord(raw, "UNDER");
    if o.Some? then Some(Total(true, o.value))
    else if ov.Some? then Some(Total(true, ov.value))
    else if over.Some? then Some(Total(true, over.value))
    else if u.Some? then Some(Total(false, u.value))
    else if un.Some? then Some(Total(false, un.value))
    else if under.Some? then Some(Total(false, under.value))
    else None
  }

  function ParseCode(raw: string): Option<Code> {
    if Fixed(raw).Some? then Fixed(raw) else Totals(raw)
  }

  // ---- One entry ----

  predicate IsCodeChar(c: char) { 'A' <= c <= 'Z' || IsDigit(c) || c == '.' }

  predicate IsCodeText(s: string) {
    s != [] && forall i | 0 <= i < |s| :: IsCodeChar(s[i])
  }

  predicate IsDash(c: char) { c == '-' || c == '/' || c == ':' }

  /** White space, at most one dash, white space. */
  function SkipGap(s: string): string {
    var r := SkipSpaces(s);
    if r != [] && IsDash(r[0]) then SkipSpaces(r[1..]) else r
  }

  function MatchWidth(entry: string, width: nat): (r: Option<(string, string)>)
    ensures r.Some? ==> AllDigits(r.value.0)
  {
    if |entry| < width || !AllDigits(entry[..width]) then None
    else
      var code := SkipGap(entry[width..]);
      if IsCodeText(code) then Some((entry[..width], code)) else None
  }

  /** The event digits and the code: two digits if that leaves a code, else one. */
  function MatchEntry(entry: string): (r: Option<(string, string)>)
    ensures r.Some? ==> AllDigits(r.value.0)
  {
    if MatchWidth(entry, 2).Some? then MatchWidth(entry, 2) else MatchWidth(entry, 1)
  }

  function ParseEntry(entry: string, eventCount: int): Result<Pick, Error> {
    match MatchEntry(entry)
    case None => Err(NotAnEntry(entry))
    case Some((digits, code)) =>
      var event := Read(digits);
      if event < 1 || event > eventCount then Err(NoSuchEvent(event))
      else if ParseCode(code).None? then Err(NotACode(code))
      else Ok(Pick(event, ParseCode(code).value))
  }

  // ---- The whole input ----

  function UpperChar(c: char): char {
    if 'a' <= c <= 'z' then c - 'a' + 'A' else c
  }

  function Upper(s: string): (r: string)
    ensures |r| == |s| && forall i | 0 <= i < |s| :: r[i] == UpperChar(s[i])
  {
    seq(|s|, i requires 0 <= i < |s| => UpperChar(s[i]))
  }

  predicate IsSplitter(c: char) { c == ',' || c == ';' || c == '+' }

  function Split(s: string): (parts: seq<string>)
    ensures parts != []
  {
    if s == [] then [""]
    else
      var rest := Split(s[1..]);
      if IsSplitter(s[0]) then [""] + rest else [[s[0]] + rest[0]] + rest[1..]
  }

  function TrimmedParts(parts: seq<string>): seq<string> {
    if parts == [] then []
    else (if Trim(parts[0]) == "" then [] else [Trim(parts[0])]) + TrimmedParts(parts[1..])
  }

  function Entries(input: string): seq<string> {
    TrimmedParts(Split(Upper(input)))
  }

  /** The picks of all entries, or the first error. */
  function ParseEntries(entries: seq<string>, eventCount: int): Result<seq<Pick>, Error> {
    if entries == [] then Ok([]) else
    match ParseEntry(entries[0], eventCount)
    case Err(e) => Err(e)
    case Ok(pick) =>
      match ParseEntries(entries[1..], eventCount)
      case Err(e) => Err(e)
      case Ok(picks) => Ok([pick] + picks)
  }

  function Parse(input: string, eventCount: int): Result<seq<Pick>, Error> {
    if Entries(input) == [] then Err(NothingTyped) else ParseEntries(Entries(input), eventCount)
  }

  /** One turn of the loop. */
  method ReadEntry(entry: string, eventCount: int) returns (r: Result<Pick, Error>)
    ensures r == ParseEntry(entry, eventCount)
  {
    var found := MatchEntry(entry);
    if found.None? {
      return Err(NotAnEntry(entry));
    }
    var (digits, code) := found.value;
    var event := Read(digits);
    if event < 1 || event > eventCount {
      return Err(NoSuchEvent(event));
    }
    var parsed := ParseCode(code);
    if parsed.None? {
      return Err(NotACode(code));
    }
    return Ok(Pick(event, parsed.value));
  }

  method ParseFastbet(input: string, eventCount: int) returns (r: Result<seq<Pick>, Error>)
    ensures r == Parse(input, eventCount)
  {
    var entries := Entries(input);
    if |entries| == 0 {
      return Err(NothingTyped);
    }
    var picks: seq<Pick> := [];
    NoneYet(entries, eventCount);
    for i := 0 to |entries|
      invariant UpTo(entries, i, picks, eventCount)
    {
      var one := ReadEntry(entries[i], eventCount);
      NextEntry(entries, i, picks, eventCount);
      if one.Err? {
        return Err(one.error);
      }
      picks := picks + [one.value];
    }
    AllDone(entries, picks, eventCount);
    return Ok(picks);
  }

  function Prepend(picks: seq<Pick>, r: Result<seq<Pick>, Error>): Result<seq<Pick>, Error> {
    match r case Err(e) => Err(e) case Ok(more) => Ok(picks + more)
  }

  /** The first `i` entries gave `picks`. */
  ghost predicate UpTo(entries: seq<string>, i: nat, picks: seq<Pick>, eventCount: int)
    requires i <= |entries|
  {
    ParseEntries(entries, eventCount) == Prepend(picks, ParseEntries(entries[i..], eventCount))
  }

  lemma NoneYet(entries: seq<string>, eventCount: int)
    ensures UpTo(entries, 0, [], eventCount)
  {
    assert entries[0..] == entries;
    var all := ParseEntries(entries, eventCount);
    if all.Ok? {
      assert [] + all.value == all.value;
    }
  }

  lemma AllDone(entries: seq<string>, picks: seq<Pick>, eventCount: int)
    requires UpTo(entries, |entries|, picks, eventCount)
    ensures ParseEntries(entries, eventCount) == Ok(picks)
  {
    assert picks + [] == picks;
  }

  lemma NextEntry(entries: seq<string>, i: nat, picks: seq<Pick>, eventCount: int)
    requires i < |entries| && UpTo(entries, i, picks, eventCount)
    ensures match ParseEntry(entries[i], eventCount)
            case Err(e) => ParseEntries(entries, eventCount) == Err(e)
            case Ok(pick) => UpTo(entries, i + 1, picks + [pick], eventCount)
  {
    var one, rest := ParseEntry(entries[i], eventCount), ParseEntries(entries[i + 1..], eventCount);
    assert entries[i..][1..] == entries[i + 1..];
    if one.Ok? && rest.Ok? {
      assert picks + ([one.value] + rest.value) == picks + [one.value] + rest.value;
    }
  }

  // ---- The pattern ----

  /** The characters of codes, dashes and separators, and the letters that are made capitals, by code point. */
  lemma CharacterCodes(c: char)
    ensures var n := c as int;
            && (IsCodeChar(c) <==> 65 <= n <= 90 || 48 <= n <= 57 || n == 46)
            && (IsDash(c) <==> n in {45, 47, 58})
            && (IsSplitter(c) <==> n in {44, 59, 43})
            && UpperChar(c) as int == if 97 <= n <= 122 then n - 32 else n
  {
  }

  predicate IsGap(gap: string) {
    SkipSpaces(gap) == "" || (IsDash(SkipSpaces(gap)[0]) && SkipSpaces(SkipSpaces(gap)[1..]) == "")
  }

  /** `entry` is one or two digits, a gap and a code. */
  predicate Reads(entry: string, digits: string, gap: string, code: string) {
    entry == digits + gap + code && 1 <= |digits| <= 2 && AllDigits(digits) && IsGap(gap) && IsCodeText(code)
  }

  lemma SpacesEnd(gap: string, rest: string)
    requires SkipSpaces(gap) == "" && (rest != [] ==> !IsSpace(rest[0]))
    ensures SkipSpaces(gap + rest) == rest
  {
    SkippedIsSpace(gap);
    SkipsAll(gap, rest);
  }

  lemma GapSkipped(gap: string, code: string)
    requires IsGap(gap) && IsCodeText(code)
    ensures SkipGap(gap + code) == code
  {
    if SkipSpaces(gap) == "" {
      SpacesEnd(gap, code);
    } else {
      var rest := SkipSpaces(gap);
      SkippedIsSpace(gap);
      DashSkipped(gap[..|gap| - |rest|], rest, code);
    }
  }

  lemma DashSkipped(spaces: string, rest: string, code: string)
    requires (forall i | 0 <= i < |spaces| :: IsSpace(spaces[i])) && rest != [] && IsDash(rest[0])
    requires SkipSpaces(rest[1..]) == "" && IsCodeText(code)
    ensures SkipGap(spaces + rest + code) == code
  {
    assert spaces + rest + code == spaces + (rest + code);
    SkipsAll(spaces, rest + code);
    assert (rest + code)[1..] == rest[1..] + code;
    SpacesEnd(rest[1..], code);
  }

  lemma SpacesOnly(s: string)
    ensures var r := SkipSpaces(s); SkipSpaces(s[..|s| - |r|]) == "" && s == s[..|s| - |r|] + r
  {
    var r := SkipSpaces(s);
    SkippedIsSpace(s);
    var spaces := s[..|s| - |r|];
    SkipsAll(spaces, "");
    assert spaces + "" == spaces;
  }

  lemma DashedIsGap(spaces: string, dash: char, more: string)
    requires SkipSpaces(spaces) == "" && IsDash(dash) && SkipSpaces(more) == ""
    ensures IsGap(spaces + ([dash] + more))
  {
    SpacesEnd(spaces, [dash] + more);
    assert ([dash] + more)[1..] == more;
  }

  lemma GapJoins(spaces: string, dash: char, more: string, code: string)
    ensures spaces + ([dash] + (more + code)) == spaces + ([dash] + more) + code
  {
  }

  /** What is skipped of a text that begins with spaces and a dash. */
  lemma DashedGapFound(s: string, spaces: string, dash: char, rest: string) returns (gap: string)
    requires s == spaces + ([dash] + rest) && SkipSpaces(spaces) == "" && IsDash(dash)
    ensures IsGap(gap) && s == gap + SkipSpaces(rest)
  {
    var code := SkipSpaces(rest);
    SpacesOnly(rest);
    var more := rest[..|rest| - |code|];
    DashedIsGap(spaces, dash, more);
    GapJoins(spaces, dash, more, code);
    gap := spaces + ([dash] + more);
  }

  lemma GapFound(s: string) returns (gap: string)
    ensures IsGap(gap) && s == gap + SkipGap(s)
  {
    var r := SkipSpaces(s);
    SpacesOnly(s);
    gap := s[..|s| - |r|];
    if r != [] && IsDash(r[0]) {
      assert r == [r[0]] + r[1..];
      gap := DashedGapFound(s, gap, r[0], r[1..]);
    }
  }

  lemma WidthMatches(entry: string, digits: string, gap: string, code: string)
    requires Reads(entry, digits, gap, code)
    ensures MatchWidth(entry, |digits|) == Some((digits, code))
  {
    assert entry == digits + (gap + code);
    assert entry[..|digits|] == digits && entry[|digits|..] == gap + code;
    GapSkipped(gap, code);
  }

  lemma WidthReads(entry: string, width: nat) returns (gap: string)
    requires 1 <= width <= 2 && MatchWidth(entry, width).Some?
    ensures Reads(entry, MatchWidth(entry, width).value.0, gap, MatchWidth(entry, width).value.1)
    ensures |MatchWidth(entry, width).value.0| == width
  {
    gap := GapFound(entry[width..]);
    assert entry == entry[..width] + entry[width..];
  }

  /**
   * An entry matches exactly when it can be read as digits, gap and code, and the digits found are the
   * longest that leave a code.
   */
  lemma MatchIsLongest(entry: string)
    ensures MatchEntry(entry).Some? <==> exists digits, gap, code :: Reads(entry, digits, gap, code)
    ensures forall digits, gap, code | Reads(entry, digits, gap, code) ::
              |digits| <= |MatchEntry(entry).value.0|
                  && (|digits| == |MatchEntry(entry).value.0| ==> MatchEntry(entry).value == (digits, code))
    ensures MatchEntry(entry).Some? ==> AllDigits(MatchEntry(entry).value.0)
  {
    forall digits, gap, code | Reads(entry, digits, gap, code)
      ensures MatchEntry(entry).Some?
      ensures |digits| <= |MatchEntry(entry).value.0|
              && (|digits| == |MatchEntry(entry).value.0| ==> MatchEntry(entry).value == (digits, code))
    {
      WidthMatches(entry, digits, gap, code);
    }
    if MatchEntry(entry).Some? {
      var gap := WidthReads(entry, if MatchWidth(entry, 2).Some? then 2 else 1);
    }
  }

  // ---- Printing and parsing back ----

  /** A pick the parser could have made. */
  ghost predicate Possible(p: Pick, eventCount: int) {
    1 <= p.event <= 99 && p.event <= eventCount && exists raw :: ParseCode(raw) == Some(p.code)
  }

  function PrintPick(p: Pick): string {
    Print(p.event) + " " + p.code.name
  }

  function PrintPicks(picks: seq<Pick>): string {
    if picks == [] then ""
    else if |picks| == 1 then PrintPick(picks[0])
    else PrintPick(picks[0]) + "," + PrintPicks(picks[1..])
  }

  lemma TotalNameReads(over: bool, goals: char)
    requires IsDigit(goals)
    ensures ParseCode(Total(over, goals).name) == Some(Total(over, goals)) && IsCodeText(Total(over, goals).name)
  {
    var name := Total(over, goals).name;
    assert |name| == 4 && name[1..] == [goals] + ".5" && name[3] == '5' && name[2] == '.';
    assert HalfLine(name[1..]) == Some(goals);
    assert name[0] == if over then 'O' else 'U';
    assert "O" <= name <==> over;
    assert "U" <= name <==> !over;
    assert !("OV" <= name) && !("OVER" <= name) by { assert name[1] != 'V'; }
    assert !("UN" <= name) && !("UNDER" <= name) by { assert name[1] != 'N'; }
    assert Fixed(name) == None;
  }

  /** The name a code is read back under parses to that very code. */
  lemma NameReads(raw: string)
    requires ParseCode(raw).Some?
    ensures ParseCode(ParseCode(raw).value.name) == ParseCode(raw) && IsCodeText(ParseCode(raw).value.name)
  {
    if Fixed(raw).None? {
      var over, goals := TotalFound(raw);
      TotalNameReads(over, goals);
    }
  }

  /** No two names stand for the same selection, and no name for two: what is read back settles what is bet on. */
  lemma NamesAreUnambiguous(a: string, b: string)
    requires ParseCode(a).Some? && ParseCode(b).Some?
    ensures Selects(ParseCode(a).value) == Selects(ParseCode(b).value)
            <==> ParseCode(a).value.name == ParseCode(b).value.name
  {
    var x, y := ParseCode(a).value, ParseCode(b).value;
    if x.name == y.name {
      NameReads(a);
      NameReads(b);
    } else if x.kind == y.kind == OVER_UNDER {
      var over, goals := TotalFound(a);
      var over', goals' := TotalFound(b);
      TotalsApart(over, goals, over', goals');
    } else if Selects(x) == Selects(y) {
      FixedApart(a, b);
    }
  }

  /** What is bet on: the market, the selection inside it and the line. */
  function Selects(code: Code): (Kind, string, Option<nat>) {
    (code.kind, code.selectionCode, code.line)
  }

  lemma FixedApart(a: string, b: string)
    requires Fixed(a).Some? && Fixed(b).Some? && Selects(Fixed(a).value) == Selects(Fixed(b).value)
    ensures a == b
  {
  }

  lemma TotalsApart(over: bool, goals: char, over': bool, goals': char)
    requires IsDigit(goals) && IsDigit(goals')
    ensures Selects(Total(over, goals)) == Selects(Total(over', goals')) ==> over == over' && goals == goals'
  {
    if Selects(Total(over, goals)) == Selects(Total(over', goals')) {
      assert Total(over, goals).selectionCode[0] == if over then 'O' else 'U';
      assert Total(over', goals').selectionCode[0] == if over' then 'O' else 'U';
      assert DigitValue(goals) == DigitValue(goals');
    }
  }

  lemma TotalFound(raw: string) returns (over: bool, goals: char)
    requires ParseCode(raw).Some? && ParseCode(raw).value.kind == OVER_UNDER
    ensures IsDigit(goals) && ParseCode(raw).value == Total(over, goals)
  {
    over := AfterWord(raw, "O").Some? || AfterWord(raw, "OV").Some? || AfterWord(raw, "OVER").Some?;
    goals :| IsDigit(goals) && Totals(raw) == Some(Total(over, goals));
  }

  lemma {:induction false} SplitOne(piece: string)
    requires forall i | 0 <= i < |piece| :: !IsSplitter(piece[i])
    ensures Split(piece) == [piece]
  {
    if piece != [] {
      SplitOne(piece[1..]);
      assert [piece[0]] + piece[1..] == piece;
    }
  }

  lemma {:induction false} SplitFirst(piece: string, rest: string)
    requires forall i | 0 <= i < |piece| :: !IsSplitter(piece[i])
    ensures Split(piece + "," + rest) == [piece] + Split(rest)
  {
    var s := piece + "," + rest;
    if piece == [] {
      assert s[1..] == rest;
    } else {
      SplitFirst(piece[1..], rest);
      assert s[1..] == piece[1..] + "," + rest;
      assert [piece[0]] + piece[1..] == piece;
    }
  }

  /** A number, a space and a code text: nothing to capitalise, split or trim. */
  lemma PrintedShape(digits: string, name: string)
    requires digits != [] && AllDigits(digits) && IsCodeText(name)
    ensures var s := digits + " " + name;
            (forall i | 0 <= i < |s| :: !IsSplitter(s[i]) && UpperChar(s[i]) == s[i]) && Trim(s) == s
  {
    var s := digits + " " + name;
    assert forall i | 0 <= i < |digits| :: s[i] == digits[i] && IsDigit(digits[i]);
    assert s[|digits|] == ' ';
    forall i | |digits| < i < |s|
      ensures IsCodeChar(s[i])
    {
      assert s[i] == name[i - |digits| - 1];
    }
    assert !IsSpace(s[0]) && !IsSpace(s[|s| - 1]);
  }

  lemma PrintedMatches(digits: string, name: string)
    requires 1 <= |digits| <= 2 && AllDigits(digits) && IsCodeText(name)
    ensures MatchEntry(digits + " " + name) == Some((digits, name))
  {
    var s := digits + " " + name;
    assert SkipSpaces(" ") == "" by { assert " "[1..] == ""; }
    assert Reads(s, digits, " ", name);
    WidthMatches(s, digits, " ", name);
    if |digits| == 1 {
      assert s[..2][1] == ' ';
      assert !IsDigit(' ');
    }
  }

  /** A printed pick survives capitals, splitting and trimming, and is matched as printed. */
  lemma PickReads(p: Pick, eventCount: int)
    requires Possible(p, eventCount)
    ensures var s := PrintPick(p);
            && s != [] && (forall i | 0 <= i < |s| :: !IsSplitter(s[i]) && UpperChar(s[i]) == s[i])
            && Trim(s) == s
            && ParseEntry(s, eventCount) == Ok(p)
  {
    var raw :| ParseCode(raw) == Some(p.code);
    NameReads(raw);
    assert Pow10(1) == 10 && Pow10(2) == 100;
    PrintFits(p.event, 2);
    ReadPrint(p.event);
    PrintedShape(Print(p.event), p.code.name);
    PrintedMatches(Print(p.event), p.code.name);
  }

  lemma FirstPart(first: string, parts: seq<string>, p: Pick, picks: seq<Pick>, eventCount: int)
    requires first != "" && Trim(first) == first && ParseEntry(first, eventCount) == Ok(p)
    requires ParseEntries(TrimmedParts(parts), eventCount) == Ok(picks)
    ensures TrimmedParts([first] + parts) != []
            && ParseEntries(TrimmedParts([first] + parts), eventCount) == Ok([p] + picks)
  {
    assert ([first] + parts)[1..] == parts;
    var rest := TrimmedParts(parts);
    assert TrimmedParts([first] + parts) == [first] + rest;
    assert ([first] + rest)[1..] == rest;
  }

  predicate Capitals(s: string) {
    forall i | 0 <= i < |s| :: UpperChar(s[i]) == s[i]
  }

  lemma {:induction false} PrintedCapitals(picks: seq<Pick>, eventCount: int)
    requires forall p | p in picks :: Possible(p, eventCount)
    ensures Capitals(PrintPicks(picks))
  {
    if picks != [] {
      PickReads(picks[0], eventCount);
      PrintedCapitals(picks[1..], eventCount);
      CapitalsJoin(PrintPick(picks[0]), PrintPicks(picks[1..]));
    }
  }

  lemma CapitalsJoin(a: string, b: string)
    requires Capitals(a) && Capitals(b)
    ensures Capitals(a + "," + b)
  {
  }

  predicate EntriesRead(text: string, picks: seq<Pick>, eventCount: int) {
    var parts := TrimmedParts(Split(text));
    parts != [] && ParseEntries(parts, eventCount) == Ok(picks)
  }

  lemma PrintedOne(p: Pick, eventCount: int)
    requires Possible(p, eventCount)
    ensures EntriesRead(PrintPick(p), [p], eventCount)
  {
    PickReads(p, eventCount);
    SplitOne(PrintPick(p));
    FirstPart(PrintPick(p), [], p, [], eventCount);
    assert [PrintPick(p)] + [] == [PrintPick(p)];
    assert [p] + [] == [p];
  }

  lemma PrintedFirst(p: Pick, rest: string, picks: seq<Pick>, eventCount: int)
    requires Possible(p, eventCount) && EntriesRead(rest, picks, eventCount)
    ensures EntriesRead(PrintPick(p) + "," + rest, [p] + picks, eventCount)
  {
    PickReads(p, eventCount);
    SplitFirst(PrintPick(p), rest);
    FirstPart(PrintPick(p), Split(rest), p, picks, eventCount);
  }

  lemma {:induction false} PrintedEntries(picks: seq<Pick>, eventCount: int)
    requires picks != [] && forall p | p in picks :: Possible(p, eventCount)
    ensures EntriesRead(PrintPicks(picks), picks, eventCount)
  {
    if |picks| == 1 {
      PrintedOne(picks[0], eventCount);
      assert picks == [picks[0]];
    } else {
      var first, others := picks[0], picks[1..];
      assert picks == [first] + others;
      PrintedEntries(others, eventCount);
      PrintedFirst(first, PrintPicks(others), others, eventCount);
      assert PrintPicks(picks) == PrintPick(first) + "," + PrintPicks(others);
    }
  }

  /** Printing picks as number and name, joined by commas, and parsing that gives the picks. */
  lemma PrintReadsBack(picks: seq<Pick>, eventCount: int)
    requires picks != [] && forall p | p in picks :: Possible(p, eventCount)
    ensures Parse(PrintPicks(picks), eventCount) == Ok(picks)
  {
    PrintedEntries(picks, eventCount);
    PrintedCapitals(picks, eventCount);
    assert Upper(PrintPicks(picks)) == PrintPicks(picks);
  }

  lemma ParsedIsPossible(entry: string, eventCount: int)
    requires ParseEntry(entry, eventCount).Ok?
    ensures Possible(ParseEntry(entry, eventCount).value, eventCount)
  {
    MatchIsLongest(entry);
    var (digits, code) := MatchEntry(entry).value;
    ReadBelow(digits);
    assert Pow10(1) == 10 && Pow10(2) == 100;
  }

  /** A successful parse has one pick per entry, in order, each an event in range and a code that exists. */
  lemma {:induction false} OnePickPerEntry(entries: seq<string>, eventCount: int)
    requires ParseEntries(entries, eventCount).Ok?
    ensures var picks := ParseEntries(entries, eventCount).value;
            && |picks| == |entries|
            && forall i | 0 <= i < |picks| ::
                 ParseEntry(entries[i], eventCount) == Ok(picks[i]) && Possible(picks[i], eventCount)
  {
    if entries != [] {
      var picks := ParseEntries(entries, eventCount).value;
      OnePickPerEntry(entries[1..], eventCount);
      ParsedIsPossible(entries[0], eventCount);
      assert picks == [picks[0]] + picks[1..];
      forall i | 0 <= i < |picks|
        ensures ParseEntry(entries[i], eventCount) == Ok(picks[i]) && Possible(picks[i], eventCount)
      {
        assert i > 0 ==> entries[i] == entries[1..][i - 1] && picks[i] == picks[1..][i - 1];
      }
    }
  }

  /** Whatever was typed, printing what it was understood as and parsing that again gives the same. */
  lemma ParseIsStable(input: string, eventCount: int)
    requires Parse(input, eventCount).Ok?
    ensures Parse(PrintPicks(Parse(input, eventCount).value), eventCount) == Parse(input, eventCount)
  {
    OnePickPerEntry(Entries(input), eventCount);
    PrintReadsBack(Parse(input, eventCount).value, eventCount);
  }

  // ---- What typing may differ in ----

  /** The same letter in the other case, or another of the three separators. */
  predicate Alike(a: char, b: char) {
    a == b || ('a' <= a <= 'z' && b == a - 'a' + 'A') || ('a' <= b <= 'z' && a == b - 'a' + 'A')
        || (a in ",;+" && b in ",;+")
  }

  lemma {:induction false} SplitAlike(a: string, b: string)
    requires |a| == |b| && forall i | 0 <= i < |a| :: a[i] == b[i] || (IsSplitter(a[i]) && IsSplitter(b[i]))
    ensures Split(a) == Split(b)
  {
    if a != [] {
      SplitAlike(a[1..], b[1..]);
      assert IsSplitter(a[0]) == IsSplitter(b[0]);
    }
  }

  /** What a first character does to the pieces of the rest. */
  function Begun(c: char, pieces: seq<string>): seq<string>
    requires pieces != []
  {
    if IsSplitter(c) then [""] + pieces else [[c] + pieces[0]] + pieces[1..]
  }

  lemma SplitStep(c: char, s: string)
    ensures Split([c] + s) == Begun(c, Split(s))
  {
    assert ([c] + s)[1..] == s;
  }

  lemma BegunJoins(c: char, a: seq<string>, b: seq<string>)
    requires a != []
    ensures Begun(c, a + b) == Begun(c, a) + b
  {
    if IsSplitter(c) {
      Sequences.Reassociate("", a, b);
    } else {
      assert (a + b)[1..] == a[1..] + b;
      Sequences.Reassociate([c] + a[0], a[1..], b);
    }
  }

  lemma {:induction false} SplitAt(a: string, separator: char, b: string)
    requires IsSplitter(separator)
    ensures Split(a + ([separator] + b)) == Split(a) + Split(b)
  {
    if a == [] {
      assert a + ([separator] + b) == [separator] + b;
      SplitStep(separator, b);
    } else {
      var c, rest := a[0], a[1..];
      var more := rest + ([separator] + b);
      SplitAt(rest, separator, b);
      assert a == [c] + rest && a + ([separator] + b) == [c] + more;
      SplitStep(c, rest);
      SplitStep(c, more);
      BegunJoins(c, Split(rest), Split(b));
    }
  }

  function TrimmedPart(part: string): seq<string> {
    if Trim(part) == "" then [] else [Trim(part)]
  }

  lemma TrimmedStep(part: string, parts: seq<string>)
    ensures TrimmedParts([part] + parts) == TrimmedPart(part) + TrimmedParts(parts)
  {
    assert ([part] + parts)[1..] == parts;
  }

  lemma {:induction false} TrimmedAppend(a: seq<string>, b: seq<string>)
    ensures TrimmedParts(a + b) == TrimmedParts(a) + TrimmedParts(b)
  {
    if a == [] {
      assert a + b == b;
    } else {
      var first, rest := a[0], a[1..];
      TrimmedAppend(rest, b);
      assert a == [first] + rest && a + b == [first] + (rest + b);
      TrimmedStep(first, rest);
      TrimmedStep(first, rest + b);
      JoinsOnce(TrimmedPart(first), TrimmedParts(rest), TrimmedParts(b));
    }
  }

  lemma JoinsOnce(a: seq<string>, b: seq<string>, c: seq<string>)
    ensures a + (b + c) == a + b + c
  {
  }

  lemma UpperAppend(a: string, b: string)
    ensures Upper(a + b) == Upper(a) + Upper(b)
  {
  }

  lemma EntriesAt(a: string, separator: char, b: string)
    requires IsSplitter(separator)
    ensures Entries(a + ([separator] + b)) == Entries(a) + Entries(b)
  {
    UpperAppend(a, [separator] + b);
    UpperAppend([separator], b);
    assert Upper([separator]) == [separator];
    SplitAt(Upper(a), separator, Upper(b));
    TrimmedAppend(Split(Upper(a)), Split(Upper(b)));
  }

  lemma BlankIsNoEntry(blank: string)
    requires forall i | 0 <= i < |blank| :: IsSpace(blank[i])
    ensures Entries(blank) == []
  {
    assert Upper(blank) == blank;
    SplitOne(blank);
    SkipsAll(blank, "");
    assert blank + "" == blank;
    assert SkipSpaces(blank) == "" && Trim(blank) == "";
    var parts := [blank];
    assert parts[1..] == [] && TrimmedParts(parts) == [] + TrimmedParts([]);
  }

  /** Separators with nothing but white space between them count as one, and none is needed at the ends. */
  lemma BlankEntriesAreFree(a: string, before: char, blank: string, after: char, b: string, eventCount: int)
    requires IsSplitter(before) && IsSplitter(after) && forall i | 0 <= i < |blank| :: IsSpace(blank[i])
    ensures Parse(a + ([before] + (blank + ([after] + b))), eventCount) == Parse(a + ([before] + b), eventCount)
    ensures Parse(a + ([before] + blank), eventCount) == Parse(a, eventCount)
    ensures Parse(blank + ([after] + b), eventCount) == Parse(b, eventCount)
  {
    BlankIsNoEntry(blank);
    EntriesAt(a, before, blank + ([after] + b));
    EntriesAt(blank, after, b);
    EntriesAt(a, before, b);
    EntriesAt(a, before, blank);
    assert [] + Entries(b) == Entries(b) && Entries(a) + [] == Entries(a);
  }

  /** Case does not matter, nor which of the separators is used where. */
  lemma CaseAndSeparatorsAreFree(a: string, b: string, eventCount: int)
    requires |a| == |b| && forall i | 0 <= i < |a| :: Alike(a[i], b[i])
    ensures Parse(a, eventCount) == Parse(b, eventCount)
  {
    forall i | 0 <= i < |a|
      ensures Upper(a)[i] == Upper(b)[i] || (IsSplitter(Upper(a)[i]) && IsSplitter(Upper(b)[i]))
    {
      assert Alike(a[i], b[i]);
    }
    SplitAlike(Upper(a), Upper(b));
  }

  // ---- What a code bets on ----

  function MarketOf(kind: Kind): string {
    match kind
    case MATCH_RESULT => "MATCH_RESULT"
    case DOUBLE_CHANCE => "DOUBLE_CHANCE"
    case BOTH_TEAMS_TO_SCORE => "BOTH_TEAMS_TO_SCORE"
    case OVER_UNDER => "OVER_UNDER"
  }

  /** What is stored with the leg of a bet on the code. */
  function TermsOf(code: Code): Evaluation.LegTerms {
    Evaluation.LegTerms(MarketOf(code.kind), code.selectionCode,
                        if code.line.Some? then Some(Evaluation.FormatTenths(code.line.value)) else None)
  }

  function Entry(event: nat, raw: string): string {
    Print(event) + " " + raw
  }

  /** The input is one pick on the event, which with this score is won, or is lost. */
  predicate Comes(input: string, event: nat, eventCount: int, s: Evaluation.FinalScore, won: bool) {
    var r := Parse(input, eventCount);
    && r.Ok? && |r.value| == 1 && r.value[0].event == event
    && if won then Evaluation.Wins(TermsOf(r.value[0].code), s) else Evaluation.Loses(TermsOf(r.value[0].code), s)
  }

  lemma EntryIsOnePick(event: nat, raw: string, eventCount: int)
    requires 1 <= event <= 99 && event <= eventCount && IsCodeText(raw) && ParseCode(raw).Some?
    ensures Parse(Entry(event, raw), eventCount) == Ok([Pick(event, ParseCode(raw).value)])
  {
    var s, p := Entry(event, raw), Pick(event, ParseCode(raw).value);
    assert Pow10(1) == 10 && Pow10(2) == 100;
    PrintFits(event, 2);
    ReadPrint(event);
    PrintedShape(Print(event), raw);
    PrintedMatches(Print(event), raw);
    assert ParseEntry(s, eventCount) == Ok(p);
    SplitOne(s);
    FirstPart(s, [], p, [], eventCount);
    assert [s] + [] == [s] && [p] + [] == [p];
    assert Upper(s) == s;
  }

  predicate Decides(raw: string, s: Evaluation.FinalScore, won: bool) {
    && IsCodeText(raw) && Fixed(raw).Some?
    && Evaluation.EvaluateLeg(TermsOf(Fixed(raw).value), s) == Ok(Evaluation.Decided(won))
  }

  lemma ResultsDecide(s: Evaluation.FinalScore)
    requires Evaluation.Valid(s)
    ensures Decides("1", s, s.home > s.away) && Decides("X", s, s.home == s.away) && Decides("2", s, s.home < s.away)
  {
  }

  lemma DoublesDecide(s: Evaluation.FinalScore)
    requires Evaluation.Valid(s)
    ensures Decides("1X", s, s.home > s.away || s.home == s.away)
    ensures Decides("12", s, s.home > s.away || s.home < s.away)
    ensures Decides("X2", s, s.home == s.away || s.home < s.away)
  {
  }

  lemma GoalsDecide(s: Evaluation.FinalScore)
    requires Evaluation.Valid(s)
    ensures Decides("GG", s, s.home > 0 && s.away > 0) && Decides("NG", s, s.home == 0 || s.away == 0)
  {
  }

  lemma FixedComes(event: nat, raw: string, eventCount: int, s: Evaluation.FinalScore, won: bool)
    requires 1 <= event <= 99 && event <= eventCount && Decides(raw, s, won)
    ensures Comes(Entry(event, raw), event, eventCount, s, won)
  {
    EntryIsOnePick(event, raw, eventCount);
  }

  /** `1`, `X` and `2` are the home win, the draw and the away win. */
  lemma ResultCodesMean(event: nat, eventCount: int, s: Evaluation.FinalScore)
    requires 1 <= event <= 99 && event <= eventCount && Evaluation.Valid(s)
    ensures Comes(Entry(event, "1"), event, eventCount, s, s.home > s.away)
    ensures Comes(Entry(event, "X"), event, eventCount, s, s.home == s.away)
    ensures Comes(Entry(event, "2"), event, eventCount, s, s.home < s.away)
  {
    ResultsDecide(s);
    FixedComes(event, "1", eventCount, s, s.home > s.away);
    FixedComes(event, "X", eventCount, s, s.home == s.away);
    FixedComes(event, "2", eventCount, s, s.home < s.away);
  }

  /** Two of them together win when one of the two does. */
  lemma DoubleCodesMean(event: nat, eventCount: int, s: Evaluation.FinalScore)
    requires 1 <= event <= 99 && event <= eventCount && Evaluation.Valid(s)
    ensures Comes(Entry(event, "1X"), event, eventCount, s, s.home > s.away || s.home == s.away)
    ensures Comes(Entry(event, "12"), event, eventCount, s, s.home > s.away || s.home < s.away)
    ensures Comes(Entry(event, "X2"), event, eventCount, s, s.home == s.away || s.home < s.away)
  {
    DoublesDecide(s);
    FixedComes(event, "1X", eventCount, s, s.home > s.away || s.home == s.away);
    FixedComes(event, "12", eventCount, s, s.home > s.away || s.home < s.away);
    FixedComes(event, "X2", eventCount, s, s.home == s.away || s.home < s.away);
  }

  /** `GG` wins when both sides score, and `NG` when one does not. */
  lemma GoalCodesMean(event: nat, eventCount: int, s: Evaluation.FinalScore)
    requires 1 <= event <= 99 && event <= eventCount && Evaluation.Valid(s)
    ensures Comes(Entry(event, "GG"), event, eventCount, s, s.home > 0 && s.away > 0)
    ensures Comes(Entry(event, "NG"), event, eventCount, s, s.home == 0 || s.away == 0)
  {
    GoalsDecide(s);
    FixedComes(event, "GG", eventCount, s, s.home > 0 && s.away > 0);
    FixedComes(event, "NG", eventCount, s, s.home == 0 || s.away == 0);
  }

  predicate SpelledAs(raw: string, over: bool, word: string, goals: char, half: string) {
    && word in (if over then {"O", "OV", "OVER"} else {"U", "UN", "UNDER"})
    && half in {"5", ".5"}
    && raw == word + ([goals] + half)
  }

  /** `O`, `OV` or `OVER`, or the same for under, a digit, and a half with or without its point. */
  ghost predicate Spells(raw: string, over: bool, goals: char) {
    && IsDigit(goals)
    && exists word, half :: SpelledAs(raw, over, word, goals, half)
  }

  lemma HalfFound(goals: char, half: string)
    requires IsDigit(goals) && half in {"5", ".5"}
    ensures HalfLine([goals] + half) == Some(goals)
  {
    assert |half| == 1 || |half| == 2;
  }

  lemma WordFound(raw: string, word: string, goals: char, half: string)
    requires IsDigit(goals) && half in {"5", ".5"} && raw == word + ([goals] + half)
    ensures AfterWord(raw, word) == Some(goals)
  {
    HalfFound(goals, half);
    assert raw[|word|..] == [goals] + half;
  }

  /** A shorter word leaves a letter where the digit should be. */
  lemma WordTooShort(raw: string, word: string, shorter: string, goals: char, half: string)
    requires IsDigit(goals) && half in {"5", ".5"} && raw == word + ([goals] + half)
    requires shorter < word && 'A' <= word[|shorter|] <= 'Z'
    ensures AfterWord(raw, shorter) == None
  {
    assert raw[|shorter|..][0] == word[|shorter|];
  }

  lemma OtherLetter(raw: string, word: string)
    requires raw != [] && word != [] && raw[0] != word[0]
    ensures AfterWord(raw, word) == None
  {
  }

  lemma OverFound(raw: string, word: string, goals: char, half: string)
    requires IsDigit(goals) && half in {"5", ".5"} && word in {"O", "OV", "OVER"} && raw == word + ([goals] + half)
    ensures Totals(raw) == Some(Total(true, goals))
  {
    WordFound(raw, word, goals, half);
    if word != "O" {
      WordTooShort(raw, word, "O", goals, half);
    }
    if word == "OVER" {
      WordTooShort(raw, word, "OV", goals, half);
    }
  }

  lemma UnderFound(raw: string, word: string, goals: char, half: string)
    requires IsDigit(goals) && half in {"5", ".5"} && word in {"U", "UN", "UNDER"} && raw == word + ([goals] + half)
    ensures Totals(raw) == Some(Total(false, goals))
  {
    assert raw[0] == 'U';
    OtherLetter(raw, "O");
    OtherLetter(raw, "OV");
    OtherLetter(raw, "OVER");
    WordFound(raw, word, goals, half);
    if word != "U" {
      WordTooShort(raw, word, "U", goals, half);
    }
    if word == "UNDER" {
      WordTooShort(raw, word, "UN", goals, half);
    }
  }

  lemma TotalRead(raw: string, over: bool, goals: char)
    requires Spells(raw, over, goals)
    ensures ParseCode(raw) == Some(Total(over, goals)) && IsCodeText(raw)
  {
    var word, half :| SpelledAs(raw, over, word, goals, half);
    assert raw[0] == if over then 'O' else 'U';
    NotFixed(raw);
    if over {
      OverFound(raw, word, goals, half);
    } else {
      UnderFound(raw, word, goals, half);
    }
    WordIsCode(word, goals, half);
  }

  lemma NotFixed(raw: string)
    requires raw != [] && (raw[0] == 'O' || raw[0] == 'U')
    ensures Fixed(raw) == None
  {
  }

  lemma WordIsCode(word: string, goals: char, half: string)
    requires word in {"O", "OV", "OVER", "U", "UN", "UNDER"} && IsDigit(goals) && half in {"5", ".5"}
    ensures IsCodeText(word + ([goals] + half))
  {
    assert IsCodeText(word) && IsCodeText([goals] + half);
  }

  lemma TotalDecided(over: bool, goals: char, s: Evaluation.FinalScore)
    requires IsDigit(goals) && Evaluation.Valid(s)
    ensures Evaluation.EvaluateLeg(TermsOf(Total(over, goals)), s)
            == Ok(Evaluation.Decided(over <==> s.home + s.away > DigitValue(goals)))
  {
    var whole := DigitValue(goals);
    TotalCodeRead(over, goals);
    Evaluation.TotalsMean(over, whole, Some(10 * whole + 5), s);
    assert 10 * (s.home + s.away) > 10 * whole + 5 <==> s.home + s.away > whole;
  }

  lemma TotalCodeRead(over: bool, goals: char)
    requires IsDigit(goals)
    ensures var whole := DigitValue(goals);
            TermsOf(Total(over, goals))
            == Evaluation.LegTerms("OVER_UNDER", Evaluation.TotalCode(over, whole),
                                   Some(Evaluation.FormatTenths(10 * whole + 5)))
  {
    var word := if over then "OVER_" else "UNDER_";
    assert Print(DigitValue(goals)) == [goals];
    assert word + [goals] + "_5" == word + ([goals] + "_5");
  }

  /** Over a digit wins when more goals than that fall, and under it when not. */
  lemma TotalCodesMean(event: nat, eventCount: int, raw: string, over: bool, goals: char, s: Evaluation.FinalScore)
    requires 1 <= event <= 99 && event <= eventCount && Spells(raw, over, goals) && Evaluation.Valid(s)
    ensures Comes(Entry(event, raw), event, eventCount, s, over <==> s.home + s.away > DigitValue(goals))
  {
    TotalRead(raw, over, goals);
    EntryIsOnePick(event, raw, eventCount);
    TotalDecided(over, goals, s);
  }

  lemma CodeIsDecided(raw: string, s: Evaluation.FinalScore)
    requires ParseCode(raw).Some? && Evaluation.Valid(s)
    ensures var terms := TermsOf(ParseCode(raw).value); Evaluation.Wins(terms, s) || Evaluation.Loses(terms, s)
  {
    if Fixed(raw).Some? {
      FixedIsDecided(raw, s);
    } else {
      var over, goals := TotalFound(raw);
      TotalDecided(over, goals, s);
    }
  }

  lemma FixedIsDecided(raw: string, s: Evaluation.FinalScore)
    requires Fixed(raw).Some? && Evaluation.Valid(s)
    ensures var terms := TermsOf(Fixed(raw).value); Evaluation.Wins(terms, s) || Evaluation.Loses(terms, s)
  {
    ResultsDecide(s);
    DoublesDecide(s);
    GoalsDecide(s);
  }

  /** Nothing a cashier can type is void: whatever the score, each pick is won or lost. */
  lemma PicksAreDecided(input: string, eventCount: int, s: Evaluation.FinalScore)
    requires Parse(input, eventCount).Ok? && Evaluation.Valid(s)
    ensures forall p | p in Parse(input, eventCount).value ::
              Evaluation.Wins(TermsOf(p.code), s) || Evaluation.Loses(TermsOf(p.code), s)
  {
    OnePickPerEntry(Entries(input), eventCount);
    forall p | p in Parse(input, eventCount).value
      ensures Evaluation.Wins(TermsOf(p.code), s) || Evaluation.Loses(TermsOf(p.code), s)
    {
      var raw :| ParseCode(raw) == Some(p.code);
      CodeIsDecided(raw, s);
    }
  }
}
