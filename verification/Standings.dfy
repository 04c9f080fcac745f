/**
 * League tables. One pass over the results updates a tally per team; the tallies become rows, sorted and
 * numbered. The specification knows nothing of tallies: each row sums over that team's own history.
 */
module Standings {
  import opened Sequences

  datatype Team = Team(id: string, name: string)

  datatype Match = Match(home: string, away: string, homeGoals: int, awayGoals: int, matchday: int)

  /** A match as one of its teams saw it. */
  datatype Side = Side(scored: int, conceded: int)

  datatype Row = Row(
    team: Team, played: int, won: int, drawn: int, lost: int,
    goalsFor: int, goalsAgainst: int, goalDifference: int, points: int, form: seq<char>)

  datatype Placed = Placed(position: int, row: Row)

  datatype View = View(matchdaysPlayed: int, rows: seq<Placed>)

  // ---- The specification ----

  /** A match counts when both its teams are in the league. */
  predicate Counted(m: Match, ids: set<string>) {
    m.home in ids && m.away in ids
  }

  function SidesOf(m: Match, id: string): seq<Side> {
    (if m.home == id then [Side(m.homeGoals, m.awayGoals)] else [])
    + (if m.away == id then [Side(m.awayGoals, m.homeGoals)] else [])
  }

  /** What one team saw of the counted matches, in the order of the results. */
  function History(results: seq<Match>, ids: set<string>, id: string): seq<Side> {
    if results == [] then [] else
    var m := results[|results| - 1];
    History(results[..|results| - 1], ids, id) + if Counted(m, ids) then SidesOf(m, id) else []
  }

  function Played(s: Side): int { 1 }
  function Won(s: Side): int { if s.scored > s.conceded then 1 else 0 }
  function Drawn(s: Side): int { if s.scored == s.conceded then 1 else 0 }
  function Lost(s: Side): int { if s.scored < s.conceded then 1 else 0 }
  function Scored(s: Side): int { s.scored }
  function Conceded(s: Side): int { s.conceded }
  function Outcome(s: Side): char { if s.scored > s.conceded then 'W' else if s.scored < s.conceded then 'L' else 'D' }

  function LastFive(form: seq<char>): seq<char> {
    if |form| > 5 then form[|form| - 5..] else form
  }

  function RowOf(team: Team, h: seq<Side>): Row {
    Row(team, Sum(Played, h), Sum(Won, h), Sum(Drawn, h), Sum(Lost, h), Sum(Scored, h), Sum(Conceded, h),
        Sum(Scored, h) - Sum(Conceded, h), 3 * Sum(Won, h) + Sum(Drawn, h), LastFive(Map(Outcome, h)))
  }

  function Ids(teams: seq<Team>): set<string> {
    set t | t in teams :: t.id
  }

  function RowsOf(teams: seq<Team>, results: seq<Match>): (rows: seq<Row>)
    ensures |rows| == |teams|
            && forall i | 0 <= i < |teams| :: rows[i] == RowOf(teams[i], History(results, Ids(teams), teams[i].id))
  {
    seq(|teams|, i requires 0 <= i < |teams| => RowOf(teams[i], History(results, Ids(teams), teams[i].id)))
  }

  /** Points, then goal difference, then goals scored, then the name, as the locale compares names. */
  predicate RanksBefore(names: (string, string) -> int, a: Row, b: Row) {
    if a.points != b.points then a.points > b.points
    else if a.goalDifference != b.goalDifference then a.goalDifference > b.goalDifference
    else if a.goalsFor != b.goalsFor then a.goalsFor > b.goalsFor
    else names(a.team.name, b.team.name) <= 0
  }

  function Order(names: (string, string) -> int): (Row, Row) -> bool {
    (a, b) => RanksBefore(names, a, b)
  }

  function NoLater(names: (string, string) -> int): (string, string) -> bool {
    (a: string, b: string) => names(a, b) <= 0
  }

  /** The locale orders the names of these teams. */
  ghost predicate ComparesNames(names: (string, string) -> int, teams: seq<Team>) {
    TotalPreorder(set t | t in teams :: t.name, NoLater(names))
  }

  function Numbered(rows: seq<Row>): (placed: seq<Placed>)
    ensures |placed| == |rows| && forall i | 0 <= i < |rows| :: placed[i] == Placed(i + 1, rows[i])
  {
    seq(|rows|, i requires 0 <= i < |rows| => Placed(i + 1, rows[i]))
  }

  function LatestMatchday(results: seq<Match>, ids: set<string>): int {
    if results == [] then 0 else
    var before, m := LatestMatchday(results[..|results| - 1], ids), results[|results| - 1];
    if Counted(m, ids) && m.matchday > before then m.matchday else before
  }

  function Table(names: (string, string) -> int, teams: seq<Team>, results: seq<Match>): View {
    View(LatestMatchday(results, Ids(teams)), Numbered(Sort(RowsOf(teams, results), Order(names))))
  }

  // ---- The pass over the results ----

  datatype Totals = Totals(played: int, won: int, drawn: int, lost: int, goalsFor: int, goalsAgainst: int,
          form: seq<char>)

  function TotalsOf(h: seq<Side>): Totals {
    Totals(Sum(Played, h), Sum(Won, h), Sum(Drawn, h), Sum(Lost, h), Sum(Scored, h), Sum(Conceded, h), Map(Outcome, h))
  }

  function Plus(t: Totals, s: Side): Totals {
    Totals(t.played + 1, t.won + Won(s), t.drawn + Drawn(s), t.lost + Lost(s),
           t.goalsFor + s.scored, t.goalsAgainst + s.conceded, t.form + [Outcome(s)])
  }

  lemma TotalsGrow(h: seq<Side>, s: Side)
    ensures TotalsOf(h + [s]) == Plus(TotalsOf(h), s)
  {
    SumAppend(Played, h, [s]);
    SumAppend(Won, h, [s]);
    SumAppend(Drawn, h, [s]);
    SumAppend(Lost, h, [s]);
    SumAppend(Scored, h, [s]);
    SumAppend(Conceded, h, [s]);
    assert [s][1..] == [];
    assert Map(Outcome, h + [s]) == Map(Outcome, h) + [Outcome(s)];
  }

  class Tally {
    var played: int
    var won: int
    var drawn: int
    var lost: int
    var goalsFor: int
    var goalsAgainst: int
    var form: seq<char>

    function View(): Totals
      reads this
    {
      Totals(played, won, drawn, lost, goalsFor, goalsAgainst, form)
    }

    constructor Blank()
      ensures View() == TotalsOf([])
    {
      played, won, drawn, lost, goalsFor, goalsAgainst, form := 0, 0, 0, 0, 0, 0, [];
    }
  }

  function PlusGoals(t: Totals, s: Side): Totals {
    t.(played := t.played + 1, goalsFor := t.goalsFor + s.scored, goalsAgainst := t.goalsAgainst + s.conceded)
  }

  function PlusOutcome(t: Totals, s: Side): Totals {
    t.(won := t.won + Won(s), drawn := t.drawn + Drawn(s), lost := t.lost + Lost(s), form := t.form + [Outcome(s)])
  }

  /** The two tallies may be one and the same: a team drawn against itself. */
  method CountGoals(home: Tally, away: Tally, hg: int, ag: int)
    modifies home, away
    ensures home != away ==> home.View() == PlusGoals(old(home.View()), Side(hg, ag))
    ensures home != away ==> away.View() == PlusGoals(old(away.View()), Side(ag, hg))
    ensures home == away ==> home.View() == PlusGoals(PlusGoals(old(home.View()), Side(hg, ag)), Side(ag, hg))
  {
    home.played := home.played + 1;
    away.played := away.played + 1;
    home.goalsFor := home.goalsFor + hg;
    home.goalsAgainst := home.goalsAgainst + ag;
    away.goalsFor := away.goalsFor + ag;
    away.goalsAgainst := away.goalsAgainst + hg;
  }

  method CountOutcome(home: Tally, away: Tally, hg: int, ag: int)
    modifies home, away
    ensures home != away ==> home.View() == PlusOutcome(old(home.View()), Side(hg, ag))
    ensures home != away ==> away.View() == PlusOutcome(old(away.View()), Side(ag, hg))
    ensures home == away ==> home.View() == PlusOutcome(PlusOutcome(old(home.View()), Side(hg, ag)), Side(ag, hg))
  {
    if hg > ag {
      home.won := home.won + 1;
      away.lost := away.lost + 1;
      home.form := home.form + ['W'];
      away.form := away.form + ['L'];
    } else if hg < ag {
      away.won := away.won + 1;
      home.lost := home.lost + 1;
      home.form := home.form + ['L'];
      away.form := away.form + ['W'];
    } else {
      home.drawn := home.drawn + 1;
      away.drawn := away.drawn + 1;
      home.form := home.form + ['D'];
      away.form := away.form + ['D'];
    }
  }

  method Record(home: Tally, away: Tally, hg: int, ag: int)
    modifies home, away
    ensures home != away ==> home.View() == Plus(old(home.View()), Side(hg, ag))
    ensures home != away ==> away.View() == Plus(old(away.View()), Side(ag, hg))
    ensures home == away ==> home.View() == Plus(Plus(old(home.View()), Side(hg, ag)), Side(ag, hg))
  {
    CountGoals(home, away, hg, ag);
    CountOutcome(home, away, hg, ag);
  }

  ghost predicate Separate(tallies: map<string, Tally>) {
    forall a, b | a in tallies && b in tallies && a != b :: tallies[a] != tallies[b]
  }

  method BlankTallies(teams: seq<Team>) returns (tallies: map<string, Tally>)
    ensures tallies.Keys == Ids(teams) && Separate(tallies)
    ensures forall id | id in tallies :: fresh(tallies[id]) && tallies[id].View() == TotalsOf([])
  {
    tallies := map[];
    for i := 0 to |teams|
      invariant tallies.Keys == Ids(teams[..i]) && Separate(tallies)
      invariant forall id | id in tallies :: fresh(tallies[id]) && tallies[id].View() == TotalsOf([])
    {
      var t := new Tally.Blank();
      tallies := tallies[teams[i].id := t];
      assert teams[..i + 1] == teams[..i] + [teams[i]];
    }
    assert teams[..|teams|] == teams;
  }

  /** Every tally agrees with its team's history over `results`. */
  ghost predicate Tallied(tallies: map<string, Tally>, results: seq<Match>)
    reads tallies.Values
  {
    forall id | id in tallies :: tallies[id].View() == TotalsOf(History(results, tallies.Keys, id))
  }

  /** Each tally gains what its team saw of the match. */
  method RecordBoth(tallies: map<string, Tally>, m: Match)
    requires Separate(tallies) && m.home in tallies && m.away in tallies
    modifies tallies[m.home], tallies[m.away]
    ensures forall id | id in tallies :: tallies[id].View() == WithSides(old(tallies[id].View()), SidesOf(m, id))
  {
    Record(tallies[m.home], tallies[m.away], m.homeGoals, m.awayGoals);
    forall id | id in tallies
      ensures tallies[id].View() == WithSides(old(tallies[id].View()), SidesOf(m, id))
    {
      if id != m.home && id != m.away {
        assert tallies[id] != tallies[m.home] && tallies[id] != tallies[m.away];
      }
    }
  }

  /** One turn of the loop, over the tallies. */
  method CountMatch(tallies: map<string, Tally>, ghost before: seq<Match>, m: Match)
    requires Separate(tallies) && Tallied(tallies, before)
    modifies tallies.Values
    ensures Tallied(tallies, before + [m])
  {
    if m.home in tallies && m.away in tallies {
      RecordBoth(tallies, m);
    }
    forall id | id in tallies
      ensures tallies[id].View() == TotalsOf(History(before + [m], tallies.Keys, id))
    {
      TotalsAdd(before, m, tallies.Keys, id);
    }
  }

  lemma TotalsAdd(before: seq<Match>, m: Match, ids: set<string>, id: string)
    ensures var was := TotalsOf(History(before, ids, id));
            TotalsOf(History(before + [m], ids, id)) == if Counted(m, ids) then WithSides(was, SidesOf(m, id)) else was
  {
    assert (before + [m])[..|before|] == before;
    SidesAdd(History(before, ids, id), m, id);
    assert History(before, ids, id) + [] == History(before, ids, id);
  }

  /** The row of one team, from its tally. */
  method RowFrom(team: Team, t: Tally, ghost h: seq<Side>) returns (row: Row)
    requires t.View() == TotalsOf(h)
    ensures row == RowOf(team, h)
  {
    row := Row(team, t.played, t.won, t.drawn, t.lost, t.goalsFor, t.goalsAgainst,
               t.goalsFor - t.goalsAgainst, t.won * 3 + t.drawn, LastFive(t.form));
  }

  method RowsFrom(tallies: map<string, Tally>, teams: seq<Team>, ghost results: seq<Match>) returns (rows: seq<Row>)
    requires tallies.Keys == Ids(teams) && Tallied(tallies, results)
    ensures rows == RowsOf(teams, results)
  {
    ghost var target := RowsOf(teams, results);
    rows := [];
    for i := 0 to |teams|
      invariant |rows| == i && forall k | 0 <= k < i :: rows[k] == target[k]
    {
      assert teams[i].id in tallies;
      var row := RowFrom(teams[i], tallies[teams[i].id], History(results, Ids(teams), teams[i].id));
      rows := rows + [row];
    }
  }

  lemma LatestNext(before: seq<Match>, m: Match, ids: set<string>)
    ensures var latest := LatestMatchday(before, ids);
            LatestMatchday(before + [m], ids) == if Counted(m, ids) && latest < m.matchday then m.matchday else latest
  {
    assert (before + [m])[..|before|] == before;
  }

  /** The loop over the results, from blank tallies. */
  method CountMatches(tallies: map<string, Tally>, results: seq<Match>) returns (matchdaysPlayed: int)
    requires Separate(tallies) && Tallied(tallies, [])
    modifies tallies.Values
    ensures Tallied(tallies, results) && matchdaysPlayed == LatestMatchday(results, tallies.Keys)
  {
    matchdaysPlayed := 0;
    for i := 0 to |results|
      invariant matchdaysPlayed == LatestMatchday(results[..i], tallies.Keys)
      invariant Tallied(tallies, results[..i])
    {
      var m := results[i];
      assert results[..i + 1] == results[..i] + [m];
      LatestNext(results[..i], m, tallies.Keys);
      if m.home in tallies && m.away in tallies && matchdaysPlayed < m.matchday {
        matchdaysPlayed := m.matchday;
      }
      CountMatch(tallies, results[..i], m);
    }
    assert results[..|results|] == results;
  }

  method ComputeStandings(names: (string, string) -> int, teams: seq<Team>, results: seq<Match>) returns (view: View)
    ensures view == Table(names, teams, results)
  {
    var tallies := BlankTallies(teams);
    var matchdaysPlayed := CountMatches(tallies, results);
    var rows := RowsFrom(tallies, teams, results);
    view := View(matchdaysPlayed, Numbered(Sort(rows, Order(names))));
  }

  function WithSides(t: Totals, sides: seq<Side>): Totals
    requires |sides| <= 2
  {
    if sides == [] then t else if |sides| == 1 then Plus(t, sides[0]) else Plus(Plus(t, sides[0]), sides[1])
  }

  lemma SidesAdd(h: seq<Side>, m: Match, id: string)
    ensures TotalsOf(h + SidesOf(m, id)) == WithSides(TotalsOf(h), SidesOf(m, id))
  {
    var sides := SidesOf(m, id);
    if sides == [] {
      assert h + sides == h;
    } else {
      TotalsGrow(h, sides[0]);
      if |sides| == 2 {
        TotalsGrow(h + [sides[0]], sides[1]);
        assert h + sides == h + [sides[0]] + [sides[1]];
      } else {
        assert h + sides == h + [sides[0]];
      }
    }
  }

  // ---- The table is sorted ----

  function Rows(view: View): (rows: seq<Row>)
    ensures |rows| == |view.rows| && forall i | 0 <= i < |rows| :: rows[i] == view.rows[i].row
  {
    seq(|view.rows|, i requires 0 <= i < |view.rows| => view.rows[i].row)
  }

  lemma OrderIsTotal(names: (string, string) -> int, teams: seq<Team>, rows: seq<Row>)
    requires ComparesNames(names, teams) && forall r | r in rows :: r.team in teams
    ensures TotalPreorder(Elements(rows), Order(names))
  {
    var before := NoLater(names);
    forall x, y | x in Elements(rows) && y in Elements(rows)
      ensures Order(names)(x, y) || Order(names)(y, x)
    {
      assert before(x.team.name, y.team.name) || before(y.team.name, x.team.name);
    }
    forall x, y, z | x in Elements(rows) && y in Elements(rows) && z in Elements(rows)
                     && Order(names)(x, y) && Order(names)(y, z)
      ensures Order(names)(x, z)
    {
      assert before(x.team.name, y.team.name) && before(y.team.name, z.team.name) ==> before(x.team.name, z.team.name);
    }
  }

  /** One row per team, numbered from one, in the one order a stable sort by the four keys can give. */
  lemma TableIsRanked(names: (string, string) -> int, teams: seq<Team>, results: seq<Match>)
    requires ComparesNames(names, teams)
    ensures var view := Table(names, teams, results);
            && StablySorted(RowsOf(teams, results), Rows(view), Order(names))
            && forall i | 0 <= i < |view.rows| :: view.rows[i].position == i + 1
  {
    OrderIsTotal(names, teams, RowsOf(teams, results));
    SortIsStable(RowsOf(teams, results), Order(names));
    assert Rows(Table(names, teams, results)) == Sort(RowsOf(teams, results), Order(names));
  }

  /** More points, or as many and a better goal difference, or that too and more goals, or all that and the name. */
  predicate Above(names: (string, string) -> int, a: Row, b: Row) {
    && a.points >= b.points
    && (a.points == b.points ==>
          && a.goalDifference >= b.goalDifference
          && (a.goalDifference == b.goalDifference ==>
                && a.goalsFor >= b.goalsFor
                && (a.goalsFor == b.goalsFor ==> names(a.team.name, b.team.name) <= 0)))
  }

  /** Down the table points do not rise, at equal points the difference does not, and so on to the names. */
  lemma TableFollowsTheRules(names: (string, string) -> int, teams: seq<Team>, results: seq<Match>)
    requires ComparesNames(names, teams)
    ensures var rows := Table(names, teams, results).rows;
            forall i, j | 0 <= i < j < |rows| :: Above(names, rows[i].row, rows[j].row)
  {
    TableIsRanked(names, teams, results);
    var rows := Table(names, teams, results).rows;
    forall i, j | 0 <= i < j < |rows|
      ensures Above(names, rows[i].row, rows[j].row)
    {
      var sorted := Rows(Table(names, teams, results));
      assert Order(names)(sorted[i], sorted[j]);
    }
  }

  // ---- What a row counts, match by match ----

  /** What a counted match gives a team: `home` if it played at home, and `away` if away. */
  function Given(m: Match, ids: set<string>, id: string, home: int, away: int): int {
    if !Counted(m, ids) then 0 else (if m.home == id then home else 0) + (if m.away == id then away else 0)
  }

  function Bit(b: bool): int { if b then 1 else 0 }

  function Plays(ids: set<string>, id: string): Match -> int { (m: Match) => Given(m, ids, id, 1, 1) }

  function Wins(ids: set<string>, id: string): Match -> int {
    (m: Match) => Given(m, ids, id, Bit(m.homeGoals > m.awayGoals), Bit(m.awayGoals > m.homeGoals))
  }

  function Draws(ids: set<string>, id: string): Match -> int {
    (m: Match) => Given(m, ids, id, Bit(m.homeGoals == m.awayGoals), Bit(m.homeGoals == m.awayGoals))
  }

  function Losses(ids: set<string>, id: string): Match -> int {
    (m: Match) => Given(m, ids, id, Bit(m.homeGoals < m.awayGoals), Bit(m.awayGoals < m.homeGoals))
  }

  function GoalsBy(ids: set<string>, id: string): Match -> int {
    (m: Match) => Given(m, ids, id, m.homeGoals, m.awayGoals)
  }

  function GoalsAgainst(ids: set<string>, id: string): Match -> int {
    (m: Match) => Given(m, ids, id, m.awayGoals, m.homeGoals)
  }

  /** The team's letters of one counted match, as home side and as away side. */
  function LettersOf(m: Match, ids: set<string>, id: string): seq<char> {
    if !Counted(m, ids) then [] else
    var draw := m.homeGoals == m.awayGoals;
    (if m.home != id then "" else if draw then "D" else if m.homeGoals > m.awayGoals then "W" else "L")
    + (if m.away != id then "" else if draw then "D" else if m.awayGoals > m.homeGoals then "W" else "L")
  }

  function Letters(results: seq<Match>, ids: set<string>, id: string): seq<char> {
    if results == [] then []
    else Letters(results[..|results| - 1], ids, id) + LettersOf(results[|results| - 1], ids, id)
  }

  /** The row adds up the matches of its team, three points a win and one a draw, and shows its last five letters. */
  ghost predicate AddsUpMatches(r: Row, results: seq<Match>, ids: set<string>) {
    var id, letters := r.team.id, Letters(results, ids, r.team.id);
    && r.played == Sum(Plays(ids, id), results)
    && r.won == Sum(Wins(ids, id), results)
    && r.drawn == Sum(Draws(ids, id), results)
    && r.lost == Sum(Losses(ids, id), results)
    && r.goalsFor == Sum(GoalsBy(ids, id), results)
    && r.goalsAgainst == Sum(GoalsAgainst(ids, id), results)
    && r.goalDifference == r.goalsFor - r.goalsAgainst
    && r.points == r.won + r.won + r.won + r.drawn
    && |r.form| == (if |letters| < 5 then |letters| else 5)
    && r.form == letters[|letters| - |r.form|..]
  }

  lemma MeasureOfMatches(g: Side -> int, f: Match -> int, results: seq<Match>, ids: set<string>, id: string)
    requires forall m | m in results ::
               f(m) == Given(m, ids, id, g(Side(m.homeGoals, m.awayGoals)), g(Side(m.awayGoals, m.homeGoals)))
    ensures Sum(g, History(results, ids, id)) == Sum(f, results)
  {
    HistoryTotal(g, results, ids, id);
    forall m | m in results
      ensures Share(g, ids, id)(m) == f(m)
    {
      SidesTotal(g, m, id);
    }
    SumAgrees(Share(g, ids, id), f, results);
  }

  /** What one match adds to a team's history. */
  function Seen(m: Match, ids: set<string>, id: string): seq<Side> {
    if Counted(m, ids) then SidesOf(m, id) else []
  }

  lemma LettersOfMatch(m: Match, ids: set<string>, id: string)
    ensures Map(Outcome, Seen(m, ids, id)) == LettersOf(m, ids, id)
  {
  }

  lemma OutcomesAppend(a: seq<Side>, b: seq<Side>)
    ensures Map(Outcome, a + b) == Map(Outcome, a) + Map(Outcome, b)
  {
  }

  lemma {:induction false} LettersOfHistory(results: seq<Match>, ids: set<string>, id: string)
    ensures Map(Outcome, History(results, ids, id)) == Letters(results, ids, id)
  {
    if results != [] {
      var before, m := results[..|results| - 1], results[|results| - 1];
      LettersOfHistory(before, ids, id);
      LettersOfMatch(m, ids, id);
      OutcomesAppend(History(before, ids, id), Seen(m, ids, id));
    }
  }

  lemma RowAddsUp(team: Team, results: seq<Match>, ids: set<string>)
    ensures AddsUpMatches(RowOf(team, History(results, ids, team.id)), results, ids)
  {
    var id := team.id;
    MeasureOfMatches(Played, Plays(ids, id), results, ids, id);
    MeasureOfMatches(Won, Wins(ids, id), results, ids, id);
    MeasureOfMatches(Drawn, Draws(ids, id), results, ids, id);
    MeasureOfMatches(Lost, Losses(ids, id), results, ids, id);
    MeasureOfMatches(Scored, GoalsBy(ids, id), results, ids, id);
    MeasureOfMatches(Conceded, GoalsAgainst(ids, id), results, ids, id);
    LettersOfHistory(results, ids, id);
  }

  /** Every row of the table adds up the matches of its team. */
  lemma RowsAddUp(names: (string, string) -> int, teams: seq<Team>, results: seq<Match>)
    ensures forall r | r in Rows(Table(names, teams, results)) :: AddsUpMatches(r, results, Ids(teams))
  {
    SortPermutes(RowsOf(teams, results), Order(names));
    assert Rows(Table(names, teams, results)) == Sort(RowsOf(teams, results), Order(names));
    forall r | r in Rows(Table(names, teams, results))
      ensures AddsUpMatches(r, results, Ids(teams))
    {
      assert r in multiset(RowsOf(teams, results));
      var i :| 0 <= i < |teams| && RowsOf(teams, results)[i] == r;
      RowAddsUp(teams[i], results, Ids(teams));
    }
  }

  lemma OneMatch(m: Match, ids: set<string>, r: Row)
    requires AddsUpMatches(r, [m], ids) && Counted(m, ids) && m.home != m.away
    ensures r.team.id == m.home ==>
              && r.won == Bit(m.homeGoals > m.awayGoals) && r.lost == Bit(m.homeGoals < m.awayGoals)
              && r.points == if m.homeGoals > m.awayGoals then 3 else if m.homeGoals == m.awayGoals then 1 else 0
    ensures r.team.id == m.away ==>
              && r.won == Bit(m.awayGoals > m.homeGoals) && r.lost == Bit(m.awayGoals < m.homeGoals)
              && r.points == if m.awayGoals > m.homeGoals then 3 else if m.homeGoals == m.awayGoals then 1 else 0
  {
    var id := r.team.id;
    SumOfOne(Wins(ids, id), m);
    SumOfOne(Draws(ids, id), m);
    SumOfOne(Losses(ids, id), m);
  }

  lemma SumOfOne(f: Match -> int, m: Match)
    ensures Sum(f, [m]) == f(m)
  {
    assert [m][1..] == [];
  }

  /** After one decisive match the winner has one win and three points, the loser neither, and the winner is above. */
  lemma WinnerIsAbove(names: (string, string) -> int, teams: seq<Team>, m: Match, i: nat, j: nat)
    requires ComparesNames(names, teams) && Counted(m, Ids(teams)) && m.home != m.away && m.homeGoals != m.awayGoals
    requires var rows := Table(names, teams, [m]).rows;
             && i < |rows| && j < |rows|
             && rows[i].row.team.id == (if m.homeGoals > m.awayGoals then m.home else m.away)
             && rows[j].row.team.id == (if m.homeGoals > m.awayGoals then m.away else m.home)
    ensures var rows := Table(names, teams, [m]).rows; var winner, loser := rows[i], rows[j];
            && winner.row.won == 1 && winner.row.lost == 0 && winner.row.points == 3
            && loser.row.won == 0 && loser.row.lost == 1 && loser.row.points == 0
            && winner.position < loser.position
  {
    RowAt(names, teams, [m], i);
    RowAt(names, teams, [m], j);
    var rows := Table(names, teams, [m]).rows;
    WinnerTakesAll(m, Ids(teams), rows[i].row, rows[j].row);
    MorePointsAreAbove(names, teams, [m], i, j);
  }

  lemma MorePointsAreAbove(names: (string, string) -> int, teams: seq<Team>, results: seq<Match>, i: nat, j: nat)
    requires ComparesNames(names, teams) && i < |Table(names, teams, results).rows|
    requires j < |Table(names, teams, results).rows|
    requires var rows := Table(names, teams, results).rows; rows[i].row.points > rows[j].row.points
    ensures i < j
  {
    TableFollowsTheRules(names, teams, results);
    var rows := Table(names, teams, results).rows;
    assert j < i ==> Above(names, rows[j].row, rows[i].row);
  }

  lemma RowAt(names: (string, string) -> int, teams: seq<Team>, results: seq<Match>, i: nat)
    requires i < |Table(names, teams, results).rows|
    ensures var placed := Table(names, teams, results).rows[i];
            AddsUpMatches(placed.row, results, Ids(teams)) && placed.position == i + 1
  {
    RowsAddUp(names, teams, results);
    assert Rows(Table(names, teams, results))[i] == Table(names, teams, results).rows[i].row;
  }

  lemma WinnerTakesAll(m: Match, ids: set<string>, winner: Row, loser: Row)
    requires Counted(m, ids) && m.home != m.away && m.homeGoals != m.awayGoals
    requires AddsUpMatches(winner, [m], ids) && AddsUpMatches(loser, [m], ids)
    requires winner.team.id == if m.homeGoals > m.awayGoals then m.home else m.away
    requires loser.team.id == if m.homeGoals > m.awayGoals then m.away else m.home
    ensures winner.won == 1 && winner.lost == 0 && winner.points == 3
    ensures loser.won == 0 && loser.lost == 1 && loser.points == 0
  {
    OneMatch(m, ids, winner);
    OneMatch(m, ids, loser);
  }

  // ---- Conservation ----

  predicate DistinctIds(teams: seq<Team>) {
    forall i, j | 0 <= i < j < |teams| :: teams[i].id != teams[j].id
  }

  /** What a match adds to the league's total of `g`, both sides together. */
  function BothSides(g: Side -> int, ids: set<string>): Match -> int {
    m => if Counted(m, ids) then g(Side(m.homeGoals, m.awayGoals)) + g(Side(m.awayGoals, m.homeGoals)) else 0
  }

  function ByTeam(g: Side -> int, results: seq<Match>, ids: set<string>): Team -> int {
    (t: Team) => Sum(g, History(results, ids, t.id))
  }

  function OwnSides(g: Side -> int, m: Match, ids: set<string>): Team -> int {
    (t: Team) => if Counted(m, ids) then Sum(g, SidesOf(m, t.id)) else 0
  }

  function OnlyFor(id: string, value: int): Team -> int {
    (t: Team) => if t.id == id then value else 0
  }

  lemma {:induction false} SumOnlyFor(teams: seq<Team>, id: string, value: int)
    requires DistinctIds(teams)
    ensures Sum(OnlyFor(id, value), teams) == if id in Ids(teams) then value else 0
  {
    if teams != [] {
      SumOnlyFor(teams[1..], id, value);
      assert teams == [teams[0]] + teams[1..];
      assert Ids(teams) == {teams[0].id} + Ids(teams[1..]);
    }
  }

  lemma SidesTotal(g: Side -> int, m: Match, id: string)
    ensures Sum(g, SidesOf(m, id)) == (if m.home == id then g(Side(m.homeGoals, m.awayGoals)) else 0)
                                      + if m.away == id then g(Side(m.awayGoals, m.homeGoals)) else 0
  {
    var h := if m.home == id then [Side(m.homeGoals, m.awayGoals)] else [];
    var a := if m.away == id then [Side(m.awayGoals, m.homeGoals)] else [];
    SumAppend(g, h, a);
    assert h != [] ==> h[1..] == [];
    assert a != [] ==> a[1..] == [];
  }

  lemma MatchOverTeams(g: Side -> int, m: Match, teams: seq<Team>)
    requires DistinctIds(teams)
    ensures Sum(OwnSides(g, m, Ids(teams)), teams) == BothSides(g, Ids(teams))(m)
  {
    var ids := Ids(teams);
    var h, a := Side(m.homeGoals, m.awayGoals), Side(m.awayGoals, m.homeGoals);
    if Counted(m, ids) {
      forall t | t in teams
        ensures OwnSides(g, m, ids)(t) == OnlyFor(m.home, g(h))(t) + OnlyFor(m.away, g(a))(t)
      {
        SidesTotal(g, m, t.id);
      }
      SumSplits(OwnSides(g, m, ids), OnlyFor(m.home, g(h)), OnlyFor(m.away, g(a)), teams);
      SumOnlyFor(teams, m.home, g(h));
      SumOnlyFor(teams, m.away, g(a));
    } else {
      SumAgrees(OwnSides(g, m, ids), OnlyFor(m.home, 0), teams);
      SumOnlyFor(teams, m.home, 0);
    }
  }

  lemma HistoryGrows(g: Side -> int, results: seq<Match>, m: Match, ids: set<string>, t: Team)
    ensures ByTeam(g, results + [m], ids)(t) == ByTeam(g, results, ids)(t) + OwnSides(g, m, ids)(t)
  {
    assert (results + [m])[..|results|] == results;
    SumAppend(g, History(results, ids, t.id), if Counted(m, ids) then SidesOf(m, t.id) else []);
  }

  /** Summing over the teams, or over the matches, comes to the same. */
  lemma {:induction false} LeagueTotal(g: Side -> int, teams: seq<Team>, results: seq<Match>)
    requires DistinctIds(teams)
    ensures Sum(ByTeam(g, results, Ids(teams)), teams) == Sum(BothSides(g, Ids(teams)), results)
  {
    var ids := Ids(teams);
    if results == [] {
      SumAgrees(ByTeam(g, results, ids), OnlyFor("", 0), teams);
      SumOnlyFor(teams, "", 0);
    } else {
      var before, m := results[..|results| - 1], results[|results| - 1];
      LeagueTotal(g, teams, before);
      assert results == before + [m];
      forall t | t in teams
        ensures ByTeam(g, results, ids)(t) == ByTeam(g, before, ids)(t) + OwnSides(g, m, ids)(t)
      {
        HistoryGrows(g, before, m, ids, t);
      }
      SumSplits(ByTeam(g, results, ids), ByTeam(g, before, ids), OwnSides(g, m, ids), teams);
      MatchOverTeams(g, m, teams);
      SumAppend(BothSides(g, ids), before, [m]);
      assert [m][1..] == [];
    }
  }

  /** A column that sums a measure over each team's history sums, over the table, both sides of every counted match. */
  lemma ColumnTotal(names: (string, string) -> int, teams: seq<Team>, results: seq<Match>, column: Row -> int,
          g: Side -> int, perMatch: Match -> int)
    requires ComparesNames(names, teams) && DistinctIds(teams)
    requires forall t, h :: column(RowOf(t, h)) == Sum(g, h)
    requires forall m :: perMatch(m) == BothSides(g, Ids(teams))(m)
    ensures Sum(column, Rows(Table(names, teams, results))) == Sum(perMatch, results)
  {
    var ids := Ids(teams);
    TableIsRanked(names, teams, results);
    SumPermutation(column, Rows(Table(names, teams, results)), RowsOf(teams, results));
    var rowOf := (t: Team) => RowOf(t, History(results, ids, t.id));
    assert RowsOf(teams, results) == Map(rowOf, teams);
    SumOfMap(column, rowOf, ByTeam(g, results, ids), teams);
    LeagueTotal(g, teams, results);
    SumAgrees(perMatch, BothSides(g, ids), results);
  }

  function Difference(s: Side): int { s.scored - s.conceded }
  function WinsLessLosses(s: Side): int { Won(s) - Lost(s) }
  function Points(s: Side): int { 3 * Won(s) + Drawn(s) }

  lemma {:induction false} MeasuresAgree(h: seq<Side>)
    ensures Sum(Difference, h) == Sum(Scored, h) - Sum(Conceded, h)
    ensures Sum(WinsLessLosses, h) == Sum(Won, h) - Sum(Lost, h)
    ensures Sum(Points, h) == 3 * Sum(Won, h) + Sum(Drawn, h)
  {
    if h != [] {
      MeasuresAgree(h[1..]);
    }
  }

  lemma MatchMeasures(m: Match, ids: set<string>)
    ensures BothSides(Played, ids)(m) == if Counted(m, ids) then 2 else 0
    ensures BothSides(Difference, ids)(m) == 0
    ensures BothSides(WinsLessLosses, ids)(m) == 0
    ensures BothSides(Points, ids)(m) == if !Counted(m, ids) then 0 else if m.homeGoals != m.awayGoals then 3 else 2
  {
    var h, a := Side(m.homeGoals, m.awayGoals), Side(m.awayGoals, m.homeGoals);
    assert Played(h) + Played(a) == 2;
    assert Difference(h) + Difference(a) == 0;
    assert WinsLessLosses(h) + WinsLessLosses(a) == 0;
    assert Points(h) + Points(a) == if m.homeGoals != m.awayGoals then 3 else 2;
  }

  function AppearancesIn(ids: set<string>): Match -> int {
    (m: Match) => if Counted(m, ids) then 2 else 0
  }

  function PointsIn(ids: set<string>): Match -> int {
    (m: Match) => if !Counted(m, ids) then 0 else if m.homeGoals != m.awayGoals then 3 else 2
  }

  /** Every counted match is two appearances in the table. */
  lemma AppearancesConserve(names: (string, string) -> int, teams: seq<Team>, results: seq<Match>)
    requires ComparesNames(names, teams) && DistinctIds(teams)
    ensures Sum((r: Row) => r.played, Rows(Table(names, teams, results))) == Sum(AppearancesIn(Ids(teams)), results)
  {
    forall m: Match
      ensures AppearancesIn(Ids(teams))(m) == BothSides(Played, Ids(teams))(m)
    {
      MatchMeasures(m, Ids(teams));
    }
    ColumnTotal(names, teams, results, (r: Row) => r.played, Played, AppearancesIn(Ids(teams)));
  }

  /** Goal difference cancels out over the table, and so do wins and losses. */
  lemma DifferencesCancel(names: (string, string) -> int, teams: seq<Team>, results: seq<Match>)
    requires ComparesNames(names, teams) && DistinctIds(teams)
    ensures Sum((r: Row) => r.goalDifference, Rows(Table(names, teams, results))) == 0
    ensures Sum((r: Row) => r.won - r.lost, Rows(Table(names, teams, results))) == 0
  {
    var none := (m: Match) => 0;
    forall t: Team, h: seq<Side>
      ensures RowOf(t, h).goalDifference == Sum(Difference, h)
      ensures RowOf(t, h).won - RowOf(t, h).lost == Sum(WinsLessLosses, h)
    {
      MeasuresAgree(h);
    }
    forall m: Match
      ensures none(m) == BothSides(Difference, Ids(teams))(m) == BothSides(WinsLessLosses, Ids(teams))(m)
    {
      MatchMeasures(m, Ids(teams));
    }
    ColumnTotal(names, teams, results, (r: Row) => r.goalDifference, Difference, none);
    ColumnTotal(names, teams, results, (r: Row) => r.won - r.lost, WinsLessLosses, none);
    SumOfZeros(none, results);
  }

  /** Every decisive match brings the table three points, every drawn one two. */
  lemma PointsConserve(names: (string, string) -> int, teams: seq<Team>, results: seq<Match>)
    requires ComparesNames(names, teams) && DistinctIds(teams)
    ensures Sum((r: Row) => r.points, Rows(Table(names, teams, results))) == Sum(PointsIn(Ids(teams)), results)
  {
    forall t: Team, h: seq<Side>
      ensures RowOf(t, h).points == Sum(Points, h)
    {
      MeasuresAgree(h);
    }
    forall m: Match
      ensures PointsIn(Ids(teams))(m) == BothSides(Points, Ids(teams))(m)
    {
      MatchMeasures(m, Ids(teams));
    }
    ColumnTotal(names, teams, results, (r: Row) => r.points, Points, PointsIn(Ids(teams)));
  }

  lemma {:induction false} SumOfZeros(f: Match -> int, results: seq<Match>)
    requires forall m :: f(m) == 0
    ensures Sum(f, results) == 0
  {
    if results != [] {
      SumOfZeros(f, results[1..]);
    }
  }

  // ---- The order of the results ----

  function WithoutForm(r: Row): Row { r.(form := []) }

  function Share(g: Side -> int, ids: set<string>, id: string): Match -> int {
    m => if Counted(m, ids) then Sum(g, SidesOf(m, id)) else 0
  }

  lemma {:induction false} HistoryTotal(g: Side -> int, results: seq<Match>, ids: set<string>, id: string)
    ensures Sum(g, History(results, ids, id)) == Sum(Share(g, ids, id), results)
  {
    if results != [] {
      var before, m := results[..|results| - 1], results[|results| - 1];
      HistoryTotal(g, before, ids, id);
      assert results == before + [m];
      SumAppend(g, History(before, ids, id), if Counted(m, ids) then SidesOf(m, id) else []);
      SumAppend(Share(g, ids, id), before, [m]);
      assert [m][1..] == [];
    }
  }

  lemma TotalIgnoresOrder(g: Side -> int, a: seq<Match>, b: seq<Match>, ids: set<string>, id: string)
    requires multiset(a) == multiset(b)
    ensures Sum(g, History(a, ids, id)) == Sum(g, History(b, ids, id))
  {
    HistoryTotal(g, a, ids, id);
    HistoryTotal(g, b, ids, id);
    SumPermutation(Share(g, ids, id), a, b);
  }

  lemma {:induction false} LatestMatchdayIsMax(results: seq<Match>, ids: set<string>)
    ensures var d := LatestMatchday(results, ids);
            && d >= 0
            && (forall m | m in results && Counted(m, ids) :: m.matchday <= d)
            && (d > 0 ==> exists m :: m in results && Counted(m, ids) && m.matchday == d)
  {
    if results != [] {
      LatestMatchdayIsMax(results[..|results| - 1], ids);
      assert results == results[..|results| - 1] + [results[|results| - 1]];
    }
  }

  lemma LatestIgnoresOrder(a: seq<Match>, b: seq<Match>, ids: set<string>)
    requires multiset(a) == multiset(b)
    ensures LatestMatchday(a, ids) == LatestMatchday(b, ids)
  {
    LatestMatchdayIsMax(a, ids);
    LatestMatchdayIsMax(b, ids);
    assert forall m :: m in a <==> m in multiset(a);
    assert forall m :: m in b <==> m in multiset(b);
  }

  lemma RowIgnoresOrder(team: Team, a: seq<Match>, b: seq<Match>, ids: set<string>)
    requires multiset(a) == multiset(b)
    ensures WithoutForm(RowOf(team, History(a, ids, team.id))) == WithoutForm(RowOf(team, History(b, ids, team.id)))
  {
    TotalIgnoresOrder(Played, a, b, ids, team.id);
    TotalIgnoresOrder(Won, a, b, ids, team.id);
    TotalIgnoresOrder(Drawn, a, b, ids, team.id);
    TotalIgnoresOrder(Lost, a, b, ids, team.id);
    TotalIgnoresOrder(Scored, a, b, ids, team.id);
    TotalIgnoresOrder(Conceded, a, b, ids, team.id);
  }

  lemma RowsIgnoreOrder(teams: seq<Team>, a: seq<Match>, b: seq<Match>)
    requires multiset(a) == multiset(b)
    ensures Map(WithoutForm, RowsOf(teams, a)) == Map(WithoutForm, RowsOf(teams, b))
  {
    forall i | 0 <= i < |teams|
      ensures WithoutForm(RowsOf(teams, a)[i]) == WithoutForm(RowsOf(teams, b)[i])
    {
      RowIgnoresOrder(teams[i], a, b, Ids(teams));
    }
  }

  lemma RankedWithoutForm(names: (string, string) -> int, teams: seq<Team>, results: seq<Match>)
    ensures Map(WithoutForm, Rows(Table(names, teams, results)))
            == Sort(Map(WithoutForm, RowsOf(teams, results)), Order(names))
  {
    SortCommutes(RowsOf(teams, results), WithoutForm, Order(names), Order(names));
    assert Rows(Table(names, teams, results)) == Sort(RowsOf(teams, results), Order(names));
  }

  /** Reordering the results changes nothing in the table but the form of its rows. */
  lemma OrderChangesOnlyForm(names: (string, string) -> int, teams: seq<Team>, a: seq<Match>, b: seq<Match>)
    requires multiset(a) == multiset(b)
    ensures var x := Table(names, teams, a); var y := Table(names, teams, b);
            && x.matchdaysPlayed == y.matchdaysPlayed
            && Map(WithoutForm, Rows(x)) == Map(WithoutForm, Rows(y))
            && forall i | 0 <= i < |x.rows| :: i < |y.rows| && x.rows[i].position == y.rows[i].position
  {
    LatestIgnoresOrder(a, b, Ids(teams));
    RowsIgnoreOrder(teams, a, b);
    RankedWithoutForm(names, teams, a);
    RankedWithoutForm(names, teams, b);
    assert |Map(WithoutForm, Rows(Table(names, teams, a)))| == |Table(names, teams, a).rows|;
    assert |Map(WithoutForm, Rows(Table(names, teams, b)))| == |Table(names, teams, b).rows|;
  }
}
