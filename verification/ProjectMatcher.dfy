/** Which registered project a conversation is about. Confidences 1.0, 0.95 and 0.85 are the
    percentages 100, 95 and 85. */
module ProjectMatcher {
  import opened Wrappers

  type Path = seq<string>

  datatype Row = Row(id: nat, path: Path, displayName: string, remote: Option<string>, enabled: bool)

  /** What the text shows: the paths it mentions, the fingerprints of the remotes it names (None
      for one that has no fingerprint), whether it shows coding, and the folded names in it. */
  datatype Evidence = Evidence(
    mentions: Path -> bool, remotes: seq<Option<string>>, coding: bool, fold: string -> string, contains: string -> bool)

  datatype ProjectMatch = ProjectMatch(
    project: Option<Row>, confidence: nat, evidence: set<string>, requiresConfirmation: bool,
    matched: set<nat>, blockedByDisabled: bool)

  datatype MatchError = ReconcileRequired

  // ---------- what the result means ----------

  function Names(e: Evidence, row: Row): set<string> {
    {e.fold(row.displayName), e.fold(if row.path == [] then "" else row.path[|row.path| - 1])}
  }

  predicate Named(e: Evidence, row: Row) {
    exists name :: name in Names(e, row) && name != "" && e.contains(name)
  }

  predicate SameRemote(e: Evidence, row: Row) {
    row.remote.Some? && row.remote in e.remotes
  }

  /** The best evidence for a project. */
  function Score(e: Evidence, row: Row): nat {
    if e.mentions(row.path) then 100
    else if SameRemote(e, row) then 95
    else if e.coding && Named(e, row) then 85
    else 0
  }

  function Kind(score: nat): string {
    if score == 100 then "absolute_path" else if score == 95 then "exact_remote" else "exact_project_name"
  }

  predicate SameOrNested(path: Path, parent: Path) {
    parent <= path
  }

  /** A path match is dropped when a deeper registered path also matched. */
  predicate Survives(e: Evidence, rows: set<Row>, row: Row) {
    && row in rows && Score(e, row) > 0
    && (Score(e, row) == 100 ==> forall other :: other in rows && Score(e, other) == 100 ==> !(row.path < other.path))
  }

  function Survivors(e: Evidence, rows: set<Row>): set<Row> {
    set row | row in rows && Survives(e, rows, row)
  }

  function Enabled(rows: set<Row>): set<Row> {
    set row | row in rows && row.enabled
  }

  function Top(e: Evidence, rows: set<Row>): nat {
    if exists row :: row in rows && Score(e, row) == 100 then 100
    else if exists row :: row in rows && Score(e, row) == 95 then 95
    else if exists row :: row in rows && Score(e, row) == 85 then 85
    else 0
  }

  function Winners(e: Evidence, rows: set<Row>): set<Row> {
    var enabled := Enabled(Survivors(e, rows));
    set row | row in enabled && Score(e, row) == Top(e, enabled)
  }

  /** A disabled project blocks when it scores as high as the winners, or lies at or below one. */
  predicate Blocks(e: Evidence, rows: set<Row>, row: Row) {
    && row in Survivors(e, rows) && !row.enabled
    && (|| Score(e, row) >= Top(e, Enabled(Survivors(e, rows)))
        || exists winner :: winner in Winners(e, rows) && SameOrNested(row.path, winner.path))
  }

  function Blockers(e: Evidence, rows: set<Row>): set<Row> {
    set row | row in rows && Blocks(e, rows, row)
  }

  function Kinds(e: Evidence, rows: set<Row>): set<string> {
    set row | row in rows :: Kind(Score(e, row))
  }

  function Ids(rows: set<Row>): set<nat> {
    set row | row in rows :: row.id
  }

  /** The decision, as a function of the set of registered rows alone. */
  function Decided(e: Evidence, current: Row -> bool, rows: set<Row>): Result<ProjectMatch, MatchError> {
    var survivors := Survivors(e, rows);
    if survivors == {} then Ok(ProjectMatch(None, 0, {}, true, {}, false))
    else if Enabled(survivors) == {} then
      Ok(ProjectMatch(None, Top(e, survivors), {Kind(Top(e, survivors))}, true, {}, true))
    else
      var winners, blockers := Winners(e, rows), Blockers(e, rows);
      if blockers != {} then
        Ok(ProjectMatch(None, Top(e, winners + blockers), Kinds(e, winners + blockers), true, {}, true))
      else if exists row :: row in winners && !current(row) then Err(ReconcileRequired)
      else if |winners| != 1 then
        Ok(ProjectMatch(None, Top(e, winners), Kinds(e, winners), true, Ids(winners), false))
      else
        Ok(ProjectMatch(Some(Only(winners)), Top(e, winners), Kinds(e, winners), false, Ids(winners), false))
  }

  lemma OneElement<T>(s: set<T>, x: T, y: T)
    requires |s| == 1 && x in s && y in s
    ensures x == y
  {
    assert |s - {x}| == 0;
  }

  function Only(s: set<Row>): (row: Row)
    requires |s| == 1
    ensures s == {row}
  {
    assert s != {};
    assert forall row, other :: row in s && other in s ==> row == other by {
      forall row, other | row in s && other in s
        ensures row == other
      {
        OneElement(s, row, other);
      }
    }
    var row :| row in s;
    row
  }

  // ---------- the properties ----------

  lemma {:induction false} DeepestExists(rows: set<Row>) returns (deepest: Row)
    requires rows != {}
    ensures deepest in rows && forall row :: row in rows ==> |row.path| <= |deepest.path|
    decreases |rows|
  {
    var row :| row in rows;
    var rest := rows - {row};
    if rest == {} {
      deepest := row;
      assert rows == {row};
    } else {
      var other := DeepestExists(rest);
      deepest := if |row.path| > |other.path| then row else other;
      assert forall r :: r in rows ==> r == row || r in rest;
    }
  }

  /** The surviving path matches are an antichain, and are not empty when any path matched. */
  lemma PathMatchesAntichain(e: Evidence, rows: set<Row>)
    ensures forall a, b :: a in Survivors(e, rows) && b in Survivors(e, rows) && Score(e, a) == 100 == Score(e, b)
              ==> !(a.path < b.path)
    ensures (exists row :: row in rows && Score(e, row) == 100)
              ==> exists row :: row in Survivors(e, rows) && Score(e, row) == 100
    ensures forall row :: row in rows && 0 < Score(e, row) < 100 ==> row in Survivors(e, rows)
  {
    if exists row :: row in rows && Score(e, row) == 100 {
      var matching := set row | row in rows && Score(e, row) == 100;
      var any :| any in rows && Score(e, any) == 100;
      assert any in matching;
      var deepest := DeepestExists(matching);
      assert Survives(e, rows, deepest);
    }
  }

  lemma TopIsMax(e: Evidence, rows: set<Row>)
    requires forall row :: row in rows ==> Score(e, row) > 0
    ensures forall row :: row in rows ==> Score(e, row) <= Top(e, rows)
    ensures rows != {} ==> exists row :: row in rows && Score(e, row) == Top(e, rows)
  {
  }

  /** What the sets of the decision hold, row by row; best is the top score of enabled survivors. */
  ghost predicate Explained(e: Evidence, rows: set<Row>, best: nat) {
    && (forall r :: r in Survivors(e, rows) ==> r in rows && Score(e, r) > 0)
    && (forall r :: r in Enabled(Survivors(e, rows)) <==> r in Survivors(e, rows) && r.enabled)
    && (forall r :: r in Winners(e, rows) <==> r in Survivors(e, rows) && r.enabled && Score(e, r) == best)
    && (forall r :: r in Survivors(e, rows) && r.enabled ==> Score(e, r) <= best)
    && (Enabled(Survivors(e, rows)) != {} ==> Winners(e, rows) != {})
    && (forall r :: r in Blockers(e, rows) <==>
          (&& r in Survivors(e, rows) && !r.enabled
           && (Score(e, r) >= best || exists w :: w in Winners(e, rows) && w.path <= r.path)))
  }

  lemma DecisionExplained(e: Evidence, rows: set<Row>)
    ensures Explained(e, rows, Top(e, Enabled(Survivors(e, rows))))
  {
    var enabled := Enabled(Survivors(e, rows));
    TopIsMax(e, enabled);
    hide Score, Top;
    if enabled != {} {
      var row :| row in enabled && Score(e, row) == Top(e, enabled);
      assert row in Winners(e, rows);
    }
  }

  /** Who the decision names, by its winners and blockers. */
  lemma DecisionIs(e: Evidence, current: Row -> bool, rows: set<Row>, row: Row)
    requires forall r :: r in rows ==> current(r)
    requires Winners(e, rows) <= Enabled(Survivors(e, rows)) <= Survivors(e, rows) <= rows
    ensures
      var r := Decided(e, current, rows);
      (r.Ok? && r.value.project == Some(row) && !r.value.requiresConfirmation) <==>
        (Winners(e, rows) == {row} && Blockers(e, rows) == {})
  {
    hide Survivors, Enabled, Winners, Blockers, Top, Kinds, Ids;
    if Winners(e, rows) == {row} {
      assert row in Enabled(Survivors(e, rows)) && row in Survivors(e, rows);
    }
  }

  /** No other survivor scores as high, and no disabled one lies at or below the row. */
  ghost predicate Unrivalled(e: Evidence, rows: set<Row>, row: Row) {
    forall other :: other != row && other in Survivors(e, rows) ==>
      Score(e, other) < Score(e, row) && (!other.enabled ==> !SameOrNested(other.path, row.path))
  }

  /** A project is chosen without confirmation exactly when it is an enabled survivor, every other
      survivor scores less, and no disabled survivor lies at or below it. */
  lemma ChosenExactlyWhen(e: Evidence, current: Row -> bool, rows: set<Row>, row: Row)
    requires forall r :: r in rows ==> current(r)
    ensures
      var r := Decided(e, current, rows);
      (r.Ok? && r.value.project == Some(row) && !r.value.requiresConfirmation) <==>
        (row in Survivors(e, rows) && row.enabled && Unrivalled(e, rows, row))
  {
    var best := Top(e, Enabled(Survivors(e, rows)));
    DecisionExplained(e, rows);
    hide Survivors, Enabled, Winners, Blockers, Top, Kinds, Ids, Score, Decided;
    DecisionIs(e, current, rows, row);
    if Winners(e, rows) == {row} && Blockers(e, rows) == {} {
      assert row in Winners(e, rows);
    }
    if row in Survivors(e, rows) && row.enabled && Unrivalled(e, rows, row) {
      var w :| w in Winners(e, rows);
      assert w == row;
    }
  }

  /** An enabled survivor that no enabled survivor outscores. */
  ghost predicate Best(e: Evidence, rows: set<Row>, row: Row) {
    && row in Survivors(e, rows) && row.enabled
    && forall other :: other in Survivors(e, rows) && other.enabled ==> Score(e, other) <= Score(e, row)
  }

  /** A disabled survivor that no enabled one outscores, or that lies at or below a best one. */
  ghost predicate Obstructs(e: Evidence, rows: set<Row>, row: Row) {
    && row in Survivors(e, rows) && !row.enabled
    && (|| (forall other :: other in Survivors(e, rows) && other.enabled ==> Score(e, other) <= Score(e, row))
        || exists winner :: Best(e, rows, winner) && winner.path <= row.path)
  }

  ghost predicate OnlyBest(e: Evidence, rows: set<Row>, row: Row) {
    forall other :: Best(e, rows, other) <==> other == row
  }

  lemma BestIsWinner(e: Evidence, rows: set<Row>)
    ensures forall row :: Best(e, rows, row) <==> row in Winners(e, rows)
    ensures forall row :: Obstructs(e, rows, row) <==> row in Blockers(e, rows)
  {
    var best := Top(e, Enabled(Survivors(e, rows)));
    DecisionExplained(e, rows);
    hide Survivors, Enabled, Winners, Blockers, Top, Score;
    WinnersAreBest(e, rows, best);
  }

  lemma WinnersAreBest(e: Evidence, rows: set<Row>, best: nat)
    requires Explained(e, rows, best) && best == Top(e, Enabled(Survivors(e, rows)))
    ensures forall row :: Best(e, rows, row) <==> row in Winners(e, rows)
    ensures forall row :: Obstructs(e, rows, row) <==> row in Blockers(e, rows)
  {
    if Enabled(Survivors(e, rows)) == {} {
      NoTop(e, Enabled(Survivors(e, rows)));
    }
    hide Survivors, Enabled, Winners, Blockers, Top, Score;
    if Enabled(Survivors(e, rows)) != {} {
      var w :| w in Winners(e, rows);
      assert Score(e, w) == best;
    }
    forall row
      ensures Best(e, rows, row) <==> row in Winners(e, rows)
    {
      assert Best(e, rows, row) ==> row in Enabled(Survivors(e, rows));
    }
    forall row
      ensures Obstructs(e, rows, row) <==> row in Blockers(e, rows)
    {
      if row in Survivors(e, rows) && !row.enabled && Score(e, row) < best && Enabled(Survivors(e, rows)) != {} {
        var w :| w in Winners(e, rows);
        assert w in Survivors(e, rows) && w.enabled && Score(e, w) > Score(e, row);
      }
    }
  }

  lemma NoTop(e: Evidence, rows: set<Row>)
    requires rows == {}
    ensures Top(e, rows) == 0
  {
  }

  /** The decision is blocked exactly by a disabled survivor that obstructs it, whatever the registry
      says of the rows; unblocked, it asks for reconciliation exactly when a best row is out of date,
      and else reports the best rows: one is the choice, several need confirmation. */
  lemma DecisionExactlyWhen(e: Evidence, current: Row -> bool, rows: set<Row>)
    ensures
      var r := Decided(e, current, rows);
      var blocked := exists row :: Obstructs(e, rows, row);
      && (r.Ok? && r.value.blockedByDisabled <==> blocked)
      && (r.Err? <==> !blocked && exists row :: Best(e, rows, row) && !current(row))
      && (r.Ok? ==> (r.value.requiresConfirmation <==> r.value.project.None?))
      && (r.Ok? && blocked ==> r.value.project.None? && r.value.matched == {})
      && (r.Ok? && !blocked ==>
            && (forall id :: id in r.value.matched <==> exists row :: Best(e, rows, row) && row.id == id)
            && (forall row :: r.value.project == Some(row) <==> OnlyBest(e, rows, row))
            && (forall row :: Best(e, rows, row) ==> r.value.confidence == Score(e, row)))
  {
    BestIsWinner(e, rows);
    EnabledIs(e, rows);
    var winners, blockers := Winners(e, rows), Blockers(e, rows);
    if Enabled(Survivors(e, rows)) != {} {
      WinnersAtTop(e, rows);
    }
    assert forall row :: row in winners ==> Score(e, row) == Top(e, Enabled(Survivors(e, rows)));
    hide Survivors, Enabled, Winners, Blockers, Top, Score, Kinds, Best, Obstructs, Kind;
    forall row
      ensures winners == {row} <==> OnlyBest(e, rows, row)
    {
      if OnlyBest(e, rows, row) {
        assert forall other :: other in winners <==> other == row;
      }
      assert winners == {row} ==> |winners| == 1;
    }
    if |winners| == 1 {
      assert winners == {Only(winners)};
    }
  }

  lemma EnabledIs(e: Evidence, rows: set<Row>)
    ensures Winners(e, rows) <= Enabled(Survivors(e, rows)) <= Survivors(e, rows)
    ensures Enabled(Survivors(e, rows)) != {} ==> Winners(e, rows) != {}
    ensures Enabled(Survivors(e, rows)) == {} ==> Blockers(e, rows) == Survivors(e, rows)
    ensures Blockers(e, rows) <= Survivors(e, rows)
  {
    DecisionExplained(e, rows);
    if Enabled(Survivors(e, rows)) == {} {
      NoTop(e, Enabled(Survivors(e, rows)));
      SurvivorsScore(e, rows);
      assert forall row :: row in Survivors(e, rows) ==> !row.enabled && row in rows;
    }
  }

  /** The rows a decision reports on: the best ones and what obstructs them; where none is enabled, the
      survivors that none outscores. */
  ghost predicate Decides(e: Evidence, rows: set<Row>, row: Row) {
    || Best(e, rows, row)
    || (Obstructs(e, rows, row)
        && ((exists other :: other in Survivors(e, rows) && other.enabled)
            || forall other :: other in Survivors(e, rows) ==> Score(e, other) <= Score(e, row)))
  }

  /** Its confidence is the best score among them, and its evidence the kinds of their scores. */
  ghost predicate Reports(e: Evidence, rows: set<Row>, m: ProjectMatch) {
    && (forall row :: Decides(e, rows, row) ==> Score(e, row) <= m.confidence)
    && (Survivors(e, rows) == {} ==> m.confidence == 0)
    && (Survivors(e, rows) != {} ==> exists row :: Decides(e, rows, row) && Score(e, row) == m.confidence)
    && (forall kind :: kind in m.evidence <==> exists row :: Decides(e, rows, row) && kind == Kind(Score(e, row)))
  }

  lemma KindsMeans(e: Evidence, rows: set<Row>, kind: string)
    ensures kind in Kinds(e, rows) <==> exists row :: row in rows && kind == Kind(Score(e, row))
  {
    hide Kind, Score;
  }

  /** A set of rows and its top score and kinds are reported, if they are the rows that decide. */
  lemma ReportsSet(e: Evidence, rows: set<Row>, deciding: set<Row>, m: ProjectMatch)
    requires forall row :: Decides(e, rows, row) <==> row in deciding
    requires deciding != {} && forall row :: row in deciding ==> Score(e, row) > 0
    requires Survivors(e, rows) != {} && m.confidence == Top(e, deciding) && m.evidence == Kinds(e, deciding)
    ensures Reports(e, rows, m)
  {
    TopIsMax(e, deciding);
    hide Survivors, Score, Kind, Top, Kinds, Decides;
    forall kind
      ensures kind in m.evidence <==> exists row :: Decides(e, rows, row) && kind == Kind(Score(e, row))
    {
      KindsMeans(e, deciding, kind);
    }
  }

  lemma DecisionFigures(e: Evidence, current: Row -> bool, rows: set<Row>)
    requires Decided(e, current, rows).Ok?
    ensures
      var m, survivors := Decided(e, current, rows).value, Survivors(e, rows);
      var deciding := Winners(e, rows) + Blockers(e, rows);
      if survivors == {} then m.confidence == 0 && m.evidence == {}
      else if Enabled(survivors) == {} then m.confidence == Top(e, survivors) && m.evidence == {Kind(Top(e, survivors))}
      else m.confidence == Top(e, deciding) && m.evidence == Kinds(e, deciding)
  {
    hide Survivors, Winners, Blockers, Enabled, Score, Top, Kind, Kinds, Ids;
    assert Blockers(e, rows) == {} ==> Winners(e, rows) + Blockers(e, rows) == Winners(e, rows);
  }

  /** Who decides, where some survivor is enabled and where none is. */
  lemma DecidersAre(e: Evidence, rows: set<Row>)
    requires Survivors(e, rows) != {}
    ensures
      var survivors := Survivors(e, rows);
      var deciding := if Enabled(survivors) == {} then set row | row in survivors && Score(e, row) == Top(e, survivors)
                      else Winners(e, rows) + Blockers(e, rows);
      && deciding != {} && deciding <= survivors
      && forall row :: Decides(e, rows, row) <==> row in deciding
  {
    BestIsWinner(e, rows);
    EnabledIs(e, rows);
    SurvivorsScore(e, rows);
    var survivors := Survivors(e, rows);
    EnabledMeans(survivors);
    TopIsMax(e, survivors);
    hide Survivors, Winners, Blockers, Enabled, Score, Top, Best, Obstructs;
  }

  lemma EnabledMeans(rows: set<Row>)
    ensures forall row :: row in Enabled(rows) <==> row in rows && row.enabled
  {
  }

  lemma DecisionReports(e: Evidence, current: Row -> bool, rows: set<Row>)
    requires Decided(e, current, rows).Ok?
    ensures Reports(e, rows, Decided(e, current, rows).value)
  {
    DecisionFigures(e, current, rows);
    SurvivorsScore(e, rows);
    var survivors := Survivors(e, rows);
    if survivors == {} {
      NoneDecides(e, rows);
      hide Decides, Kind, Score, Survivors, Decided;
    } else {
      DecidersAre(e, rows);
      hide Survivors, Winners, Blockers, Enabled, Score, Top, Kind, Kinds, Decides, Reports, Decided;
      var deciding := if Enabled(survivors) == {} then set row | row in survivors && Score(e, row) == Top(e, survivors)
                      else Winners(e, rows) + Blockers(e, rows);
      if Enabled(survivors) == {} {
        TopOfTop(e, survivors, deciding);
      }
      ReportsSet(e, rows, deciding, Decided(e, current, rows).value);
    }
  }

  lemma NoneDecides(e: Evidence, rows: set<Row>)
    requires Survivors(e, rows) == {}
    ensures forall row :: !Decides(e, rows, row)
  {
    hide Survivors;
  }

  lemma TopOfTop(e: Evidence, rows: set<Row>, top: set<Row>)
    requires rows != {} && forall row :: row in rows ==> Score(e, row) > 0
    requires top == set row | row in rows && Score(e, row) == Top(e, rows)
    ensures Top(e, top) == Top(e, rows) && Kinds(e, top) == {Kind(Top(e, rows))}
  {
    TopIsMax(e, rows);
    TopIsMax(e, top);
    hide Score, Top, Kind;
    var row :| row in rows && Score(e, row) == Top(e, rows);
    assert row in top;
  }

  /** What the score and the kind of a survivor say of the evidence for it. */
  lemma KindMeans(e: Evidence, row: Row)
    ensures Score(e, row) == 100 <==> e.mentions(row.path)
    ensures Score(e, row) == 95 <==> !e.mentions(row.path) && row.remote.Some? && row.remote in e.remotes
    ensures Score(e, row) > 0 ==>
              && (Kind(Score(e, row)) == "absolute_path" <==> e.mentions(row.path))
              && (Kind(Score(e, row)) == "exact_remote" <==> Score(e, row) == 95)
              && (Kind(Score(e, row)) == "exact_project_name" <==> Score(e, row) == 85)
  {
    assert |"absolute_path"| == 13 && |"exact_remote"| == 12 && |"exact_project_name"| == 18;
  }

  /** The evidence of a choice is how that project was found. */
  lemma EvidenceOfChoice(e: Evidence, current: Row -> bool, rows: set<Row>, row: Row)
    requires
      var r := Decided(e, current, rows);
      r.Ok? && r.value.project == Some(row)
    ensures
      var found := Decided(e, current, rows).value.evidence;
      if e.mentions(row.path) then found == {"absolute_path"}
      else if row.remote.Some? && row.remote in e.remotes then found == {"exact_remote"}
      else found == {"exact_project_name"} && e.coding && Named(e, row)
  {
    KindMeans(e, row);
    SurvivorsScore(e, rows);
    EnabledIs(e, rows);
    var winners := Winners(e, rows);
    assert winners == {row} && row in winners;
    hide Survivors, Winners, Blockers, Top, Enabled, Kind;
    assert Kinds(e, winners) == {Kind(Score(e, row))};
  }

  /** A disabled project can block a choice, but never turn it to another project. */
  lemma DisabledOnlyBlocks(e: Evidence, current: Row -> bool, rows: set<Row>, disabled: Row, row: Row)
    requires !disabled.enabled && forall r :: r in rows + {disabled} ==> current(r)
    requires
      var r := Decided(e, current, rows + {disabled});
      r.Ok? && r.value.project == Some(row) && !r.value.requiresConfirmation
    ensures
      var r := Decided(e, current, rows);
      r.Ok? && r.value.project == Some(row) && !r.value.requiresConfirmation
  {
    ChosenExactlyWhen(e, current, rows + {disabled}, row);
    ChosenExactlyWhen(e, current, rows, row);
    hide Decided, Score;
    forall r
      ensures r in Survivors(e, rows) ==> r in Survivors(e, rows + {disabled})
      ensures r in Survivors(e, rows + {disabled}) && r != disabled ==> r in Survivors(e, rows)
    {
      DisabledDropsNothing(e, rows, disabled, row, r);
    }
  }

  lemma DisabledDropsNothing(e: Evidence, rows: set<Row>, disabled: Row, row: Row, r: Row)
    requires !disabled.enabled && row.enabled
    requires row in Survivors(e, rows + {disabled}) && Unrivalled(e, rows + {disabled}, row)
    ensures r in Survivors(e, rows) ==> r in Survivors(e, rows + {disabled})
    ensures r in Survivors(e, rows + {disabled}) && r != disabled ==> r in Survivors(e, rows)
  {
    var more := rows + {disabled};
    assert Score(e, row) <= 100;
    assert disabled in Survivors(e, more) ==> Score(e, disabled) < 100;
    hide Score;
    if Score(e, disabled) == 100 && !Survives(e, more, disabled) {
      var other :| other in more && Score(e, other) == 100 && disabled.path < other.path;
      assert other in rows;
      assert r.path < disabled.path ==> r.path < other.path;
    }
  }

  // ---------- the matcher ----------

  datatype Candidate = Candidate(row: Row, score: nat, evidence: set<string>)

  type Candidates = map<nat, Candidate>

  function Merge(candidates: Candidates, row: Row, score: nat, evidence: string): Candidates {
    if row.id !in candidates || score > candidates[row.id].score
    then candidates[row.id := Candidate(row, score, {evidence})]
    else if score == candidates[row.id].score
    then candidates[row.id := candidates[row.id].(evidence := candidates[row.id].evidence + {evidence})]
    else candidates
  }

  ghost predicate DistinctIds(rows: seq<Row>) {
    forall i, j :: 0 <= i < j < |rows| ==> rows[i].id != rows[j].id
  }

  /** The score from the remotes and the names looked at so far. */
  function ScoreSoFar(e: Evidence, row: Row, remotes: seq<Option<string>>, names: set<string>): nat {
    if e.mentions(row.path) then 100
    else if row.remote.Some? && row.remote in remotes then 95
    else if exists name :: name in names && name in Names(e, row) then 85
    else 0
  }

  /** A candidate for every row that scores, and for no other. */
  ghost predicate Holds(candidates: Candidates, rows: seq<Row>, score: Row -> nat) {
    && (forall row :: row in rows ==>
          && (row.id in candidates <==> score(row) > 0)
          && (score(row) > 0 ==> candidates[row.id] == Candidate(row, score(row), {Kind(score(row))})))
    && (forall id :: id in candidates ==> exists row :: row in rows && row.id == id)
  }

  /** Merging one row's new evidence changes that row's candidate only. */
  lemma MergeStep(candidates: Candidates, rows: seq<Row>, old': Row -> nat, new': Row -> nat, row: Row, score: nat)
    requires DistinctIds(rows) && Holds(candidates, rows, old') && row in rows
    requires score in {100, 95, 85}
    requires new'(row) == if old'(row) > score then old'(row) else score
    requires forall other :: other in rows && other != row ==> new'(other) == old'(other)
    ensures Holds(Merge(candidates, row, score, Kind(score)), rows, new')
  {
    var merged := Merge(candidates, row, score, Kind(score));
    forall other | other in rows && other != row
      ensures other.id != row.id
    {
      var i :| 0 <= i < |rows| && rows[i] == row;
      var j :| 0 <= j < |rows| && rows[j] == other;
      assert i < j || j < i;
    }
    hide Kind;
    assert old'(row) == score ==> candidates[row.id].evidence + {Kind(score)} == {Kind(score)};
  }

  lemma SameScores(candidates: Candidates, rows: seq<Row>, old': Row -> nat, new': Row -> nat)
    requires Holds(candidates, rows, old')
    requires forall row :: row in rows ==> new'(row) == old'(row)
    ensures Holds(candidates, rows, new')
  {
  }

  /** The score after rows in this list were merged with a score of their own. */
  ghost function Raised(old': Row -> nat, list: seq<Row>, score: nat): Row -> nat {
    row => if row in list && old'(row) < score then score else old'(row)
  }

  method MergeRows(candidates: Candidates, list: seq<Row>, score: nat, ghost rows: seq<Row>, ghost old': Row -> nat)
    returns (merged: Candidates)
    requires DistinctIds(rows) && Holds(candidates, rows, old')
    requires score in {100, 95, 85} && forall row :: row in list ==> row in rows
    ensures Holds(merged, rows, Raised(old', list, score))
  {
    merged := candidates;
    SameScores(merged, rows, old', Raised(old', list[..0], score));
    hide Holds, Merge, DistinctIds, Kind;
    for k := 0 to |list|
      invariant Holds(merged, rows, Raised(old', list[..k], score))
    {
      assert list[..k + 1] == list[..k] + [list[k]];
      MergeStep(merged, rows, Raised(old', list[..k], score), Raised(old', list[..k + 1], score), list[k], score);
      merged := Merge(merged, list[k], score, Kind(score));
    }
    assert list[..|list|] == list;
  }

  function Having(rows: seq<Row>, fingerprint: Option<string>): (found: seq<Row>)
    ensures forall row :: row in found <==> row in rows && row.remote.Some? && row.remote == fingerprint
  {
    if rows == [] then []
    else if rows[0].remote.Some? && rows[0].remote == fingerprint then [rows[0]] + Having(rows[1..], fingerprint)
    else Having(rows[1..], fingerprint)
  }

  function AtPath(rows: seq<Row>, mentions: Path -> bool): (found: seq<Row>)
    ensures forall row :: row in found <==> row in rows && mentions(row.path)
  {
    if rows == [] then []
    else if mentions(rows[0].path) then [rows[0]] + AtPath(rows[1..], mentions)
    else AtPath(rows[1..], mentions)
  }

  type Groups = map<string, seq<Row>>

  /** Each name's rows are exactly those that have it. */
  ghost predicate Grouped(e: Evidence, rows: seq<Row>, groups: Groups) {
    forall name, row :: (name in groups && row in groups[name]) <==> (row in rows && name in Names(e, row))
  }

  method GroupNames(e: Evidence, rows: seq<Row>) returns (groups: Groups)
    ensures Grouped(e, rows, groups)
  {
    groups := map[];
    for k := 0 to |rows|
      invariant Grouped(e, rows[..k], groups)
    {
      var row := rows[k];
      assert rows[..k + 1] == rows[..k] + [row];
      var first, second := e.fold(row.displayName), e.fold(if row.path == [] then "" else row.path[|row.path| - 1]);
      var names := [first] + (if second == first then [] else [second]);
      assert forall name :: name in names <==> name in Names(e, row);
      ghost var before := groups;
      for n := 0 to |names|
        invariant forall name, r :: (name in groups && r in groups[name]) <==>
                    ((name in before && r in before[name]) || (r == row && name in names[..n]))
      {
        assert names[..n + 1] == names[..n] + [names[n]];
        groups := groups[names[n] := (if names[n] in groups then groups[names[n]] else []) + [row]];
      }
      assert names[..|names|] == names;
      forall name, r
        ensures (name in groups && r in groups[name]) <==> (r in rows[..k + 1] && name in Names(e, r))
      {
        assert (name in before && r in before[name]) <==> (r in rows[..k] && name in Names(e, r));
        assert r in rows[..k + 1] <==> r in rows[..k] || r == row;
      }
    }
    assert rows[..|rows|] == rows;
  }

  ghost function SoFar(e: Evidence, remotes: seq<Option<string>>, names: set<string>): Row -> nat {
    row => ScoreSoFar(e, row, remotes, names)
  }

  method FindByPath(e: Evidence, rows: seq<Row>) returns (candidates: Candidates)
    requires DistinctIds(rows)
    ensures Holds(candidates, rows, SoFar(e, [], {}))
  {
    hide Holds, DistinctIds, Kind;
    NothingHolds(rows);
    candidates := MergeRows(map[], AtPath(rows, e.mentions), 100, rows, row => 0);
    SameScores(candidates, rows, Raised(row => 0, AtPath(rows, e.mentions), 100), SoFar(e, [], {}));
  }

  method FindByRemote(e: Evidence, rows: seq<Row>, found: Candidates) returns (candidates: Candidates)
    requires DistinctIds(rows) && Holds(found, rows, SoFar(e, [], {}))
    ensures Holds(candidates, rows, SoFar(e, e.remotes, {}))
  {
    hide Holds, DistinctIds, Kind, Names;
    candidates := found;
    for i := 0 to |e.remotes|
      invariant Holds(candidates, rows, SoFar(e, e.remotes[..i], {}))
    {
      var list := Having(rows, e.remotes[i]);
      ghost var before := SoFar(e, e.remotes[..i], {});
      if e.remotes[i].Some? {
        candidates := MergeRows(candidates, list, 95, rows, before);
      }
      RemoteScores(e, rows, i);
      SameScores(candidates, rows, if e.remotes[i].Some? then Raised(before, list, 95) else before,
                 SoFar(e, e.remotes[..i + 1], {}));
    }
    assert e.remotes[..|e.remotes|] == e.remotes;
  }

  lemma RemoteScores(e: Evidence, rows: seq<Row>, i: nat)
    requires i < |e.remotes|
    ensures
      var before := SoFar(e, e.remotes[..i], {});
      var after := SoFar(e, e.remotes[..i + 1], {});
      forall row :: row in rows ==>
        && (e.remotes[i].Some? ==> after(row) == Raised(before, Having(rows, e.remotes[i]), 95)(row))
        && (e.remotes[i].None? ==> after(row) == before(row))
  {
    hide Names;
    assert e.remotes[..i + 1] == e.remotes[..i] + [e.remotes[i]];
  }

  method FindByName(e: Evidence, rows: seq<Row>, found: Candidates) returns (candidates: Candidates)
    requires DistinctIds(rows) && Holds(found, rows, SoFar(e, e.remotes, {}))
    ensures Holds(candidates, rows, row => Score(e, row))
  {
    hide Holds, DistinctIds, Kind, Names, Grouped, SoFar, Raised;
    candidates := found;
    ghost var done: set<string> := {};
    if e.coding {
      var groups := GroupNames(e, rows);
      var left := groups.Keys;
      while left != {}
        invariant left <= groups.Keys
        invariant done == (set name | name in groups.Keys - left && name != "" && e.contains(name))
        invariant Holds(candidates, rows, SoFar(e, e.remotes, done))
        decreases |left|
      {
        var name :| name in left;
        left := left - {name};
        if name == "" || !e.contains(name) {
          continue;
        }
        GroupHas(e, rows, groups, name);
        ghost var before := SoFar(e, e.remotes, done);
        candidates := MergeRows(candidates, groups[name], 85, rows, before);
        NameScores(e, rows, groups[name], name, done);
        SameScores(candidates, rows, Raised(before, groups[name], 85), SoFar(e, e.remotes, done + {name}));
        done := done + {name};
      }
      AllNamesSeen(e, rows, groups, done);
    } else {
      NoNamesNeeded(e, rows);
    }
    SameScores(candidates, rows, SoFar(e, e.remotes, done), row => Score(e, row));
  }

  lemma NameScores(e: Evidence, rows: seq<Row>, group: seq<Row>, name: string, done: set<string>)
    requires forall row :: row in group <==> row in rows && name in Names(e, row)
    ensures
      var before := SoFar(e, e.remotes, done);
      forall row :: row in rows ==> SoFar(e, e.remotes, done + {name})(row) == Raised(before, group, 85)(row)
  {
    hide Names;
  }

  lemma NothingHolds(rows: seq<Row>)
    ensures Holds(map[], rows, row => 0)
  {
  }

  lemma GroupHas(e: Evidence, rows: seq<Row>, groups: Groups, name: string)
    requires Grouped(e, rows, groups) && name in groups
    ensures forall row :: row in groups[name] <==> row in rows && name in Names(e, row)
  {
  }

  lemma AllNamesSeen(e: Evidence, rows: seq<Row>, groups: Groups, done: set<string>)
    requires Grouped(e, rows, groups) && e.coding
    requires done == set name | name in groups.Keys && name != "" && e.contains(name)
    ensures forall row :: row in rows ==> Score(e, row) == SoFar(e, e.remotes, done)(row)
  {
    hide Names;
    forall row | row in rows
      ensures Named(e, row) <==> exists name :: name in done && name in Names(e, row)
    {
      if name :| name in Names(e, row) && name != "" && e.contains(name) {
        assert row in groups[name];
        assert name in done;
      }
    }
  }

  lemma NoNamesNeeded(e: Evidence, rows: seq<Row>)
    requires !e.coding
    ensures forall row :: row in rows ==> Score(e, row) == SoFar(e, e.remotes, {})(row)
  {
    hide Names;
  }

  // ---------- from candidates to the decision ----------

  /** The rows of the candidates that are left when a deeper path match drops a shallower one. */
  function PreferNested(candidates: Candidates): set<Row> {
    set id | id in candidates
      && (|| "absolute_path" !in candidates[id].evidence
          || !exists other :: other in candidates && "absolute_path" in candidates[other].evidence
               && candidates[id].row.path < candidates[other].row.path)
      :: candidates[id].row
  }

  lemma PreferNestedIsSurvivors(e: Evidence, rows: seq<Row>, candidates: Candidates)
    requires Holds(candidates, rows, row => Score(e, row))
    ensures PreferNested(candidates) == Survivors(e, set row | row in rows)
    ensures forall row :: row in Survivors(e, set row | row in rows) ==>
              row.id in candidates && candidates[row.id].score == Score(e, row)
              && candidates[row.id].evidence == {Kind(Score(e, row))}
  {
    var all := set row | row in rows;
    assert forall row :: row in rows ==> (Kind(Score(e, row)) == "absolute_path" <==> Score(e, row) == 100);
    hide Score, Kind;
    forall row | row in PreferNested(candidates)
      ensures Survives(e, all, row)
    {
      var id :| id in candidates && candidates[id].row == row;
    }
    forall row | Survives(e, all, row)
      ensures row in PreferNested(candidates)
    {
      forall other | other in candidates && "absolute_path" in candidates[other].evidence
        ensures Score(e, row) == 100 ==> !(row.path < candidates[other].row.path)
      {
      }
      assert candidates[row.id].row == row;
    }
  }

  /** Candidates carry the scores and the kinds of these rows. */
  ghost predicate Carries(e: Evidence, candidates: Candidates, rows: set<Row>) {
    forall row :: row in rows ==>
      && row.id in candidates && Score(e, row) > 0
      && candidates[row.id].score == Score(e, row) && candidates[row.id].evidence == {Kind(Score(e, row))}
  }

  method Highest(ghost e: Evidence, candidates: Candidates, rows: set<Row>) returns (highest: nat)
    requires Carries(e, candidates, rows)
    ensures highest == Top(e, rows)
  {
    highest := 0;
    var left := rows;
    while left != {}
      invariant left <= rows && highest == Top(e, rows - left)
      decreases |left|
    {
      var row :| row in left;
      TopGrows(e, rows - left, row);
      assert rows - (left - {row}) == rows - left + {row};
      left := left - {row};
      if candidates[row.id].score > highest {
        highest := candidates[row.id].score;
      }
    }
    assert rows - left == rows;
  }

  lemma TopGrows(e: Evidence, rows: set<Row>, row: Row)
    ensures Top(e, rows + {row}) == if Score(e, row) > Top(e, rows) then Score(e, row) else Top(e, rows)
  {
  }

  function AllEvidence(candidates: Candidates, rows: set<Row>): set<string>
    requires forall row :: row in rows ==> row.id in candidates
  {
    set row, kind | row in rows && kind in candidates[row.id].evidence :: kind
  }

  lemma EvidenceIsKinds(e: Evidence, candidates: Candidates, rows: set<Row>)
    requires Carries(e, candidates, rows)
    ensures AllEvidence(candidates, rows) == Kinds(e, rows)
  {
    hide Kind, Score;
  }

  /** The match of a conversation, whatever the order of the registry's rows. */
  method Match(e: Evidence, current: Row -> bool, rows: seq<Row>) returns (r: Result<ProjectMatch, MatchError>)
    requires DistinctIds(rows)
    ensures r == Decided(e, current, set row | row in rows)
  {
    hide Score, Kind, Survivors, Survives, Top, AllEvidence, Kinds, Holds, PreferNested, Carries, Winners, Blockers,
         Enabled, DistinctIds, SoFar;
    ghost var all := set row | row in rows;
    var candidates := FindByPath(e, rows);
    candidates := FindByRemote(e, rows, candidates);
    candidates := FindByName(e, rows, candidates);
    var ranked := PreferNested(candidates);
    PreferNestedIsSurvivors(e, rows, candidates);
    SurvivorsCarried(e, candidates, all);
    if ranked == {} {
      return Ok(ProjectMatch(None, 0, {}, true, {}, false));
    }
    var enabled := Enabled(ranked);
    if enabled == {} {
      var top := Highest(e, candidates, ranked);
      var highest := set row | row in ranked && row.id in candidates && candidates[row.id].score == top;
      TopKind(e, candidates, ranked, highest);
      return Ok(ProjectMatch(None, top, AllEvidence(candidates, highest), true, {}, true));
    }
    r := Choose(e, current, candidates, all, ranked);
  }

  /** Among ranked rows of which some are enabled: the winners, unless something blocks them. */
  method Choose(ghost e: Evidence, current: Row -> bool, candidates: Candidates, ghost all: set<Row>, ranked: set<Row>)
    returns (r: Result<ProjectMatch, MatchError>)
    requires ranked == Survivors(e, all) && Carries(e, candidates, ranked) && Enabled(ranked) != {}
    ensures r == Decided(e, current, all)
  {
    CarriesFewer(e, candidates, ranked, Enabled(ranked));
    hide Score, Kind, Survivors, Survives, Top, AllEvidence, Kinds, Winners, Blockers, Carries, Ids, SameOrNested, Enabled;
    var enabled := Enabled(ranked);
    var disabled := ranked - enabled;
    var highest := Highest(e, candidates, enabled);
    var winners := set row | row in enabled && candidates[row.id].score == highest;
    var blockers := set row | row in disabled
      && (candidates[row.id].score >= highest || exists winner :: winner in winners && SameOrNested(row.path, winner.path));
    BlockersAre(e, all, ranked, candidates, winners, highest, blockers);
    if blockers != {} {
      CarriesFewer(e, candidates, ranked, winners + blockers);
      var top := Highest(e, candidates, winners + blockers);
      EvidenceIsKinds(e, candidates, winners + blockers);
      return Ok(ProjectMatch(None, top, AllEvidence(candidates, winners + blockers), true, {}, true));
    }
    if exists row :: row in winners && !current(row) {
      return Err(ReconcileRequired);
    }
    CarriesFewer(e, candidates, ranked, winners);
    EvidenceIsKinds(e, candidates, winners);
    WinnersAtTop(e, all);
    if |winners| != 1 {
      return Ok(ProjectMatch(None, highest, AllEvidence(candidates, winners), true, Ids(winners), false));
    }
    r := Ok(ProjectMatch(Some(Only(winners)), highest, AllEvidence(candidates, winners), false, Ids(winners), false));
  }

  lemma BlockersAre(e: Evidence, all: set<Row>, ranked: set<Row>, candidates: Candidates, winners: set<Row>,
                    highest: nat, blockers: set<Row>)
    requires ranked == Survivors(e, all) && Carries(e, candidates, ranked)
    requires highest == Top(e, Enabled(ranked))
    requires winners == set row | row in Enabled(ranked) && candidates[row.id].score == highest
    requires blockers == set row | row in ranked - Enabled(ranked)
               && (candidates[row.id].score >= highest
                   || exists winner :: winner in winners && SameOrNested(row.path, winner.path))
    ensures winners == Winners(e, all) && blockers == Blockers(e, all) && winners + blockers <= ranked
  {
    SurvivorsScore(e, all);
    hide Score, Kind, Survivors, Survives, Top, SameOrNested;
  }

  lemma CarriesFewer(e: Evidence, candidates: Candidates, rows: set<Row>, fewer: set<Row>)
    requires Carries(e, candidates, rows) && fewer <= rows
    ensures Carries(e, candidates, fewer) && forall row :: row in fewer ==> row.id in candidates
  {
  }

  lemma SurvivorsCarried(e: Evidence, candidates: Candidates, rows: set<Row>)
    requires forall row :: row in Survivors(e, rows) ==>
               row.id in candidates && candidates[row.id].score == Score(e, row)
               && candidates[row.id].evidence == {Kind(Score(e, row))}
    ensures Carries(e, candidates, Survivors(e, rows))
  {
    SurvivorsScore(e, rows);
    hide Score, Kind, Survivors;
  }

  lemma TopKind(e: Evidence, candidates: Candidates, rows: set<Row>, highest: set<Row>)
    requires Carries(e, candidates, rows) && rows != {}
    requires highest == set row | row in rows && row.id in candidates && candidates[row.id].score == Top(e, rows)
    ensures forall row :: row in highest ==> row.id in candidates
    ensures AllEvidence(candidates, highest) == {Kind(Top(e, rows))}
  {
    TopIsMax(e, rows);
    hide Score, Kind, Top;
    var row :| row in rows && Score(e, row) == Top(e, rows);
    assert row in highest && Kind(Top(e, rows)) in candidates[row.id].evidence;
  }

  lemma SurvivorsScore(e: Evidence, rows: set<Row>)
    ensures forall row :: row in Survivors(e, rows) ==> Score(e, row) > 0 && row in rows
  {
  }

  /** The winners' own top score is the top score of the enabled survivors. */
  lemma WinnersAtTop(e: Evidence, rows: set<Row>)
    requires Enabled(Survivors(e, rows)) != {}
    ensures Top(e, Winners(e, rows)) == Top(e, Enabled(Survivors(e, rows)))
  {
    SurvivorsScore(e, rows);
    var enabled := Enabled(Survivors(e, rows));
    TopIsMax(e, enabled);
    TopIsMax(e, Winners(e, rows));
    hide Score, Top, Survivors;
    var row :| row in enabled && Score(e, row) == Top(e, enabled);
    assert row in Winners(e, rows);
  }
}
