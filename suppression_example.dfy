/** The source text of the engine's suppression test: a marker line that disables
    `errors.swallowed`, followed by a Python handler that only passes. */
module SuppressionExample {
  import opened Strings
  import opened Suppressions

  const ListedId := "errors.swallowed"
  const MarkerLine := "# " + Marker + ListedId
  const HandlerLines := "try:\n    risky()\nexcept Exception:\n    pass\n"
  const ScenarioSource := MarkerLine + "\n" + HandlerLines

  /** The marker starts at the third character of the marker line, and the id list
      follows it. */
  lemma MarkerPosition()
    ensures Index(MarkerLine, Marker) == 2
    ensures MarkerLine[2 + |Marker|..] == ListedId
  {
    var rest := Marker + ListedId;
    assert MarkerLine == ['#'] + ([' '] + rest);
    IndexOfPrefix(Marker, ListedId);
    IndexPastChar(' ', rest, Marker);
    IndexPastChar('#', [' '] + rest, Marker);
  }

  /** The listed id holds no comma and no surrounding whitespace, so it is the
      whole list. */
  lemma ListedIdIsOnePiece()
    ensures Split(ListedId, ',') == [ListedId]
  {
    assert ',' !in ListedId;
    SplitWithout(ListedId, ',');
  }

  lemma ListedIdIsTrimmed()
    ensures TrimSpace(ListedId) == ListedId
  {
    TrimSpaceOfTrimmed(ListedId);
  }

  lemma ListedIdAlone()
    ensures IdsIn(Split(ListedId, ',')) == [ListedId]
  {
    ListedIdIsOnePiece();
    ListedIdIsTrimmed();
    IdsInOne(ListedId);
  }

  /** The marker line lists exactly `errors.swallowed`. */
  lemma MarkerLineListsErrorsSwallowed()
    ensures MarkerIds(MarkerLine) == [ListedId]
  {
    MarkerPosition();
    ListedIdAlone();
  }
  /** The first line of the source is the marker line. */
  lemma ScenarioFirstLine()
    ensures |Lines(ScenarioSource)| >= 1 && Lines(ScenarioSource)[0] == MarkerLine
  {
    SplitAfter(MarkerLine, HandlerLines, '\n');
    assert ScenarioSource == MarkerLine + ['\n'] + HandlerLines;
  }

  /** Some line of the source lists `errors.swallowed`. */
  lemma ScenarioListsErrorsSwallowed()
    ensures exists i :: 0 <= i < |Lines(ScenarioSource)| && ListedId in MarkerIds(Lines(ScenarioSource)[i])
  {
    ScenarioFirstLine();
    MarkerLineListsErrorsSwallowed();
    assert ListedId in MarkerIds(Lines(ScenarioSource)[0]);
  }
}
