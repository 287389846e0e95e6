/** Inline suppression markers: `check-this: disable=<id>[,<id>...]` anywhere on a
    line disables the listed rules. The index maps each listed id to the zero-based
    lines that list it plus the sentinel -1, and the sentinel makes every listing
    file-wide. */
module Suppressions {
  import opened Strings
  import opened Diagnostics

  const Marker := "check-this: disable="

  /** The sentinel line number that marks a file-wide suppression. */
  const FileWide := -1

  /** Rule id to the set of line numbers that suppress it. */
  type SuppressionMap = map<string, set<int>>

  predicate Holds(index: SuppressionMap, id: string, line: int) {
    id in index && line in index[id]
  }

  function Lines(source: string): seq<string> {
    Split(source, '\n')
  }

  /** The trimmed, non-blank pieces of a comma-separated list, in order. */
  function IdsIn(parts: seq<string>): (r: seq<string>)
    ensures "" !in r
  {
    if parts == [] then []
    else
      var id := TrimSpace(parts[|parts| - 1]);
      IdsIn(parts[..|parts| - 1]) + (if id == "" then [] else [id])
  }

  /** A single trimmed, non-blank piece is listed as itself. */
  lemma IdsInOne(id: string)
    requires id != "" && TrimSpace(id) == id
    ensures IdsIn([id]) == [id]
  {
    assert [id][..0] == [];
  }

  /** The ids a line lists after the first marker on it; none without a marker. */
  function MarkerIds(line: string): (r: seq<string>)
    ensures "" !in r
  {
    var at := Index(line, Marker);
    if at == -1 then []
    else IdsIn(Split(line[at + |Marker|..], ','))
  }

  /** Records one listing of `id` on line `line`, together with the sentinel. */
  function Mark(index: SuppressionMap, id: string, line: int): SuppressionMap {
    index[id := (if id in index then index[id] else {}) + {line} + {FileWide}]
  }

  function MarkAll(index: SuppressionMap, ids: seq<string>, line: int): SuppressionMap {
    if ids == [] then index
    else Mark(MarkAll(index, ids[..|ids| - 1], line), ids[|ids| - 1], line)
  }

  /** The ids each line lists, line by line. */
  function LineIds(lines: seq<string>): (r: seq<seq<string>>)
    ensures |r| == |lines|
  {
    if lines == [] then [] else LineIds(lines[..|lines| - 1]) + [MarkerIds(lines[|lines| - 1])]
  }

  /** The index built from per-line id lists, lines numbered from zero. */
  function IndexOf(listed: seq<seq<string>>): SuppressionMap {
    if listed == [] then map[]
    else MarkAll(IndexOf(listed[..|listed| - 1]), listed[|listed| - 1], |listed| - 1)
  }

  /** What `collectSuppressions` builds for a source text. */
  function SuppressionIndex(source: string): SuppressionMap {
    IndexOf(LineIds(Lines(source)))
  }

  /** `shouldSuppress`: the diagnostic's own id is listed for its start line, or file-wide. */
  predicate ShouldSuppress(index: SuppressionMap, d: Diagnostic) {
    d.ruleId in index && (d.range.start.line in index[d.ruleId] || FileWide in index[d.ruleId])
  }

  /** The non-blank strings of `ts`, in order: `IdsIn` once every piece is trimmed. */
  function NonBlank(ts: seq<string>): seq<string> {
    if ts == [] then []
    else
      var t := ts[|ts| - 1];
      NonBlank(ts[..|ts| - 1]) + (if t == "" then [] else [t])
  }

  lemma {:induction false} NonBlankMembership(ts: seq<string>, id: string)
    ensures id in NonBlank(ts) <==> id != "" && exists k :: 0 <= k < |ts| && ts[k] == id
  {
    if ts != [] {
      var n := |ts| - 1;
      NonBlankMembership(ts[..n], id);
      assert forall k :: 0 <= k < n ==> ts[..n][k] == ts[k];
    }
  }

  lemma {:induction false} IdsInNonBlank(parts: seq<string>, trimmed: seq<string>)
    requires |trimmed| == |parts|
    requires forall k :: 0 <= k < |parts| ==> trimmed[k] == TrimSpace(parts[k])
    ensures IdsIn(parts) == NonBlank(trimmed)
  {
    if parts != [] {
      var n := |parts| - 1;
      IdsInNonBlank(parts[..n], trimmed[..n]);
    }
  }

  /** An id is listed by a list exactly when some piece trims to it and it is not blank. */
  lemma IdsInSpec(parts: seq<string>, id: string)
    ensures id in IdsIn(parts) <==> id != "" && exists k :: 0 <= k < |parts| && TrimSpace(parts[k]) == id
  {
    var trimmed := seq(|parts|, k requires 0 <= k < |parts| => TrimSpace(parts[k]));
    IdsInNonBlank(parts, trimmed);
    NonBlankMembership(trimmed, id);
  }

  /** Marking adds each listed id with the line and the sentinel, and keeps everything else. */
  lemma {:induction false} MarkAllSpec(index: SuppressionMap, ids: seq<string>, line: int, id: string, l: int)
    ensures id in MarkAll(index, ids, line) <==> id in index || id in ids
    ensures Holds(MarkAll(index, ids, line), id, l) <==>
      Holds(index, id, l) || (id in ids && (l == line || l == FileWide))
  {
    if ids != [] {
      var n := |ids| - 1;
      MarkAllSpec(index, ids[..n], line, id, l);
      assert ids == ids[..n] + [ids[n]];
    }
  }

  lemma {:induction false} LineIdsSpec(lines: seq<string>, i: int)
    requires 0 <= i < |lines|
    ensures LineIds(lines)[i] == MarkerIds(lines[i])
  {
    var n := |lines| - 1;
    if i < n {
      assert lines[..n][i] == lines[i];
      LineIdsSpec(lines[..n], i);
    }
  }

  /** Some line's list names `id`. */
  predicate Listed(listed: seq<seq<string>>, id: string) {
    exists i :: 0 <= i < |listed| && id in listed[i]
  }

  lemma ListedSnoc(listed: seq<seq<string>>, id: string)
    requires listed != []
    ensures Listed(listed, id) <==> Listed(listed[..|listed| - 1], id) || id in listed[|listed| - 1]
  {
    var n := |listed| - 1;
    assert forall i :: 0 <= i < n ==> listed[..n][i] == listed[i];
  }

  /** The index lists an id exactly when some line names it, and then always with
      the file-wide sentinel. */
  lemma {:induction false} IndexOfKeys(listed: seq<seq<string>>, id: string)
    ensures id in IndexOf(listed) <==> Listed(listed, id)
    ensures id in IndexOf(listed) ==> Holds(IndexOf(listed), id, FileWide)
  {
    if listed != [] {
      var n := |listed| - 1;
      IndexOfKeys(listed[..n], id);
      MarkAllSpec(IndexOf(listed[..n]), listed[n], n, id, FileWide);
      ListedSnoc(listed, id);
    }
  }

  /** The index lists an id for line `l` exactly when line `l` names it. */
  lemma {:induction false} IndexOfLines(listed: seq<seq<string>>, id: string, l: int)
    requires l != FileWide
    ensures Holds(IndexOf(listed), id, l) <==> 0 <= l < |listed| && id in listed[l]
  {
    if listed != [] {
      var n := |listed| - 1;
      IndexOfLines(listed[..n], id, l);
      MarkAllSpec(IndexOf(listed[..n]), listed[n], n, id, l);
      if 0 <= l < n {
        assert listed[..n][l] == listed[l];
      }
    }
  }

  /** The index of a source lists an id for line `l` exactly when the marker on
      line `l` names it. */
  lemma SuppressionIndexLines(source: string, id: string, l: int)
    requires l != FileWide
    ensures Holds(SuppressionIndex(source), id, l) <==>
      0 <= l < |Lines(source)| && id in MarkerIds(Lines(source)[l])
  {
    IndexOfLines(LineIds(Lines(source)), id, l);
    if 0 <= l < |Lines(source)| {
      LineIdsSpec(Lines(source), l);
    }
  }

  /** Suppression is file-wide: a diagnostic is dropped exactly when its own id is
      listed on some line, whatever line the diagnostic is on. */
  lemma SuppressionIsFileWide(source: string, d: Diagnostic)
    ensures ShouldSuppress(SuppressionIndex(source), d) <==>
      exists i :: 0 <= i < |Lines(source)| && d.ruleId in MarkerIds(Lines(source)[i])
  {
    var lines := Lines(source);
    IndexOfKeys(LineIds(lines), d.ruleId);
    forall i | 0 <= i < |lines| {
      LineIdsSpec(lines, i);
    }
  }

  /** A diagnostic with a blank id is never suppressed. */
  lemma BlankIdIsNeverSuppressed(source: string, d: Diagnostic)
    requires d.ruleId == ""
    ensures !ShouldSuppress(SuppressionIndex(source), d)
  {
    SuppressionIsFileWide(source, d);
  }

  lemma IdsInSnoc(parts: seq<string>, j: int)
    requires 0 <= j < |parts|
    ensures TrimSpace(parts[j]) == "" ==> IdsIn(parts[..j + 1]) == IdsIn(parts[..j])
    ensures TrimSpace(parts[j]) != "" ==> IdsIn(parts[..j + 1]) == IdsIn(parts[..j]) + [TrimSpace(parts[j])]
  {
    assert parts[..j + 1][..j] == parts[..j];
  }

  lemma MarkAllSnoc(index: SuppressionMap, ids: seq<string>, id: string, line: int)
    ensures MarkAll(index, ids + [id], line) == Mark(MarkAll(index, ids, line), id, line)
  {
    assert (ids + [id])[..|ids|] == ids;
  }

  /** The three updates `collectSuppressions` makes for one id amount to `Mark`. */
  lemma MarkSteps(index: SuppressionMap, id: string, line: int)
    ensures var m1 := if id !in index then index[id := {}] else index;
            var m2 := m1[id := m1[id] + {line}];
            m2[id := m2[id] + {FileWide}] == Mark(index, id, line)
  {
  }

  /** The inner loop of `collectSuppressions`: records each trimmed, non-blank piece
      of `parts` for line `line`, with the sentinel. */
  method RecordIds(index: SuppressionMap, parts: seq<string>, line: int) returns (out: SuppressionMap)
    ensures out == MarkAll(index, IdsIn(parts), line)
  {
    out := index;
    for j := 0 to |parts|
      invariant out == MarkAll(index, IdsIn(parts[..j]), line)
    {
      var ruleId := TrimSpace(parts[j]);
      IdsInSnoc(parts, j);
      if ruleId == "" {
        continue;
      }
      MarkAllSnoc(index, IdsIn(parts[..j]), ruleId, line);
      MarkSteps(out, ruleId, line);
      if ruleId !in out {
        out := out[ruleId := {}];
      }
      out := out[ruleId := out[ruleId] + {line}];
      out := out[ruleId := out[ruleId] + {FileWide}];
    }
    assert parts[..|parts|] == parts;
  }

  /** One more line adds what its marker lists, numbered by its position. */
  lemma IndexOfStep(lines: seq<string>, i: int)
    requires 0 <= i < |lines|
    ensures IndexOf(LineIds(lines[..i + 1])) == MarkAll(IndexOf(LineIds(lines[..i])), MarkerIds(lines[i]), i)
  {
    assert lines[..i + 1][..i] == lines[..i];
    assert LineIds(lines[..i + 1])[..i] == LineIds(lines[..i]);
  }

  /** `collectSuppressions`: for each line holding the marker, each trimmed non-blank
      id after it is recorded with the line's number and the sentinel. */
  method CollectSuppressions(source: string) returns (out: SuppressionMap)
    ensures out == SuppressionIndex(source)
  {
    out := map[];
    var lines := Lines(source);
    for i := 0 to |lines|
      invariant out == IndexOf(LineIds(lines[..i]))
    {
      IndexOfStep(lines, i);
      var line := lines[i];
      var commentIdx := Index(line, Marker);
      if commentIdx == -1 {
        continue;
      }
      var after := line[commentIdx + |Marker|..];
      var parts := Split(after, ',');
      out := RecordIds(out, parts, i);
    }
    assert lines[..|lines|] == lines;
  }
}
