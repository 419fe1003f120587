// The scanner that counts and fingerprints the lines a unified diff adds and deletes. Hashing and
// Unicode's letter and digit classes are parameters.
module AcceptedLines {
  import opened Prelude
  import opened Text

  datatype Env = Env(hash: (string, string) -> string, isAlphanumeric: char -> bool)

  datatype Fingerprint = Fingerprint(pathHash: string, lineHash: string)

  datatype Summary = Summary(added: nat, deleted: nat, fingerprints: seq<Fingerprint>)

  // ----- Paths and lines -----

  function NormalizePath(raw: string): Option<string> {
    var path := Trim(raw, IsUnicodeSpace);
    if path == "/dev/null" then None
    else if "b/" <= path || "a/" <= path then Some(path[2..])
    else Some(path)
  }

  predicate IsWord(w: string) {
    w != [] && forall c :: c in w ==> !IsUnicodeSpace(c)
  }

  // The maximal runs without white space.
  function Words(s: string): (ws: seq<string>)
    ensures forall w :: w in ws ==> IsWord(w)
    ensures s != [] && !IsUnicodeSpace(s[|s| - 1]) ==> ws != []
  {
    if s == [] then []
    else
      var front, last := s[..|s| - 1], s[|s| - 1];
      var ws := Words(front);
      if IsUnicodeSpace(last) then ws
      else if front != [] && !IsUnicodeSpace(front[|front| - 1]) then
        assert IsWord(ws[|ws| - 1]);
        ws[..|ws| - 1] + [ws[|ws| - 1] + [last]]
      else ws + [[last]]
  }

  function Join(ws: seq<string>): string {
    if ws == [] then []
    else if |ws| == 1 then ws[0]
    else Join(ws[..|ws| - 1]) + " " + ws[|ws| - 1]
  }

  function Utf8Length(s: string): nat {
    if s == [] then 0
    else
      var c := s[|s| - 1];
      Utf8Length(s[..|s| - 1]) +
      if c < '\U{0080}' then 1 else if c < '\U{0800}' then 2 else if c < '\U{10000}' then 3 else 4
  }

  function NormalizeLine(env: Env, line: string): Option<string> {
    var normalized := Join(Words(line));
    if Utf8Length(normalized) <= 3 then None
    else if !exists c :: c in normalized && (env.isAlphanumeric(c) || c == '_') then None
    else Some(normalized)
  }

  // ----- The scanner -----

  datatype Kind =
    | FileStart
    | HunkStart
    | NewName(path: string)
    | OldName
    | AddedLine(text: string)
    | DeletedLine
    | Quiet

  function Classify(inHunk: bool, line: string): Kind {
    if "diff --git " <= line then FileStart
    else if "@@ " <= line then HunkStart
    else if !inHunk && "+++ " <= line then NewName(line[4..])
    else if !inHunk && "--- " <= line then OldName
    else if "+" <= line then AddedLine(line[1..])
    else if "-" <= line then DeletedLine
    else Quiet
  }

  datatype Scan = Scan(path: Option<string>, inHunk: bool, seen: Summary)

  function AddedSummary(env: Env, path: Option<string>, text: string): Summary {
    Summary(1, 0,
      if path.Some? && NormalizeLine(env, text).Some?
      then [Fingerprint(env.hash("path", path.value), env.hash("line", NormalizeLine(env, text).value))]
      else [])
  }

  const DELETED := Summary(0, 1, [])
  const NOTHING := Summary(0, 0, [])

  function Plus(a: Summary, b: Summary): Summary {
    Summary(a.added + b.added, a.deleted + b.deleted, a.fingerprints + b.fingerprints)
  }

  function Act(env: Env, st: Scan, kind: Kind): Scan {
    match kind
    case FileStart => st.(path := None, inHunk := false)
    case HunkStart => st.(inHunk := true)
    case NewName(path) => st.(path := NormalizePath(path))
    case OldName => st
    case AddedLine(text) => st.(seen := Plus(st.seen, AddedSummary(env, st.path, text)))
    case DeletedLine => st.(seen := Plus(st.seen, DELETED))
    case Quiet => st
  }

  function ScanLines(env: Env, st: Scan, lines: seq<string>): Scan
    decreases |lines|
  {
    if lines == [] then st
    else ScanLines(env, Act(env, st, Classify(st.inHunk, lines[0])), lines[1..])
  }

  // The first place of `c`, or the length if there is none.
  function IndexOf(s: string, c: char): (i: nat)
    ensures i <= |s|
  {
    if s == [] || s[0] == c then 0 else 1 + IndexOf(s[1..], c)
  }

  function Chomp(line: string): string {
    if line != [] && line[|line| - 1] == '\r' then line[..|line| - 1] else line
  }

  // Rust's `str::lines`: a carriage return is dropped only before a newline.
  function Lines(s: string): seq<string> {
    if s == [] then []
    else
      var i := IndexOf(s, '\n');
      if i == |s| then [s] else [Chomp(s[..i])] + Lines(s[i + 1..])
  }

  const START := Scan(None, false, NOTHING)

  function ScanDiff(env: Env, diff: string): Summary {
    ScanLines(env, START, Lines(diff)).seen
  }

  lemma ScanNext(env: Env, st: Scan, lines: seq<string>, i: nat)
    requires i < |lines|
    ensures ScanLines(env, st, lines[i..])
         == ScanLines(env, Act(env, st, Classify(st.inHunk, lines[i])), lines[i + 1..])
  {
    assert lines[i..][1..] == lines[i + 1..];
  }

  method AcceptAdded(env: Env, path: Option<string>, seen: Summary, text: string) returns (after: Summary)
    ensures after == Plus(seen, AddedSummary(env, path, text))
  {
    var fingerprints := seen.fingerprints;
    assert fingerprints + [] == fingerprints;
    var effective := NormalizeLine(env, text);
    if path.Some? && effective.Some? {
      fingerprints := fingerprints + [Fingerprint(env.hash("path", path.value), env.hash("line", effective.value))];
    }
    after := Summary(seen.added + 1, seen.deleted, fingerprints);
  }

  // The body of the scanner's loop.
  method ScanLine(env: Env, st: Scan, line: string) returns (next: Scan)
    ensures next == Act(env, st, Classify(st.inHunk, line))
  {
    if "diff --git " <= line {
      return st.(path := None, inHunk := false);
    }
    if "@@ " <= line {
      return st.(inHunk := true);
    }
    if !st.inHunk && "+++ " <= line {
      return st.(path := NormalizePath(line[4..]));
    }
    if !st.inHunk && "--- " <= line {
      return st;
    }
    if "+" <= line {
      var seen := AcceptAdded(env, st.path, st.seen, line[1..]);
      return st.(seen := seen);
    }
    if "-" <= line {
      assert st.seen.fingerprints + [] == st.seen.fingerprints;
      return st.(seen := st.seen.(deleted := st.seen.deleted + 1));
    }
    return st;
  }

  method AcceptedLineFingerprints(env: Env, diff: string) returns (summary: Summary)
    ensures summary == ScanDiff(env, diff)
  {
    var lines := Lines(diff);
    ghost var target := ScanLines(env, START, lines);
    assert lines[0..] == lines;
    var st := START;
    for i := 0 to |lines|
      invariant ScanLines(env, st, lines[i..]) == target
    {
      ScanNext(env, st, lines, i);
      st := ScanLine(env, st, lines[i]);
    }
    summary := st.seen;
  }

  // ----- Patches in git's format -----

  // Context, extended headers and markers such as the one for a missing final newline.
  predicate IsQuiet(line: string) {
    !("+" <= line) && !("-" <= line) && !("@@ " <= line) && !("diff --git " <= line)
  }

  datatype Body = Added(text: string) | Deleted(text: string) | Other(line: string)

  datatype Hunk = Hunk(range: string, bodies: seq<Body>)

  // A file without textual changes has no names and no hunks.
  datatype Change = NoText | Text(oldName: string, newName: string, hunks: seq<Hunk>)

  datatype FilePatch = FilePatch(names: string, headers: seq<string>, change: Change)

  function RenderBodies(bodies: seq<Body>): seq<string> {
    if bodies == [] then []
    else
      var line := match bodies[0] case Added(t) => "+" + t case Deleted(t) => "-" + t case Other(l) => l;
      [line] + RenderBodies(bodies[1..])
  }

  function RenderHunks(hunks: seq<Hunk>): seq<string> {
    if hunks == [] then []
    else (["@@ " + hunks[0].range] + RenderBodies(hunks[0].bodies)) + RenderHunks(hunks[1..])
  }

  function RenderChange(change: Change): seq<string> {
    match change
    case NoText => []
    case Text(oldName, newName, hunks) => ["--- " + oldName, "+++ " + newName] + RenderHunks(hunks)
  }

  function RenderFile(file: FilePatch): seq<string> {
    (["diff --git " + file.names] + file.headers) + RenderChange(file.change)
  }

  function RenderFiles(files: seq<FilePatch>): seq<string> {
    if files == [] then [] else RenderFile(files[0]) + RenderFiles(files[1..])
  }

  predicate IsQuietBodies(bodies: seq<Body>) {
    forall b :: b in bodies && b.Other? ==> IsQuiet(b.line)
  }

  predicate IsGitFile(file: FilePatch) {
    && (forall h :: h in file.headers ==> IsQuiet(h))
    && (file.change.Text? ==> forall h :: h in file.change.hunks ==> IsQuietBodies(h.bodies))
  }

  predicate IsGitPatch(files: seq<FilePatch>) {
    && (forall f :: f in files ==> IsGitFile(f))
    && (forall l :: l in RenderFiles(files) ==> '\n' !in l)
  }

  function RenderText(lines: seq<string>): string {
    if lines == [] then [] else (lines[0] + "\n") + RenderText(lines[1..])
  }

  // ----- What a patch holds -----

  function BodySummary(env: Env, path: Option<string>, body: Body): Summary {
    match body
    case Added(text) => AddedSummary(env, path, text)
    case Deleted(_) => DELETED
    case Other(_) => NOTHING
  }

  function BodiesSummary(env: Env, path: Option<string>, bodies: seq<Body>): Summary {
    if bodies == [] then NOTHING
    else Plus(BodySummary(env, path, bodies[0]), BodiesSummary(env, path, bodies[1..]))
  }

  function HunksSummary(env: Env, path: Option<string>, hunks: seq<Hunk>): Summary {
    if hunks == [] then NOTHING
    else Plus(BodiesSummary(env, path, hunks[0].bodies), HunksSummary(env, path, hunks[1..]))
  }

  function ChangeSummary(env: Env, change: Change): Summary {
    match change
    case NoText => NOTHING
    case Text(_, newName, hunks) => HunksSummary(env, NormalizePath(newName), hunks)
  }

  function FilesSummary(env: Env, files: seq<FilePatch>): Summary {
    if files == [] then NOTHING
    else Plus(ChangeSummary(env, files[0].change), FilesSummary(env, files[1..]))
  }
}
