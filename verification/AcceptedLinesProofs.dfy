// What the diff scanner promises: exact counts and fingerprints on git patches, sums over
// concatenated diffs, recovered paths and stable line texts.
module AcceptedLinesProofs {
  import opened Prelude
  import opened Text
  import opened AcceptedLines

  // ----- Summaries add up -----

  lemma PlusIsAMonoid(a: Summary, b: Summary, c: Summary)
    ensures Plus(Plus(a, b), c) == Plus(a, Plus(b, c))
    ensures Plus(a, NOTHING) == a && Plus(NOTHING, a) == a
  {
    assert (a.fingerprints + b.fingerprints) + c.fingerprints == a.fingerprints + (b.fingerprints + c.fingerprints);
    assert a.fingerprints + [] == a.fingerprints && [] + a.fingerprints == a.fingerprints;
  }

  lemma {:induction false} ScanJoins(env: Env, st: Scan, a: seq<string>, b: seq<string>)
    ensures ScanLines(env, st, a + b) == ScanLines(env, ScanLines(env, st, a), b)
    decreases |a|
  {
    if a == [] {
      assert a + b == b;
    } else {
      assert (a + b)[1..] == a[1..] + b;
      ScanJoins(env, Act(env, st, Classify(st.inHunk, a[0])), a[1..], b);
    }
  }

  lemma ActAdds(env: Env, st: Scan, before: Summary, kind: Kind)
    ensures Act(env, st.(seen := Plus(before, st.seen)), kind)
         == var next := Act(env, st, kind); next.(seen := Plus(before, next.seen))
  {
    match kind {
      case AddedLine(text) => PlusIsAMonoid(before, st.seen, AddedSummary(env, st.path, text));
      case DeletedLine => PlusIsAMonoid(before, st.seen, DELETED);
      case _ =>
    }
  }

  // What was seen before a line is only added to.
  lemma {:induction false} ScanAdds(env: Env, st: Scan, before: Summary, lines: seq<string>)
    ensures ScanLines(env, st.(seen := Plus(before, st.seen)), lines)
         == var last := ScanLines(env, st, lines); last.(seen := Plus(before, last.seen))
    decreases |lines|
  {
    if lines != [] {
      var kind := Classify(st.inHunk, lines[0]);
      ActAdds(env, st, before, kind);
      ScanAdds(env, Act(env, st, kind), before, lines[1..]);
    }
  }

  // ----- Joining diffs -----

  lemma {:induction false} IndexOfMeans(s: string, c: char)
    ensures var i := IndexOf(s, c);
            (forall j :: 0 <= j < i ==> s[j] != c) && (i < |s| ==> s[i] == c)
  {
    if s != [] && s[0] != c {
      IndexOfMeans(s[1..], c);
    }
  }

  lemma IndexOfIs(s: string, c: char, i: nat)
    requires i < |s| && s[i] == c && forall j :: 0 <= j < i ==> s[j] != c
    ensures IndexOf(s, c) == i
  {
    IndexOfMeans(s, c);
  }

  lemma FirstLine(s: string, i: nat)
    requires i < |s| && s[i] == '\n' && forall j :: 0 <= j < i ==> s[j] != '\n'
    ensures Lines(s) == [Chomp(s[..i])] + Lines(s[i + 1..])
  {
    IndexOfIs(s, '\n', i);
  }

  lemma CutJoined(a: string, b: string, i: nat)
    requires i < |a|
    ensures (a + b)[..i] == a[..i] && (a + b)[i + 1..] == a[i + 1..] + b
  {
  }

  predicate IsTerminated(s: string) {
    s == [] || s[|s| - 1] == '\n'
  }

  // The first newline of a terminated text.
  lemma FirstNewline(a: string) returns (i: nat)
    requires a != [] && IsTerminated(a)
    ensures i < |a| && a[i] == '\n' && IsTerminated(a[i + 1..])
    ensures forall j :: 0 <= j < i ==> a[j] != '\n'
  {
    i := IndexOf(a, '\n');
    IndexOfMeans(a, '\n');
    assert i <= |a| - 1;
  }

  lemma FirstLineOfJoined(a: string, b: string, i: nat)
    requires i < |a| && a[i] == '\n' && forall j :: 0 <= j < i ==> a[j] != '\n'
    ensures Lines(a + b) == [Chomp(a[..i])] + Lines(a[i + 1..] + b)
  {
    FirstLine(a + b, i);
    CutJoined(a, b, i);
  }

  lemma LinesStep(a: string, b: string) returns (first: seq<string>, rest: string)
    requires a != [] && IsTerminated(a)
    ensures |rest| < |a| && IsTerminated(rest)
    ensures Lines(a) == first + Lines(rest) && Lines(a + b) == first + Lines(rest + b)
  {
    var i := FirstNewline(a);
    first, rest := [Chomp(a[..i])], a[i + 1..];
    FirstLine(a, i);
    FirstLineOfJoined(a, b, i);
  }

  lemma {:induction false} LinesJoin(a: string, b: string)
    requires IsTerminated(a)
    ensures Lines(a + b) == Lines(a) + Lines(b)
    decreases |a|
  {
    if a == [] {
      assert a + b == b;
    } else {
      var first, rest := LinesStep(a, b);
      LinesJoin(rest, b);
      Regroup(first, Lines(rest), Lines(b));
    }
  }

  lemma FirstLineStarts(b: string)
    requires "diff --git " <= b
    ensures Lines(b) != [] && "diff --git " <= Lines(b)[0]
  {
    var i := IndexOf(b, '\n');
    IndexOfMeans(b, '\n');
    assert forall j :: 0 <= j < 11 ==> b[j] == "diff --git "[j] && b[j] != '\n';
    assert i >= 11;
    if i < |b| {
      var line := b[..i];
      assert "diff --git " <= line;
      assert line[10] == ' ';
      assert Lines(b)[0] == Chomp(line);
    }
  }

  // A new file's header forgets the path and the hunk.
  lemma FileStartResets(env: Env, st: Scan, lines: seq<string>)
    requires lines != [] && "diff --git " <= lines[0]
    ensures ScanLines(env, st, lines) == ScanLines(env, START.(seen := st.seen), lines)
  {
  }

  lemma ScanOfJoinedLines(env: Env, a: seq<string>, b: seq<string>)
    requires b != [] && "diff --git " <= b[0]
    ensures ScanLines(env, START, a + b).seen == Plus(ScanLines(env, START, a).seen, ScanLines(env, START, b).seen)
  {
    ScanJoins(env, START, a, b);
    var mid := ScanLines(env, START, a);
    FileStartResets(env, mid, b);
    PlusIsAMonoid(mid.seen, NOTHING, NOTHING);
    assert START.(seen := mid.seen) == START.(seen := Plus(mid.seen, START.seen));
    ScanAdds(env, START, mid.seen, b);
  }

  // Scanning a newline-terminated diff followed by another one adds the two summaries.
  lemma ScanOfJoinedDiffs(env: Env, a: string, b: string)
    requires IsTerminated(a)
    requires "diff --git " <= b
    ensures ScanDiff(env, a + b) == Plus(ScanDiff(env, a), ScanDiff(env, b))
  {
    LinesJoin(a, b);
    FirstLineStarts(b);
    ScanOfJoinedLines(env, Lines(a), Lines(b));
  }

  // ----- Scanning a git patch -----

  lemma ClassifyBody(body: Body)
    requires body.Other? ==> IsQuiet(body.line)
    ensures Classify(true, RenderBodies([body])[0])
         == match body case Added(t) => AddedLine(t) case Deleted(_) => DeletedLine case Other(_) => Quiet
  {
    match body {
      case Added(t) => assert ("+" + t)[0] == '+' && ("+" + t)[1..] == t;
      case Deleted(t) => assert ("-" + t)[0] == '-';
      case Other(_) =>
    }
  }

  lemma {:induction false} ScanBodies(env: Env, st: Scan, bodies: seq<Body>)
    requires st.inHunk && IsQuietBodies(bodies)
    ensures ScanLines(env, st, RenderBodies(bodies)) == st.(seen := Plus(st.seen, BodiesSummary(env, st.path, bodies)))
    decreases |bodies|
  {
    if bodies == [] {
      PlusIsAMonoid(st.seen, NOTHING, NOTHING);
    } else {
      var lines := RenderBodies(bodies);
      var one := BodySummary(env, st.path, bodies[0]);
      assert lines[0] == RenderBodies([bodies[0]])[0] && lines[1..] == RenderBodies(bodies[1..]);
      ClassifyBody(bodies[0]);
      PlusIsAMonoid(st.seen, one, BodiesSummary(env, st.path, bodies[1..]));
      ScanBodies(env, st.(seen := Plus(st.seen, one)), bodies[1..]);
    }
  }

  lemma ScanHunkHeader(env: Env, st: Scan, range: string)
    ensures ScanLines(env, st, ["@@ " + range]) == st.(inHunk := true)
  {
    var line := "@@ " + range;
    assert line[0] == '@' && line[..3] == "@@ ";
    var lines: seq<string> := [line];
    assert lines[1..] == [];
  }

  lemma {:induction false} ScanHunks(env: Env, st: Scan, hunks: seq<Hunk>)
    requires forall h :: h in hunks ==> IsQuietBodies(h.bodies)
    ensures var last := ScanLines(env, st, RenderHunks(hunks));
            last.seen == Plus(st.seen, HunksSummary(env, st.path, hunks))
    decreases |hunks|
  {
    if hunks == [] {
      PlusIsAMonoid(st.seen, NOTHING, NOTHING);
    } else {
      var header, body := ["@@ " + hunks[0].range], RenderBodies(hunks[0].bodies);
      var inside := st.(inHunk := true);
      var one := BodiesSummary(env, st.path, hunks[0].bodies);
      ScanJoins(env, st, header + body, RenderHunks(hunks[1..]));
      ScanJoins(env, st, header, body);
      ScanHunkHeader(env, st, hunks[0].range);
      ScanBodies(env, inside, hunks[0].bodies);
      ScanHunks(env, inside.(seen := Plus(st.seen, one)), hunks[1..]);
      PlusIsAMonoid(st.seen, one, HunksSummary(env, st.path, hunks[1..]));
    }
  }

  lemma QuietLinesAreQuiet(inHunk: bool, line: string)
    requires IsQuiet(line)
    ensures Classify(inHunk, line) == Quiet
  {
    assert "+++ "[0] == '+' && "--- "[0] == '-';
  }

  lemma {:induction false} ScanHeaders(env: Env, st: Scan, headers: seq<string>)
    requires !st.inHunk && forall h :: h in headers ==> IsQuiet(h)
    ensures ScanLines(env, st, headers) == st
    decreases |headers|
  {
    if headers != [] {
      QuietLinesAreQuiet(st.inHunk, headers[0]);
      ScanHeaders(env, st, headers[1..]);
    }
  }

  lemma ScanNames(env: Env, st: Scan, oldName: string, newName: string)
    requires !st.inHunk
    ensures ScanLines(env, st, ["--- " + oldName, "+++ " + newName]) == st.(path := NormalizePath(newName))
  {
    var a, b := "--- " + oldName, "+++ " + newName;
    assert a[0] == '-' && a[..4] == "--- ";
    assert b[0] == '+' && b[..4] == "+++ " && b[4..] == newName;
    var both: seq<string>, one: seq<string> := [a, b], [b];
    assert both[1..] == one && one[1..] == [];
    assert Classify(false, a) == OldName && Classify(false, b) == NewName(newName);
    assert ScanLines(env, st, [b]) == st.(path := NormalizePath(newName));
  }

  lemma ScanChange(env: Env, st: Scan, change: Change)
    requires !st.inHunk && (change.Text? ==> forall h :: h in change.hunks ==> IsQuietBodies(h.bodies))
    ensures ScanLines(env, st, RenderChange(change)).seen == Plus(st.seen, ChangeSummary(env, change))
  {
    match change {
      case NoText =>
        PlusIsAMonoid(st.seen, NOTHING, NOTHING);
      case Text(oldName, newName, hunks) =>
        var names := ["--- " + oldName, "+++ " + newName];
        ScanJoins(env, st, names, RenderHunks(hunks));
        ScanNames(env, st, oldName, newName);
        ScanHunks(env, st.(path := NormalizePath(newName)), hunks);
    }
  }

  lemma ScanFileHeader(env: Env, st: Scan, names: string)
    ensures ScanLines(env, st, ["diff --git " + names]) == START.(seen := st.seen)
  {
    var line := "diff --git " + names;
    assert line[..11] == "diff --git ";
    var lines: seq<string> := [line];
    assert lines[1..] == [];
  }

  lemma ScanFile(env: Env, st: Scan, file: FilePatch)
    requires IsGitFile(file)
    ensures ScanLines(env, st, RenderFile(file)).seen == Plus(st.seen, ChangeSummary(env, file.change))
  {
    var header := ["diff --git " + file.names];
    ScanJoins(env, st, header + file.headers, RenderChange(file.change));
    ScanJoins(env, st, header, file.headers);
    ScanFileHeader(env, st, file.names);
    ScanHeaders(env, START.(seen := st.seen), file.headers);
    ScanChange(env, START.(seen := st.seen), file.change);
  }

  lemma {:induction false} ScanFiles(env: Env, st: Scan, files: seq<FilePatch>)
    requires forall f :: f in files ==> IsGitFile(f)
    ensures ScanLines(env, st, RenderFiles(files)).seen == Plus(st.seen, FilesSummary(env, files))
    decreases |files|
  {
    if files == [] {
      PlusIsAMonoid(st.seen, NOTHING, NOTHING);
    } else {
      ScanJoins(env, st, RenderFile(files[0]), RenderFiles(files[1..]));
      ScanFile(env, st, files[0]);
      var mid := ScanLines(env, st, RenderFile(files[0]));
      ScanFiles(env, mid, files[1..]);
      PlusIsAMonoid(st.seen, ChangeSummary(env, files[0].change), FilesSummary(env, files[1..]));
    }
  }

  // ----- From lines to text -----

  function Chomped(lines: seq<string>): seq<string> {
    if lines == [] then [] else [Chomp(lines[0])] + Chomped(lines[1..])
  }

  lemma {:induction false} LinesOfText(lines: seq<string>)
    requires forall l :: l in lines ==> '\n' !in l
    ensures Lines(RenderText(lines)) == Chomped(lines)
    decreases |lines|
  {
    if lines != [] {
      var line, rest := lines[0], RenderText(lines[1..]);
      var text := (line + "\n") + rest;
      assert line in lines;
      assert forall j :: 0 <= j < |line| ==> text[j] == line[j] && line[j] in line;
      FirstLine(text, |line|);
      assert text[..|line|] == line && text[|line| + 1..] == rest;
      LinesOfText(lines[1..]);
    }
  }

  lemma ChompKeepsPrefix(line: string, prefix: string)
    requires '\r' !in prefix
    ensures prefix <= Chomp(line) <==> prefix <= line
  {
    if prefix <= line && |prefix| == |line| && line != [] {
      assert prefix[|prefix| - 1] in prefix;
    }
  }

  lemma ChompKeepsWords(text: string)
    ensures Words(Chomp(text)) == Words(text)
  {
  }

  lemma ChompKeepsPath(path: string)
    ensures NormalizePath(Chomp(path)) == NormalizePath(path)
  {
    if path != [] && path[|path| - 1] == '\r' {
      TrimDropsLast(path);
    }
  }

  lemma {:induction false} TrimDropsLast(s: string)
    requires s != [] && IsUnicodeSpace(s[|s| - 1])
    ensures Trim(s[..|s| - 1], IsUnicodeSpace) == Trim(s, IsUnicodeSpace)
  {
    if IsUnicodeSpace(s[0]) {
      if |s| > 1 {
        assert s[..|s| - 1][1..] == s[1..][..|s[1..]| - 1];
        TrimDropsLast(s[1..]);
      }
    }
  }

  function ChompedKind(kind: Kind): Kind {
    match kind
    case NewName(path) => NewName(Chomp(path))
    case AddedLine(text) => AddedLine(Chomp(text))
    case _ => kind
  }

  lemma ChompOfTail(line: string, n: nat)
    requires n <= |Chomp(line)|
    ensures Chomp(line)[n..] == Chomp(line[n..])
  {
  }

  lemma ChompKeepsKind(inHunk: bool, line: string)
    ensures Classify(inHunk, Chomp(line)) == ChompedKind(Classify(inHunk, line))
  {
    ChompKeepsPrefix(line, "diff --git ");
    ChompKeepsPrefix(line, "@@ ");
    ChompKeepsPrefix(line, "+++ ");
    ChompKeepsPrefix(line, "--- ");
    ChompKeepsPrefix(line, "+");
    ChompKeepsPrefix(line, "-");
    if "+++ " <= line {
      ChompOfTail(line, 4);
    }
    if "+" <= line {
      ChompOfTail(line, 1);
    }
  }

  lemma ActIgnoresChomp(env: Env, st: Scan, kind: Kind)
    ensures Act(env, st, ChompedKind(kind)) == Act(env, st, kind)
  {
    match kind {
      case NewName(path) => ChompKeepsPath(path);
      case AddedLine(text) => ChompKeepsWords(text);
      case _ =>
    }
  }

  lemma {:induction false} ScanChomped(env: Env, st: Scan, lines: seq<string>)
    ensures ScanLines(env, st, Chomped(lines)) == ScanLines(env, st, lines)
    decreases |lines|
  {
    if lines != [] {
      // A carriage return before the newline changes nothing.
      ChompKeepsKind(st.inHunk, lines[0]);
      ActIgnoresChomp(env, st, Classify(st.inHunk, lines[0]));
      ScanChomped(env, Act(env, st, Classify(st.inHunk, lines[0])), lines[1..]);
    }
  }

  // Scanning the text of any git patch counts exactly its added and deleted body lines, whatever
  // they look like, and fingerprints each effective added line under its file's path, in order.
  lemma ScanOfAGitPatch(env: Env, files: seq<FilePatch>)
    requires IsGitPatch(files)
    ensures ScanDiff(env, RenderText(RenderFiles(files))) == FilesSummary(env, files)
  {
    LinesOfText(RenderFiles(files));
    ScanChomped(env, START, RenderFiles(files));
    ScanFiles(env, START, files);
    PlusIsAMonoid(FilesSummary(env, files), NOTHING, NOTHING);
  }

  // ----- Paths -----

  lemma NewNameTrims(path: string)
    ensures Trim("b/" + path, IsUnicodeSpace) == "b/" + TrimEnd(path, IsUnicodeSpace)
  {
    assert ("b/" + path)[0] == 'b';
    TrimEndAfter("b/", path, IsUnicodeSpace);
  }

  lemma PrefixedPath(path: string)
    ensures "b/" + path != "/dev/null" && "b/" <= "b/" + path && ("b/" + path)[2..] == path
  {
    assert ("b/" + path)[0] == 'b' && "/dev/null"[0] == '/';
  }

  // The path of a new name comes back up to white space at its end.
  lemma NewNameGivesPath(path: string)
    ensures NormalizePath("b/" + path) == Some(TrimEnd(path, IsUnicodeSpace))
    ensures NormalizePath("b/" + path) == Some(path) <==> (path == [] || !IsUnicodeSpace(path[|path| - 1]))
  {
    NewNameTrims(path);
    PrefixedPath(TrimEnd(path, IsUnicodeSpace));
    TrimEndShortens(path);
  }

  lemma {:induction false} TrimEndShortens(s: string)
    ensures |TrimEnd(s, IsUnicodeSpace)| <= |s|
    ensures s != [] && IsUnicodeSpace(s[|s| - 1]) ==> |TrimEnd(s, IsUnicodeSpace)| < |s|
  {
    if s != [] && IsUnicodeSpace(s[|s| - 1]) {
      TrimEndShortens(s[..|s| - 1]);
    }
  }

  lemma NoPathForDeletedFiles()
    ensures NormalizePath("/dev/null") == None
  {
    var s := "/dev/null";
    assert s[0] == '/' && s[8] == 'l';
  }

  // ----- Fingerprints under the files' own paths -----

  datatype NewFile = Kept(path: string) | Removed

  // The name git writes after `+++ `.
  function WrittenName(file: NewFile): string {
    match file case Kept(path) => "b/" + path case Removed => "/dev/null"
  }

  function PathOf(file: NewFile): Option<string> {
    match file case Kept(path) => Some(path) case Removed => None
  }

  // The textual changes name these files, none with white space at its end.
  predicate NamesFiles(files: seq<FilePatch>, news: seq<NewFile>) {
    && |files| == |news|
    && (forall i :: 0 <= i < |files| && files[i].change.Text? ==> files[i].change.newName == WrittenName(news[i]))
    && (forall n :: n in news && n.Kept? && n.path != [] ==> !IsUnicodeSpace(n.path[|n.path| - 1]))
  }

  function SummaryUnder(env: Env, files: seq<FilePatch>, news: seq<NewFile>): Summary
    requires |files| == |news|
  {
    if files == [] then NOTHING
    else
      var own := match files[0].change
        case NoText => NOTHING
        case Text(_, _, hunks) => HunksSummary(env, PathOf(news[0]), hunks);
      Plus(own, SummaryUnder(env, files[1..], news[1..]))
  }

  lemma WrittenNameNames(file: NewFile)
    requires file.Kept? && file.path != [] ==> !IsUnicodeSpace(file.path[|file.path| - 1])
    ensures NormalizePath(WrittenName(file)) == PathOf(file)
  {
    match file {
      case Kept(path) => NewNameGivesPath(path);
      case Removed => NoPathForDeletedFiles();
    }
  }

  lemma {:induction false} SummariesAgree(env: Env, files: seq<FilePatch>, news: seq<NewFile>)
    requires NamesFiles(files, news)
    ensures FilesSummary(env, files) == SummaryUnder(env, files, news)
    decreases |files|
  {
    if files != [] {
      assert news[0] in news && forall n :: n in news[1..] ==> n in news;
      WrittenNameNames(news[0]);
      SummariesAgree(env, files[1..], news[1..]);
    }
  }

  // Scanning the text of a git patch fingerprints every effective added line under the path its
  // file really has.
  lemma ScanFindsTheFiles(env: Env, files: seq<FilePatch>, news: seq<NewFile>)
    requires IsGitPatch(files) && NamesFiles(files, news)
    ensures ScanDiff(env, RenderText(RenderFiles(files))) == SummaryUnder(env, files, news)
  {
    ScanOfAGitPatch(env, files);
    SummariesAgree(env, files, news);
  }

  // ----- Line texts -----

  // One more character of the last word.
  lemma WordsGrow(s: string, c: char)
    requires s != [] && !IsUnicodeSpace(s[|s| - 1]) && !IsUnicodeSpace(c)
    ensures Words(s + [c]) == Words(s)[..|Words(s)| - 1] + [Words(s)[|Words(s)| - 1] + [c]]
  {
    assert (s + [c])[..|s|] == s;
  }

  lemma WordsBegin(s: string, c: char)
    requires (s == [] || IsUnicodeSpace(s[|s| - 1])) && !IsUnicodeSpace(c)
    ensures Words(s + [c]) == Words(s) + [[c]]
  {
    assert (s + [c])[..|s|] == s;
  }

  lemma {:induction false} WordsAfterSpace(s: string, w: string)
    requires IsWord(w) && (s == [] || IsUnicodeSpace(s[|s| - 1]))
    ensures Words(s + w) == Words(s) + [w]
    decreases |w|
  {
    var front, last := w[..|w| - 1], w[|w| - 1];
    assert last in w && w == front + [last];
    if front == [] {
      WordsBegin(s, last);
    } else {
      assert forall c :: c in front ==> c in w;
      assert front[|front| - 1] in w && (s + front)[|s + front| - 1] == front[|front| - 1];
      assert s + w == (s + front) + [last];
      WordsAfterSpace(s, front);
      WordsGrow(s + front, last);
    }
  }

  lemma WordsBeforeSpace(s: string)
    ensures Words(s + " ") == Words(s)
  {
    assert (s + " ")[..|s|] == s;
  }

  lemma {:induction false} WordsOfJoin(ws: seq<string>)
    requires forall w :: w in ws ==> IsWord(w)
    ensures Words(Join(ws)) == ws
    decreases |ws|
  {
    if ws != [] {
      var front, last := ws[..|ws| - 1], ws[|ws| - 1];
      assert last in ws && ws == front + [last];
      WordsOfJoin(front);
      WordsBeforeSpace(Join(front));
      if front == [] {
        WordsAfterSpace([], last);
        assert [] + last == last;
      } else {
        WordsAfterSpace(Join(front) + " ", last);
      }
    }
  }

  // A normalised line normalises to itself, so two lines share a fingerprint text exactly when
  // they have the same words.
  lemma NormalizedLinesAreStable(env: Env, line: string)
    ensures NormalizeLine(env, line).Some? ==> NormalizeLine(env, NormalizeLine(env, line).value) == NormalizeLine(env, line)
  {
    WordsOfJoin(Words(line));
  }

  lemma SameTextMeansSameWords(env: Env, a: string, b: string)
    requires NormalizeLine(env, a).Some?
    ensures NormalizeLine(env, a) == NormalizeLine(env, b) <==> Words(a) == Words(b)
  {
    WordsOfJoin(Words(a));
    WordsOfJoin(Words(b));
  }
}
